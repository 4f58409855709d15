/** What becomes of the results the firmware reports: they are handled in the order in which they come, and the failure
    counter of an entry and the requests for its removal follow them. */
module SoundingReports {
  import opened SoundingModel
  import opened SoundingRuns
  import opened SoundingSafety
  import opened SoundingRates

  // The commands between the firmware, the timers and the command thread.

  /** What an event sends to the command thread. */
  function Sent(i: Info, e: Event): (r: seq<Cmd>)
    ensures |r| <= 1
  {
    match e
    case Report(ok) => [EndPeriod(ok)]
    case PeriodTimer =>
      if i.state == None then []
      else if i.running == 0 then [StartPeriod]
      else if i.delay >= 3 && (i.state == SuStart || i.state == MuStart) then [EndPeriod(false)] else []
    case TimeoutTimer => if i.state == SuStart || i.state == MuStart then [StartPeriod] else []
    case _ => []
  }

  function SentBy(i: Info, events: seq<Event>): seq<Cmd>
    requires Shaped(i) && CanRun(i, events)
    decreases |events|
  {
    if events == [] then [] else Sent(i, events[0]) + SentBy(Do(i, events[0]), events[1..])
  }

  /** How many commands the command thread handles. */
  function HandledBy(events: seq<Event>): nat {
    if events == [] then 0 else (if events[0] == RunCmd then 1 else 0) + HandledBy(events[1..])
  }

  lemma ContinueCmds(i: Info)
    requires Shaped(i)
    ensures Continue(i).cmds == i.cmds
  {
    hide HasPeriod, Continue;
    ContinueShifted(i, 0, i.cmds);
    assert Shifted(i, 0, i.cmds) == i;
  }

  lemma OpenCmds(i: Info)
    requires Shaped(i) && i.state == Init
    ensures Open(i).cmds == i.cmds
  {
    hide HasPeriod, Open;
    OpenShifted(i, 0, i.cmds);
    assert Shifted(i, 0, i.cmds) == i;
  }

  lemma DownCmds(i: Info, ok: bool)
    requires Shaped(i)
    ensures SoundingDown(i, ok).cmds == i.cmds
  {
    if i.state == MuStart || (i.state == SuStart && !i.bfee[i.cur].timedOut) {
      hide HasPeriod, SoundingDown;
      SoundingDownShifted(i, ok, 0, i.cmds);
      assert Shifted(i, 0, i.cmds) == i;
    }
  }

  lemma HandlerCmds(i: Info)
    requires Shaped(i)
    ensures Handler(i).cmds == i.cmds
  {
    hide HasPeriod, Open, Continue;
    if i.state == Init {
      OpenCmds(i);
    } else {
      ContinueCmds(i);
    }
  }

  lemma StepCmds(i: Info, e: Event)
    requires Shaped(i) && Enabled(i, e)
    ensures e == RunCmd ==> i.cmds != []
    ensures Do(i, e).cmds == (if e == RunCmd then i.cmds[1..] else i.cmds) + Sent(i, e)
  {
    hide HasPeriod, Handler, SoundingDown;
    if e == RunCmd {
      var rest := i.(cmds := i.cmds[1..]);
      HandlerCmds(rest);
      if i.cmds[0].EndPeriod? {
        DownCmds(rest, i.cmds[0].ok);
      }
    }
  }

  /** Over every run the command thread has handled the commands in the order in which they were sent: what is queued
      is what was queued and sent, without as many of the first as have been handled. */
  lemma {:induction false} CommandsInOrder(i: Info, events: seq<Event>)
    requires Shaped(i) && CanRun(i, events)
    ensures HandledBy(events) <= |i.cmds + SentBy(i, events)|
    ensures After(i, events).cmds == (i.cmds + SentBy(i, events))[HandledBy(events)..]
    decreases |events|
  {
    hide HasPeriod, Do, Enabled, Sent;
    if events == [] {
    } else {
      var s, e := Do(i, events[0]), events[0];
      StepCmds(i, e);
      CommandsInOrder(s, events[1..]);
      OneMore(i.cmds, Sent(i, e), SentBy(s, events[1..]), e == RunCmd, HandledBy(events[1..]));
    }
  }

  lemma OneMore(cmds: seq<Cmd>, sent: seq<Cmd>, more: seq<Cmd>, one: bool, n: nat)
    requires one ==> cmds != []
    requires n <= |(if one then cmds[1..] else cmds) + sent + more|
    ensures var h := (if one then 1 else 0) + n;
            && h <= |cmds + (sent + more)|
            && ((if one then cmds[1..] else cmds) + sent + more)[n..] == (cmds + (sent + more))[h..]
  {
    if one {
      assert cmds[1..] + sent + more == (cmds + (sent + more))[1..];
    } else {
      assert cmds + sent + more == cmds + (sent + more);
    }
  }

  // The results.

  /** The results among some commands, in order. */
  function Results(cmds: seq<Cmd>): seq<bool> {
    if cmds == [] then [] else (if cmds[0].EndPeriod? then [cmds[0].ok] else []) + Results(cmds[1..])
  }

  /** The result an event delivers: the firmware's own, or a failure when a sounding under way is stopped by force. */
  function Delivered(i: Info, e: Event): (r: seq<bool>)
    ensures |r| <= 1
  {
    match e
    case Report(ok) => [ok]
    case PeriodTimer =>
      if (i.state == SuStart || i.state == MuStart) && i.running != 0 && i.delay >= 3 then [false] else []
    case _ => []
  }

  /** With a result the time-out timer is stopped; otherwise only its own expiry and the command thread change it. */
  lemma ResultStopsTimer(i: Info, e: Event)
    requires Shaped(i) && Enabled(i, e)
    ensures Delivered(i, e) != [] ==> !Do(i, e).timerArmed
    ensures Delivered(i, e) == [] && e != TimeoutTimer && e != RunCmd ==> Do(i, e).timerArmed == i.timerArmed
    ensures e == TimeoutTimer ==> !Do(i, e).timerArmed
  {
    hide HasPeriod, RunCmdDo, TrafficAll;
  }

  /** The event ends the wait of the first result delivered. */
  predicate HandlesResult(i: Info, e: Event) {
    e == RunCmd && i.cmds != [] && i.cmds[0].EndPeriod?
  }

  /** The results delivered and not yet handled, given those due before the event. */
  function StillDue(i: Info, e: Event, due: seq<bool>): seq<bool> {
    (if HandlesResult(i, e) && due != [] then due[1..] else due) + Delivered(i, e)
  }

  function DueAfter(i: Info, events: seq<Event>, due: seq<bool>): seq<bool>
    requires Shaped(i) && CanRun(i, events)
    decreases |events|
  {
    if events == [] then due else DueAfter(Do(i, events[0]), events[1..], StillDue(i, events[0], due))
  }

  lemma {:induction false} ResultsAppend(a: seq<Cmd>, b: seq<Cmd>)
    ensures Results(a + b) == Results(a) + Results(b)
    decreases |a|
  {
    if a == [] {
      assert a + b == b;
    } else {
      assert (a + b)[1..] == a[1..] + b;
      ResultsAppend(a[1..], b);
    }
  }

  lemma ResultsOne(c: Cmd)
    ensures Results([c]) == if c.EndPeriod? then [c.ok] else []
    ensures Results([]) == []
  {
  }

  lemma SentDelivers(i: Info, e: Event)
    ensures Results(Sent(i, e)) == Delivered(i, e)
  {
    if Sent(i, e) != [] {
      ResultsOne(Sent(i, e)[0]);
      assert Sent(i, e) == [Sent(i, e)[0]];
    }
  }

  lemma StepDue(i: Info, e: Event)
    requires Shaped(i) && Enabled(i, e)
    ensures Results(Do(i, e).cmds) == StillDue(i, e, Results(i.cmds))
  {
    hide HasPeriod, Do, Sent, Delivered;
    StepCmds(i, e);
    SentDelivers(i, e);
    ResultsAppend(if e == RunCmd then i.cmds[1..] else i.cmds, Sent(i, e));
  }

  /** Over every run the results still queued are the ones delivered, in order, without those handled. */
  lemma {:induction false} ResultsInOrder(i: Info, events: seq<Event>)
    requires Shaped(i) && CanRun(i, events)
    ensures Results(After(i, events).cmds) == DueAfter(i, events, Results(i.cmds))
    decreases |events|
  {
    hide HasPeriod, Do, Enabled, StillDue, Results;
    if events != [] {
      StepDue(i, events[0]);
      ResultsInOrder(Do(i, events[0]), events[1..]);
    }
  }

  // The failures of an entry.

  /** The result the event counts for entry k, given the results due: the first of them, when it is that of a sounding
      of the entry. A failure does not count against an entry whose sounding information is to be deleted. */
  function Counts(i: Info, e: Event, due: seq<bool>, k: nat): (r: seq<bool>)
    ensures |r| <= 1
  {
    if HandlesResult(i, e) && due != [] && i.state == SuStart && i.cur == k < |i.bfee|
       && (due[0] || !i.bfee[k].deleting)
    then [due[0]] else []
  }

  /** The results counted for entry k, in order. */
  function CountedResults(i: Info, events: seq<Event>, due: seq<bool>, k: nat): seq<bool>
    requires Shaped(i) && CanRun(i, events)
    decreases |events|
  {
    if events == [] then []
    else
      var e := events[0];
      Counts(i, e, due, k) + CountedResults(Do(i, e), events[1..], StillDue(i, e, due), k)
  }

  lemma CountsRecorded(i: Info, e: Event, k: nat)
    ensures Counts(i, e, Results(i.cmds), k) == Recorded(i, e, k)
  {
  }

  lemma {:induction false} CountedAreRecorded(i: Info, events: seq<Event>, k: nat)
    requires Shaped(i) && CanRun(i, events)
    ensures CountedResults(i, events, Results(i.cmds), k) == Verdicts(i, events, k)
    decreases |events|
  {
    hide HasPeriod, Do, Enabled, StillDue, Results, Counts, Recorded;
    if events != [] {
      StepDue(i, events[0]);
      CountsRecorded(i, events[0], k);
      CountedAreRecorded(Do(i, events[0]), events[1..], k);
    }
  }

  /** Over every run the counter of an entry holds the failures delivered for its soundings since the last success,
      modulo 32. */
  lemma {:induction false} FailuresCounted(i: Info, events: seq<Event>, k: nat)
    requires Sane(i) && CanRun(i, events) && k < |i.bfee| && i.bfee[k].failCnt < 32
    ensures var r := After(i, events);
            && k < |r.bfee|
            && r.bfee[k].failCnt
               == Failures(CountedResults(i, events, Results(i.cmds), k), i.bfee[k].failCnt) % 32
  {
    hide Active, OnSu, OnMu, LogOk, HasPeriod, Verdicts, Counted, Failures, After, CanRun, CountedResults, Results;
    CountedOver(i, events, k);
    CountedIs(i.bfee[k].failCnt, Verdicts(i, events, k));
    CountedAreRecorded(i, events, k);
  }

  /** So, after every run from a fresh entry, the next event requests the removal of the entry if and only if it
      handles the 31st failure delivered in a row or, since the counter wraps, the 32nd after such a one. */
  lemma RemovalRequestedIff(i: Info, events: seq<Event>, e: Event, k: nat)
    requires Sane(i) && CanRun(i, events) && k < |i.bfee| && i.bfee[k].failCnt == 0
    requires Enabled(After(i, events), e)
    ensures var s, due := After(i, events), DueAfter(i, events, Results(i.cmds));
            var n := Failures(CountedResults(i, events, Results(i.cmds), k), 0);
            && Shaped(s)
            && multiset(Do(s, e).leaves)[k] == multiset(s.leaves)[k] +
                 if Counts(s, e, due, k) == [false] && (n + 1) % 32 == 31 then 1 else 0
  {
    hide Active, OnSu, OnMu, LogOk, HasPeriod, Do, Enabled, Recorded, Counted, Results, CountedResults, Counts;
    hide Failures;
    EveryRunSane(i, events);
    FailuresCounted(i, events, k);
    StepCounts(After(i, events), e, k);
    ResultsInOrder(i, events);
    CountsRecorded(After(i, events), e, k);
    Wrap(Failures(CountedResults(i, events, Results(i.cmds), k), 0));
  }
}
