/** What a period lists and what becomes of the marks and the counters that decide about it. */
module SoundingLists {
  import opened SoundingModel
  import opened SoundingRuns
  import opened SoundingSafety
  import opened SoundingRates

  // Which entries are listed.

  /** The hardware has the entry and its count has run out; a single-user beamformee is wanted for a sounding, unless
      its capability is suspended, or to have its sounding information deleted. */
  predicate SuCalledFor(b: Bfee) {
    && b.used && b.added && (b.soundCnt == 0 || b.soundCnt == 1) && !b.mu && b.su
    && (b.deleting || (b.apply && !b.suspended))
  }

  /** A multi-user beamformee only for a sounding. */
  predicate MuCalledFor(b: Bfee) {
    b.used && b.added && (b.soundCnt == 0 || b.soundCnt == 1) && b.mu && b.apply
  }

  lemma ClearedWants(b: Bfee)
    ensures SuWanted(Cleared(b)) <==> SuCalledFor(b)
    ensures MuWanted(Cleared(b)) <==> MuCalledFor(b)
  {
  }

  /** A period lists an entry if and only if it is called for and comes before the end of a full list: two single-user
      entries, six multi-user ones, those with the lowest indices. */
  lemma ListedIff(i: Info, k: nat)
    requires Shaped(i) && i.state == Init && k < |i.bfee|
    ensures var su := Entries(Listed(i).suList);
            && |su| <= 2
            && (k in su ==> SuCalledFor(i.bfee[k]))
            && (SuCalledFor(i.bfee[k]) && k !in su ==> |su| == 2 && su[0] < su[1] < k)
    ensures var mu := Entries(Listed(i).muList);
            && |mu| <= 6
            && (k in mu ==> MuCalledFor(i.bfee[k]))
            && (MuCalledFor(i.bfee[k]) && k !in mu ==> |mu| == 6 && mu[5] < k)
  {
    hide HasPeriod, Listed, Entries, Packed, PreparedAll, Chosen, SuWanted, MuWanted, SuCalledFor, MuCalledFor, Cleared;
    hide ClearedAll;
    ListedEntries(i);
    var bfee := ClearedAll(i.bfee);
    ClearedAt(i.bfee, k);
    ClearedWants(i.bfee[k]);
    ChosenIff(bfee, k, false);
    ChosenIff(bfee, k, true);
  }

  lemma ChosenIff(bfee: seq<Bfee>, k: nat, mu: bool)
    requires k < |bfee|
    ensures var r, wanted := Chosen(bfee, |bfee|, mu), if mu then MuWanted(bfee[k]) else SuWanted(bfee[k]);
            var max := if mu then 6 else 2;
            && |r| <= max && (k in r ==> wanted)
            && (wanted && k !in r ==> |r| == max && r[max - 1] < k && (max == 2 ==> r[0] < r[1]))
  {
    hide Chosen, SuWanted, MuWanted;
    if (if mu then MuWanted(bfee[k]) else SuWanted(bfee[k])) && k !in Chosen(bfee, |bfee|, mu) {
      ChosenFirst(bfee, |bfee|, mu, k);
    }
  }

  /** An entry is a candidate for sounding when it is listed for one, or has been one and was not sounded since. */
  lemma CandidateIff(i: Info, k: nat)
    requires Shaped(i) && i.state == Init && k < |i.bfee|
    ensures var b, r := i.bfee[k], Listed(i).bfee[k];
            r.candidate <==> (Chooses(i, k) && (b.mu || !b.deleting)) || (b.candidate && !(b.used && b.sounding))
  {
    hide Listed, HasPeriod, CountFrom;
    ListedAt(i, k);
    if Chooses(i, k) {
      ChosenDue(i, k);
    }
    hide Chooses;
  }

  // What the traffic decides.

  /** An entry is to be sounded afterwards if and only if it is wanted. One wanted anew or no more is due at once,
      and one no more wanted is marked to have its sounding information deleted; the others are left alone. */
  lemma TrafficDecides(i: Info, wanted: set<nat>, k: nat)
    requires k < |i.bfee| && i.bfee[k].used
    ensures var b, r := i.bfee[k], TrafficDo(i, wanted).bfee[k];
            && (r.apply <==> k in wanted)
            && (r.deleting <==> b.deleting || (b.apply && k !in wanted))
            && (r.apply == b.apply ==> r == b)
            && (r.apply != b.apply && b.added ==> Due(r))
            && r == b.(apply := r.apply, deleting := r.deleting, soundCnt := r.soundCnt)
  {
  }

  /** It wakes an idle scheduler when it decides about any entry anew, and then only. */
  lemma TrafficWakesIff(i: Info, wanted: set<nat>)
    requires i.state == None
    ensures TrafficDo(i, wanted).state == Init <==>
              exists k: nat :: k < |i.bfee| && i.bfee[k].used && (i.bfee[k].apply <==> k !in wanted)
    ensures TrafficDo(i, wanted).state == Init || TrafficDo(i, wanted) == i
  {
    var bfee := TrafficAll(i.bfee, wanted);
    if bfee != i.bfee {
      var k: nat :| k < |i.bfee| && bfee[k] != i.bfee[k];
      assert bfee[k] == Traffic1(i.bfee[k], k in wanted);
    } else if k: nat :| k < |i.bfee| && i.bfee[k].used && (i.bfee[k].apply <==> k !in wanted) {
      assert bfee[k] == Traffic1(i.bfee[k], k in wanted);
    }
  }

  // The marks for deletion and the count of vain openings.

  /** The handler takes the mark for deletion from exactly the entries it starts a sounding of, and leaves the counts of
      vain openings and of delays alone. */
  predicate ClearsMarks(i: Info, r: Info) {
    && |r.bfee| == |i.bfee| && i.suStarted <= r.suStarted && r.waitCnt == i.waitCnt && r.delay == i.delay
    && forall k :: 0 <= k < |i.bfee| ==>
         (r.bfee[k].deleting <==> i.bfee[k].deleting && k !in r.suStarted[|i.suStarted|..])
  }

  lemma StartClears(i: Info, j: nat, r: Info)
    requires Shaped(i) && j < |i.suList| && i.suList[j] < |i.bfee| && !i.bfee[i.suList[j]].deleting
    requires r == StartSu(i, j).(timerArmed := true)
    ensures ClearsMarks(i, r)
  {
    assert r.suStarted[|i.suStarted|..] == [i.suList[j]];
  }

  lemma PassClears(i: Info, j: nat, d: Info, r: Info)
    requires Shaped(i) && j < |i.suList| && i.suList[j] < |i.bfee|
    requires |d.bfee| == |i.bfee|
    requires forall k :: 0 <= k < |i.bfee| && k != i.suList[j] ==> d.bfee[k] == i.bfee[k]
    requires !d.bfee[i.suList[j]].deleting
    requires d.suStarted == i.suStarted + [i.suList[j]] && d.waitCnt == i.waitCnt && d.delay == i.delay
    requires ClearsMarks(d, r)
    ensures ClearsMarks(i, r)
  {
    assert r.suStarted[|i.suStarted|..] == [i.suList[j]] + r.suStarted[|d.suStarted|..];
  }

  lemma DeletedDown(s: Info)
    requires Shaped(s) && s.state == SuStart && s.bfee[s.cur].deleting
    ensures var d := SuDown(s, false);
            && |d.bfee| == |s.bfee| && d.bfee == s.bfee[s.cur := d.bfee[s.cur]] && !d.bfee[s.cur].deleting
            && d.suStarted == s.suStarted && d.waitCnt == s.waitCnt && d.delay == s.delay
  {
    hide HasPeriod;
  }

  lemma StartFrame(i: Info, j: nat)
    requires Shaped(i) && j < |i.suList| && i.suList[j] < |i.bfee|
    ensures var s, c := StartSu(i, j), i.suList[j];
            && Shaped(s) && s.state == SuStart && s.cur == c && |s.bfee| == |i.bfee|
            && !s.bfee[c].timedOut && s.bfee[c].deleting == i.bfee[c].deleting
            && (forall k :: 0 <= k < |i.bfee| && k != c ==> s.bfee[k] == i.bfee[k])
            && s.suStarted == i.suStarted + [c] && s.waitCnt == i.waitCnt && s.delay == i.delay
  {
  }

  lemma {:induction false} ContinueClears(i: Info)
    requires Shaped(i)
    ensures ClearsMarks(i, Continue(i))
    decreases Unsounded(i.bfee, i.suList)
  {
    hide ClearsMarks, HasPeriod, Unsounded, SuDown, SoundingDown, NextSu, StartSu;
    var j := NextSu(i, 0);
    if j < |i.suList| {
      var s := StartSu(i, j);
      StartFrame(i, j);
      StartsUnsounded(i, j);
      if s.bfee[s.cur].deleting {
        DeletedDown(s);
        var d := SuDown(s, false);
        DownContinues(s, false);
        ContinueClears(d);
        PassClears(i, j, d, Continue(d));
      } else {
        StartClears(i, j, s.(timerArmed := true));
      }
    } else if i.muCnt > 0 {
      MuClears(i);
    } else {
      FinishClears(i);
    }
  }

  lemma StartsUnsounded(i: Info, j: nat)
    requires Shaped(i) && j < |i.suList| && i.suList[j] < |i.bfee| && !i.bfee[i.suList[j]].sounding
    ensures Unsounded(StartSu(i, j).bfee, StartSu(i, j).suList) < Unsounded(i.bfee, i.suList)
  {
    UnsoundedDrops(i.bfee, StartSu(i, j).bfee, i.suList, j);
  }

  lemma MuClears(i: Info)
    requires i.muCnt <= |i.muList|
    ensures ClearsMarks(i, StartMu(i))
  {
  }

  lemma FinishClears(i: Info)
    ensures ClearsMarks(i, Finish(i))
  {
  }

  // Giving up.

  /** A period is opened in vain: nothing is listed, and the hardware is not ready for some entry. */
  predicate InVain(i: Info, e: Event) {
    && Prepares(i, e)
    && (forall k: nat :: k < |i.bfee| ==> !Chooses(i, k))
    && (exists k: nat :: k < |i.bfee| && i.bfee[k].used && !i.bfee[k].added)
  }

  /** How many openings the run ends with that were all in vain, carrying on from n. */
  function VainOnes(i: Info, events: seq<Event>, n: nat): nat
    requires Shaped(i) && CanRun(i, events)
    decreases |events|
  {
    if events == [] then n
    else
      var e := events[0];
      VainOnes(Do(i, e), events[1..], if InVain(i, e) then n + 1 else if Prepares(i, e) then 0 else n)
  }

  /** What one event makes of the count of vain openings. */
  predicate CountsVain(i: Info, e: Event, r: Info) {
    && r.waitCnt == (if InVain(i, e) then (i.waitCnt + 1) % 6 else if Prepares(i, e) then 0 else i.waitCnt)
    && (InVain(i, e) ==> r.state == if i.waitCnt == 5 then None else Init)
  }

  lemma VainResult(i: Info, e: Event, rest: Info)
    requires Shaped(i) && Prepares(i, e) && rest == i.(cmds := i.cmds[1..])
    ensures InVain(i, e) <==> ListResult(ResetVars(rest).bfee) == -2
  {
    hide Chosen, HasPeriod;
    var bfee := ClearedAll(i.bfee);
    assert ResetVars(rest).bfee == bfee;
    NoneChosen(i);
    SameReady(i.bfee);
  }

  lemma NoneChosen(i: Info)
    ensures var bfee := ClearedAll(i.bfee);
            (forall k :: 0 <= k < |i.bfee| ==> !Chooses(i, k)) <==>
              Chosen(bfee, |bfee|, false) == [] && Chosen(bfee, |bfee|, true) == []
  {
    hide Chosen;
    var bfee := ClearedAll(i.bfee);
    var su, mu := Chosen(bfee, |bfee|, false), Chosen(bfee, |bfee|, true);
    assert su != [] ==> Chooses(i, su[0]);
    assert mu != [] ==> Chooses(i, mu[0]);
  }

  lemma SameReady(bfee: seq<Bfee>)
    ensures NotReady(ClearedAll(bfee)) <==> exists k :: 0 <= k < |bfee| && bfee[k].used && !bfee[k].added
  {
    var c := ClearedAll(bfee);
    assert forall k :: 0 <= k < |bfee| ==> c[k].used == bfee[k].used && c[k].added == bfee[k].added;
    if k :| 0 <= k < |bfee| && bfee[k].used && !bfee[k].added {
      assert c[k].used && !c[k].added;
    }
  }

  lemma OpenVain(i: Info)
    requires Shaped(i) && Prepares(i, RunCmd) && i.waitCnt < 6
    ensures CountsVain(i, RunCmd, RunCmdDo(i)) && RunCmdDo(i).delay == i.delay
  {
    hide HasPeriod, Listed, ListResult, ResetVars, Continue, InVain, Opened, ClearsMarks, Open, Abort;
    var rest := i.(cmds := i.cmds[1..]);
    VainResult(i, RunCmd, rest);
    assert RunCmdDo(i) == Open(rest);
    if Opens(rest) {
      OpensOpen(rest);
      OpenedWait(rest);
      ContinueClears(Opened(rest));
      ClearsWait(Opened(rest), Continue(Opened(rest)));
    } else {
      ListedFrame(rest);
      OpenAborts(rest);
      AbortVain(Listed(rest), ListResult(ResetVars(rest).bfee));
    }
  }

  lemma OpenAborts(i: Info)
    requires Shaped(i) && i.state == Init && !Opens(i)
    ensures Open(i) == Abort(Listed(i), ListResult(ResetVars(i).bfee))
  {
    hide HasPeriod, ListResult, ResetVars, Listed, Continue, Abort;
    ListedFrame(i);
  }

  lemma AbortVain(g: Info, ret: int)
    requires g.state == Init && g.waitCnt < 6 && (ret == 0 || ret == -1 || ret == -2)
    ensures var r := Abort(g, ret);
            && r.delay == g.delay && r.waitCnt == (if ret == -2 then (g.waitCnt + 1) % 6 else 0)
            && (ret == -2 ==> r.state == if g.waitCnt == 5 then None else Init)
  {
  }

  lemma OpenedWait(i: Info)
    requires Shaped(i) && i.state == Init
    ensures Opened(i).waitCnt == 0 && Opened(i).delay == i.delay
  {
    hide Listed, HasPeriod;
  }

  lemma ClearsWait(i: Info, r: Info)
    requires ClearsMarks(i, r)
    ensures r.waitCnt == i.waitCnt && r.delay == i.delay
  {
  }

  lemma HandledWait(i: Info)
    requires Shaped(i) && i.cmds != [] && !Prepares(i, RunCmd)
    ensures RunCmdDo(i).waitCnt == i.waitCnt && RunCmdDo(i).delay == i.delay
  {
    hide HasPeriod, Open, Continue, SuDown, SoundingDown, ClearsMarks;
    var rest := i.(cmds := i.cmds[1..]);
    match i.cmds[0] {
      case StartPeriod => ContinueClears(rest); ClearsWait(rest, Continue(rest));
      case EndPeriod(ok) => DownWait(rest, ok);
    }
  }

  lemma DownWait(s: Info, ok: bool)
    requires Shaped(s)
    ensures SoundingDown(s, ok).waitCnt == s.waitCnt && SoundingDown(s, ok).delay == s.delay
  {
    hide HasPeriod, Continue, Open, ClearsMarks;
    if s.state == MuStart {
      hide SoundingDown;
      MuDownContinues(s, ok);
      ContinueClears(s.(state := MuSounddown));
      ClearsWait(s.(state := MuSounddown), Continue(s.(state := MuSounddown)));
    } else if s.state == SuStart && !s.bfee[s.cur].timedOut {
      hide SoundingDown;
      DownContinues(s, ok);
      ContinueClears(SuDown(s, ok));
      ClearsWait(SuDown(s, ok), Continue(SuDown(s, ok)));
    }
  }

  lemma StepVain(i: Info, e: Event)
    requires Shaped(i) && Enabled(i, e) && i.waitCnt < 6
    ensures CountsVain(i, e, Do(i, e))
    ensures e == RunCmd ==> Do(i, e).delay == i.delay
  {
    if e == RunCmd {
      hide HasPeriod, RunCmdDo, CountsVain;
      if Prepares(i, e) {
        OpenVain(i);
      } else {
        HandledWait(i);
        NotVain(i, e, RunCmdDo(i));
      }
    } else {
      OthersWait(i, e);
      hide Do, Enabled, CountsVain;
      NotVain(i, e, Do(i, e));
    }
  }

  lemma OthersWait(i: Info, e: Event)
    requires Shaped(i) && Enabled(i, e) && e != RunCmd
    ensures Do(i, e).waitCnt == i.waitCnt
  {
    hide HasPeriod, TrafficAll;
  }

  lemma NotVain(i: Info, e: Event, r: Info)
    requires !Prepares(i, e) && r.waitCnt == i.waitCnt
    ensures CountsVain(i, e, r)
  {
  }

  lemma Mod6(n: nat)
    ensures (n % 6 + 1) % 6 == (n + 1) % 6
  {
  }

  lemma {:induction false} AfterShaped(i: Info, events: seq<Event>)
    requires Shaped(i) && CanRun(i, events)
    ensures Shaped(After(i, events))
    decreases |events|
  {
    hide Shaped, Do, Enabled;
    if events != [] {
      AfterShaped(Do(i, events[0]), events[1..]);
    }
  }

  lemma {:induction false} VainCounted(i: Info, events: seq<Event>, n: nat)
    requires Shaped(i) && CanRun(i, events) && i.waitCnt == n % 6
    ensures After(i, events).waitCnt == VainOnes(i, events, n) % 6
    decreases |events|
  {
    hide HasPeriod, Do, Enabled, InVain, Prepares;
    if events != [] {
      StepVain(i, events[0]);
      Mod6(n);
      VainCounted(Do(i, events[0]), events[1..],
                  if InVain(i, events[0]) then n + 1 else if Prepares(i, events[0]) then 0 else n);
    }
  }

  /** After every run, the scheduler gives up with the next event that opens a period in vain if and only if that is the
      sixth such opening in a row (or the sixth after it gave up so). */
  lemma GivesUpIff(i: Info, events: seq<Event>, e: Event)
    requires Shaped(i) && CanRun(i, events) && i.waitCnt == 0
    requires Enabled(After(i, events), e) && InVain(After(i, events), e)
    ensures var s, sixth := After(i, events), (VainOnes(i, events, 0) + 1) % 6 == 0;
            Shaped(s) && Do(s, e).state == if sixth then None else Init
  {
    hide Shaped, Do, Enabled, InVain, Prepares, VainOnes, CanRun, After;
    AfterShaped(i, events);
    VainCounted(i, events, 0);
    StepVain(After(i, events), e);
    Sixth(VainOnes(i, events, 0));
  }

  lemma Sixth(n: nat)
    ensures n % 6 == 5 <==> (n + 1) % 6 == 0
  {
  }

  // Delays.

  /** How many period timers have expired since the last one that found no period running, carrying on from n. */
  function TimersSince(i: Info, events: seq<Event>, n: nat): nat
    requires Shaped(i) && CanRun(i, events)
    decreases |events|
  {
    if events == [] then n
    else
      var e := events[0];
      TimersSince(Do(i, e), events[1..],
                  if e != PeriodTimer || i.state == None then n else if i.running == 0 then 0 else n + 1)
  }

  function AtMost(n: nat, max: nat): nat {
    if n <= max then n else max
  }

  lemma StepDelay(i: Info, e: Event, n: nat)
    requires Shaped(i) && Enabled(i, e) && i.waitCnt < 6 && i.delay == AtMost(n, 255)
    ensures var m := if e != PeriodTimer || i.state == None then n else if i.running == 0 then 0 else n + 1;
            Do(i, e).delay == AtMost(m, 255)
    ensures Do(i, e).waitCnt < 6
  {
    hide HasPeriod, RunCmdDo, InVain;
    StepVain(i, e);
  }

  lemma {:induction false} DelaysCounted(i: Info, events: seq<Event>, n: nat)
    requires Shaped(i) && CanRun(i, events) && i.waitCnt < 6 && i.delay == AtMost(n, 255)
    ensures After(i, events).delay == AtMost(TimersSince(i, events, n), 255)
    decreases |events|
  {
    hide Shaped, Do, Enabled, AtMost;
    if events != [] {
      var e := events[0];
      StepDelay(i, e, n);
      DelaysCounted(Do(i, e), events[1..],
                    if e != PeriodTimer || i.state == None then n else if i.running == 0 then 0 else n + 1);
    }
  }

  /** After every run, the next period timer stops the running period by force if and only if it is at least the fourth
      one that has found it running. */
  lemma ForceStopIff(i: Info, events: seq<Event>)
    requires Shaped(i) && CanRun(i, events) && i.waitCnt < 6 && i.delay == 0
    ensures var s := After(i, events);
            && Shaped(s)
            && (s.state != None && s.running != 0 ==>
                  var r, d := Do(s, PeriodTimer), Delayed(s.delay);
                  if TimersSince(i, events, 0) >= 3 then r == ForceStop(s.(delay := d)) else r == s.(delay := d))
  {
    hide Shaped, ForceStop;
    AfterShaped(i, events);
    DelaysCounted(i, events, 0);
  }
}
