/** What the sounding scheduler keeps over every run whatever, periods stopped by force included. */
module SoundingSafety {
  import opened SoundingModel
  import opened SoundingRuns

  /** What holds of the lists and the history, whatever the counter of running periods and the queue say. */
  predicate Sane(i: Info) {
    && Shaped(i) && LogOk(i.log)
    && match i.state
       case None => true
       case Init => true
       case SuStart => Active(i) && OnSu(i)
       case MuStart => Active(i) && OnMu(i)
       case TimedOut => Active(i)
       case _ => false
  }

  lemma ValidSane(i: Info, running: int, cmds: seq<Cmd>)
    requires Valid(i)
    ensures Sane(i.(running := running, cmds := cmds))
  {
    hide Entries, Packed, Marked, MuOnce, Starts;
  }

  /** It holds when the first beamformees have been entered. */
  lemma EnteredSane(bfee: seq<Bfee>, minPeriod: nat)
    requires |bfee| == MAX_BEAMFORMEE_ENTRY_NUM && HasPeriod(bfee, minPeriod)
    ensures Sane(Entered(bfee, minPeriod))
  {
    EnteredValid(bfee, minPeriod);
    ValidSane(Entered(bfee, minPeriod), 0, []);
  }

  /** A sounding that is down makes way for the next one. */
  lemma DownContinues(s: Info, ok: bool)
    requires Shaped(s) && s.state == SuStart && !s.bfee[s.cur].timedOut
    ensures SoundingDown(s, ok) == Continue(SuDown(s, ok))
    ensures Unsounded(SuDown(s, ok).bfee, SuDown(s, ok).suList) <= Unsounded(s.bfee, s.suList)
  {
    hide SuDown, Continue, HasPeriod;
    UnsoundedDrops(s.bfee, SuDown(s, ok).bfee, s.suList, |s.suList|);
  }

  lemma MuDownContinues(s: Info, ok: bool)
    requires Shaped(s) && s.state == MuStart
    ensures SoundingDown(s, ok) == Continue(s.(state := MuSounddown))
  {
    hide Continue, HasPeriod;
  }

  // The counter and the queue do not matter to the handlers.

  function Shifted(i: Info, d: int, cmds: seq<Cmd>): Info {
    i.(running := i.running + d, cmds := cmds)
  }

  lemma {:induction false} NextSuShifted(i: Info, d: int, cmds: seq<Cmd>, j: nat)
    requires j <= |i.suList|
    ensures NextSu(Shifted(i, d, cmds), j) == NextSu(i, j)
    decreases |i.suList| - j
  {
    if j < |i.suList| {
      NextSuShifted(i, d, cmds, j + 1);
    }
  }

  lemma StartsShifted(i: Info, d: int, cmds: seq<Cmd>, j: nat)
    requires Shaped(i) && j < |i.suList| && i.suList[j] < |i.bfee|
    ensures StartSu(Shifted(i, d, cmds), j) == Shifted(StartSu(i, j), d, cmds)
    ensures Shaped(StartSu(i, j)) && Shaped(Shifted(StartSu(i, j), d, cmds))
  {
  }

  lemma DownShifted(s: Info, ok: bool, d: int, cmds: seq<Cmd>)
    requires Shaped(s) && s.state == SuStart
    ensures SuDown(Shifted(s, d, cmds), ok) == Shifted(SuDown(s, ok), d, cmds)
  {
    hide HasPeriod;
  }

  lemma {:induction false} ContinueShifted(i: Info, d: int, cmds: seq<Cmd>)
    requires Shaped(i)
    ensures Continue(Shifted(i, d, cmds)) == Shifted(Continue(i), d, cmds)
    decreases Unsounded(i.bfee, i.suList)
  {
    hide HasPeriod, Unsounded, SuDown, SoundingDown, NextSu;
    var j, t := NextSu(i, 0), Shifted(i, d, cmds);
    NextSuShifted(i, d, cmds, 0);
    if j < |i.suList| {
      var s := StartSu(i, j);
      StartsShifted(i, d, cmds, j);
      if s.bfee[s.cur].deleting {
        UnsoundedDrops(i.bfee, s.bfee, i.suList, j);
        DownContinues(s, false);
        DownContinues(Shifted(s, d, cmds), false);
        DownShifted(s, false, d, cmds);
        ContinueShifted(SuDown(s, false), d, cmds);
      }
    }
  }

  lemma ListedShifted(i: Info, d: int, cmds: seq<Cmd>)
    requires Shaped(i) && i.state == Init
    ensures var t := Shifted(i, d, cmds);
            && Listed(t) == Shifted(Listed(i), d, cmds) && ResetVars(t).bfee == ResetVars(i).bfee
  {
    hide HasPeriod, Chosen, PreparedAll, ClearedAll, Fill;
  }

  lemma OpenShifted(i: Info, d: int, cmds: seq<Cmd>)
    requires Shaped(i) && i.state == Init
    ensures Open(Shifted(i, d, cmds)) == Shifted(Open(i), d, cmds)
  {
    hide HasPeriod, Opens, Opened, Continue, Open;
    OpensShifted(i, d, cmds);
    if Opens(i) {
      OpensOpen(i);
      OpensOpen(Shifted(i, d, cmds));
      ContinueShifted(Opened(i), d, cmds);
    } else {
      AbortShifted(i, d, cmds);
    }
  }

  lemma OpensOpen(i: Info)
    requires Shaped(i) && i.state == Init && Opens(i)
    ensures Open(i) == Continue(Opened(i))
  {
    hide HasPeriod, ListResult, ResetVars, Listed, Continue;
    ListedFrame(i);
  }

  lemma OpensShifted(i: Info, d: int, cmds: seq<Cmd>)
    requires Shaped(i) && i.state == Init
    ensures var t := Shifted(i, d, cmds);
            (Opens(t) <==> Opens(i)) && Opened(t) == Shifted(Opened(i), d, cmds)
  {
    hide HasPeriod, Listed, ResetVars, ListResult;
    ListedShifted(i, d, cmds);
  }

  lemma AbortShifted(i: Info, d: int, cmds: seq<Cmd>)
    requires Shaped(i) && i.state == Init && !Opens(i)
    ensures Open(Shifted(i, d, cmds)) == Shifted(Open(i), d, cmds)
  {
    hide HasPeriod, Listed, ResetVars, ListResult, Continue, Opened, Abort;
    ListedShifted(i, d, cmds);
    ListedFrame(i);
    AbortOfShifted(Listed(i), ListResult(ResetVars(i).bfee), d, cmds);
  }

  lemma AbortOfShifted(g: Info, ret: int, d: int, cmds: seq<Cmd>)
    ensures Abort(Shifted(g, d, cmds), ret) == Shifted(Abort(g, ret), d, cmds)
  {
  }

  // Every event.

  /** The command in hand, handled in the state in which the invariant of the other runs speaks of it. */
  lemma RunCmdSane(i: Info)
    requires Sane(i) && i.cmds != []
    ensures Sane(RunCmdDo(i)) && i.log <= RunCmdDo(i).log
  {
    hide Active, OnSu, OnMu, LogOk, HasPeriod, Open, Continue, SuDown;
    var rest := i.(cmds := i.cmds[1..]);
    var one := i.(running := 1, cmds := []);
    SameSane(i, rest);
    match i.cmds[0] {
      case StartPeriod =>
        if i.state == Init {
          OpenSane(rest, one);
        } else if i.state == TimedOut {
          ContinueSane(rest, one);
        }
      case EndPeriod(ok) =>
        if i.state == SuStart || i.state == MuStart {
          DownSane(rest, one, ok);
        }
    }
  }

  lemma SameSane(i: Info, r: Info)
    requires Sane(i) && r == i.(running := r.running, cmds := r.cmds, timerArmed := r.timerArmed, delay := r.delay)
    ensures Sane(r)
  {
    hide Entries, Packed, Marked, MuOnce;
  }

  lemma OpenSane(rest: Info, one: Info)
    requires Shaped(rest) && LogOk(rest.log) && rest.state == Init && one == rest.(running := 1, cmds := [])
    ensures Sane(Open(rest)) && rest.log <= Open(rest).log
  {
    hide LogOk, HasPeriod, Open, Valid, Sane;
    OpenKeeps(one);
    assert rest == Shifted(one, rest.running - 1, rest.cmds);
    OpenShifted(one, rest.running - 1, rest.cmds);
    ValidSane(Open(one), Open(one).running + rest.running - 1, rest.cmds);
  }

  lemma BetweenOne(i: Info)
    requires Shaped(i) && LogOk(i.log) && Active(i) && i.running == 1 && i.cmds == []
    ensures Between(i)
  {
  }

  lemma ContinueSane(rest: Info, one: Info)
    requires Sane(rest) && rest.state == TimedOut && one == rest.(running := 1, cmds := [])
    ensures Sane(Continue(rest)) && rest.log <= Continue(rest).log
  {
    hide Entries, Packed, Marked, MuOnce, LogOk, HasPeriod, Continue, Valid, Between;
    assert Active(one);
    BetweenOne(one);
    ContinueKeeps(one);
    assert rest == Shifted(one, rest.running - 1, rest.cmds);
    ContinueShifted(one, rest.running - 1, rest.cmds);
    ValidSane(Continue(one), Continue(one).running + rest.running - 1, rest.cmds);
  }

  lemma DownSane(rest: Info, one: Info, ok: bool)
    requires Sane(rest) && (rest.state == SuStart || rest.state == MuStart) && one == rest.(running := 1, cmds := [])
    ensures Sane(SoundingDown(rest, ok)) && rest.log <= SoundingDown(rest, ok).log
  {
    hide Entries, Packed, Marked, MuOnce, LogOk, HasPeriod, SoundingDown, Continue, SuDown, Valid, Between;
    assert Active(one);
    BetweenOne(one);
    DownKeeps(one, ok);
    SoundingDownShifted(one, ok, rest.running - 1, rest.cmds);
    assert rest == Shifted(one, rest.running - 1, rest.cmds);
    ValidSane(SoundingDown(one, ok), SoundingDown(one, ok).running + rest.running - 1, rest.cmds);
  }

  lemma SoundingDownShifted(s: Info, ok: bool, d: int, cmds: seq<Cmd>)
    requires Shaped(s) && (s.state == MuStart || (s.state == SuStart && !s.bfee[s.cur].timedOut))
    ensures SoundingDown(Shifted(s, d, cmds), ok) == Shifted(SoundingDown(s, ok), d, cmds)
  {
    hide HasPeriod, SoundingDown, Continue, SuDown;
    var t := Shifted(s, d, cmds);
    if s.state == MuStart {
      MuDownContinues(s, ok);
      MuDownContinues(t, ok);
      ContinueShifted(s.(state := MuSounddown), d, cmds);
    } else {
      DownContinues(s, ok);
      DownContinues(t, ok);
      DownShifted(s, ok, d, cmds);
      ContinueShifted(SuDown(s, ok), d, cmds);
    }
  }

  lemma TimersSane(i: Info, e: Event)
    requires Sane(i) && Enabled(i, e) && (e == PeriodTimer || e == TimeoutTimer || e.Report?)
    ensures Sane(Do(i, e)) && Do(i, e).log == i.log
  {
    hide Entries, Packed, MuOnce;
  }

  lemma OutsideSane(i: Info, r: Info)
    requires Sane(i) && SameMarks(i, r)
    ensures Sane(r) && r.log == i.log
  {
    hide Entries, Packed, MuOnce;
  }

  lemma StepSane(i: Info, e: Event)
    requires Sane(i) && Enabled(i, e)
    ensures Sane(Do(i, e)) && i.log <= Do(i, e).log
  {
    hide Sane;
    SaneShaped(i);
    match e {
      case RunCmd => RunCmdSane(i);
      case Traffic(wanted) => TrafficSame(i, wanted); OutsideSane(i, Do(i, e));
      case Scan(_) => OutsideSane(i, Do(i, e));
      case HwState(k, added) => HwStateSame(i, k, added); OutsideSane(i, Do(i, e));
      case _ => TimersSane(i, e);
    }
  }

  lemma SaneShaped(i: Info)
    requires Sane(i)
    ensures Shaped(i) && (i.state == SuStart ==> i.cur < |i.bfee| && !i.bfee[i.cur].timedOut)
    ensures forall k :: 0 <= k < |i.log| ==> Complete(i.log[k])
  {
    hide Active, HasPeriod;
  }

  /** Whatever happens, every period that finishes started each SU entry it listed exactly once and the MU
      group at most once; what has been logged stays. */
  lemma {:induction false} EveryRunSane(i: Info, events: seq<Event>)
    requires Sane(i) && CanRun(i, events)
    ensures Sane(After(i, events)) && i.log <= After(i, events).log
    ensures forall k :: 0 <= k < |After(i, events).log| ==> Complete(After(i, events).log[k])
    decreases |events|
  {
    hide Active, OnSu, OnMu, LogOk, HasPeriod, Do, Enabled, Complete;
    if events == [] {
      SaneShaped(i);
    } else {
      StepSane(i, events[0]);
      EveryRunSane(Do(i, events[0]), events[1..]);
    }
  }

  /** In every reachable state with a sounding of an SU entry under way, that entry is not marked timed out:
      the return in _beamforming_sounding_down that would leave out the next StartPeriod is never taken. */
  lemma EarlyReturnUnreachable(i: Info, events: seq<Event>)
    requires Sane(i) && CanRun(i, events)
    ensures var s := After(i, events);
            s.state == SuStart ==> s.cur < |s.bfee| && !s.bfee[s.cur].timedOut
  {
    hide Active, OnMu, LogOk, HasPeriod, CanRun, After;
    EveryRunSane(i, events);
    SaneShaped(After(i, events));
  }
}
