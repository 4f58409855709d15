/** What a forced stop of the sounding scheduler leaves behind when no sounding is under way. */
module SoundingHarm {
  import opened SoundingModel
  import opened SoundingRuns
  import opened SoundingSafety
  import opened SoundingRates

  /** Stopping by force keeps the scheduler in order if and only if a sounding is under way. Otherwise a
      StartPeriod is still on its way to the command thread after the period has been written off. */
  lemma ForceStopHarm(i: Info)
    requires Valid(i) && i.running == 1
    ensures Valid(ForceStop(i)) <==> i.state == SuStart || i.state == MuStart
  {
    hide Entries, Fill, Ascending;
    StartsAppend(i.cmds, EndPeriod(false));
    EndStays(i.cmds, EndPeriod(false));
  }

  predicate Started(i: Info) {
    i.state == SuStart || i.state == MuStart
  }

  /** The handler goes on with a sounding, or it takes the period off the counter. */
  lemma {:induction false} ContinueCounts(i: Info)
    requires Shaped(i)
    ensures var r := Continue(i);
            r.running == i.running - (if Started(r) then 0 else 1) && (Started(r) || r.state == Init)
    decreases Unsounded(i.bfee, i.suList)
  {
    hide HasPeriod, Unsounded, NextSu, SuDown, SoundingDown;
    var j := NextSu(i, 0);
    if j < |i.suList| {
      var s := StartSu(i, j);
      StartSuQuiet(i, j);
      UnsoundedDrops(i.bfee, s.bfee, i.suList, j);
      if s.bfee[s.cur].deleting {
        var d := SuDown(s, false);
        DownContinues(s, false);
        SuDownRunning(s);
        ContinueCounts(d);
      }
    }
  }

  lemma SuDownRunning(s: Info)
    requires Shaped(s) && s.state == SuStart
    ensures SuDown(s, false).running == s.running
  {
  }

  /** The StartPeriod that is left opens a period that nobody has counted: unless it starts a sounding, which a
      handler that finds nothing to sound does not, the signed counter goes below zero. */
  lemma ForceStopNegative(i: Info)
    requires Valid(i) && i.running == 1 && !Started(i) && i.cmds != [] && i.cmds[0] == StartPeriod
    ensures var f := ForceStop(i);
            && Shaped(f) && f.cmds != [] && f.running == 0
            && RunCmdDo(f).running == (if Started(RunCmdDo(f)) then 0 else -1)
            && (!Opens(f.(cmds := f.cmds[1..])) ==> RunCmdDo(f).running == -1)
  {
    hide Phase, LogOk, HasPeriod, Open, Opens;
    var f := ForceStop(i);
    var rest := f.(cmds := f.cmds[1..]);
    OpenCounted(rest);
    assert RunCmdDo(f) == Open(rest);
  }

  lemma OpenCounted(i: Info)
    requires Shaped(i) && i.state == Init
    ensures Open(i).running == i.running - (if Started(Open(i)) then 0 else 1)
    ensures Opens(i) || !Started(Open(i))
  {
    hide HasPeriod, Opens, Opened, Continue;
    if Opens(i) {
      OpensOpen(i);
      OpenedRunning(i);
      ContinueCounts(Opened(i));
    } else {
      AbortsOpen(i);
    }
  }

  lemma OpenedRunning(i: Info)
    requires Shaped(i) && i.state == Init
    ensures Opened(i).running == i.running
  {
    hide HasPeriod, Listed;
    ListedFrame(i);
  }

  lemma AbortsOpen(i: Info)
    requires Shaped(i) && i.state == Init && !Opens(i)
    ensures Open(i).running == i.running - 1 && !Started(Open(i))
  {
    hide HasPeriod, ListResult, ResetVars, Listed, Continue;
    ListedFrame(i);
  }

  function TimersDo(i: Info, n: nat): Info
    decreases n
  {
    if n == 0 then i else TimersDo(PeriodTimerDo(i), n - 1)
  }

  /** A counter below zero stays there: every period timer stops a period by force again, and takes it further
      down, so no period is started until the eight bits of the counter have wrapped. */
  lemma {:induction false} NegativeStalls(i: Info, n: nat)
    requires i.state == Init && i.running < 0 && 3 <= i.delay <= 0xFF && i.running - n >= -128
    ensures var r := TimersDo(i, n); r.running == i.running - n && r.cmds == i.cmds && r.state == Init
    decreases n
  {
    if n > 0 {
      NegativeStalls(PeriodTimerDo(i), n - 1);
    }
  }

  // A run that leads there.

  const NOBODY := Bfee(false, false, false, false, 0, 0, false, false, false, false, false, false, 0)

  /** An MU beamformee as _bfee_add_entry enters it: period 40, count 1, and the hardware not ready for it yet. */
  const NEWCOMER := Bfee(true, false, true, false, 40, 1, false, false, false, false, true, false, 0)
  const SOMEBODY := NEWCOMER.(added := true)

  /** Only slot 0 is taken. */
  predicate Alone(bfee: seq<Bfee>) {
    |bfee| == MAX_BEAMFORMEE_ENTRY_NUM && bfee[0].used && forall k :: 0 < k < |bfee| ==> !bfee[k].used
  }

  lemma {:induction false} ChosenAlone(bfee: seq<Bfee>, n: nat, mu: bool)
    requires Alone(bfee) && bfee[0].mu && n <= |bfee|
    ensures Chosen(bfee, n, mu) == if n > 0 && mu && MuWanted(bfee[0]) then [0] else []
    decreases n
  {
    if n > 0 {
      ChosenAlone(bfee, n - 1, mu);
    }
  }

  function Beginning(): Info {
    Entered(seq(MAX_BEAMFORMEE_ENTRY_NUM, k requires 0 <= k < MAX_BEAMFORMEE_ENTRY_NUM =>
                  if k == 0 then NEWCOMER else NOBODY), 40)
  }

  lemma BeginningValid()
    ensures Valid(Beginning()) && Alone(Beginning().bfee) && Beginning().bfee[0] == NEWCOMER
  {
    EnteredValid(Beginning().bfee, 40);
  }

  /** The entry in slot 0 is an MU beamformee that the hardware is ready for and that is to be sounded. */
  predicate Ready(bfee: seq<Bfee>) {
    Alone(bfee) && bfee[0].mu && bfee[0].added && bfee[0].apply
  }

  /** The first period starts with a sounding of the MU group. */
  lemma MuStarts(i: Info)
    requires Valid(i) && i.state == Init && i.cmds == [StartPeriod] && i.running == 1 && !i.scanning
    requires Alone(i.bfee) && i.bfee[0] == SOMEBODY
    ensures var r := RunCmdDo(i);
            r.state == MuStart && r.cmds == [] && r.running == 1 && r.delay == i.delay && Ready(r.bfee) && r.timerArmed
  {
    hide HasPeriod, Phase, LogOk, Listed, ListResult, ResetVars, Continue, SOMEBODY, Alone, Ready;
    var rest := i.(cmds := []);
    ListedMu(rest);
    ListedFrame(rest);
    assert i.cmds[1..] == [];
    assert RunCmdDo(i) == Open(rest) == Continue(Opened(rest));
    MuNext(Opened(rest));
  }

  lemma MuNext(i: Info)
    requires Shaped(i) && i.suList == Fill([], MAX_NUM_BEAMFORMEE_SU) && i.muCnt == 1 && Ready(i.bfee)
    ensures var r := Continue(i); r == StartMu(i) && Ready(r.bfee)
  {
    hide HasPeriod, NextSu, Fill;
    NothingSu(i);
    MarkedAlone(i);
  }

  lemma ChosenMu(bfee: seq<Bfee>, minPeriod: nat)
    requires Alone(bfee) && bfee[0] == SOMEBODY && HasPeriod(bfee, minPeriod)
    ensures Chosen(bfee, |bfee|, false) == [] && Chosen(bfee, |bfee|, true) == [0] && ListResult(bfee) == 0
    ensures Ready(PreparedAll(bfee, minPeriod))
  {
    hide Chosen, NotReady;
    ChosenAlone(bfee, |bfee|, true);
    ChosenAlone(bfee, |bfee|, false);
  }

  lemma ListedMu(i: Info)
    requires Shaped(i) && i.state == Init && Alone(i.bfee) && i.bfee[0] == SOMEBODY
    ensures var g := Listed(i);
            g.suList == Fill([], MAX_NUM_BEAMFORMEE_SU) && g.muCnt == 1 && Ready(g.bfee)
    ensures ListResult(ResetVars(i).bfee) == 0
  {
    hide Chosen, Fill, HasPeriod, ClearedAll, PreparedAll, ListResult;
    ClearedSame(i.bfee);
    ChosenMu(i.bfee, i.minPeriod);
  }

  lemma NothingSu(i: Info)
    requires i.suList == Fill([], MAX_NUM_BEAMFORMEE_SU) && Shaped(i)
    ensures NextSu(i, 0) == |i.suList|
  {
    hide HasPeriod;
  }

  lemma MarkedAlone(i: Info)
    requires Ready(i.bfee) && i.muCnt <= |i.muList|
    ensures Ready(StartMu(i).bfee)
  {
  }

  lemma ClearedSame(bfee: seq<Bfee>)
    requires forall k :: 0 <= k < |bfee| ==> !bfee[k].used || !bfee[k].sounding
    ensures ClearedAll(bfee) == bfee
  {
  }

  lemma FirstStep(i: Info, e: Event, events: seq<Event>)
    requires Shaped(i) && Enabled(i, e) && CanRun(Do(i, e), events)
    ensures CanRun(i, [e] + events) && After(i, [e] + events) == After(Do(i, e), events)
  {
    assert ([e] + events)[1..] == events;
  }

  /** The hardware gets ready for the only beamformee, its sounding starts and times out, and the command thread is
      slow to handle the StartPeriod that follows. Meanwhile the period timer fires three times, traffic to the
      beamformee ceases, and the fourth period timer writes the period off: the counter is 0. Then the command is
      handled, finds nothing to sound, and takes it to -1. When there is traffic again the scheduler is awake, in
      Init, and stays there. */
  lemma ForceStopReachable(n: nat)
    requires n <= 127
    ensures var i := Beginning();
            var run := [HwState(0, true)] + ([PeriodTimer] + ([RunCmd] + ([TimeoutTimer] + SlowThread())));
            && Valid(i) && CanRun(i, run)
            && var r := After(i, run);
               && r.state == Init && r.running == -1 && r.cmds == [] && r.delay == 4
               && TimersDo(r, n).running == -1 - n && TimersDo(r, n).cmds == []
  {
    hide Valid, RunCmdDo, HasPeriod, Started, TimersDo;
    BeginningValid();
    var i := Beginning();
    var i0 := Do(i, HwState(0, true));
    StepKeeps(i, HwState(0, true));
    var i1 := Do(i0, PeriodTimer);
    StepKeeps(i0, PeriodTimer);
    MuStarts(i1);
    StepKeeps(i1, RunCmd);
    var i2 := Do(i1, RunCmd);
    var i3 := Do(i2, TimeoutTimer);
    SlowThreadEnds(i3);
    FirstStep(i2, TimeoutTimer, SlowThread());
    FirstStep(i1, RunCmd, [TimeoutTimer] + SlowThread());
    FirstStep(i0, PeriodTimer, [RunCmd] + ([TimeoutTimer] + SlowThread()));
    FirstStep(i, HwState(0, true), [PeriodTimer] + ([RunCmd] + ([TimeoutTimer] + SlowThread())));
    NegativeStalls(After(i3, SlowThread()), n);
  }

  /** What happens while a START_PERIOD waits. */
  function SlowThread(): seq<Event> {
    [PeriodTimer] + ([PeriodTimer] + ([PeriodTimer] + WrittenOff()))
  }

  /** Traffic ceases, the fourth period timer fires, the command is handled, and traffic comes back. */
  function WrittenOff(): seq<Event> {
    [Traffic({})] + ([PeriodTimer] + ([RunCmd] + ([Traffic({0})] + [])))
  }

  lemma SlowThreadEnds(i: Info)
    requires Shaped(i) && i.state == TimedOut && i.running == 1 && i.delay == 0 && i.cmds == [StartPeriod]
    requires Ready(i.bfee)
    ensures CanRun(i, SlowThread())
    ensures var r := After(i, SlowThread()); r.state == Init && r.running == -1 && r.cmds == [] && r.delay == 4
  {
    hide HasPeriod, WrittenOff, Ready;
    var j := i.(delay := 1);
    var k := i.(delay := 2);
    var l := i.(delay := 3);
    WrittenOffEnds(l);
    FirstStep(k, PeriodTimer, WrittenOff());
    FirstStep(j, PeriodTimer, [PeriodTimer] + WrittenOff());
    FirstStep(i, PeriodTimer, [PeriodTimer] + ([PeriodTimer] + WrittenOff()));
  }

  lemma WrittenOffEnds(l: Info)
    requires Shaped(l) && l.state == TimedOut && l.running == 1 && l.delay == 3 && l.cmds == [StartPeriod]
    requires Ready(l.bfee)
    ensures CanRun(l, WrittenOff())
    ensures var r := After(l, WrittenOff()); r.state == Init && r.running == -1 && r.cmds == [] && r.delay == 4
  {
    hide HasPeriod, RunCmdDo, TrafficAll, Ready, Idle;
    Ceases(l.bfee);
    var m := Do(l, Traffic({}));
    var f := Do(m, PeriodTimer);
    NothingOpens(f);
    var g := Do(f, RunCmd);
    ComesBack(g.bfee);
    FirstStep(g, Traffic({0}), []);
    FirstStep(f, RunCmd, [Traffic({0})] + []);
    FirstStep(m, PeriodTimer, [RunCmd] + ([Traffic({0})] + []));
    FirstStep(l, Traffic({}), [PeriodTimer] + ([RunCmd] + ([Traffic({0})] + [])));
  }

  /** The entry in slot 0 is an MU beamformee that the hardware is ready for, without traffic. */
  predicate Idle(bfee: seq<Bfee>) {
    Alone(bfee) && bfee[0].mu && bfee[0].added && !bfee[0].apply
  }

  lemma Ceases(bfee: seq<Bfee>)
    requires Ready(bfee)
    ensures Idle(TrafficAll(bfee, {}))
  {
  }

  lemma ComesBack(bfee: seq<Bfee>)
    requires Idle(bfee)
    ensures TrafficAll(bfee, {0}) != bfee
  {
    assert TrafficAll(bfee, {0})[0].apply;
  }

  /** Nothing is wanted: the scheduler goes to None, and takes one off the counter. */
  lemma NothingOpens(f: Info)
    requires Shaped(f) && f.state == Init && f.cmds == [StartPeriod] && Idle(f.bfee)
    ensures var r := RunCmdDo(f);
            && Shaped(r) && r.state == None && r.running == f.running - 1 && r.cmds == [] && r.delay == f.delay
            && Idle(r.bfee)
  {
    hide HasPeriod, Listed, ListResult, ResetVars, Idle;
    var rest := f.(cmds := f.cmds[1..]);
    NothingListed(rest);
    ListedFrame(rest);
    assert RunCmdDo(f) == Open(rest) == Abort(Listed(rest), -1);
  }

  lemma NothingListed(i: Info)
    requires Shaped(i) && i.state == Init && Idle(i.bfee)
    ensures ListResult(ResetVars(i).bfee) == -1 && Idle(Listed(i).bfee)
  {
    hide HasPeriod, ListResult, PreparedAll, ClearedAll, GetList, Fill, Chosen, Entries, Packed;
    ListedEntries(i);
    ListedFrame(i);
    ResetFrame(i);
    ClearedQuiet(i.bfee);
    NobodyWanted(ClearedAll(i.bfee));
    PreparedQuiet(ClearedAll(i.bfee), i.minPeriod);
  }

  lemma ClearedQuiet(bfee: seq<Bfee>)
    requires Idle(bfee)
    ensures Idle(ClearedAll(bfee))
    ensures forall minPeriod: nat :: HasPeriod(bfee, minPeriod) ==> HasPeriod(ClearedAll(bfee), minPeriod)
  {
  }

  lemma NobodyWanted(bfee: seq<Bfee>)
    requires Idle(bfee)
    ensures ListResult(bfee) == -1
  {
    hide Chosen;
    ChosenAlone(bfee, |bfee|, true);
    ChosenAlone(bfee, |bfee|, false);
  }

  lemma PreparedQuiet(bfee: seq<Bfee>, minPeriod: nat)
    requires Idle(bfee) && HasPeriod(bfee, minPeriod)
    ensures Idle(PreparedAll(bfee, minPeriod))
  {
    hide Chosen, CountFrom;
  }
}
