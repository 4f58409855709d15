/** Which entries the sounding scheduler lists, how often it sounds one, and when it gives one up. */
module SoundingRates {
  import opened SoundingModel
  import opened SoundingRuns
  import opened SoundingSafety

  /** The lists take the first entries wanted: one that is left out comes behind a full list. */
  lemma {:induction false} ChosenFirst(bfee: seq<Bfee>, n: nat, mu: bool, k: nat)
    requires k < n <= |bfee| && (if mu then MuWanted(bfee[k]) else SuWanted(bfee[k])) && k !in Chosen(bfee, n, mu)
    ensures var r := Chosen(bfee, n, mu);
            |r| == (if mu then MAX_NUM_BEAMFORMEE_MU else MAX_NUM_BEAMFORMEE_SU) && r[|r| - 1] < k
    decreases n
  {
    hide MuWanted, SuWanted;
    if k < n - 1 {
      ChosenFirst(bfee, n - 1, mu, k);
    }
  }

  // What the handlers leave alone.

  /** r is b but for the marks of the sounding under way. */
  predicate SameButMarks(b: Bfee, r: Bfee) {
    r == b.(sounding := r.sounding, timedOut := r.timedOut, deleting := r.deleting)
  }

  /** From i to r only marks have changed, and no removal has been requested. */
  predicate Quiet(i: Info, r: Info) {
    && |r.bfee| == |i.bfee| && r.leaves == i.leaves && r.minPeriod == i.minPeriod
    && forall k :: 0 <= k < |i.bfee| ==> SameButMarks(i.bfee[k], r.bfee[k])
  }

  lemma QuietTrans(i: Info, s: Info, r: Info)
    requires Quiet(i, s) && Quiet(s, r)
    ensures Quiet(i, r)
  {
  }

  lemma StartSuQuiet(i: Info, j: nat)
    requires Shaped(i) && j < |i.suList| && i.suList[j] < |i.bfee|
    ensures var s := StartSu(i, j); Quiet(i, s) && Shaped(s)
  {
  }

  lemma DeletedQuiet(s: Info)
    requires Shaped(s) && s.state == SuStart && s.bfee[s.cur].deleting
    ensures Quiet(s, SuDown(s, false))
  {
  }

  lemma StartMuQuiet(i: Info)
    requires i.muCnt <= |i.muList|
    ensures Quiet(i, StartMu(i))
  {
  }

  /** The handler counts no failure and requests no removal on its way to the next sounding. */
  lemma {:induction false} ContinueQuiet(i: Info)
    requires Shaped(i)
    ensures Quiet(i, Continue(i))
    decreases Unsounded(i.bfee, i.suList)
  {
    hide Quiet, HasPeriod, Unsounded, SuDown, SoundingDown, NextSu;
    var j := NextSu(i, 0);
    if j < |i.suList| {
      var s := StartSu(i, j);
      UnsoundedDrops(i.bfee, s.bfee, i.suList, j);
      StartSuQuiet(i, j);
      if s.bfee[s.cur].deleting {
        var d := SuDown(s, false);
        DownContinues(s, false);
        DeletedQuiet(s);
        ContinueQuiet(d);
        QuietTrans(i, s, d);
        QuietTrans(i, d, Continue(d));
      } else {
        SameQuiet(i, s, s.(timerArmed := true));
      }
    } else if i.muCnt > 0 {
      StartMuQuiet(i);
    } else {
      FinishQuiet(i);
    }
  }

  lemma SameQuiet(i: Info, s: Info, r: Info)
    requires Quiet(i, s) && r.bfee == s.bfee && r.leaves == s.leaves && r.minPeriod == s.minPeriod
    ensures Quiet(i, r)
  {
  }

  lemma FinishQuiet(i: Info)
    ensures Quiet(i, Finish(i))
  {
  }

  // Failures.

  /** The result that an event records for entry k: a sounding of it is over that was not one to delete it. */
  function Recorded(i: Info, e: Event, k: nat): (r: seq<bool>)
    ensures |r| <= 1
  {
    if e == RunCmd && i.cmds != [] && i.cmds[0].EndPeriod? && i.state == SuStart && i.cur == k < |i.bfee|
       && (i.cmds[0].ok || !i.bfee[k].deleting)
    then [i.cmds[0].ok] else []
  }

  function Verdicts(i: Info, events: seq<Event>, k: nat): seq<bool>
    requires Shaped(i) && CanRun(i, events)
    decreases |events|
  {
    if events == [] then [] else Recorded(i, events[0], k) + Verdicts(Do(i, events[0]), events[1..], k)
  }

  /** How many failures a series ends with, carrying on from n. */
  function Failures(results: seq<bool>, n: nat): nat {
    if results == [] then n else Failures(results[1..], if results[0] then 0 else n + 1)
  }

  /** The failure counter after a series of results. */
  function Counted(n: nat, results: seq<bool>): nat
    decreases |results|
  {
    if results == [] then n else Counted(if results[0] then 0 else (n + 1) % 32, results[1..])
  }

  lemma Wrap(n: nat)
    ensures (n % 32 + 1) % 32 == (n + 1) % 32
  {
    var q, r := n / 32, n % 32;
    assert n + 1 == if r == 31 then 32 * (q + 1) else 32 * q + (r + 1);
  }

  lemma {:induction false} CountedIs(n: nat, results: seq<bool>)
    ensures Counted(n % 32, results) == Failures(results, n) % 32
    decreases |results|
  {
    if results != [] {
      Wrap(n);
      CountedIs(if results[0] then 0 else n + 1, results[1..]);
    }
  }

  lemma {:induction false} CountedAppend(n: nat, a: seq<bool>, b: seq<bool>)
    ensures Counted(n, a + b) == Counted(Counted(n, a), b)
    decreases |a|
  {
    if a == [] {
      assert a + b == b;
    } else {
      assert (a + b)[1..] == a[1..] + b;
      CountedAppend(if a[0] then 0 else (n + 1) % 32, a[1..], b);
    }
  }

  /** What one event does to the failure counter of entry k, and to the removals requested for it. */
  predicate CountsFailure(i: Info, e: Event, k: nat, r: Info) {
    && k < |i.bfee| == |r.bfee|
    && r.bfee[k].failCnt == Counted(i.bfee[k].failCnt, Recorded(i, e, k))
    && multiset(r.leaves)[k] == multiset(i.leaves)[k]
         + if Recorded(i, e, k) == [false] && (i.bfee[k].failCnt + 1) % 32 == 31 then 1 else 0
  }

  lemma QuietCounts(i: Info, e: Event, k: nat, s: Info, r: Info)
    requires CountsFailure(i, e, k, s) && Quiet(s, r)
    ensures CountsFailure(i, e, k, r)
  {
    hide Recorded, Counted;
  }

  lemma CountedOne(n: nat, ok: bool)
    ensures Counted(n, [ok]) == if ok then 0 else (n + 1) % 32
    ensures Counted(n, []) == n
  {
  }

  lemma CountAppend(s: seq<nat>, c: nat, k: nat)
    ensures multiset(s + [c])[k] == multiset(s)[k] + if c == k then 1 else 0
  {
  }

  lemma SuDownCounts(i: Info, k: nat)
    requires Shaped(i) && i.cmds != [] && i.cmds[0].EndPeriod? && i.state == SuStart && k < |i.bfee|
    ensures CountsFailure(i, RunCmd, k, SuDown(i.(cmds := i.cmds[1..]), i.cmds[0].ok))
  {
    hide HasPeriod, Counted, SuDown, CountsFailure;
    var ok, b := i.cmds[0].ok, i.bfee[i.cur];
    var r := SuDown(i.(cmds := i.cmds[1..]), ok);
    SuDownIs(i.(cmds := i.cmds[1..]), ok, k);
    CountedOne(i.bfee[k].failCnt, ok);
    CountsBy(i, RunCmd, k, r, if !ok && !b.deleting && (b.failCnt + 1) % 32 == 31 then [i.cur] else []);
  }

  lemma CountsBy(i: Info, e: Event, k: nat, r: Info, more: seq<nat>)
    requires k < |i.bfee| == |r.bfee| && r.bfee[k].failCnt == Counted(i.bfee[k].failCnt, Recorded(i, e, k))
    requires r.leaves == i.leaves + more && |more| <= 1
    requires more == [k] <==> Recorded(i, e, k) == [false] && (i.bfee[k].failCnt + 1) % 32 == 31
    ensures CountsFailure(i, e, k, r)
  {
    hide Recorded, Counted;
    if more == [] {
      assert i.leaves + [] == i.leaves;
    } else {
      CountAppend(i.leaves, more[0], k);
      assert more == [more[0]];
    }
  }

  lemma SuDownIs(i: Info, ok: bool, k: nat)
    requires Shaped(i) && i.state == SuStart && k < |i.bfee|
    ensures var r, b := SuDown(i, ok), i.bfee[i.cur];
            && r.bfee[k].failCnt == (if k != i.cur || (!ok && b.deleting) then i.bfee[k].failCnt
                                     else if ok then 0 else (i.bfee[k].failCnt + 1) % 32)
            && r.leaves == i.leaves + if !ok && !b.deleting && (b.failCnt + 1) % 32 == 31 then [i.cur] else []
  {
    hide HasPeriod;
  }

  lemma NothingCounts(i: Info, e: Event, k: nat, r: Info)
    requires k < |i.bfee| == |r.bfee| && r.bfee[k].failCnt == i.bfee[k].failCnt && r.leaves == i.leaves
    requires Recorded(i, e, k) == []
    ensures CountsFailure(i, e, k, r)
  {
  }

  lemma QuietStep(i: Info, e: Event, k: nat, s: Info, r: Info)
    requires k < |i.bfee| == |s.bfee| && s.bfee[k].failCnt == i.bfee[k].failCnt && s.leaves == i.leaves
    requires Quiet(s, r) && Recorded(i, e, k) == []
    ensures CountsFailure(i, e, k, r)
  {
  }

  lemma PreparedAt(bfee: seq<Bfee>, minPeriod: nat, k: nat)
    requires HasPeriod(bfee, minPeriod) && k < |bfee|
    ensures PreparedAll(bfee, minPeriod)[k]
            == Prepared(bfee[k], k in Chosen(bfee, |bfee|, false) || k in Chosen(bfee, |bfee|, true), minPeriod)
  {
    hide Chosen, SuWanted, MuWanted;
  }

  lemma ClearedAt(bfee: seq<Bfee>, k: nat)
    requires k < |bfee|
    ensures ClearedAll(bfee)[k] == Cleared(bfee[k])
    ensures forall minPeriod: nat :: HasPeriod(bfee, minPeriod) ==> HasPeriod(ClearedAll(bfee), minPeriod)
  {
  }

  /** Entry k is listed when the lists are prepared in i. */
  predicate Chooses(i: Info, k: nat) {
    var bfee := ClearedAll(i.bfee);
    k in Chosen(bfee, |bfee|, false) || k in Chosen(bfee, |bfee|, true)
  }

  /** What preparing the lists makes of entry k. */
  lemma ListedAt(i: Info, k: nat)
    requires Shaped(i) && i.state == Init && k < |i.bfee|
    ensures var g := Listed(i);
            && |g.bfee| == |i.bfee| && g.leaves == i.leaves && g.minPeriod == i.minPeriod
            && g.bfee[k] == Prepared(Cleared(i.bfee[k]), Chooses(i, k), i.minPeriod)
  {
    hide Chosen, Fill, GetList, HasPeriod, SuWanted, MuWanted, Entries, Packed, ClearedAll, PreparedAll;
    ListedFrame(i);
    ListedEntries(i);
    ClearedAt(i.bfee, k);
    PreparedAt(ClearedAll(i.bfee), i.minPeriod, k);
  }

  lemma ListedCounts(i: Info, k: nat)
    requires Shaped(i) && i.state == Init && k < |i.bfee|
    ensures var g := Listed(i); |g.bfee| == |i.bfee| && g.leaves == i.leaves && g.bfee[k].failCnt == i.bfee[k].failCnt
  {
    hide Listed, Chooses;
    ListedAt(i, k);
  }

  lemma OpenCounts(i: Info, k: nat)
    requires Shaped(i) && i.cmds != [] && i.cmds[0] == StartPeriod && i.state == Init && k < |i.bfee|
    ensures CountsFailure(i, RunCmd, k, RunCmdDo(i))
  {
    hide Listed, CountsFailure, ListResult, HasPeriod, Quiet, ResetVars, Continue, Counted;
    var rest := i.(cmds := i.cmds[1..]);
    ListedCounts(rest, k);
    if ListResult(ResetVars(rest).bfee) == 0 && !rest.scanning {
      ContinueQuiet(Opened(rest));
      QuietStep(i, RunCmd, k, Opened(rest), Open(rest));
    } else {
      NothingCounts(i, RunCmd, k, Open(rest));
    }
  }

  lemma RunCmdCounts(i: Info, k: nat)
    requires Sane(i) && i.cmds != [] && k < |i.bfee|
    ensures CountsFailure(i, RunCmd, k, RunCmdDo(i))
  {
    hide CountsFailure, HasPeriod, Quiet, Continue, Counted, SuDown, Active, OnSu, OnMu, LogOk;
    var rest := i.(cmds := i.cmds[1..]);
    match i.cmds[0] {
      case StartPeriod =>
        if i.state == Init {
          OpenCounts(i, k);
        } else if i.state == TimedOut {
          ContinueQuiet(rest);
          QuietStep(i, RunCmd, k, rest, Continue(rest));
        } else {
          NothingCounts(i, RunCmd, k, RunCmdDo(i));
        }
      case EndPeriod(ok) =>
        if i.state == SuStart {
          SuDownCounts(i, k);
          SaneShaped(i);
          DownContinues(rest, ok);
          ContinueQuiet(SuDown(rest, ok));
          QuietCounts(i, RunCmd, k, SuDown(rest, ok), Continue(SuDown(rest, ok)));
        } else if i.state == MuStart {
          MuDownContinues(rest, ok);
          ContinueQuiet(rest.(state := MuSounddown));
          QuietStep(i, RunCmd, k, rest.(state := MuSounddown), Continue(rest.(state := MuSounddown)));
        } else {
          NothingCounts(i, RunCmd, k, RunCmdDo(i));
        }
    }
  }

  lemma StepCounts(i: Info, e: Event, k: nat)
    requires Sane(i) && Enabled(i, e) && k < |i.bfee|
    ensures CountsFailure(i, e, k, Do(i, e))
  {
    hide CountsFailure, Counted, RunCmdDo, Active, OnSu, OnMu, LogOk, HasPeriod;
    if e == RunCmd {
      RunCmdCounts(i, k);
    } else {
      NothingCounts(i, e, k, Do(i, e));
    }
  }

  lemma {:induction false} CountedOver(i: Info, events: seq<Event>, k: nat)
    requires Sane(i) && CanRun(i, events) && k < |i.bfee|
    ensures var r := After(i, events);
            k < |r.bfee| && r.bfee[k].failCnt == Counted(i.bfee[k].failCnt, Verdicts(i, events, k))
    decreases |events|
  {
    hide Active, OnSu, OnMu, LogOk, HasPeriod, Do, Enabled, Recorded;
    if events != [] {
      var s := Do(i, events[0]);
      StepSane(i, events[0]);
      StepCounts(i, events[0], k);
      CountedOver(s, events[1..], k);
      CountedAppend(i.bfee[k].failCnt, Recorded(i, events[0], k), Verdicts(s, events[1..], k));
    }
  }

  // How often an entry is sounded.

  /** The event prepares the lists of a new period. */
  predicate Prepares(i: Info, e: Event) {
    e == RunCmd && i.cmds != [] && i.cmds[0] == StartPeriod && i.state == Init
  }

  /** The event leaves alone whether entry k is to be sounded, and whether the hardware is ready for it. */
  predicate LeavesAlone(i: Info, e: Event, k: nat) {
    k < |i.bfee| &&
    match e
    case Traffic(wanted) => k in wanted <==> i.bfee[k].apply
    case HwState(j, added) => j == k ==> added == i.bfee[k].added
    case _ => true
  }

  predicate LeftAlone(i: Info, events: seq<Event>, k: nat)
    requires Shaped(i) && CanRun(i, events)
    decreases |events|
  {
    events == [] || (LeavesAlone(i, events[0], k) && LeftAlone(Do(i, events[0]), events[1..], k))
  }

  function Preparations(i: Info, events: seq<Event>): nat
    requires Shaped(i) && CanRun(i, events)
    decreases |events|
  {
    if events == [] then 0
    else (if Prepares(i, events[0]) then 1 else 0) + Preparations(Do(i, events[0]), events[1..])
  }

  /** What one event does to the count of entry k. */
  predicate CountsDown(i: Info, e: Event, k: nat, r: Info) {
    && k < |i.bfee| == |r.bfee| && r.minPeriod == i.minPeriod
    && r.bfee[k].used == i.bfee[k].used && r.bfee[k].added == i.bfee[k].added && r.bfee[k].period == i.bfee[k].period
    && r.bfee[k].mu == i.bfee[k].mu
    && (!Prepares(i, e) ==> r.bfee[k].soundCnt == i.bfee[k].soundCnt)
    && (Prepares(i, e) && i.bfee[k].used && i.bfee[k].added && i.minPeriod > 0 ==>
          r.bfee[k].soundCnt == Prepared(i.bfee[k], Chooses(i, k), i.minPeriod).soundCnt)
  }

  lemma QuietCountsDown(i: Info, e: Event, k: nat, s: Info, r: Info)
    requires CountsDown(i, e, k, s) && Quiet(s, r)
    ensures CountsDown(i, e, k, r)
  {
    hide Chooses, Prepares;
  }

  lemma SuDownCountsDown(i: Info, k: nat)
    requires Shaped(i) && i.cmds != [] && i.cmds[0].EndPeriod? && i.state == SuStart && k < |i.bfee|
    ensures CountsDown(i, RunCmd, k, SuDown(i.(cmds := i.cmds[1..]), i.cmds[0].ok))
  {
    hide HasPeriod, Chooses;
  }

  lemma SameCountsDown(i: Info, e: Event, k: nat, r: Info)
    requires k < |i.bfee| == |r.bfee| && r.bfee[k] == i.bfee[k] && r.minPeriod == i.minPeriod && !Prepares(i, e)
    ensures CountsDown(i, e, k, r)
  {
  }

  lemma ListedCountsDown(i: Info, k: nat, s: Info, r: Info)
    requires Shaped(i) && i.cmds != [] && i.cmds[0] == StartPeriod && i.state == Init && k < |i.bfee|
    requires s == i.(cmds := i.cmds[1..])
    requires r.bfee == Listed(s).bfee && r.minPeriod == i.minPeriod
    ensures CountsDown(i, RunCmd, k, r)
  {
    hide Listed, Chooses, Prepared, Cleared, CountFrom;
    ListedAt(s, k);
    SameChoice(i, s, k);
    PreparedCleared(i.bfee[k], Chooses(i, k), i.minPeriod);
  }

  lemma SameChoice(i: Info, s: Info, k: nat)
    requires s.bfee == i.bfee
    ensures Chooses(s, k) == Chooses(i, k)
  {
    hide Chosen, ClearedAll;
  }

  lemma PreparedCleared(b: Bfee, listed: bool, minPeriod: nat)
    requires b.used ==> minPeriod > 0
    ensures var p, q := Prepared(Cleared(b), listed, minPeriod), Prepared(b, listed, minPeriod);
            && p.used == b.used && p.added == b.added && p.period == b.period && p.mu == b.mu
            && p.soundCnt == q.soundCnt
  {
    hide Cleared;
    ClearedParts(b);
    PreparedParts(b, Cleared(b), listed, minPeriod);
  }

  predicate SameCounting(b: Bfee, c: Bfee) {
    && c.used == b.used && c.added == b.added && c.period == b.period && c.mu == b.mu && c.deleting == b.deleting
    && c.soundCnt == b.soundCnt
  }

  lemma ClearedParts(b: Bfee)
    ensures SameCounting(b, Cleared(b))
  {
  }

  lemma PreparedParts(b: Bfee, c: Bfee, listed: bool, minPeriod: nat)
    requires SameCounting(b, c) && (b.used ==> minPeriod > 0)
    ensures var p, q := Prepared(c, listed, minPeriod), Prepared(b, listed, minPeriod);
            && p.used == b.used && p.added == b.added && p.period == b.period && p.mu == b.mu
            && p.soundCnt == q.soundCnt
  {
    hide CountFrom;
  }

  lemma OpenCountsDown(i: Info, k: nat)
    requires Shaped(i) && i.cmds != [] && i.cmds[0] == StartPeriod && i.state == Init && k < |i.bfee|
    ensures CountsDown(i, RunCmd, k, RunCmdDo(i))
  {
    hide Listed, CountsDown, ListResult, HasPeriod, Quiet, ResetVars, Continue;
    var rest := i.(cmds := i.cmds[1..]);
    if ListResult(ResetVars(rest).bfee) == 0 && !rest.scanning {
      ListedCountsDown(i, k, rest, Opened(rest));
      ContinueQuiet(Opened(rest));
      QuietCountsDown(i, RunCmd, k, Opened(rest), Open(rest));
    } else {
      ListedCountsDown(i, k, rest, Open(rest));
    }
  }

  lemma RunCmdCountsDown(i: Info, k: nat)
    requires Sane(i) && i.cmds != [] && k < |i.bfee|
    ensures CountsDown(i, RunCmd, k, RunCmdDo(i))
  {
    hide CountsDown, HasPeriod, Quiet, Continue, SuDown, Active, OnSu, OnMu, LogOk;
    var rest := i.(cmds := i.cmds[1..]);
    match i.cmds[0] {
      case StartPeriod =>
        if i.state == Init {
          OpenCountsDown(i, k);
        } else {
          SameCountsDown(i, RunCmd, k, rest);
          ContinueQuiet(rest);
          QuietCountsDown(i, RunCmd, k, rest, Continue(rest));
        }
      case EndPeriod(ok) =>
        if i.state == SuStart {
          SuDownCountsDown(i, k);
          SaneShaped(i);
          DownContinues(rest, ok);
          ContinueQuiet(SuDown(rest, ok));
          QuietCountsDown(i, RunCmd, k, SuDown(rest, ok), Continue(SuDown(rest, ok)));
        } else if i.state == MuStart {
          var down := rest.(state := MuSounddown);
          SameCountsDown(i, RunCmd, k, down);
          MuDownContinues(rest, ok);
          ContinueQuiet(down);
          QuietCountsDown(i, RunCmd, k, down, Continue(down));
        } else {
          SameCountsDown(i, RunCmd, k, rest);
        }
    }
  }

  lemma StepCountsDown(i: Info, e: Event, k: nat)
    requires Sane(i) && Enabled(i, e) && LeavesAlone(i, e, k)
    ensures CountsDown(i, e, k, Do(i, e))
  {
    hide CountsDown, RunCmdDo, Phase, LogOk;
    match e {
      case RunCmd => RunCmdCountsDown(i, k);
      case TimeoutTimer => TimeoutCountsDown(i, k);
      case _ => SameCountsDown(i, e, k, Do(i, e));
    }
  }

  lemma TimeoutCountsDown(i: Info, k: nat)
    requires Shaped(i) && i.timerArmed && k < |i.bfee|
    ensures CountsDown(i, TimeoutTimer, k, TimeoutDo(i))
  {
    hide HasPeriod, Chooses;
  }

  /** What the run makes of the count. */
  predicate DownBy(b: Bfee, r: Bfee, n: nat) {
    r.used && r.added && r.mu == b.mu && r.period == b.period && r.soundCnt == b.soundCnt - n
  }

  lemma DownByStep(i: Info, e: Event, k: nat, r: Info)
    requires Sane(i) && CountsDown(i, e, k, r) && i.bfee[k].used && i.bfee[k].added
    requires Prepares(i, e) ==> i.bfee[k].soundCnt > 1
    ensures DownBy(i.bfee[k], r.bfee[k], if Prepares(i, e) then 1 else 0)
  {
    hide Active, OnSu, OnMu, LogOk, Chooses, Prepares;
    if Prepares(i, e) && Chooses(i, k) {
      ChosenDue(i, k);
    }
  }

  lemma ChosenDue(i: Info, k: nat)
    requires k < |i.bfee| && Chooses(i, k)
    ensures Due(i.bfee[k])
  {
    hide Chosen;
    var bfee := ClearedAll(i.bfee);
    ClearedAt(i.bfee, k);
    assert SuWanted(bfee[k]) || MuWanted(bfee[k]);
  }

  lemma {:induction false} DownByOver(i: Info, events: seq<Event>, k: nat)
    requires Sane(i) && CanRun(i, events) && LeftAlone(i, events, k)
    requires k < |i.bfee| && i.bfee[k].used && i.bfee[k].added
    requires Preparations(i, events) < i.bfee[k].soundCnt || Preparations(i, events) == 0
    ensures var r := After(i, events); k < |r.bfee| && DownBy(i.bfee[k], r.bfee[k], Preparations(i, events))
    decreases |events|
  {
    hide Active, OnSu, OnMu, LogOk, HasPeriod, Do, Enabled, CountsDown, Prepares, LeavesAlone;
    if events != [] {
      var s := Do(i, events[0]);
      StepSane(i, events[0]);
      StepCountsDown(i, events[0], k);
      DownByStep(i, events[0], k, s);
      DownByOver(s, events[1..], k);
    }
  }

  /** An entry that is listed for sounding comes due again in the c-th preparation after that, c being its sounding
      period in units of the shortest one, modulo 256; and it is not listed in any before, whatever happens to the
      other entries and however the soundings end. */
  lemma Cadence(i: Info, events: seq<Event>, k: nat)
    requires Sane(i) && Prepares(i, RunCmd) && k < |i.bfee|
    requires Chooses(i, k) && (i.bfee[k].mu || !i.bfee[k].deleting)
    requires CanRun(Do(i, RunCmd), events) && LeftAlone(Do(i, RunCmd), events, k)
    ensures i.minPeriod > 0
    ensures var n, c, r := Preparations(Do(i, RunCmd), events), (i.bfee[k].period / i.minPeriod) % 256,
                After(Do(i, RunCmd), events);
            n < c || n == 0 ==> k < |r.bfee| && (Due(r.bfee[k]) <==> n + 1 >= c) && (Chooses(r, k) ==> n + 1 >= c)
  {
    hide Active, OnSu, OnMu, LogOk, HasPeriod, LeftAlone, Preparations, CanRun, After, Chooses, CountsDown, RunCmdDo;
    ChosenDue(i, k);
    ListedStep(i, k);
    var s, n := Do(i, RunCmd), Preparations(Do(i, RunCmd), events);
    if n < s.bfee[k].soundCnt || n == 0 {
      DownByOver(s, events, k);
      var r := After(s, events);
      if Chooses(r, k) {
        ChosenDue(r, k);
      }
    }
  }

  lemma ListedStep(i: Info, k: nat)
    requires Sane(i) && Prepares(i, RunCmd) && k < |i.bfee| && Chooses(i, k) && (i.bfee[k].mu || !i.bfee[k].deleting)
    ensures var s := Do(i, RunCmd);
            && Sane(s) && i.minPeriod > 0 && k < |s.bfee| && s.bfee[k].used && s.bfee[k].added
            && s.bfee[k].soundCnt == (i.bfee[k].period / i.minPeriod) % 256
  {
    hide Active, OnSu, OnMu, LogOk, RunCmdDo, Chooses;
    ChosenDue(i, k);
    StepSane(i, RunCmd);
    StepCountsDown(i, RunCmd, k);
  }
}
