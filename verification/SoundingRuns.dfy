/** What the sounding scheduler keeps over every run, and why every period ends. */
module SoundingRuns {
  import opened SoundingModel

  // What holds while a period is open.

  predicate Ascending(s: seq<nat>) {
    forall j, k :: 0 <= j < k < |s| ==> s[j] < s[k]
  }

  /** The list holds its entries first and only unused slots after them. */
  predicate Packed(list: seq<nat>) {
    list == Fill(Entries(list), |list|) && Ascending(Entries(list))
      && forall k :: 0 <= k < |Entries(list)| ==> Entries(list)[k] < MAX_BEAMFORMEE_ENTRY_NUM
  }

  /** The SU entries started so far are the first ones listed, and exactly those are marked sounding. */
  predicate Marked(bfee: seq<Bfee>, su: seq<nat>, started: seq<nat>) {
    && |started| <= |su| && started == su[..|started|]
    && forall k :: 0 <= k < |su| ==> su[k] < |bfee| && (bfee[su[k]].sounding <==> k < |started|)
  }

  predicate MuOnce(muCnt: nat, muStarted: nat, mu: seq<nat>) {
    if muCnt > 0 then muStarted == 0 && muCnt == |mu| else muStarted == (if mu == [] then 0 else 1)
  }

  predicate Active(i: Info) {
    var su, mu := Entries(i.suList), Entries(i.muList);
    Packed(i.suList) && Marked(i.bfee, su, i.suStarted) && MuOnce(i.muCnt, i.muStarted, mu) && (su != [] || mu != [])
  }

  /** A finished period started each SU entry it listed exactly once, in order, and the MU group once if it
      listed one. */
  predicate Complete(p: Period) {
    p.suStarted == p.su && Ascending(p.su) && p.muStarted == (if p.mu == [] then 0 else 1) && (p.su != [] || p.mu != [])
  }

  predicate LogOk(log: seq<Period>) {
    forall k :: 0 <= k < |log| ==> Complete(log[k])
  }

  function Starts(cmds: seq<Cmd>): nat {
    if cmds == [] then 0 else (if cmds[0] == StartPeriod then 1 else 0) + Starts(cmds[1..])
  }

  lemma {:induction false} StartsAppend(cmds: seq<Cmd>, c: Cmd)
    ensures Starts(cmds + [c]) == Starts(cmds) + if c == StartPeriod then 1 else 0
    decreases |cmds|
  {
    if cmds == [] {
      assert (cmds + [c])[1..] == [];
    } else {
      assert (cmds + [c])[0] == cmds[0] && (cmds + [c])[1..] == cmds[1..] + [c];
      StartsAppend(cmds[1..], c);
    }
  }

  predicate EndQueued(cmds: seq<Cmd>) {
    exists k :: 0 <= k < |cmds| && cmds[k].EndPeriod?
  }

  /** A sounding that has been started will come to an end: by its timer, or by a report already queued. */
  predicate Watched(i: Info) {
    i.timerArmed || EndQueued(i.cmds)
  }

  predicate OnSu(i: Info) {
    && i.suStarted != [] && i.cur == i.suStarted[|i.suStarted| - 1]
    && i.cur < |i.bfee| && !i.bfee[i.cur].timedOut
  }

  predicate OnMu(i: Info) {
    |i.suStarted| == |Entries(i.suList)| && i.muCnt == 0
  }

  predicate Phase(i: Info) {
    match i.state
    case None => i.running == 0 && Starts(i.cmds) == 0
    case Init => (i.running == 0 && Starts(i.cmds) == 0) || (i.running == 1 && Starts(i.cmds) == 1)
    case SuStart => i.running == 1 && Starts(i.cmds) == 0 && Active(i) && OnSu(i) && Watched(i)
    case MuStart => i.running == 1 && Starts(i.cmds) == 0 && Active(i) && OnMu(i) && Watched(i)
    case TimedOut => i.running == 1 && Starts(i.cmds) == 1 && Active(i)
    case _ => false
  }

  predicate Valid(i: Info) {
    Shaped(i) && Phase(i) && LogOk(i.log)
  }

  // How much of a period is left.

  /** Soundings the open period has yet to start. */
  function Remaining(i: Info): int {
    |Entries(i.suList)| - |i.suStarted| + if i.muCnt > 0 then 1 else 0
  }

  function Rank(i: Info): int {
    match i.state
    case Init => if i.running == 1 then 2 * MAX_NUM_BEAMFORMEE_SU + 4 else 0
    case SuStart => 2 * Remaining(i) + 2
    case MuStart => 2 * Remaining(i) + 2
    case TimedOut => 2 * Remaining(i) + 1
    case _ => 0
  }

  // The handler.

  lemma NextIs(i: Info)
    requires Shaped(i) && Active(i)
    ensures NextSu(i, 0) == if |i.suStarted| < |Entries(i.suList)| then |i.suStarted| else |i.suList|
    ensures |Entries(i.suList)| <= |i.suList|
    ensures forall k :: 0 <= k < |Entries(i.suList)| ==> i.suList[k] == Entries(i.suList)[k]
  {
    var su, r := Entries(i.suList), NextSu(i, 0);
    EntriesShort(i.suList);
    assert forall k :: 0 <= k < |i.suList| ==> i.suList[k] == (if k < |su| then su[k] else UNUSED_SLOT);
    if |i.suStarted| < |su| {
      assert !i.bfee[su[|i.suStarted|]].sounding;
    }
  }

  lemma {:induction false} EntriesShort(list: seq<nat>)
    ensures |Entries(list)| <= |list|
  {
    if list != [] {
      EntriesShort(list[1..]);
    }
  }

  /** The state in which the handler looks for the next sounding. */
  predicate Between(i: Info) {
    Shaped(i) && Active(i) && i.running == 1 && Starts(i.cmds) == 0 && LogOk(i.log)
  }

  predicate SamePeriod(i: Info, r: Info) {
    r.suList == i.suList && r.muList == i.muList && i.suStarted <= r.suStarted && i.muStarted <= r.muStarted
  }

  /** What the handler does next: it starts a sounding that had not been started, or it finishes the period. */
  predicate MovedOn(i: Info, r: Info) {
    && r.cmds == i.cmds && Rank(r) <= 2 * Remaining(i)
    && match r.state
       case SuStart => r.log == i.log && SamePeriod(i, r)
       case MuStart => r.log == i.log && SamePeriod(i, r)
       case Init => r.running == 0 && r.log == i.log + [Period(Entries(i.suList), Entries(i.muList), r.suStarted,
                 r.muStarted)]
       case _ => false
  }

  /** s is i after one more sounding has been started. */
  predicate OneLess(i: Info, s: Info) {
    && SamePeriod(i, s) && s.cmds == i.cmds && s.log == i.log
    && Remaining(s) == Remaining(i) - 1
  }

  lemma MarkedNext(bfee: seq<Bfee>, su: seq<nat>, started: seq<nat>)
    requires Marked(bfee, su, started) && |started| < |su| && Ascending(su)
    ensures var c := su[|started|];
            Marked(bfee[c := bfee[c].(sounding := true, timedOut := false)], su, started + [c])
  {
  }

  lemma StartSuActive(i: Info)
    requires Between(i) && |i.suStarted| < |Entries(i.suList)|
    ensures |i.suStarted| < |i.suList| && i.suList[|i.suStarted|] == Entries(i.suList)[|i.suStarted|] < |i.bfee|
    ensures var s := StartSu(i, |i.suStarted|); Between(s) && OneLess(i, s)
  {
    hide Entries, Fill, Marked, LogOk, Starts, Packed, NextSu;
    NextIs(i);
    var n, su := |i.suStarted|, Entries(i.suList);
    MarkedInside(i.bfee, su, i.suStarted);
    PackedAscending(i.suList);
    MarkedNext(i.bfee, su, i.suStarted);
  }

  lemma MarkedInside(bfee: seq<Bfee>, su: seq<nat>, started: seq<nat>)
    requires Marked(bfee, su, started)
    ensures forall k :: 0 <= k < |su| ==> su[k] < |bfee|
  {
  }

  lemma PackedAscending(list: seq<nat>)
    requires Packed(list)
    ensures Ascending(Entries(list))
  {
  }

  lemma StartSuKeeps(i: Info)
    requires Between(i) && |i.suStarted| < |Entries(i.suList)|
    ensures NextSu(i, 0) < |i.suList|
    ensures var s := StartSu(i, NextSu(i, 0));
            && Between(s) && Shaped(s) && s.state == SuStart && OnSu(s) && OneLess(i, s)
            && Unsounded(s.bfee, s.suList) < Unsounded(i.bfee, i.suList)
    ensures var s := StartSu(i, NextSu(i, 0)).(timerArmed := true); Valid(s) && MovedOn(i, s)
  {
    hide Entries, Fill, Marked, LogOk, Starts, Packed, MuOnce, NextSu, Ascending, HasPeriod, Unsounded;
    NextIs(i);
    StartSuActive(i);
    UnsoundedDrops(i.bfee, StartSu(i, |i.suStarted|).bfee, i.suList, |i.suStarted|);
  }

  lemma StartMuKeeps(i: Info)
    requires Between(i) && |i.suStarted| == |Entries(i.suList)| && i.muCnt > 0
    ensures Valid(StartMu(i)) && MovedOn(i, StartMu(i))
  {
    assert Marked(StartMu(i).bfee, Entries(i.suList), i.suStarted);
  }

  lemma FinishKeeps(i: Info)
    requires Between(i) && |i.suStarted| == |Entries(i.suList)| && i.muCnt == 0
    ensures Valid(Finish(i)) && MovedOn(i, Finish(i))
  {
  }

  lemma SuDownKeeps(i: Info, ok: bool)
    requires Between(i) && i.state == SuStart
    ensures var d := SuDown(i, ok);
            && Between(d) && Remaining(d) == Remaining(i) && SamePeriod(i, d)
            && d.cmds == i.cmds && d.log == i.log
  {
  }

  lemma {:induction false} ContinueKeeps(i: Info)
    requires Between(i)
    ensures Valid(Continue(i)) && MovedOn(i, Continue(i))
    decreases Unsounded(i.bfee, i.suList), 0
  {
    hide Between, Valid, OnSu, NextSu, Active, StartMu, StartSu, Finish, MovedOn, SoundingDown, Entries;
    BetweenParts(i);
    var n := NextSu(i, 0);
    if |i.suStarted| < |Entries(i.suList)| {
      StartSuKeeps(i);
      var s := StartSu(i, n);
      if s.bfee[s.cur].deleting {
        DownKeeps(s, false);
        OneLessMove(i, s, SoundingDown(s, false));
      }
    } else if i.muCnt > 0 {
      StartMuKeeps(i);
    } else {
      FinishKeeps(i);
    }
  }

  lemma BetweenParts(i: Info)
    requires Between(i)
    ensures Shaped(i) && |i.suStarted| <= |Entries(i.suList)| <= |i.suList|
    ensures NextSu(i, 0) == if |i.suStarted| < |Entries(i.suList)| then |i.suStarted| else |i.suList|
  {
    NextIs(i);
  }

  lemma OneLessMove(i: Info, s: Info, r: Info)
    requires OneLess(i, s) && MovedOn(s, r)
    ensures MovedOn(i, r)
  {
  }

  lemma {:induction false} DownKeeps(i: Info, ok: bool)
    requires Between(i) && ((i.state == SuStart && OnSu(i)) || (i.state == MuStart && OnMu(i)))
    ensures Valid(SoundingDown(i, ok)) && MovedOn(i, SoundingDown(i, ok))
    decreases Unsounded(i.bfee, i.suList), 1
  {
    hide Between, Valid, MovedOn, Active, SuDown, Continue;
    BetweenShaped(i);
    var d := if i.state == MuStart then i.(state := MuSounddown) else SuDown(i, ok);
    if i.state == MuStart {
      MuDownKeeps(i);
    } else {
      SuDownKeeps(i, ok);
      UnsoundedDrops(i.bfee, d.bfee, i.suList, |i.suList|);
    }
    ContinueKeeps(d);
    SameMove(i, d, Continue(d));
  }

  lemma BetweenShaped(i: Info)
    requires Between(i)
    ensures Shaped(i)
  {
  }

  lemma MuDownKeeps(i: Info)
    requires Between(i) && i.state == MuStart
    ensures var d := i.(state := MuSounddown); Between(d) && Remaining(d) == Remaining(i) && SamePeriod(i, d)
  {
    hide Entries, Packed, Marked;
  }

  lemma SameMove(i: Info, d: Info, r: Info)
    requires MovedOn(d, r) && SamePeriod(i, d) && d.cmds == i.cmds && d.log == i.log
    requires Remaining(d) == Remaining(i)
    ensures MovedOn(i, r)
  {
  }

  // A new period.

  lemma {:induction false} EntriesOfFill(s: seq<nat>, n: nat)
    requires |s| <= n && forall k :: 0 <= k < |s| ==> s[k] < MAX_BEAMFORMEE_ENTRY_NUM
    ensures Entries(Fill(s, n)) == s
  {
    var f := Fill(s, n);
    if s != [] {
      assert f[1..] == Fill(s[1..], n - 1);
      EntriesOfFill(s[1..], n - 1);
    }
  }

  lemma PackedFill(s: seq<nat>, n: nat)
    requires |s| <= n && Ascending(s) && forall k :: 0 <= k < |s| ==> s[k] < MAX_BEAMFORMEE_ENTRY_NUM
    ensures Entries(Fill(s, n)) == s && Packed(Fill(s, n))
  {
    hide Entries;
    EntriesOfFill(s, n);
  }

  lemma ListedEntries(i: Info)
    requires Shaped(i) && i.state == Init
    ensures var g, bfee := Listed(i), ClearedAll(i.bfee);
            && Entries(g.suList) == Chosen(bfee, |bfee|, false) && Packed(g.suList)
            && Entries(g.muList) == Chosen(bfee, |bfee|, true) && g.muCnt == |Entries(g.muList)|
            && g.bfee == PreparedAll(bfee, i.minPeriod)
  {
    hide Due, Chosen, SuWanted, MuWanted, Fill, Entries, Packed, PreparedAll, ClearedAll;
    var bfee := ClearedAll(i.bfee);
    assert ResetVars(i).bfee == bfee;
    PackedFill(Chosen(bfee, |bfee|, false), MAX_NUM_BEAMFORMEE_SU);
    PackedFill(Chosen(bfee, |bfee|, true), MAX_NUM_BEAMFORMEE_MU);
  }

  lemma ListedFrame(i: Info)
    requires Shaped(i) && i.state == Init
    ensures var g := Listed(i);
            Shaped(g) && g == i.(bfee := g.bfee, suList := g.suList, muList := g.muList, muCnt := g.muCnt, cur := g.cur)
  {
    hide Chosen, PreparedAll, ClearedAll;
  }

  lemma FreshBetween(o: Info)
    requires Shaped(o) && o.running == 1 && Starts(o.cmds) == 0 && LogOk(o.log) && Packed(o.suList)
    requires var su := Entries(o.suList); forall k :: 0 <= k < |su| ==> su[k] < |o.bfee| && !o.bfee[su[k]].sounding
    requires o.suStarted == [] && o.muStarted == 0 && o.muCnt == |Entries(o.muList)|
    requires Entries(o.suList) != [] || Entries(o.muList) != []
    ensures Between(o)
  {
  }

  lemma OpenedBetween(i: Info)
    requires Shaped(i) && i.state == Init && LogOk(i.log) && i.running == 1 && Starts(i.cmds) == 0
    requires ListResult(ClearedAll(i.bfee)) == 0
    ensures Shaped(Opened(i)) && Between(Opened(i))
  {
    hide Shaped, ResetVars, GetList, PreparedAll, ClearedAll, Chosen, Between, Fill, LogOk, Listed, Packed, Entries;
    ListedFrame(i);
    ListedEntries(i);
    var g, bfee := Listed(i), ClearedAll(i.bfee);
    var su := Entries(g.suList);
    forall k | 0 <= k < |su|
      ensures su[k] < |g.bfee| && !g.bfee[su[k]].sounding
    {
      assert su[k] == Chosen(bfee, |bfee|, false)[k] && bfee[su[k]].used;
    }
    SameShape(g, Opened(i));
    FreshBetween(Opened(i));
  }

  lemma SameShape(i: Info, r: Info)
    requires Shaped(i) && r == i.(waitCnt := r.waitCnt, suStarted := r.suStarted, muStarted := r.muStarted)
    ensures Shaped(r)
  {
  }

  lemma AbortKeeps(g: Info, r: Info)
    requires Shaped(g) && LogOk(g.log) && Starts(g.cmds) == 0 && g.running == 1
    requires r == g.(waitCnt := r.waitCnt, state := r.state, running := 0) && (r.state == Init || r.state == None)
    ensures Valid(r) && Rank(r) == 0
  {
    hide Active, Entries;
  }

  lemma OpenKeeps(i: Info)
    requires Shaped(i) && i.state == Init && LogOk(i.log) && i.running == 1 && Starts(i.cmds) == 0
    ensures Valid(Open(i)) && Open(i).cmds == i.cmds
    ensures Rank(Open(i)) <= 2 * MAX_NUM_BEAMFORMEE_SU + 2
    ensures i.log <= Open(i).log
  {
    hide Shaped, ResetVars, GetList, ListResult, MovedOn, Continue, Between, Valid, Rank, LogOk, Starts, ClearedAll;
    ListedFrame(i);
    ResetFrame(i);
    if ListResult(ClearedAll(i.bfee)) == 0 && !i.scanning {
      OpenedBetween(i);
      ContinueKeeps(Opened(i));
      MovedOnBounds(Opened(i), Continue(Opened(i)));
    } else {
      AbortKeeps(Listed(i), Open(i));
    }
  }

  lemma ResetFrame(i: Info)
    ensures ResetVars(i).bfee == ClearedAll(i.bfee)
  {
  }

  lemma MovedOnBounds(i: Info, r: Info)
    requires MovedOn(i, r) && Between(i)
    ensures Rank(r) <= 2 * MAX_NUM_BEAMFORMEE_SU + 2 && r.cmds == i.cmds && i.log <= r.log
  {
    EntriesShort(i.suList);
  }

  // Every event.

  lemma EndStays(cmds: seq<Cmd>, c: Cmd)
    ensures EndQueued(cmds) || c.EndPeriod? ==> EndQueued(cmds + [c])
  {
    assert (cmds + [c])[|cmds|] == c;
    if EndQueued(cmds) {
      var k :| 0 <= k < |cmds| && cmds[k].EndPeriod?;
      assert (cmds + [c])[k].EndPeriod?;
    }
  }

  /** A sounding period is under way. */
  predicate IsOpen(i: Info) {
    i.state == SuStart || i.state == MuStart || i.state == TimedOut
  }

  /** An open period goes on, or it is over and has been logged. */
  predicate GoesOn(i: Info, r: Info) {
    || (IsOpen(r) && r.log == i.log && SamePeriod(i, r))
    || (r.state == Init && |r.log| == |i.log| + 1 && i.log <= r.log
        && r.log[|i.log|].su == Entries(i.suList) && r.log[|i.log|].mu == Entries(i.muList))
  }

  /** What the handling of one command leads to. */
  predicate Handled(i: Info, r: Info)
    requires i.cmds != []
  {
    && Valid(r) && r.cmds == i.cmds[1..] && i.log <= r.log
    && (IsOpen(i) ==> GoesOn(i, r))
    && (Rank(r) < Rank(i) || (Rank(r) == Rank(i) && r == i.(cmds := i.cmds[1..])))
  }

  lemma ValidParts(i: Info)
    requires Valid(i)
    ensures Shaped(i)
    ensures i.cmds != [] && i.cmds[0] == StartPeriod ==> Starts(i.cmds) == 1 + Starts(i.cmds[1..])
    ensures i.cmds != [] && i.cmds[0] == StartPeriod ==> i.running == 1 && (i.state == Init || i.state == TimedOut)
    ensures i.cmds != [] && i.cmds[0] != StartPeriod ==> Starts(i.cmds) == Starts(i.cmds[1..])
  {
    hide Shaped, LogOk, Active;
  }

  /** The period is opened. */
  lemma OpenHandled(i: Info)
    requires Valid(i) && i.cmds != [] && i.cmds[0] == StartPeriod && i.state == Init
    ensures Handled(i, RunCmdDo(i))
  {
    hide HasPeriod, LogOk, Open, Starts;
    ValidParts(i);
    OpenKeeps(i.(cmds := i.cmds[1..]));
  }

  lemma TimedOutBetween(i: Info)
    requires Valid(i) && i.cmds != [] && i.cmds[0] == StartPeriod && i.state == TimedOut
    ensures Between(i.(cmds := i.cmds[1..]))
  {
    hide Entries, Packed, Marked, LogOk;
  }

  /** The handler goes on after a time-out. */
  lemma TimedOutHandled(i: Info)
    requires Valid(i) && i.cmds != [] && i.cmds[0] == StartPeriod && i.state == TimedOut
    ensures Handled(i, RunCmdDo(i))
  {
    hide Valid, Between, Continue, MovedOn;
    ValidParts(i);
    var rest := i.(cmds := i.cmds[1..]);
    TimedOutBetween(i);
    ContinueKeeps(rest);
    MovedHandled(i, rest, Continue(rest));
  }

  lemma MovedHandled(i: Info, rest: Info, r: Info)
    requires i.cmds != [] && rest == i.(cmds := i.cmds[1..]) && IsOpen(i)
    requires Valid(r) && MovedOn(rest, r)
    ensures Handled(i, r)
  {
    hide Valid, Entries;
  }

  lemma DownBetween(i: Info)
    requires Valid(i) && i.cmds != [] && i.cmds[0] != StartPeriod && (i.state == SuStart || i.state == MuStart)
    ensures var rest := i.(cmds := i.cmds[1..]);
            Between(rest) && if i.state == SuStart then OnSu(rest) else OnMu(rest)
  {
    hide Entries, Packed, Marked, LogOk;
  }

  /** The sounding under way is brought to its end. */
  lemma DownHandled(i: Info)
    requires Valid(i) && i.cmds != [] && i.cmds[0] != StartPeriod && (i.state == SuStart || i.state == MuStart)
    ensures Handled(i, RunCmdDo(i))
  {
    hide Valid, Between, OnSu, OnMu, SoundingDown, MovedOn;
    ValidParts(i);
    var rest := i.(cmds := i.cmds[1..]);
    DownBetween(i);
    DownKeeps(rest, i.cmds[0].ok);
    MovedHandled(i, rest, SoundingDown(rest, i.cmds[0].ok));
  }

  /** An EndPeriod that finds no sounding under way changes nothing. */
  lemma StaleHandled(i: Info)
    requires Valid(i) && i.cmds != [] && i.cmds[0] != StartPeriod && i.state != SuStart && i.state != MuStart
    ensures Handled(i, RunCmdDo(i))
  {
    hide Entries, Packed, Marked, LogOk;
  }

  /** The handling of one command by the command thread. */
  lemma RunCmdKeeps(i: Info)
    requires Valid(i) && i.cmds != []
    ensures Handled(i, RunCmdDo(i))
  {
    hide Valid, Handled;
    ValidParts(i);
    if i.cmds[0] == StartPeriod {
      if i.state == Init {
        OpenHandled(i);
      } else {
        TimedOutHandled(i);
      }
    } else if i.state == SuStart || i.state == MuStart {
      DownHandled(i);
    } else {
      StaleHandled(i);
    }
  }

  /** The event is not a period timer that stops a period by force, finding it still running for the fourth time,
      while no sounding is under way. */
  predicate InOrder(i: Info, e: Event) {
    e == PeriodTimer && i.running != 0 && i.delay >= 3 ==> i.state == SuStart || i.state == MuStart
  }

  lemma PeriodTimerKeeps(i: Info)
    requires Valid(i) && InOrder(i, PeriodTimer)
    ensures Valid(PeriodTimerDo(i)) && PeriodTimerDo(i).log == i.log
    ensures IsOpen(i) ==> GoesOn(i, PeriodTimerDo(i))
  {
    hide Entries, Fill, Ascending, Marked;
    StartsAppend(i.cmds, StartPeriod);
    StartsAppend(i.cmds, EndPeriod(false));
    EndStays(i.cmds, EndPeriod(false));
  }

  lemma ReportKeeps(i: Info, ok: bool)
    requires Valid(i)
    ensures Valid(Do(i, Report(ok))) && Do(i, Report(ok)).log == i.log
    ensures IsOpen(i) ==> GoesOn(i, Do(i, Report(ok)))
  {
    hide Entries, Fill, Ascending, Marked;
    StartsAppend(i.cmds, EndPeriod(ok));
    EndStays(i.cmds, EndPeriod(ok));
  }

  lemma TimeoutKeeps(i: Info)
    requires Valid(i) && i.timerArmed
    ensures Valid(TimeoutDo(i)) && TimeoutDo(i).log == i.log
    ensures IsOpen(i) ==> GoesOn(i, TimeoutDo(i))
    ensures if i.state == SuStart || i.state == MuStart then Rank(TimeoutDo(i)) < Rank(i)
            else TimeoutDo(i) == i.(timerArmed := false)
  {
    hide Entries, Fill, Ascending;
    StartsAppend(i.cmds, StartPeriod);
  }

  /** Nothing that happens to the entries from outside touches their sounding and time-out marks. */
  predicate SameMarks(i: Info, r: Info) {
    && |r.bfee| == |i.bfee|
    && (forall k :: 0 <= k < |i.bfee| ==>
          && r.bfee[k].sounding == i.bfee[k].sounding && r.bfee[k].timedOut == i.bfee[k].timedOut
          && r.bfee[k].used == i.bfee[k].used)
    && (r.state == i.state || (i.state == None && r.state == Init))
    && r == i.(bfee := r.bfee, state := r.state, scanning := r.scanning)
  }

  lemma TrafficSame(i: Info, wanted: set<nat>)
    ensures SameMarks(i, TrafficDo(i, wanted))
  {
    hide TrafficAll, Traffic1;
  }

  lemma HwStateSame(i: Info, k: nat, added: bool)
    requires Shaped(i) && k < |i.bfee|
    ensures SameMarks(i, Do(i, HwState(k, added)))
  {
  }

  lemma OutsideKeeps(i: Info, r: Info)
    requires Valid(i) && SameMarks(i, r)
    ensures Valid(r) && r.log == i.log && Rank(r) == Rank(i) && (IsOpen(i) ==> GoesOn(i, r))
  {
    hide Entries, Fill, Ascending;
  }

  lemma StepKeeps(i: Info, e: Event)
    requires Valid(i) && Enabled(i, e) && InOrder(i, e)
    ensures Valid(Do(i, e)) && i.log <= Do(i, e).log
    ensures IsOpen(i) ==> GoesOn(i, Do(i, e))
  {
    match e {
      case RunCmd => RunCmdKeeps(i);
      case Traffic(wanted) => TrafficSame(i, wanted); OutsideKeeps(i, Do(i, e));
      case Scan(_) => OutsideKeeps(i, Do(i, e));
      case HwState(k, added) => HwStateSame(i, k, added); OutsideKeeps(i, Do(i, e));
      case TimeoutTimer => TimeoutKeeps(i);
      case PeriodTimer => PeriodTimerKeeps(i);
      case Report(ok) => ReportKeeps(i, ok);
    }
  }

  // Runs.

  /** The scheduler when the first beamformees have been entered: _sounding_init, then _beamforming_enter. */
  function Entered(bfee: seq<Bfee>, minPeriod: nat): Info {
    Info(bfee, Fill([], MAX_NUM_BEAMFORMEE_SU), Fill([], MAX_NUM_BEAMFORMEE_MU), Init, UNUSED_SLOT, 0, minPeriod,
         0, 0, 0, false, false, [], [], [], 0, [])
  }

  lemma EnteredValid(bfee: seq<Bfee>, minPeriod: nat)
    requires |bfee| == MAX_BEAMFORMEE_ENTRY_NUM && HasPeriod(bfee, minPeriod)
    ensures Valid(Entered(bfee, minPeriod))
  {
  }

  predicate CanRun(i: Info, events: seq<Event>)
    requires Shaped(i)
    decreases |events|
  {
    events == [] || (Enabled(i, events[0]) && CanRun(Do(i, events[0]), events[1..]))
  }

  function After(i: Info, events: seq<Event>): Info
    requires Shaped(i) && CanRun(i, events)
    decreases |events|
  {
    if events == [] then i else After(Do(i, events[0]), events[1..])
  }

  predicate Orderly(i: Info, events: seq<Event>)
    requires Shaped(i) && CanRun(i, events)
    decreases |events|
  {
    events == [] || (InOrder(i, events[0]) && Orderly(Do(i, events[0]), events[1..]))
  }

  /** Over every run in which no period is stopped by force between soundings, the scheduler stays in a valid
      state. */
  lemma {:induction false} RunKeeps(i: Info, events: seq<Event>)
    requires Valid(i) && CanRun(i, events) && Orderly(i, events)
    ensures Valid(After(i, events)) && i.log <= After(i, events).log
    decreases |events|
  {
    hide Phase, LogOk, Do, Enabled, InOrder;
    if events != [] {
      StepKeeps(i, events[0]);
      RunKeeps(Do(i, events[0]), events[1..]);
    }
  }

  /** Over every run, an open period goes on with the lists it opened with, starting more of them, or it has
      been logged with exactly those lists. */
  lemma {:induction false} OpenPeriodCompletes(i: Info, events: seq<Event>)
    requires Valid(i) && IsOpen(i) && CanRun(i, events) && Orderly(i, events)
    ensures var r := After(i, events);
            || (IsOpen(r) && r.log == i.log && SamePeriod(i, r))
            || (|r.log| > |i.log| && r.log[|i.log|].su == Entries(i.suList) && r.log[|i.log|].mu == Entries(i.muList)
                && Complete(r.log[|i.log|]))
    decreases |events|
  {
    hide Phase, LogOk, Do, Enabled, Complete, InOrder;
    if events != [] {
      var s := Do(i, events[0]);
      StepKeeps(i, events[0]);
      if IsOpen(s) {
        OpenPeriodCompletes(s, events[1..]);
      } else {
        RunKeeps(s, events[1..]);
        LogComplete(After(s, events[1..]).log);
        assert s.log[|i.log|] == After(s, events[1..]).log[|i.log|];
      }
    }
  }

  lemma LogComplete(log: seq<Period>)
    requires LogOk(log)
    ensures forall k :: 0 <= k < |log| ==> Complete(log[k])
  {
  }

  // Every period ends.

  /** What the scheduler does of its own accord: it handles its commands, and its time-out timer expires. */
  predicate Internal(e: Event) {
    e == RunCmd || e == TimeoutTimer
  }

  function Measure(i: Info): int {
    3 * Rank(i) + |i.cmds| + if i.timerArmed then 1 else 0
  }

  lemma InternalDecreases(i: Info, e: Event)
    requires Valid(i) && Enabled(i, e) && Internal(e)
    ensures Measure(Do(i, e)) < Measure(i)
  {
    if e == RunCmd {
      RunCmdKeeps(i);
    } else {
      TimeoutKeeps(i);
    }
  }

  predicate AtRest(i: Info) {
    i.running == 0 && (i.state == Init || i.state == None)
  }

  lemma NothingLeft(i: Info)
    requires Valid(i)
    ensures Measure(i) >= 0
    ensures !Enabled(i, RunCmd) && !Enabled(i, TimeoutTimer) ==> AtRest(i)
  {
  }

  /** A period timer that finds no period under way starts one. */
  predicate Restarts(i: Info, e: Event) {
    e == PeriodTimer && i.state != None && i.running == 0
  }

  /** Everything else raises the measure by little: a report and a period timer may queue one command. */
  lemma OutsideIncreases(i: Info, e: Event)
    requires Valid(i) && Enabled(i, e) && InOrder(i, e) && !Internal(e)
    ensures Measure(Do(i, e)) <= Measure(i) + (if e.Report? || e == PeriodTimer then 1 else 0)
                                 + if Restarts(i, e) then NEW_PERIOD else 0
  {
    hide Phase, LogOk, Entries, Rank;
    match e {
      case Traffic(wanted) => TrafficSame(i, wanted); OutsideKeeps(i, Do(i, e));
      case Scan(_) => OutsideKeeps(i, Do(i, e));
      case HwState(k, added) => HwStateSame(i, k, added); OutsideKeeps(i, Do(i, e));
      case PeriodTimer => PeriodTimerRank(i);
      case Report(ok) => ReportRank(i, ok);
    }
  }

  lemma ReportRank(i: Info, ok: bool)
    requires Shaped(i)
    ensures Rank(Do(i, Report(ok))) == Rank(i)
  {
    hide Entries;
  }

  lemma PeriodTimerRank(i: Info)
    requires Valid(i) && InOrder(i, PeriodTimer)
    ensures 3 * Rank(PeriodTimerDo(i)) <= 3 * Rank(i) + if Restarts(i, PeriodTimer) then NEW_PERIOD else 0
  {
    hide Entries, Active, Starts;
  }

  lemma StepMeasure(i: Info, e: Event)
    requires Valid(i) && Enabled(i, e) && InOrder(i, e)
    ensures Measure(Do(i, e)) + (if Internal(e) then 1 else 0)
            <= Measure(i) + (if e.Report? || e == PeriodTimer then 1 else 0) + if Restarts(i, e) then NEW_PERIOD else 0
  {
    hide Valid, Measure, Do, Restarts;
    if Internal(e) {
      InternalDecreases(i, e);
    } else {
      OutsideIncreases(i, e);
    }
  }

  const NEW_PERIOD := 3 * (2 * MAX_NUM_BEAMFORMEE_SU + 4)

  function Internals(events: seq<Event>): nat {
    if events == [] then 0 else (if Internal(events[0]) then 1 else 0) + Internals(events[1..])
  }

  function ReportsAndTimers(events: seq<Event>): nat {
    if events == [] then 0
    else (if events[0].Report? || events[0] == PeriodTimer then 1 else 0) + ReportsAndTimers(events[1..])
  }

  /** How many periods a run starts. */
  function PeriodsStarted(i: Info, events: seq<Event>): nat
    requires Shaped(i) && CanRun(i, events)
    decreases |events|
  {
    if events == [] then 0
    else (if Restarts(i, events[0]) then 1 else 0) + PeriodsStarted(Do(i, events[0]), events[1..])
  }

  /** Every period ends, whatever mix of reports, time-outs, period timers, scans and traffic decisions occurs:
      the scheduler can act of its own accord only so often for each period, report and timer, in whatever
      order; and when it can no longer act no period is under way: it is back in Init (or in None, when it
      found nothing to sound). */
  lemma {:induction false} PeriodEnds(i: Info, events: seq<Event>)
    requires Valid(i) && CanRun(i, events) && Orderly(i, events)
    ensures Internals(events) <= Measure(i) + ReportsAndTimers(events) + NEW_PERIOD * PeriodsStarted(i, events)
    ensures var r := After(i, events);
            !Enabled(r, RunCmd) && !Enabled(r, TimeoutTimer) ==> AtRest(r)
    decreases |events|
  {
    hide Phase, LogOk, HasPeriod, Measure, Do, Enabled, Internal, Restarts, AtRest, InOrder;
    if events == [] {
      NothingLeft(i);
    } else {
      StepKeeps(i, events[0]);
      StepMeasure(i, events[0]);
      PeriodEnds(Do(i, events[0]), events[1..]);
    }
  }
}
