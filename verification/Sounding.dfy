/** The sounding scheduler as it runs: beamforming_info of core/rtw_beamforming.c, whose handlers update it
    in place and call each other through rtw_bf_cmd. */
module Sounding {
  import M = SoundingModel
  import opened SoundingModel

  /** The entries before i have been prepared, and those chosen among them listed. */
  ghost predicate ListedUpTo(b0: seq<Bfee>, minPeriod: nat, i: nat, bfee: seq<Bfee>, suList: seq<nat>, suIdx: nat,
                             muList: seq<nat>, muIdx: nat)
  {
    && i <= |b0| == |bfee| && HasPeriod(b0, minPeriod)
    && suIdx == |Chosen(b0, i, false)| && suList == Fill(Chosen(b0, i, false), MAX_NUM_BEAMFORMEE_SU)
    && muIdx == |Chosen(b0, i, true)| && muList == Fill(Chosen(b0, i, true), MAX_NUM_BEAMFORMEE_MU)
    && (forall k :: 0 <= k < i ==>
          bfee[k] == Prepared(b0[k], k in Chosen(b0, i, false) || k in Chosen(b0, i, true), minPeriod))
    && (forall k :: i <= k < |b0| ==> bfee[k] == b0[k])
  }

  lemma FillNext(s: seq<nat>, x: nat, n: nat)
    requires |s| < n
    ensures Fill(s + [x], n) == Fill(s, n)[|s| := x]
  {
  }

  lemma ListedParts(b0: seq<Bfee>, minPeriod: nat, i: nat, bfee: seq<Bfee>, suList: seq<nat>, suIdx: nat,
                    muList: seq<nat>, muIdx: nat)
    requires ListedUpTo(b0, minPeriod, i, bfee, suList, suIdx, muList, muIdx) && i < |b0|
    ensures |bfee| == |b0| && bfee[i..] == b0[i..] && bfee[i] == b0[i] && (b0[i].used ==> minPeriod > 0)
    ensures |suList| == MAX_NUM_BEAMFORMEE_SU && |muList| == MAX_NUM_BEAMFORMEE_MU
  {
    hide Chosen, Prepared;
  }

  /** One more entry. */
  lemma ListedNext(b0: seq<Bfee>, minPeriod: nat, i: nat, bfee: seq<Bfee>, suList: seq<nat>, suIdx: nat,
                   muList: seq<nat>, muIdx: nat)
    requires ListedUpTo(b0, minPeriod, i, bfee, suList, suIdx, muList, muIdx) && i < |b0|
    ensures var inMu, inSu := muIdx < MAX_NUM_BEAMFORMEE_MU && MuWanted(b0[i]), suIdx < MAX_NUM_BEAMFORMEE_SU &&
              SuWanted(b0[i]);
            ListedUpTo(b0, minPeriod, i + 1, bfee[i := Prepared(b0[i], inMu || inSu, minPeriod)],
                       if inSu then suList[suIdx := i] else suList, if inSu then suIdx + 1 else suIdx,
                       if inMu then muList[muIdx := i] else muList, if inMu then muIdx + 1 else muIdx)
  {
    hide SuWanted, MuWanted, Prepared, Fill;
    if suIdx < MAX_NUM_BEAMFORMEE_SU {
      FillNext(Chosen(b0, i, false), i, MAX_NUM_BEAMFORMEE_SU);
    }
    if muIdx < MAX_NUM_BEAMFORMEE_MU {
      FillNext(Chosen(b0, i, true), i, MAX_NUM_BEAMFORMEE_MU);
    }
    ChosenNext(b0, i, false);
    ChosenNext(b0, i, true);
  }

  lemma ChosenNext(b: seq<Bfee>, i: nat, mu: bool)
    requires i < |b|
    ensures i !in Chosen(b, i, mu)
    ensures forall k :: 0 <= k < i ==> (k in Chosen(b, i, mu) <==> k in Chosen(b, i + 1, mu))
    ensures i in Chosen(b, i + 1, mu) <==> Chosen(b, i + 1, mu) == Chosen(b, i, mu) + [i]
  {
    hide SuWanted, MuWanted;
  }

  lemma ListedAll(b0: seq<Bfee>, minPeriod: nat, bfee: seq<Bfee>, suList: seq<nat>, suIdx: nat, muList: seq<nat>,
            muIdx: nat)
    requires ListedUpTo(b0, minPeriod, |b0|, bfee, suList, suIdx, muList, muIdx)
    ensures bfee == PreparedAll(b0, minPeriod)
    ensures suList == Fill(Chosen(b0, |b0|, false), MAX_NUM_BEAMFORMEE_SU) && suIdx == |Chosen(b0, |b0|, false)|
    ensures muList == Fill(Chosen(b0, |b0|, true), MAX_NUM_BEAMFORMEE_MU) && muIdx == |Chosen(b0, |b0|, true)|
  {
  }

  lemma ListedNone(b0: seq<Bfee>, minPeriod: nat)
    requires HasPeriod(b0, minPeriod)
    ensures ListedUpTo(b0, minPeriod, 0, b0, Fill([], MAX_NUM_BEAMFORMEE_SU), 0, Fill([], MAX_NUM_BEAMFORMEE_MU), 0)
  {
  }

  ghost predicate NotReadyUpTo(b0: seq<Bfee>, i: nat) {
    exists k :: 0 <= k < i && k < |b0| && b0[k].used && !b0[k].added
  }

  lemma NotReadyNext(b0: seq<Bfee>, i: nat)
    requires i < |b0|
    ensures NotReadyUpTo(b0, i + 1) <==> NotReadyUpTo(b0, i) || (b0[i].used && !b0[i].added)
  {
  }

  lemma NotReadyNone(b0: seq<Bfee>)
    ensures !NotReadyUpTo(b0, 0)
  {
  }

  lemma ResultIs(b0: seq<Bfee>)
    ensures ListResult(b0) == if |Chosen(b0, |b0|, false)| + |Chosen(b0, |b0|, true)| > 0 then 0
                              else if NotReadyUpTo(b0, |b0|) then -2 else -1
  {
    hide Chosen;
  }

  lemma MarkNone(b0: seq<Bfee>)
    ensures MarkSounding(b0, []) == b0
  {
  }

  lemma MarkNext(b0: seq<Bfee>, list: seq<nat>, i: nat)
    requires i < |list| && list[i] < |b0|
    ensures |MarkSounding(b0, list[..i])| == |b0|
    ensures var m := MarkSounding(b0, list[..i]);
            MarkSounding(b0, list[..i + 1]) == m[list[i] := m[list[i]].(sounding := true)]
  {
    assert list[..i + 1] == list[..i] + [list[i]];
  }

  lemma OpenIs(i: Info)
    requires Shaped(i) && i.state == Init
    ensures Opens(i) ==> Open(i) == Continue(Opened(i))
  {
    hide ResetVars, GetList, ListResult, HasPeriod, Continue;
  }

  class BeamformingInfo {
    var bfee: seq<Bfee>
    var suList: seq<nat>
    var muList: seq<nat>
    var state: SoundingState
    var cur: nat
    var muCnt: nat
    var minPeriod: nat
    var running: int
    var waitCnt: nat
    var delay: nat
    var scanning: bool
    var timerArmed: bool
    var cmds: seq<Cmd>
    var leaves: seq<nat>
    ghost var suStarted: seq<nat>
    ghost var muStarted: nat
    ghost var log: seq<Period>

    ghost function Value(): Info
      reads this
    {
      Info(bfee, suList, muList, state, cur, muCnt, minPeriod, running, waitCnt, delay, scanning, timerArmed, cmds,
           leaves, suStarted, muStarted, log)
    }

    method ClearMarks()
      modifies `bfee
      ensures bfee == ClearedAll(old(bfee))
    {
      var idx := 0;
      while idx < |bfee|
        invariant idx <= |bfee| == |old(bfee)|
        invariant forall k :: 0 <= k < idx ==> bfee[k] == Cleared(old(bfee)[k])
        invariant forall k :: idx <= k < |bfee| ==> bfee[k] == old(bfee)[k]
      {
        if bfee[idx].used && bfee[idx].sounding {
          bfee := bfee[idx := bfee[idx].(sounding := false, candidate := false)];
        }
        idx := idx + 1;
      }
    }

    /** _sounding_reset_vars. */
    method ResetVars()
      modifies `bfee, `suList, `muList, `cur, `muCnt
      ensures Value() == M.ResetVars(old(Value()))
      ensures suList == Fill([], MAX_NUM_BEAMFORMEE_SU) && muList == Fill([], MAX_NUM_BEAMFORMEE_MU)
    {
      suList := Fill([], MAX_NUM_BEAMFORMEE_SU);
      muList := Fill([], MAX_NUM_BEAMFORMEE_MU);
      cur := UNUSED_SLOT;
      muCnt := 0;
      ClearMarks();
    }

    /** What the loop of _sounding_get_list makes of one entry, with suIdx and muIdx entries listed so far. */
    method Prepare(b0: Bfee, suIdx: nat, muIdx: nat) returns (b: Bfee, inSu: bool, inMu: bool)
      requires b0.used ==> minPeriod > 0
      ensures inMu <==> muIdx < MAX_NUM_BEAMFORMEE_MU && MuWanted(b0)
      ensures inSu <==> suIdx < MAX_NUM_BEAMFORMEE_SU && SuWanted(b0)
      ensures b == Prepared(b0, inMu || inSu, minPeriod)
    {
      hide CountFrom;
      b, inSu, inMu := b0, false, false;
      if b.used && b.added {
        if b.soundCnt > 0 {
          b := b.(soundCnt := b.soundCnt - 1);
        }
        if b.soundCnt == 0 {
          if b.mu {
            if muIdx < MAX_NUM_BEAMFORMEE_MU && b.apply {
              b, inMu := b.(candidate := true, soundCnt := CountFrom(b.period, minPeriod)), true;
            }
          } else if b.su && suIdx < MAX_NUM_BEAMFORMEE_SU {
            if b.deleting {
              inSu := true;
            } else if b.apply && !b.suspended {
              b, inSu := b.(candidate := true, soundCnt := CountFrom(b.period, minPeriod)), true;
            }
          }
        }
      }
    }

    /** The body of the loop of _sounding_get_list. */
    method ListEntry(ghost b0: seq<Bfee>, i: nat, suIdx: nat, muIdx: nat) returns (suNext: nat, muNext: nat)
      requires ListedUpTo(b0, minPeriod, i, bfee, suList, suIdx, muList, muIdx) && i < |b0|
      modifies `bfee, `suList, `muList
      ensures ListedUpTo(b0, minPeriod, i + 1, bfee, suList, suNext, muList, muNext)
      ensures |bfee| == |b0| && bfee[i + 1..] == b0[i + 1..]
    {
      hide ListedUpTo, Prepared, SuWanted, MuWanted;
      ListedNext(b0, minPeriod, i, bfee, suList, suIdx, muList, muIdx);
      ListedParts(b0, minPeriod, i, bfee, suList, suIdx, muList, muIdx);
      var b, inSu, inMu := Prepare(bfee[i], suIdx, muIdx);
      suNext, muNext := suIdx, muIdx;
      if inSu {
        suList, suNext := suList[suIdx := i], suIdx + 1;
      }
      if inMu {
        muList, muNext := muList[muIdx := i], muIdx + 1;
      }
      bfee := bfee[i := b];
    }

    /** _sounding_get_list. */
    method GetList() returns (ret: int)
      requires Shaped(Value()) && suList == Fill([], MAX_NUM_BEAMFORMEE_SU) && muList == Fill([], MAX_NUM_BEAMFORMEE_MU)
      modifies `bfee, `suList, `muList, `muCnt
      ensures Value() == M.GetList(old(Value())) && ret == ListResult(old(bfee))
    {
      hide Chosen, Fill, ListedUpTo, PreparedAll, ListResult, NotReadyUpTo;
      ghost var b0 := bfee;
      ListedNone(b0, minPeriod);
      var i, suIdx, muIdx, notReady := 0, 0, 0, 0;
      NotReadyNone(b0);
      while i < |bfee|
        invariant i <= |b0| == |bfee| && ListedUpTo(b0, minPeriod, i, bfee, suList, suIdx, muList, muIdx)
        invariant bfee[i..] == b0[i..]
        invariant notReady > 0 <==> NotReadyUpTo(b0, i)
      {
        NotReadyNext(b0, i);
        assert bfee[i] == bfee[i..][0] == b0[i];
        if bfee[i].used && !bfee[i].added {
          notReady := notReady + 1;
        }
        suIdx, muIdx := ListEntry(b0, i, suIdx, muIdx);
        i := i + 1;
      }
      ListedAll(b0, minPeriod, bfee, suList, suIdx, muList, muIdx);
      ResultIs(b0);
      muCnt := muIdx;
      ret := if suIdx + muIdx == 0 then (if notReady > 0 then -2 else -1) else 0;
    }

    method MarkMu()
      requires muCnt <= |muList| && forall k :: 0 <= k < muCnt ==> muList[k] < |bfee|
      modifies `bfee
      ensures bfee == MarkSounding(old(bfee), muList[..muCnt])
    {
      hide MarkSounding;
      ghost var b0 := bfee;
      MarkNone(b0);
      var i := 0;
      while i < muCnt
        invariant i <= muCnt && |bfee| == |b0| && bfee == MarkSounding(b0, muList[..i])
      {
        MarkNext(b0, muList, i);
        bfee := bfee[muList[i] := bfee[muList[i]].(sounding := true)];
        i := i + 1;
      }
    }

    /** The search of _sounding_handler for an SU entry that is not marked sounding. */
    method FindSu() returns (i: nat)
      requires Shaped(Value())
      ensures i == NextSu(Value(), 0)
    {
      i := 0;
      while i < |suList|
        invariant i <= |suList| && NextSu(Value(), 0) == NextSu(Value(), i)
      {
        if suList[i] < |bfee| && !bfee[suList[i]].sounding {
          return;
        }
        i := i + 1;
      }
    }

    /** _sounding_handler. */
    method Handler()
      requires Shaped(Value())
      modifies this
      ensures Value() == M.Handler(old(Value()))
      decreases if state == Init then 1 else 0, Unsounded(bfee, suList), 2
    {
      hide M.Open, M.Continue, Opened, Opens, Shaped;
      if state != Init && state != SuSounddown && state != MuSounddown && state != TimedOut {
        return;
      }
      if state == Init {
        OpenIs(Value());
        var go := OpenPeriod();
        if !go {
          return;
        }
      }
      Continue();
    }

    /** _sounding_reset_vars, then _sounding_get_list. */
    method PrepareLists() returns (ret: int)
      requires Shaped(Value()) && state == Init
      modifies `bfee, `suList, `muList, `cur, `muCnt
      ensures Value() == Listed(old(Value())) && ret == ListResult(M.ResetVars(old(Value())).bfee)
    {
      hide M.ResetVars, M.GetList, ListResult, HasPeriod, Fill;
      ResetVars();
      ret := GetList();
    }

    /** What _sounding_handler does first in the state Init; go tells whether a period has been opened. */
    method OpenPeriod() returns (go: bool)
      requires Shaped(Value()) && state == Init
      modifies this
      ensures Shaped(Value())
      ensures go ==> Value() == Opened(old(Value())) && Opens(old(Value()))
      ensures !go ==> Value() == M.Open(old(Value())) && !Opens(old(Value()))
    {
      hide M.ResetVars, Listed, ListResult, HasPeriod, M.Continue;
      var ret := PrepareLists();
      go := false;
      if ret == -1 {
        waitCnt, state, running := 0, None, running - 1;
      } else if ret == -2 {
        if waitCnt < 5 {
          waitCnt := waitCnt + 1;
        } else {
          waitCnt, state := 0, None;
        }
        running := running - 1;
      } else {
        waitCnt := 0;
        if scanning {
          running := running - 1;
        } else {
          suStarted, muStarted := [], 0;
          go := true;
        }
      }
    }

    method Continue()
      requires Shaped(Value())
      modifies this
      ensures Value() == M.Continue(old(Value()))
      decreases 0, Unsounded(bfee, suList), 1
    {
      var i := FindSu();
      if i < |suList| {
        ghost var was := Value();
        StartSu(i);
        UnsoundedDrops(was.bfee, bfee, suList, i);
        if bfee[cur].deleting {
          BfCmd(EndPeriod(false), false);
          return;
        }
        timerArmed := true;
        return;
      }
      if muCnt > 0 {
        StartMu();
        return;
      }
      running := running - 1;
      state := Init;
      log := log + [Period(Entries(suList), Entries(muList), suStarted, muStarted)];
    }

    method StartSu(i: nat)
      requires Shaped(Value()) && i < |suList| && suList[i] < |bfee|
      modifies this
      ensures Shaped(Value()) && Value() == M.StartSu(old(Value()), i)
    {
      cur := suList[i];
      state := SuStart;
      bfee := bfee[cur := bfee[cur].(sounding := true, timedOut := false)];
      suStarted := suStarted + [cur];
    }

    method StartMu()
      requires Shaped(Value()) && muCnt > 0
      modifies this
      ensures Value() == M.StartMu(old(Value()))
    {
      hide MarkSounding, HasPeriod;
      state := MuStart;
      MarkMu();
      muCnt := 0;
      timerArmed := true;
      muStarted := muStarted + 1;
    }

    /** _beamforming_sounding_down. */
    method SoundingDown(ok: bool)
      requires Shaped(Value())
      modifies this
      ensures Value() == M.SoundingDown(old(Value()), ok)
      decreases 0, Unsounded(bfee, suList), 5
    {
      hide M.Continue, HasPeriod, Unsounded;
      if state == MuStart {
        state := MuSounddown;
      } else if state == SuStart {
        if bfee[cur].timedOut {
          state := SuSounddown;
          bfee := bfee[cur := bfee[cur].(timedOut := false)];
          return;
        }
        ghost var was := Value();
        SuSoundingDown(ok);
        UnsoundedDrops(was.bfee, bfee, suList, |suList|);
      } else {
        return;
      }
      BfCmd(StartPeriod, false);
    }

    /** What it records about the current SU entry. */
    method SuSoundingDown(ok: bool)
      requires Shaped(Value()) && state == SuStart
      modifies this
      ensures Value() == SuDown(old(Value()), ok)
    {
      var b := bfee[cur];
      state := SuSounddown;
      if ok {
        b := b.(failCnt := 0);
      } else if b.deleting {
        b := b.(deleting := false);
      } else {
        b := b.(failCnt := (b.failCnt + 1) % 32);
        if b.failCnt > 30 {
          leaves := leaves + [cur];
        }
      }
      bfee := bfee[cur := b];
    }

    /** rtw_bf_cmd: the command is handled at once, or handed to the command thread. */
    method BfCmd(cmd: Cmd, enqueue: bool)
      requires Shaped(Value())
      modifies this
      ensures Value() == if enqueue then old(Value()).(cmds := old(cmds) + [cmd])
                         else if cmd == StartPeriod then M.Handler(old(Value()))
                         else M.SoundingDown(old(Value()), cmd.ok)
      decreases if state == Init && cmd == StartPeriod then 1 else 0, Unsounded(bfee, suList),
                if cmd == StartPeriod then 4 else 7
    {
      if enqueue {
        cmds := cmds + [cmd];
      } else {
        BfCmdHdl(cmd);
      }
    }

    /** rtw_bf_cmd_hdl. */
    method BfCmdHdl(cmd: Cmd)
      requires Shaped(Value())
      modifies this
      ensures Value() == if cmd == StartPeriod then M.Handler(old(Value())) else M.SoundingDown(old(Value()), cmd.ok)
      decreases if state == Init && cmd == StartPeriod then 1 else 0, Unsounded(bfee, suList),
                if cmd == StartPeriod then 3 else 6
    {
      match cmd {
        case StartPeriod => Handler();
        case EndPeriod(ok) => SoundingDown(ok);
      }
    }

    /** The command thread handles the next command. */
    method RunCmd()
      requires Shaped(Value()) && cmds != []
      modifies this
      ensures Value() == Do(old(Value()), Event.RunCmd)
    {
      var cmd := cmds[0];
      cmds := cmds[1..];
      BfCmdHdl(cmd);
    }

    /** _sounding_force_stop. */
    method ForceStop()
      requires Shaped(Value())
      modifies this
      ensures Value() == M.ForceStop(old(Value()))
    {
      if state == SuStart || state == MuStart {
        timerArmed := false;
        BfCmd(EndPeriod(false), true);
        return;
      }
      running := running - 1;
      state := Init;
    }

    /** _sounding_timer_handler. */
    method SoundingTimer()
      requires Shaped(Value())
      modifies this
      ensures Value() == PeriodTimerDo(old(Value()))
    {
      if state == None {
        return;
      }
      if running == 0 {
        if state != Init {
          state := Init;
        }
        delay := 0;
        running := running + 1;
        BfCmd(StartPeriod, true);
      } else {
        if delay != 0xFF {
          delay := delay + 1;
        }
        if delay > 3 {
          ForceStop();
        }
      }
    }

    /** _sounding_timeout_timer_handler. */
    method TimeoutTimer()
      requires Shaped(Value()) && timerArmed
      modifies this
      ensures Value() == Do(old(Value()), Event.TimeoutTimer)
      ensures old(state) == SuStart ==> bfee[cur].timedOut && cur == old(cur)
      ensures !timerArmed && state == if old(state) == SuStart || old(state) == MuStart then TimedOut else old(state)
    {
      timerArmed := false;
      if state == SuStart {
        state := TimedOut;
        bfee := bfee[cur := bfee[cur].(timedOut := true)];
      } else if state == MuStart {
        state := TimedOut;
      } else {
        return;
      }
      BfCmd(StartPeriod, true);
    }

    /** _c2h_snd_txbf. */
    method Report(ok: bool)
      requires Shaped(Value())
      modifies this
      ensures Value() == Do(old(Value()), Event.Report(ok))
    {
      timerArmed := false;
      BfCmd(EndPeriod(ok), true);
    }

    /** The loop and the end of rtw_bf_update_traffic. */
    method UpdateTraffic(wanted: set<nat>)
      requires Shaped(Value())
      modifies this
      ensures Value() == Do(old(Value()), Event.Traffic(wanted))
    {
      hide TrafficAll, Shaped;
      var setTimer := ApplyTraffic(wanted);
      if setTimer && state == None {
        state := Init;
      }
    }

    method ApplyTraffic(wanted: set<nat>) returns (setTimer: bool)
      modifies `bfee
      ensures bfee == TrafficAll(old(bfee), wanted) && (setTimer <==> bfee != old(bfee))
    {
      setTimer := false;
      var i := 0;
      while i < |bfee|
        invariant i <= |bfee| == |old(bfee)|
        invariant forall k :: 0 <= k < i ==> bfee[k] == Traffic1(old(bfee)[k], k in wanted)
        invariant forall k :: i <= k < |bfee| ==> bfee[k] == old(bfee)[k]
        invariant setTimer <==> bfee != old(bfee)
      {
        var b := bfee[i];
        if b.used {
          if i in wanted {
            if !b.apply {
              bfee := bfee[i := b.(apply := true, soundCnt := 0)];
              assert bfee[i] != old(bfee)[i];
              setTimer := true;
            }
          } else if b.apply {
            bfee := bfee[i := b.(apply := false, deleting := true, soundCnt := 0)];
            assert bfee[i] != old(bfee)[i];
            setTimer := true;
          }
        }
        i := i + 1;
      }
    }
  }
}
