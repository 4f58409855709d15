/** The beamforming sounding scheduler of core/rtw_beamforming.c (the RTW_BEAMFORMING_VERSION_2 half):
    its state, and what each of its handlers makes of it. */
module SoundingModel {

  const MAX_NUM_BEAMFORMEE_SU := 2
  const MAX_NUM_BEAMFORMEE_MU := 6
  const MAX_BEAMFORMEE_ENTRY_NUM := MAX_NUM_BEAMFORMEE_SU + MAX_NUM_BEAMFORMEE_MU
  const UNUSED_SLOT := 0xFF

  /** The fields of a beamformee_entry that the scheduler uses. The capability bits are reduced to what
      the scheduler asks of them: VHT_MU, and VHT_SU or HT_EXPLICIT. */
  datatype Bfee = Bfee(
    used: bool,
    added: bool,       // state is BEAMFORM_ENTRY_HW_STATE_ADDED
    mu: bool,
    su: bool,
    period: nat,       // sound_period
    soundCnt: nat,
    sounding: bool,
    candidate: bool,   // bCandidateSoundingPeer
    timedOut: bool,    // bSoundingTimeout
    deleting: bool,    // bDeleteSounding
    apply: bool,       // bApplySounding
    suspended: bool,   // bSuspendSUCap
    failCnt: nat)      // LogStatusFailCnt, 5 bits wide

  datatype SoundingState = None | Init | SuStart | SuSounddown | MuStart | MuSounddown | TimedOut

  /** The commands the scheduler sends to the command thread. */
  datatype Cmd = StartPeriod | EndPeriod(ok: bool)

  /** History: what a period listed, and what it started before it finished. */
  datatype Period = Period(su: seq<nat>, mu: seq<nat>, suStarted: seq<nat>, muStarted: nat)

  datatype Info = Info(
    bfee: seq<Bfee>,
    suList: seq<nat>,
    muList: seq<nat>,
    state: SoundingState,
    cur: nat,                // su_bfee_curidx
    muCnt: nat,              // candidate_mu_bfee_cnt
    minPeriod: nat,
    running: int,            // sounding_running
    waitCnt: nat,
    delay: nat,
    scanning: bool,          // WIFI_SITE_MONITOR
    timerArmed: bool,        // sounding_timeout_timer
    cmds: seq<Cmd>,          // sent to the command thread, not handled yet
    leaves: seq<nat>,        // entries whose removal has been requested
    suStarted: seq<nat>,     // history of the current period
    muStarted: nat,
    log: seq<Period>)        // history: the periods that finished

  // Preparing the lists of a period.

  function Fill(s: seq<nat>, n: nat): seq<nat> {
    seq(n, k requires 0 <= k < n => if k < |s| then s[k] else UNUSED_SLOT)
  }

  /** The entry can be sounded in this period: its count has run out. */
  predicate Due(b: Bfee) {
    b.used && b.added && b.soundCnt <= 1
  }

  predicate MuWanted(b: Bfee) {
    Due(b) && b.mu && b.apply
  }

  predicate SuWanted(b: Bfee) {
    Due(b) && !b.mu && b.su && (b.deleting || (b.apply && !b.suspended))
  }

  /** The first entries wanted, at most max of them, among the first n. */
  function Chosen(bfee: seq<Bfee>, n: nat, mu: bool): (r: seq<nat>)
    requires n <= |bfee|
    ensures |r| <= (if mu then MAX_NUM_BEAMFORMEE_MU else MAX_NUM_BEAMFORMEE_SU)
    ensures forall k :: 0 <= k < |r| ==> r[k] < n && (if mu then MuWanted(bfee[r[k]]) else SuWanted(bfee[r[k]]))
    ensures forall j, k :: 0 <= j < k < |r| ==> r[j] < r[k]
  {
    if n == 0 then []
    else
      var before := Chosen(bfee, n - 1, mu);
      var max := if mu then MAX_NUM_BEAMFORMEE_MU else MAX_NUM_BEAMFORMEE_SU;
      if |before| < max && (if mu then MuWanted(bfee[n - 1]) else SuWanted(bfee[n - 1])) then before + [n - 1]
      else before
  }

  /** The u8 count an entry starts with when it is listed: its period in units of the shortest one. */
  function CountFrom(period: nat, minPeriod: nat): nat
    requires minPeriod > 0
  {
    (period / minPeriod) % 256
  }

  /** What preparing the lists makes of an entry: the count goes down, and starts again for an entry listed
      for sounding (not for one listed to have its sounding information deleted). */
  function Prepared(b: Bfee, listed: bool, minPeriod: nat): Bfee
    requires b.used ==> minPeriod > 0
  {
    if !b.used || !b.added then b
    else if listed && (b.mu || !b.deleting) then b.(candidate := true, soundCnt := CountFrom(b.period, minPeriod))
    else b.(soundCnt := if b.soundCnt == 0 then 0 else b.soundCnt - 1)
  }

  predicate HasPeriod(bfee: seq<Bfee>, minPeriod: nat) {
    forall k :: 0 <= k < |bfee| && bfee[k].used ==> minPeriod > 0
  }

  function PreparedAll(bfee: seq<Bfee>, minPeriod: nat): (r: seq<Bfee>)
    requires HasPeriod(bfee, minPeriod)
    ensures |r| == |bfee| && HasPeriod(r, minPeriod)
    ensures forall k :: 0 <= k < |r| ==> r[k].sounding == bfee[k].sounding
  {
    var su, mu := Chosen(bfee, |bfee|, false), Chosen(bfee, |bfee|, true);
    seq(|bfee|, k requires 0 <= k < |bfee| => Prepared(bfee[k], k in su || k in mu, minPeriod))
  }

  /** The entry after the start of a new period. */
  function Cleared(b: Bfee): Bfee {
    if b.used && b.sounding then b.(sounding := false, candidate := false) else b
  }

  function ClearedAll(bfee: seq<Bfee>): (r: seq<Bfee>)
    ensures |r| == |bfee| && forall k :: 0 <= k < |r| && r[k].used ==> !r[k].sounding
  {
    seq(|bfee|, k requires 0 <= k < |bfee| => Cleared(bfee[k]))
  }

  predicate Shaped(i: Info) {
    && |i.bfee| == MAX_BEAMFORMEE_ENTRY_NUM
    && |i.suList| == MAX_NUM_BEAMFORMEE_SU && |i.muList| == MAX_NUM_BEAMFORMEE_MU
    && i.muCnt <= |i.muList| && (forall k :: 0 <= k < i.muCnt ==> i.muList[k] < |i.bfee|)
    && HasPeriod(i.bfee, i.minPeriod)
    && (i.state == SuStart ==> i.cur < |i.bfee|)
  }

  function ResetVars(i: Info): (r: Info)
    ensures Shaped(i) && i.state == Init ==> Shaped(r)
  {
    i.(suList := Fill([], MAX_NUM_BEAMFORMEE_SU), muList := Fill([], MAX_NUM_BEAMFORMEE_MU),
       cur := UNUSED_SLOT, muCnt := 0, bfee := ClearedAll(i.bfee))
  }

  function GetList(i: Info): (r: Info)
    requires Shaped(i)
    ensures Shaped(r)
  {
    hide Due, Chosen, PreparedAll, HasPeriod, SuWanted, MuWanted;
    var su, mu := Chosen(i.bfee, |i.bfee|, false), Chosen(i.bfee, |i.bfee|, true);
    i.(suList := Fill(su, MAX_NUM_BEAMFORMEE_SU), muList := Fill(mu, MAX_NUM_BEAMFORMEE_MU),
       muCnt := |mu|, bfee := PreparedAll(i.bfee, i.minPeriod))
  }

  predicate NotReady(bfee: seq<Bfee>) {
    exists k :: 0 <= k < |bfee| && bfee[k].used && !bfee[k].added
  }

  /** What _sounding_get_list returns. */
  function ListResult(bfee: seq<Bfee>): (r: int)
    ensures r == 0 || r == -1 || r == -2
  {
    if Chosen(bfee, |bfee|, false) != [] || Chosen(bfee, |bfee|, true) != [] then 0
    else if NotReady(bfee) then -2 else -1
  }

  // The handlers.

  /** The entries in a list, without the unused slots. */
  function Entries(list: seq<nat>): seq<nat> {
    if list == [] || list[0] >= MAX_BEAMFORMEE_ENTRY_NUM then [] else [list[0]] + Entries(list[1..])
  }

  /** The slot, from j on, of the first listed SU entry that is not marked sounding. */
  function NextSu(i: Info, j: nat): (r: nat)
    requires j <= |i.suList|
    ensures j <= r <= |i.suList|
    ensures r < |i.suList| ==> i.suList[r] < |i.bfee| && !i.bfee[i.suList[r]].sounding
    ensures forall k :: j <= k < r && i.suList[k] < |i.bfee| ==> i.bfee[i.suList[k]].sounding
    decreases |i.suList| - j
  {
    if j == |i.suList| || (i.suList[j] < |i.bfee| && !i.bfee[i.suList[j]].sounding) then j else NextSu(i, j + 1)
  }

  /** How many slots list an SU entry that is not marked sounding. */
  function Unsounded(bfee: seq<Bfee>, list: seq<nat>): nat {
    if list == [] then 0
    else (if list[0] < |bfee| && !bfee[list[0]].sounding then 1 else 0) + Unsounded(bfee, list[1..])
  }

  lemma {:induction false} UnsoundedDrops(bfee: seq<Bfee>, after: seq<Bfee>, list: seq<nat>, j: nat)
    requires |after| == |bfee| && (forall k :: 0 <= k < |bfee| && bfee[k].sounding ==> after[k].sounding)
    requires j <= |list| && (j < |list| ==> list[j] < |bfee| && !bfee[list[j]].sounding && after[list[j]].sounding)
    ensures Unsounded(after, list) <= Unsounded(bfee, list)
    ensures j < |list| ==> Unsounded(after, list) < Unsounded(bfee, list)
    decreases |list|
  {
    if list != [] {
      UnsoundedDrops(bfee, after, list[1..], if j == 0 then |list| - 1 else j - 1);
    }
  }

  /** The SU entry in slot j becomes the current one. */
  function StartSu(i: Info, j: nat): Info
    requires j < |i.suList| && i.suList[j] < |i.bfee|
  {
    var c := i.suList[j];
    i.(cur := c, state := SuStart, suStarted := i.suStarted + [c],
       bfee := i.bfee[c := i.bfee[c].(sounding := true, timedOut := false)])
  }

  function MarkSounding(bfee: seq<Bfee>, list: seq<nat>): (r: seq<Bfee>)
    ensures |r| == |bfee|
  {
    seq(|bfee|, k requires 0 <= k < |bfee| => if k in list then bfee[k].(sounding := true) else bfee[k])
  }

  function StartMu(i: Info): Info
    requires i.muCnt <= |i.muList|
  {
    i.(state := MuStart, bfee := MarkSounding(i.bfee, i.muList[..i.muCnt]), muCnt := 0, timerArmed := true,
       muStarted := i.muStarted + 1)
  }

  function Finish(i: Info): Info {
    i.(running := i.running - 1, state := Init,
       log := i.log + [Period(Entries(i.suList), Entries(i.muList), i.suStarted, i.muStarted)])
  }

  /** _sounding_handler, from the search for the next SU entry on. */
  function Continue(i: Info): (r: Info)
    requires Shaped(i)
    ensures Shaped(r)
    decreases 0, Unsounded(i.bfee, i.suList), 1
  {
    var j := NextSu(i, 0);
    if j < |i.suList| then
      var s := StartSu(i, j);
      UnsoundedDrops(i.bfee, s.bfee, i.suList, j);
      if s.bfee[s.cur].deleting then SoundingDown(s, false) else s.(timerArmed := true)
    else if i.muCnt > 0 then StartMu(i)
    else Finish(i)
  }

  /** The lists as they are prepared for a new period. */
  function Listed(i: Info): (r: Info)
    requires Shaped(i) && i.state == Init
    ensures Shaped(r)
    ensures r == i.(bfee := r.bfee, suList := r.suList, muList := r.muList, muCnt := r.muCnt, cur := r.cur)
  {
    hide Chosen, PreparedAll, ClearedAll;
    GetList(ResetVars(i))
  }

  function Opened(i: Info): (r: Info)
    requires Shaped(i) && i.state == Init
    ensures Shaped(r)
  {
    hide HasPeriod;
    Listed(i).(waitCnt := 0, suStarted := [], muStarted := 0)
  }

  /** The handler finds something to sound, and no scan is going on. */
  predicate Opens(i: Info) {
    ListResult(ResetVars(i).bfee) == 0 && !i.scanning
  }

  /** The period is given up before it is opened: nothing to sound, entries that are not ready, or a scan. */
  function Abort(g: Info, ret: int): Info {
    if ret == -1 then g.(waitCnt := 0, state := None, running := g.running - 1)
    else if ret == -2 then
      if g.waitCnt < 5 then g.(waitCnt := g.waitCnt + 1, running := g.running - 1)
      else g.(waitCnt := 0, state := None, running := g.running - 1)
    else g.(waitCnt := 0, running := g.running - 1)
  }

  /** What _sounding_handler makes of the state Init. */
  function Open(i: Info): (r: Info)
    requires Shaped(i) && i.state == Init
    ensures Shaped(r)
    decreases 1, 0, 0
  {
    hide ResetVars, Listed, HasPeriod, ListResult;
    var g := Listed(i);
    var ret := ListResult(ResetVars(i).bfee);
    if ret == 0 && !g.scanning then Continue(Opened(i)) else Abort(g, ret)
  }

  /** _sounding_handler: what the command StartPeriod does. */
  function Handler(i: Info): (r: Info)
    requires Shaped(i)
    ensures Shaped(r)
    decreases if i.state == Init then 1 else 0, Unsounded(i.bfee, i.suList), 2
  {
    match i.state
    case Init => Open(i)
    case SuSounddown => Continue(i)
    case MuSounddown => Continue(i)
    case TimedOut => Continue(i)
    case _ => i
  }

  /** What a sounding that is down leaves in the entry of its beamformee. */
  function Outcome(b: Bfee, ok: bool): Bfee {
    if ok then b.(failCnt := 0)
    else if b.deleting then b.(deleting := false)
    else b.(failCnt := (b.failCnt + 1) % 32)
  }

  /** The sounding of the current SU entry is down; too many failures in a row request its removal. */
  function SuDown(i: Info, ok: bool): (r: Info)
    requires Shaped(i) && i.state == SuStart
    ensures Shaped(r) && r.state == SuSounddown && r.suList == i.suList && |r.bfee| == |i.bfee|
    ensures forall k :: 0 <= k < |i.bfee| ==> r.bfee[k].sounding == i.bfee[k].sounding
  {
    var b, o := i.bfee[i.cur], Outcome(i.bfee[i.cur], ok);
    i.(state := SuSounddown, bfee := i.bfee[i.cur := o],
       leaves := i.leaves + if !ok && !b.deleting && o.failCnt > 30 then [i.cur] else [])
  }

  /** _beamforming_sounding_down: what the command EndPeriod does. */
  function SoundingDown(i: Info, ok: bool): (r: Info)
    requires Shaped(i)
    ensures Shaped(r)
    decreases 0, Unsounded(i.bfee, i.suList), 3
  {
    match i.state
    case MuStart => Handler(i.(state := MuSounddown))
    case SuStart =>
      var b := i.bfee[i.cur];
      if b.timedOut then i.(state := SuSounddown, bfee := i.bfee[i.cur := b.(timedOut := false)])
      else
        UnsoundedDrops(i.bfee, SuDown(i, ok).bfee, i.suList, |i.suList|);
        Handler(SuDown(i, ok))
    case _ => i
  }

  // The events.

  datatype Event =
    | PeriodTimer                  // sounding_timer expires
    | TimeoutTimer                 // sounding_timeout_timer expires
    | Report(ok: bool)             // the firmware reports the result of a sounding
    | RunCmd                       // the command thread handles the next command
    | Traffic(wanted: set<nat>)    // rtw_bf_update_traffic, with the entries the PHY wants sounded
    | Scan(on: bool)               // a scan starts or ends
    | HwState(k: nat, added: bool) // the hardware state of an entry changes; it only leaves ADDED with its station

  predicate Enabled(i: Info, e: Event) {
    match e
    case TimeoutTimer => i.timerArmed
    case RunCmd => i.cmds != []
    case HwState(k, _) => k < |i.bfee|
    case _ => true
  }

  function Traffic1(b: Bfee, wanted: bool): Bfee {
    if !b.used || wanted == b.apply then b
    else if wanted then b.(apply := true, soundCnt := 0)
    else b.(apply := false, deleting := true, soundCnt := 0)
  }

  function TrafficAll(bfee: seq<Bfee>, wanted: set<nat>): (r: seq<Bfee>)
    ensures |r| == |bfee|
    ensures forall k :: 0 <= k < |r| ==>
              && r[k].sounding == bfee[k].sounding && r[k].timedOut == bfee[k].timedOut && r[k].used == bfee[k].used
  {
    seq(|bfee|, k requires 0 <= k < |bfee| => Traffic1(bfee[k], k in wanted))
  }

  function Delayed(delay: nat): nat {
    if delay != 0xFF then delay + 1 else delay
  }

  /** _sounding_timer_handler. */
  function PeriodTimerDo(i: Info): Info {
    if i.state == None then i
    else if i.running == 0 then
      i.(state := Init, delay := 0, running := 1, cmds := i.cmds + [StartPeriod])
    else
      var d := i.(delay := Delayed(i.delay));
      if d.delay > 3 then ForceStop(d) else d
  }

  /** _sounding_force_stop. */
  function ForceStop(i: Info): Info {
    if i.state == SuStart || i.state == MuStart then i.(timerArmed := false, cmds := i.cmds + [EndPeriod(false)])
    else i.(running := i.running - 1, state := Init)
  }

  /** _sounding_timeout_timer_handler. */
  function TimeoutDo(i: Info): Info
    requires Shaped(i)
  {
    var t := i.(timerArmed := false);
    if t.state == SuStart then
      t.(state := TimedOut, bfee := t.bfee[t.cur := t.bfee[t.cur].(timedOut := true)], cmds := t.cmds + [StartPeriod])
    else if t.state == MuStart then t.(state := TimedOut, cmds := t.cmds + [StartPeriod])
    else t
  }

  function RunCmdDo(i: Info): Info
    requires Shaped(i) && i.cmds != []
  {
    var rest := i.(cmds := i.cmds[1..]);
    match i.cmds[0]
    case StartPeriod => Handler(rest)
    case EndPeriod(ok) => SoundingDown(rest, ok)
  }

  /** rtw_bf_update_traffic, once the PHY has said which entries it wants sounded. */
  function TrafficDo(i: Info, wanted: set<nat>): Info {
    var bfee := TrafficAll(i.bfee, wanted);
    i.(bfee := bfee, state := if bfee != i.bfee && i.state == None then Init else i.state)
  }

  function Do(i: Info, e: Event): (r: Info)
    requires Shaped(i) && Enabled(i, e)
    ensures Shaped(r)
  {
    match e
    case PeriodTimer => PeriodTimerDo(i)
    case TimeoutTimer => TimeoutDo(i)
    case Report(ok) => i.(timerArmed := false, cmds := i.cmds + [EndPeriod(ok)])
    case RunCmd => RunCmdDo(i)
    case Traffic(wanted) => TrafficDo(i, wanted)
    case Scan(on) => i.(scanning := on)
    case HwState(k, added) => i.(bfee := i.bfee[k := i.bfee[k].(added := added)])
  }
}
