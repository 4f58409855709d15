/** Channel settings of the interfaces that share a radio: keeping a union of them (core/rtw_ieee80211.c),
    and the autonomous decision of rtw_ap_chbw_decision (core/rtw_ap.c). */
module Chbw {
  import opened Basics

  const WIDTH_20 := 0
  const WIDTH_40 := 1
  const WIDTH_80 := 2

  const DONT_CARE := 0
  const LOWER := 1
  const UPPER := 2

  datatype Setting = Setting(ch: nat, bw: nat, offset: nat)

  /** rtw_is_chbw_grouped. */
  predicate Grouped(a: Setting, b: Setting) {
    a.ch == b.ch && (a.bw in {WIDTH_40, WIDTH_80} && b.bw in {WIDTH_40, WIDTH_80} ==> a.offset == b.offset)
  }

  predicate LowerOnly(ch: nat) {
    1 <= ch <= 4 || ch in {36, 44, 52, 60, 100, 108, 116, 124, 132, 140, 149, 157, 165, 173}
  }

  predicate UpperOnly(ch: nat) {
    10 <= ch <= 13 || ch in {40, 48, 56, 64, 104, 112, 120, 128, 136, 144, 153, 161, 169, 177}
  }

  /** rtw_get_offset_by_chbw: the offset for the channel and width, given the present one; None if the
      channel has none for the width. */
  function OffsetFor(ch: nat, bw: nat, present: nat): (r: Option<nat>)
    ensures r.Some? && bw != WIDTH_20 ==> r.value == LOWER || r.value == UPPER
  {
    if bw == WIDTH_20 then Some(DONT_CARE)
    else if bw >= WIDTH_80 && ch <= 14 then None
    else if LowerOnly(ch) then Some(LOWER)
    else if UpperOnly(ch) then Some(UPPER)
    else if 5 <= ch <= 9 then Some(if present == LOWER then LOWER else UPPER)
    else None
  }

  /** The table pairs channels: the lower half of a 40 MHz channel and the upper half, four channels up, agree
      about it; and in the 2.4 GHz band the other half is a channel of the band. */
  lemma OffsetsPair(ch: nat, p: nat, q: nat)
    ensures ch > 14 ==> (OffsetFor(ch, WIDTH_40, p) == Some(LOWER) <==> OffsetFor(ch + 4, WIDTH_40, q) == Some(UPPER))
    ensures ch <= 14 && OffsetFor(ch, WIDTH_40, p) == Some(LOWER) ==> 1 <= ch && ch + 4 <= 13
    ensures ch <= 14 && OffsetFor(ch, WIDTH_40, p) == Some(UPPER) ==> 1 <= ch - 4 && ch <= 13
    ensures OffsetFor(ch, WIDTH_40, p) == None <==> !(1 <= ch <= 13) && !LowerOnly(ch) && !UpperOnly(ch)
  {
  }

  /** The other half of a 40 MHz channel lies above (LOWER) or below (UPPER) the channel. In the 2.4 GHz band the two
      are four of the channels 1 to 13 apart; in the 5 GHz band every other channel is the lower half. */
  predicate HasSide(ch: nat, bw: nat, side: nat) {
    && (ch <= 14 ==> bw == WIDTH_40)
    && ((side == LOWER && LowerHalf(ch)) || (side == UPPER && UpperHalf(ch)))
  }

  predicate LowerHalf(ch: nat) {
    1 <= ch <= 9 || ((36 <= ch <= 60 || 100 <= ch <= 140) && ch % 8 == 4) || (149 <= ch <= 173 && ch % 8 == 5)
  }

  predicate UpperHalf(ch: nat) {
    5 <= ch <= 13 || ((40 <= ch <= 64 || 104 <= ch <= 144) && ch % 8 == 0) || (153 <= ch <= 177 && ch % 8 == 1)
  }

  /** The present side is kept when the channel has it; otherwise it becomes the upper half if it can be one, and
      the lower half if it can only be that. */
  lemma OffsetIs(ch: nat, bw: nat, present: nat)
    requires WIDTH_40 <= bw
    ensures OffsetFor(ch, bw, present) ==
              if HasSide(ch, bw, present) then Some(present)
              else if HasSide(ch, bw, UPPER) then Some(UPPER)
              else if HasSide(ch, bw, LOWER) then Some(LOWER)
              else None
  {
    HalvesAre(ch);
    hide LowerOnly, UpperOnly, LowerHalf, UpperHalf;
  }

  lemma HalvesAre(ch: nat)
    ensures LowerOnly(ch) <==> LowerHalf(ch) && !UpperHalf(ch)
    ensures UpperOnly(ch) <==> UpperHalf(ch) && !LowerHalf(ch)
    ensures 5 <= ch <= 9 <==> LowerHalf(ch) && UpperHalf(ch)
  {
  }

  function WithOffset(s: Setting): Setting {
    match OffsetFor(s.ch, s.bw, s.offset)
    case Some(o) => s.(offset := o)
    case None => s
  }

  /** A setting on a side its channel has stays as it is, and one that has been given its side does so too. */
  lemma SideStays(s: Setting)
    ensures s.bw > WIDTH_20 && HasSide(s.ch, s.bw, s.offset) ==> WithOffset(s) == s
    ensures WithOffset(WithOffset(s)) == WithOffset(s)
  {
    hide HasSide, OffsetFor;
    if s.bw > WIDTH_20 {
      OffsetIs(s.ch, s.bw, s.offset);
      OffsetIs(s.ch, s.bw, WithOffset(s).offset);
    } else {
      OffsetNarrow(s.ch, s.offset);
      OffsetNarrow(s.ch, DONT_CARE);
    }
  }

  lemma OffsetNarrow(ch: nat, present: nat)
    ensures OffsetFor(ch, WIDTH_20, present) == Some(DONT_CARE)
  {
  }

  // rtw_sync_chbw.

  /** The request, brought in line with the union g. */
  function Synced(req: Setting, g: Setting): Setting {
    var bw := if req.bw == WIDTH_80 && g.ch <= 14 then WIDTH_40 else req.bw;
    var r := req.(ch := g.ch, bw := bw);
    if bw == WIDTH_40 || bw == WIDTH_80 then
      var o := if g.bw == WIDTH_40 || g.bw == WIDTH_80 then r.(offset := g.offset)
               else if g.bw == WIDTH_20 then WithOffset(r) else r;
      if o.offset == DONT_CARE then o.(bw := WIDTH_20) else o
    else if bw == WIDTH_20 then r.(offset := DONT_CARE)
    else r
  }

  /** The union after a request has been synced with it. */
  function Joined(req: Setting, g: Setting): Setting {
    var r := Synced(req, g);
    if r.bw > g.bw then g.(bw := r.bw, offset := r.offset) else g
  }

  method SyncChbw(reqIn: Setting, gIn: Setting) returns (req: Setting, g: Setting)
    ensures req == Synced(reqIn, gIn) && g == Joined(reqIn, gIn)
    ensures Plain(reqIn) && Plain(gIn) ==> Plain(g) && Member(req, g) && g.ch == gIn.ch && g.bw >= gIn.bw
    ensures Plain(reqIn) && Plain(gIn) ==> forall m :: Member(m, gIn) ==> Member(m, g)
  {
    req, g := reqIn, gIn;
    req := req.(ch := g.ch);
    if req.bw == WIDTH_80 && g.ch <= 14 {
      req := req.(bw := WIDTH_40);
    }
    if req.bw == WIDTH_80 || req.bw == WIDTH_40 {
      if g.bw == WIDTH_40 || g.bw == WIDTH_80 {
        req := req.(offset := g.offset);
      } else if g.bw == WIDTH_20 {
        req := WithOffset(req);
      }
      if req.offset == DONT_CARE {
        req := req.(bw := WIDTH_20);
      }
    } else if req.bw == WIDTH_20 {
      req := req.(offset := DONT_CARE);
    }
    if req.bw > g.bw {
      g := g.(bw := req.bw, offset := req.offset);
    }
  }

  /** m fits into the union g: on its channel, no wider, and on the same side when it is wider than 20 MHz. */
  predicate Member(m: Setting, g: Setting) {
    m.ch == g.ch && m.bw <= g.bw && (m.bw > WIDTH_20 ==> m.offset == g.offset)
  }

  predicate Plain(s: Setting) {
    s.bw <= WIDTH_80
  }

  lemma MembersGrouped(a: Setting, b: Setting, g: Setting)
    requires Member(a, g) && Member(b, g)
    ensures Grouped(a, b) && Grouped(a, g)
  {
  }

  /** Syncing one request fits it into the union, keeps what fitted in it, and never narrows it. */
  lemma SyncFits(req: Setting, g: Setting, m: Setting)
    requires Plain(req) && Plain(g)
    ensures Plain(Joined(req, g)) && Member(Synced(req, g), Joined(req, g))
    ensures Member(m, g) ==> Member(m, Joined(req, g))
    ensures Joined(req, g).ch == g.ch && Joined(req, g).bw >= g.bw
  {
  }

  /** A wide request on a side the channel of a 20 MHz union has keeps its width and its side, and the union takes
      them over. */
  lemma SyncKeepsSide(req: Setting, g: Setting)
    requires Plain(req) && req.bw > WIDTH_20 && g.bw == WIDTH_20 && HasSide(g.ch, req.bw, req.offset)
    ensures Synced(req, g) == Setting(g.ch, req.bw, req.offset) == Joined(req, g)
  {
    SideStays(req.(ch := g.ch));
    hide OffsetFor, WithOffset;
  }

  /** A request to a wide union keeps its width, but for 80 MHz in the 2.4 GHz band, and takes over the side of the
      union; to a 20 MHz union it keeps the width the channel has a side for. */
  lemma SyncedWidth(req: Setting, g: Setting)
    requires Plain(req) && Plain(g) && (g.bw > WIDTH_20 ==> g.offset == LOWER || g.offset == UPPER)
    ensures var r, bw := Synced(req, g), if g.ch <= 14 && req.bw == WIDTH_80 then WIDTH_40 else req.bw;
            && r.ch == g.ch
            && (g.bw > WIDTH_20 && bw > WIDTH_20 ==> r.bw == bw && r.offset == g.offset)
            && (g.bw == WIDTH_20 && bw > WIDTH_20 && (HasSide(g.ch, bw, LOWER) || HasSide(g.ch, bw, UPPER)) ==>
                  r.bw == bw && HasSide(g.ch, bw, r.offset))
            && (req.bw == WIDTH_20 ==> r.bw == WIDTH_20 && r.offset == DONT_CARE)
  {
    hide OffsetFor;
    var bw := if g.ch <= 14 && req.bw == WIDTH_80 then WIDTH_40 else req.bw;
    if bw > WIDTH_20 {
      OffsetIs(g.ch, bw, req.offset);
    }
  }

  /** The requests synced one after the other. */
  function SyncedAll(reqs: seq<Setting>, g: Setting): (r: seq<Setting>)
    ensures |r| == |reqs|
  {
    if reqs == [] then [] else [Synced(reqs[0], g)] + SyncedAll(reqs[1..], Joined(reqs[0], g))
  }

  function JoinedAll(reqs: seq<Setting>, g: Setting): Setting {
    if reqs == [] then g else JoinedAll(reqs[1..], Joined(reqs[0], g))
  }

  predicate AllPlain(reqs: seq<Setting>) {
    forall k :: 0 <= k < |reqs| ==> Plain(reqs[k])
  }

  /** Over any sequence of requests: what fitted still fits, and the union does not get narrower. */
  lemma {:induction false} FoldKeeps(reqs: seq<Setting>, g: Setting, m: Setting)
    requires AllPlain(reqs) && Plain(g)
    ensures Plain(JoinedAll(reqs, g)) && JoinedAll(reqs, g).ch == g.ch && JoinedAll(reqs, g).bw >= g.bw
    ensures Member(m, g) ==> Member(m, JoinedAll(reqs, g))
  {
    if reqs != [] {
      SyncFits(reqs[0], g, m);
      FoldKeeps(reqs[1..], Joined(reqs[0], g), m);
    }
  }

  function Widest(s: seq<Setting>, bw: nat): nat {
    if s == [] then bw else Widest(s[1..], if s[0].bw > bw then s[0].bw else bw)
  }

  /** Every request synced on the way fits into the final union, which is as wide as the widest of them. */
  lemma {:induction false} FoldFits(reqs: seq<Setting>, g: Setting)
    requires AllPlain(reqs) && Plain(g)
    ensures forall k :: 0 <= k < |reqs| ==> Member(SyncedAll(reqs, g)[k], JoinedAll(reqs, g))
    ensures JoinedAll(reqs, g).bw == Widest(SyncedAll(reqs, g), g.bw)
  {
    hide Synced, Member;
    if reqs != [] {
      var u, rest := Joined(reqs[0], g), reqs[1..];
      SyncFits(reqs[0], g, g);
      FoldFits(rest, u);
      FoldKeeps(rest, u, Synced(reqs[0], g));
      var all := SyncedAll(reqs, g);
      assert all[1..] == SyncedAll(rest, u);
      forall k | 0 <= k < |reqs|
        ensures Member(all[k], JoinedAll(reqs, g))
      {
        if k > 0 {
          assert all[k] == SyncedAll(rest, u)[k - 1];
        }
      }
    }
  }

  /** So all of them are grouped with each other. */
  lemma FoldGroups(reqs: seq<Setting>, g: Setting, j: nat, k: nat)
    requires AllPlain(reqs) && Plain(g) && j < |reqs| && k < |reqs|
    ensures Grouped(SyncedAll(reqs, g)[j], SyncedAll(reqs, g)[k])
    ensures Grouped(SyncedAll(reqs, g)[j], JoinedAll(reqs, g))
  {
    FoldFits(reqs, g);
    MembersGrouped(SyncedAll(reqs, g)[j], SyncedAll(reqs, g)[k], JoinedAll(reqs, g));
  }

  // What the hardware and the regulatory domain allow.

  /** The environment of the decision: the widest width the registry and the hardware allow on a channel,
      the settings the channel plan has, and the settings that need radar detection. */
  datatype Domain = Domain(
    allowedBw: nat -> nat,
    valid: Setting -> bool,
    dfs: Setting -> bool,
    nonOcp: Setting -> bool,      // radar has been seen there lately
    unknown: bool)                // rtw_odm_dfs_domain_unknown

  /** rtw_adjust_chbw. */
  function Adjusted(d: Domain, s: Setting): Setting {
    var allowed := d.allowedBw(s.ch);
    if allowed == WIDTH_80 && s.bw > WIDTH_80 then s.(bw := WIDTH_80)
    else if allowed == WIDTH_40 && s.bw > WIDTH_40 then s.(bw := WIDTH_40)
    else if allowed == WIDTH_20 && s.bw > WIDTH_20 then s.(bw := WIDTH_20, offset := DONT_CARE)
    else s
  }

  /** The width becomes the smaller of the one asked for and the one allowed. */
  lemma AdjustedIs(d: Domain, s: Setting)
    requires d.allowedBw(s.ch) <= WIDTH_80
    ensures var r, allowed := Adjusted(d, s), d.allowedBw(s.ch);
            && r.ch == s.ch && r.bw == (if s.bw > allowed then allowed else s.bw)
            && (r.offset == if s.bw > WIDTH_20 && allowed == WIDTH_20 then DONT_CARE else s.offset)
    ensures s.bw <= d.allowedBw(s.ch) ==> Adjusted(d, s) == s
  {
  }

  predicate Usable(d: Domain, s: Setting) {
    d.valid(s) && !(d.unknown && d.dfs(s))
  }

  /** The widest usable setting no wider than s, or 20 MHz if there is none wider. */
  function Narrowed(d: Domain, s: Setting): (r: Setting)
    ensures r.ch == s.ch && r.bw <= s.bw
    ensures r == s || (r.bw == WIDTH_20 && r.offset == DONT_CARE) || (r.offset == s.offset && Usable(d, r))
    ensures forall bw :: r.bw < bw <= s.bw ==> !Usable(d, s.(bw := bw))
    decreases s.bw
  {
    if Usable(d, s) then s
    else if s.bw <= WIDTH_40 then s.(bw := WIDTH_20, offset := DONT_CARE)
    else Narrowed(d, s.(bw := s.bw - 1))
  }

  /** rtw_ap_ch_specific_chk. */
  method ChSpecificChk(d: Domain, s: Setting) returns (ok: bool, r: Setting)
    ensures var a := Adjusted(d, s);
            match OffsetFor(a.ch, a.bw, a.offset)
            case None => !ok && r == a
            case Some(o) => r == Narrowed(d, a.(offset := o)) && (ok <==> !(d.unknown && d.dfs(r)))
  {
    r := Adjusted(d, s);
    match OffsetFor(r.ch, r.bw, r.offset) {
      case None => ok := false; return;
      case Some(o) => r := r.(offset := o);
    }
    ghost var start := r;
    while !d.valid(r) || (d.unknown && d.dfs(r))
      invariant Narrowed(d, r) == Narrowed(d, start)
      decreases r.bw
    {
      ghost var before := r;
      if r.bw > WIDTH_20 {
        r := r.(bw := r.bw - 1);
      }
      if r.bw == WIDTH_20 {
        r := r.(offset := DONT_CARE);
        assert r == Narrowed(d, before);
        ok := !(d.unknown && d.dfs(r));
        return;
      }
    }
    ok := !(d.unknown && d.dfs(r));
  }

  // The autonomous decision.

  /** The settings of the selected interfaces, in order, each brought in line with the hardware. */
  function Requests(d: Domain, dec: seq<Setting>, selected: seq<bool>): (r: seq<Setting>)
    requires |dec| == |selected|
  {
    if dec == [] then []
    else
      var n := |dec| - 1;
      Requests(d, dec[..n], selected[..n]) + if selected[n] then [WithOffset(Adjusted(d, dec[n]))] else []
  }

  /** The union of the requests. As long as the channel of the union is 0, the next request replaces it. */
  function UnionOf(reqs: seq<Setting>): Setting {
    if reqs == [] then Setting(0, 0, 0)
    else if reqs[0].ch == 0 && |reqs| > 1 then UnionOf(reqs[1..])
    else JoinedAll(reqs[1..], reqs[0])
  }

  lemma {:induction false} JoinedAllAppend(reqs: seq<Setting>, x: Setting, g: Setting)
    ensures JoinedAll(reqs + [x], g) == Joined(x, JoinedAll(reqs, g)) && JoinedAll(reqs, g).ch == g.ch
  {
    hide Joined;
    JoinedCh(if reqs == [] then x else reqs[0], g);
    if reqs == [] {
      assert [] + [x] == [x];
    } else {
      assert (reqs + [x])[0] == reqs[0] && (reqs + [x])[1..] == reqs[1..] + [x];
      JoinedAllAppend(reqs[1..], x, Joined(reqs[0], g));
    }
  }

  lemma JoinedCh(req: Setting, g: Setting)
    ensures Joined(req, g).ch == g.ch
  {
    hide Synced;
  }

  lemma {:induction false} UnionAppend(reqs: seq<Setting>, x: Setting)
    ensures UnionOf(reqs + [x]) == if UnionOf(reqs).ch == 0 then x else Joined(x, UnionOf(reqs))
  {
    hide Joined;
    if reqs == [] {
      assert reqs + [x] == [x];
    } else {
      assert (reqs + [x])[0] == reqs[0] && (reqs + [x])[1..] == reqs[1..] + [x];
      JoinedAllAppend(reqs[1..], x, reqs[0]);
      if reqs[0].ch == 0 {
        if |reqs| > 1 {
          UnionAppend(reqs[1..], x);
        } else {
          assert (reqs + [x])[1..] == [x];
        }
      }
    }
  }

  lemma RequestsNext(d: Domain, dec: seq<Setting>, selected: seq<bool>, dec0: seq<Setting>, selected0: seq<bool>)
    requires |dec| == |selected| && |dec0| == |selected0| == |dec| - 1
    requires dec0 == dec[..|dec| - 1] && selected0 == selected[..|dec| - 1]
    ensures Requests(d, dec, selected) == Requests(d, dec0, selected0)
              + if selected[|dec| - 1] then [WithOffset(Adjusted(d, dec[|dec| - 1]))] else []
    ensures !selected[|dec| - 1] ==> Requests(d, dec, selected) == Requests(d, dec0, selected0)
  {
    assert Requests(d, dec0, selected0) + [] == Requests(d, dec0, selected0);
  }

  /** The loop over the selected interfaces. */
  method TmpUnion(d: Domain, dec: array<Setting>, selected: seq<bool>) returns (u: Setting)
    requires |selected| == dec.Length
    ensures u == UnionOf(Requests(d, dec[..], selected))
  {
    u := Setting(0, 0, 0);
    var i := 0;
    while i < dec.Length
      invariant i <= dec.Length && u == UnionOf(Requests(d, dec[..i], selected[..i]))
    {
      RequestsNext(d, dec[..i + 1], selected[..i + 1], dec[..i], selected[..i]);
      if selected[i] {
        var tmp := WithOffset(Adjusted(d, dec[i]));
        UnionAppend(Requests(d, dec[..i], selected[..i]), tmp);
        if u.ch == 0 {
          u := tmp;
        } else {
          tmp, u := SyncChbw(tmp, u);
        }
      }
      i := i + 1;
    }
    assert dec[..i] == dec[..] && selected[..i] == selected;
  }

  /** What the update makes of an interface: the channel of the union, and no more than its width. */
  function Fitted(s: Setting, u: Setting): Setting {
    var bw := if s.bw > u.bw then u.bw else s.bw;
    Setting(u.ch, bw, if bw == WIDTH_20 then DONT_CARE else u.offset)
  }

  method UpdateAll(dec: array<Setting>, selected: seq<bool>, u: Setting)
    requires |selected| == dec.Length
    modifies dec
    ensures forall i :: 0 <= i < dec.Length ==> dec[i] == if selected[i] then Fitted(old(dec[i]), u) else old(dec[i])
  {
    var i := 0;
    while i < dec.Length
      invariant i <= dec.Length
      invariant forall k :: 0 <= k < i ==> dec[k] == if selected[k] then Fitted(old(dec[k]), u) else old(dec[k])
      invariant forall k :: i <= k < dec.Length ==> dec[k] == old(dec[k])
    {
      if selected[i] {
        dec[i] := dec[i].(ch := u.ch);
        if dec[i].bw > u.bw {
          dec[i] := dec[i].(bw := u.bw);
        }
        if dec[i].bw == WIDTH_20 {
          dec[i] := dec[i].(offset := DONT_CARE);
        } else {
          dec[i] := dec[i].(offset := u.offset);
        }
      }
      i := i + 1;
    }
  }

  /** The tail of the decision has found a union: the one of the requests, or one chosen afresh; None if no
      channel can be used. The request for a channel or a width is -1 or less when there is none, and choice
      is what rtw_ap_choose_chbw offers. */
  function Decided(d: Domain, reqs: seq<Setting>, reqCh: int, reqBw: int, choice: Option<Setting>): Option<Setting> {
    if reqCh <= -1 then choice
    else
      var a := Adjusted(d, UnionOf(reqs));
      match OffsetFor(a.ch, a.bw, a.offset)
      case None => if reqCh > 0 then None else choice
      case Some(o) =>
        var u := Narrowed(d, a.(offset := o));
        if d.unknown && d.dfs(u) then (if reqCh > 0 then None else choice)
        else if d.nonOcp(u) && !(reqCh > 0 && reqBw > -1) then choice
        else Some(u)
  }

  /** A union that is applied without having been chosen afresh is on the channel of the requests and no wider
      than their union, needs no radar detection in an unknown domain, has no wider usable form, and is free
      of radar unless both a channel and a width were asked for; a request for both never moves to another channel,
      and one for no channel is never refused while there is a choice. */
  lemma DecidedSound(d: Domain, reqs: seq<Setting>, reqCh: int, reqBw: int, choice: Option<Setting>)
    ensures var r := Decided(d, reqs, reqCh, reqBw, choice);
            r.Some? && r != choice ==>
              var u := r.value;
              && u.ch == UnionOf(reqs).ch && u.bw <= UnionOf(reqs).bw && !(d.unknown && d.dfs(u))
              && (u.bw > WIDTH_20 ==> d.valid(u)) && (d.nonOcp(u) ==> reqCh > 0 && reqBw > -1)
    ensures var r := Decided(d, reqs, reqCh, reqBw, choice);
            && (reqCh > 0 && reqBw > -1 && r.Some? ==> r.value.ch == UnionOf(reqs).ch)
            && (reqCh <= 0 && choice.Some? ==> r.Some?) && (reqCh <= -1 ==> r == choice)
  {
    hide UnionOf, OffsetFor;
  }

  /** The setting is on a side its channel has, no wider than allowed, in the channel plan, and needs no radar detection
      in an unknown domain. */
  predicate Fine(d: Domain, s: Setting) {
    && (if s.bw == WIDTH_20 then s.offset == DONT_CARE else HasSide(s.ch, s.bw, s.offset))
    && s.bw <= d.allowedBw(s.ch) <= WIDTH_80
    && d.valid(s) && !(d.unknown && d.dfs(s))
  }

  lemma FineKept(d: Domain, s: Setting)
    requires Fine(d, s)
    ensures Adjusted(d, s) == s && OffsetFor(s.ch, s.bw, s.offset) == Some(s.offset) && Narrowed(d, s) == s
    ensures WithOffset(s) == s
  {
    AdjustedIs(d, s);
    hide HasSide, OffsetFor;
    if s.bw > WIDTH_20 {
      OffsetIs(s.ch, s.bw, s.offset);
    } else {
      OffsetNarrow(s.ch, s.offset);
    }
  }

  /** Unless a fresh choice is asked for, a fine union of the requests is the one applied, if it is free of radar or
      both a channel and a width have been asked for; otherwise it is the choice. */
  lemma FineDecided(d: Domain, reqs: seq<Setting>, reqCh: int, reqBw: int, choice: Option<Setting>)
    requires Fine(d, UnionOf(reqs))
    ensures Decided(d, reqs, reqCh, reqBw, choice) ==
              if reqCh > -1 && (!d.nonOcp(UnionOf(reqs)) || (reqCh > 0 && reqBw > -1)) then Some(UnionOf(reqs))
              else choice
  {
    FineKept(d, UnionOf(reqs));
    hide UnionOf, Fine, Adjusted, OffsetFor, Narrowed;
    FineFree(d, UnionOf(reqs));
  }

  lemma FineFree(d: Domain, s: Setting)
    requires Fine(d, s)
    ensures !(d.unknown && d.dfs(s))
  {
  }

  /** With a choice at hand, a request is refused if and only if it is for a channel, and the union of the requests has
      no side for its width, or what is left of it needs radar detection in an unknown domain. */
  lemma RefusedIff(d: Domain, reqs: seq<Setting>, reqCh: int, reqBw: int, choice: Option<Setting>)
    requires choice.Some?
    ensures var a := Adjusted(d, UnionOf(reqs));
            Decided(d, reqs, reqCh, reqBw, choice) == None <==>
              && reqCh > 0
              && ((a.bw > WIDTH_20 && !HasSide(a.ch, a.bw, LOWER) && !HasSide(a.ch, a.bw, UPPER))
                  || (d.unknown && d.dfs(Narrowed(d, WithOffset(a)))))
  {
    var a := Adjusted(d, UnionOf(reqs));
    hide UnionOf, Adjusted, OffsetFor, HasSide, Narrowed;
    if a.bw > WIDTH_20 {
      OffsetIs(a.ch, a.bw, a.offset);
      SidesAre(a.ch, a.bw, a.offset);
    } else {
      OffsetNarrow(a.ch, a.offset);
    }
  }

  lemma SidesAre(ch: nat, bw: nat, side: nat)
    ensures HasSide(ch, bw, side) ==> side == LOWER || side == UPPER
  {
  }

  /** So a single interface whose setting is fine keeps it. */
  lemma OneStays(d: Domain, dec: seq<Setting>, selected: seq<bool>, k: nat, reqCh: int, reqBw: int,
                 choice: Option<Setting>)
    requires |dec| == |selected| && k < |dec| && reqCh > -1 && Fine(d, dec[k]) && !d.nonOcp(dec[k])
    requires forall i :: 0 <= i < |selected| ==> (selected[i] <==> i == k)
    ensures UnionOf(Requests(d, dec, selected)) == dec[k]
    ensures Decided(d, Requests(d, dec, selected), reqCh, reqBw, choice) == Some(dec[k])
    ensures Fitted(dec[k], dec[k]) == dec[k]
  {
    OnlyOne(d, dec, selected, k);
    FineKept(d, dec[k]);
    FineDecided(d, [dec[k]], reqCh, reqBw, choice);
  }

  lemma {:induction false} OnlyOne(d: Domain, dec: seq<Setting>, selected: seq<bool>, k: nat)
    requires |dec| == |selected| && (forall i :: 0 <= i < |selected| ==> (selected[i] <==> i == k))
    ensures Requests(d, dec, selected) == if k < |dec| then [WithOffset(Adjusted(d, dec[k]))] else []
    decreases |dec|
  {
    hide WithOffset, Adjusted;
    if dec != [] {
      var n := |dec| - 1;
      RequestsNext(d, dec, selected, dec[..n], selected[..n]);
      OnlyOne(d, dec[..n], selected[..n], k);
    }
  }

  /** The autonomous branch of rtw_ap_chbw_decision, without mesh interfaces. */
  method Decide(d: Domain, dec: array<Setting>, selected: seq<bool>, reqCh: int, reqBw: int, choice: Option<Setting>)
    returns (u: Option<Setting>)
    requires |selected| == dec.Length
    modifies dec
    ensures u == Decided(d, Requests(d, old(dec[..]), selected), reqCh, reqBw, choice)
    ensures u == None ==> dec[..] == old(dec[..])
    ensures u.Some? ==> forall i :: 0 <= i < dec.Length ==>
              dec[i] == if selected[i] then Fitted(old(dec[i]), u.value) else old(dec[i])
  {
    hide Narrowed, OffsetFor, Adjusted, UnionOf, Requests, Fitted;
    u := choice;
    if reqCh > -1 {
      var tmp := TmpUnion(d, dec, selected);
      var ok, usable := ChSpecificChk(d, tmp);
      if !ok {
        if reqCh > 0 {
          u := None;
        }
      } else if !d.nonOcp(usable) || (reqCh > 0 && reqBw > -1) {
        u := Some(usable);
      }
    }
    if u.Some? {
      UpdateAll(dec, selected, u.value);
    }
  }

  /** After the decision all the interfaces it updated are grouped with each other and with the union, and
      none has become wider than it was. */
  lemma FittedGroup(a: Setting, b: Setting, u: Setting)
    ensures Grouped(Fitted(a, u), Fitted(b, u)) && Member(Fitted(a, u), u)
    ensures Fitted(a, u).bw == if a.bw <= u.bw then a.bw else u.bw
  {
  }

  /** For interfaces with a channel, every request fits into the union the decision starts from, so that the
      union covers all that was asked for. */
  lemma UnionCovers(reqs: seq<Setting>)
    requires AllPlain(reqs) && reqs != [] && reqs[0].ch != 0
    ensures Member(reqs[0], UnionOf(reqs))
    ensures var synced := SyncedAll(reqs[1..], reqs[0]);
            forall k :: 0 <= k < |synced| ==> Member(synced[k], UnionOf(reqs))
  {
    FoldKeeps(reqs[1..], reqs[0], reqs[0]);
    FoldFits(reqs[1..], reqs[0]);
  }
}
