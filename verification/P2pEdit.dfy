/** Deleting P2P attributes from a BSS description (core/rtw_ieee80211.c): attributes are removed
    inside each P2P element, and the elements behind it are moved up after it. */
module P2pEdit {
  import opened Basics
  import opened Tlv
  import opened IeEdit
  import opened Bss

  const VENDOR_SPECIFIC: nat := 221
  const P2P_OUI: seq<Byte> := [0x50, 0x6F, 0x9A, 0x09]

  /** A P2P element of `len` octets at b[ie] holding the given attributes. */
  ghost predicate P2pElement(b: seq<Byte>, ie: nat, len: nat, attrs: seq<Item>) {
    && len == 6 + Size(P2pAttr, attrs) < 258
    && ie + len <= |b|
    && b[ie] == VENDOR_SPECIFIC && b[ie + 1] == len - 2 && b[ie + 2..ie + 6] == P2P_OUI
    && LaidOut(P2pAttr, b, ie + 6, attrs)
  }

  /** What the attribute editors can be given: a P2P element, or an element too short to be one. */
  ghost predicate P2pCandidate(b: seq<Byte>, ie: nat, len: nat, attrs: seq<Item>) {
    P2pElement(b, ie, len, attrs) || (len < 6 && ie + len <= |b| && attrs == [])
  }

  /** rtw_get_p2p_attr without the optional copy. */
  method GetP2pAttr(a: array<Byte>, ie: nat, ielen: nat, attrId: Byte, ghost attrs: seq<Item>)
    returns (pos: Option<nat>, len: nat)
    requires P2pCandidate(a[..], ie, ielen, attrs)
    ensures var k := FirstMatch(attrs, attrId, []);
            && (pos.None? <==> k == |attrs|)
            && (pos.Some? ==> pos.value == ie + 6 + Size(P2pAttr, attrs[..k]) && len == ItemLen(P2pAttr, attrs[k]))
  {
    hide Scanned, LaidOut, Matches, FirstMatch, Size;
    pos, len := None, 0;
    ghost var n := 0;
    if ielen <= 6 {
      NoAttrs(a[..], ie, ielen, attrs, attrId);
      return;
    }
    if a[ie] != VENDOR_SPECIFIC || a[ie + 2..ie + 6] != P2P_OUI {
      return;
    }
    ScanFirst(P2pAttr, a[..], ie + 6, attrs, attrId, []);
    var p := ie + 6;
    while p - ie + 3 <= ielen
      invariant Scanned(P2pAttr, a[..], ie + 6, attrs, n, attrId, []) && n <= |attrs|
      invariant p == ie + 6 + Size(P2pAttr, attrs[..n]) <= ie + ielen
      decreases ielen - (p - ie)
    {
      ScanNext(P2pAttr, a[..], ie + 6, attrs, n, attrId, []);
      var attrLen := (a[p + 1] + (a[p + 2] as int) * 256 + 3) % 65536;
      ScanRoom(a[..], ie, ielen, attrs, n, attrId);
      if p - ie + attrLen > ielen {
        break;
      }
      if a[p] == attrId {
        return Some(p), attrLen;
      }
      p := p + attrLen;
      n := n + 1;
    }
    ScanEnd(P2pAttr, a[..], ie + 6, attrs, n, attrId, []);
  }

  lemma NoAttrs(b: seq<Byte>, ie: nat, ielen: nat, attrs: seq<Item>, attrId: nat)
    requires P2pCandidate(b, ie, ielen, attrs) && ielen <= 6
    ensures attrs == [] && FirstMatch(attrs, attrId, []) == |attrs|
  {
  }

  /** An attribute that begins inside the element also ends inside it. */
  lemma ScanRoom(b: seq<Byte>, ie: nat, ielen: nat, attrs: seq<Item>, n: nat, attrId: nat)
    requires P2pElement(b, ie, ielen, attrs) && Scanned(P2pAttr, b, ie + 6, attrs, n, attrId, []) && n < |attrs|
    ensures 6 + Size(P2pAttr, attrs[..n]) + ItemLen(P2pAttr, attrs[n]) <= ielen
  {
    hide Here, Matches;
    assert attrs[n..][1..] == attrs[n + 1..];
  }

  /** The octets after one deletion: what lies between p + n and end has moved down to p, the end is cleared,
      and v is the new length octet. */
  function Erased(b: seq<Byte>, ie: nat, end: nat, p: nat, n: nat, v: Byte): (r: seq<Byte>)
    requires ie + 1 < p && p + n <= end <= |b|
    ensures |r| == |b|
  {
    (b[..p] + b[p + n..end] + Zeros(n) + b[end..])[ie + 1 := v]
  }

  /** One attribute gone from the element: the octets behind it moved down, the freed octets of the
      element cleared, the length octet lowered. */
  lemma AttrCut(b: seq<Byte>, c: seq<Byte>, ie: nat, ielen: nat, attrs: seq<Item>, k: nat)
    requires P2pElement(b, ie, ielen, attrs) && k < |attrs|
    requires var p, n, end := ie + 6 + Size(P2pAttr, attrs[..k]), ItemLen(P2pAttr, attrs[k]), ie + ielen;
             && p + n <= end <= |b| && 0 <= ielen - n - 2 < 256 && c == Erased(b, ie, end, p, n, ielen - n - 2)
    ensures P2pElement(c, ie, ielen - ItemLen(P2pAttr, attrs[k]), attrs[..k] + attrs[k + 1..])
  {
    hide LaidOut, Size, ItemLen, Erased, Zeros;
    var p, n, end := ie + 6 + Size(P2pAttr, attrs[..k]), ItemLen(P2pAttr, attrs[k]), ie + ielen;
    var d := b[..p] + b[p + n..end] + Zeros(n) + b[end..];
    ErasedParts(b, d, c, ie, end, p, n, ielen - n - 2);
    CutOut(P2pAttr, b, d, ie + 6, attrs, k);
    LaidOutAppend(P2pAttr, d, ie + 6, attrs[..k], attrs[k + 1..]);
    AttrsMoved(d, c, ie, attrs[..k] + attrs[k + 1..]);
  }

  lemma ErasedParts(b: seq<Byte>, d: seq<Byte>, c: seq<Byte>, ie: nat, end: nat, p: nat, n: nat, v: Byte)
    requires ie + 6 <= p && p + n <= end <= |b| && d == b[..p] + b[p + n..end] + Zeros(n) + b[end..]
    requires c == Erased(b, ie, end, p, n, v)
    ensures |d| == |b| == |c| && d[..end - n] == b[..p] + b[p + n..end] && c[ie + 2..] == d[ie + 2..]
    ensures c[ie] == b[ie] && c[ie + 1] == v && c[ie + 2..ie + 6] == b[ie + 2..ie + 6]
  {
    hide Zeros;
    assert d[..p] == b[..p];
    assert c[ie + 2..ie + 6] == c[ie + 2..][..4] == d[ie + 2..ie + 6] == d[..p][ie + 2..ie + 6];
  }

  lemma AttrsMoved(d: seq<Byte>, c: seq<Byte>, ie: nat, attrs: seq<Item>)
    requires LaidOut(P2pAttr, d, ie + 6, attrs) && ie + 6 + Size(P2pAttr, attrs) <= |d| == |c|
    requires c[ie + 2..] == d[ie + 2..]
    ensures LaidOut(P2pAttr, c, ie + 6, attrs)
  {
    hide LaidOut, Size;
    var n := |d| - (ie + 2);
    assert c[ie + 2..ie + 2 + n] == d[ie + 2..ie + 2 + n];
    SubSlice(d, ie + 2, c, ie + 2, n, 4, 4 + Size(P2pAttr, attrs));
    Moved(P2pAttr, d, ie + 6, c, ie + 6, attrs);
  }

  /** Where the attributes of an element lie. */
  lemma AttrBounds(b: seq<Byte>, ie: nat, ielen: nat, attrs: seq<Item>, k: nat)
    requires P2pElement(b, ie, ielen, attrs) && k < |attrs|
    ensures ie + 6 + Size(P2pAttr, attrs[..k]) + ItemLen(P2pAttr, attrs[k]) <= ie + ielen <= |b|
    ensures b[ie + 1] == ielen - 2 && ielen - 2 < 256
  {
    assert attrs == attrs[..k] + attrs[k..];
    LaidOutAppend(P2pAttr, b, ie + 6, attrs[..k], attrs[k..]);
  }

  /** What a cut leaves outside the element, and in the cleared end of it. */
  lemma CutFrame(b: seq<Byte>, c: seq<Byte>, p: nat, n: nat, ie: nat, end: nat, stop: nat, v: Byte)
    requires ie + 1 < p && p + n <= end <= stop <= |b|
    requires |c| == |b| && b[end..stop] == Zeros(stop - end)
    requires c == Erased(b, ie, end, p, n, v)
    ensures c[..ie] == b[..ie] && c[stop..] == b[stop..]
    ensures c[end - n..stop] == Zeros(stop - end + n)
  {
    forall i | end - n <= i < stop
      ensures c[i] == 0
    {
      if end <= i {
        assert c[i] == b[i] == b[end..stop][i - end];
      }
    }
  }

  lemma MovedAndCleared(b: seq<Byte>, c: seq<Byte>, d: seq<Byte>, p: nat, n: nat, end: nat)
    requires p + n <= end <= |b| && c == b[..p] + b[p + n..end] + b[end - n..]
    requires d == c[..end - n] + Zeros(n) + c[end..]
    ensures d == b[..p] + b[p + n..end] + Zeros(n) + b[end..] && d[..p] == b[..p]
  {
    assert c[..end - n] == b[..p] + b[p + n..end] && c[end..] == b[end..];
  }

  /** Lowering a length octet in front of the gap. */
  method Lower(a: array<Byte>, at: nat, n: nat)
    requires at < a.Length
    modifies a
    ensures a[..] == old(a[..])[at := (old(a[at]) - n) % 256]
  {
    a[at] := (a[at] - n) % 256;
  }

  /** Moving the rest of the element down over n octets at p, and clearing the end of it. */
  method MoveAndClear(a: array<Byte>, p: nat, n: nat, end: nat)
    requires p + n <= end <= a.Length
    modifies a
    ensures a[..] == old(a[..p]) + old(a[p + n..end]) + Zeros(n) + old(a[end..]) && a[..p] == old(a[..p])
  {
    hide Zeros;
    ghost var b := a[..];
    MemMove(a, p, p + n, end - (p + n));
    ghost var c := a[..];
    MemZero(a, end - n, n);
    MovedAndCleared(b, c, a[..], p, n, end);
  }

  /** The writes of one deletion: the move, the clearing, and the lower length. */
  method EraseAttr(a: array<Byte>, ie: nat, ielen: nat, target: nat, targetLen: nat)
    requires ie + 1 < target && target + targetLen <= ie + ielen <= a.Length
    modifies a
    ensures a[..] == Erased(old(a[..]), ie, ie + ielen, target, targetLen, (old(a[ie + 1]) - targetLen) % 256)
  {
    hide Zeros;
    ghost var b := a[..];
    MoveAndClear(a, target, targetLen, ie + ielen);
    assert a[ie + 1] == a[..target][ie + 1] == b[..target][ie + 1] == b[ie + 1];
    Lower(a, ie + 1, targetLen);
  }

  /** The body of rtw_del_p2p_attr's loop. */
  method DelFirstP2pAttr(a: array<Byte>, ie: nat, ielen: nat, attrId: Byte, ghost attrs: seq<Item>, ghost stop: nat)
    returns (newLen: nat)
    requires P2pCandidate(a[..], ie, ielen, attrs) && ie + ielen <= stop <= a.Length
    requires a[ie + ielen..stop] == Zeros(stop - (ie + ielen))
    modifies a
    ensures var k := FirstMatch(attrs, attrId, []);
            if k == |attrs| then newLen == ielen && a[..] == old(a[..])
            else newLen < ielen && P2pElement(a[..], ie, newLen, attrs[..k] + attrs[k + 1..])
    ensures a[..ie] == old(a[..ie]) && a[stop..] == old(a[stop..])
    ensures a[ie + newLen..stop] == Zeros(stop - (ie + newLen))
  {
    hide P2pElement, Matches, FirstMatch, LaidOut, Size, Erased;
    ghost var k := FirstMatch(attrs, attrId, []);
    var target, targetLen := GetP2pAttr(a, ie, ielen, attrId, attrs);
    newLen := ielen;
    if target.None? {
      return;
    }
    AttrBounds(a[..], ie, ielen, attrs, k);
    ghost var before := a[..];
    EraseAttr(a, ie, ielen, target.value, targetLen);
    AttrCut(before, a[..], ie, ielen, attrs, k);
    CutFrame(before, a[..], target.value, targetLen, ie, ie + ielen, stop, ielen - targetLen - 2);
    newLen := ielen - targetLen;
  }

  lemma CandidateBounds(b: seq<Byte>, ie: nat, len: nat, attrs: seq<Item>)
    requires P2pCandidate(b, ie, len, attrs)
    ensures ie + len <= |b| && (len < 6 ==> attrs == [])
  {
    hide LaidOut, Size;
  }

  lemma NoZeros()
    ensures Zeros(0) == []
  {
  }

  /** rtw_del_p2p_attr: removes every attribute with the given id from one P2P element, and does nothing to an
      element that is too short to be one. */
  method DelP2pAttr(a: array<Byte>, ie: nat, ielenOri: nat, attrId: Byte, ghost attrs: seq<Item>)
    returns (ielen: nat)
    requires P2pCandidate(a[..], ie, ielenOri, attrs)
    modifies a
    ensures P2pCandidate(a[..], ie, ielen, Without(attrs, attrId, [])) && ielen <= ielenOri
    ensures old(P2pElement(a[..], ie, ielenOri, attrs)) ==> P2pElement(a[..], ie, ielen, Without(attrs, attrId, []))
    ensures ielenOri < 6 ==> ielen == ielenOri && a[..] == old(a[..])
    ensures a[..ie] == old(a[..ie]) && a[ie + ielenOri..] == old(a[ie + ielenOri..])
    ensures a[ie + ielen..ie + ielenOri] == Zeros(ielenOri - ielen)
  {
    hide Matches, FirstMatch, Without, LaidOut, Size, P2pElement, Zeros;
    ielen := ielenOri;
    ghost var left, isP2p := attrs, P2pElement(a[..], ie, ielen, attrs);
    NoZeros();
    CandidateBounds(a[..], ie, ielen, attrs);
    while true
      invariant P2pCandidate(a[..], ie, ielen, left) && (isP2p ==> P2pElement(a[..], ie, ielen, left))
      invariant ielen <= ielenOri && (attrs == [] ==> left == [] && ielen == ielenOri && a[..] == old(a[..]))
      invariant Without(left, attrId, []) == Without(attrs, attrId, [])
      invariant a[..ie] == old(a[..ie]) && a[ie + ielenOri..] == old(a[ie + ielenOri..])
      invariant a[ie + ielen..ie + ielenOri] == Zeros(ielenOri - ielen)
      decreases |left|
    {
      ghost var k := FirstMatch(left, attrId, []);
      var newLen := DelFirstP2pAttr(a, ie, ielen, attrId, left, ie + ielenOri);
      if newLen == ielen {
        WithoutNone(left, attrId, []);
        return;
      }
      WithoutAtFirst(left, attrId, []);
      ielen := newLen;
      left := left[..k] + left[k + 1..];
    }
  }

  predicate IsP2p(t: Item) {
    Matches(t, VENDOR_SPECIFIC, P2P_OUI)
  }

  /** A P2P element whose body behind the OUI is a well-formed attribute list. */
  predicate HasAttrs(t: Item) {
    IsP2p(t) && Parse(P2pAttr, t.data[4..]).Some?
  }

  function AttrsOf(t: Item): seq<Item>
    requires HasAttrs(t)
  {
    Parse(P2pAttr, t.data[4..]).value
  }

  /** Every P2P element holds a well-formed attribute list. */
  ghost predicate WellFormedP2p(ts: seq<Item>) {
    forall i :: 0 <= i < |ts| && IsP2p(ts[i]) ==> HasAttrs(ts[i])
  }

  lemma {:induction false} WithoutFits(f: Format, ts: seq<Item>, eid: nat, oui: seq<Byte>)
    requires AllFit(f, ts)
    ensures AllFit(f, Without(ts, eid, oui)) && Size(f, Without(ts, eid, oui)) <= Size(f, ts)
  {
    hide Matches, Fits, ItemLen;
    if ts != [] {
      WithoutFits(f, ts[1..], eid, oui);
      var w, rest := Without(ts, eid, oui), Without(ts[1..], eid, oui);
      if Matches(ts[0], eid, oui) {
        assert w == rest;
      } else {
        assert w == [ts[0]] + rest && w[1..] == rest;
      }
    }
  }

  /** A P2P element without the attributes of the given id; any other element as it is. */
  ghost function Stripped(t: Item, attrId: nat): Item {
    if HasAttrs(t) then
      var attrs := AttrsOf(t);
      SerParse(P2pAttr, t.data[4..]);
      WithoutFits(P2pAttr, attrs, attrId, []);
      Item(VENDOR_SPECIFIC, P2P_OUI + Ser(P2pAttr, Without(attrs, attrId, [])))
    else t
  }

  ghost function AllStripped(ts: seq<Item>, attrId: nat): (r: seq<Item>)
    ensures |r| == |ts| && forall i :: 0 <= i < |ts| ==> r[i] == Stripped(ts[i], attrId)
  {
    if ts == [] then [] else [Stripped(ts[0], attrId)] + AllStripped(ts[1..], attrId)
  }

  /** A P2P element on the wire: id 221, length, the OUI 50-6F-9A with type 9, and the attributes. */
  lemma P2pOnWire(n: Byte, attrs: seq<Item>)
    requires AllFit(P2pAttr, attrs) && n == 4 + |Ser(P2pAttr, attrs)|
    ensures var t := Item(221, [0x50, 0x6F, 0x9A, 0x09] + Ser(P2pAttr, attrs));
            && Parse(Element, [221, n, 0x50, 0x6F, 0x9A, 0x09] + Ser(P2pAttr, attrs)) == Some([t])
            && HasAttrs(t) && AttrsOf(t) == attrs
  {
    hide Parse, Ser;
    var s := Ser(P2pAttr, attrs);
    var data: seq<Byte> := [0x50, 0x6F, 0x9A, 0x09] + s;
    assert [221, n, 0x50, 0x6F, 0x9A, 0x09] + s == [221, n] + data;
    ElementOnWire(221, n, data);
    ParseSer(P2pAttr, attrs);
    assert data[4..] == s && data[..4] == P2P_OUI;
  }

  /** What stripping does to a P2P element: its attribute list, read back from the octets, is the old
      one without the given id, and nothing else about it changes. */
  lemma StrippedAttrs(t: Item, attrId: nat)
    requires HasAttrs(t)
    ensures HasAttrs(Stripped(t, attrId))
    ensures AttrsOf(Stripped(t, attrId)) == Without(AttrsOf(t), attrId, [])
    ensures forall i :: 0 <= i < |AttrsOf(Stripped(t, attrId))| ==> AttrsOf(Stripped(t, attrId))[i].id != attrId
  {
    var attrs := AttrsOf(t);
    SerParse(P2pAttr, t.data[4..]);
    WithoutFits(P2pAttr, attrs, attrId, []);
    var left := Without(attrs, attrId, []);
    ParseSer(P2pAttr, left);
    assert Stripped(t, attrId).data[4..] == Ser(P2pAttr, left);
    WithoutNoMatch(attrs, attrId, []);
  }

  /** A second deletion of the same attribute changes nothing. */
  lemma StrippedTwice(ts: seq<Item>, attrId: nat)
    requires WellFormedP2p(ts)
    ensures WellFormedP2p(AllStripped(ts, attrId))
    ensures AllStripped(AllStripped(ts, attrId), attrId) == AllStripped(ts, attrId)
  {
    var once := AllStripped(ts, attrId);
    forall i | 0 <= i < |ts|
      ensures IsP2p(once[i]) ==> HasAttrs(once[i])
      ensures Stripped(once[i], attrId) == once[i]
    {
      if HasAttrs(ts[i]) {
        StrippedAttrs(ts[i], attrId);
        WithoutNone(AttrsOf(once[i]), attrId, []);
      }
    }
  }

  /** The octets of a P2P element are its header, its OUI and its attributes. */
  lemma ElementHoldsAttrs(b: seq<Byte>, at: nat, t: Item)
    requires Here(Element, b, at, t) && HasAttrs(t)
    ensures P2pElement(b, at, ItemLen(Element, t), AttrsOf(t))
  {
    hide Parse, Ser, LaidOut, Size;
    var attrs := AttrsOf(t);
    SerParse(P2pAttr, t.data[4..]);
    var n := ItemLen(Element, t);
    var e := b[at..at + n];
    assert e == [t.id, |t.data|] + t.data;
    assert e[6..] == t.data[4..] && e[2..6] == P2P_OUI;
    Slice(b, at, n, 6, n);
    Slice(b, at, n, 2, 6);
    assert b[at] == e[0] && b[at + 1] == e[1];
    SerLaidOut(P2pAttr, b, at + 6, attrs);
  }

  lemma AttrsMakeElement(b: seq<Byte>, at: nat, len: nat, attrs: seq<Item>)
    requires P2pElement(b, at, len, attrs)
    ensures AllFit(P2pAttr, attrs)
    ensures var t := Item(VENDOR_SPECIFIC, P2P_OUI + Ser(P2pAttr, attrs));
            Here(Element, b, at, t) && len == ItemLen(Element, t)
  {
    hide Ser, LaidOut, Size;
    LaidOutIsSer(P2pAttr, b, at + 6, attrs);
    assert b[at..at + len] == [b[at], b[at + 1]] + b[at + 2..at + 6] + b[at + 6..at + len];
  }

  /** When fewer octets are left than a P2P element needs, nothing more is found. */
  lemma {:induction false} NoHitInFew(ts: seq<Item>)
    requires AllFit(Element, ts) && Size(Element, ts) < 6
    ensures FirstHit(ts, [], VENDOR_SPECIFIC, P2P_OUI) == |ts|
  {
    if ts != [] {
      SerSize(ts[1..]);
      NoHitInFew(ts[1..]);
    }
  }

  lemma {:induction false} SerSize(ts: seq<Item>)
    requires AllFit(Element, ts)
    ensures |Ser(Element, ts)| == Size(Element, ts)
  {
    if ts != [] {
      SerSize(ts[1..]);
    }
  }

  /** rtw_get_p2p_ie without the optional copy: the first element on which the comparison with the P2P OUI
      succeeds within the list. One that begins within the last five octets of MAX_IE_SZ or behind them is not
      found. */
  method GetP2pIe(a: array<Byte>, start: nat, inLen: nat, ghost ts: seq<Item>) returns (pos: Option<nat>, len: nat)
    requires LaidOut(Element, a[..], start, ts) && inLen == Size(Element, ts) && AllFit(Element, ts)
    ensures var k := FirstHit(ts, [], VENDOR_SPECIFIC, P2P_OUI);
            && (pos.Some? <==> k < |ts| && Size(Element, ts[..k]) + 5 < MAX_IE_SZ)
            && (pos.Some? ==> pos.value == start + Size(Element, ts[..k]) && len == ItemLen(Element, ts[k]))
  {
    hide Searched, LaidOut, FirstHit, Size;
    pos, len := None, 0;
    SearchFirst(a[..], start, [], ts, VENDOR_SPECIFIC, P2P_OUI);
    var cnt := 0;
    ghost var n := 0;
    while cnt + 1 + 4 < inLen
      invariant Searched(a[..], start, [], ts, n, VENDOR_SPECIFIC, P2P_OUI) && n <= |ts|
      invariant cnt == Size(Element, ts[..n])
      decreases inLen - cnt
    {
      if cnt + 1 + 4 >= MAX_IE_SZ {
        HitIsLater(ts, n, a[..], start);
        return;
      }
      LeftToRead(a[..], start, ts, n);
      SearchNext(a[..], start, [], ts, n, VENDOR_SPECIFIC, P2P_OUI);
      var at := start + cnt;
      var bodyLen: nat := a[at + 1];
      if a[at] == VENDOR_SPECIFIC && a[at + 2..at + 2 + 4] == P2P_OUI {
        return Some(at), bodyLen + 2;
      }
      cnt := cnt + bodyLen + 2;
      n := n + 1;
    }
    FewLeft(a[..], start, ts, n);
  }

  /** What the guard of the loop leaves to be read at the n-th element. */
  lemma LeftToRead(b: seq<Byte>, at: nat, ts: seq<Item>, n: nat)
    requires Searched(b, at, [], ts, n, VENDOR_SPECIFIC, P2P_OUI) && Size(Element, ts[..n]) + 5 < Size(Element, ts)
    ensures n < |ts| && 4 <= |ts[n].data| + Size(Element, ts[n + 1..])
  {
    hide FirstHit, Here;
    assert ts[..|ts|] == ts;
    assert ts[n..][1..] == ts[n + 1..];
  }

  lemma FewLeft(b: seq<Byte>, at: nat, ts: seq<Item>, n: nat)
    requires Searched(b, at, [], ts, n, VENDOR_SPECIFIC, P2P_OUI) && Size(Element, ts[..n]) + 5 >= Size(Element, ts)
    ensures FirstHit(ts, [], VENDOR_SPECIFIC, P2P_OUI) == |ts|
  {
    hide FirstHit, Here;
    NoHitInFew(ts[n..]);
  }

  lemma HitIsLater(ts: seq<Item>, n: nat, b: seq<Byte>, at: nat)
    requires Searched(b, at, [], ts, n, VENDOR_SPECIFIC, P2P_OUI)
    ensures var k := FirstHit(ts, [], VENDOR_SPECIFIC, P2P_OUI);
            k >= n && Size(Element, ts[..n]) <= Size(Element, ts[..k])
  {
    hide Here, Size, FirstHit;
    var k := FirstHit(ts, [], VENDOR_SPECIFIC, P2P_OUI);
    assert ts[..k] == ts[..n] + ts[n..k];
    LaidOutAppend(Element, b, at, ts[..n], ts[n..k]);
  }

  lemma StrippedHere(c: seq<Byte>, ie: nat, t: Item, attrId: nat, newLen: nat)
    requires HasAttrs(t)
    requires P2pElement(c, ie, newLen, Without(AttrsOf(t), attrId, []))
    ensures LaidOut(Element, c, ie, [Stripped(t, attrId)]) && Size(Element, [Stripped(t, attrId)]) == newLen
  {
    AttrsMakeElement(c, ie, newLen, Without(AttrsOf(t), attrId, []));
    hide Here, HasAttrs, AttrsOf, Matches, P2pElement;
    assert [Stripped(t, attrId)][1..] == [];
  }

  /** One P2P element replaced by its stripped form, the octets behind it moved up to it. */
  lemma ElementStripped(b: seq<Byte>, c: seq<Byte>, at: nat, cur: seq<Item>, k: nat, attrId: nat, newLen: nat)
    requires LaidOut(Element, b, at, cur) && k < |cur|
    requires HasAttrs(cur[k])
    requires P2pElement(c, at + Size(Element, cur[..k]), newLen,
                        Without(AttrsOf(cur[k]), attrId, []))
    requires var ie := at + Size(Element, cur[..k]);
             var next, end := ie + ItemLen(Element, cur[k]), at + Size(Element, cur);
             && next <= end <= |b| && ie + newLen + (end - next) <= |c|
             && c[..ie] == b[..ie] && c[ie + newLen..ie + newLen + (end - next)] == b[next..end]
    ensures var cur' := cur[k := Stripped(cur[k], attrId)];
            && LaidOut(Element, c, at, cur')
            && Size(Element, cur') + ItemLen(Element, cur[k]) == Size(Element, cur) + newLen
            && Size(Element, cur'[..k + 1]) == Size(Element, cur[..k]) + newLen
            && cur'[k + 1..] == cur[k + 1..]
  {
    hide Here, LaidOut, HasAttrs, AttrsOf, Matches, Stripped, P2pElement, Size, ItemLen;
    StrippedHere(c, at + Size(Element, cur[..k]), cur[k], attrId, newLen);
    ReplaceOne(Element, b, c, at, cur, k, Stripped(cur[k], attrId));
  }

  lemma ElementBounds(b: seq<Byte>, at: nat, cur: seq<Item>, k: nat)
    requires LaidOut(Element, b, at, cur) && k < |cur| && HasAttrs(cur[k])
    ensures var ie := at + Size(Element, cur[..k]);
            && ie + ItemLen(Element, cur[k]) <= at + Size(Element, cur) <= |b|
            && P2pElement(b, ie, ItemLen(Element, cur[k]), AttrsOf(cur[k]))
  {
    hide HasAttrs, AttrsOf, P2pElement, Here, LaidOut;
    var ie := at + Size(Element, cur[..k]);
    assert cur == cur[..k] + cur[k..];
    LaidOutAppend(Element, b, at, cur[..k], cur[k..]);
    LaidOutBounds(Element, b, ie, cur[k..]);
    LaidOutBounds(Element, b, at, cur);
    FirstIsHere(b, ie, cur[k..]);
    ElementHoldsAttrs(b, ie, cur[k]);
  }

  lemma FirstIsHere(b: seq<Byte>, at: nat, cur: seq<Item>)
    requires LaidOut(Element, b, at, cur) && cur != []
    ensures Here(Element, b, at, cur[0])
  {
    hide Here;
  }

  lemma P2pElementKept(c: seq<Byte>, d: seq<Byte>, ie: nat, len: nat, attrs: seq<Item>)
    requires P2pElement(c, ie, len, attrs) && ie + len <= |d| && d[..ie + len] == c[..ie + len]
    ensures P2pElement(d, ie, len, attrs)
  {
    hide LaidOut, Size;
    KeptBelow(P2pAttr, c, d, ie + 6, ie + len, attrs);
    assert d[0..ie + len] == c[0..ie + len];
    SubSlice(c, 0, d, 0, ie + len, ie + 2, ie + 6);
    assert d[ie] == d[0..ie + len][ie] && c[ie] == c[0..ie + len][ie];
    assert d[ie + 1] == d[0..ie + len][ie + 1] && c[ie + 1] == c[0..ie + len][ie + 1];
  }

  /** The octets of an element edited in place: b before, d after; n octets follow it. */
  ghost predicate Edited(b: seq<Byte>, d: seq<Byte>, ie: nat, oldLen: nat, newLen: nat, n: nat) {
    && ie + oldLen + n <= |b| == |d| && newLen <= oldLen
    && d[..ie] == b[..ie] && d[ie + newLen..ie + newLen + n] == b[ie + oldLen..ie + oldLen + n]
  }

  /** The list after one element has been edited. */
  lemma ListEdited(b: seq<Byte>, d: seq<Byte>, at: nat, cur: seq<Item>, k: nat, attrId: nat, newLen: nat)
    requires LaidOut(Element, b, at, cur) && k < |cur|
    requires var ie, oldLen := at + Size(Element, cur[..k]), ItemLen(Element, cur[k]);
             var n := at + Size(Element, cur) - (ie + oldLen);
             && n >= 0 && Edited(b, d, ie, oldLen, newLen, n)
             && if HasAttrs(cur[k]) then P2pElement(d, ie, newLen, Without(AttrsOf(cur[k]), attrId, []))
                else |cur[k].data| < 4 && d == b && newLen == oldLen
    ensures var cur' := cur[k := Stripped(cur[k], attrId)];
            && LaidOut(Element, d, at, cur')
            && Size(Element, cur') == Size(Element, cur) - ItemLen(Element, cur[k]) + newLen
            && Size(Element, cur'[..k + 1]) == Size(Element, cur[..k]) + newLen
            && cur'[k + 1..] == cur[k + 1..]
    ensures d[..at] == b[..at]
  {
    hide LaidOut, Size, ItemLen, HasAttrs, AttrsOf, Matches, Stripped, P2pElement, Without;
    if HasAttrs(cur[k]) {
      ElementStripped(b, d, at, cur, k, attrId, newLen);
    } else {
      ShortStays(b, at, cur, k, attrId);
    }
    var ie := at + Size(Element, cur[..k]);
    assert d[..at] == d[..ie][..at] && b[..at] == b[..ie][..at];
  }

  /** The elements from the n-th on, as the search finds them. */
  lemma RestOfElements(b: seq<Byte>, at: nat, cur: seq<Item>, n: nat)
    requires LaidOut(Element, b, at, cur) && n <= |cur|
    ensures LaidOut(Element, b, at + Size(Element, cur[..n]), cur[n..])
    ensures Size(Element, cur) == Size(Element, cur[..n]) + Size(Element, cur[n..])
    ensures AllFit(Element, cur) && AllFit(Element, cur[n..])
  {
    hide Here, ItemLen;
    LaidOutIsSer(Element, b, at, cur);
    assert cur == cur[..n] + cur[n..];
    LaidOutAppend(Element, b, at, cur[..n], cur[n..]);
  }

  /** Where the next element the search finds lies. */
  lemma NextHit(ts: seq<Item>, cur: seq<Item>, n: nat, attrId: nat)
    requires StrippedTo(ts, cur, n, attrId) && n <= |ts| && Size(Element, cur[n..]) <= MAX_IE_SZ && AllFit(Element, cur)
    ensures var k := FirstHit(cur[n..], [], VENDOR_SPECIFIC, P2P_OUI);
            k < |cur[n..]| ==>
              && Size(Element, cur[n..][..k]) + 5 < MAX_IE_SZ
              && Size(Element, cur[..n + k]) == Size(Element, cur[..n]) + Size(Element, cur[n..][..k])
  {
    hide HasAttrs, Size, FirstHit;
    var rest, k := cur[n..], FirstHit(cur[n..], [], VENDOR_SPECIFIC, P2P_OUI);
    if k < |rest| {
      HitNeedsRoom(rest);
      SizeParts(Element, rest, k, k);
      SizeParts(Element, cur, n, n + k);
      assert cur[n..n + k] == rest[..k];
    }
  }

  /** What the search finds has the octets of an OUI behind its header. */
  lemma {:induction false} HitNeedsRoom(ts: seq<Item>)
    requires AllFit(Element, ts)
    ensures var k := FirstHit(ts, [], VENDOR_SPECIFIC, P2P_OUI);
            k < |ts| ==> Size(Element, ts[k..]) >= 6
  {
    hide Ser, Size, Hit;
    if ts != [] {
      var k := FirstHit(ts, [], VENDOR_SPECIFIC, P2P_OUI);
      if k == 0 {
        HitSize(ts);
      } else {
        HitNeedsRoom(ts[1..]);
        assert ts[k..] == ts[1..][k - 1..];
      }
    }
  }

  lemma HitSize(ts: seq<Item>)
    requires AllFit(Element, ts) && ts != [] && FirstHit(ts, [], VENDOR_SPECIFIC, P2P_OUI) == 0
    ensures Size(Element, ts[0..]) >= 6
  {
    hide Ser;
    SerSize(ts[1..]);
    assert ts[0..] == ts;
    assert |P2P_OUI| == 4;
  }

  /** `cur` is ts with the first n elements stripped. */
  ghost predicate StrippedTo(ts: seq<Item>, cur: seq<Item>, n: nat, attrId: nat) {
    && |cur| == |ts|
    && forall i :: 0 <= i < |ts| ==> cur[i] == if i < n then Stripped(ts[i], attrId) else ts[i]
  }

  /** Passing elements that the search does not find; one it finds is a P2P element, or too short to be one. */
  lemma StrippedThrough(ts: seq<Item>, cur: seq<Item>, n: nat, k: nat, attrId: nat)
    requires StrippedTo(ts, cur, n, attrId) && n <= k <= |ts| && AllFit(Element, cur[n..])
    requires k - n == FirstHit(cur[n..], [], VENDOR_SPECIFIC, P2P_OUI)
    ensures StrippedTo(ts, cur, k, attrId)
    ensures k == |ts| ==> cur == AllStripped(ts, attrId)
    ensures k < |ts| ==>
              && (IsP2p(cur[k]) || |cur[k].data| < 4)
              && StrippedTo(ts, cur[k := Stripped(cur[k], attrId)], k + 1, attrId)
  {
    hide FirstHit;
    HitsPassed(cur[n..], k - n);
    forall i | n <= i < k
      ensures Stripped(ts[i], attrId) == ts[i]
    {
      assert cur[i] == cur[n..][i - n];
    }
    if k < |ts| {
      assert cur[k] == cur[n..][k - n];
    }
  }

  lemma {:induction false} HitsPassed(ts: seq<Item>, k: nat)
    requires AllFit(Element, ts) && k == FirstHit(ts, [], VENDOR_SPECIFIC, P2P_OUI)
    ensures forall i :: 0 <= i < k ==> !IsP2p(ts[i])
    ensures k < |ts| ==> IsP2p(ts[k]) || |ts[k].data| < 4
  {
    hide Hit, Ser;
    if ts != [] {
      HitIff(ts[0], Ser(Element, ts[1..]) + [], VENDOR_SPECIFIC, P2P_OUI);
      if k > 0 {
        HitsPassed(ts[1..], k - 1);
      }
    }
  }

  /** An element too short to be a P2P element stays as it is. */
  lemma ShortStays(b: seq<Byte>, at: nat, cur: seq<Item>, k: nat, attrId: nat)
    requires LaidOut(Element, b, at, cur) && k < |cur| && |cur[k].data| < 4
    ensures !HasAttrs(cur[k]) && cur[k := Stripped(cur[k], attrId)] == cur
    ensures var ie := at + Size(Element, cur[..k]);
            ie + ItemLen(Element, cur[k]) == at + Size(Element, cur[..k + 1]) <= at + Size(Element, cur) <= |b|
  {
    hide LaidOut;
    SizeParts(Element, cur, k, k + 1);
    assert cur[k..k + 1] == [cur[k]] && [cur[k]][1..] == [];
    LaidOutBounds(Element, b, at, cur);
  }

  /** The attributes the search is to find in an element; none in one that is too short for them. */
  ghost function AttrsIn(t: Item): seq<Item> {
    if HasAttrs(t) then AttrsOf(t) else []
  }

  lemma ElementReady(b: seq<Byte>, at: nat, cur: seq<Item>, k: nat)
    requires LaidOut(Element, b, at, cur) && k < |cur| && (HasAttrs(cur[k]) || |cur[k].data| < 4)
    ensures var ie, oldLen := at + Size(Element, cur[..k]), ItemLen(Element, cur[k]);
            && ie + oldLen <= at + Size(Element, cur) <= |b| && P2pCandidate(b, ie, oldLen, AttrsIn(cur[k]))
            && (HasAttrs(cur[k]) ==> P2pElement(b, ie, oldLen, AttrsIn(cur[k]))) && (!HasAttrs(cur[k]) ==> oldLen < 6)
  {
    hide LaidOut, Size, HasAttrs, AttrsOf, P2pElement;
    if HasAttrs(cur[k]) {
      ElementBounds(b, at, cur, k);
    } else {
      ShortStays(b, at, cur, k, 0);
    }
  }

  /** What is done at an element that was found: the attributes of a P2P element are deleted, and when that made
      it shorter the octets behind it are moved up and IELength is lowered; a shorter one stays. */
  method EditElement(bss: BssEx, ie: nat, oldLen: nat, attrId: Byte, ghost attrs: seq<Item>) returns (newLen: nat)
    requires P2pCandidate(bss.IEs[..], ie, oldLen, attrs) && ie + oldLen <= bss.IELength <= bss.IEs.Length
    modifies bss`IELength, bss.IEs
    ensures Edited(old(bss.IEs[..]), bss.IEs[..], ie, oldLen, newLen, old(bss.IELength) - (ie + oldLen))
    ensures bss.IELength == old(bss.IELength) - (oldLen - newLen)
    ensures old(P2pElement(bss.IEs[..], ie, oldLen, attrs)) ==>
              P2pElement(bss.IEs[..], ie, newLen, Without(attrs, attrId, []))
    ensures oldLen < 6 ==> newLen == oldLen && bss.IEs[..] == old(bss.IEs[..])
  {
    hide P2pElement, P2pCandidate, Without, Edited, Zeros;
    ghost var b := bss.IEs[..];
    ghost var isP2p := P2pElement(b, ie, oldLen, attrs);
    var next := ie + oldLen;
    var remainLen := bss.IELength - next;
    newLen := DelP2pAttr(bss.IEs, ie, oldLen, attrId, attrs);
    ghost var c := bss.IEs[..];
    if newLen != oldLen {
      CloseUp(bss.IEs, ie + newLen, next, remainLen);
      bss.IELength := bss.IELength - (oldLen - newLen);
    }
    EditedOctets(b, c, bss.IEs[..], ie, oldLen, newLen, remainLen);
    if isP2p {
      P2pElementKept(c, bss.IEs[..], ie, newLen, Without(attrs, attrId, []));
    }
  }

  method StripElement(bss: BssEx, ie: nat, oldLen: nat, attrId: Byte, ghost cur: seq<Item>, ghost k: nat)
    returns (newLen: nat)
    requires bss.Holds(cur) && k < |cur| && (HasAttrs(cur[k]) || |cur[k].data| < 4)
    requires ie == bss.Offset() + Size(Element, cur[..k]) && oldLen == ItemLen(Element, cur[k])
    modifies bss`IELength, bss.IEs
    ensures var cur' := cur[k := Stripped(cur[k], attrId)];
            && bss.Holds(cur') && cur'[k + 1..] == cur[k + 1..]
            && ie + newLen == bss.Offset() + Size(Element, cur'[..k + 1])
    ensures bss.IEs[..bss.Offset()] == old(bss.IEs[..bss.Offset()])
  {
    hide LaidOut, Size, ItemLen, HasAttrs, AttrsOf, Stripped, P2pElement, P2pCandidate, Edited, Without;
    ghost var b := bss.IEs[..];
    ElementReady(b, bss.Offset(), cur, k);
    newLen := EditElement(bss, ie, oldLen, attrId, AttrsIn(cur[k]));
    ListEdited(b, bss.IEs[..], bss.Offset(), cur, k, attrId, newLen);
    EditedShorter(b, bss.IEs[..], ie, oldLen, newLen, bss.Offset() + Size(Element, cur) - (ie + oldLen));
  }

  /** b before, c after the attributes are deleted, d after the octets behind the element are moved, if need be. */
  lemma EditedOctets(b: seq<Byte>, c: seq<Byte>, d: seq<Byte>, ie: nat, oldLen: nat, newLen: nat, n: nat)
    requires ie + oldLen + n <= |b| == |c| == |d| && newLen <= oldLen
    requires c[..ie] == b[..ie] && c[ie + oldLen..] == b[ie + oldLen..]
    requires if newLen == oldLen then d == c
             else d[..ie + newLen] == c[..ie + newLen]
                  && d[ie + newLen..ie + newLen + n] == c[ie + oldLen..ie + oldLen + n]
    ensures Edited(b, d, ie, oldLen, newLen, n) && d[..ie + newLen] == c[..ie + newLen]
  {
    var next := ie + oldLen;
    assert c[next..next + n] == c[next..][..n] == b[next..][..n] == b[next..next + n];
    assert d[..ie] == d[..ie + newLen][..ie] == c[..ie + newLen][..ie] == c[..ie];
  }

  lemma EditedShorter(b: seq<Byte>, d: seq<Byte>, ie: nat, oldLen: nat, newLen: nat, n: nat)
    requires Edited(b, d, ie, oldLen, newLen, n)
    ensures newLen <= oldLen
  {
  }

  /** Moving the octets behind an element up to its new end and clearing the freed octets. */
  method CloseUp(IEs: array<Byte>, to: nat, from: nat, n: nat)
    requires to < from && from + n <= IEs.Length
    modifies IEs
    ensures IEs[..to] == old(IEs[..to]) && IEs[to..to + n] == old(IEs[from..from + n])
  {
    MemMove(IEs, to, from, n);
    ghost var b := IEs[..];
    MemZero(IEs, to + n, from - to);
    assert IEs[..to + n] == b[..to + n];
  }

  /** rtw_bss_ex_del_p2p_attr. */
  method DelP2pAttrs(bss: BssEx, attrId: Byte, ghost ts: seq<Item>)
    requires bss.Holds(ts) && WellFormedP2p(ts)
    modifies bss`IELength, bss.IEs
    ensures bss.Holds(AllStripped(ts, attrId))
    ensures bss.IEs[..bss.Offset()] == old(bss.IEs[..bss.Offset()])
  {
    hide LaidOut, Size, HasAttrs, AttrsOf, Matches, Stripped, P2pElement, FirstHit, IsP2p;
    var ies, iesLen := bss.Offset(), bss.IELength - bss.Offset();
    ghost var n := 0;
    ghost var cur := ts;
    ScanStart(Element, bss.IEs[..], bss.Offset(), ts);
    while true
      invariant n <= |ts| && bss.Holds(cur) && StrippedTo(ts, cur, n, attrId)
      invariant ies == bss.Offset() + Size(Element, cur[..n]) && iesLen == Size(Element, cur[n..])
      invariant bss.IEs[..bss.Offset()] == old(bss.IEs[..bss.Offset()])
      decreases |ts| - n
    {
      RestOfElements(bss.IEs[..], bss.Offset(), cur, n);
      NextHit(ts, cur, n, attrId);
      var ie, ieLen := GetP2pIe(bss.IEs, ies, iesLen, cur[n..]);
      ghost var k := n + FirstHit(cur[n..], [], VENDOR_SPECIFIC, P2P_OUI);
      StrippedThrough(ts, cur, n, k, attrId);
      if ie.None? {
        break;
      }
      var newLen := StripElement(bss, ie.value, ieLen, attrId, cur, k);
      ies := ie.value + newLen;
      iesLen := bss.IELength - ies;
      cur := cur[k := Stripped(cur[k], attrId)];
      n := k + 1;
      RestOfElements(bss.IEs[..], bss.Offset(), cur, n);
    }
  }
}
