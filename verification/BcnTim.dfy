/** Refreshing the TIM element of a beacon in place (update_BCNTIM, core/rtw_ap.c). */
module BcnTim {
  import opened Basics
  import opened Tlv
  import opened IeEdit
  import opened Bss
  import opened Tim

  const EID_SSID: nat := 0
  const EID_RATES: nat := 1
  const FIXED_IE_LENGTH: nat := 12
  const MACID_NUM_SW_LIMIT: nat := 32
  const DTIM_CNT: Byte := 0
  const DTIM_PERIOD: Byte := 1

  function Tim0(bmp: Bitmap): (t: Item)
    ensures Fits(Element, t)
  {
    TimItem(DTIM_CNT, DTIM_PERIOD, bmp)
  }

  /** The beacon has a TIM element and the first one is not empty. */
  predicate HasTim(ts: seq<Item>) {
    var k := FirstMatch(ts, EID_TIM, []);
    k < |ts| && |ts[k].data| > 0
  }

  /** What the write position advances over: nothing at all when the returned length wraps to 0. */
  function Written(bmp: Bitmap): seq<Item> {
    if ItemLen(Element, Tim0(bmp)) == 256 then [] else [Tim0(bmp)]
  }

  function FirstLen(ts: seq<Item>, eid: nat): nat {
    var k := FirstMatch(ts, eid, []);
    if k < |ts| then ItemLen(Element, ts[k]) else 0
  }

  /** Octets skipped before a TIM element is inserted: the SSID and rates elements wherever they are,
      and three for the DS parameter set. */
  function LeadLen(ts: seq<Item>): nat {
    FirstLen(ts, EID_SSID) + FirstLen(ts, EID_RATES) + 3
  }

  /** The element that begins n octets into the list; -1 when none does and n is not the end. */
  function PointAt(ts: seq<Item>, n: nat): int {
    if n == 0 then 0
    else if ts == [] || n < ItemLen(Element, ts[0]) then -1
    else
      var m := PointAt(ts[1..], n - ItemLen(Element, ts[0]));
      if m < 0 then -1 else m + 1
  }

  lemma {:induction false} PointAtSize(ts: seq<Item>, n: nat)
    requires PointAt(ts, n) >= 0
    ensures PointAt(ts, n) <= |ts| && Size(Element, ts[..PointAt(ts, n)]) == n
  {
    if n > 0 {
      PointAtSize(ts[1..], n - ItemLen(Element, ts[0]));
      var m := PointAt(ts, n);
      assert ts[..m][1..] == ts[1..][..m - 1];
    }
  }

  /** There is a TIM element to replace, or the place for an insertion is the start of an element. */
  predicate CanUpdate(ts: seq<Item>) {
    HasTim(ts) || PointAt(ts, LeadLen(ts)) >= 0
  }

  /** The elements an update replaces: the first TIM element, or none at the place of insertion. */
  function Place(ts: seq<Item>): (r: (nat, nat))
    requires CanUpdate(ts)
    ensures r.0 <= r.1 <= |ts|
    ensures HasTim(ts) ==> r == (FirstMatch(ts, EID_TIM, []), FirstMatch(ts, EID_TIM, []) + 1)
    ensures !HasTim(ts) ==> r.0 == r.1 && Size(Element, ts[..r.0]) == LeadLen(ts)
  {
    if HasTim(ts) then (FirstMatch(ts, EID_TIM, []), FirstMatch(ts, EID_TIM, []) + 1)
    else
      PointAtSize(ts, LeadLen(ts));
      (PointAt(ts, LeadLen(ts)), PointAt(ts, LeadLen(ts)))
  }

  /** The list an update leaves. */
  function Updated(ts: seq<Item>, bmp: Bitmap): seq<Item>
    requires CanUpdate(ts)
  {
    ts[..Place(ts).0] + Written(bmp) + ts[Place(ts).1..]
  }

  /** With the SSID and rates elements in front, an insertion does not cut an element in two exactly
      when an element with a body of one octet, such as the DS parameter set, comes next; the TIM
      element then becomes the fourth. */
  lemma InsertionFitsIff(ts: seq<Item>)
    requires |ts| >= 2 && ts[0].id == EID_SSID && ts[1].id == EID_RATES
    ensures PointAt(ts, LeadLen(ts)) >= 0 <==> |ts| > 2 && |ts[2].data| == 1
    ensures PointAt(ts, LeadLen(ts)) >= 0 ==> PointAt(ts, LeadLen(ts)) == 3
  {
    assert FirstMatch(ts, EID_SSID, []) == 0;
    assert !Matches(ts[0], EID_RATES, []) && Matches(ts[1], EID_RATES, []);
    assert FirstMatch(ts, EID_RATES, []) == 1;
    var two := ts[1..][1..];
    assert two == ts[2..];
    assert PointAt(ts, LeadLen(ts)) >= 0 <==> PointAt(two, 3) >= 0;
    if two != [] {
      assert two[1..] == ts[3..];
      assert PointAt(two[1..], 1) == -1;
    }
  }

  /** Everything but the TIM elements survives in order. */
  lemma OthersSurvive(ts: seq<Item>, bmp: Bitmap)
    requires CanUpdate(ts)
    ensures Without(Updated(ts, bmp), EID_TIM, []) == Without(ts, EID_TIM, [])
  {
    var (k, m) := Place(ts);
    WrittenIsTim(bmp);
    SplitWithout(ts, k, m, Written(bmp));
    EmptyWithout();
    if HasTim(ts) {
      TimMatches(ts[k]);
      assert ts[k..m] == [ts[k]];
    } else {
      assert ts[k..m] == [];
    }
  }

  lemma EmptyWithout()
    ensures Without([], EID_TIM, []) == []
  {
  }

  lemma TimMatches(t: Item)
    ensures Matches(t, EID_TIM, []) ==> Without([t], EID_TIM, []) == []
    ensures Matches(t, EID_TIM, []) <==> t.id == EID_TIM
  {
  }

  lemma WrittenIsTim(bmp: Bitmap)
    ensures Without(Written(bmp), EID_TIM, []) == []
  {
  }

  lemma SplitWithout(ts: seq<Item>, k: nat, m: nat, w: seq<Item>)
    requires k <= m <= |ts|
    ensures Without(ts[..k] + w + ts[m..], EID_TIM, [])
         == Without(ts[..k], EID_TIM, []) + Without(w, EID_TIM, []) + Without(ts[m..], EID_TIM, [])
    ensures Without(ts, EID_TIM, [])
         == Without(ts[..k], EID_TIM, []) + Without(ts[k..m], EID_TIM, []) + Without(ts[m..], EID_TIM, [])
  {
    hide Without;
    assert ts[..k] + ts[k..m] == ts[..m];
    assert ts[..m] + ts[m..] == ts;
    WithoutAppend(ts[..k] + w, ts[m..], EID_TIM, []);
    WithoutAppend(ts[..k], w, EID_TIM, []);
    WithoutAppend(ts[..m], ts[m..], EID_TIM, []);
    WithoutAppend(ts[..k], ts[k..m], EID_TIM, []);
  }

  /** A list with the TIM element of the bitmap at position k, and no TIM element before it. */
  lemma TimAt(front: seq<Item>, t: Item, back: seq<Item>)
    requires t.id == EID_TIM && forall i :: 0 <= i < |front| ==> front[i].id != EID_TIM
    ensures FirstMatch(front + [t] + back, EID_TIM, []) == |front|
  {
    var ts := front + [t] + back;
    assert ts[|front|] == t;
    assert forall i :: 0 <= i < |front| ==> ts[i] == front[i];
  }

  /** What an update can be shown to keep: a TIM element is replaced, or there was none at all. */
  predicate Proper(ts: seq<Item>) {
    HasTim(ts) || (CanUpdate(ts) && FirstMatch(ts, EID_TIM, []) == |ts|)
  }

  lemma FrontHasNoTim(ts: seq<Item>)
    requires Proper(ts)
    ensures forall i :: 0 <= i < Place(ts).0 ==> ts[i].id != EID_TIM
    ensures HasTim(ts) ==> ts[Place(ts).0].id == EID_TIM
    ensures !HasTim(ts) ==> forall i :: 0 <= i < |ts| ==> ts[i].id != EID_TIM
  {
    var k := FirstMatch(ts, EID_TIM, []);
    forall i | 0 <= i < k
      ensures ts[i].id != EID_TIM
    {
      assert !Matches(ts[i], EID_TIM, []);
    }
    hide FirstMatch, PointAt, LeadLen;
  }

  /** Looking up the TIM element after an update gives the element of the station bitmap, in which
      each station reads its own bit, provided the partial bitmap has fewer than 251 octets. */
  lemma UpdateFindsBitmap(ts: seq<Item>, bmp: Bitmap)
    requires Proper(ts) && |Partial(bmp)| < MAX_BMP_LEN
    ensures var us := Updated(ts, bmp);
            var k := FirstMatch(us, EID_TIM, []);
            && k == Place(ts).0 < |us| && us[k] == Tim0(bmp) && HasTim(us)
            && us[..k] == ts[..Place(ts).0] && us[k + 1..] == ts[Place(ts).1..]
            && forall aid :: Announces(us[k], aid) <==> BitSet(bmp, aid)
  {
    FrontHasNoTim(ts);
    hide FirstMatch, PointAt, Announces, BitSet, Partial, Start, LeadLen, Place;
    var (k, m) := Place(ts);
    assert Written(bmp) == [Tim0(bmp)];
    TimAt(ts[..k], Tim0(bmp), ts[m..]);
    forall aid
      ensures Announces(Tim0(bmp), aid) <==> BitSet(bmp, aid)
    {
      TimRoundTrip(DTIM_CNT, DTIM_PERIOD, bmp, aid);
    }
  }

  /** An update repeated with the same bitmap changes nothing. */
  lemma UpdateTwice(ts: seq<Item>, bmp: Bitmap)
    requires Proper(ts) && |Partial(bmp)| < MAX_BMP_LEN
    ensures CanUpdate(Updated(ts, bmp)) && Updated(Updated(ts, bmp), bmp) == Updated(ts, bmp)
  {
    UpdateFindsBitmap(ts, bmp);
    hide FirstMatch, PointAt, Announces, BitSet, Partial, Start, LeadLen, Tim0;
    var us := Updated(ts, bmp);
    var k := FirstMatch(us, EID_TIM, []);
    assert Written(bmp) == [us[k]];
    assert us == us[..k] + [us[k]] + us[k + 1..];
  }

  /** Of a full bitmap nothing stays written. */
  lemma WrittenNothing(bmp: Bitmap)
    requires |Partial(bmp)| >= MAX_BMP_LEN
    ensures Written(bmp) == []
  {
  }

  /** Without its only TIM element a list has none. */
  lemma OthersHaveNoTim(ts: seq<Item>, k: nat, m: nat)
    requires k <= m <= |ts| && forall i :: 0 <= i < k ==> ts[i].id != EID_TIM
    requires forall i :: m <= i < |ts| ==> ts[i].id != EID_TIM
    ensures !HasTim(ts[..k] + ts[m..])
  {
    var us := ts[..k] + ts[m..];
    assert forall i :: 0 <= i < |us| ==> us[i] == if i < k then ts[i] else ts[i - k + m];
    MatchAtEnd(us);
  }

  lemma {:induction false} MatchAtEnd(us: seq<Item>)
    requires NoTim(us)
    ensures FirstMatch(us, EID_TIM, []) == |us|
  {
    var k := FirstMatch(us, EID_TIM, []);
    if k < |us| {
      TimMatches(us[k]);
    }
  }

  /** With one TIM element at most, the beacon carries the bitmap afterwards exactly when the partial
      bitmap is shorter than 251 octets: at that length the element is overwritten at once. */
  lemma BeaconCarriesBitmapIff(ts: seq<Item>, bmp: Bitmap)
    requires Proper(ts)
    requires forall i, j :: 0 <= i < j < |ts| ==> ts[i].id != EID_TIM || ts[j].id != EID_TIM
    ensures HasTim(Updated(ts, bmp)) <==> |Partial(bmp)| < MAX_BMP_LEN
  {
    if |Partial(bmp)| < MAX_BMP_LEN {
      UpdateFindsBitmap(ts, bmp);
    } else {
      hide PointAt, LeadLen, Partial, Start, BitSet, FirstMatch, Matches, Written;
      var (k, m) := Place(ts);
      WrittenNothing(bmp);
      OneTimAtPlace(ts);
      OthersHaveNoTim(ts, k, m);
      assert ts[..k] + [] + ts[m..] == ts[..k] + ts[m..];
    }
  }

  /** The only TIM element is the one replaced. */
  lemma OneTimAtPlace(ts: seq<Item>)
    requires Proper(ts)
    requires forall i, j :: 0 <= i < j < |ts| ==> ts[i].id != EID_TIM || ts[j].id != EID_TIM
    ensures forall i :: 0 <= i < Place(ts).0 ==> ts[i].id != EID_TIM
    ensures forall i :: Place(ts).1 <= i < |ts| ==> ts[i].id != EID_TIM
  {
    hide PointAt, LeadLen, FirstMatch;
    FrontHasNoTim(ts);
  }

  /** This driver gives out AIDs up to 32, so its bitmaps have five octets at most: they are always carried. */
  lemma ShortBitmapCarried(ts: seq<Item>, bmp: Bitmap)
    requires Proper(ts) && |bmp| <= (MACID_NUM_SW_LIMIT + 1 + 7) / 8
    ensures HasTim(Updated(ts, bmp))
  {
    UpdateFindsBitmap(ts, bmp);
  }

  /** The place of an update in the octets. */
  lemma PlaceBounds(b: seq<Byte>, ts: seq<Item>)
    requires CanUpdate(ts) && LaidOut(Element, b, FIXED_IE_LENGTH, ts)
    ensures var (k, m) := Place(ts);
            && Size(Element, ts[..k]) <= Size(Element, ts[..m]) <= Size(Element, ts)
            && Size(Element, ts[..m]) == Size(Element, ts[..k]) + if HasTim(ts) then ItemLen(Element, ts[k]) else 0
    ensures FIXED_IE_LENGTH + Size(Element, ts) <= |b|
  {
    hide FirstMatch, PointAt, LeadLen, Place, ItemLen;
    var (k, m) := Place(ts);
    SizeParts(Element, ts, k, m);
    LaidOutBounds(Element, b, FIXED_IE_LENGTH, ts);
    if HasTim(ts) {
      assert ts[k..m] == [ts[k]] && [ts[k]][1..] == [];
    }
  }

  lemma WrittenSize(bmp: Bitmap)
    ensures Size(Element, Written(bmp)) == ItemLen(Element, Tim0(bmp)) % 256
  {
    hide Partial, BitSet, Start;
    assert [Tim0(bmp)][1..] == [];
    assert ItemLen(Element, Tim0(bmp)) == 5 + |Partial(bmp)|;
  }

  lemma UpdatedSize(b: seq<Byte>, ts: seq<Item>, bmp: Bitmap)
    requires CanUpdate(ts) && LaidOut(Element, b, FIXED_IE_LENGTH, ts)
    ensures var (k, m) := Place(ts);
            var n := ItemLen(Element, Tim0(bmp)) % 256;
            Size(Element, Updated(ts, bmp)) + Size(Element, ts[..m]) == Size(Element, ts[..k]) + n + Size(Element, ts)
  {
    hide FirstMatch, PointAt, LeadLen, Place, ItemLen, Tim0, Written, Here;
    var (k, m) := Place(ts);
    WrittenSize(bmp);
    SizeParts(Element, ts, k, m);
    LaidOutAppend(Element, b, 0, ts[..k], Written(bmp));
    LaidOutAppend(Element, b, 0, ts[..k] + Written(bmp), ts[m..]);
  }

  /** Where an update writes: over the first TIM element, or behind the leading elements. */
  function Target(ts: seq<Item>): nat {
    if HasTim(ts) then Size(Element, ts[..FirstMatch(ts, EID_TIM, [])]) else LeadLen(ts)
  }

  /** How many octets it replaces. */
  function Replaced(ts: seq<Item>): nat {
    if HasTim(ts) then ItemLen(Element, ts[FirstMatch(ts, EID_TIM, [])]) else 0
  }

  /** The octets that stay written. */
  function TimOctets(bmp: Bitmap): seq<Byte> {
    if ItemLen(Element, Tim0(bmp)) == 256 then [] else Encode(Element, Tim0(bmp))
  }

  lemma TimOctetsLen(bmp: Bitmap)
    ensures |TimOctets(bmp)| == ItemLen(Element, Tim0(bmp)) % 256 == Size(Element, Written(bmp))
  {
    TimFits(bmp);
    WrittenSize(bmp);
  }

  lemma TargetIsPlace(b: seq<Byte>, ts: seq<Item>)
    requires CanUpdate(ts) && LaidOut(Element, b, FIXED_IE_LENGTH, ts)
    ensures Target(ts) == Size(Element, ts[..Place(ts).0])
    ensures Target(ts) + Replaced(ts) == Size(Element, ts[..Place(ts).1]) <= Size(Element, ts)
  {
    hide FirstMatch, PointAt, LeadLen;
    PlaceBounds(b, ts);
    if !HasTim(ts) {
      PointAtSize(ts, LeadLen(ts));
    }
  }

  /** The octets after a splice: d is b up to used, with w in place of what lies between dst and rest. */
  predicate SplicedIn(b: seq<Byte>, d: seq<Byte>, dst: nat, w: seq<Byte>, rest: nat, used: nat) {
    && dst <= rest <= used <= |b| && dst + |w| + (used - rest) <= |d|
    && d[..dst + |w| + (used - rest)] == b[..dst] + w + b[rest..used]
  }

  lemma SplicedOctets(b: seq<Byte>, d: seq<Byte>, dst: nat, w: seq<Byte>, rest: nat, used: nat)
    requires SplicedIn(b, d, dst, w, rest, used)
    ensures dst + |w| + (used - rest) <= |d| && dst <= |b|
    ensures d[..dst] == b[..dst] && d[dst..dst + |w|] == w
    ensures d[dst + |w|..dst + |w| + (used - rest)] == b[rest..used]
    ensures FIXED_IE_LENGTH <= dst ==> d[..FIXED_IE_LENGTH] == b[..FIXED_IE_LENGTH]
  {
    var x := d[..dst + |w| + (used - rest)];
    assert x[..dst] == b[..dst] && x[dst..dst + |w|] == w && x[dst + |w|..] == b[rest..used];
  }

  lemma SplicedTim(b: seq<Byte>, d: seq<Byte>, ts: seq<Item>, bmp: Bitmap)
    requires CanUpdate(ts) && LaidOut(Element, b, FIXED_IE_LENGTH, ts)
    requires var dst := FIXED_IE_LENGTH + Target(ts);
             SplicedIn(b, d, dst, TimOctets(bmp), dst + Replaced(ts), FIXED_IE_LENGTH + Size(Element, ts))
    ensures LaidOut(Element, d, FIXED_IE_LENGTH, Updated(ts, bmp))
    ensures d[..FIXED_IE_LENGTH] == b[..FIXED_IE_LENGTH]
  {
    hide FirstMatch, PointAt, LeadLen, Place, ItemLen, Tim0, Written, Here, LaidOut, Size, HasTim, Encode, TimOctets,
      Target, Replaced, SplicedIn;
    TargetIsPlace(b, ts);
    WrittenOctets(bmp);
    PlaceBounds(b, ts);
    var dst := FIXED_IE_LENGTH + Target(ts);
    SplicedOctets(b, d, dst, TimOctets(bmp), dst + Replaced(ts), FIXED_IE_LENGTH + Size(Element, ts));
    WrittenHere(d, dst, bmp);
    Splice(Element, b, d, FIXED_IE_LENGTH, ts, Place(ts).0, Place(ts).1, Written(bmp));
  }

  lemma WrittenOctets(bmp: Bitmap)
    ensures Size(Element, Written(bmp)) == |TimOctets(bmp)|
  {
    TimOctetsLen(bmp);
  }

  lemma WrittenHere(d: seq<Byte>, dst: nat, bmp: Bitmap)
    requires dst + |TimOctets(bmp)| <= |d| && d[dst..dst + |TimOctets(bmp)|] == TimOctets(bmp)
    ensures LaidOut(Element, d, dst, Written(bmp))
  {
    var t := Tim0(bmp);
    assert ItemLen(Element, t) <= 256;
    hide Tim0, Encode, Fits, ItemLen;
    if ItemLen(Element, t) != 256 {
      OneLaidOut(d, dst, t);
    }
  }

  lemma OneLaidOut(d: seq<Byte>, at: nat, t: Item)
    requires Here(Element, d, at, t)
    ensures LaidOut(Element, d, at, [t])
  {
    hide Here;
    assert [t][1..] == [];
    assert at + ItemLen(Element, t) <= |d| by {
      BoundsOf(d, at, t);
    }
  }

  lemma BoundsOf(d: seq<Byte>, at: nat, t: Item)
    requires Here(Element, d, at, t)
    ensures at + ItemLen(Element, t) <= |d|
  {
  }

  // What a cut destroys.

  lemma FieldsHere(b: seq<Byte>, at: nat, t: Item)
    requires Here(Element, b, at, t)
    ensures at + 2 + |t.data| <= |b| && b[at] == t.id && b[at + 1] == |t.data|
    ensures b[at + 2..at + 2 + |t.data|] == t.data
  {
    var n := |t.data|;
    Slice(b, at, 2 + n, 2, 2 + n);
    var e := b[at..at + 2 + n];
    assert e == [t.id, n] + t.data;
    assert e[0] == b[at] && e[1] == b[at + 1] && e[2..2 + n] == t.data;
  }

  lemma OctetOf(b: seq<Byte>, c: seq<Byte>, p: nat, k: nat)
    requires k < p <= |b| && p <= |c| && b[..p] == c[..p]
    ensures b[k] == c[k]
  {
    assert b[..p][k] == c[..p][k];
  }

  /** Two elements read from octets that agree in front of p are the same if they end there. */
  lemma SameFront(b: seq<Byte>, c: seq<Byte>, at: nat, p: nat, t: Item, u: Item)
    requires Here(Element, b, at, t) && Here(Element, c, at, u) && at + ItemLen(Element, t) <= p <= |b| && p <= |c|
    requires b[..p] == c[..p]
    ensures u == t
  {
    hide Here;
    FieldsHere(b, at, t);
    FieldsHere(c, at, u);
    OctetOf(b, c, p, at);
    OctetOf(b, c, p, at + 1);
    SharedPrefix(b, c, p, [], at + 2, at + 2 + |t.data|);
  }

  /** An element into which another octet has been written is another one, with the same id. */
  lemma OtherFront(b: seq<Byte>, c: seq<Byte>, at: nat, p: nat, t: Item, u: Item)
    requires Here(Element, b, at, t) && Here(Element, c, at, u) && at < p < at + ItemLen(Element, t) && p < |c|
    requires p < |b| && b[..p] == c[..p] && b[p] != c[p]
    ensures u != t && u.id == t.id
  {
    hide Here;
    FieldsHere(b, at, t);
    FieldsHere(c, at, u);
    OctetOf(b, c, p, at);
    if p > at + 1 && |u.data| == |t.data| {
      OtherData(b, c, at + 2, p, |t.data|);
    }
  }

  lemma OtherData(b: seq<Byte>, c: seq<Byte>, at: nat, p: nat, n: nat)
    requires at <= p < at + n <= |b| && at + n <= |c| && b[p] != c[p]
    ensures b[at..at + n] != c[at..at + n]
  {
    assert b[at..at + n][p - at] == b[p] && c[at..at + n][p - at] == c[p];
  }

  predicate NoTim(ts: seq<Item>) {
    forall i :: 0 <= i < |ts| ==> ts[i].id != EID_TIM
  }

  /** Octets that agree with the list ts up to a place inside an element, and differ there, hold no list with the
      same elements besides TIM elements. */
  lemma {:induction false} CutDiffers(b: seq<Byte>, c: seq<Byte>, at: nat, p: nat, ts: seq<Item>, us: seq<Item>)
    requires LaidOut(Element, b, at, ts) && LaidOut(Element, c, at, us) && NoTim(ts)
    requires at <= p < at + Size(Element, ts) && PointAt(ts, p - at) == -1
    requires p < |b| && p < |c| && b[..p] == c[..p] && b[p] != c[p]
    ensures Without(us, EID_TIM, []) != ts
    decreases |ts|
  {
    hide Here, Encode;
    if us != [] {
      var n := ItemLen(Element, ts[0]);
      var rest := ts[1..];
      assert forall i :: 0 <= i < |rest| ==> rest[i] == ts[i + 1];
      if p < at + n {
        OtherFront(b, c, at, p, ts[0], us[0]);
      } else {
        SameFront(b, c, at, p, ts[0], us[0]);
        CutDiffers(b, c, at + n, p, rest, us[1..]);
        assert Without(us, EID_TIM, []) == [us[0]] + Without(us[1..], EID_TIM, []);
        assert ts == [ts[0]] + rest;
        assert ([us[0]] + Without(us[1..], EID_TIM, []))[1..] == Without(us[1..], EID_TIM, []);
      }
    }
  }

  /** An insertion that falls inside an element, on an octet that is not the id of a TIM element by chance, leaves no
      list at all in which the other elements are the old ones. */
  lemma CutLosesElements(b: seq<Byte>, d: seq<Byte>, ts: seq<Item>, bmp: Bitmap, us: seq<Item>)
    requires LaidOut(Element, b, FIXED_IE_LENGTH, ts) && NoTim(ts) && !CanUpdate(ts)
    requires Target(ts) < Size(Element, ts) && |Partial(bmp)| < MAX_BMP_LEN
    requires var dst, used := FIXED_IE_LENGTH + Target(ts), FIXED_IE_LENGTH + Size(Element, ts);
             SplicedIn(b, d, dst, TimOctets(bmp), dst, used) && b[dst] != EID_TIM
    requires LaidOut(Element, d, FIXED_IE_LENGTH, us)
    ensures Without(us, EID_TIM, []) != Without(ts, EID_TIM, [])
  {
    hide LaidOut, Size, PointAt, LeadLen, FirstMatch, SplicedIn, TimOctets;
    var dst, used := FIXED_IE_LENGTH + Target(ts), FIXED_IE_LENGTH + Size(Element, ts);
    assert !HasTim(ts) && PointAt(ts, Target(ts)) == -1 by { CutPlace(ts); }
    LaidOutBounds(Element, b, FIXED_IE_LENGTH, ts);
    SplicedOctets(b, d, dst, TimOctets(bmp), dst, used);
    TimBegins(bmp);
    assert d[dst] == d[dst..dst + |TimOctets(bmp)|][0] == EID_TIM;
    CutDiffers(b, d, FIXED_IE_LENGTH, dst, ts, us);
    NoTimStays(ts);
  }

  lemma CutPlace(ts: seq<Item>)
    requires !CanUpdate(ts)
    ensures !HasTim(ts) && PointAt(ts, Target(ts)) == -1
  {
    AtLeast(ts, LeadLen(ts));
  }

  lemma {:induction false} AtLeast(ts: seq<Item>, n: nat)
    ensures PointAt(ts, n) >= -1
  {
    if n > 0 && ts != [] && n >= ItemLen(Element, ts[0]) {
      AtLeast(ts[1..], n - ItemLen(Element, ts[0]));
    }
  }

  lemma TimBegins(bmp: Bitmap)
    requires |Partial(bmp)| < MAX_BMP_LEN
    ensures |TimOctets(bmp)| > 0 && TimOctets(bmp)[0] == EID_TIM
  {
    hide Partial, Start, BitSet;
  }

  lemma NoTimStays(ts: seq<Item>)
    requires NoTim(ts)
    ensures Without(ts, EID_TIM, []) == ts
  {
    forall t | t in ts
      ensures !Matches(t, EID_TIM, [])
    {
      TimMatches(t);
    }
    WithoutNone(ts, EID_TIM, []);
  }

  /** A beacon on a channel that needs no DS parameter set, with a country element in third place. */
  const COUNTRY_BEACON: seq<Item> :=
    [Item(EID_SSID, [0x61]), Item(EID_RATES, [0x8C, 0x12, 0x98, 0x24]), Item(7, [0x44, 0x45, 0x20, 0x24, 0x04, 0x17])]

  /** Its octets in front of the place of insertion, three elements, the last one begun, and behind it. */
  const SSID_OCTETS: seq<Byte> := [0, 1, 0x61]
  const RATES_OCTETS: seq<Byte> := [1, 4, 0x8C, 0x12, 0x98, 0x24]
  const BEGUN: seq<Byte> := [7, 6, 0x44]
  const BEHIND: seq<Byte> := [0x45, 0x20, 0x24, 0x04, 0x17]

  lemma CountryList()
    ensures var ts := COUNTRY_BEACON;
            && AllFit(Element, ts) && NoTim(ts) && !CanUpdate(ts) && Target(ts) == 12
            && Size(Element, ts[..2]) == 9 && Size(Element, ts) == 17
  {
    var ts := COUNTRY_BEACON;
    var t1, t2, t3 := ts[1..], ts[1..][1..], ts[1..][1..][1..];
    assert t1 == [ts[1], ts[2]] && t2 == [ts[2]] && t3 == [];
    assert Size(Element, t3) == 0 && Size(Element, t2) == 8 && Size(Element, t1) == 14 && Size(Element, ts) == 17;
    var front := ts[..2];
    assert front == [ts[0], ts[1]] && front[1..] == [ts[1]] && front[1..][1..] == [];
    assert Size(Element, front[1..]) == 6 && Size(Element, front) == 9;
    assert FirstMatch(t3, EID_TIM, []) == 0 && FirstMatch(t2, EID_TIM, []) == 1 && FirstMatch(t1, EID_TIM, []) == 2;
    assert FirstMatch(ts, EID_TIM, []) == 3;
    InsertionFitsIff(ts);
    assert FirstMatch(ts, EID_SSID, []) == 0;
    assert !Matches(ts[0], EID_RATES, []) && Matches(ts[1], EID_RATES, []);
    assert FirstMatch(ts, EID_RATES, []) == 1;
  }

  lemma EncodeIs(t: Item)
    requires Fits(Element, t)
    ensures Encode(Element, t) == [t.id, |t.data|] + t.data
  {
  }

  lemma CountryOctets()
    ensures AllFit(Element, COUNTRY_BEACON)
    ensures Ser(Element, COUNTRY_BEACON) == (SSID_OCTETS + RATES_OCTETS + BEGUN) + BEHIND
  {
    var ssid, rates, country := COUNTRY_BEACON[0], COUNTRY_BEACON[1], COUNTRY_BEACON[2];
    EncodeIs(ssid);
    EncodeIs(rates);
    EncodeIs(country);
    assert Ser(Element, []) == [];
    hide Encode, Ser;
    SerCons(Element, country, []);
    SerCons(Element, rates, [country]);
    SerCons(Element, ssid, [rates, country]);
    assert [country] + [] == [country] && [rates] + [country] == [rates, country];
    assert [ssid] + [rates, country] == COUNTRY_BEACON;
    assert Encode(Element, country) == BEGUN + BEHIND;
    Regrouped(SSID_OCTETS, RATES_OCTETS, BEGUN, BEHIND);
  }

  lemma Regrouped(x: seq<Byte>, y: seq<Byte>, z: seq<Byte>, w: seq<Byte>)
    ensures x + (y + (z + w)) == (x + y + z) + w
  {
  }

  lemma TimOfNothing()
    ensures TimOctets([0]) == [5, 4, 0, 1, 0, 0]
  {
    var bmp: Bitmap := [0];
    assert AllZero(bmp);
    assert Partial(bmp) == [0];
  }

  /** Behind a whole element that is followed by what cannot be read nothing can be read. */
  lemma UnreadableBehind(head: seq<Byte>, tail: seq<Byte>)
    requires |head| >= 2 && |head| == (head[1] as int) + 2 && Parse(Element, tail) == None
    ensures Parse(Element, head + tail) == None
  {
    assert (head + tail)[|head|..] == tail;
  }

  lemma EndUnreadable()
    ensures Parse(Element, [0] + BEHIND) == None
  {
  }

  lemma CutUnreadable()
    ensures Parse(Element, (SSID_OCTETS + RATES_OCTETS + BEGUN) + [5, 4, 0, 1, 0, 0] + BEHIND) == None
  {
    EndUnreadable();
    hide Parse;
    var tim: seq<Byte> := [5, 4, 0, 1, 0];
    UnreadableBehind(BEGUN + tim, [0] + BEHIND);
    UnreadableBehind(RATES_OCTETS, BEGUN + tim + ([0] + BEHIND));
    UnreadableBehind(SSID_OCTETS, RATES_OCTETS + (BEGUN + tim + ([0] + BEHIND)));
    assert tim + [0] == [5, 4, 0, 1, 0, 0];
    RegroupedCut(SSID_OCTETS, RATES_OCTETS, BEGUN, tim, [0], BEHIND);
  }

  lemma RegroupedCut(x: seq<Byte>, y: seq<Byte>, z: seq<Byte>, v: seq<Byte>, o: seq<Byte>, w: seq<Byte>)
    ensures x + (y + (z + v + (o + w))) == (x + y + z) + (v + o) + w
  {
  }

  /** The TIM element is written into the middle of its country element, and what is left cannot be read as a list
      any more. */
  lemma InsertionCutsCountry()
    ensures var ts := COUNTRY_BEACON;
            && AllFit(Element, ts) && NoTim(ts) && !CanUpdate(ts)
            && Size(Element, ts[..2]) < Target(ts) < Size(Element, ts) == |Ser(Element, ts)|
            && var s := Ser(Element, ts); Parse(Element, s[..Target(ts)] + TimOctets([0]) + s[Target(ts)..]) == None
  {
    hide CanUpdate, Target, Size, TimOctets, Parse, Ser, AllFit, NoTim, COUNTRY_BEACON;
    CountryList();
    CountryOctets();
    TimOfNothing();
    CutUnreadable();
    var front, s := SSID_OCTETS + RATES_OCTETS + BEGUN, Ser(Element, COUNTRY_BEACON);
    assert |front| == 12 && s[..12] == front && s[12..] == BEHIND;
  }

  /** The splice as the driver performs it: the rest of the octets is set aside, the TIM element is written,
      and the rest is copied back behind it. */
  method SpliceTim(bss: BssEx, dst: nat, rest: nat, bmp: Bitmap)
    requires bss.IEs.Length == MAX_IE_SZ && dst <= rest <= bss.IELength <= MAX_IE_SZ
    requires dst + ItemLen(Element, Tim0(bmp)) <= MAX_IE_SZ
    requires dst + |TimOctets(bmp)| + (bss.IELength - rest) <= MAX_IE_SZ
    modifies bss`IELength, bss.IEs
    ensures bss.IELength == dst + |TimOctets(bmp)| + old(bss.IELength - rest) <= MAX_IE_SZ
    ensures bss.IEs[..bss.IELength] == old(bss.IEs[..dst]) + TimOctets(bmp) + old(bss.IEs[rest..bss.IELength])
  {
    hide TimItem, Encode, ItemLen, Partial, TimOctets;
    TimOctetsLen(bmp);
    ghost var b := bss.IEs[..];
    var remainder := bss.IEs[rest..bss.IELength];
    var written := SetTimIe(DTIM_CNT, DTIM_PERIOD, bmp, bss.IEs, dst);
    ghost var c := bss.IEs[..];
    var end := dst + written;
    MemCopy(bss.IEs, end, remainder);
    KeptOctets(b, c, dst, bmp);
    bss.IELength := end + |remainder|;
    assert bss.IEs[..bss.IELength] == c[..end] + remainder;
  }

  lemma KeptOctets(b: seq<Byte>, c: seq<Byte>, dst: nat, bmp: Bitmap)
    requires dst + ItemLen(Element, Tim0(bmp)) <= |b|
    requires c == b[..dst] + Encode(Element, Tim0(bmp)) + b[dst + ItemLen(Element, Tim0(bmp))..]
    ensures |c| == |b| && c[..dst + |TimOctets(bmp)|] == b[..dst] + TimOctets(bmp)
  {
    hide Tim0, Encode;
    TimFits(bmp);
  }

  lemma TimFits(bmp: Bitmap)
    ensures ItemLen(Element, Tim0(bmp)) <= 256
  {
  }

  /** The place of an insertion, by the first SSID and the first rates element, wherever they are; one that is missing
      does not count. */
  lemma LeadIs(ts: seq<Item>, j: nat, k: nat)
    requires j <= |ts| && (forall i :: 0 <= i < j ==> ts[i].id != 0) && (j < |ts| ==> ts[j].id == 0)
    requires k <= |ts| && (forall i :: 0 <= i < k ==> ts[i].id != 1) && (k < |ts| ==> ts[k].id == 1)
    ensures LeadLen(ts) == (if j < |ts| then 2 + |ts[j].data| else 0) + (if k < |ts| then 2 + |ts[k].data| else 0) + 3
  {
    FirstWithId(ts, 0, j);
    FirstWithId(ts, 1, k);
  }

  lemma FirstWithId(ts: seq<Item>, eid: nat, k: nat)
    requires k <= |ts| && (forall i :: 0 <= i < k ==> ts[i].id != eid) && (k < |ts| ==> ts[k].id == eid)
    ensures FirstMatch(ts, eid, []) == k
  {
    var m := FirstMatch(ts, eid, []);
    assert k < |ts| ==> Matches(ts[k], eid, []);
    assert m < |ts| ==> ts[m].id == eid;
  }

  /** A first TIM element without contents is not replaced: the element is inserted as if there were none. */
  lemma EmptyTimStays(ts: seq<Item>, k: nat)
    requires k < |ts| && ts[k] == Item(EID_TIM, []) && forall i :: 0 <= i < k ==> ts[i].id != EID_TIM
    ensures Replaced(ts) == 0 && Target(ts) == LeadLen(ts)
  {
    FirstWithId(ts, EID_TIM, k);
    hide LeadLen, FirstMatch;
  }

  /** The search for the place: the first TIM element, or what follows the SSID, the rates and three octets
      for the DS parameter set. */
  method FindTarget(bss: BssEx, ghost ts: seq<Item>) returns (dst: nat, n: nat)
    requires bss.Holds(ts) && !bss.probeReq
    ensures dst == FIXED_IE_LENGTH + Target(ts) && n == Replaced(ts)
  {
    hide LaidOut, Size, FirstMatch, PointAt, Matches;
    var limit := bss.IELength - FIXED_IE_LENGTH;
    var p, timLen := GetIe(bss.IEs, FIXED_IE_LENGTH, limit, EID_TIM, ts);
    if p.Some? && timLen > 0 {
      return p.value, timLen + 2;
    }
    var offset := FIXED_IE_LENGTH;
    var q, len := GetIe(bss.IEs, FIXED_IE_LENGTH, limit, EID_SSID, ts);
    if q.Some? {
      offset := offset + len + 2;
    }
    q, len := GetIe(bss.IEs, FIXED_IE_LENGTH, limit, EID_RATES, ts);
    if q.Some? {
      offset := offset + len + 2;
    }
    return offset + 3, 0;
  }

  /** update_BCNTIM; room says whether the memory for the rest of the octets could be had. In the octets the
      element is written over the old one, or behind the leading elements even when that is in the middle of
      another; where it is not, the beacon holds the updated list. Without room, and for a list that ends before
      the place, whose rest has almost 2^32 octets by the unsigned difference, the rest is not moved. */
  method UpdateBcnTim(bss: BssEx, bmp: Bitmap, room: bool, ghost ts: seq<Item>)
    requires bss.Holds(ts) && !bss.probeReq
    requires FIXED_IE_LENGTH + Target(ts) + ItemLen(Element, Tim0(bmp)) <= MAX_IE_SZ
    requires bss.IELength + |TimOctets(bmp)| - Replaced(ts) <= MAX_IE_SZ
    modifies bss`IELength, bss.IEs
    ensures bss.IELength == old(bss.IELength) + |TimOctets(bmp)| - Replaced(ts) <= MAX_IE_SZ
    ensures var dst := FIXED_IE_LENGTH + Target(ts);
            if room && Target(ts) <= Size(Element, ts) then
              && dst + Replaced(ts) <= old(bss.IELength)
              && bss.IEs[..bss.IELength]
                 == old(bss.IEs[..dst]) + TimOctets(bmp) + old(bss.IEs[dst + Replaced(ts)..bss.IELength])
            else
              bss.IEs[..] == old(bss.IEs[..dst]) + Encode(Element, Tim0(bmp))
                             + old(bss.IEs[dst + ItemLen(Element, Tim0(bmp))..])
    ensures room && CanUpdate(ts) ==>
              bss.Holds(Updated(ts, bmp)) && bss.IEs[..FIXED_IE_LENGTH] == old(bss.IEs[..FIXED_IE_LENGTH])
  {
    hide LaidOut, Size, TimItem, Updated, TimOctets, Target, Replaced, HasTim, CanUpdate, Encode, ItemLen;
    ghost var b := bss.IEs[..];
    TimBounds(b, ts);
    var dst, n := FindTarget(bss, ts);
    if room && dst + n <= bss.IELength {
      SpliceTim(bss, dst, dst + n, bmp);
      if CanUpdate(ts) {
        SplicedTim(b, bss.IEs[..], ts, bmp);
        UpdatedSizeIs(b, ts, bmp);
      }
    } else {
      OverwriteTim(bss, dst, n, bmp);
    }
  }

  /** The element is written where it is, and the length is worked out in 32 bits. */
  method OverwriteTim(bss: BssEx, dst: nat, n: nat, bmp: Bitmap)
    requires bss.IEs.Length == MAX_IE_SZ && bss.IELength <= MAX_IE_SZ
    requires dst + ItemLen(Element, Tim0(bmp)) <= MAX_IE_SZ
    requires 0 <= bss.IELength + |TimOctets(bmp)| - n <= MAX_IE_SZ
    modifies bss`IELength, bss.IEs
    ensures bss.IELength == old(bss.IELength) + |TimOctets(bmp)| - n
    ensures bss.IEs[..] == old(bss.IEs[..dst]) + Encode(Element, Tim0(bmp))
                           + old(bss.IEs[dst + ItemLen(Element, Tim0(bmp))..])
  {
    hide TimItem, Encode, ItemLen, Partial, TimOctets;
    TimOctetsLen(bmp);
    var remainder := (bss.IELength - dst - n) % 0x1_0000_0000;
    var written := SetTimIe(DTIM_CNT, DTIM_PERIOD, bmp, bss.IEs, dst);
    Wrapped(dst + written, bss.IELength - dst - n);
    bss.IELength := (dst + written + remainder) % 0x1_0000_0000;
  }

  lemma Wrapped(x: int, y: int)
    requires 0 <= x + y < 0x1_0000_0000 && -0x1_0000_0000 <= y < 0x1_0000_0000
    ensures (x + y % 0x1_0000_0000) % 0x1_0000_0000 == x + y
  {
    assert y % 0x1_0000_0000 == if y >= 0 then y else y + 0x1_0000_0000;
    assert y < 0 ==> (x + y + 0x1_0000_0000) % 0x1_0000_0000 == x + y;
  }

  /** The TIM element to be replaced lies within the octets in use. */
  lemma TimBounds(b: seq<Byte>, ts: seq<Item>)
    requires LaidOut(Element, b, FIXED_IE_LENGTH, ts)
    ensures FIXED_IE_LENGTH + Size(Element, ts) <= |b|
    ensures Target(ts) <= Size(Element, ts) ==> Target(ts) + Replaced(ts) <= Size(Element, ts)
    ensures CanUpdate(ts) ==> Target(ts) <= Size(Element, ts)
    ensures Replaced(ts) <= Size(Element, ts)
  {
    hide PointAt, LeadLen, Size, ItemLen;
    LaidOutBounds(Element, b, FIXED_IE_LENGTH, ts);
    if CanUpdate(ts) {
      TargetIsPlace(b, ts);
    }
  }

  lemma UpdatedSizeIs(b: seq<Byte>, ts: seq<Item>, bmp: Bitmap)
    requires CanUpdate(ts) && LaidOut(Element, b, FIXED_IE_LENGTH, ts)
    ensures Size(Element, Updated(ts, bmp)) == Size(Element, ts) + |TimOctets(bmp)| - Replaced(ts)
  {
    hide Place, Updated, Size, LaidOut, Target, Replaced, TimOctets;
    TargetIsPlace(b, ts);
    TimOctetsLen(bmp);
    UpdatedSize(b, ts, bmp);
  }
}
