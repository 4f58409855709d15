/** The traffic indication map element (core/rtw_ap.c, rtw_set_tim_ie): the station bitmap is sent
    without its leading and trailing empty octets (section 9.4.2.6 of IEEE 802.11-2016). */
module Tim {
  import opened Basics
  import opened Tlv

  const EID_TIM: nat := 5
  /** The longest bitmap: one bit for each AID from 0 to 2007. */
  const MAX_BMP_LEN: nat := 251

  type Bitmap = b: seq<Byte> | 1 <= |b| <= MAX_BMP_LEN witness [0]

  function Pow2(k: nat): nat
    requires k < 8
  {
    [1, 2, 4, 8, 16, 32, 64, 128][k]
  }

  /** Bit `id` of a bitmap, clear beyond its end (rtw_bmp_is_set). */
  predicate BitSet(bmp: seq<Byte>, id: nat) {
    id / 8 < |bmp| && bmp[id / 8] / Pow2(id % 8) % 2 == 1
  }

  /** The bit for AID 8 * i + k has the value 2 to the power of k in octet i. */
  lemma BitsOfOctet(bmp: seq<Byte>, i: nat, b: seq<nat>)
    requires i < |bmp| && |b| == 8 && forall k :: 0 <= k < 8 ==> b[k] < 2
    requires bmp[i] == b[0] + 2 * b[1] + 4 * b[2] + 8 * b[3] + 16 * b[4] + 32 * b[5] + 64 * b[6] + 128 * b[7]
    ensures forall k :: 0 <= k < 8 ==> (BitSet(bmp, 8 * i + k) <==> b[k] == 1)
  {
    OctetBits(bmp[i], b);
    forall k | 0 <= k < 8
      ensures BitSet(bmp, 8 * i + k) <==> b[k] == 1
    {
      assert (8 * i + k) / 8 == i && (8 * i + k) % 8 == k;
      hide Pow2;
    }
  }

  lemma Quotients(x: nat, b: seq<nat>)
    requires |b| == 8 && forall k :: 0 <= k < 8 ==> b[k] < 2
    requires x == b[0] + 2 * b[1] + 4 * b[2] + 8 * b[3] + 16 * b[4] + 32 * b[5] + 64 * b[6] + 128 * b[7]
    ensures x / 2 == b[1] + 2 * b[2] + 4 * b[3] + 8 * b[4] + 16 * b[5] + 32 * b[6] + 64 * b[7]
    ensures x / 4 == b[2] + 2 * b[3] + 4 * b[4] + 8 * b[5] + 16 * b[6] + 32 * b[7]
    ensures x / 8 == b[3] + 2 * b[4] + 4 * b[5] + 8 * b[6] + 16 * b[7]
    ensures x / 16 == b[4] + 2 * b[5] + 4 * b[6] + 8 * b[7]
    ensures x / 32 == b[5] + 2 * b[6] + 4 * b[7]
    ensures x / 64 == b[6] + 2 * b[7] && x / 128 == b[7]
  {
  }

  lemma Odd(q: nat, bit: nat, more: nat)
    requires bit < 2 && q == bit + 2 * more
    ensures q % 2 == bit
  {
  }

  lemma OctetBits(x: nat, b: seq<nat>)
    requires |b| == 8 && forall k :: 0 <= k < 8 ==> b[k] < 2
    requires x == b[0] + 2 * b[1] + 4 * b[2] + 8 * b[3] + 16 * b[4] + 32 * b[5] + 64 * b[6] + 128 * b[7]
    ensures forall k :: 0 <= k < 8 ==> (x / Pow2(k) % 2 == 1 <==> b[k] == 1)
  {
    Quotients(x, b);
    Odd(x, b[0], b[1] + 2 * b[2] + 4 * b[3] + 8 * b[4] + 16 * b[5] + 32 * b[6] + 64 * b[7]);
    Odd(x / 2, b[1], b[2] + 2 * b[3] + 4 * b[4] + 8 * b[5] + 16 * b[6] + 32 * b[7]);
    Odd(x / 4, b[2], b[3] + 2 * b[4] + 4 * b[5] + 8 * b[6] + 16 * b[7]);
    Odd(x / 8, b[3], b[4] + 2 * b[5] + 4 * b[6] + 8 * b[7]);
    Odd(x / 16, b[4], b[5] + 2 * b[6] + 4 * b[7]);
    Odd(x / 32, b[5], b[6] + 2 * b[7]);
    Odd(x / 64, b[6], b[7]);
    Odd(x / 128, b[7], 0);
    forall k | 0 <= k < 8
      ensures x / Pow2(k) % 2 == b[k]
    {
    }
  }

  predicate AllZero(bmp: seq<Byte>) {
    forall i :: 0 <= i < |bmp| ==> bmp[i] == 0
  }

  /** Index of the first octet that is not zero. */
  function FirstOctet(bmp: seq<Byte>): (i: nat)
    requires !AllZero(bmp)
    ensures i < |bmp| && bmp[i] != 0
    ensures forall j :: 0 <= j < i ==> bmp[j] == 0
  {
    if bmp[0] != 0 then 0 else
      assert forall i :: 1 <= i < |bmp| ==> bmp[i] == bmp[1..][i - 1];
      1 + FirstOctet(bmp[1..])
  }

  function LastOctet(bmp: seq<Byte>): (i: nat)
    requires !AllZero(bmp)
    ensures i < |bmp| && bmp[i] != 0
    ensures forall j :: i < j < |bmp| ==> bmp[j] == 0
  {
    if bmp[|bmp| - 1] != 0 then |bmp| - 1 else LastOctet(bmp[..|bmp| - 1])
  }

  function Start(bmp: Bitmap): nat {
    if AllZero(bmp) then 0 else FirstOctet(bmp) / 2 * 2
  }

  /** The partial virtual bitmap. */
  function Partial(bmp: Bitmap): (p: seq<Byte>)
    ensures 1 <= |p| && Start(bmp) + |p| <= |bmp|
  {
    if AllZero(bmp) then bmp[..1] else bmp[Start(bmp)..LastOctet(bmp) + 1]
  }

  function TimItem(dtimCnt: Byte, dtimPeriod: Byte, bmp: Bitmap): (t: Item)
    ensures Fits(Element, t)
  {
    var control := Start(bmp) + if BitSet(bmp, 0) then 1 else 0;
    Item(EID_TIM, [dtimCnt, dtimPeriod, control] + Partial(bmp))
  }

  /** How a station reads a TIM element: the traffic bit for AID 0, and for any other AID its bit of
      the partial virtual bitmap, clear outside it. */
  predicate Announces(t: Item, aid: nat)
    requires |t.data| >= 4
  {
    if aid == 0 then t.data[2] % 2 == 1
    else
      var first := (t.data[2] as int) / 2 * 2;
      first <= aid / 8 && BitSet(t.data[3..], aid - first * 8)
  }

  /** The octets of the element for a bitmap in use from octet lo to octet hi: id, length, DTIM count and period, the
      control octet with the even start of the bitmap and the bit of AID 0, and the bitmap from that start to hi. */
  lemma TimOnWire(dtimCnt: Byte, dtimPeriod: Byte, bmp: Bitmap, lo: nat, hi: nat, g: nat)
    requires lo <= hi < |bmp| && bmp[lo] != 0 && bmp[hi] != 0
    requires forall i :: 0 <= i < lo || hi < i < |bmp| ==> bmp[i] == 0
    requires g == bmp[0] % 2
    ensures var n1 := if lo % 2 == 0 then lo else lo - 1;
            Encode(Element, TimItem(dtimCnt, dtimPeriod, bmp))
            == [5, 4 + hi - n1, dtimCnt, dtimPeriod, n1 + g] + bmp[n1..hi + 1]
  {
    var n1 := if lo % 2 == 0 then lo else lo - 1;
    InUse(bmp, lo, hi);
    TimControl(bmp, g);
    TimItemIs(dtimCnt, dtimPeriod, bmp, n1, g, bmp[n1..hi + 1]);
    hide Start, Partial, BitSet, AllZero, Encode, TimItem;
    ElementOctets([dtimCnt, dtimPeriod, n1 + g], bmp[n1..hi + 1]);
  }

  lemma TimItemIs(dtimCnt: Byte, dtimPeriod: Byte, bmp: Bitmap, n1: nat, g: nat, p: seq<Byte>)
    requires Start(bmp) == n1 && Partial(bmp) == p && g == if BitSet(bmp, 0) then 1 else 0
    ensures n1 + g < 256 && TimItem(dtimCnt, dtimPeriod, bmp) == Item(5, [dtimCnt, dtimPeriod, n1 + g] + p)
  {
    hide Start, Partial, BitSet;
  }

  lemma ElementOctets(head: seq<Byte>, p: seq<Byte>)
    requires |head| == 3 && |p| <= MAX_BMP_LEN
    ensures Fits(Element, Item(5, head + p))
    ensures Encode(Element, Item(5, head + p)) == [5, 3 + |p|, head[0], head[1], head[2]] + p
  {
    assert head == [head[0], head[1], head[2]];
  }

  lemma InUse(bmp: Bitmap, lo: nat, hi: nat)
    requires lo <= hi < |bmp| && bmp[lo] != 0 && bmp[hi] != 0
    requires forall i :: 0 <= i < lo || hi < i < |bmp| ==> bmp[i] == 0
    ensures var n1 := if lo % 2 == 0 then lo else lo - 1;
            Start(bmp) == n1 && Partial(bmp) == bmp[n1..hi + 1]
  {
    assert FirstOctet(bmp) == lo && LastOctet(bmp) == hi;
  }

  lemma TimControl(bmp: Bitmap, g: nat)
    requires g == bmp[0] % 2
    ensures g == if BitSet(bmp, 0) then 1 else 0
  {
  }

  /** Only empty octets are trimmed away. */
  lemma Trimmed(bmp: Bitmap, i: nat)
    requires i < |bmp|
    ensures bmp[i] == if Start(bmp) <= i < Start(bmp) + |Partial(bmp)| then Partial(bmp)[i - Start(bmp)] else 0
  {
  }

  lemma PartialBits(bmp: Bitmap, aid: nat)
    ensures BitSet(bmp, aid) <==> Start(bmp) <= aid / 8 && BitSet(Partial(bmp), aid - Start(bmp) * 8)
  {
    hide Start, Partial;
    if aid / 8 < |bmp| {
      Trimmed(bmp, aid / 8);
    }
    if Start(bmp) <= aid / 8 {
      SameBit(aid, Start(bmp));
    }
  }

  /** Decoding what was encoded gives back every bit. */
  lemma TimRoundTrip(dtimCnt: Byte, dtimPeriod: Byte, bmp: Bitmap, aid: nat)
    ensures Announces(TimItem(dtimCnt, dtimPeriod, bmp), aid) <==> BitSet(bmp, aid)
  {
    PartialBits(bmp, aid);
    StartIsEven(bmp);
    hide Start, Partial, BitSet;
    var t := TimItem(dtimCnt, dtimPeriod, bmp);
    assert t.data[3..] == Partial(bmp);
  }

  lemma StartIsEven(bmp: Bitmap)
    ensures Start(bmp) % 2 == 0
  {
  }

  lemma SameBit(aid: nat, first: nat)
    requires first <= aid / 8
    ensures (aid - first * 8) / 8 == aid / 8 - first && (aid - first * 8) % 8 == aid % 8
  {
  }

  /** An octet that is not zero has a bit that is set; one above 1 has one other than bit 0. */
  lemma SomeBit(x: Byte) returns (k: nat)
    requires x != 0
    ensures k < 8 && x / Pow2(k) % 2 == 1 && (x > 1 ==> k > 0)
  {
    k := if x >= 128 then 7 else if x >= 64 then 6 else if x >= 32 then 5 else if x >= 16 then 4
         else if x >= 8 then 3 else if x >= 4 then 2 else if x >= 2 then 1 else 0;
  }

  /** A partial virtual bitmap from an even octet on that announces the same stations, AID 0 apart. */
  ghost predicate Represents(start: nat, p: seq<Byte>, bmp: Bitmap) {
    && start % 2 == 0 && p != []
    && forall aid :: aid > 0 ==> (BitSet(bmp, aid) <==> start <= aid / 8 && BitSet(p, aid - start * 8))
  }

  /** The bit of AID 0 is sent in the bitmap control octet as well; when it is the only one in its
      octet pair and octets further on are in use, it makes the partial bitmap longer than need be. */
  predicate GroupBitOnly(bmp: Bitmap) {
    |bmp| > 2 && bmp[0] == 1 && bmp[1] == 0 && !AllZero(bmp[2..])
  }

  /** Every octet with a station's bit in it is covered. */
  lemma Covered(start: nat, p: seq<Byte>, bmp: Bitmap, i: nat)
    requires Represents(start, p, bmp) && i < |bmp| && bmp[i] != 0 && (i == 0 ==> bmp[0] > 1)
    ensures start <= i < start + |p|
  {
    var k := SomeBit(bmp[i]);
    assert BitSet(bmp, 8 * i + k);
    SameBit(8 * i + k, if start <= i then start else 0);
  }

  lemma PartialRepresents(bmp: Bitmap)
    ensures Represents(Start(bmp), Partial(bmp), bmp)
  {
    forall aid | aid > 0
      ensures BitSet(bmp, aid) <==> Start(bmp) <= aid / 8 && BitSet(Partial(bmp), aid - Start(bmp) * 8)
    {
      PartialBits(bmp, aid);
    }
    StartIsEven(bmp);
  }

  /** The driver's choice represents the bitmap, and is the shortest one that does exactly when the bit of AID 0
      does not stand alone in front of a gap. */
  lemma ShortestIff(bmp: Bitmap)
    ensures Represents(Start(bmp), Partial(bmp), bmp)
    ensures (forall start, p :: Represents(start, p, bmp) ==> |Partial(bmp)| <= |p|) <==> !GroupBitOnly(bmp)
  {
    PartialRepresents(bmp);
    if GroupBitOnly(bmp) {
      GroupBitWastes(bmp);
    } else {
      forall start, p | Represents(start, p, bmp)
        ensures |Partial(bmp)| <= |p|
      {
        ShortestOtherwise(bmp, start, p);
      }
    }
  }

  /** Group traffic waits, and traffic for the station with AID 17: three octets are sent where one would do. */
  lemma GroupBitAndStation17()
    ensures var bmp: Bitmap := [1, 0, 2, 0, 0];
            |Partial(bmp)| == 3 && Represents(2, [2], bmp) && GroupBitOnly(bmp)
  {
    var bmp: Bitmap := [1, 0, 2, 0, 0];
    assert bmp[0] != 0 && bmp[2] != 0;
    assert LastOctet(bmp) == 2 && FirstOctet(bmp) == 0;
    assert bmp[2..][0] == 2;
    forall aid | aid > 0
      ensures BitSet(bmp, aid) <==> 2 <= aid / 8 && BitSet([2], aid - 2 * 8)
    {
      if aid / 8 >= 2 {
        SameBit(aid, 2);
      } else if aid / 8 == 0 {
        assert bmp[0] / Pow2(aid % 8) % 2 == 0;
      }
    }
  }

  lemma ShortestOtherwise(bmp: Bitmap, start: nat, p: seq<Byte>)
    requires !GroupBitOnly(bmp) && Represents(start, p, bmp)
    ensures |Partial(bmp)| <= |p|
  {
    if !AllZero(bmp) {
      var lo, hi := FirstOctet(bmp), LastOctet(bmp);
      if hi > 0 {
        Covered(start, p, bmp, hi);
        if bmp[lo] > 1 || lo > 0 {
          Covered(start, p, bmp, lo);
        } else {
          assert hi >= 2 ==> bmp[2..][hi - 2] == bmp[hi];
          Covered(start, p, bmp, 1);
        }
      }
    }
  }

  lemma GroupBitWastes(bmp: Bitmap)
    requires GroupBitOnly(bmp)
    ensures exists start, p :: Represents(start, p, bmp) && |p| < |Partial(bmp)|
  {
    var hi := LastOctet(bmp);
    assert hi >= 2;
    var p := bmp[2..hi + 1];
    forall aid | aid > 0
      ensures BitSet(bmp, aid) <==> 2 <= aid / 8 && BitSet(p, aid - 2 * 8)
    {
      if aid / 8 >= 2 {
        SameBit(aid, 2);
      } else if aid / 8 == 0 {
        assert bmp[0] / Pow2(aid % 8) % 2 == 0;
      }
    }
    assert Represents(2, p, bmp);
  }

  /** rtw_set_tim_ie. The returned length is an octet: it wraps round to 0 for a partial bitmap of
      251 octets. */
  method SetTimIe(dtimCnt: Byte, dtimPeriod: Byte, bmp: Bitmap, a: array<Byte>, at: nat) returns (len: Byte)
    requires at + ItemLen(Element, TimItem(dtimCnt, dtimPeriod, bmp)) <= a.Length
    modifies a
    ensures var t := TimItem(dtimCnt, dtimPeriod, bmp);
            && a[..] == old(a[..at]) + Encode(Element, t) + old(a[at + ItemLen(Element, t)..])
            && len == ItemLen(Element, t) % 256
  {
    var n1, bmpLen := FindWindow(bmp);
    var control := n1 + if BitSet(bmp, 0) then 1 else 0;
    assert [EID_TIM, 2 + 1 + bmpLen, dtimCnt, dtimPeriod, control] + bmp[n1..n1 + bmpLen]
        == Encode(Element, TimItem(dtimCnt, dtimPeriod, bmp));
    hide Start, Partial, BitSet, TimItem;
    MemCopy(a, at, [EID_TIM, 2 + 1 + bmpLen, dtimCnt, dtimPeriod, control] + bmp[n1..n1 + bmpLen]);
    len := (2 + 2 + 1 + bmpLen) % 256;
  }

  /** The two scans that bound the octets in use. */
  method FindWindow(bmp: Bitmap) returns (n1: nat, bmpLen: nat)
    ensures n1 == Start(bmp) && bmpLen == |Partial(bmp)| && bmp[n1..n1 + bmpLen] == Partial(bmp)
  {
    n1, bmpLen := 0, 1;
    if !AllZero(bmp) {
      var i := 0;
      while i < |bmp| && bmp[i] == 0
        invariant i <= FirstOctet(bmp)
      {
        i := i + 1;
      }
      n1 := i / 2 * 2;
      i := |bmp| - 1;
      while i > 0 && bmp[i] == 0
        invariant LastOctet(bmp) <= i < |bmp|
      {
        i := i - 1;
      }
      bmpLen := i - n1 + 1;
    }
  }
}
