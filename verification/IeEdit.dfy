/** In-place editing of information-element buffers (core/rtw_ieee80211.c). Each editor moves
    octets inside one array; each is proved to do to the octets what a list operation does to
    the elements they encode. */
module IeEdit {
  import opened Basics
  import opened Tlv

  /** Element id and OUI prefix match; a null OUI is the empty prefix. */
  predicate Matches(t: Item, eid: nat, oui: seq<Byte>) {
    t.id == eid && oui <= t.data
  }

  function Without(ts: seq<Item>, eid: nat, oui: seq<Byte>): seq<Item> {
    if ts == [] then []
    else (if Matches(ts[0], eid, oui) then [] else [ts[0]]) + Without(ts[1..], eid, oui)
  }

  /** Index of the first match, |ts| when there is none. */
  function FirstMatch(ts: seq<Item>, eid: nat, oui: seq<Byte>): (k: nat)
    ensures k <= |ts|
    ensures forall j :: 0 <= j < k ==> !Matches(ts[j], eid, oui)
    ensures k < |ts| ==> Matches(ts[k], eid, oui)
  {
    if ts == [] || Matches(ts[0], eid, oui) then 0 else 1 + FirstMatch(ts[1..], eid, oui)
  }

  /** `Without` keeps exactly the elements with another id and those whose contents do not begin with the OUI, with
      their multiplicity. */
  lemma {:induction false} WithoutContents(ts: seq<Item>, eid: nat, oui: seq<Byte>, t: Item)
    ensures multiset(Without(ts, eid, oui))[t] ==
              if t.id == eid && |oui| <= |t.data| && t.data[..|oui|] == oui then 0 else multiset(ts)[t]
  {
    if ts != [] {
      WithoutContents(ts[1..], eid, oui, t);
      assert ts == [ts[0]] + ts[1..];
    }
  }

  lemma {:induction false} WithoutAppend(xs: seq<Item>, ys: seq<Item>, eid: nat, oui: seq<Byte>)
    ensures Without(xs + ys, eid, oui) == Without(xs, eid, oui) + Without(ys, eid, oui)
  {
    if xs == [] {
      assert xs + ys == ys;
    } else {
      assert (xs + ys)[1..] == xs[1..] + ys;
      WithoutAppend(xs[1..], ys, eid, oui);
    }
  }

  /** A list with no match is left alone. */
  lemma {:induction false} WithoutNone(ts: seq<Item>, eid: nat, oui: seq<Byte>)
    requires forall t :: t in ts ==> !Matches(t, eid, oui)
    ensures Without(ts, eid, oui) == ts
  {
    if ts != [] {
      WithoutNone(ts[1..], eid, oui);
    }
  }

  lemma {:induction false} WithoutNoMatch(ts: seq<Item>, eid: nat, oui: seq<Byte>)
    ensures forall i :: 0 <= i < |Without(ts, eid, oui)| ==> !Matches(Without(ts, eid, oui)[i], eid, oui)
  {
    if ts != [] {
      WithoutNoMatch(ts[1..], eid, oui);
    }
  }

  /** Cutting the list at its first match. */
  lemma WithoutAtFirst(ts: seq<Item>, eid: nat, oui: seq<Byte>)
    requires FirstMatch(ts, eid, oui) < |ts|
    ensures var k := FirstMatch(ts, eid, oui);
            && Without(ts, eid, oui) == ts[..k] + Without(ts[k + 1..], eid, oui)
            && Without(ts[..k] + ts[k + 1..], eid, oui) == Without(ts, eid, oui)
  {
    hide Matches, FirstMatch;
    var k := FirstMatch(ts, eid, oui);
    WithoutNone(ts[..k], eid, oui);
    WithoutAppend(ts[..k], ts[k..], eid, oui);
    assert ts == ts[..k] + ts[k..];
    assert ts[k..][1..] == ts[k + 1..];
    WithoutAppend(ts[..k], ts[k + 1..], eid, oui);
  }

  /** A scan that has passed n elements without a match. */
  ghost predicate Scanned(f: Format, b: seq<Byte>, at: nat, ts: seq<Item>, n: nat, eid: nat, oui: seq<Byte>) {
    && n <= |ts|
    && LaidOut(f, b, at + Size(f, ts[..n]), ts[n..])
    && Size(f, ts[..n]) + Size(f, ts[n..]) == Size(f, ts)
    && forall j :: 0 <= j < n ==> !Matches(ts[j], eid, oui)
  }

  lemma ScanFirst(f: Format, b: seq<Byte>, at: nat, ts: seq<Item>, eid: nat, oui: seq<Byte>)
    requires LaidOut(f, b, at, ts)
    ensures Scanned(f, b, at, ts, 0, eid, oui) && Size(f, ts[..0]) == 0
    ensures at + Size(f, ts) <= |b|
  {
    hide Matches;
    ScanStart(f, b, at, ts);
  }

  /** The end of a scan: there is no match. */
  lemma ScanEnd(f: Format, b: seq<Byte>, at: nat, ts: seq<Item>, n: nat, eid: nat, oui: seq<Byte>)
    requires Scanned(f, b, at, ts, n, eid, oui) && Size(f, ts[..n]) + HeaderLen(f) > Size(f, ts)
    ensures FirstMatch(ts, eid, oui) == |ts|
  {
    hide Matches;
    if n < |ts| {
      Advance(f, b, at, ts, n);
    }
  }

  /** One step: what is read at the n-th element, whether it is the match, and the next state. */
  lemma ScanNext(f: Format, b: seq<Byte>, at: nat, ts: seq<Item>, n: nat, eid: nat, oui: seq<Byte>)
    requires Scanned(f, b, at, ts, n, eid, oui) && Size(f, ts[..n]) < Size(f, ts)
    ensures n < |ts|
    ensures var p := at + Size(f, ts[..n]);
            var h := HeaderLen(f);
            && p + h + |ts[n].data| <= |b| && IdAt(f, b, p) == ts[n].id && LenAt(f, b, p) == |ts[n].data|
            && (oui == [] ==> (Matches(ts[n], eid, oui) <==> ts[n].id == eid))
            && Size(f, ts[..n + 1]) == Size(f, ts[..n]) + h + |ts[n].data|
    ensures if Matches(ts[n], eid, oui) then FirstMatch(ts, eid, oui) == n
            else Scanned(f, b, at, ts, n + 1, eid, oui)
  {
    hide Here, FirstMatch, IdAt, LenAt, LaidOut, Size;
    assert ts[..|ts|] == ts;
    var p := at + Size(f, ts[..n]);
    Advance(f, b, at, ts, n);
    MatchIsFirst(ts, n, eid, oui);
  }

  lemma MatchIsFirst(ts: seq<Item>, n: nat, eid: nat, oui: seq<Byte>)
    requires n < |ts| && forall j :: 0 <= j < n ==> !Matches(ts[j], eid, oui)
    ensures Matches(ts[n], eid, oui) ==> FirstMatch(ts, eid, oui) == n
  {
    hide Matches;
  }

  /** Element search by id alone, as the beacon splicers use it (rtw_get_ie). */
  method GetIe(a: array<Byte>, start: nat, limit: nat, eid: nat, ghost ts: seq<Item>)
    returns (pos: Option<nat>, len: nat)
    requires LaidOut(Element, a[..], start, ts) && limit == Size(Element, ts)
    ensures var k := FirstMatch(ts, eid, []);
            && (pos.None? <==> k == |ts|)
            && (pos.Some? ==> pos.value == start + Size(Element, ts[..k]) && len == |ts[k].data|)
  {
    hide Scanned, LaidOut, Matches, FirstMatch, Size;
    ScanFirst(Element, a[..], start, ts, eid, []);
    len := 0;
    if limit < 1 {
      ScanEnd(Element, a[..], start, ts, 0, eid, []);
      return None, len;
    }
    var p, i := start, 0;
    ghost var n := 0;
    while true
      invariant Scanned(Element, a[..], start, ts, n, eid, []) && n <= |ts|
      invariant i == Size(Element, ts[..n]) < limit && p == start + i
      decreases limit - i
    {
      ScanNext(Element, a[..], start, ts, n, eid, []);
      if a[p] == eid {
        len := a[p + 1];
        return Some(p), len;
      }
      var tmp: nat := a[p + 1];
      p, i := p + tmp + 2, i + tmp + 2;
      n := n + 1;
      if i >= limit {
        ScanEnd(Element, a[..], start, ts, n, eid, []);
        return None, len;
      }
    }
  }

  // Searching for an OUI. The source compares |oui| octets behind the header of an element, whatever the
  // length of the element; in a shorter one the comparison runs on into the octets behind it.

  /** The comparison succeeds on t with the given octets behind it. */
  predicate Hit(t: Item, behind: seq<Byte>, eid: nat, oui: seq<Byte>) {
    t.id == eid && oui <= t.data + behind
  }

  /** What the search finds in a list with the octets z behind it. */
  function FirstHit(ts: seq<Item>, z: seq<Byte>, eid: nat, oui: seq<Byte>): (k: nat)
    requires AllFit(Element, ts)
    ensures k <= |ts|
  {
    if ts == [] || Hit(ts[0], Ser(Element, ts[1..]) + z, eid, oui) then 0 else 1 + FirstHit(ts[1..], z, eid, oui)
  }

  /** The octets the comparisons read are there. */
  ghost predicate Readable(ts: seq<Item>, z: nat, eid: nat, oui: seq<Byte>) {
    forall i :: 0 <= i < |ts| && ts[i].id == eid ==> |oui| <= |ts[i].data| + Size(Element, ts[i + 1..]) + z
  }

  /** The octets behind the rest of a list once t, in front of it, has been removed: the rest has moved down
      over t, and leaves behind it what was there before. */
  function Uncovered(t: Item, rest: seq<Item>, z: seq<Byte>): seq<Byte>
    requires Fits(Element, t) && AllFit(Element, rest)
  {
    (Encode(Element, t) + Ser(Element, rest) + z)[|Ser(Element, rest)|..]
  }

  /** What is left of a list when everything the search finds has been removed. */
  function Survivors(ts: seq<Item>, z: seq<Byte>, eid: nat, oui: seq<Byte>): seq<Item>
    requires AllFit(Element, ts)
  {
    if ts == [] then []
    else if Hit(ts[0], Ser(Element, ts[1..]) + z, eid, oui) then
      Survivors(ts[1..], Uncovered(ts[0], ts[1..], z), eid, oui)
    else [ts[0]] + Survivors(ts[1..], z, eid, oui)
  }

  lemma {:induction false} SurvivorsAtFirst(ts: seq<Item>, z: seq<Byte>, eid: nat, oui: seq<Byte>)
    requires AllFit(Element, ts)
    ensures var k := FirstHit(ts, z, eid, oui);
            Survivors(ts, z, eid, oui)
              == if k == |ts| then ts
                 else ts[..k] + Survivors(ts[k + 1..], Uncovered(ts[k], ts[k + 1..], z), eid, oui)
  {
    hide Hit, Uncovered, Ser;
    if ts != [] && FirstHit(ts, z, eid, oui) > 0 {
      var k := FirstHit(ts[1..], z, eid, oui);
      SurvivorsAtFirst(ts[1..], z, eid, oui);
      if k < |ts[1..]| {
        assert ts[1..][k + 1..] == ts[k + 2..] && [ts[0]] + ts[1..][..k] == ts[..k + 1];
      }
    }
  }

  // When the search is right.

  /** The octets behind the i-th element when the search gets to it, if it has removed the matches so far. */
  function BehindAt(ts: seq<Item>, z: seq<Byte>, i: nat, eid: nat, oui: seq<Byte>): seq<Byte>
    requires AllFit(Element, ts) && i < |ts|
  {
    if i == 0 then Ser(Element, ts[1..]) + z
    else BehindAt(ts[1..], if Matches(ts[0], eid, oui) then Uncovered(ts[0], ts[1..], z) else z, i - 1, eid, oui)
  }

  /** A candidate too short for the OUI, which the octets behind it complete. */
  predicate Confused(ts: seq<Item>, z: seq<Byte>, i: nat, eid: nat, oui: seq<Byte>)
    requires AllFit(Element, ts) && i < |ts|
  {
    var n := |ts[i].data|;
    ts[i].id == eid && n < |oui| && ts[i].data == oui[..n] && oui[n..] <= BehindAt(ts, z, i, eid, oui)
  }

  ghost predicate NoneConfused(ts: seq<Item>, z: seq<Byte>, eid: nat, oui: seq<Byte>)
    requires AllFit(Element, ts)
  {
    forall i :: 0 <= i < |ts| ==> !Confused(ts, z, i, eid, oui)
  }

  lemma HitIff(t: Item, behind: seq<Byte>, eid: nat, oui: seq<Byte>)
    ensures var n := |t.data|;
            Hit(t, behind, eid, oui) <==>
              Matches(t, eid, oui) || (t.id == eid && n < |oui| && t.data == oui[..n] && oui[n..] <= behind)
  {
    var n, all := |t.data|, t.data + behind;
    if n < |oui| {
      if oui <= all {
        assert oui == all[..|oui|];
        assert oui[..n] == all[..n] == t.data && oui[n..] == all[n..|oui|] == behind[..|oui| - n];
      }
      if t.data == oui[..n] && oui[n..] <= behind {
        assert oui == oui[..n] + oui[n..];
        assert all[..|oui|] == oui;
      }
    } else {
      assert all[..|oui|] == t.data[..|oui|];
    }
  }

  lemma {:induction false} SurvivorsFew(ts: seq<Item>, z: seq<Byte>, eid: nat, oui: seq<Byte>)
    requires AllFit(Element, ts)
    ensures |Survivors(ts, z, eid, oui)| <= |Without(ts, eid, oui)|
  {
    hide Hit, Matches, Uncovered, Ser;
    if ts != [] {
      HitIff(ts[0], Ser(Element, ts[1..]) + z, eid, oui);
      SurvivorsFew(ts[1..], Uncovered(ts[0], ts[1..], z), eid, oui);
      SurvivorsFew(ts[1..], z, eid, oui);
    }
  }

  lemma ConfusedFirst(ts: seq<Item>, z: seq<Byte>, eid: nat, oui: seq<Byte>)
    requires AllFit(Element, ts) && ts != []
    ensures Confused(ts, z, 0, eid, oui) <==>
              Hit(ts[0], Ser(Element, ts[1..]) + z, eid, oui) && !Matches(ts[0], eid, oui)
  {
    HitIff(ts[0], Ser(Element, ts[1..]) + z, eid, oui);
  }

  /** The confusion of a list, at its first element and behind it. */
  lemma ConfusedSplit(ts: seq<Item>, z: seq<Byte>, eid: nat, oui: seq<Byte>)
    requires AllFit(Element, ts) && ts != []
    ensures var next := if Matches(ts[0], eid, oui) then Uncovered(ts[0], ts[1..], z) else z;
            NoneConfused(ts, z, eid, oui) <==> !Confused(ts, z, 0, eid, oui) && NoneConfused(ts[1..], next, eid, oui)
  {
    hide Uncovered, Ser;
    var next := if Matches(ts[0], eid, oui) then Uncovered(ts[0], ts[1..], z) else z;
    assert forall i :: 0 <= i < |ts[1..]| ==>
        (Confused(ts[1..], next, i, eid, oui) <==> Confused(ts, z, i + 1, eid, oui)) by {
      forall i | 0 <= i < |ts[1..]|
        ensures Confused(ts[1..], next, i, eid, oui) <==> Confused(ts, z, i + 1, eid, oui)
      {
        assert ts[1..][i] == ts[i + 1];
      }
    }
    if NoneConfused(ts[1..], next, eid, oui) && !Confused(ts, z, 0, eid, oui) {
      forall j | 0 <= j < |ts|
        ensures !Confused(ts, z, j, eid, oui)
      {
        if j > 0 {
          assert !Confused(ts[1..], next, j - 1, eid, oui);
        }
      }
    }
  }

  /** Removing what the search finds is filtering if and only if no candidate is confused. */
  lemma {:induction false} SurvivorsAreWithoutIff(ts: seq<Item>, z: seq<Byte>, eid: nat, oui: seq<Byte>)
    requires AllFit(Element, ts)
    ensures Survivors(ts, z, eid, oui) == Without(ts, eid, oui) <==> NoneConfused(ts, z, eid, oui)
  {
    hide Hit, Matches, Uncovered, Ser, Confused, NoneConfused;
    if ts == [] {
      NoneInEmpty(z, eid, oui);
    } else {
      var rest := ts[1..];
      var next := if Matches(ts[0], eid, oui) then Uncovered(ts[0], rest, z) else z;
      HitIff(ts[0], Ser(Element, rest) + z, eid, oui);
      ConfusedFirst(ts, z, eid, oui);
      ConfusedSplit(ts, z, eid, oui);
      SurvivorsFew(rest, Uncovered(ts[0], rest, z), eid, oui);
      SurvivorsAreWithoutIff(rest, next, eid, oui);
      SameTails(ts[0], Survivors(rest, next, eid, oui), Without(rest, eid, oui));
    }
  }

  lemma NoneInEmpty(z: seq<Byte>, eid: nat, oui: seq<Byte>)
    ensures NoneConfused([], z, eid, oui)
  {
  }

  lemma SameTails<T>(t: T, x: seq<T>, y: seq<T>)
    ensures [t] + x == [t] + y <==> x == y
  {
    assert ([t] + x)[1..] == x && ([t] + y)[1..] == y;
  }

  /** The search finds the first match if and only if no candidate in front of it is confused. */
  lemma {:induction false} FirstHitIsFirstMatchIff(ts: seq<Item>, z: seq<Byte>, eid: nat, oui: seq<Byte>)
    requires AllFit(Element, ts)
    ensures FirstHit(ts, z, eid, oui) == FirstMatch(ts, eid, oui) <==>
              forall i :: 0 <= i < FirstMatch(ts, eid, oui) ==> !Confused(ts, z, i, eid, oui)
  {
    hide Hit, Matches, Uncovered, Ser;
    if ts != [] {
      HitIff(ts[0], Ser(Element, ts[1..]) + z, eid, oui);
      if !Matches(ts[0], eid, oui) {
        FirstHitIsFirstMatchIff(ts[1..], z, eid, oui);
        var m := FirstMatch(ts[1..], eid, oui);
        forall i | 0 <= i < m
          ensures Confused(ts[1..], z, i, eid, oui) <==> Confused(ts, z, i + 1, eid, oui)
        {
          assert ts[1..][i] == ts[i + 1];
        }
        ConfusedFirst(ts, z, eid, oui);
        assert forall j :: 0 < j <= m ==>
            (Confused(ts, z, j, eid, oui) <==> Confused(ts[1..], z, j - 1, eid, oui));
      }
    }
  }

  /** In particular there is no confusion when every candidate is as long as the OUI. */
  lemma LongIsNotConfused(ts: seq<Item>, z: seq<Byte>, eid: nat, oui: seq<Byte>)
    requires AllFit(Element, ts) && forall i :: 0 <= i < |ts| && ts[i].id == eid ==> |oui| <= |ts[i].data|
    ensures NoneConfused(ts, z, eid, oui) && Readable(ts, 0, eid, oui)
  {
  }


  // The search in the octets.

  /** A search that has passed n elements: z are octets behind the list that it may read. */
  ghost predicate Searched(b: seq<Byte>, at: nat, z: seq<Byte>, ts: seq<Item>, n: nat, eid: nat, oui: seq<Byte>) {
    && n <= |ts| && AllFit(Element, ts)
    && LaidOut(Element, b, at + Size(Element, ts[..n]), ts[n..])
    && Size(Element, ts[..n]) + Size(Element, ts[n..]) == Size(Element, ts)
    && at + Size(Element, ts) <= |b| && z <= b[at + Size(Element, ts)..]
    && FirstHit(ts, z, eid, oui) == n + FirstHit(ts[n..], z, eid, oui)
  }

  lemma SearchFirst(b: seq<Byte>, at: nat, z: seq<Byte>, ts: seq<Item>, eid: nat, oui: seq<Byte>)
    requires LaidOut(Element, b, at, ts)
    ensures at + Size(Element, ts) <= |b| && AllFit(Element, ts)
    ensures z <= b[at + Size(Element, ts)..] ==> Searched(b, at, z, ts, 0, eid, oui)
    ensures Size(Element, ts[..0]) == 0
  {
    hide Hit, Ser, FirstHit, LaidOut;
    ScanStart(Element, b, at, ts);
    LaidOutIsSer(Element, b, at, ts);
  }

  lemma SearchEnd(b: seq<Byte>, at: nat, z: seq<Byte>, ts: seq<Item>, n: nat, eid: nat, oui: seq<Byte>)
    requires Searched(b, at, z, ts, n, eid, oui) && Size(Element, ts[..n]) == Size(Element, ts)
    ensures FirstHit(ts, z, eid, oui) == |ts|
  {
    hide Hit, Ser;
    assert ts[n..] == [];
  }

  /** The octets behind the header of an element: its value, the rest of the list, and what is behind. */
  lemma OctetsFrom(b: seq<Byte>, p: nat, ts: seq<Item>)
    requires ts != [] && LaidOut(Element, b, p, ts)
    ensures AllFit(Element, ts) && p + Size(Element, ts) <= |b| && p + 2 <= |b|
    ensures b[p + 2..] == ts[0].data + (Ser(Element, ts[1..]) + b[p + Size(Element, ts)..])
  {
    hide Ser, LaidOut, Size;
    LaidOutIsSer(Element, b, p, ts);
    var n := Size(Element, ts);
    SerCons(Element, ts[0], ts[1..]);
    assert [ts[0]] + ts[1..] == ts;
    assert b[p..p + n][2..] == ts[0].data + Ser(Element, ts[1..]);
    assert b[p + 2..] == b[p..p + n][2..] + b[p + n..];
  }

  /** Comparing octets where the list and z go on long enough is the test of a hit. */
  lemma HitInOctets(b: seq<Byte>, q: nat, t: Item, tail: seq<Byte>, z: seq<Byte>, behind: seq<Byte>, oui: seq<Byte>)
    requires q <= |b| && b[q..] == t.data + (tail + behind) && z <= behind
    requires |oui| <= |t.data| + |tail| + |z|
    ensures q + |oui| <= |b| && (b[q..q + |oui|] == oui <==> oui <= t.data + (tail + z))
  {
    var all := t.data + (tail + z);
    assert behind == z + behind[|z|..];
    assert b[q..] == all + behind[|z|..];
    assert b[q..q + |oui|] == b[q..][..|oui|] == all[..|oui|];
  }

  lemma SearchNext(b: seq<Byte>, at: nat, z: seq<Byte>, ts: seq<Item>, n: nat, eid: nat, oui: seq<Byte>)
    requires Searched(b, at, z, ts, n, eid, oui) && Size(Element, ts[..n]) < Size(Element, ts)
    requires n < |ts| && ts[n].id == eid ==> |oui| <= |ts[n].data| + Size(Element, ts[n + 1..]) + |z|
    ensures n < |ts|
    ensures var p := at + Size(Element, ts[..n]);
            && p + 2 + |ts[n].data| <= |b| && b[p] == ts[n].id && b[p + 1] == |ts[n].data|
            && (ts[n].id == eid ==> p + 2 + |oui| <= |b|)
            && Size(Element, ts[..n + 1]) == Size(Element, ts[..n]) + 2 + |ts[n].data|
            && if ts[n].id == eid && b[p + 2..p + 2 + |oui|] == oui then FirstHit(ts, z, eid, oui) == n
               else Searched(b, at, z, ts, n + 1, eid, oui)
  {
    hide FirstHit, Ser, LaidOut, Size, Hit;
    assert ts[..|ts|] == ts;
    var p, rest := at + Size(Element, ts[..n]), ts[n..];
    Advance(Element, b, at, ts, n);
    assert rest[1..] == ts[n + 1..] && rest[0] == ts[n];
    OctetsFrom(b, p, rest);
    LaidOutIsSer(Element, b, p + ItemLen(Element, ts[n]), rest[1..]);
    if ts[n].id == eid {
      HitInOctets(b, p + 2, ts[n], Ser(Element, rest[1..]), z, b[at + Size(Element, ts)..], oui);
    }
    FirstHitStep(ts, z, n, eid, oui);
  }

  lemma FirstHitStep(ts: seq<Item>, z: seq<Byte>, n: nat, eid: nat, oui: seq<Byte>)
    requires n < |ts| && AllFit(Element, ts)
    ensures FirstHit(ts[n..], z, eid, oui) ==
              if ts[n].id == eid && oui <= ts[n].data + (Ser(Element, ts[n + 1..]) + z) then 0
              else 1 + FirstHit(ts[n + 1..], z, eid, oui)
  {
    hide Ser;
    assert ts[n..][1..] == ts[n + 1..] && ts[n..][0] == ts[n];
  }

  /** rtw_get_ie_ex. */
  method GetIeEx(a: array<Byte>, start: nat, inLen: nat, eid: nat, oui: seq<Byte>, ghost ts: seq<Item>)
    returns (pos: Option<nat>, ielen: nat)
    requires LaidOut(Element, a[..], start, ts) && inLen == Size(Element, ts)
    requires start + inLen <= a.Length && AllFit(Element, ts)
    requires Readable(ts, a.Length - (start + inLen), eid, oui)
    ensures var k := FirstHit(ts, a[start + inLen..], eid, oui);
            && (pos.None? <==> k == |ts|)
            && (pos.Some? ==> pos.value == start + Size(Element, ts[..k]) && ielen == ItemLen(Element, ts[k]))
  {
    hide Searched, LaidOut, FirstHit, Size;
    ghost var z := a[start + inLen..];
    SearchFirst(a[..], start, z, ts, eid, oui);
    assert z == a[..][start + inLen..];
    pos, ielen := None, 0;
    var cnt := 0;
    ghost var n := 0;
    while cnt < inLen
      invariant Searched(a[..], start, z, ts, n, eid, oui) && n <= |ts|
      invariant cnt == Size(Element, ts[..n]) <= inLen
      decreases inLen - cnt
    {
      SearchNext(a[..], start, z, ts, n, eid, oui);
      SearchBound(a[..], start, z, ts, n, eid, oui);
      var at := start + cnt;
      var bodyLen: nat := a[at + 1];
      if a[at] == eid && a[at + 2..at + 2 + |oui|] == oui {
        return Some(at), bodyLen + 2;
      }
      cnt := cnt + bodyLen + 2;
      n := n + 1;
    }
    SearchEnd(a[..], start, z, ts, n, eid, oui);
  }

  lemma SearchBound(b: seq<Byte>, at: nat, z: seq<Byte>, ts: seq<Item>, n: nat, eid: nat, oui: seq<Byte>)
    requires Searched(b, at, z, ts, n, eid, oui) && n < |ts|
    ensures Size(Element, ts[..n + 1]) <= Size(Element, ts)
  {
    hide FirstHit, Here;
    assert ts == ts[..n + 1] + ts[n + 1..];
    LaidOutAppend(Element, b, at, ts[..n + 1], ts[n + 1..]);
  }

  /** Midway through a removal: `kept` is final, `rest` is still to be searched, and together they
      occupy the octets from `at` up to `end`. */
  ghost predicate Removing(f: Format, b: seq<Byte>, at: nat, end: nat, kept: seq<Item>, rest: seq<Item>) {
    && LaidOut(f, b, at, kept)
    && LaidOut(f, b, at + Size(f, kept), rest)
    && end == at + Size(f, kept) + Size(f, rest) <= |b|
  }

  lemma RemovalStarts(b: seq<Byte>, at: nat, ts: seq<Item>)
    requires LaidOut(Element, b, at, ts)
    ensures Removing(Element, b, at, at + Size(Element, ts), [], ts) && Size(Element, []) == 0
    ensures at + Size(Element, ts) <= |b| && AllFit(Element, ts)
  {
    LaidOutIsSer(Element, b, at, ts);
  }

  lemma RemovalEnds(b: seq<Byte>, at: nat, end: nat, kept: seq<Item>, rest: seq<Item>)
    requires Removing(Element, b, at, end, kept, rest)
    ensures LaidOut(Element, b, at, kept + rest) && end == at + Size(Element, kept + rest)
  {
    hide Here, ItemLen;
    LaidOutAppend(Element, b, at, kept, rest);
  }

  /** Where the first match lies among the remaining octets. */
  lemma MatchBounds(f: Format, b: seq<Byte>, at: nat, end: nat, kept: seq<Item>, rest: seq<Item>, k: nat)
    requires Removing(f, b, at, end, kept, rest) && k <= |rest|
    ensures LaidOut(f, b, at + Size(f, kept), rest)
    ensures var p := at + Size(f, kept) + Size(f, rest[..k]);
            && k < |rest| ==> p + ItemLen(f, rest[k]) + Size(f, rest[k + 1..]) == end
  {
    hide Here, ItemLen;
    if k < |rest| {
      assert rest == rest[..k] + rest[k..] && rest[k..][1..] == rest[k + 1..];
      LaidOutAppend(f, b, at, rest[..k], rest[k..]);
    }
  }

  /** Moving the octets behind the k-th of the remaining elements onto it. */
  lemma RemovalStep(f: Format, b: seq<Byte>, c: seq<Byte>, at: nat, end: nat, kept: seq<Item>, rest: seq<Item>, k: nat)
    requires k < |rest| && Removing(f, b, at, end, kept, rest)
    requires var p, n := at + Size(f, kept) + Size(f, rest[..k]), ItemLen(f, rest[k]);
             p + n <= end && end - n <= |c| && c[..end - n] == b[..p] + b[p + n..end]
    ensures Removing(f, c, at, end - ItemLen(f, rest[k]), kept + rest[..k], rest[k + 1..])
    ensures Size(f, kept + rest[..k]) == Size(f, kept) + Size(f, rest[..k])
  {
    hide Here, ItemLen, LaidOut, Size;
    var start := at + Size(f, kept);
    CutOut(f, b, c, start, rest, k);
    var p := start + Size(f, rest[..k]);
    SharedPrefix(b, c, p, b[p + ItemLen(f, rest[k])..end], at, start);
    Moved(f, b, at, c, at, kept);
    LaidOutAppend(f, c, at, kept, rest[..k]);
  }

  /** What the move leaves behind the list. */
  lemma RemovalUncovers(b: seq<Byte>, at: nat, end: nat, kept: seq<Item>, rest: seq<Item>, k: nat)
    requires k < |rest| && Removing(Element, b, at, end, kept, rest)
    ensures AllFit(Element, rest) && ItemLen(Element, rest[k]) <= end <= |b|
    ensures b[end - ItemLen(Element, rest[k])..] == Uncovered(rest[k], rest[k + 1..], b[end..])
  {
    hide Ser, Size, LaidOut, Encode, ItemLen;
    LaidOutIsSer(Element, b, at + Size(Element, kept), rest);
    RestFrom(b, at + Size(Element, kept), rest, k);
    var p, tail := at + Size(Element, kept) + Size(Element, rest[..k]), rest[k..];
    assert tail[1..] == rest[k + 1..] && tail[0] == rest[k];
    LaidOutIsSer(Element, b, p, tail);
    SerCons(Element, rest[k], rest[k + 1..]);
    assert [rest[k]] + rest[k + 1..] == tail;
    var e, after := Encode(Element, rest[k]), Ser(Element, rest[k + 1..]);
    assert b[p..] == b[p..end] + b[end..] == e + after + b[end..];
    assert b[p..][|after|..] == b[p + |after|..];
  }

  lemma RestFrom(b: seq<Byte>, at: nat, ts: seq<Item>, k: nat)
    requires LaidOut(Element, b, at, ts) && k <= |ts|
    ensures LaidOut(Element, b, at + Size(Element, ts[..k]), ts[k..])
    ensures Size(Element, ts) == Size(Element, ts[..k]) + Size(Element, ts[k..])
  {
    hide Here, ItemLen;
    assert ts == ts[..k] + ts[k..];
    LaidOutAppend(Element, b, at, ts[..k], ts[k..]);
  }

  lemma ReadableOn(ts: seq<Item>, z: nat, k: nat, w: nat, eid: nat, oui: seq<Byte>)
    requires Readable(ts, z, eid, oui) && k < |ts| && z <= w
    ensures Readable(ts[k + 1..], w, eid, oui)
  {
    hide Size;
    var rest := ts[k + 1..];
    forall i | 0 <= i < |rest| && rest[i].id == eid
      ensures |oui| <= |rest[i].data| + Size(Element, rest[i + 1..]) + w
    {
      assert rest[i] == ts[k + 1 + i] && rest[i + 1..] == ts[k + 1 + i + 1..];
    }
  }

  lemma NoOctets(ts: seq<Item>)
    requires Size(Element, ts) == 0
    ensures ts == []
  {
  }

  /** What is kept and what will survive of the rest is what survives of the whole list. */
  ghost predicate OnTheWay(kept: seq<Item>, rest: seq<Item>, behind: seq<Byte>, ts: seq<Item>, z: seq<Byte>, eid: nat,
                           oui: seq<Byte>, ret: bool)
    requires AllFit(Element, rest) && AllFit(Element, ts)
  {
    && kept + Survivors(rest, behind, eid, oui) == Survivors(ts, z, eid, oui)
    && if ret then |kept| + |rest| < |ts| else kept == [] && rest == ts
  }

  lemma OnTheWayStep(kept: seq<Item>, rest: seq<Item>, behind: seq<Byte>, ts: seq<Item>, z: seq<Byte>, eid: nat,
                     oui: seq<Byte>, ret: bool)
    requires AllFit(Element, rest) && AllFit(Element, ts) && OnTheWay(kept, rest, behind, ts, z, eid, oui, ret)
    ensures var k := FirstHit(rest, behind, eid, oui);
            if k < |rest| then
              OnTheWay(kept + rest[..k], rest[k + 1..], Uncovered(rest[k], rest[k + 1..], behind), ts, z, eid, oui,
                       true)
            else kept + rest == Survivors(ts, z, eid, oui) && (ret <==> |kept + rest| < |ts|)
  {
    hide FirstHit, Survivors, Uncovered;
    SurvivorsAtFirst(rest, behind, eid, oui);
    var k := FirstHit(rest, behind, eid, oui);
    if k < |rest| {
      var left := Survivors(rest[k + 1..], Uncovered(rest[k], rest[k + 1..], behind), eid, oui);
      assert kept + (rest[..k] + left) == kept + rest[..k] + left;
    }
  }

  lemma OnTheWayStarts(ts: seq<Item>, z: seq<Byte>, eid: nat, oui: seq<Byte>)
    requires AllFit(Element, ts)
    ensures OnTheWay([], ts, z, ts, z, eid, oui, false)
  {
    hide Survivors;
  }

  /** rtw_ies_remove_ie: what is left of the list is what survives the search, for every list whose candidates
      can be read; see SurvivorsAreWithoutIff for when these are the elements that do not match. True stands for
      _SUCCESS. */
  method RemoveIe(a: array<Byte>, iesLen: nat, offset: nat, eid: nat, oui: seq<Byte>, ghost ts: seq<Item>)
    returns (ret: bool, newLen: nat)
    requires iesLen <= a.Length && AllFit(Element, ts)
    requires offset <= iesLen ==> LaidOut(Element, a[..], offset, ts) && iesLen == offset + Size(Element, ts)
    requires Readable(ts, a.Length - iesLen, eid, oui)
    modifies a
    ensures iesLen < offset ==> !ret && newLen == iesLen && a[..] == old(a[..])
    ensures offset <= iesLen ==>
              var left := Survivors(ts, old(a[iesLen..]), eid, oui);
              && LaidOut(Element, a[..], offset, left) && newLen == offset + Size(Element, left) <= iesLen
              && (ret <==> |left| < |ts|)
    ensures offset <= iesLen && NoneConfused(ts, old(a[iesLen..]), eid, oui) ==>
              && LaidOut(Element, a[..], offset, Without(ts, eid, oui))
              && newLen == offset + Size(Element, Without(ts, eid, oui))
              && (ret <==> exists i :: 0 <= i < |ts| && Matches(ts[i], eid, oui))
    ensures offset <= iesLen ==> a[..offset] == old(a[..offset]) && a[iesLen..] == old(a[iesLen..])
  {
    hide Removing, LaidOut, Matches, FirstHit, Survivors, Without, Size, ItemLen, Readable, NoneConfused, OnTheWay,
      Uncovered;
    ghost var z := a[iesLen..];
    SurvivorsAreWithoutIff(ts, z, eid, oui);
    WithoutShorterIff(ts, eid, oui);
    ret, newLen := false, iesLen;
    if iesLen <= offset {
      if iesLen == offset {
        NoOctets(ts);
        SurvivorsAtFirst(ts, z, eid, oui);
      }
      return;
    }
    ghost var kept: seq<Item>, rest := [], ts;
    RemovalStarts(a[..], offset, ts);
    OnTheWayStarts(ts, z, eid, oui);
    var start: nat, searchLen: nat := offset, iesLen - offset;
    while true
      invariant Removing(Element, a[..], offset, newLen, kept, rest) && AllFit(Element, rest)
      invariant start == offset + Size(Element, kept) && searchLen == Size(Element, rest)
      invariant newLen == start + searchLen <= iesLen
      invariant Readable(rest, a.Length - newLen, eid, oui)
      invariant a[..offset] == old(a[..offset]) && a[iesLen..] == old(a[iesLen..])
      invariant OnTheWay(kept, rest, a[newLen..], ts, z, eid, oui, ret)
      decreases |rest|
    {
      ghost var behind := a[newLen..];
      ghost var k := FirstHit(rest, behind, eid, oui);
      OnTheWayStep(kept, rest, behind, ts, z, eid, oui, ret);
      var target, targetLen := RemoveFirst(a, start, searchLen, eid, oui, offset, iesLen, kept, rest);
      if target.None? {
        RemovalEnds(a[..], offset, newLen, kept, rest);
        return;
      }
      ReadableOn(rest, a.Length - newLen, k, a.Length - (newLen - targetLen), eid, oui);
      newLen := newLen - targetLen;
      ret := true;
      start, searchLen := target.value, newLen - target.value;
      kept, rest := kept + rest[..k], rest[k + 1..];
    }
  }

  lemma {:induction false} WithoutShorterIff(ts: seq<Item>, eid: nat, oui: seq<Byte>)
    ensures |Without(ts, eid, oui)| <= |ts|
    ensures |Without(ts, eid, oui)| < |ts| <==> exists i :: 0 <= i < |ts| && Matches(ts[i], eid, oui)
  {
    hide Matches;
    if ts != [] {
      WithoutShorterIff(ts[1..], eid, oui);
      assert forall i :: 0 <= i < |ts[1..]| ==> ts[1..][i] == ts[i + 1];
      if i :| 0 <= i < |ts| && Matches(ts[i], eid, oui) {
        if i > 0 {
          assert Matches(ts[1..][i - 1], eid, oui);
        }
      }
    }
  }

  /** The body of the removal loop: finds the first hit from `start` on and moves the rest onto it. */
  method RemoveFirst(a: array<Byte>, start: nat, searchLen: nat, eid: nat, oui: seq<Byte>,
                     ghost at: nat, ghost hi: nat, ghost kept: seq<Item>, ghost rest: seq<Item>)
    returns (target: Option<nat>, targetLen: nat)
    requires Removing(Element, a[..], at, start + searchLen, kept, rest) && AllFit(Element, rest)
    requires start == at + Size(Element, kept) && searchLen == Size(Element, rest)
    requires start + searchLen <= hi <= a.Length && Readable(rest, a.Length - (start + searchLen), eid, oui)
    modifies a
    ensures a[..at] == old(a[..at]) && a[hi..] == old(a[hi..])
    ensures var z := old(a[start + searchLen..]);
            var k := FirstHit(rest, z, eid, oui);
            if k == |rest| then target.None? && a[..] == old(a[..])
            else
              && target.Some? && targetLen == ItemLen(Element, rest[k])
              && target.value == at + Size(Element, kept + rest[..k])
              && target.value + targetLen <= start + searchLen
              && Removing(Element, a[..], at, start + searchLen - targetLen, kept + rest[..k], rest[k + 1..])
              && start + searchLen - targetLen - target.value == Size(Element, rest[k + 1..])
              && a[start + searchLen - targetLen..] == Uncovered(rest[k], rest[k + 1..], z)
  {
    hide Removing, LaidOut, FirstHit, Size, ItemLen, Readable, Uncovered;
    ghost var z := a[start + searchLen..];
    ghost var k := FirstHit(rest, z, eid, oui);
    MatchBounds(Element, a[..], at, start + searchLen, kept, rest, k);
    target, targetLen := GetIeEx(a, start, searchLen, eid, oui, rest);
    if target.None? {
      return;
    }
    RemovalUncovers(a[..], at, start + searchLen, kept, rest, k);
    var remain := target.value + targetLen;
    var remainLen := searchLen - (remain - start);
    ghost var before := a[..];
    MemMove(a, target.value, remain, remainLen);
    GapClosed(before, a[..], target.value, remain, start + searchLen, at, hi);
    RemovalStep(Element, before, a[..], at, start + searchLen, kept, rest, k);
    assert a[..][start + searchLen - targetLen..] == before[start + searchLen - targetLen..];
  }

  /** A vendor element that ends after the three octets of its organisation borrows the id of the element behind it
      for the type of a P2P element: the search finds it, and it is removed although nothing in the list matches. */
  lemma ShortCandidateConfused(z: seq<Byte>)
    ensures var ts, oui := [Item(221, [0x50, 0x6F, 0x9A]), Item(9, [1])], [0x50, 0x6F, 0x9A, 9];
            && AllFit(Element, ts)
            && Confused(ts, z, 0, 221, oui) && FirstMatch(ts, 221, oui) == 2
            && FirstHit(ts, z, 221, oui) == 0 && Survivors(ts, z, 221, oui) == [ts[1]]
  {
    var t: Item, oui: seq<Byte> := Item(9, [1]), [0x50, 0x6F, 0x9A, 9];
    var ts := [Item(221, [0x50, 0x6F, 0x9A]), t];
    assert ts[1..] == [t] && [t][1..] == [];
    var tail := Ser(Element, [t]) + z;
    assert Ser(Element, [t]) == [9, 1, 1];
    assert oui[..3] == ts[0].data && oui[3..] == [9] <= tail;
    assert oui <= ts[0].data + tail;
    var u := Uncovered(ts[0], [t], z);
    assert Survivors([], u, 221, oui) == [];
    assert Survivors([t], u, 221, oui) == [t] + Survivors([t][1..], u, 221, oui);
  }
}
