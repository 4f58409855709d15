/** Type-length-value lists as the driver lays them out in byte buffers: 802.11 information
    elements, the attributes inside a P2P element, and the tags of a PPPoE discovery frame. */
module Tlv {
  import opened Basics

  /** The three layouts: one-octet id and length, one-octet id with a little-endian 16-bit length,
      and big-endian 16-bit type and length. */
  datatype Format = Element | P2pAttr | PppoeTag

  datatype Item = Item(id: nat, data: seq<Byte>)

  function HeaderLen(f: Format): nat {
    match f
    case Element => 2
    case P2pAttr => 3
    case PppoeTag => 4
  }

  function ItemLen(f: Format, t: Item): nat {
    HeaderLen(f) + |t.data|
  }

  predicate Fits(f: Format, t: Item) {
    && t.id < (if f.PppoeTag? then 65536 else 256)
    && |t.data| < (if f.Element? then 256 else 65536)
  }

  predicate AllFit(f: Format, ts: seq<Item>) {
    forall i :: 0 <= i < |ts| ==> Fits(f, ts[i])
  }

  function Header(f: Format, id: nat, n: nat): (h: seq<Byte>)
    requires id < (if f.PppoeTag? then 65536 else 256)
    requires n < (if f.Element? then 256 else 65536)
    ensures |h| == HeaderLen(f)
  {
    match f
    case Element => [id, n]
    case P2pAttr => [id, n % 256, n / 256]
    case PppoeTag => [id / 256, id % 256, n / 256, n % 256]
  }

  /** The id field of the item whose header starts at b[i]. */
  function IdAt(f: Format, b: seq<Byte>, i: nat): nat
    requires i + HeaderLen(f) <= |b|
  {
    if f.PppoeTag? then (b[i] as int) * 256 + b[i + 1] else b[i]
  }

  /** The length field of the item whose header starts at b[i]. */
  function LenAt(f: Format, b: seq<Byte>, i: nat): nat
    requires i + HeaderLen(f) <= |b|
  {
    match f
    case Element => b[i + 1]
    case P2pAttr => b[i + 1] + (b[i + 2] as int) * 256
    case PppoeTag => (b[i + 2] as int) * 256 + b[i + 3]
  }

  function Encode(f: Format, t: Item): (b: seq<Byte>)
    requires Fits(f, t)
    ensures |b| == ItemLen(f, t)
  {
    Header(f, t.id, |t.data|) + t.data
  }

  function Ser(f: Format, ts: seq<Item>): seq<Byte>
    requires AllFit(f, ts)
  {
    if ts == [] then [] else Encode(f, ts[0]) + Ser(f, ts[1..])
  }

  function Size(f: Format, ts: seq<Item>): nat {
    if ts == [] then 0 else ItemLen(f, ts[0]) + Size(f, ts[1..])
  }

  /** The octets of b from `at` on are the item t. */
  ghost predicate Here(f: Format, b: seq<Byte>, at: nat, t: Item) {
    && Fits(f, t)
    && at + ItemLen(f, t) <= |b|
    && b[at..at + ItemLen(f, t)] == Encode(f, t)
  }

  /** The octets of b from `at` on are the items ts, one behind the other. */
  ghost predicate LaidOut(f: Format, b: seq<Byte>, at: nat, ts: seq<Item>)
    decreases |ts|
  {
    if ts == [] then at <= |b|
    else Here(f, b, at, ts[0]) && LaidOut(f, b, at + ItemLen(f, ts[0]), ts[1..])
  }

  /** Reads a buffer back, item by item; None when an item runs past the end. */
  function Parse(f: Format, b: seq<Byte>): Option<seq<Item>>
    decreases |b|
  {
    if b == [] then Some([])
    else if |b| < HeaderLen(f) || |b| < HeaderLen(f) + LenAt(f, b, 0) then None
    else
      var n := HeaderLen(f) + LenAt(f, b, 0);
      match Parse(f, b[n..])
      case None => None
      case Some(rest) => Some([Item(IdAt(f, b, 0), b[HeaderLen(f)..n])] + rest)
  }

  lemma {:induction false} LaidOutBounds(f: Format, b: seq<Byte>, at: nat, ts: seq<Item>)
    requires LaidOut(f, b, at, ts)
    ensures at + Size(f, ts) <= |b|
    decreases |ts|
  {
    hide Encode, Fits, ItemLen;
    if ts != [] {
      LaidOutBounds(f, b, at + ItemLen(f, ts[0]), ts[1..]);
    }
  }

  lemma Slice(b: seq<Byte>, at: nat, n: nat, i: nat, j: nat)
    requires at + n <= |b| && i <= j <= n
    ensures b[at + i..at + j] == b[at..at + n][i..j]
  {
    var x, l := b[at..at + n], b[at + i..at + j];
    forall k | 0 <= k < |l|
      ensures l[k] == x[i..j][k]
    {
      assert x[i..j][k] == x[i + k] == b[at + (i + k)];
      assert l[k] == b[(at + i) + k];
    }
  }

  lemma SubSlice(b: seq<Byte>, at: nat, c: seq<Byte>, to: nat, n: nat, i: nat, j: nat)
    requires at + n <= |b| && to + n <= |c| && b[at..at + n] == c[to..to + n]
    requires i <= j <= n
    ensures b[at + i..at + j] == c[to + i..to + j]
  {
    Slice(b, at, n, i, j);
    Slice(c, to, n, i, j);
  }

  /** A layout only depends on the octets it covers, and can be moved with them. */
  lemma {:induction false} Moved(f: Format, b: seq<Byte>, at: nat, c: seq<Byte>, to: nat, ts: seq<Item>)
    requires LaidOut(f, b, at, ts)
    requires at + Size(f, ts) <= |b| && to + Size(f, ts) <= |c|
    requires c[to..to + Size(f, ts)] == b[at..at + Size(f, ts)]
    ensures LaidOut(f, c, to, ts)
    decreases |ts|
  {
    hide Here, ItemLen;
    if ts != [] {
      var n, m := ItemLen(f, ts[0]), Size(f, ts);
      assert m == n + Size(f, ts[1..]);
      SubSlice(b, at, c, to, m, 0, n);
      HereMoved(f, b, at, c, to, ts[0]);
      SubSlice(b, at, c, to, m, n, m);
      Moved(f, b, at + n, c, to + n, ts[1..]);
    }
  }

  lemma HereMoved(f: Format, b: seq<Byte>, at: nat, c: seq<Byte>, to: nat, t: Item)
    requires Here(f, b, at, t) && to + ItemLen(f, t) <= |c|
    requires at + ItemLen(f, t) <= |b| && c[to..to + ItemLen(f, t)] == b[at..at + ItemLen(f, t)]
    ensures Here(f, c, to, t)
  {
    hide Encode, Fits, ItemLen;
  }

  lemma KeptBelow(f: Format, b: seq<Byte>, c: seq<Byte>, at: nat, p: nat, ts: seq<Item>)
    requires LaidOut(f, b, at, ts) && at + Size(f, ts) <= p <= |b| && p <= |c| && c[..p] == b[..p]
    ensures LaidOut(f, c, at, ts)
  {
    SharedPrefix(b, c, p, [], at, at + Size(f, ts));
    Moved(f, b, at, c, at, ts);
  }

  /** Two lists back to back are one list. */
  lemma {:induction false} LaidOutAppend(f: Format, b: seq<Byte>, at: nat, xs: seq<Item>, ys: seq<Item>)
    ensures Size(f, xs + ys) == Size(f, xs) + Size(f, ys)
    ensures LaidOut(f, b, at, xs + ys) <==> LaidOut(f, b, at, xs) && LaidOut(f, b, at + Size(f, xs), ys)
    decreases |xs|
  {
    hide Here, ItemLen;
    if xs == [] {
      assert xs + ys == ys;
      if LaidOut(f, b, at, ys) {
        LaidOutBounds(f, b, at, ys);
      }
    } else {
      assert (xs + ys)[1..] == xs[1..] + ys && (xs + ys)[0] == xs[0];
      LaidOutAppend(f, b, at + ItemLen(f, xs[0]), xs[1..], ys);
    }
  }

  /** The header fields of an encoded item, whatever follows it. */
  lemma EncodedHeader(f: Format, t: Item, rest: seq<Byte>)
    requires Fits(f, t)
    ensures IdAt(f, Encode(f, t) + rest, 0) == t.id
    ensures LenAt(f, Encode(f, t) + rest, 0) == |t.data|
  {
    assert (Encode(f, t) + rest)[..HeaderLen(f)] == Header(f, t.id, |t.data|);
  }

  /** What a scan reads at the first of several items. */
  lemma HeadAt(f: Format, b: seq<Byte>, at: nat, ts: seq<Item>)
    requires ts != [] && LaidOut(f, b, at, ts)
    ensures at + ItemLen(f, ts[0]) <= |b|
    ensures IdAt(f, b, at) == ts[0].id && LenAt(f, b, at) == |ts[0].data|
    ensures b[at + HeaderLen(f)..at + ItemLen(f, ts[0])] == ts[0].data
  {
    var h, n := HeaderLen(f), ItemLen(f, ts[0]);
    var e := b[at..at + n];
    EncodedHeader(f, ts[0], []);
    assert Encode(f, ts[0]) + [] == e;
    assert b[at + h..at + n] == e[h..];
  }

  /** One step of a scan over a laid-out list: what it reads at the n-th item, and where the rest
      of the list begins. */
  lemma Advance(f: Format, b: seq<Byte>, at: nat, ts: seq<Item>, n: nat)
    requires n < |ts| && LaidOut(f, b, at + Size(f, ts[..n]), ts[n..])
    ensures var p := at + Size(f, ts[..n]);
            && p + ItemLen(f, ts[n]) == at + Size(f, ts[..n + 1]) <= |b|
            && IdAt(f, b, p) == ts[n].id && LenAt(f, b, p) == |ts[n].data|
            && b[p + HeaderLen(f)..p + ItemLen(f, ts[n])] == ts[n].data
    ensures LaidOut(f, b, at + Size(f, ts[..n + 1]), ts[n + 1..])
    ensures Size(f, ts[n..]) == ItemLen(f, ts[n]) + Size(f, ts[n + 1..])
  {
    HeadAt(f, b, at + Size(f, ts[..n]), ts[n..]);
    hide Here, IdAt, LenAt;
    assert ts[n..][1..] == ts[n + 1..];
    assert ts[..n + 1] == ts[..n] + [ts[n]];
    LaidOutAppend(f, b, at, ts[..n], [ts[n]]);
  }

  /** A scan starts at the first item. */
  lemma ScanStart(f: Format, b: seq<Byte>, at: nat, ts: seq<Item>)
    requires LaidOut(f, b, at, ts)
    ensures at + Size(f, ts) <= |b|
    ensures ts[..0] == [] && ts[0..] == ts && ts[..|ts|] == ts && Size(f, ts[..0]) == 0
    ensures LaidOut(f, b, at + Size(f, ts[..0]), ts[0..])
  {
    LaidOutBounds(f, b, at, ts);
  }

  /** The part of a prefix that two buffers share. */
  lemma SharedPrefix(b: seq<Byte>, c: seq<Byte>, p: nat, tail: seq<Byte>, i: nat, j: nat)
    requires i <= j <= p <= |b| && p + |tail| <= |c| && c[..p + |tail|] == b[..p] + tail
    ensures c[i..j] == b[i..j]
  {
    assert c[i..j] == c[..p + |tail|][i..j];
  }

  /** Removing the k-th item from a laid-out list by moving everything behind it down. */
  lemma CutOut(f: Format, b: seq<Byte>, c: seq<Byte>, at: nat, ts: seq<Item>, k: nat)
    requires k < |ts| && LaidOut(f, b, at, ts)
    requires var p, n, end := at + Size(f, ts[..k]), ItemLen(f, ts[k]), at + Size(f, ts);
             p + n <= end <= |b| && end - n <= |c| && c[..end - n] == b[..p] + b[p + n..end]
    ensures LaidOut(f, c, at, ts[..k])
    ensures LaidOut(f, c, at + Size(f, ts[..k]), ts[k + 1..])
    ensures Size(f, ts) == Size(f, ts[..k]) + ItemLen(f, ts[k]) + Size(f, ts[k + 1..])
  {
    hide Here, ItemLen;
    var p, n := at + Size(f, ts[..k]), ItemLen(f, ts[k]);
    assert ts == ts[..k] + ts[k..];
    assert ts[k..][1..] == ts[k + 1..];
    LaidOutAppend(f, b, at, ts[..k], ts[k..]);
    assert LaidOut(f, b, p + n, ts[k + 1..]);
    SharedPrefix(b, c, p, b[p + n..at + Size(f, ts)], at, p);
    Moved(f, b, at, c, at, ts[..k]);
    Moved(f, b, p + n, c, p, ts[k + 1..]);
  }

  /** Sizes of a list cut in three. */
  lemma SizeParts(f: Format, ts: seq<Item>, k: nat, m: nat)
    requires k <= m <= |ts|
    ensures Size(f, ts[..m]) == Size(f, ts[..k]) + Size(f, ts[k..m])
    ensures Size(f, ts) == Size(f, ts[..m]) + Size(f, ts[m..])
  {
    assert ts[..m] == ts[..k] + ts[k..m] && ts == ts[..m] + ts[m..];
    LaidOutAppend(f, [], 0, ts[..k], ts[k..m]);
    LaidOutAppend(f, [], 0, ts[..m], ts[m..]);
  }

  /** Replacing the items from the k-th up to the m-th: the octets before them stay, the new items
      are laid out in their place, and the octets behind them follow. */
  lemma Splice(f: Format, b: seq<Byte>, c: seq<Byte>, at: nat, ts: seq<Item>, k: nat, m: nat, news: seq<Item>)
    requires k <= m <= |ts| && LaidOut(f, b, at, ts) && at + Size(f, ts) <= |b|
    requires Size(f, ts[..k]) <= Size(f, ts[..m]) <= Size(f, ts)
    requires var p, q, end := at + Size(f, ts[..k]), at + Size(f, ts[..m]), at + Size(f, ts);
             var next := p + Size(f, news);
             && LaidOut(f, c, p, news) && p <= |c| && c[..p] == b[..p]
             && next + (end - q) <= |c| && c[next..next + (end - q)] == b[q..end]
    ensures LaidOut(f, c, at, ts[..k] + news + ts[m..])
    ensures Size(f, ts[..k] + news + ts[m..]) == Size(f, ts[..k]) + Size(f, news) + Size(f, ts[m..])
  {
    hide Here, ItemLen, LaidOut, Size;
    var q := at + Size(f, ts[..m]);
    SizeParts(f, ts, k, m);
    assert ts == ts[..m] + ts[m..] && ts[..m] == ts[..k] + ts[k..m];
    LaidOutAppend(f, b, at, ts[..m], ts[m..]);
    LaidOutAppend(f, b, at, ts[..k], ts[k..m]);
    KeptBelow(f, b, c, at, at + Size(f, ts[..k]), ts[..k]);
    Moved(f, b, q, c, at + Size(f, ts[..k]) + Size(f, news), ts[m..]);
    LaidOutAppend(f, c, at, ts[..k], news);
    LaidOutAppend(f, c, at, ts[..k] + news, ts[m..]);
  }

  lemma SizeOfOne(f: Format, t: Item)
    ensures Size(f, [t]) == ItemLen(f, t)
  {
    assert [t][1..] == [];
  }

  /** Replacing one item. */
  lemma ReplaceOne(f: Format, b: seq<Byte>, c: seq<Byte>, at: nat, ts: seq<Item>, k: nat, t: Item)
    requires k < |ts| && LaidOut(f, b, at, ts)
    requires var p := at + Size(f, ts[..k]);
             var next, next', end := p + ItemLen(f, ts[k]), p + Size(f, [t]), at + Size(f, ts);
             && LaidOut(f, c, p, [t]) && next <= end <= |b| && next' + (end - next) <= |c|
             && c[..p] == b[..p] && c[next'..next' + (end - next)] == b[next..end]
    ensures var ts' := ts[k := t];
            && LaidOut(f, c, at, ts')
            && Size(f, ts') + ItemLen(f, ts[k]) == Size(f, ts) + Size(f, [t])
            && Size(f, ts'[..k + 1]) == Size(f, ts[..k]) + Size(f, [t])
            && ts'[k + 1..] == ts[k + 1..]
  {
    hide Here, ItemLen, LaidOut, Size;
    var ts' := ts[k := t];
    SizeParts(f, ts, k, k + 1);
    SizeParts(f, ts', k, k + 1);
    assert ts[k..k + 1] == [ts[k]] && ts'[k..k + 1] == [t] && ts'[..k] == ts[..k];
    SizeOfOne(f, ts[k]);
    SizeOfOne(f, t);
    assert ts' == ts[..k] + [t] + ts[k + 1..];
    assert ts'[k + 1..] == ts[k + 1..];
    Splice(f, b, c, at, ts, k, k + 1, [t]);
  }

  /** Parsing undoes serialising. */
  lemma {:induction false} ParseSer(f: Format, ts: seq<Item>)
    requires AllFit(f, ts)
    ensures Parse(f, Ser(f, ts)) == Some(ts)
  {
    if ts != [] {
      var b := Ser(f, ts);
      var n := ItemLen(f, ts[0]);
      EncodedHeader(f, ts[0], Ser(f, ts[1..]));
      assert b[n..] == Ser(f, ts[1..]);
      ParseSer(f, ts[1..]);
      assert b[HeaderLen(f)..n] == ts[0].data;
      assert [ts[0]] + ts[1..] == ts;
    }
  }

  // The three layouts on the wire.

  lemma Headed(h: seq<Byte>, data: seq<Byte>)
    ensures (h + data)[|h|..] == data && forall k :: 0 <= k < |h| ==> (h + data)[k] == h[k]
  {
  }

  lemma ParseOne(f: Format, b: seq<Byte>, id: nat, data: seq<Byte>)
    requires |b| == HeaderLen(f) + |data| && b[HeaderLen(f)..] == data
    requires LenAt(f, b, 0) == |data| && IdAt(f, b, 0) == id
    ensures Parse(f, b) == Some([Item(id, data)])
  {
    assert b[|b|..] == [] && b[HeaderLen(f)..|b|] == data;
    assert Parse(f, b[|b|..]) == Some([]);
    assert [Item(id, data)] + [] == [Item(id, data)];
  }

  /** An information element: identifier and length, an octet each. */
  lemma ElementOnWire(id: Byte, n: Byte, data: seq<Byte>)
    requires n == |data|
    ensures Parse(Element, [id, n] + data) == Some([Item(id, data)])
  {
    hide Parse;
    Headed([id, n], data);
    ParseOne(Element, [id, n] + data, id, data);
  }

  /** A P2P attribute: an octet for the identifier, and the length in two, the low one first. */
  lemma AttrOnWire(id: Byte, lo: Byte, hi: Byte, data: seq<Byte>)
    requires lo + 256 * (hi as int) == |data|
    ensures Parse(P2pAttr, [id, lo, hi] + data) == Some([Item(id, data)])
  {
    hide Parse;
    Headed([id, lo, hi], data);
    ParseOne(P2pAttr, [id, lo, hi] + data, id, data);
  }

  /** A PPPoE tag (RFC 2516): type and length in two octets each, the high one first. */
  lemma TagOnWire(th: Byte, tl: Byte, hi: Byte, lo: Byte, data: seq<Byte>)
    requires lo + 256 * (hi as int) == |data|
    ensures Parse(PppoeTag, [th, tl, hi, lo] + data) == Some([Item(tl + 256 * (th as int), data)])
  {
    hide Parse;
    Headed([th, tl, hi, lo], data);
    ParseOne(PppoeTag, [th, tl, hi, lo] + data, tl + 256 * (th as int), data);
  }

  /** How many octets the first item of a buffer takes, and what it is. */
  function FrontLen(f: Format, b: seq<Byte>): nat
    requires |b| >= HeaderLen(f)
  {
    HeaderLen(f) + LenAt(f, b, 0)
  }

  function Front(f: Format, b: seq<Byte>): Item
    requires |b| >= HeaderLen(f) && |b| >= FrontLen(f, b)
  {
    Item(IdAt(f, b, 0), b[HeaderLen(f)..FrontLen(f, b)])
  }

  lemma ParsedFront(f: Format, b: seq<Byte>)
    requires Parse(f, b).Some? && b != []
    ensures |b| >= HeaderLen(f) && |b| >= FrontLen(f, b) > 0 && Parse(f, b[FrontLen(f, b)..]).Some?
    ensures Parse(f, b).value == [Front(f, b)] + Parse(f, b[FrontLen(f, b)..]).value
  {
    hide IdAt;
  }

  /** Serialising undoes parsing. */
  lemma {:induction false} SerParse(f: Format, b: seq<Byte>)
    requires Parse(f, b).Some?
    ensures AllFit(f, Parse(f, b).value) && Ser(f, Parse(f, b).value) == b
    decreases |b|
  {
    if b == [] {
      assert Parse(f, b).value == [];
    } else {
      hide Encode, Fits, FrontLen, Front, Parse, Ser;
      ParsedFront(f, b);
      var tail := b[FrontLen(f, b)..];
      SerParse(f, tail);
      EncodeOfRead(f, b);
      SerCons(f, Front(f, b), Parse(f, tail).value);
      assert b == b[..FrontLen(f, b)] + tail;
    }
  }

  lemma SerCons(f: Format, t: Item, ts: seq<Item>)
    requires Fits(f, t) && AllFit(f, ts)
    ensures AllFit(f, [t] + ts) && Ser(f, [t] + ts) == Encode(f, t) + Ser(f, ts)
  {
    assert ([t] + ts)[1..] == ts;
  }

  /** The item a parser reads at the front encodes back to the octets it was read from. */
  lemma EncodeOfRead(f: Format, b: seq<Byte>)
    requires |b| >= HeaderLen(f) && |b| >= FrontLen(f, b)
    ensures Fits(f, Front(f, b)) && Encode(f, Front(f, b)) == b[..FrontLen(f, b)]
  {
    assert Header(f, IdAt(f, b, 0), LenAt(f, b, 0)) == b[..HeaderLen(f)];
  }

  /** A laid-out list is what a parser finds in the octets it covers, and the only such list. */
  lemma {:induction false} LaidOutIsSer(f: Format, b: seq<Byte>, at: nat, ts: seq<Item>)
    requires LaidOut(f, b, at, ts)
    ensures AllFit(f, ts) && |Ser(f, ts)| == Size(f, ts)
    ensures at + Size(f, ts) <= |b| && b[at..at + Size(f, ts)] == Ser(f, ts)
    decreases |ts|
  {
    hide Encode, Fits, ItemLen;
    if ts != [] {
      var n := ItemLen(f, ts[0]);
      LaidOutIsSer(f, b, at + n, ts[1..]);
      assert b[at..at + Size(f, ts)] == b[at..at + n] + b[at + n..at + Size(f, ts)];
    }
  }

  /** Serialising lays a list out, wherever the octets are put. */
  lemma {:induction false} SerLaidOut(f: Format, b: seq<Byte>, at: nat, ts: seq<Item>)
    requires AllFit(f, ts) && at + |Ser(f, ts)| <= |b| && b[at..at + |Ser(f, ts)|] == Ser(f, ts)
    ensures LaidOut(f, b, at, ts) && |Ser(f, ts)| == Size(f, ts)
    decreases |ts|
  {
    if ts != [] {
      var n, m := ItemLen(f, ts[0]), |Ser(f, ts)|;
      assert b[at..at + n] == b[at..at + m][..n];
      assert b[at + n..at + m] == b[at..at + m][n..];
      SerLaidOut(f, b, at + n, ts[1..]);
    }
  }

  /** The copy of the platform's memmove: n octets from src to dst, overlapping or not. */
  method MemMove(a: array<Byte>, dst: nat, src: nat, n: nat)
    requires dst + n <= a.Length && src + n <= a.Length
    modifies a
    ensures a[..] == old(a[..dst]) + old(a[src..src + n]) + old(a[dst + n..])
  {
    forall i | 0 <= i < n {
      a[dst + i] := a[src + i];
    }
  }

  /** Closing the gap b[p..q] by moving b[q..end] down: what precedes p and follows end stays. */
  lemma GapClosed(b: seq<Byte>, c: seq<Byte>, p: nat, q: nat, end: nat, lo: nat, hi: nat)
    requires lo <= p <= q <= end <= hi <= |b|
    requires c == b[..p] + b[q..end] + b[p + (end - q)..]
    ensures |c| == |b| && c[..p + (end - q)] == b[..p] + b[q..end]
    ensures c[..lo] == b[..lo] && c[hi..] == b[hi..]
  {
  }

  /** memcpy from a separate buffer. */
  method MemCopy(a: array<Byte>, dst: nat, s: seq<Byte>)
    requires dst + |s| <= a.Length
    modifies a
    ensures a[..] == old(a[..dst]) + s + old(a[dst + |s|..])
  {
    forall i | 0 <= i < |s| {
      a[dst + i] := s[i];
    }
  }

  function Zeros(n: nat): (z: seq<Byte>)
    ensures |z| == n && forall i :: 0 <= i < n ==> z[i] == 0
  {
    seq(n, _ => 0)
  }

  /** memset to zero. */
  method MemZero(a: array<Byte>, at: nat, n: nat)
    requires at + n <= a.Length
    modifies a
    ensures a[..] == old(a[..at]) + Zeros(n) + old(a[at + n..])
  {
    forall i | 0 <= i < n {
      a[at + i] := 0;
    }
  }
}
