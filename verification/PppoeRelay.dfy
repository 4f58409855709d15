/** The PPPoE relay-tag rewrites of the NAT2.5 bridge (core/rtw_br_ext.c): on the way out a client's
    MAC address is hidden in a relay-session-id tag of its discovery frames, on the way back the tag
    says where the answer belongs and is taken off again (RFC 2516, Appendix A). */
module PppoeRelay {
  import opened Basics
  import opened Tlv
  import opened IeEdit

  const RELAY_SID: nat := 0x0110
  const MAGIC: seq<Byte> := [0x81, 0x86]
  const TAG_HDR_LEN: nat := 4
  const MAGIC_CODE_LEN: nat := 2
  const RTL_RELAY_TAG_LEN: nat := 6
  const TAG_BUF_SIZE: nat := 40

  /** Offsets in the frame: Ethernet header of 14 octets, PPPoE header of 6, its length field last. */
  const LENGTH_AT: nat := 18
  const TAGS_AT: nat := 20

  function RelayTag(mac: Mac, prior: seq<Byte>): Item {
    Item(RELAY_SID, MAGIC + mac + prior)
  }

  /** A 16-bit field read without ntohs, on a host of either byte order. */
  function HostRead16(bigEndian: bool, first: Byte, second: Byte): nat {
    if bigEndian then (first as int) * 256 + second else (second as int) * 256 + first
  }

  /** How much room __nat25_add_pppoe_tag makes for a tag with a value of n octets: it reads the length without
      ntohs, although it was stored with htons. */
  function RoomFor(bigEndian: bool, n: nat): nat {
    HostRead16(bigEndian, (n / 256) % 256, n % 256) + TAG_HDR_LEN
  }

  /** For the relay tags this driver builds that is right exactly on big-endian hosts; on the others it is more
      than the buffer the tag is in has octets. */
  lemma RawTagLength(bigEndian: bool, n: nat)
    requires MAGIC_CODE_LEN + RTL_RELAY_TAG_LEN <= n <= TAG_BUF_SIZE - TAG_HDR_LEN
    ensures RoomFor(bigEndian, n) == n + TAG_HDR_LEN <==> bigEndian
    ensures RoomFor(bigEndian, n) >= n + TAG_HDR_LEN
    ensures !bigEndian ==> RoomFor(bigEndian, n) == 256 * n + TAG_HDR_LEN > TAG_BUF_SIZE
  {
    assert n / 256 == 0 && n % 256 == n;
  }

  /** The octets hold a discovery frame of `len` octets with the tags ts. */
  ghost predicate Frame(b: seq<Byte>, len: nat, ts: seq<Item>) {
    && |b| < 65536
    && TAGS_AT + Size(PppoeTag, ts) <= len <= |b|
    && (b[LENGTH_AT] as int) * 256 + b[LENGTH_AT + 1] == Size(PppoeTag, ts)
    && LaidOut(PppoeTag, b, TAGS_AT, ts)
  }

  /** A discovery frame on the wire (RFC 2516): 14 octets of Ethernet header, version and type, code, session id, the
      length of the tags with its high octet first, and the tags. */
  lemma FrameOnWire(eth: seq<Byte>, ver: Byte, code: Byte, sid: seq<Byte>, hi: Byte, lo: Byte, ts: seq<Item>)
    requires |eth| == 14 && |sid| == 2 && AllFit(PppoeTag, ts)
    requires 256 * (hi as int) + lo == |Ser(PppoeTag, ts)| < 65516
    ensures var b := eth + [ver, code] + sid + [hi, lo] + Ser(PppoeTag, ts); Frame(b, |b|, ts)
  {
    hide Ser;
    var s := Ser(PppoeTag, ts);
    var b := eth + [ver, code] + sid + [hi, lo] + s;
    assert b[18] == hi && b[19] == lo && b[20..] == s;
    SerLaidOut(PppoeTag, b, 20, ts);
  }

  /** The relay tag on the wire: type 0x0110, length, the magic octets, the MAC address of the client, and the value
      of the client's own relay tag. */
  lemma RelayTagOnWire(mac: Mac, prior: seq<Byte>, hi: Byte, lo: Byte)
    requires 256 * (hi as int) + lo == 8 + |prior|
    ensures Parse(PppoeTag, [0x01, 0x10, hi, lo, 0x81, 0x86] + mac + prior) == Some([RelayTag(mac, prior)])
  {
    hide Parse;
    var data: seq<Byte> := [0x81, 0x86] + mac + prior;
    assert [0x01, 0x10, hi, lo, 0x81, 0x86] + mac + prior == [0x01, 0x10, hi, lo] + data;
    TagOnWire(0x01, 0x10, hi, lo, data);
  }

  /** Tags and relay value a client's PADI or PADR is left with when its relay tag is taken out. */
  function Base(ts: seq<Item>): seq<Item> {
    var k := FirstMatch(ts, RELAY_SID, []);
    if k < |ts| then ts[..k] + ts[k + 1..] else ts
  }

  function OldRelay(ts: seq<Item>): seq<Byte> {
    var k := FirstMatch(ts, RELAY_SID, []);
    if k < |ts| then ts[k].data else []
  }

  /** The tag list sent on for a client's discovery frame. */
  function Tagged(ts: seq<Item>, mac: Mac): seq<Item> {
    [RelayTag(mac, OldRelay(ts))] + Base(ts)
  }

  /** What an answer is turned into: the client it belongs to and the tags it is left with. */
  function Answered(ts: seq<Item>): Option<(Mac, seq<Item>)> {
    var k := FirstMatch(ts, RELAY_SID, []);
    if k == |ts| || |ts[k].data| < 8 || ts[k].data[..2] != MAGIC then None
    else
      var left := ts[k].data[8..];
      Some((ts[k].data[2..8], ts[..k] + (if left == [] then [] else [Item(RELAY_SID, left)]) + ts[k + 1..]))
  }

  lemma FirstMatchAfter(pre: seq<Item>, t: Item, post: seq<Item>)
    requires t.id == RELAY_SID && forall i :: 0 <= i < |pre| ==> pre[i].id != RELAY_SID
    ensures FirstMatch(pre + [t] + post, RELAY_SID, []) == |pre|
  {
    var ts := pre + [t] + post;
    var k := FirstMatch(ts, RELAY_SID, []);
    assert ts[|pre|] == t;
    assert forall i :: 0 <= i < |pre| ==> ts[i] == pre[i];
  }

  /** The round trip. Whatever tags the access concentrator puts before and behind the relay tag it
      echoes, the answer goes to the client that asked, and carries that client's own relay tag in its
      place when it had a non-empty one, and none otherwise. */
  lemma RelayRoundTrip(ts: seq<Item>, mac: Mac, pre: seq<Item>, post: seq<Item>)
    requires forall i :: 0 <= i < |pre| ==> pre[i].id != RELAY_SID
    ensures var mine := if OldRelay(ts) == [] then [] else [Item(RELAY_SID, OldRelay(ts))];
            Answered(pre + [Tagged(ts, mac)[0]] + post) == Some((mac, pre + mine + post))
  {
    var t := RelayTag(mac, OldRelay(ts));
    var echo := pre + [t] + post;
    FirstMatchAfter(pre, t, post);
    assert echo[|pre|] == t && echo[..|pre|] == pre && echo[|pre| + 1..] == post;
    assert t.data[..2] == MAGIC && t.data[2..8] == mac && t.data[8..] == OldRelay(ts);
  }

  /** An answer that echoes the whole tag list: the client's tags come back with its non-empty relay
      tag moved to the front. */
  lemma EchoRoundTrip(ts: seq<Item>, mac: Mac)
    ensures var mine := if OldRelay(ts) == [] then [] else [Item(RELAY_SID, OldRelay(ts))];
            Answered(Tagged(ts, mac)) == Some((mac, mine + Base(ts)))
  {
    RelayRoundTrip(ts, mac, [], Base(ts));
    assert [] + [Tagged(ts, mac)[0]] + Base(ts) == Tagged(ts, mac);
    var mine := if OldRelay(ts) == [] then [] else [Item(RELAY_SID, OldRelay(ts))];
    assert [] + mine + Base(ts) == mine + Base(ts);
  }

  /** The tag list survives unchanged exactly when the client had no relay tag, or had one, non-empty,
      in front. */
  lemma EchoIsIdentityIff(ts: seq<Item>, mac: Mac)
    ensures Answered(Tagged(ts, mac)) == Some((mac, ts)) <==>
            (FirstMatch(ts, RELAY_SID, []) == |ts| || (FirstMatch(ts, RELAY_SID, []) == 0 && ts[0].data != []))
  {
    hide Answered, Tagged, FirstMatch, Matches;
    EchoRoundTrip(ts, mac);
    RelayIsFirst(ts);
    var k := FirstMatch(ts, RELAY_SID, []);
    if k < |ts| {
      FrontIsIdentityIff(ts, k);
    } else {
      assert [] + ts == ts;
    }
  }

  lemma MatchIsId(t: Item)
    ensures Matches(t, RELAY_SID, []) <==> t.id == RELAY_SID
  {
  }

  lemma RelayIsFirst(ts: seq<Item>)
    ensures var k := FirstMatch(ts, RELAY_SID, []);
            k < |ts| ==> ts[k].id == RELAY_SID && (k > 0 ==> ts[0].id != RELAY_SID)
  {
    hide FirstMatch, Matches;
    var k := FirstMatch(ts, RELAY_SID, []);
    if k > 0 {
      assert !Matches(ts[0], RELAY_SID, []);
      MatchIsId(ts[0]);
    }
    if k < |ts| {
      MatchIsId(ts[k]);
    }
  }

  /** Moving the k-th tag to the front, or dropping it when it is empty. */
  lemma FrontIsIdentityIff(ts: seq<Item>, k: nat)
    requires k < |ts| && ts[k].id == RELAY_SID && (k > 0 ==> ts[0].id != RELAY_SID)
    ensures var mine := if ts[k].data == [] then [] else [Item(RELAY_SID, ts[k].data)];
            mine + (ts[..k] + ts[k + 1..]) == ts <==> k == 0 && ts[0].data != []
  {
    var mine := if ts[k].data == [] then [] else [Item(RELAY_SID, ts[k].data)];
    var all := mine + (ts[..k] + ts[k + 1..]);
    if ts[k].data == [] {
      assert |all| == |ts| - 1;
    } else if k == 0 {
      assert all == ts;
    } else {
      assert all[0].id == RELAY_SID;
    }
  }

  /** The octets with a 16-bit number written into them, most significant octet first. */
  function Put16(d: seq<Byte>, at: nat, n: nat): (r: seq<Byte>)
    requires at + 2 <= |d| && n < 65536
    ensures |r| == |d| && r[..at] == d[..at] && r[at + 2..] == d[at + 2..]
    ensures r[at] == n / 256 && r[at + 1] == n % 256
  {
    d[at := n / 256][at + 1 := n % 256]
  }

  lemma PutsCommute(d: seq<Byte>, at: nat, n: nat, to: nat, m: nat)
    requires at + 2 <= to && to + 2 <= |d| && n < 65536 && m < 65536
    ensures Put16(Put16(d, at, n), to, m) == Put16(Put16(d, to, m), at, n)
  {
  }

  /** Writing the length field over laid-out tags completes a frame. */
  lemma LengthSet(d: seq<Byte>, c: seq<Byte>, len: nat, ts: seq<Item>, n: nat)
    requires LaidOut(PppoeTag, d, TAGS_AT, ts) && n == Size(PppoeTag, ts)
    requires TAGS_AT + n <= len <= |d| < 65536
    requires c == Put16(d, LENGTH_AT, n)
    ensures Frame(c, len, ts) && c[..LENGTH_AT] == d[..LENGTH_AT]
  {
    assert c[TAGS_AT..TAGS_AT + n] == d[TAGS_AT..TAGS_AT + n];
    Moved(PppoeTag, d, TAGS_AT, c, TAGS_AT, ts);
  }

  lemma TagsBounds(b: seq<Byte>, len: nat, ts: seq<Item>, k: nat)
    requires Frame(b, len, ts) && k < |ts|
    ensures TAGS_AT + Size(PppoeTag, ts) <= len <= |b| < 65536
    ensures (b[LENGTH_AT] as int) * 256 + b[LENGTH_AT + 1] == Size(PppoeTag, ts)
    ensures TAGS_AT + Size(PppoeTag, ts[..k]) + ItemLen(PppoeTag, ts[k]) <= TAGS_AT + Size(PppoeTag, ts)
    ensures LenAt(PppoeTag, b, TAGS_AT + Size(PppoeTag, ts[..k])) == |ts[k].data|
    ensures var p := TAGS_AT + Size(PppoeTag, ts[..k]);
            b[p + TAG_HDR_LEN..p + TAG_HDR_LEN + |ts[k].data|] == ts[k].data
  {
    hide LaidOut, Size, Encode, Header;
    assert ts == ts[..k] + ts[k..];
    LaidOutAppend(PppoeTag, b, TAGS_AT, ts[..k], ts[k..]);
    Advance(PppoeTag, b, TAGS_AT, ts, k);
  }

  /** Pulling n octets out from behind the first p of a frame, seen up to an earlier end. */
  lemma PulledPrefix(b: seq<Byte>, d: seq<Byte>, p: nat, n: nat, end: nat, len: nat)
    requires p + n <= end <= len <= |b| && len - n <= |d| && d[..len - n] == b[..p] + b[p + n..len]
    ensures d[..end - n] == b[..p] + b[p + n..end]
  {
    assert d[..end - n] == d[..len - n][..end - n];
  }

  /** Taking the k-th tag out of the octets. */
  lemma TagCut(b: seq<Byte>, d: seq<Byte>, len: nat, ts: seq<Item>, k: nat)
    requires Frame(b, len, ts) && k < |ts| && |d| == |b|
    requires var p, n := TAGS_AT + Size(PppoeTag, ts[..k]), ItemLen(PppoeTag, ts[k]);
             p + n <= TAGS_AT + Size(PppoeTag, ts) && d[..len - n] == b[..p] + b[p + n..len]
    ensures LaidOut(PppoeTag, d, TAGS_AT, ts[..k] + ts[k + 1..])
    ensures Size(PppoeTag, ts[..k] + ts[k + 1..]) == Size(PppoeTag, ts) - ItemLen(PppoeTag, ts[k])
    ensures d[..LENGTH_AT] == b[..LENGTH_AT]
  {
    hide LaidOut, Size, ItemLen;
    var p, n := TAGS_AT + Size(PppoeTag, ts[..k]), ItemLen(PppoeTag, ts[k]);
    PulledPrefix(b, d, p, n, TAGS_AT + Size(PppoeTag, ts), len);
    CutOut(PppoeTag, b, d, TAGS_AT, ts, k);
    LaidOutAppend(PppoeTag, d, TAGS_AT, ts[..k], ts[k + 1..]);
    SharedPrefix(b, d, p, b[p + n..len], 0, LENGTH_AT);
    assert d[..LENGTH_AT] == d[0..LENGTH_AT];
  }

  /** Taking the k-th tag out and lowering the length field. */
  lemma TagPulled(b: seq<Byte>, d: seq<Byte>, c: seq<Byte>, len: nat, ts: seq<Item>, k: nat)
    requires Frame(b, len, ts) && k < |ts| && |d| == |b|
    requires var p, n := TAGS_AT + Size(PppoeTag, ts[..k]), ItemLen(PppoeTag, ts[k]);
             var v := Size(PppoeTag, ts) - n;
             && p + n <= TAGS_AT + Size(PppoeTag, ts) && d[..len - n] == b[..p] + b[p + n..len]
             && c == Put16(d, LENGTH_AT, v)
    ensures Frame(c, len - ItemLen(PppoeTag, ts[k]), ts[..k] + ts[k + 1..])
    ensures c[..LENGTH_AT] == b[..LENGTH_AT]
  {
    hide LaidOut, Size, ItemLen, Put16;
    TagCut(b, d, len, ts, k);
    LengthSet(d, c, len - ItemLen(PppoeTag, ts[k]), ts[..k] + ts[k + 1..], Size(PppoeTag, ts) - ItemLen(PppoeTag,
              ts[k]));
  }

  /** Octets e stand in front of the old tags, and the length field counts both. */
  ghost predicate InFront(c: seq<Byte>, e: seq<Byte>, tags: seq<Byte>) {
    && TAGS_AT + |e| + |tags| <= |c| && c[TAGS_AT..TAGS_AT + |e| + |tags|] == e + tags
    && (c[LENGTH_AT] as int) * 256 + c[LENGTH_AT + 1] == |e| + |tags|
  }

  /** Putting a tag in front of the others. */
  lemma TagAdded(b: seq<Byte>, c: seq<Byte>, len: nat, ts: seq<Item>, tag: Item)
    requires Frame(b, len, ts) && Fits(PppoeTag, tag) && |c| == |b| && len + ItemLen(PppoeTag, tag) <= |b|
    requires InFront(c, Encode(PppoeTag, tag), b[TAGS_AT..TAGS_AT + Size(PppoeTag, ts)])
    ensures Frame(c, len + ItemLen(PppoeTag, tag), [tag] + ts)
  {
    var n, size := ItemLen(PppoeTag, tag), Size(PppoeTag, ts);
    FrontAndRest(c, Encode(PppoeTag, tag), b[TAGS_AT..TAGS_AT + size]);
    Moved(PppoeTag, b, TAGS_AT, c, TAGS_AT + n, ts);
    assert ([tag] + ts)[1..] == ts;
    hide Encode, Fits, ItemLen;
  }

  lemma FrontAndRest(c: seq<Byte>, e: seq<Byte>, tags: seq<Byte>)
    requires InFront(c, e, tags)
    ensures TAGS_AT + |e| + |tags| <= |c|
    ensures c[TAGS_AT..TAGS_AT + |e|] == e && c[TAGS_AT + |e|..TAGS_AT + |e| + |tags|] == tags
  {
    Slice(c, TAGS_AT, |e| + |tags|, 0, |e|);
    Slice(c, TAGS_AT, |e| + |tags|, |e|, |e| + |tags|);
  }

  /** What stands in front of the old tags when the room is too large: the tag and octets from beyond its buffer. */
  function Overread(tag: Item, beyond: seq<Byte>): seq<Byte>
    requires Fits(PppoeTag, tag)
  {
    var more := RoomFor(false, |tag.data|) - ItemLen(PppoeTag, tag);
    Encode(PppoeTag, tag) + if 0 <= more <= |beyond| then beyond[..more] else []
  }

  lemma AnsweredCases(ts: seq<Item>)
    ensures var k := FirstMatch(ts, RELAY_SID, []);
            if k == |ts| || |ts[k].data| < 8 || ts[k].data[..2] != MAGIC then Answered(ts).None?
            else
              && ts[k].id == RELAY_SID && Answered(ts).Some? && Answered(ts).value.0 == ts[k].data[2..8]
              && Answered(ts).value.1 == if |ts[k].data| == 8 then ts[..k] + ts[k + 1..]
                                         else ts[k := Item(RELAY_SID, ts[k].data[8..])]
  {
    var k := FirstMatch(ts, RELAY_SID, []);
    if k < |ts| && |ts[k].data| > 8 {
      assert ts[k := Item(RELAY_SID, ts[k].data[8..])] == ts[..k] + [Item(RELAY_SID, ts[k].data[8..])] + ts[k + 1..];
    }
  }

  /** Where the magic code and the MAC stand in a relay tag. */
  lemma TagBody(b: seq<Byte>, ptr: nat, body: seq<Byte>)
    requires |body| >= 8 && ptr + TAG_HDR_LEN + |body| <= |b|
    requires b[ptr + TAG_HDR_LEN..ptr + TAG_HDR_LEN + |body|] == body
    ensures b[ptr + TAG_HDR_LEN..ptr + TAG_HDR_LEN + 2] == body[..2]
    ensures b[ptr + TAG_HDR_LEN + 2..ptr + TAG_HDR_LEN + 8] == body[2..8]
  {
    Slice(b, ptr + TAG_HDR_LEN, |body|, 0, 2);
    Slice(b, ptr + TAG_HDR_LEN, |body|, 2, 8);
  }

  lemma HeaderWritten(b: seq<Byte>, c: seq<Byte>, len: nat, ts: seq<Item>, mac: Mac)
    requires Frame(b, len, ts) && c == b[..0] + mac + b[6..]
    ensures Frame(c, len, ts) && c[..6] == mac && c[6..] == b[6..]
  {
    var size := Size(PppoeTag, ts);
    assert c[TAGS_AT..TAGS_AT + size] == b[TAGS_AT..TAGS_AT + size];
    Moved(PppoeTag, b, TAGS_AT, c, TAGS_AT, ts);
  }

  /** An item is where its fields and its value are. */
  lemma FieldsMakeItem(e: seq<Byte>, p: nat, t: Item)
    requires Fits(PppoeTag, t) && p + 4 + |t.data| <= |e|
    requires e[p..p + 2] == [t.id / 256, t.id % 256]
    requires e[p + 2] == |t.data| / 256 && e[p + 3] == |t.data| % 256 && e[p + 4..p + 4 + |t.data|] == t.data
    ensures Here(PppoeTag, e, p, t)
  {
    var n := |t.data|;
    assert e[p..p + 4 + n] == e[p..p + 2] + [e[p + 2], e[p + 3]] + e[p + 4..p + 4 + n];
  }

  /** The id and the end of the value of an item. */
  lemma ItemParts(b: seq<Byte>, p: nat, t: Item, i: nat)
    requires Here(PppoeTag, b, p, t) && i <= |t.data|
    ensures b[p..p + 2] == [t.id / 256, t.id % 256]
    ensures b[p + 4 + i..p + 4 + |t.data|] == t.data[i..]
  {
    var n := 4 + |t.data|;
    Slice(b, p, n, 0, 2);
    Slice(b, p, n, 4 + i, n);
    var all := b[p..p + n];
    assert all == Encode(PppoeTag, t);
    assert all[0..2] == [all[0], all[1]];
    assert all[4 + i..n] == t.data[i..];
  }

  /** The octets of a relay tag that has lost the first eight octets of its value. */
  lemma RelayItem(b: seq<Byte>, e: seq<Byte>, p: nat, body: seq<Byte>)
    requires 8 < |body| < 65536 && Here(PppoeTag, b, p, Item(RELAY_SID, body))
    requires var m := |body| - 8;
             && p + 4 + m <= |e| && e[p..p + 2] == b[p..p + 2]
             && e[p + 2] == m / 256 && e[p + 3] == m % 256
             && e[p + 4..p + 4 + m] == b[p + 12..p + 12 + m]
    ensures var t := Item(RELAY_SID, body[8..]);
            LaidOut(PppoeTag, e, p, [t]) && Size(PppoeTag, [t]) == 4 + |body| - 8
  {
    hide Here;
    var t := Item(RELAY_SID, body[8..]);
    HereBounds(b, p, Item(RELAY_SID, body));
    ItemParts(b, p, Item(RELAY_SID, body), 8);
    FieldsMakeItem(e, p, t);
    assert [t][1..] == [];
  }

  lemma HereBounds(b: seq<Byte>, p: nat, t: Item)
    requires Here(PppoeTag, b, p, t)
    ensures p + 4 + |t.data| <= |b|
  {
  }

  lemma RelayShortened(b: seq<Byte>, d: seq<Byte>, c: seq<Byte>, len: nat, ts: seq<Item>, k: nat)
    requires Frame(b, len, ts) && k < |ts| && ts[k].id == RELAY_SID && |ts[k].data| > 8 && |d| == |b|
    requires var p, v, m := TAGS_AT + Size(PppoeTag, ts[..k]), Size(PppoeTag, ts) - 8, |ts[k].data| - 8;
             && p + 4 + |ts[k].data| <= TAGS_AT + Size(PppoeTag, ts) && m < 65536
             && d[..len - 8] == b[..p + 4] + b[p + 12..len]
             && c == Put16(Put16(d, LENGTH_AT, v), p + 2, m)
    ensures Frame(c, len - 8, ts[k := Item(RELAY_SID, ts[k].data[8..])])
    ensures c[..LENGTH_AT] == b[..LENGTH_AT]
  {
    hide LaidOut, Size, Encode, Put16;
    var p, end, m := TAGS_AT + Size(PppoeTag, ts[..k]), TAGS_AT + Size(PppoeTag, ts), |ts[k].data| - 8;
    var t, e := Item(RELAY_SID, ts[k].data[8..]), Put16(d, p + 2, m);
    PulledPrefix(b, d, p + 4, 8, end, len);
    ShortenedOctets(b, d, e, p, |ts[k].data|, end);
    TagIsHere(b, len, ts, k);
    RelayItem(b, e, p, ts[k].data);
    ReplaceOne(PppoeTag, b, e, TAGS_AT, ts, k, t);
    PutsCommute(d, LENGTH_AT, Size(PppoeTag, ts) - 8, p + 2, m);
    LengthSet(e, c, len - 8, ts[k := t], end - TAGS_AT - 8);
    assert e[..LENGTH_AT] == e[..p][..LENGTH_AT] == b[..LENGTH_AT];
  }

  lemma TagIsHere(b: seq<Byte>, len: nat, ts: seq<Item>, k: nat)
    requires Frame(b, len, ts) && k < |ts|
    ensures Here(PppoeTag, b, TAGS_AT + Size(PppoeTag, ts[..k]), ts[k])
  {
    hide Here;
    assert ts == ts[..k] + ts[k..];
    LaidOutAppend(PppoeTag, b, TAGS_AT, ts[..k], ts[k..]);
  }

  /** The octets around a shortened relay tag: b before, d after the pull, e with the new tag length. */
  lemma ShortenedOctets(b: seq<Byte>, d: seq<Byte>, e: seq<Byte>, p: nat, n: nat, end: nat)
    requires 8 < n < 65536 && p + 4 + n <= end <= |b| == |d|
    requires d[..end - 8] == b[..p + 4] + b[p + 12..end]
    requires e == Put16(d, p + 2, n - 8)
    ensures e[..p] == b[..p] && e[p..p + 2] == b[p..p + 2]
    ensures e[p + 4..p + 4 + (n - 8)] == b[p + 12..p + 12 + (n - 8)]
    ensures e[p + 4 + (n - 8)..end - 8] == b[p + 4 + n..end]
  {
    var g := d[..end - 8];
    assert e[..p] == g[..p] && e[p..p + 2] == g[p..p + 2];
    assert g[p + 4..] == b[p + 12..end];
    assert e[p + 4..end - 8] == g[p + 4..];
    Slice(e, p + 4, end - 8 - (p + 4), 0, n - 8);
    Slice(e, p + 4, end - 8 - (p + 4), n - 8, end - 8 - (p + 4));
    Slice(b, p + 12, end - (p + 12), 0, n - 8);
    Slice(b, p + 12, end - (p + 12), n - 8, end - (p + 12));
  }

  /** The tags moved up in c, and e written in front of them in d. */
  lemma TwoCopies(b: seq<Byte>, c: seq<Byte>, d: seq<Byte>, e: seq<Byte>, size: nat)
    requires TAGS_AT + |e| + size <= |b|
    requires c == b[..TAGS_AT + |e|] + b[TAGS_AT..TAGS_AT + size] + b[TAGS_AT + |e| + size..]
    requires d == c[..TAGS_AT] + e + c[TAGS_AT + |e|..]
    ensures |d| == |b| && d[TAGS_AT..TAGS_AT + |e| + size] == e + b[TAGS_AT..TAGS_AT + size]
    ensures d[..LENGTH_AT] == b[..LENGTH_AT]
  {
    assert c[TAGS_AT + |e|..][..size] == b[TAGS_AT..TAGS_AT + size];
  }

  /** The octets hold a relay tag with more behind it, and the tags ts after that. */
  ghost predicate Spoilt(c: seq<Byte>, tag: Item, beyond: seq<Byte>, ts: seq<Item>) {
    && Fits(PppoeTag, tag)
    && exists tags :: |tags| == Size(PppoeTag, ts) && LaidOut(PppoeTag, tags, 0, ts)
                      && InFront(c, Overread(tag, beyond), tags)
  }

  lemma SpoiltBy(c: seq<Byte>, tag: Item, beyond: seq<Byte>, ts: seq<Item>, tags: seq<Byte>)
    requires Fits(PppoeTag, tag) && |tags| == Size(PppoeTag, ts) && LaidOut(PppoeTag, tags, 0, ts)
    requires InFront(c, Overread(tag, beyond), tags)
    ensures Spoilt(c, tag, beyond, ts)
  {
  }

  /** How many octets an old relay tag takes. */
  function OldSize(ts: seq<Item>): nat {
    if FirstMatch(ts, RELAY_SID, []) < |ts| then TAG_HDR_LEN + |OldRelay(ts)| else 0
  }

  class Skb {
    const bigEndian: bool          // of the host
    const data: array<Byte>
    var len: nat

    ghost predicate Holds(ts: seq<Item>)
      reads this, data
    {
      Frame(data[..], len, ts)
    }

    /** __nat25_find_pppoe_tag. */
    method FindTag(tagType: nat, ghost ts: seq<Item>) returns (pos: Option<nat>)
      requires Holds(ts)
      ensures var k := FirstMatch(ts, tagType, []);
              && (pos.None? <==> k == |ts|)
              && (pos.Some? ==> pos.value == TAGS_AT + Size(PppoeTag, ts[..k]))
    {
      hide Scanned, LaidOut, Matches, FirstMatch, Size;
      var cur := TAGS_AT;
      ghost var n := 0;
      ScanFirst(PppoeTag, data[..], TAGS_AT, ts, tagType, []);
      while cur - TAGS_AT < (data[LENGTH_AT] as int) * 256 + data[LENGTH_AT + 1]
        invariant Scanned(PppoeTag, data[..], TAGS_AT, ts, n, tagType, []) && n <= |ts|
        invariant cur == TAGS_AT + Size(PppoeTag, ts[..n])
        decreases TAGS_AT + Size(PppoeTag, ts) - cur
      {
        ScanNext(PppoeTag, data[..], TAGS_AT, ts, n, tagType, []);
        var foundType := (data[cur] as int) * 256 + data[cur + 1];
        var tagLen := (data[cur + 2] as int) * 256 + data[cur + 3];
        if foundType == tagType {
          return Some(cur);
        }
        cur := cur + TAG_HDR_LEN + tagLen;
        n := n + 1;
      }
      ScanEnd(PppoeTag, data[..], TAGS_AT, ts, n, tagType, []);
      return None;
    }

    /** skb_pull_and_merge. */
    method PullAndMerge(src: nat, n: nat) returns (ok: bool)
      requires len <= data.Length
      modifies this`len, data
      ensures ok <==> src + n <= old(len) && n <= old(len)
      ensures if ok then len == old(len) - n && data[..len] == old(data[..src] + data[src + n..len])
              else len == old(len) && data[..] == old(data[..])
    {
      if src + n > len || len < n {
        return false;
      }
      var tailLen := len - (src + n);
      ghost var b := data[..];
      if tailLen > 0 {
        MemMove(data, src, src + n, tailLen);
        GapClosed(b, data[..], src, src + n, len, src, len);
      } else {
        assert b[..src] + b[src + n..len] == b[..src];
      }
      len := len - n;
      return true;
    }

    method Write16(at: nat, n: nat)
      requires n < 65536 && at + 2 <= data.Length
      modifies data
      ensures data[..] == Put16(old(data[..]), at, n)
    {
      data[at] := n / 256;
      data[at + 1] := n % 256;
    }

    method SetLength(n: nat)
      requires n < 65536 && TAGS_AT <= data.Length
      modifies data
      ensures data[..] == Put16(old(data[..]), LENGTH_AT, n)
    {
      Write16(LENGTH_AT, n);
    }

    /** Moving the tags up and copying new octets in front of them, and setting the length. */
    method PutInFront(e: seq<Byte>, size: nat)
      requires TAGS_AT + |e| + size <= data.Length < 65536
      modifies data
      ensures InFront(data[..], e, old(data[TAGS_AT..TAGS_AT + size])) && data[..LENGTH_AT] == old(data[..LENGTH_AT])
    {
      ghost var b := data[..];
      MemMove(data, TAGS_AT + |e|, TAGS_AT, size);
      ghost var c := data[..];
      MemCopy(data, TAGS_AT, e);
      TwoCopies(b, c, data[..], e, size);
      SetLength(|e| + size);
    }

    /** __nat25_add_pppoe_tag: false stands for the lack of room at the tail. The octets of memory beyond the
        tag are copied too as far as the room that has been made goes. */
    method AddTag(tag: Item, beyond: seq<Byte>, ghost ts: seq<Item>) returns (ok: bool)
      requires Holds(ts) && Fits(PppoeTag, tag) && 8 <= |tag.data| <= TAG_BUF_SIZE - TAG_HDR_LEN
      requires |beyond| >= 65536
      modifies this`len, data
      ensures ok <==> data.Length - old(len) >= RoomFor(bigEndian, |tag.data|)
      ensures len == old(len) + if ok then RoomFor(bigEndian, |tag.data|) else 0
      ensures ok && bigEndian ==> Holds([tag] + ts)
      ensures ok && !bigEndian ==>
                InFront(data[..], Overread(tag, beyond), old(data[TAGS_AT..TAGS_AT + Size(PppoeTag, ts)]))
      ensures !ok ==> data[..] == old(data[..])
      ensures data[..LENGTH_AT] == old(data[..LENGTH_AT])
    {
      hide LaidOut, Size, Encode, RoomFor, InFront;
      RawTagLength(bigEndian, |tag.data|);
      var dataLen := RoomFor(bigEndian, |tag.data|);
      if data.Length - len < dataLen {
        return false;
      }
      len := len + dataLen;
      var size := (data[LENGTH_AT] as int) * 256 + data[LENGTH_AT + 1];
      ghost var b := data[..];
      var e := Encode(PppoeTag, tag) + beyond[..dataLen - TAG_HDR_LEN - |tag.data|];
      PutInFront(e, size);
      if bigEndian {
        assert e == Encode(PppoeTag, tag);
        TagAdded(b, data[..], len - dataLen, ts, tag);
      }
      return true;
    }

    /** Taking out the relay tag at `pos`: skb_pull_and_merge and the lowered length field. */
    method TakeOut(pos: nat, n: nat, ghost ts: seq<Item>, ghost k: nat)
      requires Holds(ts) && k < |ts| && pos == TAGS_AT + Size(PppoeTag, ts[..k]) && n == ItemLen(PppoeTag, ts[k])
      modifies this`len, data
      ensures Holds(ts[..k] + ts[k + 1..]) && len == old(len) - n
      ensures data[..LENGTH_AT] == old(data[..LENGTH_AT])
    {
      hide LaidOut, Size, Encode, Put16;
      ghost var b := data[..];
      TagsBounds(b, len, ts, k);
      var size := (data[LENGTH_AT] as int) * 256 + data[LENGTH_AT + 1];
      var pulled := PullAndMerge(pos, n);
      ghost var d := data[..];
      assert d[LENGTH_AT..TAGS_AT] == d[..len][LENGTH_AT..TAGS_AT];
      SetLength(size - n);
      TagPulled(b, d, data[..], len + n, ts, k);
    }

    /** The value of an old relay tag, which is taken out; false for one that is too long. */
    method TakeOld(ghost ts: seq<Item>) returns (ok: bool, prior: seq<Byte>)
      requires Holds(ts)
      modifies this`len, data
      ensures ok <==> |OldRelay(ts)| + 12 <= TAG_BUF_SIZE
      ensures ok ==> Holds(Base(ts)) && prior == OldRelay(ts) && len == old(len) - OldSize(ts)
      ensures !ok ==> len == old(len) && data[..] == old(data[..])
      ensures data[..LENGTH_AT] == old(data[..LENGTH_AT])
    {
      hide LaidOut, Size, Encode, FirstMatch;
      ok, prior := true, [];
      var pos := FindTag(RELAY_SID, ts);
      if pos.Some? {
        ghost var k := FirstMatch(ts, RELAY_SID, []);
        TagsBounds(data[..], len, ts, k);
        var oldLen := (data[pos.value + 2] as int) * 256 + data[pos.value + 3];
        if oldLen + TAG_HDR_LEN + MAGIC_CODE_LEN + RTL_RELAY_TAG_LEN > TAG_BUF_SIZE {
          return false, [];
        }
        prior := data[pos.value + TAG_HDR_LEN..pos.value + TAG_HDR_LEN + oldLen];
        TakeOut(pos.value, TAG_HDR_LEN + oldLen, ts, k);
      }
    }

    /** NAT25_INSERT of a PADI or PADR with relay tags switched on; true stands for 0, false for -1. */
    method InsertDiscovery(beyond: seq<Byte>, ghost ts: seq<Item>) returns (ok: bool)
      requires Holds(ts) && |beyond| >= 65536
      modifies this`len, data
      ensures ok <==> && |OldRelay(ts)| + 12 <= 40
                      && data.Length - (old(len) - OldSize(ts)) >= RoomFor(bigEndian, 8 + |OldRelay(ts)|)
      ensures ok && bigEndian ==> Holds(Tagged(ts, old(data[6..12])))
      ensures ok && !bigEndian ==> Spoilt(data[..], RelayTag(old(data[6..12]), OldRelay(ts)), beyond, Base(ts))
      ensures !ok ==> Holds(if |OldRelay(ts)| + 12 > TAG_BUF_SIZE then ts else Base(ts))
      ensures data[..LENGTH_AT] == old(data[..LENGTH_AT])
    {
      hide Frame, LaidOut, Size, Encode, OldRelay, OldSize, RoomFor, Spoilt, Base;
      var some, prior := TakeOld(ts);
      if !some {
        return false;
      }
      HoldsBounds(Base(ts));
      var mac: seq<Byte> := data[6..12];
      assert mac == data[..LENGTH_AT][6..12] == old(data[..LENGTH_AT])[6..12] == old(data[6..12]);
      ghost var tags: seq<Byte> := data[TAGS_AT..TAGS_AT + Size(PppoeTag, Base(ts))];
      ok := AddTag(RelayTag(mac, prior), beyond, Base(ts));
      if ok && !bigEndian {
        SpoiltBy(data[..], RelayTag(mac, prior), beyond, Base(ts), tags);
      }
    }

    lemma HoldsBounds(ts: seq<Item>)
      requires Holds(ts)
      ensures TAGS_AT + Size(PppoeTag, ts) <= len <= data.Length
      ensures var tags := data[TAGS_AT..TAGS_AT + Size(PppoeTag, ts)]; LaidOut(PppoeTag, tags, 0, ts)
    {
      hide LaidOut, Size;
      Moved(PppoeTag, data[..], TAGS_AT, data[TAGS_AT..TAGS_AT + Size(PppoeTag, ts)], 0, ts);
    }

    /** NAT25_LOOKUP of a PADO or PADS with relay tags switched on; true stands for 0, false for -1. */
    method LookupAnswer(ghost ts: seq<Item>) returns (ok: bool)
      requires Holds(ts)
      modifies this`len, data
      ensures ok <==> Answered(ts).Some?
      ensures ok ==> data[..6] == Answered(ts).value.0 && Holds(Answered(ts).value.1)
      ensures data[6..LENGTH_AT] == old(data[6..LENGTH_AT])
      ensures !ok ==> data[..] == old(data[..]) && len == old(len)
    {
      hide LaidOut, Size, Encode, FirstMatch, Answered;
      AnsweredCases(ts);
      var pos := FindTag(RELAY_SID, ts);
      if pos.None? {
        return false;
      }
      ghost var k := FirstMatch(ts, RELAY_SID, []);
      var ptr := pos.value;
      TagsBounds(data[..], len, ts, k);
      var tagLen := (data[ptr + 2] as int) * 256 + data[ptr + 3];
      if tagLen < MAGIC_CODE_LEN + RTL_RELAY_TAG_LEN {
        return false;
      }
      TagBody(data[..], ptr, ts[k].data);
      if data[ptr + TAG_HDR_LEN..ptr + TAG_HDR_LEN + 2] != MAGIC {
        return false;
      }
      var mac: seq<Byte> := data[ptr + TAG_HDR_LEN + MAGIC_CODE_LEN..ptr + TAG_HDR_LEN + MAGIC_CODE_LEN + 6];
      ghost var b := data[..];
      MemCopy(data, 0, mac);
      HeaderWritten(b, data[..], len, ts, mac);
      if tagLen > MAGIC_CODE_LEN + RTL_RELAY_TAG_LEN {
        ShortenRelay(ptr, tagLen, ts, k);
      } else {
        TakeOut(ptr, TAG_HDR_LEN + tagLen, ts, k);
      }
      ghost var c := data[..];
      assert c[..6] == c[..LENGTH_AT][..6] && c[6..LENGTH_AT] == c[..LENGTH_AT][6..];
      return true;
    }

    /** The relay tag keeps its own header and loses the magic code and the MAC in front of its value. */
    method ShortenRelay(ptr: nat, tagLen: nat, ghost ts: seq<Item>, ghost k: nat)
      requires Holds(ts) && k < |ts| && ts[k].id == RELAY_SID && tagLen == |ts[k].data| > 8
      requires ptr == TAGS_AT + Size(PppoeTag, ts[..k])
      modifies this`len, data
      ensures Holds(ts[k := Item(RELAY_SID, ts[k].data[8..])])
      ensures data[..LENGTH_AT] == old(data[..LENGTH_AT])
    {
      hide LaidOut, Size, Encode, Put16, Frame, LenAt;
      ghost var b := data[..];
      TagsBounds(b, len, ts, k);
      var size := (data[LENGTH_AT] as int) * 256 + data[LENGTH_AT + 1];
      var pulled := PullAndMerge(ptr + TAG_HDR_LEN, MAGIC_CODE_LEN + RTL_RELAY_TAG_LEN);
      ghost var d := data[..];
      SetLength(size - 8);
      var newTagLen := tagLen - MAGIC_CODE_LEN - RTL_RELAY_TAG_LEN;
      Write16(ptr + 2, newTagLen);
      RelayShortened(b, d, data[..], len + 8, ts, k);
    }
  }
}
