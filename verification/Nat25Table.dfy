/** What the NAT2.5 address table of core/rtw_br_ext.c is a representation of: a map from network
    addresses to the MAC address behind them, with the time each entry was last refreshed and a use
    count, and what the table operations do to that map. */
module Nat25Table {
  import opened Basics

  const ADDR_LEN: nat := 17
  const HASH_SIZE: nat := 16

  type Addr = a: seq<Byte> | |a| == ADDR_LEN witness seq(ADDR_LEN, _ => 0)

  const NAT25_IPV4: Byte := 1
  const NAT25_IPV6: Byte := 2
  const NAT25_APPLE: Byte := 4
  const NAT25_PPPOE: Byte := 5

  /** Time is counted in ticks; an entry lives NAT25_AGEING_TIME seconds without being refreshed.
      Nothing depends on the tick rate. */
  const HZ: nat := 250
  const AGEING: nat := 300 * HZ

  datatype Rec = Rec(mac: Mac, age: nat, uses: nat)

  type Table = map<Addr, Rec>

  function Xor(x: nat, y: nat): nat {
    if x == 0 then y else if y == 0 then x
    else (x % 2 + y % 2) % 2 + 2 * Xor(x / 2, y / 2)
  }

  function XorAll(s: seq<Byte>): nat {
    if s == [] then 0 else Xor(s[0], XorAll(s[1..]))
  }

  /** __nat25_network_hash; masking with HASH_SIZE - 1 is the remainder, HASH_SIZE being a power of two. */
  function Hash(a: Addr): (h: nat)
    ensures h < HASH_SIZE
  {
    var part := if a[0] == NAT25_IPV4 then a[7..11]
                else if a[0] == NAT25_APPLE then a[1..4]
                else if a[0] == NAT25_PPPOE then a[0..9]
                else if a[0] == NAT25_IPV6 then a[1..17]
                else a;
    XorAll(part) % HASH_SIZE
  }

  /** The address record of an IPv4 address (__nat25_generate_ipv4_network_addr). */
  function Ipv4Addr(ip: seq<Byte>): Addr
    requires |ip| == 4
  {
    [NAT25_IPV4, 0, 0, 0, 0, 0, 0] + ip + [0, 0, 0, 0, 0, 0]
  }

  lemma Ipv4AddrInjective(x: seq<Byte>, y: seq<Byte>)
    requires |x| == 4 && |y| == 4 && Ipv4Addr(x) == Ipv4Addr(y)
    ensures x == y
  {
    assert Ipv4Addr(x)[7..11] == x && Ipv4Addr(y)[7..11] == y;
  }

  /** __nat25_has_expired. */
  predicate Expired(age: nat, now: nat) {
    age + AGEING <= now
  }

  function Inserted(t: Table, mac: Mac, a: Addr, now: nat): Table {
    t[a := Rec(mac, now, if a in t then t[a].uses else 1)]
  }

  /** A sender seen again through the short cut. */
  function Touched(t: Table, a: Addr, now: nat): Table {
    if a in t then t[a := t[a].(age := now)] else t
  }

  /** A lookup counts as a use of an entry that has not expired. */
  function LookedUp(t: Table, a: Addr, now: nat): Table {
    if a in t && !Expired(t[a].age, now) then t[a := t[a].(uses := t[a].uses + 1)] else t
  }

  /** One expiry pass over the addresses in p: an expired entry loses a use, and goes with its last. */
  function ExpiredIn(t: Table, now: nat, p: set<Addr>): Table {
    map a | a in t && !(a in p && Expired(t[a].age, now) && t[a].uses == 1) ::
      if a in p && Expired(t[a].age, now) && t[a].uses > 0 then t[a].(uses := t[a].uses - 1) else t[a]
  }

  function ExpirePass(t: Table, now: nat): Table {
    ExpiredIn(t, now, t.Keys)
  }

  /** The table without the addresses in p. */
  function Dropped(t: Table, p: set<Addr>): Table {
    t - p
  }

  lemma DroppedTwo(t: Table, p: set<Addr>, q: set<Addr>)
    ensures Dropped(Dropped(t, p), q) == Dropped(t, p + q)
  {
  }

  ghost function BucketKeys(t: Table, i: nat): set<Addr> {
    set a | a in t && Hash(a) == i
  }

  ghost function KeysBelow(t: Table, i: nat): set<Addr> {
    set a | a in t && Hash(a) < i
  }

  lemma ExpiredOne(t: Table, now: nat, a: Addr)
    requires a in t && t[a].uses >= 1
    ensures ExpiredIn(t, now, {a}) == if !Expired(t[a].age, now) then t
                                      else if t[a].uses == 1 then t - {a}
                                      else t[a := t[a].(uses := t[a].uses - 1)]
  {
  }

  /** Expiring two disjoint sets of addresses one after the other is expiring them together. */
  lemma ExpiredInTwo(t: Table, now: nat, p: set<Addr>, q: set<Addr>)
    requires p !! q
    ensures ExpiredIn(ExpiredIn(t, now, p), now, q) == ExpiredIn(t, now, p + q)
  {
  }

  /** Only the part of the set that is in the table matters. */
  lemma ExpiredInTable(t: Table, now: nat, p: set<Addr>, q: set<Addr>)
    requires forall a :: a in t ==> (a in p <==> a in q)
    ensures ExpiredIn(t, now, p) == ExpiredIn(t, now, q)
  {
  }

  /** Sweeping one more bucket. */
  lemma ExpiredBuckets(t: Table, now: nat, i: nat)
    requires i < HASH_SIZE
    ensures var u := ExpiredIn(t, now, KeysBelow(t, i));
            ExpiredIn(u, now, BucketKeys(u, i)) == ExpiredIn(t, now, KeysBelow(t, i + 1))
  {
    hide Hash;
    var u := ExpiredIn(t, now, KeysBelow(t, i));
    ExpiredInTable(u, now, BucketKeys(u, i), BucketKeys(t, i));
    ExpiredInTwo(t, now, KeysBelow(t, i), BucketKeys(t, i));
    ExpiredInTable(t, now, KeysBelow(t, i) + BucketKeys(t, i), KeysBelow(t, i + 1));
  }

  lemma AllBuckets(t: Table, now: nat)
    ensures ExpiredIn(t, now, KeysBelow(t, HASH_SIZE)) == ExpirePass(t, now)
    ensures ExpiredIn(t, now, KeysBelow(t, 0)) == t
  {
    ExpiredInTable(t, now, KeysBelow(t, HASH_SIZE), t.Keys);
  }

  lemma DroppedBuckets(t: Table, i: nat)
    requires i < HASH_SIZE
    ensures var u := Dropped(t, KeysBelow(t, i));
            Dropped(u, BucketKeys(u, i)) == Dropped(t, KeysBelow(t, i + 1))
    ensures Dropped(t, KeysBelow(t, HASH_SIZE)) == map[] && Dropped(t, KeysBelow(t, 0)) == t
  {
    hide Hash;
  }
}
