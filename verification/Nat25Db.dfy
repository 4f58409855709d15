/** The NAT2.5 address table as the driver builds it (core/rtw_br_ext.c): buckets of chained entries,
    each entry holding a pointer to the next one and a pointer to the cell that points to it. */
module Nat25Db {
  import opened Basics
  import opened Tlv
  import opened Nat25Table
  import opened Nat25Shortcut

  /** A cell that can hold a pointer to an entry: a bucket head or the next field of an entry. */
  datatype Cell = NoCell | Bucket(i: nat) | NextOf(e: Entry)

  class Entry {
    const addr: Addr
    var mac: Mac
    var useCount: nat
    var ageing: nat
    var next: Entry?
    var pprev: Cell

    constructor (a: Addr, m: Mac, now: nat)
      ensures addr == a && mac == m && useCount == 1 && ageing == now
    {
      addr, mac, useCount, ageing := a, m, 1, now;
      next, pprev := null, NoCell;
    }

    ghost function Record(): Rec
      reads this`mac, this`ageing, this`useCount
    {
      Rec(mac, ageing, useCount)
    }
  }

  function Nth(c: seq<Entry>, k: nat): Entry? {
    if k < |c| then c[k] else null
  }

  /** The cell that must point to the k-th entry of bucket i. */
  function CellBefore(i: nat, c: seq<Entry>, k: nat): Cell
    requires k <= |c|
  {
    if k == 0 then Bucket(i) else NextOf(c[k - 1])
  }

  /** The chain of bucket i: every next leads to the next entry, every pprev to the cell before. */
  ghost predicate Linked(i: nat, head: Entry?, c: seq<Entry>)
    reads (set e | e in c)`next, (set e | e in c)`pprev
  {
    && head == Nth(c, 0)
    && Distinct(c)
    && (forall k {:trigger c[k].next} :: 0 <= k < |c| ==> c[k].next == Nth(c, k + 1))
    && (forall k {:trigger c[k].pprev} :: 0 <= k < |c| ==> c[k].pprev == CellBefore(i, c, k))
  }

  /** __network_hash_link. */
  method Link(nethash: array<Entry?>, ent: Entry, hash: nat, ghost c: seq<Entry>)
    requires hash < nethash.Length && Linked(hash, nethash[hash], c) && ent !in c
    modifies nethash, ent`next, ent`pprev, (set e | e in c)`pprev
    ensures Linked(hash, nethash[hash], [ent] + c)
    ensures forall j :: 0 <= j < nethash.Length && j != hash ==> nethash[j] == old(nethash[j])
  {
    ent.next := nethash[hash];
    if ent.next != null {
      ent.next.pprev := NextOf(ent);
    }
    nethash[hash] := ent;
    ent.pprev := Bucket(hash);
  }

  /** The k-th entry has been taken out: the links of the others lead past it. */
  ghost predicate Bypassed(i: nat, head: Entry?, c: seq<Entry>, k: nat)
    requires k < |c|
    reads (set e | e in c)`next, (set e | e in c)`pprev
  {
    && head == (if k == 0 then Nth(c, 1) else c[0])
    && (forall x {:trigger c[x].next} :: 0 <= x < |c| && x != k ==> c[x].next == Nth(c, if x + 1 == k then k + 1 else
              x + 1))
    && (forall x {:trigger c[x].pprev} :: 0 <= x < |c| && x != k ==> c[x].pprev == CellBefore(i, c,
              if x == k + 1 then k else x))
  }

  lemma BypassedLinked(i: nat, head: Entry?, c: seq<Entry>, k: nat)
    requires k < |c| && Distinct(c) && Bypassed(i, head, c, k)
    ensures Linked(i, head, c[..k] + c[k + 1..])
  {
    var left := c[..k] + c[k + 1..];
    RemoveDistinct(c, k);
    hide Distinct;
    forall x | 0 <= x < |left|
      ensures left[x].next == Nth(left, x + 1) && left[x].pprev == CellBefore(i, left, x)
    {
      var y := if x < k then x else x + 1;
      assert left[x] == c[y];
    }
  }

  /** __network_hash_unlink, of the k-th entry of bucket i. */
  method Unlink(nethash: array<Entry?>, ent: Entry, ghost i: nat, ghost c: seq<Entry>, ghost k: nat)
    requires i < nethash.Length && Linked(i, nethash[i], c) && k < |c| && ent == c[k]
    modifies nethash, (set e | e in c)`next, (set e | e in c)`pprev
    ensures Linked(i, nethash[i], c[..k] + c[k + 1..])
    ensures forall j :: 0 <= j < nethash.Length && j != i ==> nethash[j] == old(nethash[j])
  {
    match ent.pprev {
      case Bucket(b) => nethash[b] := ent.next;
      case NextOf(p) => p.next := ent.next;
    }
    if ent.next != null {
      ent.next.pprev := ent.pprev;
    }
    ent.next := null;
    ent.pprev := NoCell;
    BypassedLinked(i, nethash[i], c, k);
  }

  /** Each entry is in the bucket of its own hash, and no two entries have the same address. */
  ghost predicate IndexedBy(chains: seq<seq<Entry>>, at: map<Addr, Entry>)
    requires |chains| == HASH_SIZE
  {
    && (forall i, k :: 0 <= i < HASH_SIZE && 0 <= k < |chains[i]| ==>
          var e := chains[i][k]; e.addr in at && at[e.addr] == e && Hash(e.addr) == i)
    && (forall a :: a in at ==> at[a].addr == a && at[a] in chains[Hash(a)])
  }

  lemma IndexedMore(chains: seq<seq<Entry>>, at: map<Addr, Entry>, db: Entry)
    requires |chains| == HASH_SIZE && IndexedBy(chains, at) && db.addr !in at
    ensures var h := Hash(db.addr); IndexedBy(chains[h := [db] + chains[h]], at[db.addr := db])
  {
    hide Hash;
  }

  lemma IndexedLess(chains: seq<seq<Entry>>, at: map<Addr, Entry>, h: nat, k: nat)
    requires |chains| == HASH_SIZE && IndexedBy(chains, at) && h < HASH_SIZE && k < |chains[h]| && Distinct(chains[h])
    ensures var left := chains[h][..k] + chains[h][k + 1..];
            IndexedBy(chains[h := left], at - {chains[h][k].addr})
  {
    hide Hash;
    var c := chains[h];
    var left := c[..k] + c[k + 1..];
    forall x | 0 <= x < |left|
      ensures left[x] in c && left[x] != c[k]
    {
      assert left[x] == if x < k then c[x] else c[x + 1];
    }
    forall a | a in at && a != c[k].addr
      ensures at[a] in chains[h := left][Hash(a)]
    {
      if Hash(a) == h {
        var x :| 0 <= x < |c| && c[x] == at[a];
        assert left[if x < k then x else x - 1] == c[x];
      }
    }
  }

  ghost function ContentsOf(at: map<Addr, Entry>): Table
    reads at.Values`mac, at.Values`ageing, at.Values`useCount
  {
    map a | a in at :: at[a].Record()
  }

  lemma ContentsMore(at: map<Addr, Entry>, db: Entry)
    ensures ContentsOf(at[db.addr := db]) == ContentsOf(at)[db.addr := db.Record()]
  {
  }

  lemma ContentsLess(at: map<Addr, Entry>, a: Addr)
    ensures ContentsOf(at - {a}) == ContentsOf(at) - {a}
  {
  }

  /** A sweep over the chain c0 that has passed n of its entries, some of which are gone from c. */
  ghost predicate Sweeping(c0: seq<Entry>, c: seq<Entry>, n: nat) {
    n <= |c0| && |c0| <= |c| + n && c[|c| + n - |c0|..] == c0[n..]
  }

  lemma SweepOn(c0: seq<Entry>, c: seq<Entry>, n: nat)
    requires Sweeping(c0, c, n) && n < |c0|
    ensures var k := |c| + n - |c0|;
            && 0 <= k < |c| && c[k] == c0[n] && Nth(c, k + 1) == Nth(c0, n + 1)
            && Sweeping(c0, c, n + 1) && Sweeping(c0, c[..k] + c[k + 1..], n + 1)
  {
    var k := |c| + n - |c0|;
    assert c[k] == c[k..][0] && c[k + 1..] == c[k..][1..] && c0[n + 1..] == c0[n..][1..];
    assert n + 1 < |c0| ==> c[k + 1] == c[k..][1];
    assert (c[..k] + c[k + 1..])[k..] == c[k + 1..];
  }

  ghost function AddrsOf(c: seq<Entry>): set<Addr> {
    set e | e in c :: e.addr
  }

  lemma AddrsOfNext(c: seq<Entry>, n: nat)
    requires n < |c|
    ensures AddrsOf(c[..n + 1]) == AddrsOf(c[..n]) + {c[n].addr}
  {
    assert c[..n + 1] == c[..n] + [c[n]];
  }

  lemma EmptyAddrs(c: seq<Entry>)
    ensures AddrsOf(c[..0]) == {}
  {
  }

  class Bridge {
    const nethash: array<Entry?>
    /** The short cut to the client that sent last. */
    var scdbMac: Mac
    var scdbIp: Ip
    var scdbEntry: Entry?
    /** The entries of each bucket in chain order, and all entries by address. */
    ghost var chains: seq<seq<Entry>>
    ghost var at: map<Addr, Entry>

    ghost predicate Indexed()
      reads this`chains, this`at
    {
      |chains| == HASH_SIZE && IndexedBy(chains, at)
    }

    ghost predicate AllLinked()
      requires Indexed()
      reads this`chains, this`at, nethash, at.Values`next, at.Values`pprev
    {
      && nethash.Length == HASH_SIZE
      && (forall i :: 0 <= i < HASH_SIZE ==>
            assert forall e :: e in chains[i] ==> e in at.Values;
            Linked(i, nethash[i], chains[i]))
    }

    /** Every entry has a use, and the short cut leads to an entry of the table. */
    ghost predicate InUse()
      reads this`at, this`scdbEntry, at.Values`useCount
    {
      && (forall a :: a in at ==> at[a].useCount >= 1)
      && (scdbEntry != null ==> scdbEntry.addr in at && at[scdbEntry.addr] == scdbEntry)
    }

    ghost predicate Valid()
      reads this`chains, this`at, this`scdbEntry, nethash
      reads at.Values`next, at.Values`pprev, at.Values`useCount
    {
      Indexed() && AllLinked() && InUse()
    }

    ghost function Contents(): Table
      reads this`at, at.Values`mac, at.Values`ageing, at.Values`useCount
    {
      ContentsOf(at)
    }

    ghost function Shortcut(): Cut
      reads this`scdbMac, this`scdbIp, this`scdbEntry
    {
      Cut(scdbMac, scdbIp, if scdbEntry == null then None else Some(scdbEntry.addr))
    }

    /** Nothing of the short cut is lost while its entry is there. */
    lemma NothingLeft()
      requires Valid()
      ensures Shortcut() == CutLeft(Shortcut(), at.Keys) && at.Keys == Contents().Keys
    {
      hide AllLinked, IndexedBy;
    }

    constructor ()
      ensures Valid() && Contents() == map[] && Shortcut() == NO_CUT && fresh(nethash)
    {
      nethash := new Entry?[HASH_SIZE](_ => null);
      scdbMac, scdbIp, scdbEntry := ZERO_MAC, ZERO_IP, null;
      chains := seq(HASH_SIZE, _ => []);
      at := map[];
    }

    /** The search loop of the lookup, the insertion and scdb_findEntry. */
    method Find(a: Addr) returns (db: Entry?)
      requires Valid()
      ensures db == if a in at then at[a] else null
    {
      var h := Hash(a);
      ghost var k := 0;
      hide Hash;
      db := nethash[h];
      while db != null
        invariant k <= |chains[h]| && db == Nth(chains[h], k)
        invariant forall j :: 0 <= j < k ==> chains[h][j].addr != a
        decreases |chains[h]| - k
      {
        if db.addr == a {
          return;
        }
        assert Linked(h, nethash[h], chains[h]);
        db := db.next;
        k := k + 1;
      }
    }

    /** The table entry of an address is what the map says. */
    lemma Looked(a: Addr)
      requires Valid()
      ensures a in at <==> a in Contents()
      ensures a in at ==> at[a].addr == a && at[a] in at.Values && Contents()[a] == at[a].Record()
    {
      hide AllLinked, Hash;
    }

    /** An entry stands for no other address. */
    lemma OnlyAt(a: Addr)
      requires Indexed() && a in at
      ensures at[a] in at.Values && at[a].addr == a && forall b :: b in at && b != a ==> at[b] != at[a]
    {
    }

    /** Counting a use of an entry. */
    method CountUse(db: Entry)
      requires Valid() && db.addr in at && at[db.addr] == db
      modifies db`useCount
      ensures Valid()
      ensures Contents() == old(Contents())[db.addr := old(db.Record()).(uses := old(db.useCount) + 1)]
    {
      hide Hash, AllLinked;
      OnlyAt(db.addr);
      hide Indexed;
      db.useCount := db.useCount + 1;
    }

    /** Learning the MAC address behind an entry again. */
    method Refresh(db: Entry, mac: Mac, now: nat)
      requires Valid() && db.addr in at && at[db.addr] == db
      modifies db`mac, db`ageing
      ensures Valid()
      ensures Contents() == old(Contents())[db.addr := Rec(mac, now, old(db.useCount))]
    {
      hide Hash, AllLinked;
      OnlyAt(db.addr);
      hide Indexed;
      db.mac := mac;
      db.ageing := now;
    }

    /** __nat25_db_network_lookup_and_replace: on a live entry the destination address in front of the
        frame is replaced and the use counted. */
    method Lookup(frame: array<Byte>, a: Addr, now: nat) returns (found: bool)
      requires Valid() && frame.Length >= 6
      modifies frame, at.Values`useCount
      ensures Valid() && at == old(at)
      ensures found <==> a in old(Contents())
      ensures Contents() == LookedUp(old(Contents()), a, now)
      ensures frame[..] == if found && !Expired(old(Contents())[a].age, now)
                           then old(Contents())[a].mac + old(frame[6..]) else old(frame[..])
    {
      hide Hash, AllLinked, InUse, Indexed, ContentsOf;
      Looked(a);
      var db := Find(a);
      if db == null {
        return false;
      }
      if !Expired(db.ageing, now) {
        MemCopy(frame, 0, db.mac);
        CountUse(db);
      }
      return true;
    }

    /** __nat25_db_network_insert; `room` says whether a new entry could be allocated. */
    method Insert(mac: Mac, a: Addr, now: nat, room: bool)
      requires Valid()
      modifies this`chains, this`at, nethash, at.Values`mac, at.Values`ageing, at.Values`pprev
      ensures Valid() && fresh(at.Values - old(at.Values))
      ensures Contents() == if a in old(Contents()) || room then Inserted(old(Contents()), mac, a, now)
                            else old(Contents())
    {
      hide Hash, AllLinked, InUse, Indexed, ContentsOf;
      Looked(a);
      var db := Find(a);
      if db != null {
        Refresh(db, mac, now);
        return;
      }
      if !room {
        return;
      }
      db := new Entry(a, mac, now);
      AddEntry(db);
    }

    /** An entry is in one bucket only. */
    lemma OneBucket(i: nat, j: nat)
      requires Indexed() && i < HASH_SIZE && j < HASH_SIZE && i != j
      ensures forall e :: e in chains[i] ==> e !in chains[j]
    {
    }

    /** Every bucket but one. */
    ghost predicate AllLinkedBut(h: nat)
      requires Indexed()
      reads this`chains, this`at, nethash, at.Values`next, at.Values`pprev
    {
      && nethash.Length == HASH_SIZE
      && (forall i :: 0 <= i < HASH_SIZE && i != h ==>
            assert forall e :: e in chains[i] ==> e in at.Values;
            Linked(i, nethash[i], chains[i]))
    }

    /** Linking an entry into bucket h leaves the other buckets alone. */
    method LinkInto(db: Entry, h: nat)
      requires Valid() && h < HASH_SIZE && db !in at.Values
      modifies nethash, at.Values`pprev, db`next, db`pprev
      ensures Linked(h, nethash[h], [db] + chains[h]) && AllLinkedBut(h)
    {
      hide Hash, InUse;
      ghost var c := chains[h];
      assert Linked(h, nethash[h], c);
      assert db !in c;
      Link(nethash, db, h, c);
      forall j | 0 <= j < HASH_SIZE && j != h
        ensures Linked(j, nethash[j], chains[j])
      {
        OneBucket(j, h);
        assert old(Linked(j, nethash[j], chains[j]));
      }
    }

    /** Linking a new entry into the bucket of its hash. */
    method AddEntry(db: Entry)
      requires Valid() && db.addr !in at && db !in at.Values && db.useCount >= 1
      modifies this`chains, this`at, nethash, at.Values`pprev, db`next, db`pprev
      ensures Valid() && at == old(at)[db.addr := db]
      ensures Contents() == old(Contents())[db.addr := old(db.Record())]
    {
      hide Hash, Linked, IndexedBy, ContentsOf;
      var h := Hash(db.addr);
      LinkInto(db, h);
      IndexedMore(chains, at, db);
      ContentsMore(at, db);
      chains := chains[h := [db] + chains[h]];
      at := at[db.addr := db];
    }

    /** Every entry but f has a use. */
    ghost predicate InUseBut(f: Entry)
      reads this`at, this`scdbEntry, at.Values`useCount
    {
      && (forall a :: a in at && at[a] != f ==> at[a].useCount >= 1)
      && (scdbEntry != null ==> scdbEntry.addr in at && at[scdbEntry.addr] == scdbEntry)
    }

    /** Unlinking the k-th entry of bucket h leaves the other buckets alone. */
    method UnlinkFrom(f: Entry, ghost h: nat, ghost k: nat)
      requires Indexed() && AllLinked() && h < HASH_SIZE && k < |chains[h]| && chains[h][k] == f
      modifies nethash, at.Values`next, at.Values`pprev
      ensures Linked(h, nethash[h], chains[h][..k] + chains[h][k + 1..]) && AllLinkedBut(h)
    {
      hide Hash, InUse;
      ghost var c := chains[h];
      assert Linked(h, nethash[h], c);
      Unlink(nethash, f, h, c, k);
      forall j | 0 <= j < HASH_SIZE && j != h
        ensures Linked(j, nethash[j], chains[j])
      {
        OneBucket(j, h);
        assert old(Linked(j, nethash[j], chains[j]));
      }
    }

    /** The short cut does not survive the entry it leads to. */
    method DropShortcut(f: Entry)
      modifies this`scdbMac, this`scdbIp, this`scdbEntry
      ensures scdbEntry == if old(scdbEntry) == f then null else old(scdbEntry)
      ensures Shortcut() == if old(scdbEntry) == f then NO_CUT else old(Shortcut())
    {
      if scdbEntry == f {
        scdbMac, scdbIp := ZERO_MAC, ZERO_IP;
        scdbEntry := null;
      }
    }

    /** Removing an entry; neither the table nor the short cut mentions it afterwards. */
    method Release(f: Entry, ghost h: nat, ghost k: nat)
      requires Indexed() && AllLinked() && InUseBut(f)
      requires h < HASH_SIZE && k < |chains[h]| && chains[h][k] == f && f.addr in at && at[f.addr] == f
      modifies this, nethash, at.Values`next, at.Values`pprev
      ensures Valid() && at == old(at) - {f.addr} && scdbEntry != f
      ensures Shortcut() == CutLeft(old(Shortcut()), at.Keys)
      ensures chains == old(chains)[h := old(chains)[h][..k] + old(chains)[h][k + 1..]]
      ensures Contents() == old(Contents()) - {f.addr}
    {
      hide Hash, Linked, IndexedBy, ContentsOf;
      ChainDistinct(h);
      DropShortcut(f);
      UnlinkFrom(f, h, k);
      Forget(f, h, k);
    }

    /** The bookkeeping of a removal. */
    ghost method Forget(f: Entry, h: nat, k: nat)
      requires Indexed() && AllLinkedBut(h) && InUseBut(f) && scdbEntry != f
      requires h < HASH_SIZE && k < |chains[h]| && chains[h][k] == f && f.addr in at && at[f.addr] == f
      requires Distinct(chains[h]) && Linked(h, nethash[h], chains[h][..k] + chains[h][k + 1..])
      modifies this`chains, this`at
      ensures Valid() && at == old(at) - {f.addr}
      ensures chains == old(chains)[h := old(chains)[h][..k] + old(chains)[h][k + 1..]]
      ensures Contents() == old(Contents()) - {f.addr}
    {
      hide Hash, Linked, IndexedBy, ContentsOf, Distinct;
      OnlyAt(f.addr);
      IndexedLess(chains, at, h, k);
      ContentsLess(at, f.addr);
      chains := chains[h := chains[h][..k] + chains[h][k + 1..]];
      at := at - {f.addr};
    }

    lemma ChainDistinct(h: nat)
      requires Indexed() && AllLinked() && h < HASH_SIZE
      ensures Distinct(chains[h])
    {
      assert Linked(h, nethash[h], chains[h]);
    }

    /** Losing a use that is not the last. */
    method LoseUse(f: Entry)
      requires Valid() && f.addr in at && at[f.addr] == f && f.useCount > 1
      modifies f`useCount
      ensures Valid()
      ensures Contents() == old(Contents())[f.addr := old(f.Record()).(uses := old(f.useCount) - 1)]
    {
      hide Hash, AllLinked;
      OnlyAt(f.addr);
      hide Indexed;
      f.useCount := f.useCount - 1;
    }

    /** Losing the last use. */
    method LoseLastUse(f: Entry, ghost h: nat, ghost k: nat)
      requires Valid() && h < HASH_SIZE && k < |chains[h]| && chains[h][k] == f
      requires f.addr in at && at[f.addr] == f && f.useCount == 1
      modifies this, nethash, at.Values`next, at.Values`pprev, f`useCount
      ensures Valid() && at == old(at) - {f.addr}
      ensures Shortcut() == CutLeft(old(Shortcut()), at.Keys)
      ensures chains == old(chains)[h := old(chains)[h][..k] + old(chains)[h][k + 1..]]
      ensures Contents() == old(Contents()) - {f.addr}
    {
      hide Hash, AllLinked, IndexedBy;
      OnlyAt(f.addr);
      f.useCount := 0;
      assert Contents() - {f.addr} == old(Contents()) - {f.addr};
      Release(f, h, k);
    }

    /** What an expiry pass does at one entry. */
    method ExpireEntry(f: Entry, now: nat, ghost h: nat, ghost k: nat)
      requires Valid() && h < HASH_SIZE && k < |chains[h]| && chains[h][k] == f
      modifies this, nethash, at.Values`next, at.Values`pprev, f`useCount
      ensures Valid() && (at == old(at) || at == old(at) - {f.addr})
      ensures Shortcut() == CutLeft(old(Shortcut()), at.Keys)
      ensures Contents() == ExpiredIn(old(Contents()), now, {f.addr})
      ensures chains == old(chains)
           || chains == old(chains)[h := old(chains)[h][..k] + old(chains)[h][k + 1..]]
    {
      hide Hash, Linked, AllLinked, Indexed, InUse, ContentsOf, ExpiredIn;
      InChain(h, k);
      NothingLeft();
      ExpiredOne(Contents(), now, f.addr);
      if Expired(f.ageing, now) {
        if f.useCount == 1 {
          LoseLastUse(f, h, k);
        } else {
          LoseUse(f);
        }
      }
    }

    lemma InChain(h: nat, k: nat)
      requires Valid() && h < HASH_SIZE && k < |chains[h]|
      ensures var f := chains[h][k];
              && f.addr in at && at[f.addr] == f && f in at.Values && Hash(f.addr) == h
              && f.addr in Contents() && Contents()[f.addr] == f.Record() && f.useCount >= 1
    {
      hide AllLinked;
    }

    /** A chain has no address twice, and holds the addresses of its bucket. */
    lemma ChainAddrs(h: nat)
      requires Valid() && h < HASH_SIZE
      ensures forall n :: 0 <= n < |chains[h]| ==> chains[h][n].addr !in AddrsOf(chains[h][..n])
      ensures AddrsOf(chains[h]) == BucketKeys(Contents(), h)
    {
      ChainDistinct(h);
      hide Hash, AllLinked;
      forall a | a in BucketKeys(Contents(), h)
        ensures a in AddrsOf(chains[h])
      {
        assert at[a] in chains[h];
      }
    }

    /** The next entry in the chain, read before the entry may be freed. */
    lemma NextInChain(h: nat, k: nat)
      requires Valid() && h < HASH_SIZE && k < |chains[h]|
      ensures chains[h][k].next == Nth(chains[h], k + 1)
    {
      assert Linked(h, nethash[h], chains[h]);
    }

    /** One step of the inner loop of nat25_db_expire. */
    method SweepNext(f: Entry, now: nat, i: nat, ghost c0: seq<Entry>, ghost n: nat) returns (g: Entry?)
      requires Valid() && i < HASH_SIZE && Sweeping(c0, chains[i], n) && n < |c0| && f == c0[n]
      modifies this, nethash, at.Values`next, at.Values`pprev, f`useCount
      ensures Valid() && Sweeping(c0, chains[i], n + 1) && g == Nth(c0, n + 1)
      ensures at == old(at) || at == old(at) - {f.addr}
      ensures Shortcut() == CutLeft(old(Shortcut()), at.Keys)
      ensures Contents() == ExpiredIn(old(Contents()), now, {f.addr})
    {
      hide Hash, Linked, Indexed, AllLinked, InUse, ContentsOf, ExpiredIn, Sweeping, Nth;
      SizeOf();
      ghost var k := |chains[i]| + n - |c0|;
      SweepOn(c0, chains[i], n);
      NextInChain(i, k);
      g := f.next;
      ExpireEntry(f, now, i, k);
    }

    lemma SizeOf()
      requires Valid()
      ensures |chains| == HASH_SIZE && nethash.Length == HASH_SIZE
    {
    }

    /** The inner loop of nat25_db_expire. */
    method ExpireBucket(i: nat, now: nat)
      requires Valid() && i < HASH_SIZE
      modifies this, nethash, at.Values`next, at.Values`pprev, at.Values`useCount
      ensures Valid() && at.Values <= old(at.Values) && at.Keys <= old(at.Keys)
      ensures Shortcut() == CutLeft(old(Shortcut()), at.Keys)
      ensures Contents() == ExpiredIn(old(Contents()), now, BucketKeys(old(Contents()), i))
    {
      hide Hash, Linked, Indexed, AllLinked, InUse, ContentsOf, ExpiredIn, Sweeping, AddrsOf, BucketKeys, Contents,
                Valid;
      SizeOf();
      ghost var c0, t0, n := chains[i], Contents(), 0;
      ChainAddrs(i);
      HeadOf(i, now);
      NothingLeft();
      var f := nethash[i];
      while f != null
        invariant |chains| == HASH_SIZE && Valid() && n <= |c0|
        invariant Sweeping(c0, chains[i], n) && f == Nth(c0, n)
        invariant at.Values <= old(at.Values) && at.Keys <= old(at.Keys)
        invariant Shortcut() == CutLeft(old(Shortcut()), at.Keys)
        invariant Contents() == ExpiredIn(t0, now, AddrsOf(c0[..n]))
        decreases |c0| - n
      {
        FreeOfChain(i, c0, n);
        ghost var a := f.addr;
        f := SweepNext(f, now, i, c0, n);
        ExpiredInTwo(t0, now, AddrsOf(c0[..n]), {a});
        AddrsOfNext(c0, n);
        n := n + 1;
        SizeOf();
      }
      assert c0[..n] == c0;
    }

    lemma FreeOfChain(i: nat, c0: seq<Entry>, n: nat)
      requires Valid() && i < HASH_SIZE && Sweeping(c0, chains[i], n) && n < |c0|
      ensures c0[n] in at.Values && n + 1 <= |c0|
    {
      hide AllLinked;
      SweepOn(c0, chains[i], n);
      InChain(i, |chains[i]| + n - |c0|);
    }

    lemma HeadOf(h: nat, now: nat)
      requires Valid() && h < HASH_SIZE
      ensures nethash[h] == Nth(chains[h], 0) && Sweeping(chains[h], chains[h], 0)
      ensures ExpiredIn(Contents(), now, AddrsOf(chains[h][..0])) == Contents()
    {
      hide ContentsOf, IndexedBy, InUse, Distinct;
      assert Linked(h, nethash[h], chains[h]);
    }

    /** nat25_db_expire. */
    method Expire(now: nat)
      requires Valid()
      modifies this, nethash, at.Values`next, at.Values`pprev, at.Values`useCount
      ensures Valid() && at.Values <= old(at.Values)
      ensures Contents() == ExpirePass(old(Contents()), now)
      ensures Shortcut() == CutLeft(old(Shortcut()), Contents().Keys)
    {
      ghost var t0 := Contents();
      hide Valid, Contents, ExpiredIn, KeysBelow, BucketKeys, ExpirePass;
      AllBuckets(t0, now);
      NothingLeft();
      for i := 0 to HASH_SIZE
        invariant Valid() && at.Values <= old(at.Values) && at.Keys <= old(at.Keys)
        invariant Shortcut() == CutLeft(old(Shortcut()), at.Keys)
        invariant Contents() == ExpiredIn(t0, now, KeysBelow(t0, i))
      {
        ExpireBucket(i, now);
        ExpiredBuckets(t0, now, i);
      }
      NothingLeft();
    }

    /** The inner loop of nat25_db_cleanup. */
    method CleanupBucket(i: nat)
      requires Valid() && i < HASH_SIZE
      modifies this, nethash, at.Values`next, at.Values`pprev
      ensures Valid() && at.Values <= old(at.Values) && at.Keys <= old(at.Keys)
      ensures Shortcut() == CutLeft(old(Shortcut()), at.Keys)
      ensures Contents() == Dropped(old(Contents()), BucketKeys(old(Contents()), i))
    {
      hide Hash, Linked, Indexed, AllLinked, InUse, ContentsOf, Sweeping, AddrsOf, BucketKeys, Contents, Valid, Dropped;
      BucketStart(i);
      NothingLeft();
      ghost var c0, t0, n := chains[i], Contents(), 0;
      var f := nethash[i];
      while f != null
        invariant |chains| == HASH_SIZE && Valid() && n <= |c0|
        invariant Sweeping(c0, chains[i], n) && |chains[i]| == |c0| - n && f == Nth(c0, n)
        invariant at.Values <= old(at.Values) && at.Keys <= old(at.Keys)
        invariant Shortcut() == CutLeft(old(Shortcut()), at.Keys)
        invariant Contents() == Dropped(t0, AddrsOf(c0[..n]))
        decreases |c0| - n
      {
        AddrsOfNext(c0, n);
        DroppedTwo(t0, AddrsOf(c0[..n]), {f.addr});
        f := CleanupEntry(f, i, c0, n);
        n := n + 1;
        SizeOf();
      }
      assert c0[..n] == c0;
    }

    lemma BucketStart(i: nat)
      requires Valid() && i < HASH_SIZE
      ensures |chains| == HASH_SIZE == nethash.Length
      ensures nethash[i] == Nth(chains[i], 0) && Sweeping(chains[i], chains[i], 0)
      ensures Contents() == Dropped(Contents(), AddrsOf(chains[i][..0]))
      ensures AddrsOf(chains[i]) == BucketKeys(Contents(), i)
    {
      hide Valid, Contents, BucketKeys, Sweeping, AddrsOf;
      SizeOf();
      ChainAddrs(i);
      HeadOf(i, 0);
      EmptyAddrs(chains[i]);
    }

    /** One step of it: the first entry left in the bucket goes. */
    method CleanupEntry(f: Entry, i: nat, ghost c0: seq<Entry>, ghost n: nat) returns (g: Entry?)
      requires Valid() && i < HASH_SIZE && Sweeping(c0, chains[i], n) && n < |c0| && f == c0[n]
      requires |chains[i]| == |c0| - n
      modifies this, nethash, at.Values`next, at.Values`pprev
      ensures Valid() && at == old(at) - {f.addr}
      ensures Shortcut() == CutLeft(old(Shortcut()), at.Keys)
      ensures Sweeping(c0, chains[i], n + 1) && |chains[i]| == |c0| - (n + 1) && g == Nth(c0, n + 1)
      ensures Contents() == Dropped(old(Contents()), {f.addr})
    {
      SweepOn(c0, chains[i], n);
      NextInChain(i, 0);
      InChain(i, 0);
      hide Hash, Linked, Indexed, AllLinked, ContentsOf, Sweeping;
      g := f.next;
      SizeOf();
      Release(f, i, 0);
    }

    /** nat25_db_cleanup. */
    method Cleanup()
      requires Valid()
      modifies this, nethash, at.Values`next, at.Values`pprev
      ensures Valid() && Contents() == map[] && scdbEntry == null
      ensures Shortcut() == CutLeft(old(Shortcut()), {})
    {
      hide Valid, Contents, KeysBelow, BucketKeys, Dropped;
      ghost var t0 := Contents();
      DroppedBuckets(t0, 0);
      NothingLeft();
      for i := 0 to HASH_SIZE
        invariant Valid() && at.Values <= old(at.Values) && at.Keys <= old(at.Keys)
        invariant Shortcut() == CutLeft(old(Shortcut()), at.Keys)
        invariant Contents() == Dropped(t0, KeysBelow(t0, i))
      {
        CleanupBucket(i);
        DroppedBuckets(t0, i);
      }
      NothingLeft();
      NoShortcut();
    }

    lemma NoShortcut()
      requires Valid() && Contents() == map[]
      ensures scdbEntry == null
    {
      hide AllLinked, IndexedBy;
      assert at.Keys == Contents().Keys;
    }

    /** The short cut taken when a client sends an IPv4 frame (rtw_br_client_tx in core/rtw_xmit.c):
        true when the frame goes on to be learned from. */
    method Adopt(mac: Mac, ip: Ip, now: nat) returns (learn: bool)
      requires Valid()
      modifies this`scdbMac, this`scdbIp, this`scdbEntry, at.Values`ageing
      ensures Valid() && at == old(at)
      ensures Shortcut() == Aimed(old(Contents()), old(Shortcut()), mac, ip)
      ensures learn <==> Shortcut().entry.None?
      ensures Contents() == if learn then old(Contents())
                            else Touched(old(Contents()), Shortcut().entry.value, now)
    {
      hide Valid, Contents, Ipv4Addr, Touched;
      learn := true;
      if scdbMac != mac {
        var db := Find(Ipv4Addr(ip));
        Looked(Ipv4Addr(ip));
        SetShortcut(db);
        if db != null {
          scdbMac := mac;
          scdbIp := ip;
          TouchShortcut(now);
          learn := false;
        }
      } else if scdbEntry != null {
        ShortcutInTable();
        TouchShortcut(now);
        learn := false;
      } else {
        scdbMac, scdbIp := ZERO_MAC, ZERO_IP;
      }
    }

    method SetShortcut(db: Entry?)
      requires Valid() && (db != null ==> db.addr in at && at[db.addr] == db)
      modifies this`scdbEntry
      ensures Valid() && scdbEntry == db
    {
      hide Hash, AllLinked, IndexedBy;
      scdbEntry := db;
    }

    method TouchShortcut(now: nat)
      requires Valid() && scdbEntry != null
      modifies scdbEntry`ageing
      ensures Valid() && Contents() == Touched(old(Contents()), scdbEntry.addr, now)
    {
      hide Hash, AllLinked;
      OnlyAt(scdbEntry.addr);
      hide Indexed;
      scdbEntry.ageing := now;
    }

    lemma ShortcutInTable()
      requires Valid() && scdbEntry != null
      ensures scdbEntry in at.Values && scdbEntry.addr in Contents()
    {
      hide AllLinked, IndexedBy;
    }
  }
}
