/** The access control lists of an access point (core/rtw_ap.c, core/rtw_sta_mgt.c): pools of NUM_ACL slots,
    the ones in use linked in a queue. */
module Acl {
  import opened Basics

  const NUM_ACL := 16
  const RTW_ACL_PERIOD_NUM := 2


  const BROADCAST: Mac := [0xFF, 0xFF, 0xFF, 0xFF, 0xFF, 0xFF]

  datatype Mode = Disabled | AcceptUnlessListed | DenyUnlessListed

  datatype Node = Node(addr: Mac, valid: bool)

  // The slots and the queue, as values.

  predicate InRange(q: seq<nat>) {
    forall i :: 0 <= i < |q| ==> q[i] < NUM_ACL
  }

  /** The addresses in the order of the queue. */
  function Addrs(slots: seq<Node>, queue: seq<nat>): (r: seq<Mac>)
    requires |slots| == NUM_ACL && InRange(queue)
    ensures |r| == |queue|
  {
    seq(|queue|, i requires 0 <= i < |queue| => slots[queue[i]].addr)
  }

  /** The queue links exactly the valid slots, each once, and no address twice. */
  ghost predicate Linked(slots: seq<Node>, queue: seq<nat>) {
    && |slots| == NUM_ACL && InRange(queue) && Distinct(queue)
    && (forall i :: 0 <= i < |queue| ==> slots[queue[i]].valid)
    && (forall k :: 0 <= k < NUM_ACL && slots[k].valid ==> k in queue)
    && Distinct(Addrs(slots, queue))
  }

  function ValidSlots(slots: seq<Node>): set<nat> {
    set k: nat | k < |slots| && slots[k].valid
  }

  function Elements(q: seq<nat>): set<nat> {
    set k | k in q
  }

  lemma {:induction false} DistinctCard(q: seq<nat>)
    requires Distinct(q)
    ensures |Elements(q)| == |q|
  {
    if q != [] {
      var n := |q| - 1;
      DistinctCard(q[..n]);
      assert q == q[..n] + [q[n]];
      assert forall j :: 0 <= j < n ==> q[..n][j] != q[n];
      assert Elements(q) == Elements(q[..n]) + {q[n]};
    }
  }

  /** There are as many valid slots as the queue has entries. */
  lemma ValidCount(slots: seq<Node>, queue: seq<nat>)
    requires Linked(slots, queue)
    ensures |ValidSlots(slots)| == |queue|
  {
    DistinctCard(queue);
    assert ValidSlots(slots) == Elements(queue);
  }

  function Upto(n: nat): (r: set<nat>)
    ensures |r| == n && forall k: nat :: k in r <==> k < n
  {
    if n == 0 then {} else Upto(n - 1) + {n - 1}
  }

  /** A pool holds at most NUM_ACL addresses, and while it holds fewer it has a free slot. */
  lemma FreeSlot(slots: seq<Node>, queue: seq<nat>)
    requires Linked(slots, queue)
    ensures |queue| <= 16
    ensures |queue| < 16 <==> exists k :: 0 <= k < NUM_ACL && !slots[k].valid
  {
    ValidCount(slots, queue);
    var all := Upto(NUM_ACL);
    var v := ValidSlots(slots);
    assert v <= all;
    Subset(v, all);
    if forall k :: 0 <= k < NUM_ACL ==> slots[k].valid {
      assert v == all;
    } else {
      var k :| 0 <= k < NUM_ACL && !slots[k].valid;
      assert k in all && k !in v;
    }
  }

  lemma Subset(a: set<nat>, b: set<nat>)
    requires a <= b
    ensures |a| <= |b| && (|a| == |b| <==> a == b)
  {
    assert b == a + (b - a);
  }

  /** Using a free slot appends its address. */
  lemma UseSlot(slots: seq<Node>, queue: seq<nat>, k: nat, addr: Mac)
    requires Linked(slots, queue) && k < NUM_ACL && !slots[k].valid && addr !in Addrs(slots, queue)
    ensures var s, q := slots[k := Node(addr, true)], queue + [k];
            Linked(s, q) && Addrs(s, q) == Addrs(slots, queue) + [addr]
  {
    var s, q := slots[k := Node(addr, true)], queue + [k];
    assert forall i :: 0 <= i < |queue| ==> queue[i] != k;
    assert Addrs(s, q) == Addrs(slots, queue) + [addr];
    AppendDistinct(queue, k);
    AppendDistinct(Addrs(slots, queue), addr);
    assert q[|queue|] == k;
    forall j | 0 <= j < NUM_ACL && s[j].valid
      ensures j in q
    {
      assert j == k || j in queue;
    }
  }

  /** Freeing the slot at a position of the queue takes its address out. */
  lemma FreeAt(slots: seq<Node>, queue: seq<nat>, i: nat)
    requires Linked(slots, queue) && i < |queue|
    ensures var s, q := slots[queue[i] := slots[queue[i]].(valid := false)], queue[..i] + queue[i + 1..];
            Linked(s, q) && Addrs(s, q) == Addrs(slots, queue)[..i] + Addrs(slots, queue)[i + 1..]
  {
    var k := queue[i];
    var s, q := slots[k := slots[k].(valid := false)], queue[..i] + queue[i + 1..];
    assert forall j :: 0 <= j < |q| ==> q[j] == queue[if j < i then j else j + 1];
    assert InRange(q) && Distinct(q) && (forall j :: 0 <= j < |q| ==> q[j] != k);
    assert Addrs(s, q) == Addrs(slots, queue)[..i] + Addrs(slots, queue)[i + 1..];
    RemoveDistinct(Addrs(slots, queue), i);
    forall j | 0 <= j < NUM_ACL && s[j].valid
      ensures j in q
    {
      var p :| 0 <= p < |queue| && queue[p] == j;
      assert q[if p < i then p else p - 1] == j;
    }
  }

  // What removing an address does to the list.

  function Without(s: seq<Mac>, addr: Mac): seq<Mac> {
    if s == [] then []
    else if addr == BROADCAST || s[0] == addr then Without(s[1..], addr)
    else [s[0]] + Without(s[1..], addr)
  }

  /** Nothing is listed after removing the broadcast address, and otherwise exactly the address is gone. */
  lemma {:induction false} WithoutIs(s: seq<Mac>, addr: Mac, x: Mac)
    ensures x in Without(s, addr) <==> x in s && addr != BROADCAST && x != addr
  {
    if s != [] {
      WithoutIs(s[1..], addr, x);
      assert s == [s[0]] + s[1..];
    }
  }

  lemma {:induction false} WithoutAppend(s: seq<Mac>, addr: Mac, x: Mac)
    ensures Without(s + [x], addr) == Without(s, addr) + if addr == BROADCAST || x == addr then [] else [x]
  {
    if s == [] {
      assert s + [x] == [x];
    } else {
      assert (s + [x])[0] == s[0] && (s + [x])[1..] == s[1..] + [x];
      WithoutAppend(s[1..], addr, x);
    }
  }

  /** A wlan_acl_pool. */
  class AclPool {
    var mode: Mode
    var num: int
    var slots: seq<Node>
    var queue: seq<nat>

    ghost predicate Valid()
      reads this
    {
      Linked(slots, queue) && num == |queue|
    }

    /** The addresses in the pool, oldest first. */
    ghost function Listed(): seq<Mac>
      requires Valid()
      reads this
    {
      Addrs(slots, queue)
    }

    /** rtw_macaddr_acl_init. */
    constructor Init()
      ensures Valid() && Listed() == [] && mode == Disabled
    {
      queue := [];
      num := 0;
      mode := Disabled;
      slots := seq(NUM_ACL, _ => Node(BROADCAST, false));
    }

    /** The number kept, the number of valid slots and the length of the list agree, and so does the number
        of different addresses. */
    lemma CountsAgree()
      requires Valid()
      ensures num == |ValidSlots(slots)| == |Listed()| <= NUM_ACL && Distinct(Listed())
    {
      ValidCount(slots, queue);
      FreeSlot(slots, queue);
    }

    /** Whether an address is in the list. */
    method Find(addr: Mac) returns (found: bool)
      requires Valid()
      ensures found <==> addr in Listed()
    {
      var i := 0;
      found := false;
      while i < |queue|
        invariant i <= |queue| && addr !in Listed()[..i]
      {
        assert Listed()[..i + 1] == Listed()[..i] + [slots[queue[i]].addr];
        if slots[queue[i]].addr == addr && slots[queue[i]].valid {
          assert Listed()[i] == addr;
          return true;
        }
        i := i + 1;
      }
      assert Listed()[..i] == Listed();
    }

    /** rtw_acl_add_sta: 0 if and only if the address is in the pool afterwards. */
    method Add(addr: Mac) returns (ret: int)
      requires Valid()
      modifies `num, `slots, `queue
      ensures Valid()
      ensures Listed() == if addr in old(Listed()) || old(num) == NUM_ACL then old(Listed()) else old(Listed()) + [addr]
      ensures ret == if addr in Listed() then 0 else -1
    {
      CountsAgree();
      var existed := Find(addr);
      if existed {
        return 0;
      }
      if num >= NUM_ACL {
        return -1;
      }
      FreeSlot(slots, queue);
      var i := 0;
      while i < NUM_ACL && slots[i].valid
        invariant i <= NUM_ACL && forall k :: 0 <= k < i ==> slots[k].valid
      {
        i := i + 1;
      }
      UseSlot(slots, queue, i, addr);
      slots := slots[i := Node(addr, true)];
      queue := queue + [i];
      num := num + 1;
      assert Listed()[|queue| - 1] == addr;
      return 0;
    }

    /** The entry at position i of the queue is deleted and its slot freed. */
    method Free(i: nat)
      requires Valid() && i < |queue|
      modifies `num, `slots, `queue
      ensures Valid() && |queue| == old(|queue|) - 1
      ensures Listed() == old(Listed())[..i] + old(Listed())[i + 1..]
    {
      FreeAt(slots, queue, i);
      slots, queue := slots[queue[i] := slots[queue[i]].(valid := false)], queue[..i] + queue[i + 1..];
      num := num - 1;
    }

    /** The loop of rtw_acl_remove_sta; i counts the entries kept so far. */
    method Drop(addr: Mac)
      requires Valid()
      modifies `num, `slots, `queue
      ensures Valid() && Listed() == Without(old(Listed()), addr)
    {
      hide Without;
      ghost var was, done := Listed(), 0;
      var i := 0;
      DropStart(was, addr);
      while i < |queue|
        invariant Valid() && Dropping(was, addr, done, Listed(), i)
        decreases |queue| - i
      {
        assert slots[queue[i]].addr == Listed()[i];
        DropStep(was, addr, done, Listed(), i);
        if addr == BROADCAST || slots[queue[i]].addr == addr {
          Free(i);
        } else {
          i := i + 1;
        }
        done := done + 1;
      }
      DropEnd(was, addr, done, Listed(), i);
    }

    /** rtw_acl_remove_sta: afterwards exactly the address is gone, or everything if it is the broadcast
        address. */
    method Remove(addr: Mac)
      requires Valid()
      modifies `num, `slots, `queue
      ensures Valid() && Listed() == Without(old(Listed()), addr)
      ensures addr == BROADCAST ==> num == 0
      ensures forall x :: x in Listed() <==> x in old(Listed()) && addr != BROADCAST && x != addr
    {
      ghost var was := Listed();
      Drop(addr);
      forall x: Mac
        ensures x in Listed() <==> x in was && addr != BROADCAST && x != addr
      {
        WithoutIs(was, addr, x);
      }
      if addr == BROADCAST {
        WithoutEmpty(was, addr);
      }
    }

    /** _rtw_macaddr_acl_deinit: the pool is empty, and the warning about a count that is not 0 is not given. */
    method Clear()
      requires Valid()
      modifies `mode, `num, `slots, `queue
      ensures Valid() && Listed() == [] && num == 0 && mode == Disabled
    {
      while |queue| > 0
        invariant Valid()
        decreases |queue|
      {
        Free(0);
      }
      mode := Disabled;
    }

    /** _rtw_access_ctrl for one pool. */
    method Allows(addr: Mac) returns (res: bool)
      requires Valid()
      ensures res <==> mode == Disabled || (mode == AcceptUnlessListed && addr !in Listed())
                       || (mode == DenyUnlessListed && addr in Listed())
    {
      res := true;
      if mode != Disabled {
        var found := Find(addr);
        res := if mode == AcceptUnlessListed then !found else found;
      }
    }
  }

  /** The first done addresses have been gone through, and i of them kept. */
  ghost predicate Dropping(was: seq<Mac>, addr: Mac, done: nat, listed: seq<Mac>, i: nat) {
    done <= |was| && i <= |listed| && listed[..i] == Without(was[..done], addr) && listed[i..] == was[done..]
  }

  lemma DropStart(was: seq<Mac>, addr: Mac)
    ensures Dropping(was, addr, 0, was, 0)
  {
  }

  lemma DropStep(was: seq<Mac>, addr: Mac, done: nat, listed: seq<Mac>, i: nat)
    requires Dropping(was, addr, done, listed, i) && i < |listed|
    ensures if addr == BROADCAST || listed[i] == addr then Dropping(was, addr, done + 1,
              listed[..i] + listed[i + 1..], i)
            else Dropping(was, addr, done + 1, listed, i + 1)
  {
    var x := listed[i];
    assert listed[i..][0] == x && was[done..][0] == x;
    assert was[..done + 1] == was[..done] + [x] && was[done + 1..] == was[done..][1..];
    WithoutAppend(was[..done], addr, x);
    if addr == BROADCAST || listed[i] == addr {
      var l := listed[..i] + listed[i + 1..];
      assert l[..i] == listed[..i] && l[i..] == listed[i..][1..];
    } else {
      assert listed[..i + 1] == listed[..i] + [x] && listed[i + 1..] == listed[i..][1..];
    }
  }

  lemma DropEnd(was: seq<Mac>, addr: Mac, done: nat, listed: seq<Mac>, i: nat)
    requires Dropping(was, addr, done, listed, i) && i >= |listed|
    ensures listed == Without(was, addr)
  {
    assert listed[i..] == [] && was[..done] == was && listed[..i] == listed;
  }

  lemma WithoutEmpty(s: seq<Mac>, addr: Mac)
    requires addr == BROADCAST
    ensures Without(s, addr) == []
  {
    var r := Without(s, addr);
    if r != [] {
      WithoutIs(s, addr, r[0]);
    }
  }

  /** The pools of an adapter, one for each period. */
  class StaPriv {
    const aclList: seq<AclPool>

    ghost predicate Valid()
      reads aclList
    {
      |aclList| == RTW_ACL_PERIOD_NUM && aclList[0] != aclList[1] && aclList[0].Valid() && aclList[1].Valid()
    }

    constructor ()
      ensures Valid() && aclList[0].Listed() == [] == aclList[1].Listed()
    {
      var dev := new AclPool.Init();
      var bss := new AclPool.Init();
      aclList := [dev, bss];
    }

    /** rtw_acl_add_sta, with its check of the period. */
    method AclAddSta(period: nat, addr: Mac) returns (ret: int)
      requires Valid()
      modifies if period < |aclList| then {aclList[period]} else {}
      ensures Valid()
      ensures period >= RTW_ACL_PERIOD_NUM ==> ret == -1
      ensures period < RTW_ACL_PERIOD_NUM ==> ret == if addr in aclList[period].Listed() then 0 else -1
      ensures forall p :: 0 <= p < RTW_ACL_PERIOD_NUM ==>
                aclList[p].Listed() ==
                if p != period || addr in old(aclList[p].Listed()) || old(aclList[p].num) == NUM_ACL
                then old(aclList[p].Listed()) else old(aclList[p].Listed()) + [addr]
    {
      if period >= RTW_ACL_PERIOD_NUM {
        return -1;
      }
      ret := aclList[period].Add(addr);
    }

    /** rtw_acl_remove_sta, with its check of the period; it returns 0 in every case. */
    method AclRemoveSta(period: nat, addr: Mac) returns (ret: int)
      requires Valid()
      modifies if period < |aclList| then {aclList[period]} else {}
      ensures Valid() && ret == 0
      ensures forall p :: 0 <= p < RTW_ACL_PERIOD_NUM ==>
                aclList[p].Listed() ==
                if p != period then old(aclList[p].Listed()) else Without(old(aclList[p].Listed()), addr)
    {
      if period < RTW_ACL_PERIOD_NUM {
        aclList[period].Remove(addr);
      }
      return 0;
    }

    /** rtw_access_ctrl: a station is let in if and only if no pool in use speaks against it. */
    method AccessCtrl(addr: Mac) returns (res: bool)
      requires Valid()
      ensures res <==> forall p :: 0 <= p < RTW_ACL_PERIOD_NUM ==>
                && (aclList[p].mode == AcceptUnlessListed ==> addr !in aclList[p].Listed())
                && (aclList[p].mode == DenyUnlessListed ==> addr in aclList[p].Listed())
    {
      var i := 0;
      while i < RTW_ACL_PERIOD_NUM
        invariant i <= RTW_ACL_PERIOD_NUM
        invariant forall p :: 0 <= p < i ==>
                    && (aclList[p].mode == AcceptUnlessListed ==> addr !in aclList[p].Listed())
                    && (aclList[p].mode == DenyUnlessListed ==> addr in aclList[p].Listed())
      {
        var ok := aclList[i].Allows(addr);
        if !ok {
          return false;
        }
        i := i + 1;
      }
      return true;
    }
  }
}
