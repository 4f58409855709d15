/** What holds over any sequence of operations on the NAT2.5 table (core/rtw_br_ext.c). */
module Nat25Runs {
  import opened Basics
  import opened Nat25Table

  /** The operations, with the time each takes place at. */
  datatype Event =
    | Learn(mac: Mac, addr: Addr, now: nat, room: bool)
    | Look(addr: Addr, now: nat)
    | Touch(addr: Addr, now: nat)
    | Pass(now: nat)
    | Clean

  function After(t: Table, e: Event): Table {
    match e
    case Learn(mac, a, now, room) => if a in t || room then Inserted(t, mac, a, now) else t
    case Look(a, now) => LookedUp(t, a, now)
    case Touch(a, now) => Touched(t, a, now)
    case Pass(now) => ExpirePass(t, now)
    case Clean => map[]
  }

  function AfterAll(t: Table, es: seq<Event>): Table
    decreases |es|
  {
    if es == [] then t else AfterAll(After(t, es[0]), es[1..])
  }

  ghost predicate AllUsed(t: Table) {
    forall a :: a in t ==> t[a].uses >= 1
  }

  /** Every entry has a use in every reachable table. */
  lemma {:induction false} UsesStayPositive(t: Table, es: seq<Event>)
    requires AllUsed(t)
    ensures AllUsed(AfterAll(t, es))
    decreases |es|
  {
    if es != [] {
      UsesStayPositive(After(t, es[0]), es[1..]);
    }
  }

  /** The event says nothing new about address a, and does not empty the table. */
  predicate Silent(e: Event, a: Addr) {
    match e
    case Learn(_, b, _, _) => b != a
    case Touch(b, _) => b != a
    case Clean => false
    case _ => true
  }

  /** The event takes place at a time from `from` up to but not including `to`; cleaning has no time. */
  predicate Within(e: Event, from: nat, to: nat) {
    e.Clean? || from <= e.now < to
  }

  ghost predicate Quiet(es: seq<Event>, a: Addr, from: nat, to: nat) {
    forall i :: 0 <= i < |es| ==> Silent(es[i], a) && Within(es[i], from, to)
  }

  /** How often the entry of address a is looked up before it has aged. */
  function LiveLooks(t: Table, es: seq<Event>, a: Addr): nat
    decreases |es|
  {
    if es == [] then 0
    else
      var e := es[0];
      (if e.Look? && e.addr == a && a in t && e.now < t[a].age + AGEING then 1 else 0)
      + LiveLooks(After(t, e), es[1..], a)
  }

  /** Without expiry and cleaning an entry counts all its lookups, however often the address is learned again or
      touched in between. */
  lemma {:induction false} UsesCounted(t: Table, es: seq<Event>, a: Addr)
    requires a in t && forall i :: 0 <= i < |es| ==> !es[i].Pass? && !es[i].Clean?
    ensures a in AfterAll(t, es) && AfterAll(t, es)[a].uses == t[a].uses + LiveLooks(t, es, a)
    decreases |es|
  {
    if es != [] {
      assert !es[0].Pass? && !es[0].Clean?;
      UsesCounted(After(t, es[0]), es[1..], a);
    }
  }

  function Looks(es: seq<Event>, a: Addr): nat {
    if es == [] then 0 else (if es[0].Look? && es[0].addr == a then 1 else 0) + Looks(es[1..], a)
  }

  function Passes(es: seq<Event>): nat {
    if es == [] then 0 else (if es[0].Pass? then 1 else 0) + Passes(es[1..])
  }

  /** Until it ages out, an entry keeps its MAC address and its time through any sequence of lookups,
      expiry passes and insertions of other addresses, and counts the lookups. */
  lemma {:induction false} LearnedStays(t: Table, es: seq<Event>, a: Addr)
    requires a in t && Quiet(es, a, 0, t[a].age + AGEING)
    ensures a in AfterAll(t, es)
    ensures AfterAll(t, es)[a] == t[a].(uses := t[a].uses + Looks(es, a))
    decreases |es|
  {
    if es != [] {
      assert Silent(es[0], a) && Within(es[0], 0, t[a].age + AGEING);
      LearnedStays(After(t, es[0]), es[1..], a);
    }
  }

  /** A lookup answers with the MAC address of an entry that has not expired. */
  function Answer(t: Table, a: Addr, now: nat): Option<Mac> {
    if a in t && !Expired(t[a].age, now) then Some(t[a].mac) else None
  }

  /** Learn and reply: from the moment address a is learned from MAC address m until it is learned
      again, touched or cleaned up, a lookup for it answers m exactly as long as it has not aged. */
  lemma AnswerIff(t: Table, mac: Mac, a: Addr, learned: nat, room: bool, es: seq<Event>, now: nat)
    requires a in t || room
    requires Quiet(es, a, 0, now + 1)
    ensures Answer(AfterAll(After(t, Learn(mac, a, learned, room)), es), a, now)
         == if now < learned + AGEING then Some(mac) else None
  {
    var u := After(t, Learn(mac, a, learned, room));
    if now < learned + AGEING {
      LearnedStays(u, es, a);
    } else {
      NeverYounger(u, es, a);
    }
  }

  /** Without being learned again or touched an entry does not get younger. */
  lemma {:induction false} NeverYounger(t: Table, es: seq<Event>, a: Addr)
    requires forall i :: 0 <= i < |es| ==> Silent(es[i], a)
    ensures a in AfterAll(t, es) ==> a in t && AfterAll(t, es)[a].age == t[a].age
    decreases |es|
  {
    if es != [] {
      assert Silent(es[0], a);
      NeverYounger(After(t, es[0]), es[1..], a);
    }
  }

  /** An expired entry that is not refreshed loses a use with each expiry pass and nothing else changes
      it: it is gone exactly when there have been as many passes as it had uses. */
  lemma {:induction false} GoneAfterUses(t: Table, es: seq<Event>, a: Addr)
    requires a in t && t[a].uses >= 1
    requires forall i :: 0 <= i < |es| ==> Silent(es[i], a) && es[i].now >= t[a].age + AGEING
    ensures a in AfterAll(t, es) <==> Passes(es) < t[a].uses
    ensures Passes(es) < t[a].uses ==> AfterAll(t, es)[a] == t[a].(uses := t[a].uses - Passes(es))
    decreases |es|
  {
    if es != [] {
      var u := After(t, es[0]);
      assert Silent(es[0], a) && es[0].now >= t[a].age + AGEING;
      if a in u {
        GoneAfterUses(u, es[1..], a);
      } else {
        NeverYounger(u, es[1..], a);
      }
    }
  }

  /** The whole life of a new entry: learned, looked up while it lives, then left alone. It takes one
      expiry pass more than it was looked up to remove it. */
  lemma Lifetime(t: Table, mac: Mac, a: Addr, learned: nat, live: seq<Event>, late: seq<Event>)
    requires a !in t
    requires Quiet(live, a, 0, learned + AGEING)
    requires forall i :: 0 <= i < |late| ==> Silent(late[i], a) && late[i].now >= learned + AGEING
    ensures var u := AfterAll(AfterAll(After(t, Learn(mac, a, learned, true)), live), late);
            a in u <==> Passes(late) < 1 + Looks(live, a)
  {
    var u := After(t, Learn(mac, a, learned, true));
    LearnedStays(u, live, a);
    GoneAfterUses(AfterAll(u, live), late, a);
  }

  /** The tick counter is a machine word of 32 or 64 bits, and times are compared by the sign of their
      difference (time_before_eq). That agrees with the comparison of the true times as long as the
      entry and the timeout are less than half the range apart. */
  lemma WrappedTime(w: nat, age: nat, now: nat)
    requires w == 0x1_0000_0000 || w == 0x1_0000_0000_0000_0000
    requires -(w / 2) < now - AGEING - age < w / 2
    ensures (now - AGEING - age) % w < w / 2 <==> Expired(age, now)
  {
    var d := now - AGEING - age;
    if w == 0x1_0000_0000 {
      assert d % w == if d >= 0 then d else d + w;
    } else {
      assert d % w == if d >= 0 then d else d + w;
    }
  }
}
