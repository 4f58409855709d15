/** The short cut in front of the NAT2.5 table: the IPv4 client that sent last, kept in scdb_mac, scdb_ip and
    scdb_entry (core/rtw_xmit.c, core/rtw_br_ext.c), and when it agrees with the table behind it. */
module Nat25Shortcut {
  import opened Basics
  import opened Nat25Table
  import R = Nat25Runs

  type Ip = a: seq<Byte> | |a| == 4 witness [0, 0, 0, 0]

  const ZERO_IP: Ip := [0, 0, 0, 0]
  const ZERO_MAC: Mac := [0, 0, 0, 0, 0, 0]
  const BROADCAST_MAC: Mac := [0xFF, 0xFF, 0xFF, 0xFF, 0xFF, 0xFF]

  /** entry is the address of the table entry that scdb_entry points to. */
  datatype Cut = Cut(mac: Mac, ip: Ip, entry: Option<Addr>)

  const NO_CUT := Cut(ZERO_MAC, ZERO_IP, None)

  /** The short cut after an IPv4 frame of a client. When the search for a new client fails only the entry is
      forgotten: the addresses stay. */
  function Aimed(t: Table, c: Cut, mac: Mac, ip: Ip): Cut {
    if c.mac != mac then
      if Ipv4Addr(ip) in t then Cut(mac, ip, Some(Ipv4Addr(ip))) else c.(entry := None)
    else if c.entry.Some? then c
    else NO_CUT
  }

  /** The short cut leads somewhere after a frame exactly when it led somewhere and the client has sent before, or the
      table has a new client's address; the addresses of another client only outlive a search that fails. */
  lemma AimedIff(t: Table, c: Cut, mac: Mac, ip: Ip)
    ensures var r := Aimed(t, c, mac, ip);
            && (r.entry.Some? <==> if c.mac == mac then c.entry.Some? else Ipv4Addr(ip) in t)
            && (r.entry.Some? ==> r.mac == mac)
            && (r.entry.Some? && c.mac != mac ==> r.ip == ip && r.entry == Some(Ipv4Addr(ip)))
            && (r.entry.Some? && c.mac == mac ==> r == c)
            && (r.entry.None? && c.mac == mac ==> r.mac == [0, 0, 0, 0, 0, 0] && r.ip == [0, 0, 0, 0])
            && (r.entry.None? && c.mac != mac ==> r.mac == c.mac && r.ip == c.ip)
  {
    hide Ipv4Addr;
  }

  /** The table after it: the entry of the short cut is refreshed; the sender is learned if there is none. */
  function SentTable(t: Table, c: Cut, mac: Mac, ip: Ip, now: nat, room: bool): Table {
    var to := Aimed(t, c, mac, ip);
    if to.entry.Some? then Touched(t, to.entry.value, now)
    else if ip == ZERO_IP then t
    else R.After(t, R.Learn(mac, Ipv4Addr(ip), now, room))
  }

  /** The short cut when only the entries of these addresses are left. */
  function CutLeft(c: Cut, left: set<Addr>): Cut {
    if c.entry.Some? && c.entry.value !in left then NO_CUT else c
  }

  /** With its entry the short cut loses its addresses. */
  lemma CutIff(c: Cut, left: set<Addr>)
    ensures var gone := c.entry.Some? && c.entry.value !in left;
            CutLeft(c, left) == if gone then Cut([0, 0, 0, 0, 0, 0], [0, 0, 0, 0], None) else c
  {
  }

  /** The destination nat25_db_handle gives a frame for an IPv4 address, which had the destination da. An
      expired entry counts as found and changes nothing. */
  function Destination(t: Table, ip: Ip, da: Mac, now: nat, brMac: Mac): Mac {
    var a := Ipv4Addr(ip);
    if a in t then (if Expired(t[a].age, now) then da else t[a].mac)
    else if ip[3] == 0xFF then BROADCAST_MAC
    else brMac
  }

  /** The destination nat25_handle_frame gives it: the short cut answers first. */
  function Reply(s: State, ip: Ip, da: Mac, now: nat, brMac: Mac): Mac {
    if s.c.ip == ip then s.c.mac else Destination(s.t, ip, da, now, brMac)
  }

  datatype State = State(t: Table, c: Cut)

  /** An IPv4 frame of a client, or an event that concerns the table only. */
  datatype Step = Send(mac: Mac, ip: Ip, now: nat, room: bool) | Other(e: R.Event)

  function After(s: State, e: Step): State {
    match e
    case Send(mac, ip, now, room) => State(SentTable(s.t, s.c, mac, ip, now, room), Aimed(s.t, s.c, mac, ip))
    case Other(e) => var t := R.After(s.t, e); State(t, CutLeft(s.c, t.Keys))
  }

  function Run(s: State, steps: seq<Step>): State
    decreases |steps|
  {
    if steps == [] then s else Run(After(s, steps[0]), steps[1..])
  }

  /** The entry of the short cut is in the table, under the address of the short cut. */
  predicate Sound(s: State) {
    s.c.entry.Some? ==> s.c.entry.value == Ipv4Addr(s.c.ip) && s.c.entry.value in s.t
  }

  lemma SoundStep(s: State, e: Step)
    requires Sound(s)
    ensures Sound(After(s, e))
  {
    hide Ipv4Addr;
  }

  /** In every reachable state the short cut leads to an entry of the table for its own address, or nowhere. */
  lemma {:induction false} SoundRun(s: State, steps: seq<Step>)
    requires Sound(s)
    ensures Sound(Run(s, steps))
    decreases |steps|
  {
    hide Sound, After;
    if steps != [] {
      SoundStep(s, steps[0]);
      SoundRun(After(s, steps[0]), steps[1..]);
    }
  }

  /** The short cut agrees with the table on every frame for its address if and only if the table has a live
      entry for that address with the same MAC address (or it has none and both answer with the broadcast
      address). */
  lemma AgreesIff(s: State, now: nat)
    ensures (forall da, brMac :: Reply(s, s.c.ip, da, now, brMac) == Destination(s.t, s.c.ip, da, now, brMac))
       <==> var a := Ipv4Addr(s.c.ip);
            if a in s.t then !Expired(s.t[a].age, now) && s.t[a].mac == s.c.mac
            else s.c.ip[3] == 0xFF && s.c.mac == BROADCAST_MAC
  {
    hide Ipv4Addr;
    var other: Mac := if s.c.mac == ZERO_MAC then BROADCAST_MAC else ZERO_MAC;
    assert Reply(s, s.c.ip, other, now, other) == s.c.mac != other;
  }

  /** Whatever its destination was, a frame for the address goes to this MAC address. */
  ghost predicate Answered(s: State, mac: Mac, ip: Ip, now: nat) {
    forall da, brMac :: Reply(s, ip, da, now, brMac) == mac
  }

  /** The table has the client, no older than this, and the short cut does not contradict it. */
  predicate Settled(s: State, mac: Mac, ip: Ip, from: nat) {
    var a := Ipv4Addr(ip);
    a in s.t && s.t[a].mac == mac && s.t[a].age >= from && (s.c.ip == ip ==> s.c.mac == mac)
  }

  /** The step says nothing new about the address, and takes place while an entry of that age lives. */
  predicate QuietStep(e: Step, ip: Ip, from: nat) {
    match e
    case Send(_, other, now, _) => other != ip && from <= now < from + AGEING
    case Other(e) => R.Silent(e, Ipv4Addr(ip)) && R.Within(e, from, from + AGEING)
  }

  ghost predicate QuietRun(steps: seq<Step>, ip: Ip, from: nat) {
    forall i :: 0 <= i < |steps| ==> QuietStep(steps[i], ip, from)
  }

  lemma SettledStep(s: State, e: Step, mac: Mac, ip: Ip, from: nat)
    requires ip != ZERO_IP && Settled(s, mac, ip, from) && QuietStep(e, ip, from)
    ensures Settled(After(s, e), mac, ip, from)
  {
    hide Ipv4Addr;
    if e.Send? && Ipv4Addr(e.ip) == Ipv4Addr(ip) {
      Ipv4AddrInjective(e.ip, ip);
    }
  }

  lemma {:induction false} SettledRun(s: State, steps: seq<Step>, mac: Mac, ip: Ip, from: nat)
    requires ip != ZERO_IP && Settled(s, mac, ip, from) && QuietRun(steps, ip, from)
    ensures Settled(Run(s, steps), mac, ip, from)
    decreases |steps|
  {
    hide Settled, QuietStep, After;
    if steps != [] {
      SettledStep(s, steps[0], mac, ip, from);
      SettledRun(After(s, steps[0]), steps[1..], mac, ip, from);
    }
  }

  /** Another client that the table knows is aimed at: the short cut no longer answers for the address. */
  function Distraction(mac: Mac, ip: Ip, from: nat): seq<Step> {
    var m: Mac := if mac == ZERO_MAC then BROADCAST_MAC else ZERO_MAC;
    var other: Ip := if ip == ZERO_IP then [0, 0, 0, 1] else ZERO_IP;
    [Other(R.Learn(m, Ipv4Addr(other), from, true)), Send(m, other, from, true)]
  }

  lemma SettledAnswers(s: State, mac: Mac, ip: Ip, from: nat, now: nat)
    requires Settled(s, mac, ip, from) && now < from + AGEING
    ensures Answered(s, mac, ip, now)
  {
    hide Ipv4Addr;
  }

  /** Without being settled the client is passed over at once, or as soon as the short cut turns to another. */
  lemma UnsettledFails(s: State, mac: Mac, ip: Ip, from: nat)
    requires Sound(s) && ip != ZERO_IP && mac != BROADCAST_MAC && !Settled(s, mac, ip, from)
    ensures var now := from + AGEING - 1;
            !Answered(s, mac, ip, now) || !Answered(Run(s, Distraction(mac, ip, from)), mac, ip, now)
  {
    hide Ipv4Addr;
    var now, other := from + AGEING - 1, if mac == ZERO_MAC then BROADCAST_MAC else ZERO_MAC;
    if s.c.ip != ip || s.c.mac != mac {
      assert Reply(s, ip, other, now, other) != mac;
    } else {
      DistractionRun(s, mac, ip, from);
      assert Reply(Run(s, Distraction(mac, ip, from)), ip, other, now, other) != mac;
    }
  }

  lemma DistractionRun(s: State, mac: Mac, ip: Ip, from: nat)
    requires s.c.mac == mac && s.c.ip == ip && ip != ZERO_IP
    ensures var r := Run(s, Distraction(mac, ip, from));
            && r.c.ip == ZERO_IP && (Ipv4Addr(ip) in r.t <==> Ipv4Addr(ip) in s.t)
            && (Ipv4Addr(ip) in s.t ==> r.t[Ipv4Addr(ip)] == s.t[Ipv4Addr(ip)])
  {
    hide Ipv4Addr;
    var m: Mac := if mac == ZERO_MAC then BROADCAST_MAC else ZERO_MAC;
    var a := Ipv4Addr(ZERO_IP);
    if a == Ipv4Addr(ip) {
      Ipv4AddrInjective(ZERO_IP, ip);
    }
    var u := After(s, Other(R.Learn(m, a, from, true)));
    var v := After(u, Send(m, ZERO_IP, from, true));
    assert Distraction(mac, ip, from)[1..] == [Send(m, ZERO_IP, from, true)];
    assert [Send(m, ZERO_IP, from, true)][1..] == [];
    assert Run(v, []) == v;
    assert Run(u, [Send(m, ZERO_IP, from, true)]) == v;
  }

  lemma DistractionQuiet(mac: Mac, ip: Ip, from: nat)
    requires ip != ZERO_IP
    ensures QuietRun(Distraction(mac, ip, from), ip, from)
  {
    hide Ipv4Addr;
    if Ipv4Addr(ZERO_IP) == Ipv4Addr(ip) {
      Ipv4AddrInjective(ZERO_IP, ip);
    }
  }

  /** Through every run that says nothing new about the address, frames for it go to this MAC address. */
  ghost predicate Transparent(s: State, mac: Mac, ip: Ip, from: nat) {
    forall steps: seq<Step>, now: nat :: QuietRun(steps, ip, from) && now < from + AGEING ==>
      Answered(Run(s, steps), mac, ip, now)
  }

  /** Frames for a client keep reaching it until its entry ages, whatever else happens, if and only if the table
      has it and the short cut does not contradict the table. */
  lemma TransparentIff(s: State, mac: Mac, ip: Ip, from: nat)
    requires Sound(s) && ip != ZERO_IP && mac != BROADCAST_MAC
    ensures Settled(s, mac, ip, from) <==> Transparent(s, mac, ip, from)
  {
    hide Settled, Answered, QuietStep;
    if Settled(s, mac, ip, from) {
      forall steps: seq<Step>, now: nat | QuietRun(steps, ip, from) && now < from + AGEING
        ensures Answered(Run(s, steps), mac, ip, now)
      {
        SettledRun(s, steps, mac, ip, from);
        SettledAnswers(Run(s, steps), mac, ip, from, now);
      }
    } else {
      UnsettledFails(s, mac, ip, from);
      DistractionQuiet(mac, ip, from);
      var now := from + AGEING - 1;
      if Answered(Run(s, []), mac, ip, now) {
        PassedOver(s, mac, ip, from, Distraction(mac, ip, from), now);
      } else {
        PassedOver(s, mac, ip, from, [], now);
      }
    }
  }

  lemma PassedOver(s: State, mac: Mac, ip: Ip, from: nat, steps: seq<Step>, now: nat)
    requires QuietRun(steps, ip, from) && now < from + AGEING && !Answered(Run(s, steps), mac, ip, now)
    ensures !Transparent(s, mac, ip, from)
  {
  }

  /** What the frame of a client finds: it is new to the short cut, and the table has it with this MAC address
      already, or has room for it and the short cut is not left over from its address; or the short cut leads to
      it, or to nothing. */
  predicate Welcome(s: State, mac: Mac, ip: Ip, now: nat, room: bool) {
    var a := Ipv4Addr(ip);
    var known := a in s.t && s.t[a].mac == mac;
    if s.c.mac != mac then known || (a !in s.t && room && s.c.ip != ip)
    else if s.c.entry.Some? then known && (s.c.ip == ip || s.t[a].age >= now)
    else a in s.t || room
  }

  lemma SettledIff(s: State, mac: Mac, ip: Ip, now: nat, room: bool)
    requires Sound(s) && ip != ZERO_IP
    ensures Settled(After(s, Send(mac, ip, now, room)), mac, ip, now) <==> Welcome(s, mac, ip, now, room)
  {
    hide Ipv4Addr;
    if s.c.entry.Some? && s.c.entry.value == Ipv4Addr(ip) {
      Ipv4AddrInjective(s.c.ip, ip);
    }
  }

  /** In every reachable state: from its frame on, frames for a client keep reaching it until its entry ages,
      whatever else happens, if and only if its frame was welcome. */
  lemma ClientIff(past: seq<Step>, mac: Mac, ip: Ip, now: nat, room: bool)
    requires ip != ZERO_IP && mac != BROADCAST_MAC
    ensures var s := Run(BEGIN, past);
            Transparent(After(s, Send(mac, ip, now, room)), mac, ip, now) <==> Welcome(s, mac, ip, now, room)
  {
    hide Sound, Settled, Welcome, Transparent, After;
    assert Sound(BEGIN) by { BeginSound(); }
    var s := Run(BEGIN, past);
    SoundRun(BEGIN, past);
    SoundStep(s, Send(mac, ip, now, room));
    SettledIff(s, mac, ip, now, room);
    TransparentIff(After(s, Send(mac, ip, now, room)), mac, ip, now);
  }

  lemma BeginSound()
    ensures Sound(BEGIN)
  {
  }

  /** No frame teaches the table an all-zero IPv4 address; only an ARP frame could. */
  lemma {:induction false} ZeroNotLearned(s: State, steps: seq<Step>)
    requires Ipv4Addr(ZERO_IP) !in s.t
    requires forall i :: 0 <= i < |steps| && steps[i].Other? && steps[i].e.Learn? ==>
               steps[i].e.addr != Ipv4Addr(ZERO_IP)
    ensures Ipv4Addr(ZERO_IP) !in Run(s, steps).t
    decreases |steps|
  {
    hide Ipv4Addr, After;
    if steps != [] {
      ZeroStep(s, steps[0]);
      ZeroNotLearned(After(s, steps[0]), steps[1..]);
    }
  }

  lemma ZeroStep(s: State, e: Step)
    requires Ipv4Addr(ZERO_IP) !in s.t
    requires e.Other? && e.e.Learn? ==> e.e.addr != Ipv4Addr(ZERO_IP)
    ensures Ipv4Addr(ZERO_IP) !in After(s, e).t
  {
    hide Ipv4Addr;
    if e.Send? && Ipv4Addr(e.ip) == Ipv4Addr(ZERO_IP) {
      Ipv4AddrInjective(e.ip, ZERO_IP);
    }
  }

  // Where it fails.

  const BEGIN := State(map[], NO_CUT)
  const MAC1: Mac := [2, 0, 0, 0, 0, 1]
  const MAC2: Mac := [2, 0, 0, 0, 0, 2]
  const MAC3: Mac := [2, 0, 0, 0, 0, 3]
  const IP1: Ip := [10, 0, 0, 1]
  const IP2: Ip := [10, 0, 0, 2]

  lemma FirstStep(s: State, e: Step, steps: seq<Step>)
    ensures Run(s, [e] + steps) == Run(After(s, e), steps)
  {
    assert ([e] + steps)[1..] == steps;
  }

  lemma OneStep(s: State, e: Step)
    ensures Run(s, [e]) == After(s, e)
  {
    assert [e][1..] == [];
  }

  lemma TwoAddresses()
    ensures Ipv4Addr(IP1) != Ipv4Addr(IP2)
  {
    hide Ipv4Addr;
    if Ipv4Addr(IP1) == Ipv4Addr(IP2) {
      Ipv4AddrInjective(IP1, IP2);
    }
  }

  function Aimed1(now: nat): State {
    State(map[Ipv4Addr(IP1) := Rec(MAC1, now, 1)], Cut(MAC1, IP1, Some(Ipv4Addr(IP1))))
  }

  /** A client that sends two frames is learned with the first, and aimed at with the second. */
  lemma AimedAtOne(now: nat, steps: seq<Step>)
    ensures Run(BEGIN, [Send(MAC1, IP1, now, true)] + ([Send(MAC1, IP1, now, true)] + steps)) == Run(Aimed1(now), steps)
  {
    hide Ipv4Addr;
    var s := State(map[Ipv4Addr(IP1) := Rec(MAC1, now, 1)], NO_CUT);
    FirstStep(BEGIN, Send(MAC1, IP1, now, true), [Send(MAC1, IP1, now, true)] + steps);
    assert After(BEGIN, Send(MAC1, IP1, now, true)) == s;
    FirstStep(s, Send(MAC1, IP1, now, true), steps);
    assert After(s, Send(MAC1, IP1, now, true)) == Aimed1(now);
  }

  /** Client 1 is aimed at, client 2 is new, client 1 ages out, and client 3 takes over its address: frames for
      the address still go to client 1, although the table has client 3. */
  lemma StaleShortcut(now: nat)
    requires now >= AGEING
    ensures var run := [Send(MAC1, IP1, 0, true)] + ([Send(MAC1, IP1, 0, true)] + ([Send(MAC2, IP2, 0, true)] +
                       ([Other(R.Pass(now))] + [Send(MAC3, IP1, now, true)])));
            var s := Run(BEGIN, run);
            && Ipv4Addr(IP1) in s.t && s.t[Ipv4Addr(IP1)].mac == MAC3
            && Answered(s, MAC1, IP1, now)
  {
    hide Ipv4Addr;
    TwoAddresses();
    var e2, e3, e4 := Send(MAC2, IP2, 0, true), Other(R.Pass(now)), Send(MAC3, IP1, now, true);
    AimedAtOne(0, [e2] + ([e3] + [e4]));
    var s := After(Aimed1(0), e2);
    FirstStep(Aimed1(0), e2, [e3] + [e4]);
    FirstStep(s, e3, [e4]);
    OneStep(After(s, e3), e4);
    assert s.c == Cut(MAC1, IP1, None);
    assert Ipv4Addr(IP1) !in After(s, e3).t;
  }

  /** A client that takes a second address is not learned with it while the short cut leads to its first. */
  lemma SecondAddress(da: Mac, now: nat, brMac: Mac)
    ensures var first := Send(MAC1, IP1, now, true);
            var s := Run(BEGIN, [first] + ([first] + [Send(MAC1, IP2, now, true)]));
            Ipv4Addr(IP2) !in s.t && Reply(s, IP2, da, now, brMac) == brMac
  {
    hide Ipv4Addr;
    TwoAddresses();
    AimedAtOne(now, [Send(MAC1, IP2, now, true)]);
    OneStep(Aimed1(now), Send(MAC1, IP2, now, true));
  }

  /** A client that takes over a known address is answered only as long as the short cut leads to it: the table
      keeps the MAC address it has. */
  lemma TakenOver(now: nat)
    ensures var first := Send(MAC1, IP1, now, true);
            var s := Run(BEGIN, [first] + ([first] + [Send(MAC2, IP1, now, true)]));
            Answered(s, MAC2, IP1, now) && Ipv4Addr(IP1) in s.t && s.t[Ipv4Addr(IP1)].mac == MAC1
  {
    hide Ipv4Addr;
    AimedAtOne(now, [Send(MAC2, IP1, now, true)]);
    OneStep(Aimed1(now), Send(MAC2, IP1, now, true));
  }
}
