/** Frames through the NAT2.5 bridge: the IPv4 and ARP parts of nat25_db_handle (core/rtw_br_ext.c). */
module Nat25Frames {
  import opened Basics
  import opened Tlv
  import opened Nat25Table
  import opened Nat25Db
  import opened Nat25Runs
  import S = Nat25Shortcut

  /** The NAT25_METHOD values the bridge is called with. */
  datatype Method = Check | InsertM | LookupM

  /** Offsets in an Ethernet frame. */
  const SA_AT: nat := 6
  const IP_AT: nat := 14
  const SADDR_AT: nat := 26
  const DADDR_AT: nat := 30
  const ARP_PTR: nat := 22

  predicate IpFrame(f: seq<Byte>) {
    |f| >= 34
  }

  /** An ARP frame, whatever address lengths it announces. */
  predicate ArpFrame(f: seq<Byte>) {
    |f| >= ARP_PTR + 6 && |f| >= ArpTargetIp(f) + 4 && |f| >= ArpTargetMac(f) + 6
  }

  function ArpSenderIp(f: seq<Byte>): nat
    requires |f| >= ARP_PTR
  {
    ARP_PTR + f[18]
  }

  function ArpTargetMac(f: seq<Byte>): nat
    requires |f| >= ARP_PTR
  {
    ARP_PTR + f[18] + f[19]
  }

  function ArpTargetIp(f: seq<Byte>): nat
    requires |f| >= ARP_PTR
  {
    ARP_PTR + f[18] + f[18] + f[19]
  }

  /** The header length field runs past the frame, as the driver tests it. */
  predicate Malformed(f: seq<Byte>)
    requires IpFrame(f)
  {
    f[IP_AT] % 16 * 4 >= |f|
  }

  /** Octet 14 of the frame is the IP version and the header length in words of four octets. */
  predicate Header(f: seq<Byte>, version: nat, ihl: nat) {
    |f| >= 34 && ihl < 16 && f[14] == 16 * version + ihl
  }

  lemma MalformedIff(f: seq<Byte>, version: nat, ihl: nat)
    requires Header(f, version, ihl)
    ensures Malformed(f) <==> 4 * ihl >= |f|
  {
    assert (16 * version + ihl) % 16 == ihl;
  }

  /** The destination nat25_db_handle gives an IPv4 frame. */
  function IpDestination(t: Table, f: seq<Byte>, now: nat, brMac: Mac): Mac
    requires IpFrame(f)
  {
    S.Destination(t, f[DADDR_AT..DADDR_AT + 4], f[..6], now, brMac)
  }

  /** The frame after an ARP lookup: the answer, or the old destination, in both places. */
  function ArpAnswered(t: Table, f: seq<Byte>, now: nat): seq<Byte>
    requires ArpFrame(f)
  {
    var a := Ipv4Addr(f[ArpTargetIp(f)..ArpTargetIp(f) + 4]);
    var m := Answer(t, a, now);
    var da: Mac := if m.Some? then m.value else f[..6];
    var at := ArpTargetMac(f);
    da + f[6..at] + da + f[at + 6..]
  }

  /** The record of the address at offset i. */
  function AddrAt(f: seq<Byte>, i: nat): Addr
    requires i + 4 <= |f|
  {
    Ipv4Addr(f[i..i + 4])
  }

  /** What the table learns from an IPv4 frame; nothing from an all-zero source address. */
  function IpLearned(t: Table, f: seq<Byte>, now: nat, room: bool): Table
    requires IpFrame(f)
  {
    if f[SADDR_AT..SADDR_AT + 4] == [0, 0, 0, 0] then t
    else After(t, Learn(f[SA_AT..SA_AT + 6], AddrAt(f, SADDR_AT), now, room))
  }

  /** NAT25_INSERT of an IPv4 frame. */
  method InsertIp(bridge: Bridge, frame: array<Byte>, now: nat, room: bool)
    requires bridge.Valid() && IpFrame(frame[..])
    modifies bridge`chains, bridge`at, bridge.nethash, bridge.at.Values
    ensures bridge.Valid() && bridge.Contents() == IpLearned(old(bridge.Contents()), frame[..], now, room)
  {
    hide Bridge.Valid, Bridge.Contents, Ipv4Addr;
    var saddr: seq<Byte> := frame[SADDR_AT..SADDR_AT + 4];
    if saddr != [0, 0, 0, 0] {
      bridge.Insert(frame[SA_AT..SA_AT + 6], Ipv4Addr(saddr), now, room);
    }
  }

  /** NAT25_LOOKUP of an IPv4 frame. */
  method LookupIp(bridge: Bridge, frame: array<Byte>, now: nat, brMac: Mac)
    requires bridge.Valid() && IpFrame(frame[..])
    modifies bridge.at.Values, frame
    ensures bridge.Valid()
    ensures bridge.Contents() == After(old(bridge.Contents()), Look(AddrAt(old(frame[..]), DADDR_AT), now))
    ensures frame[..] == IpDestination(old(bridge.Contents()), old(frame[..]), now, brMac) + old(frame[6..])
  {
    hide Bridge.Valid, Bridge.Contents, Ipv4Addr, LookedUp;
    var daddr: seq<Byte> := frame[DADDR_AT..DADDR_AT + 4];
    var last := frame[DADDR_AT + 3];
    ghost var f := frame[..];
    var found := bridge.Lookup(frame, Ipv4Addr(daddr), now);
    if !found {
      MemCopy(frame, 0, if last == 0xFF then S.BROADCAST_MAC else brMac);
    }
    assert f == f[..6] + f[6..];
  }

  /** The IPv4 part of nat25_db_handle; false stands for -1. */
  method HandleIp(bridge: Bridge, frame: array<Byte>, what: Method, now: nat, room: bool, brMac: Mac)
    returns (ok: bool)
    requires bridge.Valid() && IpFrame(frame[..])
    modifies bridge`chains, bridge`at, bridge.nethash, bridge.at.Values, frame
    ensures bridge.Valid() && (ok <==> !Malformed(old(frame[..])) && what != Check)
    ensures what == Check ==> bridge.at == old(bridge.at)
    ensures !ok ==> bridge.Contents() == old(bridge.Contents()) && frame[..] == old(frame[..])
    ensures ok && what == InsertM ==>
              && frame[..] == old(frame[..])
              && bridge.Contents() == IpLearned(old(bridge.Contents()), old(frame[..]), now, room)
    ensures ok && what == LookupM ==>
              && frame[..] == IpDestination(old(bridge.Contents()), old(frame[..]), now, brMac) + old(frame[6..])
              && bridge.Contents() == After(old(bridge.Contents()), Look(AddrAt(old(frame[..]), DADDR_AT), now))
  {
    hide Bridge.Valid, Bridge.Contents, AddrAt, IpDestination, IpLearned, After;
    ok := false;
    if frame[IP_AT] % 16 * 4 < frame.Length {
      match what {
        case Check =>
        case InsertM =>
          InsertIp(bridge, frame, now, room);
          ok := true;
        case LookupM =>
          LookupIp(bridge, frame, now, brMac);
          ok := true;
      }
    }
  }

  /** What the table learns from an ARP frame. */
  function ArpLearned(t: Table, f: seq<Byte>, now: nat, room: bool): Table
    requires ArpFrame(f)
  {
    After(t, Learn(f[SA_AT..SA_AT + 6], AddrAt(f, ArpSenderIp(f)), now, room))
  }

  /** The ARP part of nat25_db_handle; -1 for an address protocol other than IPv4. */
  method HandleArp(bridge: Bridge, frame: array<Byte>, what: Method, now: nat, room: bool, myMac: Mac)
    returns (ok: bool)
    requires bridge.Valid() && ArpFrame(frame[..])
    modifies bridge, bridge.nethash, bridge.at.Values, frame
    ensures bridge.Valid() && (ok <==> old(frame[16..18]) == [0x08, 0x00])
    ensures !ok || what == Check ==> bridge.Contents() == old(bridge.Contents()) && frame[..] == old(frame[..])
    ensures ok && what == InsertM ==>
              && frame[..] == old(frame[..ARP_PTR]) + myMac + old(frame[ARP_PTR + 6..])
              && bridge.Contents() == ArpLearned(old(bridge.Contents()), frame[..], now, room)
    ensures ok && what == LookupM ==>
              && frame[..] == ArpAnswered(old(bridge.Contents()), old(frame[..]), now)
              && bridge.Contents() == After(old(bridge.Contents()), Look(AddrAt(old(frame[..]),
                        ArpTargetIp(old(frame[..]))), now))
  {
    hide Bridge.Valid, Bridge.Contents, AddrAt, ArpAnswered, ArpLearned, After;
    if frame[16..18] != [0x08, 0x00] {
      return false;
    }
    match what {
      case Check =>
      case InsertM => InsertArp(bridge, frame, now, room, myMac);
      case LookupM => LookupArp(bridge, frame, now);
    }
    ok := true;
  }

  /** NAT25_INSERT of an ARP frame: the sender's MAC address is hidden behind the bridge's own before
      the sender's IP address is read. */
  method InsertArp(bridge: Bridge, frame: array<Byte>, now: nat, room: bool, myMac: Mac)
    requires bridge.Valid() && ArpFrame(frame[..])
    modifies bridge, bridge.nethash, bridge.at.Values, frame
    ensures bridge.Valid() && frame[..] == old(frame[..ARP_PTR]) + myMac + old(frame[ARP_PTR + 6..])
    ensures ArpFrame(frame[..]) && bridge.Contents() == ArpLearned(old(bridge.Contents()), frame[..], now, room)
  {
    hide Bridge.Valid, Bridge.Contents, Ipv4Addr, Inserted;
    MemCopy(frame, ARP_PTR, myMac);
    var sender := ARP_PTR + frame[18];
    var ip: seq<Byte> := frame[sender..sender + 4];
    bridge.Insert(frame[SA_AT..SA_AT + 6], Ipv4Addr(ip), now, room);
  }

  /** NAT25_LOOKUP of an ARP frame. */
  method LookupArp(bridge: Bridge, frame: array<Byte>, now: nat)
    requires bridge.Valid() && ArpFrame(frame[..])
    modifies bridge.at.Values, frame
    ensures bridge.Valid()
    ensures frame[..] == ArpAnswered(old(bridge.Contents()), old(frame[..]), now)
    ensures bridge.Contents() == After(old(bridge.Contents()), Look(AddrAt(old(frame[..]),
              ArpTargetIp(old(frame[..]))), now))
  {
    hide Bridge.Valid, Bridge.Contents, Ipv4Addr, LookedUp, ArpAnswered;
    ghost var f, t := frame[..], bridge.Contents();
    var target := ArpTargetIp(frame[..]);
    var mac := ArpTargetMac(frame[..]);
    var ip: seq<Byte> := frame[target..target + 4];
    var found := bridge.Lookup(frame, Ipv4Addr(ip), now);
    ghost var h := frame[..];
    CopyDestination(frame, mac);
    ArpWritten(t, f, h, frame[..], now);
  }

  /** The two writes of the answer: h after the lookup, g after the destination has been copied. */
  lemma ArpWritten(t: Table, f: seq<Byte>, h: seq<Byte>, g: seq<Byte>, now: nat)
    requires ArpFrame(f)
    requires var a := Ipv4Addr(f[ArpTargetIp(f)..ArpTargetIp(f) + 4]);
             h == if a in t && !Expired(t[a].age, now) then t[a].mac + f[6..] else f
    requires var at := ArpTargetMac(f); g == h[..6] + h[6..at] + h[..6] + h[at + 6..]
    ensures g == ArpAnswered(t, f, now)
  {
    hide Ipv4Addr;
    var da: Mac := h[..6];
    assert h == da + f[6..];
    ArpOctets(f, da, g, ArpTargetMac(f));
  }

  method CopyDestination(frame: array<Byte>, at: nat)
    requires 6 <= at && at + 6 <= frame.Length
    modifies frame
    ensures frame[..] == old(frame[..6]) + old(frame[6..at]) + old(frame[..6]) + old(frame[at + 6..])
  {
    ghost var f := frame[..];
    MemCopy(frame, at, frame[..6]);
    assert f[..at] == f[..6] + f[6..at];
  }

  lemma ArpOctets(f: seq<Byte>, da: Mac, g: seq<Byte>, at: nat)
    requires 6 <= at && at + 6 <= |f|
    requires var h := da + f[6..]; g == h[..6] + h[6..at] + h[..6] + h[at + 6..]
    ensures g == da + f[6..at] + da + f[at + 6..]
  {
    var h := da + f[6..];
    assert h[..6] == da && h[6..at] == f[6..at] && h[at + 6..] == f[at + 6..];
  }

  /** The short cut and the table after an IPv4 frame of a client. An ill-formed frame of a new sender is not learned
      from. */
  function SentState(s: S.State, f: seq<Byte>, now: nat, room: bool): S.State
    requires IpFrame(f)
  {
    var mac, ip := f[SA_AT..SA_AT + 6], f[SADDR_AT..SADDR_AT + 4];
    var to := S.Aimed(s.t, s.c, mac, ip);
    if to.entry.None? && Malformed(f) then S.State(s.t, to)
    else S.State(S.SentTable(s.t, s.c, mac, ip, now, room), to)
  }

  /** What becomes of a frame for a client when neither the bridge nor the short cut is switched off. */
  function ReceivedFrame(s: S.State, f: seq<Byte>, now: nat, brMac: Mac): seq<Byte>
    requires IpFrame(f)
  {
    var ip := f[DADDR_AT..DADDR_AT + 4];
    if f[0] % 2 == 1 then f
    else if s.c.ip == ip then s.c.mac + f[6..]
    else if Malformed(f) then f
    else IpDestination(s.t, f, now, brMac) + f[6..]
  }

  /** rtw_br_client_tx, of an IPv4 frame without a VLAN tag, up to the change of the DHCP flags. An ill-formed
      frame of a new sender goes on as it is. */
  method SendIp(bridge: Bridge, frame: array<Byte>, now: nat, room: bool, brMac: Mac, myMac: Mac)
    requires bridge.Valid() && IpFrame(frame[..])
    modifies bridge, bridge.nethash, bridge.at.Values, frame
    ensures bridge.Valid()
    ensures var s, f := S.State(old(bridge.Contents()), old(bridge.Shortcut())), old(frame[..]);
            && S.State(bridge.Contents(), bridge.Shortcut()) == SentState(s, f, now, room)
            && frame[..] == (if bridge.Shortcut().entry.None? && Malformed(f) then f else f[..6] + myMac + f[12..])
  {
    hide Bridge.Valid, Bridge.Contents, Bridge.Shortcut, Ipv4Addr, S.Aimed, IpDestination, Malformed;
    ghost var f := frame[..];
    var learn := bridge.Adopt(frame[SA_AT..SA_AT + 6], frame[SADDR_AT..SADDR_AT + 4], now);
    if learn {
      var _ := HandleIp(bridge, frame, Check, now, room, brMac);
      var ok := HandleIp(bridge, frame, InsertM, now, room, brMac);
      if !ok {
        return;
      }
    }
    MemCopy(frame, SA_AT, myMac);
  }

  /** nat25_handle_frame, of an IPv4 frame without a VLAN tag: the short cut answers before the table. */
  method ReceiveIp(bridge: Bridge, frame: array<Byte>, now: nat, disabled: bool, cutDisabled: bool,
                   brIp: S.Ip, brMac: Mac)
    returns (ok: bool)
    requires bridge.Valid() && IpFrame(frame[..])
    modifies bridge`chains, bridge`at, bridge.nethash, bridge.at.Values, frame
    ensures bridge.Valid()
    ensures var s, f := S.State(old(bridge.Contents()), old(bridge.Shortcut())), old(frame[..]);
            var ip := f[DADDR_AT..DADDR_AT + 4];
            && (!disabled && !cutDisabled ==> frame[..] == ReceivedFrame(s, f, now, brMac))
            && if f[0] % 2 == 1 || (disabled && brIp != ip) then
              ok && frame[..] == f && bridge.Contents() == s.t
            else if !disabled && !cutDisabled && s.c.ip == ip then
              ok && frame[..] == S.Reply(s, ip, f[..6], now, brMac) + f[6..] && bridge.Contents() == s.t
            else if Malformed(f) then
              !ok && frame[..] == f && bridge.Contents() == s.t
            else
              && ok && bridge.Contents() == After(s.t, Look(AddrAt(f, DADDR_AT), now))
              && frame[..] == IpDestination(s.t, f, now, brMac) + f[6..]
              && (s.c.ip != ip ==> frame[..] == S.Reply(s, ip, f[..6], now, brMac) + f[6..])
  {
    hide Bridge.Valid, Bridge.Contents, AddrAt, After, S.Destination, Malformed;
    ok := true;
    if frame[0] % 2 == 1 {
      return;
    }
    var ip: seq<Byte> := frame[DADDR_AT..DADDR_AT + 4];
    if disabled {
      if brIp == ip {
        ok := HandleIp(bridge, frame, LookupM, now, false, brMac);
      }
    } else if !cutDisabled && bridge.scdbIp == ip {
      MemCopy(frame, 0, bridge.scdbMac);
    } else {
      ok := HandleIp(bridge, frame, LookupM, now, false, brMac);
    }
  }

  /** An IPv4 client behind the bridge: after a frame f of its own has been learned from, and as long as
      its address is not learned from another frame, touched or cleaned up, a frame g for its address is
      given its MAC address as the destination, up to the moment the entry ages out. */
  lemma IpTransparent(t: Table, f: seq<Byte>, learned: nat, room: bool, es: seq<Event>, g: seq<Byte>, now: nat,
            brMac: Mac)
    requires IpFrame(f) && IpFrame(g) && f[SADDR_AT..SADDR_AT + 4] != [0, 0, 0, 0]
    requires g[DADDR_AT..DADDR_AT + 4] == f[SADDR_AT..SADDR_AT + 4]
    requires AddrAt(f, SADDR_AT) in t || room
    requires Quiet(es, AddrAt(f, SADDR_AT), 0, now + 1) && now < learned + AGEING
    ensures IpDestination(AfterAll(IpLearned(t, f, learned, room), es), g, now, brMac) == f[SA_AT..SA_AT + 6]
  {
    AnswerIff(t, f[SA_AT..SA_AT + 6], AddrAt(f, SADDR_AT), learned, room, es, now);
  }

  // Whole frames and the short cut.

  /** Frames of a client and for it, unicast and with a header that ends within the frame. */
  predicate Proper(f: seq<Byte>, version: nat, ihl: nat) {
    Header(f, version, ihl) && 4 * ihl < |f|
  }

  predicate FrameFor(g: seq<Byte>, version: nat, ihl: nat, ip: S.Ip) {
    Proper(g, version, ihl) && g[0] % 2 == 0 && g[30..34] == ip
  }

  /** A proper frame is a step of the short cut and the table, with the octets at 6 and 26. */
  lemma SendStep(s: S.State, f: seq<Byte>, version: nat, ihl: nat, now: nat, room: bool)
    requires Proper(f, version, ihl)
    ensures SentState(s, f, now, room) == S.After(s, S.Send(f[6..12], f[26..30], now, room))
  {
    hide Malformed, S.Aimed, S.SentTable;
    MalformedIff(f, version, ihl);
  }

  /** A proper unicast frame is given the answer for the octets at 30. */
  lemma ReplyStep(s: S.State, g: seq<Byte>, version: nat, ihl: nat, ip: S.Ip, now: nat, brMac: Mac)
    requires FrameFor(g, version, ihl, ip)
    ensures ReceivedFrame(s, g, now, brMac) == S.Reply(s, ip, g[..6], now, brMac) + g[6..]
  {
    hide Malformed, S.Destination;
    MalformedIff(g, version, ihl);
  }

  /** Every proper frame for the address goes to this MAC address. */
  ghost predicate Reached(s: S.State, mac: Mac, ip: S.Ip, now: nat) {
    forall g: seq<Byte>, version: nat, ihl: nat, brMac: Mac :: FrameFor(g, version, ihl, ip) ==>
      ReceivedFrame(s, g, now, brMac) == mac + g[6..]
  }

  /** The shortest frame for the address with a header of five words. */
  function Shortest(da: Mac, ip: S.Ip): seq<Byte> {
    da + [0, 0, 0, 0, 0, 0, 8, 0] + ([0x45, 0, 0, 20, 0, 0, 0, 0] + [64, 0, 0, 0, 0, 0, 0, 0] + ip)
  }

  lemma ShortestIs(da: Mac, ip: S.Ip)
    ensures var g := Shortest(da, ip); |g| == 34 && g[..6] == da && g[0] == da[0] && g[14] == 69 && g[30..34] == ip
  {
  }

  lemma FrontEqual(x: Mac, y: Mac, rest: seq<Byte>)
    requires x + rest == y + rest
    ensures x == y
  {
    assert (x + rest)[..6] == x && (y + rest)[..6] == y;
  }

  /** Unicast frames show whether the address is answered with the MAC address. */
  lemma ReachedIff(s: S.State, mac: Mac, ip: S.Ip, now: nat)
    ensures Reached(s, mac, ip, now) <==> S.Answered(s, mac, ip, now)
  {
    hide S.Destination, Shortest, ReceivedFrame, FrameFor;
    if S.Answered(s, mac, ip, now) {
      AnsweredReached(s, mac, ip, now);
    } else {
      var da: Mac, brMac: Mac :| S.Reply(s, ip, da, now, brMac) != mac;
      var u: Mac := if mac == S.ZERO_MAC then [2, 0, 0, 0, 0, 0] else S.ZERO_MAC;
      UnicastWill(s, ip, da, u, mac, now, brMac);
      var g := Shortest(u, ip);
      ShortestFor(u, ip);
      FrameHas(g, 4, 5, ip);
      ReplyStep(s, g, 4, 5, ip, now, brMac);
      if ReceivedFrame(s, g, now, brMac) == mac + g[6..] {
        FrontEqual(S.Reply(s, ip, g[..6], now, brMac), mac, g[6..]);
      }
    }
  }

  lemma AnsweredReached(s: S.State, mac: Mac, ip: S.Ip, now: nat)
    requires S.Answered(s, mac, ip, now)
    ensures Reached(s, mac, ip, now)
  {
    hide S.Destination, ReceivedFrame, S.Reply;
    forall g: seq<Byte>, version: nat, ihl: nat, brMac: Mac | FrameFor(g, version, ihl, ip)
      ensures ReceivedFrame(s, g, now, brMac) == mac + g[6..]
    {
      ReplyStep(s, g, version, ihl, ip, now, brMac);
    }
  }

  lemma FrameHas(g: seq<Byte>, version: nat, ihl: nat, ip: S.Ip)
    requires FrameFor(g, version, ihl, ip)
    ensures |g| >= 34
  {
  }

  lemma ShortestFor(u: Mac, ip: S.Ip)
    requires u[0] % 2 == 0
    ensures FrameFor(Shortest(u, ip), 4, 5, ip) && Shortest(u, ip)[..6] == u
  {
    ShortestIs(u, ip);
    hide Shortest;
  }

  lemma UnicastWill(s: S.State, ip: S.Ip, da: Mac, u: Mac, mac: Mac, now: nat, brMac: Mac)
    requires S.Reply(s, ip, da, now, brMac) != mac && u != mac
    ensures S.Reply(s, ip, u, now, brMac) != mac
  {
    hide Ipv4Addr;
  }

  /** Through every run that says nothing new about the address, proper frames for it go to this MAC address. */
  ghost predicate FramesReach(s: S.State, mac: Mac, ip: S.Ip, from: nat) {
    forall steps: seq<S.Step>, now: nat :: S.QuietRun(steps, ip, from) && now < from + AGEING ==>
      Reached(S.Run(s, steps), mac, ip, now)
  }

  lemma FramesReachIff(s: S.State, mac: Mac, ip: S.Ip, from: nat)
    ensures FramesReach(s, mac, ip, from) <==> S.Transparent(s, mac, ip, from)
  {
    hide Reached, S.Answered, S.Run, S.QuietRun;
    forall steps: seq<S.Step>, now: nat
      ensures Reached(S.Run(s, steps), mac, ip, now) <==> S.Answered(S.Run(s, steps), mac, ip, now)
    {
      ReachedIff(S.Run(s, steps), mac, ip, now);
    }
  }

  /** In every reachable state: from a proper frame of a client on, proper frames for its address reach its MAC address
      until its entry ages, whatever else happens, if and only if its frame was welcome. */
  lemma FrameClientIff(past: seq<S.Step>, f: seq<Byte>, version: nat, ihl: nat, now: nat, room: bool)
    requires Proper(f, version, ihl) && f[26..30] != [0, 0, 0, 0]
    requires f[6..12] != [0xFF, 0xFF, 0xFF, 0xFF, 0xFF, 0xFF]
    ensures var s := S.Run(S.BEGIN, past);
            FramesReach(SentState(s, f, now, room), f[6..12], f[26..30], now) <==>
              S.Welcome(s, f[6..12], f[26..30], now, room)
  {
    hide SentState, S.Welcome, S.Transparent, FramesReach, S.After, S.Run;
    var s := S.Run(S.BEGIN, past);
    SendStep(s, f, version, ihl, now, room);
    S.ClientIff(past, f[6..12], f[26..30], now, room);
    FramesReachIff(SentState(s, f, now, room), f[6..12], f[26..30], now);
  }

  /** The usual ARP frame, with addresses of six and four octets. */
  predicate EthernetArp(f: seq<Byte>) {
    |f| >= 42 && f[18] == 6 && f[19] == 4
  }

  /** ARP through the bridge: the request that leaves shows the bridge's MAC address for the client's,
      and an answer for the client's IP address reaches the client's MAC address, in the Ethernet header
      and in the target field, up to the moment the entry ages out. */
  lemma ArpTransparent(t: Table, f: seq<Byte>, learned: nat, room: bool, es: seq<Event>, g: seq<Byte>, now: nat,
            myMac: Mac)
    requires EthernetArp(f) && EthernetArp(g) && g[38..42] == f[28..32]
    requires AddrAt(f, 28) in t || room
    requires Quiet(es, AddrAt(f, 28), 0, now + 1) && now < learned + AGEING
    ensures var sent := f[..ARP_PTR] + myMac + f[ARP_PTR + 6..];
            && sent[22..28] == myMac
            && ArpFrame(sent) && ArpFrame(g)
            && var answered := ArpAnswered(AfterAll(ArpLearned(t, sent, learned, room), es), g, now);
               answered[..6] == f[6..12] && answered[32..38] == f[6..12]
  {
    var sent := f[..ARP_PTR] + myMac + f[ARP_PTR + 6..];
    assert sent[28..32] == f[28..32] && sent[6..12] == f[6..12];
    AnswerIff(t, f[6..12], AddrAt(f, 28), learned, room, es, now);
    var u := AfterAll(ArpLearned(t, sent, learned, room), es);
    assert Answer(u, AddrAt(g, 38), now) == Some(f[6..12]);
  }
}
