/** The rewriting of DHCP requests to broadcast ones (dhcp_flag_bcast in core/rtw_br_ext.c), and what it does
    to the UDP checksum (RFC 768). Numbers of 16 bits are given in network order. */
module Dhcp {

  const BROADCAST_FLAG := 0x8000

  /** The fields of a UDP datagram with a DHCP message that matter here; rest is the sum of all the other
      16-bit words that the checksum covers. */
  datatype Datagram = Datagram(rest: nat, flags: nat, check: nat)

  predicate Valid16(d: Datagram) {
    d.flags < 0x10000 && d.check < 0x10000
  }

  /** One's complement addition takes the words modulo 0xFFFF; the words of a datagram with its checksum add
      up to 0 in it. */
  predicate ChecksumRight(d: Datagram) {
    (d.rest + d.flags + d.check) % 0xFFFF == 0
  }

  /** What a receiver accepts: a checksum of 0 means that the sender made none. */
  predicate Accepted(d: Datagram) {
    d.check == 0 || ChecksumRight(d)
  }

  predicate IsBroadcast(d: Datagram) {
    d.flags >= BROADCAST_FLAG
  }

  lemma FoldStep(sum: nat)
    ensures (sum % 0x10000 + sum / 0x10000) % 0xFFFF == sum % 0xFFFF
    ensures sum >= 0x10000 ==> sum % 0x10000 + sum / 0x10000 < sum
  {
    var q, r := sum / 0x10000, sum % 0x10000;
    assert sum == 0xFFFF * q + (q + r);
    ModAdd(q + r, q);
  }

  lemma {:induction false} ModAdd(x: nat, k: nat)
    ensures (0xFFFF * k + x) % 0xFFFF == x % 0xFFFF
  {
    if k > 0 {
      ModAdd(x, k - 1);
    }
  }

  lemma SameResidue(a: int, b: int)
    requires a % 0xFFFF == b % 0xFFFF
    ensures (b - a) % 0xFFFF == 0
  {
    var p, q := a / 0xFFFF, b / 0xFFFF;
    assert b - a == 0xFFFF * (q - p);
  }

  lemma ResidueOfDifference(x: int, y: int, m: int, f: nat)
    requires x % 0xFFFF == 0 && m % 0xFFFF == 0 && f < BROADCAST_FLAG && y == x + m - f
    ensures y % 0xFFFF == 0 <==> f == 0
  {
    var p, q := x / 0xFFFF, m / 0xFFFF;
    assert y == 0xFFFF * (p + q) - f;
    if y % 0xFFFF == 0 {
      var s := y / 0xFFFF;
      assert f == 0xFFFF * (p + q - s);
    }
  }

  /** r is d after the flag has been set and the new flags word added to the checksum: 0xFFFF - check is the
      running sum, which is never 0. */
  predicate Rewritten(d: Datagram, r: Datagram) {
    && Valid16(r) && r.rest == d.rest && r.flags == d.flags + BROADCAST_FLAG && r.check < 0xFFFF
    && (0xFFFF - r.check) % 0xFFFF == (0xFFFF - d.check + r.flags) % 0xFFFF
  }

  /** The sum of the words after the rewriting. The source adds the whole new flags word, where the old word was
      already counted: it is right exactly when that word was zero. */
  lemma RightIffFlagsZero(d: Datagram, r: Datagram)
    requires Valid16(d) && !IsBroadcast(d) && Rewritten(d, r) && ChecksumRight(d)
    ensures ChecksumRight(r) <==> d.flags == 0
  {
    var a, b := 0xFFFF - r.check, 0xFFFF - d.check + r.flags;
    SameResidue(a, b);
    var x, y := d.rest + d.flags + d.check, r.rest + r.flags + r.check;
    assert y - x == b - a - d.flags;
    ResidueOfDifference(x, y, b - a, d.flags);
  }

  /** A datagram without a checksum is given the complement of its flags for one. */
  lemma NoneBecomes(d: Datagram, r: Datagram)
    requires Valid16(d) && !IsBroadcast(d) && Rewritten(d, r) && d.check == 0
    ensures r.check == 0xFFFF - r.flags
  {
    ModAdd(r.flags, 1);
    SmallResidues(0xFFFF - r.check, r.flags);
  }

  /** Residues of numbers from 1 to 0xFFFF differ when the numbers do. */
  lemma SmallResidues(a: nat, b: nat)
    requires 1 <= a <= 0xFFFF && 1 <= b <= 0xFFFF && a % 0xFFFF == b % 0xFFFF
    ensures a == b
  {
    assert a == 0xFFFF || a % 0xFFFF == a;
    assert b == 0xFFFF || b % 0xFFFF == b;
  }

  /** The new checksum is 0, and so stands for none, exactly when the old one was the new flags word. */
  lemma NoneAfterIff(d: Datagram, r: Datagram)
    requires Valid16(d) && !IsBroadcast(d) && Rewritten(d, r) && d.check != 0
    ensures r.check == 0 <==> d.check == r.flags
  {
    var b := 0xFFFF - d.check + r.flags;
    if r.check == 0 {
      SameResidue(0xFFFF, b);
      SameResidueBack(b, r.flags, d.check);
    }
    if d.check == r.flags {
      SmallResidues(0xFFFF - r.check, 0xFFFF);
    }
  }

  lemma SameResidueBack(b: int, flags: nat, check: nat)
    requires b == 0xFFFF - check + flags && (b - 0xFFFF) % 0xFFFF == 0
    requires 1 <= check <= 0xFFFF && 1 <= flags <= 0xFFFF
    ensures check == flags
  {
    var k := (b - 0xFFFF) / 0xFFFF;
    assert flags - check == 0xFFFF * k;
  }

  /** What a sender can check before: when the datagram is still accepted after the rewriting. With a checksum
      the flags must have been all zero, or the checksum the new flags word, which makes the new one 0. Without
      a checksum the other words must add up to 0, or the flags be all ones but the first. */
  predicate Survives(d: Datagram) {
    || IsBroadcast(d)
    || (d.check != 0 && (d.flags == 0 || d.check == d.flags + BROADCAST_FLAG))
    || (d.check == 0 && (d.flags == 0x7FFF || d.rest % 0xFFFF == 0))
  }

  /** An accepted DHCP request is accepted after the rewriting if and only if it survives. */
  lemma AcceptedIff(d: Datagram, r: Datagram)
    requires Valid16(d) && Accepted(d) && (if IsBroadcast(d) then r == d else Rewritten(d, r))
    ensures Accepted(r) <==> Survives(d)
  {
    if !IsBroadcast(d) {
      if d.check == 0 {
        NoneBecomes(d, r);
        ModAdd(d.rest, 1);
        assert r.rest + r.flags + r.check == 0xFFFF * 1 + d.rest;
      } else {
        RightIffFlagsZero(d, r);
        NoneAfterIff(d, r);
      }
    }
  }

  /** What the words of a DHCPDISCOVER add up to, apart from flags and checksum: the pseudo header from 0.0.0.0 to
      255.255.255.255, ports and length, and a BOOTP message of 300 octets with the transaction id 12345678, the
      hardware address 02:00:00:00:00:01, the magic cookie and the message type option. */
  const DISCOVER: nat :=
    (0xFFFF + 0xFFFF + 0x0011 + 0x0134) + (0x0044 + 0x0043 + 0x0134)
    + (0x0101 + 0x0600 + 0x1234 + 0x5678) + (0x0200 + 0x0000 + 0x0001)
    + (0x6382 + 0x5363) + (0x3501 + 0x01FF)

  /** Requests that are spoilt: one without a checksum and with all flags zero, and one whose checksum was right
      but whose reserved flags are not all zero. */
  lemma SpoiltRequests(d: Datagram, r: Datagram)
    requires d == Datagram(DISCOVER, 0, 0) || d == Datagram(DISCOVER, 1, 0x9D6A)
    requires Rewritten(d, r)
    ensures Accepted(d) && !Accepted(r)
  {
    AcceptedIff(d, r);
  }

  /** The end of dhcp_flag_bcast, for a DHCP request. */
  method FlagBcast(d: Datagram) returns (r: Datagram)
    requires Valid16(d)
    ensures if IsBroadcast(d) then r == d else Rewritten(d, r)
    ensures Accepted(d) ==> (Accepted(r) <==> Survives(d))
  {
    r := d;
    if !IsBroadcast(d) {
      r := r.(flags := d.flags + BROADCAST_FLAG);
      var sum: nat := 0xFFFF - r.check;
      sum := sum + r.flags;
      ghost var whole := sum;
      while sum / 0x10000 > 0
        invariant sum % 0xFFFF == whole % 0xFFFF && sum > 0
        decreases sum
      {
        FoldStep(sum);
        sum := sum % 0x10000 + sum / 0x10000;
      }
      r := r.(check := 0xFFFF - sum);
    }
    if Accepted(d) {
      AcceptedIff(d, r);
    }
  }
}
