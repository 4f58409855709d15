/** The VLAN part of nat25_handle_frame (core/rtw_br_ext.c): the tag is taken out in place before a frame is
    looked up, and put back afterwards. */
module Vlan {
  import opened Basics

  const ADDRS_LEN := 12
  const TAG_LEN := 4
  const ETH_P_8021Q: seq<Byte> := [0x81, 0x00]

  predicate Tagged(f: seq<Byte>) {
    |f| >= ADDRS_LEN + TAG_LEN && f[ADDRS_LEN..ADDRS_LEN + 2] == ETH_P_8021Q
  }

  /** The frame without its tag. */
  function Untagged(f: seq<Byte>): seq<Byte>
    requires |f| >= ADDRS_LEN + TAG_LEN
  {
    f[..ADDRS_LEN] + f[ADDRS_LEN + TAG_LEN..]
  }

  /** The frame with a tag of the given control field behind its addresses. */
  function Retagged(f: seq<Byte>, tci: seq<Byte>): seq<Byte>
    requires |f| >= ADDRS_LEN && |tci| == 2
  {
    f[..ADDRS_LEN] + ETH_P_8021Q + tci + f[ADDRS_LEN..]
  }

  /** The first loop: the addresses move up over the tag, the last two octets first. What follows the first
      four octets is then the frame without its tag. */
  method MoveUp(a: array<Byte>)
    requires a.Length >= ADDRS_LEN + TAG_LEN
    modifies a
    ensures a[TAG_LEN..] == Untagged(old(a[..]))
  {
    var i := 0;
    while i < 6
      invariant 0 <= i <= 6
      invariant forall k :: 16 - 2 * i <= k < 16 ==> a[k] == old(a[k - 4])
      invariant forall k :: 0 <= k < 16 - 2 * i ==> a[k] == old(a[k])
      invariant forall k :: 16 <= k < a.Length ==> a[k] == old(a[k])
    {
      a[14 - 2 * i], a[15 - 2 * i] := a[10 - 2 * i], a[11 - 2 * i];
      i := i + 1;
    }
  }

  /** The second loop and the writing of the tag, for a frame of n octets that the lookup has left. */
  method PutBack(a: array<Byte>, tci: seq<Byte>, ghost n: nat)
    requires ADDRS_LEN <= n <= a.Length - TAG_LEN && |tci| == 2
    modifies a
    ensures a[..] == Retagged(old(a[TAG_LEN..]), tci)
    ensures a[..n + TAG_LEN] == Retagged(old(a[TAG_LEN..n + TAG_LEN]), tci)
  {
    var i := 0;
    while i < 6
      invariant 0 <= i <= 6
      invariant forall k :: 0 <= k < 2 * i ==> a[k] == old(a[k + 4])
      invariant forall k :: 2 * i <= k < a.Length ==> a[k] == old(a[k])
    {
      a[2 * i], a[2 * i + 1] := a[4 + 2 * i], a[5 + 2 * i];
      i := i + 1;
    }
    a[12], a[13] := ETH_P_8021Q[0], ETH_P_8021Q[1];
    a[14], a[15] := tci[0], tci[1];
    RetaggedPrefix(old(a[TAG_LEN..]), tci, n);
    assert a[..] == Retagged(old(a[TAG_LEN..]), tci);
    assert old(a[TAG_LEN..])[..n] == old(a[TAG_LEN..n + TAG_LEN]) && a[..][..n + TAG_LEN] == a[..n + TAG_LEN];
  }

  /** A frame that got shorter in the same buffer: its tag is put back by the same writes. */
  lemma RetaggedPrefix(g: seq<Byte>, tci: seq<Byte>, n: nat)
    requires ADDRS_LEN <= n <= |g| && |tci| == 2
    ensures Retagged(g, tci)[..n + TAG_LEN] == Retagged(g[..n], tci)
  {
  }

  /** The tag lies behind the two addresses: the type 0x8100 and the control field (section 9.3 of IEEE 802.1Q). */
  lemma TagLayout(da: seq<Byte>, sa: seq<Byte>, tci: seq<Byte>, rest: seq<Byte>)
    requires |da| == 6 == |sa| && |tci| == 2
    ensures var f := da + sa + [0x81, 0x00] + tci + rest;
            && Tagged(f) && Untagged(f) == da + sa + rest && f == Retagged(da + sa + rest, tci)
  {
    var g := da + sa + rest;
    assert g[..12] == da + sa && g[12..] == rest;
  }

  /** Whatever the lookup makes of the untagged frame, of whatever length, the frame g it leaves is sent on with
      the tag of the original: taking the tag out again gives g, and a lookup that changes nothing gives the
      original frame back. */
  lemma TagSurvives(f: seq<Byte>, g: seq<Byte>)
    requires Tagged(f) && |g| >= ADDRS_LEN
    ensures var sent := Retagged(g, f[ADDRS_LEN + 2..ADDRS_LEN + 4]);
            && Tagged(sent) && Untagged(sent) == g && |sent| == |g| + TAG_LEN
            && sent[ADDRS_LEN..ADDRS_LEN + TAG_LEN] == f[ADDRS_LEN..ADDRS_LEN + TAG_LEN]
            && (g == Untagged(f) <==> sent == f)
  {
    var sent := Retagged(g, f[ADDRS_LEN + 2..ADDRS_LEN + 4]);
    assert Untagged(sent) == g;
    assert f[ADDRS_LEN..ADDRS_LEN + TAG_LEN] == f[ADDRS_LEN..ADDRS_LEN + 2] + f[ADDRS_LEN + 2..ADDRS_LEN + 4];
    if g == Untagged(f) {
      assert sent == f;
    }
  }
}
