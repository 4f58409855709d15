/** The BSS description (WLAN_BSSID_EX, include/wlan_bssdef.h) whose element buffer the editors work on. */
module Bss {
  import opened Basics
  import opened Tlv

  /** Capacity of the element buffer. */
  const MAX_IE_SZ: nat := 768

  /** A BSS description: the element buffer, the octets used of it, and whether it describes a probe
      request, whose elements do not follow 12 octets of fixed fields. */
  class BssEx {
    const IEs: array<Byte>
    const probeReq: bool
    var IELength: nat

    function Offset(): nat { if probeReq then 0 else 12 }

    ghost predicate Holds(ts: seq<Item>)
      reads this, IEs
    {
      && IEs.Length == MAX_IE_SZ
      && LaidOut(Element, IEs[..], Offset(), ts)
      && IELength == Offset() + Size(Element, ts) <= MAX_IE_SZ
    }
  }
}
