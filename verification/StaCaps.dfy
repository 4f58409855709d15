/** The capability accounting of an access point (core/rtw_ap.c): which of seven properties each station is
    held to have, how many stations have each, and what the beacon says about it. */
module StaCaps {
  import opened Basics

  // The words and octets made of flags are records of their fields; the masks of the source each select one.

  /** ht_op_mode: bits 0 and 1, RTW's NON_GF_DEVS_PRESENT (bit 2), TRANSMIT_BURST_LIMIT (bit 3) and
      NON_HT_STA_PRESENT (bit 4). */
  datatype OpModeWord = OpModeWord(mode: OpMode, nonGf: bool, burstLimit: bool, nonHt: bool)

  /** OP_MODE_PURE, OP_MODE_MAY_BE_LEGACY_STAS, OP_MODE_20MHZ_HT_STA_ASSOCED and OP_MODE_MIXED. */
  datatype OpMode = Pure | MayBeLegacy | Some20Mhz | Mixed

  /** The ERP information octet: NON_ERP_PRESENT (bit 0), USE_PROTECTION (bit 1), BARKER_PREAMBLE_MODE
      (bit 2), and the reserved bits. */
  datatype ErpInfo = ErpInfo(nonErpPresent: bool, useProtection: bool, barkerPreamble: bool, reserved: nat)

  /** The HT capability flags that are looked at: IEEE80211_HT_CAP_SUP_WIDTH (0x0002),
      IEEE80211_HT_CAP_GRN_FLD (0x0010) and 40MHZ_INTOLERANT (bit 14). */
  datatype HtCap = HtCap(supWidth: bool, greenField: bool, intolerant: bool)

  /** The 20/40 BSS Coexistence field: 40MHZ_INTOL (bit 1) and 20MHZ_WIDTH_REQ (bit 2). */
  datatype Coex = Coex(intolerant: bool, widthReq: bool)

  const EID_BSS_COEXISTENCE := 72
  const EID_BSS_INTOLERANT_CHL_REPORT := 73

  // The elements of a 20/40 BSS Coexistence Management frame, which are looked for at fixed places of its body.

  predicate HasCoex(body: seq<Byte>, len: nat)
    requires |body| >= 7
  {
    len > 0 && body[2] == EID_BSS_COEXISTENCE && body[3] > 0
  }

  function CoexField(body: seq<Byte>): Coex
    requires |body| >= 7
  {
    Coex(body[4] / 2 % 2 == 1, body[4] / 4 % 2 == 1)
  }

  /** Bit 1 of the octet says that the station does not tolerate 40 MHz, bit 2 that it asks for 20 MHz. */
  lemma CoexBits(body: seq<Byte>, r: nat, i: nat, w: nat, h: nat)
    requires |body| >= 7 && r < 2 && i < 2 && w < 2 && body[4] == r + 2 * i + 4 * w + 8 * h
    ensures CoexField(body) == Coex(i == 1, w == 1)
  {
    assert body[4] / 2 == i + 2 * (w + 2 * h);
    assert body[4] / 4 == w + 2 * h;
  }

  /** A sta_info: what its association request said, and the properties it is held to have. */
  class StaInfo {
    const aid: nat
    var shortPreamble: bool
    var nonErp: bool
    var shortSlot: bool
    var ht: bool
    var htCap: HtCap

    var noShortPreambleSet: bool
    var nonErpSet: bool
    var noShortSlotSet: bool
    var noHtSet: bool
    var noHtGfSet: bool
    var ht20Set: bool
    var ht40Intolerant: bool

    predicate Clear()
      reads this
    {
      && !noShortPreambleSet && !nonErpSet && !noShortSlotSet && !noHtSet && !noHtGfSet && !ht20Set
      && !ht40Intolerant
    }

    /** The two flags that a join sets but never takes back are those the capabilities call for. */
    predicate HtFlagsFresh()
      reads this
    {
      && (noHtGfSet <==> ht && !htCap.greenField)
      && (ht20Set <==> ht && !htCap.supWidth)
    }

    constructor (aid: nat)
      ensures Clear() && this.aid == aid
    {
      this.aid := aid;
      noShortPreambleSet, nonErpSet, noShortSlotSet := false, false, false;
      noHtSet, noHtGfSet, ht20Set, ht40Intolerant := false, false, false, false;
    }
  }

  /** The operating mode the HT Operation element has to announce (section 9.4.2.57 of IEEE 802.11-2016). */
  function ModeFor(nonHt: bool, ht20: bool, supWidth: bool, olbc: bool): OpMode {
    if nonHt then Mixed
    else if supWidth && ht20 then Some20Mhz
    else if olbc then MayBeLegacy
    else Pure
  }

  /** ht_op_mode announces the conditions in all of its fields. */
  predicate Announces(m: OpModeWord, nonGf: bool, nonHt: bool, ht20: bool, supWidth: bool, olbc: bool) {
    && m.mode == ModeFor(nonHt, ht20, supWidth, olbc)
    && m.nonGf == nonGf
    && m.nonHt == (nonHt || olbc)
  }

  /** A flag has changed, for the first station to have it or for the last. */
  predicate FirstOrLast(was: bool, holds: bool, count: int) {
    was != holds && count == if holds then 1 else 0
  }

  /** The fields of an AP's mlme_priv and mlme_ext_priv that keep the accounts. */
  class ApMlme {
    ghost var stas: set<StaInfo>   // the stations that have an entry

    var numNoShortPreamble: int
    var numNonErp: int
    var numNoShortSlot: int
    var numNoHt: int
    var numHtNoGf: int
    var numHt20: int
    var num40Intolerant: int

    var over11b: bool              // cur_wireless_mode > WIRELESS_11B
    var htEnable: bool             // registry: HT enabled and supported by the wireless mode
    var htOption: bool
    var supWidth: bool             // the AP's own capabilities have IEEE80211_HT_CAP_SUP_WIDTH
    var olbcHt: bool
    var htOpMode: OpModeWord
    var ht20WidthReq: bool
    var htIntolerantChReported: bool

    var tim: set<nat>              // tim_bitmap

    var bstartBss: bool
    var erpEnable: bool
    var erp: Option<ErpInfo>          // first octet of the ERP element of the beacon

    ghost function NoShortPreamble(): set<StaInfo>
      reads `stas, stas`noShortPreambleSet
    {
      set s | s in stas && s.noShortPreambleSet
    }

    ghost function NonErp(): set<StaInfo>
      reads `stas, stas`nonErpSet
    {
      set s | s in stas && s.nonErpSet
    }

    ghost function NoShortSlot(): set<StaInfo>
      reads `stas, stas`noShortSlotSet
    {
      set s | s in stas && s.noShortSlotSet
    }

    ghost function NoHt(): set<StaInfo>
      reads `stas, stas`noHtSet
    {
      set s | s in stas && s.noHtSet
    }

    ghost function HtNoGf(): set<StaInfo>
      reads `stas, stas`noHtGfSet
    {
      set s | s in stas && s.noHtGfSet
    }

    ghost function Ht20(): set<StaInfo>
      reads `stas, stas`ht20Set
    {
      set s | s in stas && s.ht20Set
    }

    ghost function Intolerant(): set<StaInfo>
      reads `stas, stas`ht40Intolerant
    {
      set s | s in stas && s.ht40Intolerant
    }

    /** Each counter is the number of stations held to have the property. */
    ghost predicate Counts()
      reads this, stas
    {
      LegacyCounts() && HtCounts()
    }

    ghost predicate LegacyCounts()
      reads `stas, `numNoShortPreamble, `numNonErp, `numNoShortSlot,
            stas`noShortPreambleSet, stas`nonErpSet, stas`noShortSlotSet
    {
      numNoShortPreamble == |NoShortPreamble()| && numNonErp == |NonErp()| && numNoShortSlot == |NoShortSlot()|
    }

    ghost predicate HtCounts()
      reads `stas, `numNoHt, `numHtNoGf, `numHt20, `num40Intolerant,
            stas`noHtSet, stas`noHtGfSet, stas`ht20Set, stas`ht40Intolerant
    {
      numNoHt == |NoHt()| && numHtNoGf == |HtNoGf()| && numHt20 == |Ht20()| && num40Intolerant == |Intolerant()|
    }

    /** Once the BSS has been started with ERP in use, the beacon asks for protection exactly when some station
        is not an ERP station. */
    ghost predicate ErpAgrees()
      reads `bstartBss, `erpEnable, `erp, `numNonErp
    {
      bstartBss && erpEnable && erp.Some? ==>
        (erp.value.useProtection <==> numNonErp > 0) && (erp.value.nonErpPresent <==> numNonErp > 0)
    }

    ghost predicate Valid()
      reads this, stas
    {
      Counts() && ErpAgrees()
    }

    /** ht_op_mode announces what the whole set of stations and the overlapping BSSs call for. */
    ghost predicate HtAgrees()
      reads `htOpMode, `supWidth, `olbcHt, `stas, stas`noHtSet, stas`noHtGfSet, stas`ht20Set
    {
      Announces(htOpMode, exists s :: s in stas && s.noHtGfSet, exists s :: s in stas && s.noHtSet,
                exists s :: s in stas && s.ht20Set, supWidth, olbcHt)
    }

    /** start_ap_mode, before any station has an entry. */
    constructor StartApMode(over11b: bool, htEnable: bool, htOption: bool, supWidth: bool)
      ensures this.over11b == over11b && this.htEnable == htEnable && this.htOption == htOption
      ensures this.supWidth == supWidth
      ensures Valid() && stas == {} && !bstartBss && htOpMode == OpModeWord(Pure, false, false, false) && !olbcHt
    {
      stas := {};
      numNoShortPreamble, numNonErp, numNoShortSlot, numNoHt, numHtNoGf, numHt20, num40Intolerant := 0, 0, 0, 0, 0,
                0, 0;
      htOpMode, olbcHt, ht20WidthReq, htIntolerantChReported := OpModeWord(Pure, false, false, false), false, false,
                false;
      bstartBss := false;
      this.over11b, this.htEnable, this.htOption, this.supWidth := over11b, htEnable, htOption, supWidth;
      new;
      assert NoShortPreamble() == {} && NonErp() == {} && NoShortSlot() == {};
      assert NoHt() == {} && HtNoGf() == {} && Ht20() == {} && Intolerant() == {};
    }

    /** The BSS starts, with the ERP element of its beacon clear if it has one. */
    method StartBss(erpEnable: bool, erp: Option<ErpInfo>)
      requires Valid() && numNonErp == 0
      requires erp.Some? ==> !erp.value.useProtection && !erp.value.nonErpPresent
      modifies `bstartBss, `erpEnable, `erp
      ensures Valid() && bstartBss && this.erp == erp && this.erpEnable == erpEnable
    {
      this.bstartBss, this.erpEnable, this.erp := true, erpEnable, erp;
    }

    /** A new entry, without flags. */
    method AddEntry(aid: nat) returns (psta: StaInfo)
      requires Valid()
      modifies `stas
      ensures Valid() && fresh(psta) && psta.Clear() && stas == old(stas) + {psta}
    {
      psta := new StaInfo(aid);
      stas := stas + {psta};
      assert NoShortPreamble() == old(NoShortPreamble()) && NonErp() == old(NonErp());
      assert NoShortSlot() == old(NoShortSlot()) && NoHt() == old(NoHt());
      assert HtNoGf() == old(HtNoGf()) && Ht20() == old(Ht20()) && Intolerant() == old(Intolerant());
    }

    /** update_bcn_erpinfo_ie, through update_beacon. It asks for protection when there is exactly one station that
        is not an ERP station, so it is right for one or none. */
    method UpdateErpInfo()
      modifies `erp
      ensures erp == if bstartBss && erpEnable && old(erp).Some?
                     then Some(ErpInfo(numNonErp == 1, numNonErp == 1, numNoShortPreamble > 0, old(erp).value.reserved))
                     else old(erp)
      ensures ErpAgrees() <==> (bstartBss && erpEnable && erp.Some? ==> numNonErp <= 1)
    {
      if !bstartBss {
        return;
      }
      if !erpEnable {
        return;
      }
      if erp.Some? {
        var data := erp.value;
        if numNonErp == 1 {
          data := data.(nonErpPresent := true, useProtection := true);
        } else {
          data := data.(nonErpPresent := false, useProtection := false);
        }
        if numNoShortPreamble > 0 {
          data := data.(barkerPreamble := true);
        } else {
          data := data.(barkerPreamble := false);
        }
        erp := Some(data);
      }
    }

    /** rtw_ht_operation_update. */
    method HtOperationUpdate() returns (changes: nat)
      requires HtCounts()
      modifies `htOpMode
      ensures changes == 0 <==> !htOption || old(HtAgrees())
      ensures if htOption then HtAgrees() else htOpMode == old(htOpMode)
      ensures htOption ==>
                && (htOpMode.mode == Mixed <==> exists s :: s in stas && s.noHtSet)
                && (htOpMode.mode == Some20Mhz <==>
                      (forall s :: s in stas ==> !s.noHtSet) && supWidth && exists s :: s in stas && s.ht20Set)
                && (htOpMode.mode == Pure ==> !olbcHt)
                && (htOpMode.nonGf <==> exists s :: s in stas && s.noHtGfSet)
                && (htOpMode.nonHt <==> olbcHt || exists s :: s in stas && s.noHtSet)
      ensures htOpMode.burstLimit == old(htOpMode).burstLimit && (changes == 0 <==> htOpMode == old(htOpMode))
    {
      hide HtCounts;
      changes := 0;
      if !htOption {
        return;
      }
      CountsExist();
      changes := UpdateFields();
    }

    /** The three fields of ht_op_mode, one after the other. */
    method UpdateFields() returns (changes: nat)
      requires numHtNoGf >= 0 && numNoHt >= 0 && numHt20 >= 0
      modifies `htOpMode
      ensures Announces(htOpMode, numHtNoGf > 0, numNoHt > 0, numHt20 > 0, supWidth, olbcHt)
      ensures htOpMode.burstLimit == old(htOpMode).burstLimit
      ensures changes == 0 <==> htOpMode == old(htOpMode)
    {
      changes := 0;
      if !htOpMode.nonGf && numHtNoGf != 0 {
        htOpMode := htOpMode.(nonGf := true);
        changes := changes + 1;
      } else if htOpMode.nonGf && numHtNoGf == 0 {
        htOpMode := htOpMode.(nonGf := false);
        changes := changes + 1;
      }
      if !htOpMode.nonHt && (numNoHt != 0 || olbcHt) {
        htOpMode := htOpMode.(nonHt := true);
        changes := changes + 1;
      } else if htOpMode.nonHt && numNoHt == 0 && !olbcHt {
        htOpMode := htOpMode.(nonHt := false);
        changes := changes + 1;
      }
      var newMode := Pure;
      if numNoHt != 0 {
        newMode := Mixed;
      } else if supWidth && numHt20 != 0 {
        newMode := Some20Mhz;
      } else if olbcHt {
        newMode := MayBeLegacy;
      }
      if htOpMode.mode != newMode {
        htOpMode := htOpMode.(mode := newMode);
        changes := changes + 1;
      }
    }

    // One property at a time. In each, a flag and its counter change together.

    method JoinShortPreamble(psta: StaInfo) returns (updated: bool)
      requires psta in stas && numNoShortPreamble == |NoShortPreamble()|
      modifies psta`noShortPreambleSet, `numNoShortPreamble
      ensures psta.noShortPreambleSet <==> !psta.shortPreamble
      ensures numNoShortPreamble == |NoShortPreamble()|
      ensures updated <==> over11b && FirstOrLast(old(psta.noShortPreambleSet), psta.noShortPreambleSet,
                numNoShortPreamble)
    {
      ghost var h := NoShortPreamble();
      updated := false;
      if !psta.shortPreamble {
        if !psta.noShortPreambleSet {
          psta.noShortPreambleSet := true;
          numNoShortPreamble := numNoShortPreamble + 1;
          Grown(h, NoShortPreamble(), psta);
          updated := over11b && numNoShortPreamble == 1;
        }
      } else {
        if psta.noShortPreambleSet {
          psta.noShortPreambleSet := false;
          numNoShortPreamble := numNoShortPreamble - 1;
          Shrunk(h, NoShortPreamble(), psta);
          updated := over11b && numNoShortPreamble == 0;
        }
      }
    }

    method JoinNonErp(psta: StaInfo) returns (updated: bool)
      requires psta in stas && numNonErp == |NonErp()| && ErpAgrees()
      modifies psta`nonErpSet, `numNonErp, `erp
      ensures psta.nonErpSet <==> psta.nonErp
      ensures numNonErp == |NonErp()| && ErpAgrees()
      ensures updated <==> FirstOrLast(old(psta.nonErpSet), psta.nonErpSet, numNonErp)
    {
      ghost var h := NonErp();
      updated := false;
      if psta.nonErp {
        if !psta.nonErpSet {
          psta.nonErpSet := true;
          numNonErp := numNonErp + 1;
          Grown(h, NonErp(), psta);
          if numNonErp == 1 {
            updated := true;
            UpdateErpInfo();
          }
        }
      } else {
        if psta.nonErpSet {
          updated := DropNonErp(psta);
        }
      }
    }

    /** A station that was held to be without ERP no longer is. */
    method DropNonErp(psta: StaInfo) returns (updated: bool)
      requires psta in stas && psta.nonErpSet && numNonErp == |NonErp()| && ErpAgrees()
      modifies psta`nonErpSet, `numNonErp, `erp
      ensures !psta.nonErpSet && numNonErp == |NonErp()| && ErpAgrees() && (updated <==> numNonErp == 0)
    {
      ghost var h := NonErp();
      psta.nonErpSet := false;
      numNonErp := numNonErp - 1;
      Shrunk(h, NonErp(), psta);
      updated := false;
      if numNonErp == 0 {
        updated := true;
        UpdateErpInfo();
      }
    }

    method JoinShortSlot(psta: StaInfo) returns (updated: bool)
      requires psta in stas && numNoShortSlot == |NoShortSlot()|
      modifies psta`noShortSlotSet, `numNoShortSlot
      ensures psta.noShortSlotSet <==> !psta.shortSlot
      ensures numNoShortSlot == |NoShortSlot()|
      ensures updated <==> over11b && FirstOrLast(old(psta.noShortSlotSet), psta.noShortSlotSet, numNoShortSlot)
    {
      ghost var h := NoShortSlot();
      updated := false;
      if !psta.shortSlot {
        if !psta.noShortSlotSet {
          psta.noShortSlotSet := true;
          numNoShortSlot := numNoShortSlot + 1;
          Grown(h, NoShortSlot(), psta);
          updated := over11b && numNoShortSlot == 1;
        }
      } else {
        if psta.noShortSlotSet {
          psta.noShortSlotSet := false;
          numNoShortSlot := numNoShortSlot - 1;
          Shrunk(h, NoShortSlot(), psta);
          updated := over11b && numNoShortSlot == 0;
        }
      }
    }

    method HoldNoHt(psta: StaInfo, on: bool)
      requires psta in stas && numNoHt == |NoHt()|
      modifies psta`noHtSet, `numNoHt
      ensures psta.noHtSet == on && numNoHt == |NoHt()|
    {
      ghost var h := NoHt();
      if on && !psta.noHtSet {
        psta.noHtSet := true;
        numNoHt := numNoHt + 1;
        Grown(h, NoHt(), psta);
      } else if !on && psta.noHtSet {
        psta.noHtSet := false;
        numNoHt := numNoHt - 1;
        Shrunk(h, NoHt(), psta);
      }
    }

    method HoldHtNoGf(psta: StaInfo, on: bool)
      requires psta in stas && numHtNoGf == |HtNoGf()|
      modifies psta`noHtGfSet, `numHtNoGf
      ensures psta.noHtGfSet == on && numHtNoGf == |HtNoGf()|
    {
      ghost var h := HtNoGf();
      if on && !psta.noHtGfSet {
        psta.noHtGfSet := true;
        numHtNoGf := numHtNoGf + 1;
        Grown(h, HtNoGf(), psta);
      } else if !on && psta.noHtGfSet {
        psta.noHtGfSet := false;
        numHtNoGf := numHtNoGf - 1;
        Shrunk(h, HtNoGf(), psta);
      }
    }

    method HoldHt20(psta: StaInfo, on: bool)
      requires psta in stas && numHt20 == |Ht20()|
      modifies psta`ht20Set, `numHt20
      ensures psta.ht20Set == on && numHt20 == |Ht20()|
    {
      ghost var h := Ht20();
      if on && !psta.ht20Set {
        psta.ht20Set := true;
        numHt20 := numHt20 + 1;
        Grown(h, Ht20(), psta);
      } else if !on && psta.ht20Set {
        psta.ht20Set := false;
        numHt20 := numHt20 - 1;
        Shrunk(h, Ht20(), psta);
      }
    }

    method HoldIntolerant(psta: StaInfo) returns (changed: bool)
      requires psta in stas && num40Intolerant == |Intolerant()|
      modifies psta`ht40Intolerant, `num40Intolerant
      ensures psta.ht40Intolerant && num40Intolerant == |Intolerant()|
      ensures changed <==> !old(psta.ht40Intolerant)
    {
      ghost var h := Intolerant();
      changed := false;
      if !psta.ht40Intolerant {
        psta.ht40Intolerant := true;
        num40Intolerant := num40Intolerant + 1;
        Grown(h, Intolerant(), psta);
        changed := true;
      }
    }

    /** The station leaves: the branch that would warn about a count of 0 cannot be reached. */
    method DropIntolerant(psta: StaInfo)
      requires psta in stas && num40Intolerant == |Intolerant()|
      modifies psta`ht40Intolerant, `num40Intolerant
      ensures !psta.ht40Intolerant && num40Intolerant == |Intolerant()|
    {
      ghost var h := Intolerant();
      if psta.ht40Intolerant {
        assert psta in h;
        psta.ht40Intolerant := false;
        Shrunk(h, Intolerant(), psta);
        if num40Intolerant > 0 {
          num40Intolerant := num40Intolerant - 1;
        } else {
          assert false;
        }
      }
    }

    /** The HT part of a join. */
    method JoinHt(psta: StaInfo)
      requires psta in stas && HtCounts()
      modifies psta`noHtSet, psta`noHtGfSet, psta`ht20Set, psta`ht40Intolerant,
               `numNoHt, `numHtNoGf, `numHt20, `num40Intolerant
      ensures HtCounts() && (psta.noHtSet <==> !psta.ht)
      ensures psta.noHtGfSet <==> old(psta.noHtGfSet) || (psta.ht && !psta.htCap.greenField)
      ensures psta.ht20Set <==> old(psta.ht20Set) || (psta.ht && !psta.htCap.supWidth)
      ensures psta.ht40Intolerant <==> old(psta.ht40Intolerant) || (psta.ht && psta.htCap.intolerant)
    {
      hide NoHt, HtNoGf, Ht20, Intolerant;
      if psta.ht {
        HoldNoHt(psta, false);
        HoldHtCap(psta);
      } else {
        HoldNoHt(psta, true);
      }
    }

    /** What the capabilities of an HT station set, and never take back. */
    method HoldHtCap(psta: StaInfo)
      requires psta in stas
      requires numHtNoGf == |HtNoGf()| && numHt20 == |Ht20()| && num40Intolerant == |Intolerant()|
      modifies psta`noHtGfSet, psta`ht20Set, psta`ht40Intolerant, `numHtNoGf, `numHt20, `num40Intolerant
      ensures numHtNoGf == |HtNoGf()| && numHt20 == |Ht20()| && num40Intolerant == |Intolerant()|
      ensures psta.noHtGfSet <==> old(psta.noHtGfSet) || !psta.htCap.greenField
      ensures psta.ht20Set <==> old(psta.ht20Set) || !psta.htCap.supWidth
      ensures psta.ht40Intolerant <==> old(psta.ht40Intolerant) || psta.htCap.intolerant
    {
      hide NoHt, HtNoGf, Ht20, Intolerant;
      if !psta.htCap.greenField {
        HoldHtNoGf(psta, true);
      }
      if !psta.htCap.supWidth {
        HoldHt20(psta, true);
      }
      if psta.htCap.intolerant {
        var _ := HoldIntolerant(psta);
      }
    }

    method JoinHtAndUpdate(psta: StaInfo) returns (updated: bool)
      requires psta in stas && HtCounts()
      modifies psta`noHtSet, psta`noHtGfSet, psta`ht20Set, psta`ht40Intolerant,
               `numNoHt, `numHtNoGf, `numHt20, `num40Intolerant, `htOpMode
      ensures HtCounts() && (htOption ==> HtAgrees()) && (updated <==> htOpMode != old(htOpMode))
      ensures psta.noHtSet <==> !psta.ht
      ensures psta.noHtGfSet <==> old(psta.noHtGfSet) || (psta.ht && !psta.htCap.greenField)
      ensures psta.ht20Set <==> old(psta.ht20Set) || (psta.ht && !psta.htCap.supWidth)
      ensures psta.ht40Intolerant <==> old(psta.ht40Intolerant) || (psta.ht && psta.htCap.intolerant)
      ensures psta.HtFlagsFresh() <==>
                !(old(psta.noHtGfSet) && !(psta.ht && !psta.htCap.greenField))
                && !(old(psta.ht20Set) && !(psta.ht && !psta.htCap.supWidth))
    {
      hide HtCounts, HtAgrees;
      JoinHt(psta);
      var changes := HtOperationUpdate();
      updated := changes > 0;
    }

    /** The rest of a join. */
    method JoinLegacy(psta: StaInfo) returns (updated: bool)
      requires LegacyCounts() && ErpAgrees() && psta in stas
      modifies psta`noShortPreambleSet, psta`nonErpSet, psta`noShortSlotSet, `numNoShortPreamble, `numNonErp,
               `numNoShortSlot, `erp
      ensures LegacyCounts() && ErpAgrees()
      ensures psta.noShortPreambleSet <==> !psta.shortPreamble
      ensures psta.nonErpSet <==> psta.nonErp
      ensures psta.noShortSlotSet <==> !psta.shortSlot
      ensures updated <==>
                || (over11b && FirstOrLast(old(psta.noShortPreambleSet), psta.noShortPreambleSet, numNoShortPreamble))
                || FirstOrLast(old(psta.nonErpSet), psta.nonErpSet, numNonErp)
                || (over11b && FirstOrLast(old(psta.noShortSlotSet), psta.noShortSlotSet, numNoShortSlot))
    {
      hide NoShortPreamble, NonErp, NoShortSlot, NoHt, HtNoGf, Ht20, Intolerant, HtAgrees, ErpAgrees, FirstOrLast;
      var preamble := JoinShortPreamble(psta);
      var nonErp := JoinNonErp(psta);
      var slot := JoinShortSlot(psta);
      updated := preamble || nonErp || slot;
    }

    /** bss_cap_update_on_sta_join, for a first join or a later one. */
    method Join(psta: StaInfo) returns (updated: bool)
      requires Valid() && psta in stas
      modifies psta`noShortPreambleSet, psta`nonErpSet, psta`noShortSlotSet, psta`noHtSet, psta`noHtGfSet,
               psta`ht20Set, psta`ht40Intolerant, `numNoShortPreamble, `numNonErp, `numNoShortSlot, `numNoHt,
               `numHtNoGf, `numHt20, `num40Intolerant, `erp, `htOpMode
      ensures Valid()
      ensures htEnable && htOption ==> HtAgrees()
      ensures psta.noShortPreambleSet <==> !psta.shortPreamble
      ensures psta.nonErpSet <==> psta.nonErp
      ensures psta.noShortSlotSet <==> !psta.shortSlot
      ensures htEnable ==> (psta.noHtSet <==> !psta.ht)
      ensures htEnable ==> (psta.noHtGfSet <==> old(psta.noHtGfSet) || (psta.ht && !psta.htCap.greenField))
      ensures htEnable ==> (psta.ht20Set <==> old(psta.ht20Set) || (psta.ht && !psta.htCap.supWidth))
      ensures htEnable ==> (psta.ht40Intolerant <==> old(psta.ht40Intolerant) || (psta.ht && psta.htCap.intolerant))
      ensures htEnable ==> (psta.HtFlagsFresh() <==>
                !(old(psta.noHtGfSet) && !(psta.ht && !psta.htCap.greenField))
                && !(old(psta.ht20Set) && !(psta.ht && !psta.htCap.supWidth)))
      ensures updated <==>
                || (over11b && FirstOrLast(old(psta.noShortPreambleSet), psta.noShortPreambleSet, numNoShortPreamble))
                || FirstOrLast(old(psta.nonErpSet), psta.nonErpSet, numNonErp)
                || (over11b && FirstOrLast(old(psta.noShortSlotSet), psta.noShortSlotSet, numNoShortSlot))
                || htOpMode != old(htOpMode)
    {
      hide LegacyCounts, HtCounts, HtAgrees, ErpAgrees, FirstOrLast;
      updated := JoinLegacy(psta);
      if htEnable {
        var ht := JoinHtAndUpdate(psta);
        updated := updated || ht;
      }
    }

    method LeaveShortPreamble(psta: StaInfo) returns (updated: bool)
      requires psta in stas && numNoShortPreamble == |NoShortPreamble()|
      modifies psta`noShortPreambleSet, `numNoShortPreamble
      ensures !psta.noShortPreambleSet && numNoShortPreamble == |NoShortPreamble()|
      ensures updated <==> over11b && FirstOrLast(old(psta.noShortPreambleSet), false, numNoShortPreamble)
    {
      ghost var h := NoShortPreamble();
      updated := false;
      if psta.noShortPreambleSet {
        psta.noShortPreambleSet := false;
        numNoShortPreamble := numNoShortPreamble - 1;
        Shrunk(h, NoShortPreamble(), psta);
        updated := over11b && numNoShortPreamble == 0;
      }
    }

    method LeaveShortSlot(psta: StaInfo) returns (updated: bool)
      requires psta in stas && numNoShortSlot == |NoShortSlot()|
      modifies psta`noShortSlotSet, `numNoShortSlot
      ensures !psta.noShortSlotSet && numNoShortSlot == |NoShortSlot()|
      ensures updated <==> over11b && FirstOrLast(old(psta.noShortSlotSet), false, numNoShortSlot)
    {
      ghost var h := NoShortSlot();
      updated := false;
      if psta.noShortSlotSet {
        psta.noShortSlotSet := false;
        numNoShortSlot := numNoShortSlot - 1;
        Shrunk(h, NoShortSlot(), psta);
        updated := over11b && numNoShortSlot == 0;
      }
    }

    /** The HT part of a leave. */
    method LeaveHt(psta: StaInfo)
      requires psta in stas && HtCounts()
      modifies psta`noHtSet, psta`noHtGfSet, psta`ht20Set, psta`ht40Intolerant,
               `numNoHt, `numHtNoGf, `numHt20, `num40Intolerant
      ensures HtCounts() && !psta.noHtSet && !psta.noHtGfSet && !psta.ht20Set && !psta.ht40Intolerant
    {
      hide NoHt, HtNoGf, Ht20, Intolerant;
      HoldHtNoGf(psta, false);
      HoldNoHt(psta, false);
      HoldHt20(psta, false);
      DropIntolerant(psta);
    }

    method LeaveLegacy(psta: StaInfo) returns (updated: bool)
      requires LegacyCounts() && ErpAgrees() && psta in stas
      modifies psta`noShortPreambleSet, psta`nonErpSet, psta`noShortSlotSet, `numNoShortPreamble, `numNonErp,
               `numNoShortSlot, `erp
      ensures LegacyCounts() && ErpAgrees() && !psta.noShortPreambleSet && !psta.nonErpSet && !psta.noShortSlotSet
      ensures updated <==>
                || (over11b && FirstOrLast(old(psta.noShortPreambleSet), false, numNoShortPreamble))
                || FirstOrLast(old(psta.nonErpSet), false, numNonErp)
                || (over11b && FirstOrLast(old(psta.noShortSlotSet), false, numNoShortSlot))
    {
      hide NoShortPreamble, NonErp, NoShortSlot, NoHt, HtNoGf, Ht20, Intolerant, HtAgrees, ErpAgrees;
      updated := LeaveShortPreamble(psta);
      if psta.nonErpSet {
        var erp := DropNonErp(psta);
        updated := updated || erp;
      }
      var slot := LeaveShortSlot(psta);
      updated := updated || slot;
    }

    /** bss_cap_update_on_sta_leave. */
    method Leave(psta: StaInfo) returns (updated: bool)
      requires Valid() && psta in stas
      modifies psta`noShortPreambleSet, psta`nonErpSet, psta`noShortSlotSet, psta`noHtSet, psta`noHtGfSet,
               psta`ht20Set, psta`ht40Intolerant, `numNoShortPreamble, `numNonErp, `numNoShortSlot, `numNoHt,
               `numHtNoGf, `numHt20, `num40Intolerant, `erp, `htOpMode, `tim
      ensures Valid() && psta.Clear() && tim == old(tim) - {psta.aid}
      ensures htOption ==> HtAgrees()
      ensures updated <==>
                || psta.aid in old(tim)
                || (over11b && FirstOrLast(old(psta.noShortPreambleSet), false, numNoShortPreamble))
                || FirstOrLast(old(psta.nonErpSet), false, numNonErp)
                || (over11b && FirstOrLast(old(psta.noShortSlotSet), false, numNoShortSlot))
    {
      hide LegacyCounts, HtCounts, HtAgrees, ErpAgrees, FirstOrLast;
      updated := psta.aid in tim;
      tim := tim - {psta.aid};
      var legacy := LeaveLegacy(psta);
      updated := updated || legacy;
      LeaveHt(psta);
      var _ := HtOperationUpdate();
    }

    /** The entry of a station that has left goes away. */
    method RemoveEntry(psta: StaInfo)
      requires Valid() && psta in stas && psta.Clear()
      modifies `stas
      ensures Valid() && stas == old(stas) - {psta}
    {
      stas := stas - {psta};
      assert NoShortPreamble() == old(NoShortPreamble()) && NonErp() == old(NonErp());
      assert NoShortSlot() == old(NoShortSlot()) && NoHt() == old(NoHt());
      assert HtNoGf() == old(HtNoGf()) && Ht20() == old(Ht20()) && Intolerant() == old(Intolerant());
    }

    /** rtw_process_public_act_bsscoex, of a known station: body is the receive buffer from the frame body on, and
        len the length of that body. i and w are bits 1 and 2 of the octet at 4. */
    method CoexReport(psta: StaInfo, body: seq<Byte>, len: nat, ghost r: nat, ghost i: nat, ghost w: nat,
                      ghost h: nat)
      returns (updated: bool)
      requires Valid() && psta in stas && |body| >= 7
      requires r < 2 && i < 2 && w < 2 && body[4] == r + 2 * i + 4 * w + 8 * h
      modifies psta`ht40Intolerant, `num40Intolerant, `ht20WidthReq, `htIntolerantChReported
      ensures Valid()
      ensures psta.ht40Intolerant <==> old(psta.ht40Intolerant) || (HasCoex(body, len) && i == 1)
      ensures ht20WidthReq <==> old(ht20WidthReq) || (HasCoex(body, len) && i == 0 && w == 1)
      ensures htIntolerantChReported <==> old(htIntolerantChReported) || (len > 8 && body[5] == 73 && body[6] > 0)
      ensures updated <==> psta.ht40Intolerant != old(psta.ht40Intolerant) || ht20WidthReq != old(ht20WidthReq)
                           || htIntolerantChReported != old(htIntolerantChReported)
    {
      hide LegacyCounts, NoHt, HtNoGf, Ht20, Intolerant, ErpAgrees, CoexField;
      CoexBits(body, r, i, w, h);
      updated := false;
      if len > 0 {
        if body[2] == EID_BSS_COEXISTENCE && body[3] > 0 {
          var coex := CoexField(body);
          if coex.intolerant {
            updated := HoldIntolerant(psta);
          } else if coex.widthReq {
            if !ht20WidthReq {
              ht20WidthReq := true;
              updated := true;
            }
          } else {
            updated := false;
          }
        }
      }
      if len > 8 {
        if body[5] == EID_BSS_INTOLERANT_CHL_REPORT && body[6] > 0 {
          if !htIntolerantChReported {
            htIntolerantChReported := true;
            updated := true;
          }
        }
      }
    }

    /** What a scan does to the count when it ends: the accounts stay right exactly if no station was held to
        be without HT. */
    method ScanReset()
      requires Valid()
      modifies `numNoHt
      ensures numNoHt == 0
      ensures Valid() <==> forall s :: s in stas ==> !s.noHtSet
    {
      ghost var h := NoHt();
      numNoHt := 0;
      assert NoHt() == h;
      if h != {} {
        ghost var s :| s in h;
        assert s in stas && s.noHtSet && |h| > 0;
      } else {
        assert forall s :: s in stas && s.noHtSet ==> s in h;
      }
    }

    lemma CountsExist()
      requires HtCounts()
      ensures numHtNoGf >= 0 && numNoHt >= 0 && numHt20 >= 0
      ensures numHtNoGf > 0 <==> exists s :: s in stas && s.noHtGfSet
      ensures numNoHt > 0 <==> exists s :: s in stas && s.noHtSet
      ensures numHt20 > 0 <==> exists s :: s in stas && s.ht20Set
    {
      Inhabited(HtNoGf(), numHtNoGf);
      Inhabited(NoHt(), numNoHt);
      Inhabited(Ht20(), numHt20);
      assert forall s :: s in stas && s.noHtGfSet ==> s in HtNoGf();
      assert forall s :: s in stas && s.noHtSet ==> s in NoHt();
      assert forall s :: s in stas && s.ht20Set ==> s in Ht20();
    }
  }

  // Where the accounts go wrong.

  /** A station joins with HT but without greenfield, and again without HT: it goes on being counted, and announced
      in the beacon, as an HT station without greenfield. */
  method RejoinWithoutHt() returns (ap: ApMlme, psta: StaInfo)
    ensures ap.Valid() && psta in ap.stas && !psta.ht && psta.noHtSet && psta.noHtGfSet && !psta.HtFlagsFresh()
    ensures ap.HtAgrees() && ap.htOpMode.nonGf
  {
    hide ApMlme.Valid, ApMlme.HtAgrees, FirstOrLast;
    ap := new ApMlme.StartApMode(true, true, true, true);
    psta := ap.AddEntry(1);
    JoinAs(ap, psta, true);
    JoinAs(ap, psta, false);
    ShownNonGf(ap, psta);
  }

  /** The station joins with or without HT, never with greenfield. */
  method JoinAs(ap: ApMlme, psta: StaInfo, ht: bool)
    requires ap.Valid() && psta in ap.stas && ap.htEnable && ap.htOption
    modifies ap, psta
    ensures ap.Valid() && ap.stas == old(ap.stas) && ap.htEnable && ap.htOption && ap.HtAgrees()
    ensures psta.ht == ht && psta.noHtSet == !ht && (psta.noHtGfSet <==> ht || old(psta.noHtGfSet))
  {
    hide ApMlme.Valid, ApMlme.HtAgrees, FirstOrLast;
    ChangeHt(ap, psta, ht);
    var _ := ap.Join(psta);
  }

  lemma ShownNonGf(ap: ApMlme, psta: StaInfo)
    requires ap.HtAgrees() && psta in ap.stas && psta.noHtGfSet
    ensures ap.htOpMode.nonGf
  {
  }

  /** What an association request says about HT. */
  method ChangeHt(ap: ApMlme, psta: StaInfo, ht: bool)
    requires ap.Valid()
    modifies psta`ht, psta`htCap
    ensures ap.Valid() && psta.ht == ht && psta.htCap == HtCap(true, false, false)
  {
    psta.ht, psta.htCap := ht, HtCap(true, false, false);
  }

  /** A station without HT joins, and a scan ends: it is no longer counted. */
  method ScanWithLegacyStation() returns (ap: ApMlme, psta: StaInfo)
    ensures psta in ap.stas && psta.noHtSet && ap.numNoHt == 0 && !ap.Valid()
  {
    hide ApMlme.Valid;
    ap := new ApMlme.StartApMode(true, true, true, true);
    psta := ap.AddEntry(1);
    ChangeHt(ap, psta, false);
    var _ := ap.Join(psta);
    ap.ScanReset();
  }

  /** The beacon is updated when the first station with a flag comes or the last one goes. */
  lemma FirstOrLastIff(before: set<StaInfo>, after: set<StaInfo>, x: StaInfo)
    requires before - {x} == after - {x}
    ensures FirstOrLast(x in before, x in after, |after|) <==> (before == {}) != (after == {})
  {
    forall y | y != x
      ensures y in before <==> y in after
    {
      assert y in before - {x} <==> y in after - {x};
    }
    if x in before && x !in after {
      assert before - {x} == after;
    } else if x in after && x !in before {
      Grown(before, after, x);
    } else {
      assert before == after;
    }
  }

  lemma Grown(h: set<StaInfo>, after: set<StaInfo>, x: StaInfo)
    requires x !in h && after == h + {x}
    ensures |after| == |h| + 1
  {
  }

  lemma Shrunk(h: set<StaInfo>, after: set<StaInfo>, x: StaInfo)
    requires x in h && after == h - {x}
    ensures |after| == |h| - 1
  {
  }

  lemma Inhabited(s: set<StaInfo>, n: int)
    requires n == |s|
    ensures n > 0 ==> exists x :: x in s
    ensures n == 0 ==> s == {}
  {
    if n > 0 {
      assert s != {};
    }
  }
}
