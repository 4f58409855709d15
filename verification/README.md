# A verified model of the rtl8812au driver

The robot's camera link runs over the rtl8812au Wi-Fi driver. This project models the parts of that driver
whose behaviour is hardest to see from a single function, and proves what they promise.

- **Element buffers.** `Tlv` gives type-length-value lists a serialised form, read back by `Parse`; `IeEdit`,
  `P2pEdit`, `Tim`, `BcnTim` and `PppoeRelay` are the editors that move octets about in place, proved to
  refine edits of the list. `Bss` is the BSS description they work on.
- **The NAT2.5 bridge.** `Nat25Table` is the table as a map, `Nat25Db` the hash table with its `next` and
  `pprev` pointers that refines it, `Nat25Runs` what holds over any sequence of operations, `Nat25Shortcut` the
  short cut in front of it and when the two agree, `Nat25Frames` the IPv4 and ARP frames on top. `Vlan` and
  `Dhcp` are two more rewritings of frames.
- **The command thread.** `CmdThread` is the protocol between any number of submitters, their waits with a
  time-out, and the one thread with its exit drain, as atomic steps; `CmdSafety` is its invariant,
  `CmdRuns` what follows for every run, and `CmdExit` how the thread ends. Histories record what happened; freed commands and dead stack frames
  are part of the state.
- **Beamforming.** `SoundingModel` says what each handler of the sounding scheduler makes of its state,
  `SoundingRuns` its invariant and why every period ends, `SoundingSafety` what holds over every run whatever,
  `SoundingRates` how often an entry is sounded, `SoundingReports` what becomes of the results and when an entry is
  given up, `SoundingLists` what is listed, `SoundingHarm` what a forced stop can leave behind, and `Sounding` is the scheduler itself, with its mutual recursion.
- **The access point.** `StaCaps` keeps the accounts of station capabilities and the bits the beacon
  announces, `Chbw` the channel union and the autonomous decision, `Acl` the access control pools.

Where the source changes state in place, the model has a class whose methods are proved against a function of
the old state, and the lemmas are about that function. What an operation needs of its callers is in its
`requires`; failures are results.

Some of what was to be expected does not hold of the code. In each case the code is modelled as it is and the
exact condition is proved:

- The search for an id and an OUI compares past the end of an element that is too short
  (`IeEdit.SurvivorsAreWithoutIff`; failing list: `IeEdit.ShortCandidateConfused`).
- The bitmap of `rtw_set_tim_ie` is not always the shortest one (`Tim.ShortestIff`, `Tim.GroupBitAndStation17`).
- An insertion of the TIM element lands inside another element unless one with a one-octet body comes third
  (`BcnTim.InsertionFitsIff`), and the other elements can then not all be read
  any more (`BcnTim.CutLosesElements`, `BcnTim.InsertionCutsCountry`).
- The short cut of the bridge can answer with a MAC address the table no longer has, keep a second address of a
  client out of the table, and hide a client that has taken over an address (`Nat25Shortcut.ClientIff`;
  `StaleShortcut`, `SecondAddress`, `TakenOver`).
- `dhcp_flag_bcast` adds the whole flags word to the checksum, and adds it to a checksum of 0, too
  (`Dhcp.AcceptedIff`, `Dhcp.SpoiltRequests`).
- A command put back under LPS_LCLK takes its wake-up with it: until something outside the queue raises the
  semaphore, the thread sleeps on a queue that is not empty (`CmdRuns.WakeupLostWithLps`).
- The filter and the queue are two critical sections: a command that passes the filter can be put on the queue when
  the thread has gone, and stays there (`CmdExit.StrandedIff`, `CmdExit.LateInsertStranded`).
- Stopping a sounding by force while a START_PERIOD is queued leaves it behind; the counter of running periods
  then goes below zero, and no period is started until it has wrapped (`SoundingHarm.ForceStopHarm`, `ForceStopNegative`,
  `NegativeStalls`, and the run of `ForceStopReachable`).
- Two HT flags of a station survive a re-join that no longer calls for them (`StaCaps.ApMlme.Join`,
  `StaCaps.RejoinWithoutHt`), and the reset of a counter after a scan breaks the accounts
  (`StaCaps.ApMlme.ScanReset`, `StaCaps.ScanWithLegacyStation`).
- The length of a PPPoE tag is read in the wrong byte order (`PppoeRelay.RawTagLength`): on little-endian hosts
  a discovery frame is refused, or sent with octets from beyond the buffer in it
  (`PppoeRelay.Skb.InsertDiscovery`).

One boundary is not reached by this driver: `rtw_set_tim_ie` returns an octet, so that a partial bitmap of 251
octets would be written and at once overwritten (`BcnTim.BeaconCarriesBitmapIff`), but bitmaps have five octets
at most here, since `max_aid` is at most `MACID_NUM_SW_LIMIT` (`BcnTim.ShortBitmapCarried`).

`dafny verify dfyconfig.toml` checks everything. Nothing was executed.

## Model

| member | source | states |
|---|---|---|
| Tlv.ElementOnWire | drivers/rtl8812au/core/rtw_ieee80211.c:291-315 | an identifier octet, a length octet and the contents read back as that element |
| Tlv.AttrOnWire | drivers/rtl8812au/core/rtw_ieee80211.c:2120-2140 | a P2P attribute: an identifier octet, the length in two octets with the low one first, and the contents |
| Tlv.TagOnWire | drivers/rtl8812au/core/rtw_br_ext.c:107-122 | a PPPoE tag (RFC 2516): type and length in two octets each with the high one first, and the contents |
| IeEdit.GetIe | drivers/rtl8812au/core/rtw_ieee80211.c:291-315 | the position and length of the first element with the id, or nothing exactly when the list has none |
| IeEdit.GetIeEx | drivers/rtl8812au/core/rtw_ieee80211.c:329-365 | the first element with the id whose octets, with those behind it where it is too short, begin with the OUI; nothing exactly when there is none |
| IeEdit.RemoveIe | drivers/rtl8812au/core/rtw_ieee80211.c:375-406 | for every list: the octets then lay out what survives the search, and success is reported if and only if something is gone; under the exact condition that no candidate is confused that is the list without every matching element; the prefix before the offset and the octets behind the old end are untouched |
| IeEdit.RemoveFirst | drivers/rtl8812au/core/rtw_ieee80211.c:381-402 | one round of the removal loop: the search from the current start, the move of the rest onto the hit, and the octets the move uncovers |
| IeEdit.SurvivorsAreWithoutIff | drivers/rtl8812au/core/rtw_ieee80211.c:375-406 | what survives is the list without its matching elements if and only if no candidate shorter than the OUI is completed to it by the octets that stand behind it when the search gets there |
| IeEdit.FirstHitIsFirstMatchIff | drivers/rtl8812au/core/rtw_ieee80211.c:329-365 | one search finds the first matching element if and only if no candidate in front of it is confused in that way |
| IeEdit.LongIsNotConfused | drivers/rtl8812au/core/rtw_ieee80211.c:345-347 | a list whose candidates are as long as the OUI has none that is confused |
| IeEdit.WithoutContents | drivers/rtl8812au/core/rtw_ieee80211.c:363-374 | filtering keeps exactly the elements with another id or whose contents do not begin with the OUI, with their multiplicity |
| IeEdit.WithoutNoMatch | drivers/rtl8812au/core/rtw_ieee80211.c:363-374 | after filtering nothing matches any more |
| IeEdit.ShortCandidateConfused | drivers/rtl8812au/core/rtw_ieee80211.c:329-406 | a vendor element that holds the three octets of the Wi-Fi Alliance only, in front of an element with id 9: the search for P2P_OUI finds it, and the removal takes it out, although nothing in the list matches |
| P2pEdit.P2pOnWire | drivers/rtl8812au/core/rtw_ieee80211.c:2050-2093 | id 221, length, 50-6F-9A-09 and a list of attributes read back as a P2P element with these attributes |
| P2pEdit.GetP2pIe | drivers/rtl8812au/core/rtw_ieee80211.c:2050-2093 | the first element on which the comparison with the P2P OUI succeeds is found, whatever other vendor elements there are, except when it begins within the last five octets of the largest buffer |
| P2pEdit.GetP2pAttr | drivers/rtl8812au/core/rtw_ieee80211.c:2105-2150 | position and length of the first attribute with the id, or nothing exactly when there is none |
| P2pEdit.DelP2pAttr | drivers/rtl8812au/core/rtw_ieee80211.c:2243-2283 | one P2P element: every attribute with the id is gone, the others keep their order, the length octet fits, the freed octets are zero and everything outside the element is as before |
| P2pEdit.DelP2pAttrs | drivers/rtl8812au/core/rtw_ieee80211.c:2302-2358 | the whole BSS description, whatever other vendor elements it has: the element list becomes the stripped one, in place, and IELength is its exact size |
| P2pEdit.StrippedAttrs | drivers/rtl8812au/core/rtw_ieee80211.c:2243-2283 | read back from the octets, the attributes of a stripped element are the old ones without the id, and none with the id is left |
| P2pEdit.StrippedTwice | drivers/rtl8812au/core/rtw_ieee80211.c:2302-2358 | well-formed P2P elements stay well formed, and deleting the same attribute again changes nothing |
| Tim.BitsOfOctet | drivers/rtl8812au/core/rtw_wlan_util.c:4098-4104 | the bit of AID 8i+k has the value 2 to the power of k in octet i |
| Tim.TimOnWire | drivers/rtl8812au/core/rtw_ap.c:49-86 | the octets of the element for a bitmap in use from octet lo to octet hi: id 5, length, DTIM count, DTIM period, the even start with the bit of AID 0, and the bitmap from that start to hi |
| Tim.SetTimIe | drivers/rtl8812au/core/rtw_ap.c:49-86 | writes exactly the TIM element with the partial virtual bitmap; the returned octet is its length modulo 256 |
| Tim.FindWindow | drivers/rtl8812au/core/rtw_ap.c:53-66 | the two scans find the even start and the end of the octets that are not zero |
| Tim.TimRoundTrip | drivers/rtl8812au/core/rtw_ap.c:49-86 | decoding the element gives back the bit of every AID and the AID 0 traffic bit, for every bitmap of 1 to 251 octets |
| Tim.ShortestIff | drivers/rtl8812au/core/rtw_ap.c:53-66 | the partial bitmap represents the stations of the bitmap, and is the shortest one with an even start that does if and only if the AID 0 bit does not stand alone in front of a gap |
| Tim.GroupBitAndStation17 | drivers/rtl8812au/core/rtw_ap.c:53-66 | group traffic and traffic for AID 17: three octets are sent where one represents the same stations |
| BcnTim.UpdateBcnTim | drivers/rtl8812au/core/rtw_ap.c:88-166 | which octets are replaced by which, for every list, with and without memory for the remainder and with the unsigned remainder of a list that ends too early; where the place is the start of an element the beacon then holds the updated list, with exact IELength and an untouched fixed part |
| BcnTim.SpliceTim | drivers/rtl8812au/core/rtw_ap.c:146-163 | setting the remainder aside, writing the element and copying the remainder back replaces exactly the octets in between, and the IELength is exact; nothing stays written when the returned length wraps |
| BcnTim.LeadIs | drivers/rtl8812au/core/rtw_ap.c:116-140 | the place of an insertion by the lengths of the first SSID and the first rates element, wherever they are |
| BcnTim.EmptyTimStays | drivers/rtl8812au/core/rtw_ap.c:106-140 | a first TIM element without contents is not replaced: the element is inserted as if there were none |
| BcnTim.InsertionFitsIff | drivers/rtl8812au/core/rtw_ap.c:116-140 | with SSID and rates in front, an insertion falls on the boundary of an element if and only if an element with a one-octet body comes next, and then becomes the fourth |
| BcnTim.CutLosesElements | drivers/rtl8812au/core/rtw_ap.c:116-163 | after an insertion inside an element, at an octet that is not by chance the id of a TIM element, the octets hold no list at all whose other elements are the old ones |
| BcnTim.InsertionCutsCountry | drivers/rtl8812au/core/rtw_ap.c:116-163 | a beacon with a country element in third place: the TIM element is written into the middle of it, and the octets cannot be read as a list any more |
| BcnTim.OthersSurvive | drivers/rtl8812au/core/rtw_ap.c:88-166 | an update keeps all elements other than TIM, in order |
| BcnTim.UpdateFindsBitmap | drivers/rtl8812au/core/rtw_ap.c:88-166 | looking up the TIM element afterwards and decoding it gives the station bitmap, and the lists before and behind it are the old ones |
| BcnTim.UpdateTwice | drivers/rtl8812au/core/rtw_ap.c:88-166 | repeating the update with the same bitmap changes nothing |
| BcnTim.BeaconCarriesBitmapIff | drivers/rtl8812au/core/rtw_ap.c:85-166 | with at most one TIM element, the beacon has one after the update if and only if the partial bitmap is shorter than 251 octets: at 251 the returned length wraps to 0 |
| BcnTim.ShortBitmapCarried | drivers/rtl8812au/core/rtw_sta_mgt.c:265-271 | with the AIDs this driver gives out, at most 32, the bitmap has five octets at most and is always carried |
| PppoeRelay.FrameOnWire | drivers/rtl8812au/core/rtw_br_ext.c:107-147 | 14 octets of Ethernet header, version and type, code, session id, length, tags: a discovery frame with these tags |
| PppoeRelay.RelayTagOnWire | drivers/rtl8812au/core/rtw_br_ext.c:940-980 | the relay tag: 01-10, length, 81-86, the MAC of the client, the value of its own relay tag |
| PppoeRelay.Skb.FindTag | drivers/rtl8812au/core/rtw_br_ext.c:107-122 | the first tag of the type, or nothing exactly when there is none |
| PppoeRelay.Skb.PullAndMerge | drivers/rtl8812au/core/rtw_br_ext.c:150-169 | cuts n octets out of the frame, or leaves it alone when it is too short |
| PppoeRelay.Skb.AddTag | drivers/rtl8812au/core/rtw_br_ext.c:125-147 | makes the room the raw length asks for if it is there: on big-endian hosts the tag then stands in front of the others with an exact length field, on the others octets from beyond its buffer stand between them |
| PppoeRelay.Skb.InsertDiscovery | drivers/rtl8812au/core/rtw_br_ext.c:940-980 | exactly when a client PADI or PADR is sent on, on hosts of either byte order; on big-endian ones it has the driver tag in front, the client MAC and its own relay value inside it; what the others send, and what a failure leaves behind |
| PppoeRelay.Skb.LookupAnswer | drivers/rtl8812au/core/rtw_br_ext.c:1011-1054 | an answer with the driver tag goes to the MAC in it, with the tag list it encloses; any other is refused unchanged |
| PppoeRelay.RelayRoundTrip | drivers/rtl8812au/core/rtw_br_ext.c:940-1054 | whatever tags surround the echoed relay tag (RFC 2516, Appendix A), the answer goes to the client that asked and carries its own non-empty relay tag, or none if it had none |
| PppoeRelay.EchoRoundTrip | drivers/rtl8812au/core/rtw_br_ext.c:940-1054 | echoing the whole tag list brings back the client tags with its non-empty relay tag in front |
| PppoeRelay.EchoIsIdentityIff | drivers/rtl8812au/core/rtw_br_ext.c:940-1054 | the list comes back unchanged if and only if the client had no relay tag, or a non-empty one in front |
| PppoeRelay.RawTagLength | drivers/rtl8812au/core/rtw_br_ext.c:125-132 | the room AddTag asks for, read without ntohs after it was stored with htons, is right if and only if the host is big-endian; otherwise it exceeds the buffer of the tag |
| Nat25Db.Link | drivers/rtl8812au/core/rtw_br_ext.c:410-424 | the entry becomes the head of the chain and every pprev names the cell that points to its entry |
| Nat25Db.Unlink | drivers/rtl8812au/core/rtw_br_ext.c:427-440 | the chain is the old one without the entry, with every pprev right, and the entry points nowhere |
| Nat25Db.Bridge.Find | drivers/rtl8812au/core/rtw_br_ext.c:447-455 | the search of one bucket finds the entry of an address if the table has it |
| Nat25Db.Bridge.Lookup | drivers/rtl8812au/core/rtw_br_ext.c:443-514 | refines the lookup on the map: a live entry counts a use and its MAC replaces the destination, an expired or missing one changes nothing |
| Nat25Db.Bridge.Insert | drivers/rtl8812au/core/rtw_br_ext.c:517-552 | refines the insertion: an address that is known gets the new MAC and time, a new one an entry with one use if there is memory |
| Nat25Db.Bridge.Expire | drivers/rtl8812au/core/rtw_br_ext.c:671-756 | one pass refines the pass on the map: each expired entry loses a use and is removed with its last one; the short cut is cleared if and only if its entry is removed |
| Nat25Db.Bridge.Cleanup | drivers/rtl8812au/core/rtw_br_ext.c:642-668 | empties the table and its chains, and the short cut if it had an entry |
| Nat25Db.Bridge.Adopt | drivers/rtl8812au/core/rtw_xmit.c:4170-4216 | refines the short cut for IPv4 frames of a client, all three fields: when the search fails the addresses stay, when the entry is gone they are cleared |
| Nat25Runs.UsesStayPositive | drivers/rtl8812au/core/rtw_br_ext.c:443-552 | every entry has at least one use in every reachable table |
| Nat25Runs.LearnedStays | drivers/rtl8812au/core/rtw_br_ext.c:443-507 | until it ages out an entry keeps its MAC and its time over any sequence of lookups, passes and other insertions, and counts its lookups |
| Nat25Runs.UsesCounted | drivers/rtl8812au/core/rtw_br_ext.c:443-552 | without expiry an entry counts all lookups before it ages, however often its address is learned again in between |
| Nat25Runs.AnswerIff | drivers/rtl8812au/core/rtw_br_ext.c:443-552 | from learning an address until it is learned again, touched or cleaned up, a lookup answers the learned MAC if and only if the entry has not aged |
| Nat25Runs.GoneAfterUses | drivers/rtl8812au/core/rtw_br_ext.c:671-756 | an expired entry that is not refreshed is gone if and only if there have been as many passes as it had uses |
| Nat25Runs.Lifetime | drivers/rtl8812au/core/rtw_br_ext.c:443-756 | over its whole life it takes one pass more than there were lookups to remove an entry |
| Nat25Runs.WrappedTime | drivers/rtl8812au/core/rtw_br_ext.c:181-188 | comparing tick counters by the sign of their wrapped difference agrees with comparing the true times within half the range |
| Nat25Frames.HandleIp | drivers/rtl8812au/core/rtw_br_ext.c:803-859 | what checking, inserting and looking up an IPv4 frame make of the frame and the table, header and address checks included |
| Nat25Frames.MalformedIff | drivers/rtl8812au/core/rtw_br_ext.c:806-809 | a frame whose octet 14 is 16 v + ihl is refused if and only if 4 ihl octets are not less than its length |
| Nat25Frames.HandleArp | drivers/rtl8812au/core/rtw_br_ext.c:869-918 | the same for ARP: the sender MAC is hidden on the way out, the target MAC filled in on the way back |
| Nat25Frames.IpTransparent | drivers/rtl8812au/core/rtw_br_ext.c:815-859 | of nat25_db_handle alone: after an IPv4 frame has been learned from, a lookup gives a frame for its address its MAC as destination until the entry ages, whatever else happens to the table; see Nat25Shortcut.ClientIff for nat25_handle_frame, which asks the short cut first |
| Nat25Frames.SendIp | drivers/rtl8812au/core/rtw_xmit.c:4165-4287 | a client frame on its way out: what it makes of the short cut, the table and the frame |
| Nat25Frames.ReceiveIp | drivers/rtl8812au/core/rtw_br_ext.c:1218-1269 | a frame on its way back: the short cut answers before the table, and either can be switched off |
| Nat25Frames.SendStep | drivers/rtl8812au/core/rtw_xmit.c:4165-4287 | a proper frame of a client is the step of the short cut and the table for its octets 6 to 11 and 26 to 29 |
| Nat25Frames.ReplyStep | drivers/rtl8812au/core/rtw_br_ext.c:1229-1254 | a proper unicast frame is given the answer for its octets 30 to 33 as destination |
| Nat25Shortcut.SoundRun | drivers/rtl8812au/core/rtw_xmit.c:4170-4216 | over every run the short cut leads to an entry of the table for its own address, or nowhere |
| Nat25Shortcut.AimedIff | drivers/rtl8812au/core/rtw_xmit.c:4196-4216 | when the short cut leads somewhere after a frame, and which addresses it then has |
| Nat25Shortcut.CutIff | drivers/rtl8812au/core/rtw_br_ext.c:738-744 | the short cut loses its addresses if and only if its entry goes |
| Nat25Shortcut.AgreesIff | drivers/rtl8812au/core/rtw_br_ext.c:1235-1246 | the short cut agrees with the table on every frame for its address if and only if the table has a live entry with the same MAC (or both answer with the broadcast address) |
| Nat25Shortcut.TransparentIff | drivers/rtl8812au/core/rtw_br_ext.c:1235-1246 | through every run that says nothing new about a client, frames for it go to its MAC until the entry ages, if and only if the table has it and the short cut does not contradict the table |
| Nat25Shortcut.SettledIff | drivers/rtl8812au/core/rtw_xmit.c:4196-4275 | the frame of a client leaves it in that state if and only if it is new to the short cut, and either known with this MAC or there is room and the short cut is not left over from its address; or the short cut leads to it, or to nothing |
| Nat25Shortcut.ClientIff | drivers/rtl8812au/core/rtw_xmit.c:4196-4275 | both together, in every reachable state |
| Nat25Frames.FrameClientIff | drivers/rtl8812au/core/rtw_xmit.c:4165-4287 | the same of the frames themselves: from a proper frame of a client on, every proper unicast frame for its address leaves with its MAC as destination until its entry ages, whatever else happens, if and only if its frame was welcome |
| Nat25Shortcut.ZeroNotLearned | drivers/rtl8812au/core/rtw_br_ext.c:815-820 | over every run no IPv4 frame teaches the table an all-zero address |
| Nat25Shortcut.StaleShortcut | drivers/rtl8812au/core/rtw_br_ext.c:1236-1241 | a run after which the table has the new MAC of an address and frames for it still go to the old one |
| Nat25Shortcut.SecondAddress | drivers/rtl8812au/core/rtw_xmit.c:4209-4212 | a run after which a client that took a second address is not in the table under it |
| Nat25Shortcut.TakenOver | drivers/rtl8812au/core/rtw_xmit.c:4200-4208 | a run after which a client that took over an address is answered through the short cut only, and the table keeps the old MAC |
| Nat25Frames.ArpTransparent | drivers/rtl8812au/core/rtw_br_ext.c:883-918 | an ARP request leaves with the bridge MAC in it, and the answer reaches the client MAC in the header and in the target field |
| Vlan.MoveUp | drivers/rtl8812au/core/rtw_br_ext.c:1220-1226 | moving the addresses up in place and pulling four octets leaves the frame without its tag |
| Vlan.PutBack | drivers/rtl8812au/core/rtw_br_ext.c:1257-1263 | moving them down again and writing the tag gives the frame with the tag behind its addresses, whatever length the lookup has left |
| Vlan.TagLayout | drivers/rtl8812au/core/rtw_br_ext.c:1220-1226 | the tag is 81-00 and the control field behind the two addresses |
| Vlan.TagSurvives | drivers/rtl8812au/core/rtw_br_ext.c:1220-1263 | whatever the lookup makes of the untagged frame, its length included, is sent on with the original tag, and an unchanged frame comes back octet by octet |
| Dhcp.FlagBcast | drivers/rtl8812au/core/rtw_br_ext.c:1347-1360 | the broadcast flag is set and the checksum folded; for every datagram that is accepted before (RFC 768: its checksum is right, or 0 for none) the exact condition, on its fields, for it to be accepted afterwards |
| Dhcp.RightIffFlagsZero | drivers/rtl8812au/core/rtw_br_ext.c:1353-1359 | the incremental update counts the old flags word twice: a right checksum is right afterwards if and only if that word is zero |
| Dhcp.NoneAfterIff | drivers/rtl8812au/core/rtw_br_ext.c:1353-1359 | the new checksum is 0, and so means none, if and only if the old one was the new flags word |
| Dhcp.AcceptedIff | drivers/rtl8812au/core/rtw_br_ext.c:1353-1359 | every datagram that is accepted before is accepted afterwards if and only if its fields satisfy a condition on them alone |
| Dhcp.SpoiltRequests | drivers/rtl8812au/core/rtw_br_ext.c:1353-1359 | two requests that are accepted before and not afterwards: a DHCPDISCOVER without a checksum, and one with a reserved flag set |
| CmdSafety.InitInv | drivers/rtl8812au/core/rtw_cmd.c:525-532 | the invariant holds before the thread starts |
| CmdSafety.SubmitterKeeps | drivers/rtl8812au/core/rtw_cmd.c:1243-1259 | every step of a submitter outside the queue keeps the invariant: filter, semaphore, end of the wait, mutex, test of the status |
| CmdSafety.InsertKeeps | drivers/rtl8812au/core/rtw_cmd.c:238-295 | putting a command on the queue keeps it |
| CmdSafety.TakeKeeps | drivers/rtl8812au/core/rtw_cmd.c:298-354 | taking the first command off the queue keeps it, in the loop and in the exit drain |
| CmdSafety.ServeKeeps | drivers/rtl8812au/core/rtw_cmd.c:641-653 | every stage of completing a command keeps it: mutex, test of sctx, status, signal, clearing of the pointer |
| CmdSafety.PutBackKeeps | drivers/rtl8812au/core/rtw_cmd.c:607-630 | putting a command back at the head keeps it |
| CmdSafety.ReleaseKeeps | drivers/rtl8812au/core/rtw_cmd.c:661-673 | freeing the command, or leaving that to a callback, keeps it |
| CmdSafety.StepKeeps | drivers/rtl8812au/core/rtw_cmd.c:510-719 | every atomic step of any submitter and of the thread keeps the invariant |
| CmdRuns.NoDeadAccess | drivers/rtl8812au/core/rtw_cmd.c:1243-1259 | in every interleaving the thread completes only contexts whose submitter has not returned, and nobody uses a command object that has been freed |
| CmdRuns.HolderCanGoOn | drivers/rtl8812au/core/rtw_cmd.c:641-653 | in every reachable state whoever holds a context mutex can go on and release it |
| CmdRuns.FirstInFirstOut | drivers/rtl8812au/core/rtw_cmd.c:422-465 | over any run the commands completed, then the one in hand, then the queue, are the accepted submissions in order, commands put back included |
| CmdRuns.NoWakeupLost | drivers/rtl8812au/core/rtw_cmd.c:532-570 | without LPS_LCLK: whenever the thread is blocked and the queue is not empty, the semaphore is positive or a submitter has yet to raise it |
| CmdRuns.WakeupLostWithLps | drivers/rtl8812au/core/rtw_cmd.c:607-630 | with LPS_LCLK a reachable state has the thread blocked, a command queued, the semaphore at 0 and no submitter about to raise it: only a wake-up from outside the queue helps |
| CmdExit.RunningIff | drivers/rtl8812au/core/rtw_cmd.c:684-685 | over every run cmdthd_running is set if and only if the thread is in its loop, and outside it the filter lets no command pass |
| CmdExit.LateIsRefused | drivers/rtl8812au/core/rtw_cmd.c:407-448 | over every run a command that comes to the filter after the thread has left its loop is never accepted until the thread is started again; its submitter returns and it is freed |
| CmdExit.StaysInLoop | drivers/rtl8812au/core/rtw_cmd.c:532-570 | over every run in which nobody stops it the thread stays in its loop |
| CmdExit.DrainCompletes | drivers/rtl8812au/core/rtw_cmd.c:687-716 | when the thread ends, every command accepted so far has been completed: none is queued or in hand, and none has a submit context hooked to it |
| CmdExit.ExecutedAre | drivers/rtl8812au/core/rtw_cmd.c:636-716 | over every run the handlers run are those of the commands completed in the loop, each once and in order, and of the one in hand when it is past its handler; the exit drain runs none |
| CmdExit.ExitEnds | drivers/rtl8812au/core/rtw_cmd.c:532-716 | over every run, once the driver cannot run the thread takes at most eight steps for each command queued and thirteen more, and short of its end it can go on unless it waits for the semaphore or for a mutex whose holder can go on |
| CmdExit.StrandedIff | drivers/rtl8812au/core/rtw_cmd.c:439-462 | over every run a command is left on the queue of a thread that has gone if and only if it is put there afterwards, and then it had passed the filter before |
| CmdExit.LateInsertStranded | drivers/rtl8812au/core/rtw_cmd.c:439-462 | a run that leaves a command so |
| CmdExit.FreedExactlyOnce | drivers/rtl8812au/core/rtw_cmd.c:439-451 | over every run no command is freed twice, and one is freed exactly when the filter has sent it back or the thread was done with it and no callback kept it |
| CmdExit.SemaphoreCounts | drivers/rtl8812au/core/rtw_cmd.c:459-462 | over every run the semaphore is what it was, and how often it was raised, less how often the thread has passed it |
| Sounding.BeamformingInfo.ResetVars | drivers/rtl8812au/core/rtw_beamforming.c:593-616 | clears the lists and the sounding marks of the entries in use |
| Sounding.BeamformingInfo.GetList | drivers/rtl8812au/core/rtw_beamforming.c:625-710 | lists the first wanted MU and SU entries whose count has run out, restarts their counts, and returns 0, -1 or -2 |
| Sounding.BeamformingInfo.Handler | drivers/rtl8812au/core/rtw_beamforming.c:712-858 | the handler and everything it calls, recursion included, terminates and does what the specification says |
| Sounding.BeamformingInfo.SoundingDown | drivers/rtl8812au/core/rtw_beamforming.c:1496-1555 | the end of a sounding and the handler it calls next |
| Sounding.BeamformingInfo.BfCmd | drivers/rtl8812au/core/rtw_beamforming.c:1811-1904 | a command is handled at once through the dispatch, or handed to the command thread |
| Sounding.BeamformingInfo.SoundingTimer | drivers/rtl8812au/core/rtw_beamforming.c:883-925 | the period timer starts a period, or counts a delay and at the fourth stops the period by force |
| Sounding.BeamformingInfo.TimeoutTimer | drivers/rtl8812au/core/rtw_beamforming.c:927-957 | the time-out timer marks the current SU entry and asks for the next sounding |
| Sounding.BeamformingInfo.Report | drivers/rtl8812au/core/rtw_beamforming.c:1557-1570 | a report of the firmware stops the timer and queues the end of the sounding |
| Sounding.BeamformingInfo.UpdateTraffic | drivers/rtl8812au/core/rtw_beamforming.c:1968-2001 | the traffic decision sets and clears what is to be sounded, and wakes an idle scheduler |
| SoundingRuns.OpenKeeps | drivers/rtl8812au/core/rtw_beamforming.c:737-783 | opening a period keeps the invariant, whether it finds something to sound, nothing, entries not ready, or a scan |
| SoundingRuns.ContinueKeeps | drivers/rtl8812au/core/rtw_beamforming.c:785-858 | the handler starts an SU entry that had not been started, or the MU group, or finishes the period, through any depth of recursion |
| SoundingRuns.DownKeeps | drivers/rtl8812au/core/rtw_beamforming.c:1496-1555 | the same for the end of a sounding |
| SoundingRuns.StepKeeps | drivers/rtl8812au/core/rtw_beamforming.c:712-957 | every event but a forced stop between soundings keeps the invariant, and an open period goes on with its lists or is logged with them |
| SoundingRuns.EnteredValid | drivers/rtl8812au/core/rtw_beamforming.c:1442-1450 | the invariant holds when the first beamformees have been entered |
| SoundingSafety.EveryRunSane | drivers/rtl8812au/core/rtw_beamforming.c:712-957 | over every run whatever, forced stops included, each period that finishes started each SU entry it listed exactly once, in order, and the MU group once if it listed one |
| SoundingSafety.EnteredSane | drivers/rtl8812au/core/rtw_beamforming.c:1442-1450 | it holds when the first beamformees have been entered |
| SoundingSafety.StepSane | drivers/rtl8812au/core/rtw_beamforming.c:712-957 | every event keeps what that rests on |
| SoundingSafety.ContinueShifted | drivers/rtl8812au/core/rtw_beamforming.c:785-858 | the handler goes on in the same way whatever the counter of running periods and the queue say |
| SoundingRuns.RunKeeps | drivers/rtl8812au/core/rtw_beamforming.c:712-957 | over every run without a forced stop between soundings the full invariant holds: one period is counted exactly while one is open or its START_PERIOD is queued |
| SoundingSafety.EarlyReturnUnreachable | drivers/rtl8812au/core/rtw_beamforming.c:1514-1530 | in every reachable state SU_START the current entry is sounding and not marked timed out, so that the return that would leave out the next START_PERIOD is never taken |
| SoundingRuns.OpenPeriodCompletes | drivers/rtl8812au/core/rtw_beamforming.c:783-858 | over every such run an open period is still open with the same lists, or it has been logged, complete |
| SoundingRuns.PeriodEnds | drivers/rtl8812au/core/rtw_beamforming.c:783-957 | over every such run, whatever mix of reports, time-outs and period timers: how often the scheduler acts of its own accord is bounded by the reports, timers and periods started, and when it can act no more it is back in INIT, or in NONE when it found nothing |
| SoundingHarm.ForceStopHarm | drivers/rtl8812au/core/rtw_beamforming.c:861-881 | stopping by force keeps the scheduler in order if and only if a sounding is under way |
| SoundingHarm.ForceStopNegative | drivers/rtl8812au/core/rtw_beamforming.c:737-881 | otherwise the START_PERIOD that is left takes sounding_running to -1 unless it starts a sounding, and so it does whenever it finds nothing to sound |
| SoundingHarm.NegativeStalls | drivers/rtl8812au/core/rtw_beamforming.c:899-925 | a counter below zero is only taken further down by the period timer, which starts no period |
| SoundingHarm.ForceStopReachable | drivers/rtl8812au/core/rtw_beamforming.c:712-957 | a run from the entry of one beamformee that leads to a forced stop in the time-out state, to -1 when traffic has ceased (rtw_bf_update_traffic, lines 1968-2001), and, when there is traffic again, to a scheduler that starts no period |
| SoundingRates.ChosenFirst | drivers/rtl8812au/core/rtw_beamforming.c:640-697 | the lists take the first entries wanted: one left out comes behind a full list |
| SoundingRates.Cadence | drivers/rtl8812au/core/rtw_beamforming.c:649-697 | over every run that leaves an entry alone: once listed, it comes due again in the c-th preparation of the lists after that, c being its period in units of the shortest modulo 256, and is not listed before |
| SoundingReports.CommandsInOrder | drivers/rtl8812au/core/rtw_beamforming.c:1811-1904 | over every run the command thread has handled the commands of the firmware reports and the timers in the order in which they were sent |
| SoundingReports.ResultsInOrder | drivers/rtl8812au/core/rtw_beamforming.c:1557-1570 | over every run the results still queued are those the firmware has reported, and a failure for each sounding stopped by force, in order, without those handled |
| SoundingReports.ResultStopsTimer | drivers/rtl8812au/core/rtw_beamforming.c:861-957 | with each result the time-out timer is stopped |
| SoundingReports.FailuresCounted | drivers/rtl8812au/core/rtw_beamforming.c:1532-1570 | over every run the counter of an entry holds the failures reported for its soundings since the last success, modulo 32 |
| SoundingReports.RemovalRequestedIff | drivers/rtl8812au/core/rtw_beamforming.c:1542-1570 | after every run, the next event requests the removal of an entry if and only if it handles the 31st failure reported in a row or the 32nd after such a one |
| SoundingLists.ListedIff | drivers/rtl8812au/core/rtw_beamforming.c:640-697 | a period lists an entry if and only if the hardware has it, its count has run out and it is called for, and it comes before the end of a full list |
| SoundingLists.CandidateIff | drivers/rtl8812au/core/rtw_beamforming.c:593-697 | an entry is a candidate for sounding if and only if it is listed for one, or has been one and not been sounded since |
| SoundingLists.TrafficDecides | drivers/rtl8812au/core/rtw_beamforming.c:1976-1994 | an entry is to be sounded afterwards if and only if it is wanted; one decided about anew is due at once, and one no more wanted is marked for deletion |
| SoundingLists.TrafficWakesIff | drivers/rtl8812au/core/rtw_beamforming.c:1996-2001 | it wakes an idle scheduler if and only if it decides about some entry anew |
| SoundingLists.ContinueClears | drivers/rtl8812au/core/rtw_beamforming.c:785-858 | through any depth of recursion the handler takes the mark for deletion from exactly the entries it starts |
| SoundingLists.GivesUpIff | drivers/rtl8812au/core/rtw_beamforming.c:743-766 | after every run, the scheduler gives up with the next period it opens in vain if and only if that is the sixth in a row |
| SoundingLists.ForceStopIff | drivers/rtl8812au/core/rtw_beamforming.c:883-925 | after every run, the next period timer stops the running period by force if and only if it is at least the fourth that found it running |
| StaCaps.ApMlme.StartApMode | drivers/rtl8812au/core/rtw_ap.c:4118-4183 | the accounts are right at the start |
| StaCaps.ApMlme.UpdateErpInfo | drivers/rtl8812au/core/rtw_ap.c:3025-3057 | what the writer puts into the ERP octet: it tests the count for 1, so that the octet is right afterwards if and only if there is at most one such station |
| StaCaps.ApMlme.HtOperationUpdate | drivers/rtl8812au/core/rtw_ap.c:3441-3510 | ht_op_mode then announces what the whole set of stations and olbc_ht call for (section 9.4.2.57 of IEEE 802.11-2016); it returns 0 if and only if it did so before; the burst limit bit is left alone |
| StaCaps.ApMlme.Join | drivers/rtl8812au/core/rtw_ap.c:3544-3738 | a join or re-join keeps every counter equal to the number of stations with the flag and Use_Protection equal to a count above 0; what each flag becomes, and that the two HT flags that are never taken back are right exactly if no stale one was held; the beacon is updated for the first and the last station with a flag, or when ht_op_mode changes |
| StaCaps.ApMlme.Leave | drivers/rtl8812au/core/rtw_ap.c:3740-3832 | a leave clears all seven flags and the TIM bit and keeps the accounts, the ERP bit and ht_op_mode right |
| StaCaps.FirstOrLastIff | drivers/rtl8812au/core/rtw_ap.c:3544-3738 | those are the joins and leaves with which the set of stations with a flag becomes empty or stops being so |
| StaCaps.ApMlme.DropIntolerant | drivers/rtl8812au/core/rtw_ap.c:3796-3802 | the branch with rtw_warn_on cannot be reached |
| StaCaps.CoexBits | drivers/rtl8812au/core/rtw_ap.c:3359-3370 | 40 MHz intolerance is bit 1 of the octet, the request for 20 MHz bit 2 |
| StaCaps.ApMlme.CoexReport | drivers/rtl8812au/core/rtw_ap.c:3340-3398 | a coexistence frame, read at its fixed offsets, makes the station intolerant if and only if it was or bit 1 is set, sets ht_20mhz_width_req for bit 2 alone, and keeps the accounts |
| StaCaps.ApMlme.ScanReset | drivers/rtl8812au/core/rtw_ap.c:1534-1536 | the reset after a scan keeps the accounts right if and only if no station is held to be without HT |
| StaCaps.RejoinWithoutHt | drivers/rtl8812au/core/rtw_ap.c:3654-3724 | a station that joins with HT and again without: the beacon announces a station without greenfield that is none |
| StaCaps.ScanWithLegacyStation | drivers/rtl8812au/core/rtw_ap.c:1534-1536 | a station without HT joins and a scan ends: the count is 0 |
| Chbw.OffsetIs | drivers/rtl8812au/core/rtw_wlan_util.c:468-535 | the side present is kept when the channel has it for the width; otherwise it becomes the upper one if the channel has that, and else the lower one; there is no offset exactly when the channel has neither |
| Chbw.SideStays | drivers/rtl8812au/core/rtw_wlan_util.c:482-486 | a setting on a side its channel has keeps it, and giving a setting its side twice is giving it once |
| Chbw.OffsetsPair | drivers/rtl8812au/core/rtw_wlan_util.c:468-535 | the offset table pairs channels: the two halves of a 40 MHz channel agree about it, and in the 2.4 GHz band both halves are channels of the band |
| Chbw.SyncChbw | drivers/rtl8812au/core/rtw_ieee80211.c:1900-1948 | the branches of the sync, ending in the synced request and the joined union: the request fits into it, and so does whatever fitted before |
| Chbw.SyncFits | drivers/rtl8812au/core/rtw_ieee80211.c:1900-1948 | the request fits into the new union, whatever fitted before still fits, the channel stays and the union does not get narrower |
| Chbw.SyncKeepsSide | drivers/rtl8812au/core/rtw_ieee80211.c:1900-1948 | a wide request on a side the channel of a 20 MHz union has keeps width and side, and the union takes them over |
| Chbw.SyncedWidth | drivers/rtl8812au/core/rtw_ieee80211.c:1900-1948 | which width and side a request comes out with, by those of the union and the sides of its channel |
| Chbw.FoldFits | drivers/rtl8812au/core/rtw_ieee80211.c:1900-1948 | over any sequence of 20, 40 and 80 MHz requests every one fits into the final union, which is as wide as the widest of them |
| Chbw.FoldGroups | drivers/rtl8812au/core/rtw_ieee80211.c:1870-1890 | all of them are grouped with each other and with the union |
| Chbw.AdjustedIs | drivers/rtl8812au/core/rtw_mlme.c:5205-5243 | the width becomes the smaller of the one asked for and the one allowed |
| Chbw.ChSpecificChk | drivers/rtl8812au/core/rtw_ap.c:4504-4545 | the narrowing loop terminates with the widest usable width no wider than the start, or 20 MHz; failure exactly without an offset or on a channel that needs radar detection in an unknown domain |
| Chbw.Narrowed | drivers/rtl8812au/core/rtw_ap.c:4526-4535 | nothing wider than the result is usable, and the result is usable or 20 MHz |
| Chbw.TmpUnion | drivers/rtl8812au/core/rtw_ap.c:4822-4843 | the loop over the selected interfaces computes the union of their adjusted requests |
| Chbw.Decide | drivers/rtl8812au/core/rtw_ap.c:4812-4925 | which union the autonomous branch applies, when it changes nothing, and what it writes to each interface |
| Chbw.DecidedSound | drivers/rtl8812au/core/rtw_ap.c:4847-4903 | a union applied without a fresh choice is on the channel of the requests, no wider than their union, in the channel plan when wider than 20 MHz, needs no radar detection in an unknown domain, and is free of radar unless a channel and a width were asked for; a request for both never moves to another channel, and one for no channel is never refused while there is a choice |
| Chbw.FineDecided | drivers/rtl8812au/core/rtw_ap.c:4847-4903 | unless a fresh choice is asked for, a union of the requests that is usable and allowed is the one applied, if it is free of radar or both a channel and a width have been asked for, and otherwise the choice is |
| Chbw.RefusedIff | drivers/rtl8812au/core/rtw_ap.c:4847-4903 | with a choice at hand a request is refused if and only if it is for a channel, and the union has no side for its width or what is left of it needs radar detection in an unknown domain |
| Chbw.OneStays | drivers/rtl8812au/core/rtw_ap.c:4822-4925 | so a single selected interface with such a setting keeps it, through the union, the check and the update |
| Chbw.FittedGroup | drivers/rtl8812au/core/rtw_ap.c:4907-4925 | after the decision all selected interfaces are pairwise grouped, fit into the union, and have the smaller of their own width and its width |
| Chbw.UnionCovers | drivers/rtl8812au/core/rtw_ap.c:4822-4843 | for interfaces with a channel every synced request fits into the union the decision starts from |
| Acl.AclPool.Init | drivers/rtl8812au/core/rtw_ap.c:2503-2530 | an empty pool, not in use |
| Acl.AclPool.Add | drivers/rtl8812au/core/rtw_ap.c:2599-2670 | 0 if and only if the address is in the pool afterwards; a new one is appended if there is room, and nothing else changes |
| Acl.AclPool.Remove | drivers/rtl8812au/core/rtw_ap.c:2672-2720 | exactly the address is gone, in order, and everything if it is the broadcast address |
| Acl.AclPool.Clear | drivers/rtl8812au/core/rtw_ap.c:2532-2569 | empties the pool; the warning about a count that is not 0 is not given |
| Acl.AclPool.CountsAgree | drivers/rtl8812au/core/rtw_ap.c:2599-2720 | num, the number of valid slots and the length of the list agree and are at most NUM_ACL, and the addresses are distinct |
| Acl.FreeSlot | drivers/rtl8812au/core/rtw_ap.c:2639-2656 | there is a free slot if and only if the list is shorter than NUM_ACL, so that the search for one succeeds |
| Acl.WithoutIs | drivers/rtl8812au/core/rtw_ap.c:2694-2708 | what is left in the list after a removal |
| Acl.AclPool.Allows | drivers/rtl8812au/core/rtw_sta_mgt.c:1047-1093 | the verdict of one pool, by its mode and its set of addresses |
| Acl.StaPriv.AclAddSta | drivers/rtl8812au/core/rtw_ap.c:2599-2615 | -1 for a period that does not exist; otherwise the address is appended to the list of that period if it is new and there is room, and nothing else changes |
| Acl.StaPriv.AclRemoveSta | drivers/rtl8812au/core/rtw_ap.c:2672-2720 | the address is gone from the list of that period and nothing else changes; 0 in every case |
| Acl.StaPriv.AccessCtrl | drivers/rtl8812au/core/rtw_sta_mgt.c:1095-1104 | a station is let in if and only if no pool speaks against it |

## Left out

- PppoeRelay.Skb.InsertDiscovery: the memory beyond the tag buffer is a parameter. Discovery frames without relay tags, session frames and the magic-code check of PADT are not modelled.
- BcnTim.UpdateBcnTim: when an insertion cuts an element in two, only the octets are stated; `BcnTim.CutLosesElements` says what they no longer hold. Room in the buffer is assumed.
- IeEdit.RemoveIe: the octets the search compares are taken to be inside the buffer, since the source reads them without a bound; nothing is asked of the length of the elements.
- P2pEdit.DelP2pAttrs: P2P elements hold well-formed attribute lists; other vendor elements are free. The copies the getters can make, `rtw_del_p2p_ie` and the WFD twins, which repeat the same loops, are not modelled; nor are `rtw_add_bcn_ie` and `rtw_remove_bcn_ie`.
- Nat25Db.Bridge.Lookup: counts uses without a bound, where the source has a 32-bit atomic counter. Times are unbounded here; `Nat25Runs.WrappedTime` relates them to the tick counter.
- Nat25Frames.HandleIp: the rest of `nat25_db_handle`, IPX, AppleTalk, EAPOL and IPv6, is not modelled, nor the broadcast and multicast handling around it.
- Nat25Frames.SendIp: the address of the bridge itself, which is only used with the table switched off, is not recorded, and the copy of the frame is taken to succeed. In `Nat25Shortcut` a client has an IP address other than 0.0.0.0, which the driver does not learn, and a MAC address that is not the broadcast address.
- Dhcp.FlagBcast: works on the fields of the datagram; the tests that recognise a DHCP request by protocol, ports and magic number are taken to have succeeded.
- CmdThread.Do: is a state machine on values, one step for each critical section, memory access or system call; the list pointers of the queue, the command handlers and their results (done or failed) are not part of it; whether a callback keeps a command is a choice of the step. A wait ends at any moment, for completion or time-out.
- Sounding.BeamformingInfo.Handler: the removal of an entry after more than 30 failures is recorded as a request and not carried out, since the entry is released in HAL code; entering and leaving during a period are left out for the same reason. Allocation of a command is taken to succeed, NDPA and poll frames are not modelled, and handlers do not interrupt each other.
- SoundingRuns.StepKeeps: excludes the forced stop between soundings, which breaks the counter of running periods (`SoundingHarm`); what holds all the same is in `SoundingSafety`, `SoundingRates`, `SoundingReports` and `SoundingLists`.
- SoundingModel.Do: lets the hardware state of an entry change either way at any time (`HwState`), where the source takes an entry out of ADDED only when its station leaves; the lemmas over every run hold of more runs for that.
- StaCaps.ApMlme.Join: flags and modes are records of their bit fields instead of words, the ERP element is reduced to its octet, the other elements of the beacon and the mesh branch are not part of it, and the stations start without flags. olbc_ht does not change during a join.
- Chbw.Decide: what `rtw_ap_choose_chbw` would choose, the channel plan, the registry limits and radar domains are parameters; mesh, MCC, the non-autonomous branch and the update of the beacons that follows are left out.
- Chbw.SyncFits: is stated for requests of 20, 40 and 80 MHz; wider ones are passed through by the source with a warning.
- Locks around the ACL pools, the NAT2.5 table and the beacon are not modelled: each operation is one step.
- Register access, transmission, LEDs, power saving, cfg80211, ioctl tables, EEPROM, rate tables and the Python scripts of the robot.
