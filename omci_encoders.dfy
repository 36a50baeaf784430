/**
 * Field encoders of the OMCI messages the agent builds: the 802.1Q tag control word of the VLAN
 * tagging filter data (ITU-T G.988 section 9.3.11) and of the multicast operations profile, the
 * filter fields of an extended VLAN tagging operation row (G.988 section 9.3.13), and the
 * `ip_options` byte of the IP host config data (G.988 section 9.4.1).
 */
module OmciEncoders {
  import opened Wrappers

  // ---------------------------------------------------------------- tag control word

  /**
   * `((pcp << 13) & 0xe000) | ((cfi << 12) & 0x1000) | (vid & 0x0fff)`. The masks keep the
   * low 16 bits only, so the operands are taken modulo 2^16.
   */
  function Tci(pcp: bv16, cfi: bv16, vid: bv16): bv16
  {
    ((pcp << 13) & 0xe000) | ((cfi << 12) & 0x1000) | (vid & 0x0fff)
  }

  /** The three fields of a tag control word: priority, CFI/DEI bit and VLAN id. */
  function Priority(t: bv16): bv16 { t >> 13 }
  function Cfi(t: bv16): bv16 { (t >> 12) & 1 }
  function Vid(t: bv16): bv16 { t & 0x0fff }

  /** Each field of the word holds the low bits of its operand. */
  lemma TciFields(pcp: bv16, cfi: bv16, vid: bv16)
    ensures Priority(Tci(pcp, cfi, vid)) == pcp & 7
    ensures Cfi(Tci(pcp, cfi, vid)) == cfi & 1
    ensures Vid(Tci(pcp, cfi, vid)) == vid & 0x0fff
  {
  }

  /** A priority below 8, a one-bit CFI and a 12-bit VLAN id decode back unchanged. */
  lemma TciRoundTrip(pcp: bv16, cfi: bv16, vid: bv16)
    requires pcp < 8 && cfi < 2 && vid < 4096
    ensures Priority(Tci(pcp, cfi, vid)) == pcp
    ensures Cfi(Tci(pcp, cfi, vid)) == cfi
    ensures Vid(Tci(pcp, cfi, vid)) == vid
  {
  }

  /** Every word is the encoding of its own fields. */
  lemma TciDecodes(t: bv16)
    ensures Tci(Priority(t), Cfi(t), Vid(t)) == t
  {
  }

  /**
   * The callers pass priority 8 for the VLAN filter entries and for the multicast profile's
   * upstream tag: bit 3 falls outside the 3-bit field and the word carries priority 0.
   */
  lemma PriorityEightIsZero(vid: bv16)
    requires vid < 4096
    ensures Tci(8, 0, vid) == vid
    ensures Priority(Tci(8, 0, vid)) == 0
  {
  }

  /**
   * The filter list of `create_vlanTaggingFilterData`: more than 12 VLANs is refused before any
   * message exists; otherwise one word per (priority, VLAN id) pair, CFI 0, in the given order.
   */
  method VlanFilterList(vlans: seq<(bv16, bv16)>) returns (r: Option<seq<bv16>>)
    ensures r.None? <==> |vlans| > 12
    ensures r.Some? ==> |r.value| == |vlans|
    ensures r.Some? ==> forall i :: 0 <= i < |vlans| ==>
      && Priority(r.value[i]) == vlans[i].0 & 7
      && Cfi(r.value[i]) == 0
      && Vid(r.value[i]) == vlans[i].1 & 0x0fff
  {
    if |vlans| > 12 {
      return None;
    }
    var list: seq<bv16> := [];
    var k := 0;
    while k < |vlans|
      invariant 0 <= k <= |vlans|
      invariant |list| == k
      invariant forall i :: 0 <= i < k ==> list[i] == Tci(vlans[i].0, 0, vlans[i].1)
    {
      list := list + [Tci(vlans[k].0, 0, vlans[k].1)];
      k := k + 1;
    }
    forall i | 0 <= i < |vlans|
      ensures Priority(list[i]) == vlans[i].0 & 7 && Cfi(list[i]) == 0 && Vid(list[i]) == vlans[i].1 & 0x0fff
    {
      TciFields(vlans[i].0, 0, vlans[i].1);
    }
    return Some(list);
  }

  /** `upTCI` of `create_multicastOperationsProfile`: the upstream tag, CFI 0. */
  function UpstreamTci(upVlan: (bv16, bv16)): (r: bv16)
    ensures Priority(r) == upVlan.0 & 7 && Cfi(r) == 0 && Vid(r) == upVlan.1 & 0x0fff
  {
    TciFields(upVlan.0, 0, upVlan.1);
    Tci(upVlan.0, 0, upVlan.1)
  }

  // ---------------------------------------------------------------- extended VLAN tagging row

  /** The row of `received_frame_vlan_tagging_operation_table` that the Set carries. */
  datatype VlanTaggingOperation = VlanTaggingOperation(
    filterOuterPriority: nat, filterOuterVid: nat, filterOuterTpidDe: nat,
    filterInnerPriority: nat, filterInnerVid: nat, filterInnerTpidDe: nat, filterEtherType: nat,
    tagsToRemove: nat,
    treatmentOuterPriority: nat, treatmentOuterVid: nat, treatmentOuterTpidDe: nat,
    treatmentInnerPriority: nat, treatmentInnerVid: nat, treatmentInnerTpidDe: nat,
    delete: bool)

  /** The priority a filter uses when none is given: 14, do not filter on priority. */
  const NoPriorityFilter: nat := 0xe
  /** Filter priority 15: the rule is not for a frame with this tag. */
  const NotThisTag: nat := 0xf
  /** Filter VLAN id 4096: do not filter on the VLAN id. */
  const AnyVid: nat := 4096

  /**
   * `set_extendedVlanTaggingOperationConfigurationData_message` as written: the inner VLAN id
   * is forced to 4096 for the tag type "untaged", a spelling no caller uses.
   */
  function ExtVlanOperationAsWritten(tagType: string, outerPriority: Option<nat>, outerVid: nat,
                                     innerPriority: Option<nat>, innerVid: nat, tagsToRemove: nat,
                                     treatmentPriority: nat, treatmentVid: nat, tpid: nat,
                                     delete: bool): (r: VlanTaggingOperation)
  {
    VlanTaggingOperation(
      if tagType == "double_tag" then outerPriority.GetOr(NoPriorityFilter) else NotThisTag,
      if tagType == "double_tag" then outerVid else AnyVid, 0,
      if tagType != "untagged" then innerPriority.GetOr(NoPriorityFilter) else NotThisTag,
      if tagType != "untaged" then innerVid else AnyVid, 0, 0,
      tagsToRemove, 15, 0, tpid, treatmentPriority, treatmentVid, tpid, delete)
  }

  /** The same message with the untagged rule's inner VLAN id forced to 4096 as intended. */
  function ExtVlanOperation(tagType: string, outerPriority: Option<nat>, outerVid: nat,
                            innerPriority: Option<nat>, innerVid: nat, tagsToRemove: nat,
                            treatmentPriority: nat, treatmentVid: nat, tpid: nat,
                            delete: bool): (r: VlanTaggingOperation)
  {
    VlanTaggingOperation(
      if tagType == "double_tag" then outerPriority.GetOr(NoPriorityFilter) else NotThisTag,
      if tagType == "double_tag" then outerVid else AnyVid, 0,
      if tagType != "untagged" then innerPriority.GetOr(NoPriorityFilter) else NotThisTag,
      if tagType != "untagged" then innerVid else AnyVid, 0, 0,
      tagsToRemove, 15, 0, tpid, treatmentPriority, treatmentVid, tpid, delete)
  }

  /**
   * Read as G.988 reads the row, with given priorities below 15: the outer filter is in use
   * exactly for a double-tagged rule, the inner one is switched off exactly for an untagged
   * rule, and a switched-off filter matches any VLAN id; the treatment fields are passed through.
   */
  lemma ExtVlanOperationFilters(tagType: string, outerPriority: Option<nat>, outerVid: nat,
                                innerPriority: Option<nat>, innerVid: nat, tagsToRemove: nat,
                                treatmentPriority: nat, treatmentVid: nat, tpid: nat, delete: bool)
    requires outerPriority.Some? ==> outerPriority.value < 15
    requires innerPriority.Some? ==> innerPriority.value < 15
    ensures var r := ExtVlanOperation(tagType, outerPriority, outerVid, innerPriority, innerVid,
                                      tagsToRemove, treatmentPriority, treatmentVid, tpid, delete);
      && (r.filterOuterPriority != NotThisTag <==> tagType == "double_tag")
      && (r.filterInnerPriority == NotThisTag <==> tagType == "untagged")
      && (r.filterOuterPriority == NotThisTag ==> r.filterOuterVid == AnyVid)
      && (r.filterInnerPriority == NotThisTag ==> r.filterInnerVid == AnyVid)
      && (tagType == "double_tag" && outerPriority.None? ==> r.filterOuterPriority == NoPriorityFilter)
      && (tagType != "untagged" && innerPriority.None? ==> r.filterInnerPriority == NoPriorityFilter)
      && r.tagsToRemove == tagsToRemove && r.treatmentInnerPriority == treatmentPriority
      && r.treatmentInnerVid == treatmentVid && r.treatmentOuterTpidDe == tpid == r.treatmentInnerTpidDe
      && r.delete == delete
  {
  }

  /**
   * As written, an untagged rule built with an inner VLAN id keeps that id although its inner
   * priority says the rule is for frames without that tag.
   */
  lemma UntaggedInnerVidAsWritten()
    ensures var r := ExtVlanOperationAsWritten("untagged", None, AnyVid, None, 100, 3, 15, 0, 0, false);
      r.filterInnerPriority == NotThisTag && r.filterInnerVid == 100
    ensures ExtVlanOperation("untagged", None, AnyVid, None, 100, 3, 15, 0, 0, false).filterInnerVid == AnyVid
  {
  }

  /** The spelling never matters for the arguments the agent passes: the default inner VLAN id. */
  lemma AsWrittenAgreesOnCalls(tagType: string, outerPriority: Option<nat>, outerVid: nat,
                               innerPriority: Option<nat>, innerVid: nat, tagsToRemove: nat,
                               treatmentPriority: nat, treatmentVid: nat, tpid: nat, delete: bool)
    requires tagType != "untagged" || innerVid == AnyVid
    requires tagType != "untaged"
    ensures ExtVlanOperationAsWritten(tagType, outerPriority, outerVid, innerPriority, innerVid,
                                      tagsToRemove, treatmentPriority, treatmentVid, tpid, delete)
         == ExtVlanOperation(tagType, outerPriority, outerVid, innerPriority, innerVid,
                             tagsToRemove, treatmentPriority, treatmentVid, tpid, delete)
  {
  }

  // ---------------------------------------------------------------- IP host options

  /** `ip_options` of `set_ipHostConfigData`. */
  function IpOptions(delete: bool, ipAddress: Option<nat>, mask: Option<nat>, gateway: Option<nat>): (r: nat)
  {
    if delete then 0x00
    else if ipAddress.None? || mask.None? || gateway.None? then 0x0f
    else 0x0e
  }

  /**
   * Read bit by bit (G.988 section 9.4.1): DHCP (bit 1) is enabled exactly when the host is
   * configured without a complete static address; ping and traceroute answers and the IP stack
   * (bits 2 to 4) are on exactly when the host is not being deleted; no higher bit is set.
   */
  lemma IpOptionsBits(delete: bool, ipAddress: Option<nat>, mask: Option<nat>, gateway: Option<nat>)
    ensures var r := IpOptions(delete, ipAddress, mask, gateway);
      && (r % 2 == 1 <==> !delete && (ipAddress.None? || mask.None? || gateway.None?))
      && (r / 2 == 7 <==> !delete)
      && (r / 2 == 0 <==> delete)
      && r < 16
  {
  }
}
