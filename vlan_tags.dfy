/**
 * `get_vlan_tags`: splits the VLANs a service record collected into the customer (C) tag and
 * the service (S) tag. The list runs outermost first; for an upstream service it is reversed in
 * place first, and the caller's record keeps the reversed list.
 */
module VlanTags {
  import opened Wrappers

  function Reverse(s: seq<nat>): (r: seq<nat>)
    ensures |r| == |s|
    ensures forall k :: 0 <= k < |s| ==> r[k] == s[|s| - 1 - k]
  {
    if |s| == 0 then [] else Reverse(s[1..]) + [s[0]]
  }

  lemma ReverseTwice(s: seq<nat>)
    ensures Reverse(Reverse(s)) == s
  {
  }

  /** The list the tags are read from: reversed for a multi-VLAN upstream service. */
  function Ordered(vlans: seq<nat>, upstream: bool): (r: seq<nat>)
    ensures |r| == |vlans|
  {
    if |vlans| > 1 && upstream then Reverse(vlans) else vlans
  }

  /** The first entry that differs from `outer` and is positive. */
  function InnerIndex(l: seq<nat>, outer: nat): (r: Option<nat>)
    ensures r.Some? ==> r.value < |l| && l[r.value] != outer && l[r.value] > 0
    ensures r.Some? ==> forall k :: 0 <= k < r.value ==> l[k] == outer || l[k] == 0
    ensures r.None? ==> forall k :: 0 <= k < |l| ==> l[k] == outer || l[k] == 0
  {
    if |l| == 0 then None
    else if l[0] != outer && l[0] > 0 then Some(0)
    else match InnerIndex(l[1..], outer)
      case None => None
      case Some(k) => Some(k + 1)
  }

  /** The (C tag, S tag) pair `get_vlan_tags` returns. */
  datatype Tags = Tags(cTag: Option<nat>, sTag: Option<nat>)

  function TagsOf(vlans: seq<nat>, upstream: bool): Tags
  {
    var l := Ordered(vlans, upstream);
    if |l| == 0 then Tags(None, None)
    else if |l| == 1 then Tags(Some(l[0]), None)
    else match InnerIndex(l, l[0])
      case None => Tags(Some(l[0]), None)
      case Some(k) => Tags(Some(l[k]), Some(l[0]))
  }

  /** `get_vlan_tags(vlanList, flowType)`: the tags, and the list as the call leaves it. */
  method GetVlanTags(vlans: seq<nat>, upstream: bool) returns (t: Tags, vlans': seq<nat>)
    ensures t == TagsOf(vlans, upstream)
    ensures vlans' == Ordered(vlans, upstream)
  {
    vlans' := vlans;
    if |vlans| > 1 {
      if upstream {
        vlans' := Reverse(vlans);
      }
      var c: Option<nat> := None;
      var k := 0;
      while k < |vlans'|
        invariant 0 <= k <= |vlans'|
        invariant forall j :: 0 <= j < k ==> vlans'[j] == vlans'[0] || vlans'[j] == 0
      {
        if vlans'[0] != vlans'[k] && vlans'[k] > 0 {
          c := Some(vlans'[k]);
          InnerIndexFirst(vlans', vlans'[0], k);
          break;
        }
        k := k + 1;
      }
      if c.None? {
        InnerIndexNone(vlans', vlans'[0]);
        return Tags(Some(vlans'[0]), None), vlans';
      }
      return Tags(c, Some(vlans'[0])), vlans';
    } else if |vlans| == 1 {
      return Tags(Some(vlans[0]), None), vlans';
    }
    return Tags(None, None), vlans';
  }

  lemma InnerIndexFirst(l: seq<nat>, outer: nat, k: nat)
    requires k < |l| && l[k] != outer && l[k] > 0
    requires forall j :: 0 <= j < k ==> l[j] == outer || l[j] == 0
    ensures InnerIndex(l, outer) == Some(k)
  {
  }

  lemma InnerIndexNone(l: seq<nat>, outer: nat)
    requires forall j :: 0 <= j < |l| ==> l[j] == outer || l[j] == 0
    ensures InnerIndex(l, outer).None?
  {
  }

  /**
   * The cases of the split: no VLAN gives no tags; one VLAN is the C tag alone; otherwise the S
   * tag is the first entry of the ordered list and the C tag the next positive entry that
   * differs from it, or, when there is none, the first entry is the C tag alone.
   */
  lemma TagCases(vlans: seq<nat>, upstream: bool)
    ensures |vlans| == 0 <==> TagsOf(vlans, upstream).cTag.None?
    ensures |vlans| == 0 ==> TagsOf(vlans, upstream) == Tags(None, None)
    ensures |vlans| == 1 ==> TagsOf(vlans, upstream) == Tags(Some(vlans[0]), None)
    ensures |vlans| > 1 && upstream ==> TagsOf(vlans, upstream).cTag.value in vlans
    ensures |vlans| > 1 ==>
      var l := Ordered(vlans, upstream);
      var t := TagsOf(vlans, upstream);
      && (t.sTag.Some? ==>
            && t.sTag == Some(l[0]) && t.cTag.value != l[0] && t.cTag.value > 0
            && exists k :: 0 < k < |l| && l[k] == t.cTag.value && forall j :: 0 < j < k ==> l[j] == l[0] || l[j] == 0)
      && (t.sTag.None? ==>
            && t.cTag == Some(l[0])
            && forall j :: 0 < j < |l| ==> l[j] == l[0] || l[j] == 0)
  {
    if |vlans| > 1 {
      var l := Ordered(vlans, upstream);
      match InnerIndex(l, l[0])
      case None =>
      case Some(k) =>
        assert k > 0;
      if upstream {
        var c := TagsOf(vlans, upstream).cTag.value;
        var i :| 0 <= i < |l| && l[i] == c;
        assert vlans[|vlans| - 1 - i] == c;
      }
    }
  }

  /**
   * A service record appended several times is one dictionary: an upstream record that passes
   * the split twice is reversed twice and reads its tags from the original order again.
   */
  lemma SecondPassRestores(vlans: seq<nat>)
    requires |vlans| > 1
    ensures Ordered(Ordered(vlans, true), true) == vlans
    ensures TagsOf(Ordered(vlans, true), true) == TagsOf(vlans, false)
  {
    ReverseTwice(vlans);
  }
}
