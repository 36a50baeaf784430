/**
 * The OLT device's identifier allocators: GEM ports per PON interface (`net_gemports`), ONU ids
 * per interface and VoIP extensions (both kept in the subscriber table `onus`).
 */
module Allocators {
  import opened Wrappers
  import opened Dicts
  import Sorting

  // ---------------------------------------------------------------- shared scans

  /** The sequence without its first occurrence of `x` (`list.remove`, when `x` is present). */
  function RemoveValue(s: seq<nat>, x: nat): (r: seq<nat>)
    ensures x in s ==> |r| == |s| - 1 && multiset(r) == multiset(s) - multiset{x}
    ensures x !in s ==> r == s
    ensures forall y :: y in r ==> y in s
  {
    if |s| == 0 then []
    else if s[0] == x then
      assert s == [s[0]] + s[1..];
      s[1..]
    else
      assert s == [s[0]] + s[1..];
      [s[0]] + RemoveValue(s[1..], x)
  }

  /** The lowest id of `range(lo, hi)` that `held` does not contain. */
  function LowestFree(held: seq<nat>, lo: nat, hi: nat): (r: Option<nat>)
    decreases hi - lo
    ensures r.Some? ==> lo <= r.value < hi && r.value !in held
    ensures r.Some? ==> forall g :: lo <= g < r.value ==> g in held
    ensures r.None? ==> forall g :: lo <= g < hi ==> g in held
  {
    if lo >= hi then None
    else if lo !in held then Some(lo)
    else LowestFree(held, lo + 1, hi)
  }

  /** `for g in range(lo, hi): if g not in held: return g`. */
  method FirstFree(held: seq<nat>, lo: nat, hi: nat) returns (r: Option<nat>)
    ensures r == LowestFree(held, lo, hi)
  {
    var g := lo;
    while g < hi
      invariant lo <= g
      invariant LowestFree(held, g, hi) == LowestFree(held, lo, hi)
      decreases hi - g
    {
      if g !in held {
        return Some(g);
      }
      g := g + 1;
    }
    return None;
  }

  /**
   * The counter of a loop over an ascending list that stops at the first element larger than the
   * counter and otherwise counts one up: the `get_onu_id` and `generate_voipExtension` scans.
   */
  function FirstGap(s: seq<int>, i: int): (r: int)
    ensures r >= i
  {
    if |s| == 0 then i
    else if s[0] > i then i
    else FirstGap(s[1..], i + 1)
  }

  /** The scan itself. */
  method GapScan(s: seq<int>, start: int) returns (r: int)
    ensures r == FirstGap(s, start)
  {
    r := start;
    var k := 0;
    while k < |s|
      invariant 0 <= k <= |s|
      invariant FirstGap(s[k..], r) == FirstGap(s, start)
    {
      if s[k] > r {
        return;
      }
      assert s[k..][1..] == s[k + 1..];
      r := r + 1;
      k := k + 1;
    }
  }

  predicate AllAtLeast(s: seq<int>, i: int)
  {
    forall k :: 0 <= k < |s| ==> s[k] >= i
  }

  /** On an ascending list the scan never stops on a value the list contains. */
  lemma {:induction false} FirstGapUnused(s: seq<int>, i: int)
    requires Sorting.SortedAsc(s)
    ensures FirstGap(s, i) !in s
    ensures forall k :: 0 <= k < |s| && s[k] > FirstGap(s, i) ==> forall m :: k <= m < |s| ==> s[m] > FirstGap(s, i)
  {
    if |s| == 0 {
    } else if s[0] > i {
      assert forall k :: 0 <= k < |s| ==> s[k] >= s[0];
    } else {
      FirstGapUnused(s[1..], i + 1);
      var r := FirstGap(s, i);
      assert r == FirstGap(s[1..], i + 1) >= i + 1 > s[0];
      assert s == [s[0]] + s[1..];
    }
  }

  /**
   * On an ascending list without repeats whose values are all at least `i`, the scan returns the
   * least value from `i` upwards that the list does not contain.
   */
  lemma {:induction false} FirstGapLowest(s: seq<int>, i: int)
    requires Sorting.SortedAsc(s) && Distinct(s) && AllAtLeast(s, i)
    ensures FirstGap(s, i) !in s
    ensures forall x :: i <= x < FirstGap(s, i) ==> x in s
  {
    FirstGapUnused(s, i);
    if |s| == 0 || s[0] > i {
    } else {
      assert s[0] == i;
      assert AllAtLeast(s[1..], i + 1) by {
        forall k | 0 <= k < |s[1..]|
          ensures s[1..][k] >= i + 1
        {
          assert s[1..][k] == s[k + 1] >= s[0];
          assert s[k + 1] != s[0];
        }
      }
      assert Distinct(s[1..]) by {
        forall a, b | 0 <= a < b < |s[1..]|
          ensures s[1..][a] != s[1..][b]
        {
          assert s[1..][a] == s[a + 1] && s[1..][b] == s[b + 1];
        }
      }
      FirstGapLowest(s[1..], i + 1);
      assert forall x :: x in s[1..] ==> x in s;
    }
  }

  /** A list without repeats keeps none once sorted. */
  lemma SortDistinct(s: seq<int>)
    requires Distinct(s)
    ensures Distinct(Sorting.Sort(s))
  {
    var t := Sorting.Sort(s);
    CountAtMostOne(s);
    forall a, b | 0 <= a < b < |t|
      ensures t[a] != t[b]
    {
      if t[a] == t[b] {
        TwoCopies(t, a, b);
      }
    }
  }

  lemma TwoCopies(t: seq<int>, a: nat, b: nat)
    requires a < b < |t| && t[a] == t[b]
    ensures multiset(t)[t[a]] >= 2
  {
    assert t == t[..b] + t[b..];
    assert t[a] in t[..b] && t[b] in t[b..];
    assert multiset(t) == multiset(t[..b]) + multiset(t[b..]);
  }

  lemma {:induction false} CountAtMostOne(s: seq<int>)
    requires Distinct(s)
    ensures forall x :: multiset(s)[x] <= 1
  {
    if |s| > 0 {
      assert s == [s[0]] + s[1..];
      assert Distinct(s[1..]) by {
        forall a, b | 0 <= a < b < |s[1..]|
          ensures s[1..][a] != s[1..][b]
        {
          assert s[1..][a] == s[a + 1] && s[1..][b] == s[b + 1];
        }
      }
      CountAtMostOne(s[1..]);
      assert s[0] !in s[1..];
      assert multiset(s) == multiset{s[0]} + multiset(s[1..]);
    }
  }

  // ---------------------------------------------------------------- GEM ports

  /**
   * `net_gemports`: the GEM ports held per PON interface. Multicast GEM ports are kept under
   * interface 0, in the same list as the unicast ports of PON interface 0.
   */
  class GemportPools {
    const gemportIdStart: nat
    const allocIdEnd: nat
    const gemportIdEnd: nat
    const gemportIdMcStart: nat
    var pools: map<nat, seq<nat>>

    /** No interface holds a GEM port twice. */
    ghost predicate Valid()
      reads this
    {
      forall intf :: intf in pools ==> Distinct(pools[intf])
    }

    constructor (gemportIdStart: nat, allocIdEnd: nat, gemportIdEnd: nat)
      ensures Valid() && pools == map[]
      ensures this.gemportIdStart == gemportIdStart && this.allocIdEnd == allocIdEnd
      ensures this.gemportIdEnd == gemportIdEnd && gemportIdMcStart == 4094
    {
      this.gemportIdStart := gemportIdStart;
      this.allocIdEnd := allocIdEnd;
      this.gemportIdEnd := gemportIdEnd;
      gemportIdMcStart := 4094;
      pools := map[];
    }

    /** The first allocation on an interface, or the lowest free id of the range, recorded. */
    method Allocate(intf: nat, lo: nat, hi: nat) returns (r: Option<nat>)
      requires Valid()
      modifies this
      ensures Valid()
      ensures intf !in old(pools) ==> r == Some(lo) && pools == old(pools)[intf := [lo]]
      ensures intf in old(pools) ==> r == LowestFree(old(pools)[intf], lo, hi)
      ensures intf in old(pools) && r.Some? ==> pools == old(pools)[intf := old(pools)[intf] + [r.value]]
      ensures intf in old(pools) && r.None? ==> pools == old(pools)
    {
      if intf !in pools {
        pools := pools[intf := [lo]];
        return Some(lo);
      }
      r := FirstFree(pools[intf], lo, hi);
      if r.Some? {
        AppendFresh(pools[intf], r.value);
        pools := pools[intf := pools[intf] + [r.value]];
      }
    }

    /** `get_gemport_unicast(intf_id)`: the scan stops at `alloc_id_end`, not `gemport_id_end`. */
    method GetGemportUnicast(intf: nat) returns (r: Option<nat>)
      requires Valid()
      modifies this
      ensures Valid()
      ensures intf !in old(pools) ==> r == Some(gemportIdStart) && pools == old(pools)[intf := [gemportIdStart]]
      ensures intf in old(pools) ==> r == LowestFree(old(pools)[intf], gemportIdStart, allocIdEnd)
      ensures intf in old(pools) && r.Some? ==> pools == old(pools)[intf := old(pools)[intf] + [r.value]]
      ensures intf in old(pools) && r.None? ==> pools == old(pools)
    {
      r := Allocate(intf, gemportIdStart, allocIdEnd);
    }

    /** `get_gemport_multicast()`: the pool of interface 0, from 4094 up to `gemport_id_end`. */
    method GetGemportMulticast() returns (r: Option<nat>)
      requires Valid()
      modifies this
      ensures Valid()
      ensures 0 !in old(pools) ==> r == Some(gemportIdMcStart) && pools == old(pools)[0 := [gemportIdMcStart]]
      ensures 0 in old(pools) ==> r == LowestFree(old(pools)[0], gemportIdMcStart, gemportIdEnd)
      ensures 0 in old(pools) && r.Some? ==> pools == old(pools)[0 := old(pools)[0] + [r.value]]
      ensures 0 in old(pools) && r.None? ==> pools == old(pools)
    {
      r := Allocate(0, gemportIdMcStart, gemportIdEnd);
    }

    /** `free_gemport(gemport_id, intf_id)`: removes the id if the interface holds it. */
    method FreeGemport(g: nat, intf: nat)
      requires Valid()
      modifies this
      ensures Valid()
      ensures intf !in old(pools) || g !in old(pools)[intf] ==> pools == old(pools)
      ensures intf in old(pools) && g in old(pools)[intf] ==>
        pools == old(pools)[intf := RemoveValue(old(pools)[intf], g)]
    {
      if intf !in pools {
        return;
      }
      if g !in pools[intf] {
        return;
      }
      RemoveKeepsDistinct(pools[intf], g);
      pools := pools[intf := RemoveValue(pools[intf], g)];
    }
  }

  lemma AppendFresh(s: seq<nat>, x: nat)
    requires Distinct(s) && x !in s
    ensures Distinct(s + [x])
  {
  }

  /** Removing from a list without repeats leaves one without repeats, and without the value. */
  lemma {:induction false} RemoveKeepsDistinct(s: seq<nat>, x: nat)
    requires Distinct(s)
    ensures Distinct(RemoveValue(s, x)) && x !in RemoveValue(s, x)
  {
    if |s| > 0 {
      assert Distinct(s[1..]) by {
        forall a, b | 0 <= a < b < |s[1..]|
          ensures s[1..][a] != s[1..][b]
        {
          assert s[1..][a] == s[a + 1] && s[1..][b] == s[b + 1];
        }
      }
      if s[0] != x {
        RemoveKeepsDistinct(s[1..], x);
        var t := RemoveValue(s[1..], x);
        assert s[0] !in s[1..];
        assert s[0] !in t;
        assert RemoveValue(s, x) == [s[0]] + t;
      } else {
        assert s[0] !in s[1..];
      }
    }
  }

  /** Freeing the id that was just allocated restores the interface's list. */
  lemma FreeUndoesAllocate(s: seq<nat>, g: nat)
    requires g !in s
    ensures RemoveValue(s + [g], g) == s
  {
    if |s| > 0 {
      assert (s + [g])[1..] == s[1..] + [g];
      FreeUndoesAllocate(s[1..], g);
      assert s == [s[0]] + s[1..];
    }
  }

  // ---------------------------------------------------------------- subscribers

  /** A POTS line's SIP account. */
  datatype VoipBlock = VoipBlock(extension: int, password: string)

  /**
   * A key of an ONU's POTS dictionary. This process writes the UNI id as an integer; a table
   * read back from the JSON file has it as the decimal string.
   */
  datatype PotsKey = IntKey(n: nat) | TextKey(n: nat)

  /** One entry of `onus`: serial number to `[intf_id, onu_id]`, plus the POTS dictionary once set. */
  datatype Onu = Onu(serial: string, intfId: nat, onuId: nat, lines: Option<Dict<PotsKey, VoipBlock>>)

  function SerialIndex(onus: seq<Onu>, sn: string): (r: Option<nat>)
    ensures r.Some? ==> r.value < |onus| && onus[r.value].serial == sn
    ensures r.Some? ==> forall k :: 0 <= k < r.value ==> onus[k].serial != sn
    ensures r.None? ==> forall k :: 0 <= k < |onus| ==> onus[k].serial != sn
  {
    if |onus| == 0 then None
    else if onus[0].serial == sn then Some(0)
    else match SerialIndex(onus[1..], sn)
      case None => None
      case Some(k) => Some(k + 1)
  }

  /** The ONU ids in use on one interface, in table order. */
  function IdsOn(onus: seq<Onu>, intf: nat): (r: seq<int>)
    ensures forall x :: x in r <==> exists k :: 0 <= k < |onus| && onus[k].intfId == intf && onus[k].onuId == x
  {
    if |onus| == 0 then []
    else
      var rest := IdsOn(onus[1..], intf);
      assert forall k :: 0 <= k < |onus[1..]| ==> onus[1..][k] == onus[k + 1];
      if onus[0].intfId == intf then [onus[0].onuId as int] + rest else rest
  }

  /** `get_onu_sn(intf_id, onu_id)`: the first serial with that interface and id, or "". */
  function OnuSerial(onus: seq<Onu>, intf: nat, onuId: nat): (sn: string)
    ensures sn != "" ==> exists k :: 0 <= k < |onus| && onus[k].serial == sn && onus[k].intfId == intf && onus[k].onuId == onuId
  {
    if |onus| == 0 then ""
    else if onus[0].intfId == intf && onus[0].onuId == onuId then onus[0].serial
    else
      var sn := OnuSerial(onus[1..], intf, onuId);
      assert sn != "" ==> exists k :: 0 <= k < |onus[1..]| && onus[1..][k].serial == sn
                                  && onus[1..][k].intfId == intf && onus[1..][k].onuId == onuId;
      sn
  }

  /** The ONU id `get_onu_id` settles on. */
  function OnuIdFor(onus: seq<Onu>, intf: nat, sn: string): nat
  {
    match SerialIndex(onus, sn)
    case Some(k) => onus[k].onuId
    case None => FirstGap(Sorting.Sort(IdsOn(onus, intf)), 1) as nat
  }

  /** ONU ids are positive and unique per interface. */
  ghost predicate IdsOk(onus: seq<Onu>)
  {
    && (forall k :: 0 <= k < |onus| ==> onus[k].onuId >= 1)
    && (forall a, b :: 0 <= a < b < |onus| && onus[a].intfId == onus[b].intfId ==> onus[a].onuId != onus[b].onuId)
  }

  /** Serial numbers are dictionary keys: no two entries share one. */
  ghost predicate SerialsDistinct(onus: seq<Onu>)
  {
    forall a, b :: 0 <= a < b < |onus| ==> onus[a].serial != onus[b].serial
  }

  /** The extensions of one POTS dictionary, in its order. */
  function LineExtensions(d: Dict<PotsKey, VoipBlock>, keys: seq<PotsKey>): seq<int>
  {
    if |keys| == 0 then []
    else
      var last := keys[|keys| - 1];
      LineExtensions(d, keys[..|keys| - 1]) + (if last in d.m then [d.m[last].extension] else [])
  }

  function OnuExtensions(o: Onu): seq<int>
  {
    match o.lines
    case None => []
    case Some(d) => LineExtensions(d, d.order)
  }

  /** `get_configured_voipExtensions()`. */
  function ConfiguredExtensions(onus: seq<Onu>): seq<int>
  {
    if |onus| == 0 then []
    else ConfiguredExtensions(onus[..|onus| - 1]) + OnuExtensions(onus[|onus| - 1])
  }

  /** What `generate_voipExtension` reports. */
  datatype ExtResult = Assigned(block: VoipBlock) | Exhausted | KeyError

  /** `generate_voipExtension`: the result and the table afterwards. */
  function Generated(onus: seq<Onu>, start: int, end: int, intf: nat, onuId: nat, pots: nat, password: string)
    : (ExtResult, seq<Onu>)
  {
    var ext := FirstGap(Sorting.Sort(ConfiguredExtensions(onus)), start);
    if ext > end then (Exhausted, onus)
    else
      match SerialIndex(onus, OnuSerial(onus, intf, onuId))
      case None => (KeyError, onus)
      case Some(k) =>
        var block := VoipBlock(ext, password);
        var lines := match onus[k].lines
          case None => Dict(map[IntKey(pots) := block], [IntKey(pots)])
          case Some(d) => if IntKey(pots) in d.m then Dict(d.m[IntKey(pots) := block], d.order)
                          else Dict(d.m[IntKey(pots) := block], d.order + [IntKey(pots)]);
        (Assigned(block), onus[k := onus[k].(lines := Some(lines))])
  }

  /** The first entry with that interface and ONU id. */
  function OnuIndex(onus: seq<Onu>, intf: nat, onuId: nat): (r: Option<nat>)
    ensures r.Some? ==> r.value < |onus| && onus[r.value].intfId == intf && onus[r.value].onuId == onuId
    ensures r.Some? ==> forall k :: 0 <= k < r.value ==> !(onus[k].intfId == intf && onus[k].onuId == onuId)
    ensures r.None? ==> forall k :: 0 <= k < |onus| ==> !(onus[k].intfId == intf && onus[k].onuId == onuId)
  {
    if |onus| == 0 then None
    else if onus[0].intfId == intf && onus[0].onuId == onuId then Some(0)
    else match OnuIndex(onus[1..], intf, onuId)
      case None => None
      case Some(k) => Some(k + 1)
  }

  /**
   * The stored line `get_voipExtension` finds: the first entry with the ONU, looked up under the
   * key `str(pots_id)`. A key this process wrote is an integer and is not found.
   */
  function StoredLineAsWritten(onus: seq<Onu>, intf: nat, onuId: nat, pots: nat): Option<VoipBlock>
  {
    match OnuIndex(onus, intf, onuId)
    case None => None
    case Some(k) =>
      match onus[k].lines
      case None => None
      case Some(d) => if TextKey(pots) in d.m then Some(d.m[TextKey(pots)]) else None
  }

  /** The lookup with either spelling of the key: a line written in this process is found too. */
  function StoredLine(onus: seq<Onu>, intf: nat, onuId: nat, pots: nat): Option<VoipBlock>
  {
    match OnuIndex(onus, intf, onuId)
    case None => None
    case Some(k) =>
      match onus[k].lines
      case None => None
      case Some(d) =>
        if IntKey(pots) in d.m then Some(d.m[IntKey(pots)])
        else if TextKey(pots) in d.m then Some(d.m[TextKey(pots)])
        else None
  }

  /** The subscriber table: the device's `onus` dictionary, keyed by serial number in insertion order. */
  class Subscribers {
    const voipExtensionsStart: int
    const voipExtensionsEnd: int
    var onus: seq<Onu>

    ghost predicate Valid()
      reads this
    {
      SerialsDistinct(onus) && IdsOk(onus)
    }

    constructor (voipExtensionsStart: int, voipExtensionsEnd: int, onus: seq<Onu>)
      ensures this.voipExtensionsStart == voipExtensionsStart && this.voipExtensionsEnd == voipExtensionsEnd
      ensures this.onus == onus
    {
      this.voipExtensionsStart := voipExtensionsStart;
      this.voipExtensionsEnd := voipExtensionsEnd;
      this.onus := onus;
    }

    /**
     * `get_onu_id(intf_id, onu_sn)`: a known serial keeps its id; a new one is recorded with the
     * id the scan over the interface's ids, ascending, settles on.
     */
    method GetOnuId(intf: nat, sn: string) returns (id: nat)
      requires Valid()
      modifies this
      ensures Valid()
      ensures id == OnuIdFor(old(onus), intf, sn)
      ensures SerialIndex(old(onus), sn).Some? ==> onus == old(onus)
      ensures SerialIndex(old(onus), sn).None? ==> onus == old(onus) + [Onu(sn, intf, id, None)]
    {
      var k := SerialIndex(onus, sn);
      if k.Some? {
        return onus[k.value].onuId;
      }
      var ids := Sorting.Sort(IdsOn(onus, intf));
      var i := GapScan(ids, 1);
      id := i as nat;
      NewIdFresh(onus, intf);
      ghost var before := onus;
      onus := onus + [Onu(sn, intf, id, None)];
      NewOnuKeepsValid(before, intf, sn, id);
    }

    /** `get_onu_sn(intf_id, onu_id)`. */
    method GetOnuSn(intf: nat, onuId: nat) returns (sn: string)
      ensures sn == OnuSerial(onus, intf, onuId)
    {
      var k := 0;
      while k < |onus|
        invariant 0 <= k <= |onus|
        invariant OnuSerial(onus[k..], intf, onuId) == OnuSerial(onus, intf, onuId)
      {
        if onus[k].intfId == intf && onus[k].onuId == onuId {
          return onus[k].serial;
        }
        assert onus[k..][1..] == onus[k + 1..];
        k := k + 1;
      }
      return "";
    }

    /** `get_configured_voipExtensions()`: every stored extension, table order, then line order. */
    method GetConfiguredExtensions() returns (exts: seq<int>)
      ensures exts == ConfiguredExtensions(onus)
    {
      exts := [];
      var k := 0;
      while k < |onus|
        invariant 0 <= k <= |onus|
        invariant exts == ConfiguredExtensions(onus[..k])
      {
        assert onus[..k + 1][..k] == onus[..k];
        var o := onus[k];
        if o.lines.Some? {
          var d := o.lines.value;
          ghost var base := exts;
          var j := 0;
          while j < |d.order|
            invariant 0 <= j <= |d.order|
            invariant exts == base + LineExtensions(d, d.order[..j])
          {
            assert d.order[..j + 1][..j] == d.order[..j];
            if d.order[j] in d.m {
              exts := exts + [d.m[d.order[j]].extension];
            }
            j := j + 1;
          }
          assert d.order[..j] == d.order;
        }
        k := k + 1;
      }
      assert onus[..k] == onus;
    }

    /** `generate_voipExtension(intf_id, onu_id, pots_id)`, the random password given. */
    method GenerateVoipExtension(intf: nat, onuId: nat, pots: nat, password: string) returns (r: ExtResult)
      modifies this
      ensures (r, onus) == Generated(old(onus), voipExtensionsStart, voipExtensionsEnd, intf, onuId, pots, password)
    {
      var sn := GetOnuSn(intf, onuId);
      var configured := GetConfiguredExtensions();
      var ext := GapScan(Sorting.Sort(configured), voipExtensionsStart);
      if ext > voipExtensionsEnd {
        return Exhausted;
      }
      var k := SerialIndex(onus, sn);
      if k.None? {
        return KeyError;
      }
      var block := VoipBlock(ext, password);
      var o := onus[k.value];
      if o.lines.None? {
        onus := onus[k.value := o.(lines := Some(Dict(map[IntKey(pots) := block], [IntKey(pots)])))];
      } else {
        var d := o.lines.value;
        var d' := if IntKey(pots) in d.m then Dict(d.m[IntKey(pots) := block], d.order)
                  else Dict(d.m[IntKey(pots) := block], d.order + [IntKey(pots)]);
        onus := onus[k.value := o.(lines := Some(d'))];
      }
      r := Assigned(block);
    }

    /** `get_voipExtension` as written: the stored line under `str(pots_id)`, else a new one. */
    method GetVoipExtensionAsWritten(intf: nat, onuId: nat, pots: nat, password: string) returns (r: ExtResult)
      modifies this
      ensures StoredLineAsWritten(old(onus), intf, onuId, pots).Some? ==>
        r == Assigned(StoredLineAsWritten(old(onus), intf, onuId, pots).value) && onus == old(onus)
      ensures StoredLineAsWritten(old(onus), intf, onuId, pots).None? ==>
        (r, onus) == Generated(old(onus), voipExtensionsStart, voipExtensionsEnd, intf, onuId, pots, password)
    {
      var k := FindOnu(onus, intf, onuId);
      if k.Some? {
        var o := onus[k.value];
        if o.lines.Some? && TextKey(pots) in o.lines.value.m {
          return Assigned(o.lines.value.m[TextKey(pots)]);
        }
      }
      r := GenerateVoipExtension(intf, onuId, pots, password);
    }

    /** `get_voipExtension` with the key looked up in either spelling. */
    method GetVoipExtension(intf: nat, onuId: nat, pots: nat, password: string) returns (r: ExtResult)
      modifies this
      ensures StoredLine(old(onus), intf, onuId, pots).Some? ==>
        r == Assigned(StoredLine(old(onus), intf, onuId, pots).value) && onus == old(onus)
      ensures StoredLine(old(onus), intf, onuId, pots).None? ==>
        (r, onus) == Generated(old(onus), voipExtensionsStart, voipExtensionsEnd, intf, onuId, pots, password)
    {
      var k := FindOnu(onus, intf, onuId);
      if k.Some? {
        var o := onus[k.value];
        if o.lines.Some? {
          var d := o.lines.value;
          if IntKey(pots) in d.m {
            return Assigned(d.m[IntKey(pots)]);
          }
          if TextKey(pots) in d.m {
            return Assigned(d.m[TextKey(pots)]);
          }
        }
      }
      r := GenerateVoipExtension(intf, onuId, pots, password);
    }
  }

  /** The loop of `get_voipExtension` over the table: the first entry of the ONU. */
  method FindOnu(onus: seq<Onu>, intf: nat, onuId: nat) returns (r: Option<nat>)
    ensures r == OnuIndex(onus, intf, onuId)
  {
    var k := 0;
    while k < |onus|
      invariant 0 <= k <= |onus|
      invariant forall j :: 0 <= j < k ==> !(onus[j].intfId == intf && onus[j].onuId == onuId)
    {
      if onus[k].intfId == intf && onus[k].onuId == onuId {
        OnuIndexFirst(onus, intf, onuId, k);
        return Some(k);
      }
      k := k + 1;
    }
    OnuIndexNone(onus, intf, onuId);
    return None;
  }

  lemma {:induction false} OnuIndexFirst(onus: seq<Onu>, intf: nat, onuId: nat, k: nat)
    requires k < |onus| && onus[k].intfId == intf && onus[k].onuId == onuId
    requires forall j :: 0 <= j < k ==> !(onus[j].intfId == intf && onus[j].onuId == onuId)
    ensures OnuIndex(onus, intf, onuId) == Some(k)
  {
  }

  lemma OnuIndexNone(onus: seq<Onu>, intf: nat, onuId: nat)
    requires forall j :: 0 <= j < |onus| ==> !(onus[j].intfId == intf && onus[j].onuId == onuId)
    ensures OnuIndex(onus, intf, onuId).None?
  {
  }

  // ---------------------------------------------------------------- properties

  /**
   * A new serial on a table whose ids are positive and unique per interface gets the least
   * positive id its interface does not use.
   */
  lemma NewIdFresh(onus: seq<Onu>, intf: nat)
    requires IdsOk(onus)
    ensures var id := FirstGap(Sorting.Sort(IdsOn(onus, intf)), 1);
      && id >= 1
      && id !in IdsOn(onus, intf)
      && (forall x :: 1 <= x < id ==> x in IdsOn(onus, intf))
  {
    var ids := IdsOn(onus, intf);
    IdsOnDistinct(onus, intf);
    IdsOnPositive(onus, intf);
    SortedSame(ids, 1);
  }

  /** Sorting keeps the values, leaves no repeats and keeps a lower bound, so the scan is the same. */
  lemma SortedSame(ids: seq<int>, lo: int)
    requires Distinct(ids) && AllAtLeast(ids, lo)
    ensures var id := FirstGap(Sorting.Sort(ids), lo);
      id !in ids && forall x :: lo <= x < id ==> x in ids
  {
    SortDistinct(ids);
    var t := Sorting.Sort(ids);
    forall x ensures x in t <==> x in ids {
      Sorting.SortMembers(ids, x);
    }
    assert AllAtLeast(t, lo) by {
      forall k | 0 <= k < |t|
        ensures t[k] >= lo
      {
        assert t[k] in ids;
      }
    }
    FirstGapLowest(t, lo);
  }

  lemma IdsOnPositive(onus: seq<Onu>, intf: nat)
    requires forall k :: 0 <= k < |onus| ==> onus[k].onuId >= 1
    ensures AllAtLeast(IdsOn(onus, intf), 1)
  {
    var ids := IdsOn(onus, intf);
    forall k | 0 <= k < |ids|
      ensures ids[k] >= 1
    {
      assert ids[k] in ids;
    }
  }

  lemma IdsOnDistinct(onus: seq<Onu>, intf: nat)
    requires IdsOk(onus)
    ensures Distinct(IdsOn(onus, intf))
  {
    if |onus| > 0 {
      assert IdsOk(onus[1..]) by {
        assert forall k :: 0 <= k < |onus[1..]| ==> onus[1..][k] == onus[k + 1];
      }
      IdsOnDistinct(onus[1..], intf);
      if onus[0].intfId == intf {
        var rest := IdsOn(onus[1..], intf);
        assert onus[0].onuId as int !in rest by {
          forall k | 0 <= k < |onus[1..]| && onus[1..][k].intfId == intf
            ensures onus[1..][k].onuId != onus[0].onuId
          {
            assert onus[1..][k] == onus[k + 1];
          }
        }
      }
    }
  }

  lemma NewOnuKeepsValid(onus: seq<Onu>, intf: nat, sn: string, id: nat)
    requires SerialsDistinct(onus) && IdsOk(onus)
    requires SerialIndex(onus, sn).None?
    requires id >= 1
    requires forall k :: 0 <= k < |onus| && onus[k].intfId == intf ==> onus[k].onuId != id
    ensures var o := onus + [Onu(sn, intf, id, None)]; SerialsDistinct(o) && IdsOk(o)
  {
    var o := onus + [Onu(sn, intf, id, None)];
    assert forall k :: 0 <= k < |onus| ==> o[k] == onus[k];
  }

  /**
   * When every stored extension is at least the start and none repeats, the generated extension
   * is the least one from the start upwards that is not stored.
   */
  lemma GeneratedLowest(onus: seq<Onu>, start: int, end: int, intf: nat, onuId: nat, pots: nat, password: string)
    requires Distinct(ConfiguredExtensions(onus)) && AllAtLeast(ConfiguredExtensions(onus), start)
    ensures var (r, _) := Generated(onus, start, end, intf, onuId, pots, password);
      r.Assigned? ==>
        && start <= r.block.extension <= end
        && r.block.extension !in ConfiguredExtensions(onus)
        && forall x :: start <= x < r.block.extension ==> x in ConfiguredExtensions(onus)
  {
    SortedSame(ConfiguredExtensions(onus), start);
  }

  /**
   * The lookup as written misses a line this process stored: right after an extension was
   * assigned to a UNI, asking again for that UNI assigns another one.
   */
  lemma AsWrittenReassigns()
    ensures var onus := [Onu("ALCL0001", 0, 1, None)];
      var (r1, onus1) := Generated(onus, 1111, 9999, 0, 1, 1, "ab12");
      && r1 == Assigned(VoipBlock(1111, "ab12"))
      && StoredLineAsWritten(onus1, 0, 1, 1).None?
      && Generated(onus1, 1111, 9999, 0, 1, 1, "cd34").0 == Assigned(VoipBlock(1112, "cd34"))
  {
    var onus := [Onu("ALCL0001", 0, 1, None)];
    assert ConfiguredExtensions(onus) == [] by {
      assert onus[..0] == [];
    }
    var (r1, onus1) := Generated(onus, 1111, 9999, 0, 1, 1, "ab12");
    assert OnuSerial(onus, 0, 1) == "ALCL0001";
    assert SerialIndex(onus, "ALCL0001") == Some(0);
    var d := Dict(map[IntKey(1) := VoipBlock(1111, "ab12")], [IntKey(1)]);
    assert onus1 == [Onu("ALCL0001", 0, 1, Some(d))];
    assert OnuIndex(onus1, 0, 1) == Some(0);
    assert LineExtensions(d, d.order) == [1111] by {
      assert d.order[..0] == [];
    }
    assert ConfiguredExtensions(onus1) == [1111] by {
      assert onus1[..0] == [];
    }
    assert Sorting.Sort([1111]) == [1111] by {
      assert [1111][1..] == [];
    }
    assert FirstGap([1111], 1111) == 1112 by {
      assert [1111][1..] == [];
    }
    assert OnuSerial(onus1, 0, 1) == "ALCL0001";
    assert SerialIndex(onus1, "ALCL0001") == Some(0);
  }

  /** With the key found in either spelling, a UNI that was given an extension keeps it. */
  lemma GeneratedIsStored(onus: seq<Onu>, start: int, end: int, intf: nat, onuId: nat, pots: nat, password: string)
    requires SerialsDistinct(onus)
    requires forall k :: 0 <= k < |onus| ==> onus[k].serial != ""
    ensures var (r, onus') := Generated(onus, start, end, intf, onuId, pots, password);
      r.Assigned? ==> StoredLine(onus', intf, onuId, pots) == Some(r.block)
  {
    var (r, onus') := Generated(onus, start, end, intf, onuId, pots, password);
    if r.Assigned? {
      OnuSerialIsFirst(onus, intf, onuId);
      var sn := OnuSerial(onus, intf, onuId);
      var j := SerialIndex(onus, sn).value;
      var i := OnuIndex(onus, intf, onuId).value;
      SerialIndexOf(onus, i);
      assert j == i;
      OnuIndexAfterUpdate(onus, intf, onuId, j, onus'[j]);
      assert onus' == onus[j := onus'[j]];
    }
  }

  /** `get_onu_sn` returns the serial of the first entry of the ONU, or "" when there is none. */
  lemma {:induction false} OnuSerialIsFirst(onus: seq<Onu>, intf: nat, onuId: nat)
    ensures OnuIndex(onus, intf, onuId).None? ==> OnuSerial(onus, intf, onuId) == ""
    ensures OnuIndex(onus, intf, onuId).Some? ==>
      OnuSerial(onus, intf, onuId) == onus[OnuIndex(onus, intf, onuId).value].serial
  {
    if |onus| > 0 && !(onus[0].intfId == intf && onus[0].onuId == onuId) {
      OnuSerialIsFirst(onus[1..], intf, onuId);
    }
  }

  lemma SerialIndexOf(onus: seq<Onu>, i: nat)
    requires SerialsDistinct(onus) && i < |onus|
    ensures SerialIndex(onus, onus[i].serial) == Some(i)
  {
    var r := SerialIndex(onus, onus[i].serial);
    assert r.Some?;
  }

  lemma OnuIndexAfterUpdate(onus: seq<Onu>, intf: nat, onuId: nat, j: nat, o: Onu)
    requires j < |onus| && o.intfId == onus[j].intfId && o.onuId == onus[j].onuId
    ensures OnuIndex(onus[j := o], intf, onuId) == OnuIndex(onus, intf, onuId)
  {
    assert forall k :: 0 <= k < |onus| ==> onus[j := o][k].intfId == onus[k].intfId && onus[j := o][k].onuId == onus[k].onuId;
  }
}
