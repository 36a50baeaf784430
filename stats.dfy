/**
 * The statistics lists of the switch: `ListOfFlowStats`, `ListOfMeterStats` and
 * `ListOfGroupStats`. Each is a list of entries keyed by an id (cookie, meter id, group id) plus a
 * dictionary of start times; the hardware counter reports add to an entry and set its lifetime.
 */
module Stats {
  import opened Wrappers
  import FlowDecode

  /** How a list operation ends: normally, with a `KeyError`, or with a `ZeroDivisionError`. */
  datatype Outcome = Done | KeyError | ZeroDivision

  // ---------------------------------------------------------------- keyed search

  /** The first index whose key is `k`: what `for obj in self.copy(): if obj.key == k` finds. */
  function FindIndex<T>(s: seq<T>, key: T -> nat, k: nat): (r: Option<nat>)
    ensures r.Some? ==> r.value < |s| && key(s[r.value]) == k
    ensures r.Some? ==> forall j :: 0 <= j < r.value ==> key(s[j]) != k
    ensures r.None? <==> forall j :: 0 <= j < |s| ==> key(s[j]) != k
    decreases |s|
  {
    if |s| == 0 then None
    else if key(s[0]) == k then Some(0)
    else
      match FindIndex(s[1..], key, k)
      case None =>
        assert forall j :: 0 < j < |s| ==> s[j] == s[1..][j - 1];
        None
      case Some(i) => Some(i + 1)
  }

  /** The scan itself. */
  method Scan<T>(s: seq<T>, key: T -> nat, k: nat) returns (r: Option<nat>)
    ensures r == FindIndex(s, key, k)
  {
    var i := 0;
    while i < |s|
      invariant 0 <= i <= |s|
      invariant forall j :: 0 <= j < i ==> key(s[j]) != k
    {
      if key(s[i]) == k {
        return Some(i);
      }
      i := i + 1;
    }
    return None;
  }

  function RemoveAt<T>(s: seq<T>, i: nat): seq<T>
    requires i < |s|
  {
    s[..i] + s[i + 1..]
  }

  /** The list after `delete(k)`: the first entry with key `k` goes. */
  function DeletedEntries<T>(s: seq<T>, key: T -> nat, k: nat): seq<T>
  {
    match FindIndex(s, key, k)
    case None => s
    case Some(i) => RemoveAt(s, i)
  }

  /** The start times after `delete(k)`: popped when an entry was removed and the time is there. */
  function DeletedTimes<T>(s: seq<T>, key: T -> nat, k: nat, times: map<nat, int>): map<nat, int>
  {
    if FindIndex(s, key, k).Some? && k in times then times - {k} else times
  }

  /** `delete(k)` raises when it removes an entry whose start time has already been popped. */
  function DeleteOutcome<T>(s: seq<T>, key: T -> nat, k: nat, times: map<nat, int>): Outcome
  {
    if FindIndex(s, key, k).Some? && k !in times then KeyError else Done
  }

  /** `delete(k)` on a list and its start times, as the three list classes run it. */
  method DeleteKeyed<T>(s: seq<T>, key: T -> nat, k: nat, times: map<nat, int>)
    returns (s': seq<T>, times': map<nat, int>, r: Outcome)
    ensures s' == DeletedEntries(s, key, k)
    ensures times' == DeletedTimes(s, key, k, times)
    ensures r == DeleteOutcome(s, key, k, times)
  {
    var i := Scan(s, key, k);
    if i.None? {
      return s, times, Done;
    }
    s' := RemoveAt(s, i.value);
    if k !in times {
      return s', times, KeyError;
    }
    return s', times - {k}, Done;
  }

  /** How many entries carry key `k`. */
  function KeyCount<T>(s: seq<T>, key: T -> nat, k: nat): nat
  {
    if |s| == 0 then 0 else (if key(s[0]) == k then 1 else 0) + KeyCount(s[1..], key, k)
  }

  lemma {:induction false} KeyCountConcat<T>(a: seq<T>, b: seq<T>, key: T -> nat, k: nat)
    ensures KeyCount(a + b, key, k) == KeyCount(a, key, k) + KeyCount(b, key, k)
    decreases |a|
  {
    if |a| > 0 {
      assert (a + b)[1..] == a[1..] + b;
      KeyCountConcat(a[1..], b, key, k);
    } else {
      assert a + b == b;
    }
  }

  lemma {:induction false} KeyCountNone<T>(s: seq<T>, key: T -> nat, k: nat)
    requires forall j :: 0 <= j < |s| ==> key(s[j]) != k
    ensures KeyCount(s, key, k) == 0
    decreases |s|
  {
    if |s| > 0 {
      assert forall j :: 0 <= j < |s| - 1 ==> s[1..][j] == s[j + 1];
      KeyCountNone(s[1..], key, k);
    }
  }

  /**
   * Removing the entry `delete` finds takes exactly one entry with that key away, and leaves
   * every other key's entries alone.
   */
  lemma RemoveFound<T>(s: seq<T>, key: T -> nat, k: nat, other: nat)
    requires FindIndex(s, key, k).Some?
    ensures KeyCount(DeletedEntries(s, key, k), key, k) + 1 == KeyCount(s, key, k)
    ensures other != k ==> KeyCount(DeletedEntries(s, key, k), key, other) == KeyCount(s, key, other)
  {
    var i := FindIndex(s, key, k).value;
    assert s == s[..i] + [s[i]] + s[i + 1..];
    KeyCountConcat(s[..i] + [s[i]], s[i + 1..], key, k);
    KeyCountConcat(s[..i], [s[i]], key, k);
    KeyCountConcat(s[..i], s[i + 1..], key, k);
    KeyCountConcat(s[..i] + [s[i]], s[i + 1..], key, other);
    KeyCountConcat(s[..i], [s[i]], key, other);
    KeyCountConcat(s[..i], s[i + 1..], key, other);
    assert [s[i]][1..] == [];
  }

  /**
   * An entry appended under a fresh key, stamped with a fresh start time, is exactly what `delete`
   * then removes: the list and the start times are restored, and nothing raises.
   */
  lemma DeleteUndoesAppend<T>(s: seq<T>, x: T, key: T -> nat, times: map<nat, int>, now: int)
    requires FindIndex(s, key, key(x)).None?
    requires key(x) !in times
    ensures FindIndex(s + [x], key, key(x)) == Some(|s|)
    ensures DeletedEntries(s + [x], key, key(x)) == s
    ensures DeletedTimes(s + [x], key, key(x), times[key(x) := now]) == times
    ensures DeleteOutcome(s + [x], key, key(x), times[key(x) := now]) == Done
  {
    FoundLast(s, x, key);
    RemovedLast(s, x, key);
    PoppedTime(key(x), times, now);
  }

  lemma RemovedLast<T>(s: seq<T>, x: T, key: T -> nat)
    requires FindIndex(s + [x], key, key(x)) == Some(|s|)
    ensures DeletedEntries(s + [x], key, key(x)) == s
  {
    assert (s + [x])[..|s|] == s;
  }

  lemma PoppedTime(k: nat, times: map<nat, int>, now: int)
    requires k !in times
    ensures times[k := now] - {k} == times
  {
  }

  /** An entry appended under a key no entry has is the one a search for that key finds. */
  lemma FoundLast<T>(s: seq<T>, x: T, key: T -> nat)
    requires FindIndex(s, key, key(x)).None?
    ensures FindIndex(s + [x], key, key(x)) == Some(|s|)
  {
    var t := s + [x];
    assert t[|s|] == x;
    assert forall j :: 0 <= j < |s| ==> t[j] == s[j];
  }

  // ---------------------------------------------------------------- counters

  /** One counter pair of a meter band or a group bucket. */
  datatype BandStat = BandStat(packets: int, bytes: int)

  /** Every band or bucket gets the same increments. */
  function AddToBands(bands: seq<BandStat>, p: int, b: int): (r: seq<BandStat>)
    ensures |r| == |bands|
    ensures forall i :: 0 <= i < |r| ==> r[i] == BandStat(bands[i].packets + p, bands[i].bytes + b)
    decreases |bands|
  {
    if |bands| == 0 then []
    else [BandStat(bands[0].packets + p, bands[0].bytes + b)] + AddToBands(bands[1..], p, b)
  }

  /** `for band in ...: band.packet_count += p; band.byte_count += b`. */
  method AddToBandsLoop(bands: seq<BandStat>, p: int, b: int) returns (r: seq<BandStat>)
    ensures r == AddToBands(bands, p, b)
  {
    r := [];
    var i := 0;
    while i < |bands|
      invariant 0 <= i <= |bands|
      invariant |r| == i
      invariant forall j :: 0 <= j < i ==> r[j] == BandStat(bands[j].packets + p, bands[j].bytes + b)
    {
      r := r + [BandStat(bands[i].packets + p, bands[i].bytes + b)];
      i := i + 1;
    }
  }

  function SumPackets(bands: seq<BandStat>): int
  {
    if |bands| == 0 then 0 else bands[0].packets + SumPackets(bands[1..])
  }

  /** Adding `p` to every band adds `p` once per band to their total. */
  lemma {:induction false} SumPacketsAdd(bands: seq<BandStat>, p: int, b: int)
    ensures SumPackets(AddToBands(bands, p, b)) == SumPackets(bands) + |bands| * p
    decreases |bands|
  {
    if |bands| > 0 {
      var r := AddToBands(bands, p, b);
      assert r[1..] == AddToBands(bands[1..], p, b);
      SumPacketsAdd(bands[1..], p, b);
    }
  }

  /**
   * `math.floor(delta / n)` for `n` bands: the shares handed to the bands never add up to more than
   * the delta, and fall short of it by less than one share per band.
   */
  lemma BandShare(delta: int, n: nat)
    requires n > 0
    ensures n * (delta / n) <= delta < n * (delta / n) + n
  {
  }

  /** A meter report spreads at most its packet delta over the bands, and less than one band short. */
  lemma MeterBandsGain(bands: seq<BandStat>, p: int, b: int)
    requires |bands| > 0
    ensures var gain := SumPackets(AddToBands(bands, p / |bands|, b / |bands|)) - SumPackets(bands);
      gain <= p < gain + |bands|
  {
    SumPacketsAdd(bands, p / |bands|, b / |bands|);
    BandShare(p, |bands|);
  }

  // ---------------------------------------------------------------- flow statistics

  datatype FlowStat = FlowStat(
    cookie: nat,
    packetCount: int,
    byteCount: int,
    durationSec: int,
    instructions: seq<FlowDecode.OfInstruction>)

  function CookieOf(e: FlowStat): nat { e.cookie }

  /** A counter report for a flow: the deltas are added and the lifetime replaces the duration. */
  function FlowCounted(e: FlowStat, p: int, b: int, life: int): FlowStat
  {
    e.(packetCount := e.packetCount + p, byteCount := e.byteCount + b, durationSec := life)
  }

  /** Two reports count as one report of the summed deltas, with the later lifetime. */
  lemma FlowCountedAdds(e: FlowStat, p1: int, b1: int, l1: int, p2: int, b2: int, l2: int)
    ensures FlowCounted(FlowCounted(e, p1, b1, l1), p2, b2, l2) == FlowCounted(e, p1 + p2, b1 + b2, l2)
    ensures FlowCounted(e, 0, 0, e.durationSec) == e
  {
  }

  /** The position of the first METER instruction of a list. */
  function FirstMeterIndex(instrs: seq<FlowDecode.OfInstruction>): (r: Option<nat>)
    ensures r.Some? ==> r.value < |instrs| && instrs[r.value].MeterInstr?
    ensures r.Some? ==> forall j :: 0 <= j < r.value ==> !instrs[j].MeterInstr?
    ensures r.None? <==> forall j :: 0 <= j < |instrs| ==> !instrs[j].MeterInstr?
    decreases |instrs|
  {
    if |instrs| == 0 then None
    else if instrs[0].MeterInstr? then Some(0)
    else
      match FirstMeterIndex(instrs[1..])
      case None =>
        assert forall j :: 0 < j < |instrs| ==> instrs[j] == instrs[1..][j - 1];
        None
      case Some(i) => Some(i + 1)
  }

  /** `get_associated_meter(cookie)`: the first METER instruction of the first entry with that cookie. */
  function AssociatedMeterOf(entries: seq<FlowStat>, cookie: nat): Option<nat>
  {
    match FindIndex(entries, CookieOf, cookie)
    case None => None
    case Some(i) =>
      var instrs := entries[i].instructions;
      match FirstMeterIndex(instrs)
      case None => None
      case Some(j) => Some(instrs[j].meter)
  }

  /** A report raises `KeyError` exactly when the id has no start time. */
  function UpdateOutcome(times: map<nat, int>, k: nat): Outcome
  {
    if k in times then Done else KeyError
  }

  /** The entries after `update_statistics(cookie, p, b, ts)`. */
  function UpdatedFlows(entries: seq<FlowStat>, times: map<nat, int>, cookie: nat, p: int, b: int, ts: int)
    : seq<FlowStat>
  {
    if cookie !in times then entries
    else
      match FindIndex(entries, CookieOf, cookie)
      case None => entries
      case Some(i) => entries[i := FlowCounted(entries[i], p, b, ts - times[cookie])]
  }

  /**
   * A flow report touches only the first entry with its cookie: that one gains the deltas and its
   * lifetime; every other entry is kept.
   */
  lemma UpdatedFlowsTouchesFirst(entries: seq<FlowStat>, times: map<nat, int>, cookie: nat, p: int, b: int, ts: int)
    ensures var r := UpdatedFlows(entries, times, cookie, p, b, ts);
      && |r| == |entries|
      && CookiesOf(r) == CookiesOf(entries)
      && forall j :: 0 <= j < |r| && Some(j) != FindIndex(entries, CookieOf, cookie) ==> r[j] == entries[j]
    ensures cookie in times && FindIndex(entries, CookieOf, cookie).Some? ==>
      var i := FindIndex(entries, CookieOf, cookie).value;
      var r := UpdatedFlows(entries, times, cookie, p, b, ts);
      && r[i].packetCount == entries[i].packetCount + p
      && r[i].byteCount == entries[i].byteCount + b
      && r[i].durationSec == ts - times[cookie]
  {
  }

  /** The cookies of a list, in order. */
  function CookiesOf(entries: seq<FlowStat>): (r: seq<nat>)
    ensures |r| == |entries| && forall i :: 0 <= i < |r| ==> r[i] == entries[i].cookie
  {
    seq(|entries|, i requires 0 <= i < |entries| => entries[i].cookie)
  }

  class FlowStatsList {
    var entries: seq<FlowStat>
    var startTime: map<nat, int>

    constructor ()
      ensures entries == [] && startTime == map[]
    {
      entries := [];
      startTime := map[];
    }

    /** `append(item)`, stamped with the current time `now`. */
    method Append(item: FlowStat, now: int)
      modifies this
      ensures entries == old(entries) + [item]
      ensures startTime == old(startTime)[item.cookie := now]
    {
      entries := entries + [item];
      startTime := startTime[item.cookie := now];
    }

    /**
     * `delete(cookie)`: the first entry with the cookie is removed and its start time popped; the
     * pop raises when the start time has already gone (a second entry with the same cookie).
     */
    method Delete(cookie: nat) returns (r: Outcome)
      modifies this
      ensures entries == DeletedEntries(old(entries), CookieOf, cookie)
      ensures startTime == DeletedTimes(old(entries), CookieOf, cookie, old(startTime))
      ensures r == DeleteOutcome(old(entries), CookieOf, cookie, old(startTime))
    {
      entries, startTime, r := DeleteKeyed(entries, CookieOf, cookie, startTime);
    }

    /** `get_flowStats(cookie)`. */
    method Get(cookie: nat) returns (r: Option<FlowStat>)
      ensures FindIndex(entries, CookieOf, cookie).None? ==> r.None?
      ensures FindIndex(entries, CookieOf, cookie).Some? ==>
        r == Some(entries[FindIndex(entries, CookieOf, cookie).value])
    {
      var i := Scan(entries, CookieOf, cookie);
      if i.None? {
        return None;
      }
      return Some(entries[i.value]);
    }

    /**
     * `update_statistics(cookie, p, b, timestamp)`: a missing start time raises first; an unknown
     * cookie changes nothing; otherwise the first entry counts the report with lifetime
     * `timestamp - start`.
     */
    method UpdateStatistics(cookie: nat, p: int, b: int, timestamp: int) returns (r: Outcome)
      modifies this
      ensures startTime == old(startTime)
      ensures entries == UpdatedFlows(old(entries), old(startTime), cookie, p, b, timestamp)
      ensures r == UpdateOutcome(old(startTime), cookie)
    {
      if cookie !in startTime {
        return KeyError;
      }
      var life := timestamp - startTime[cookie];
      var i := Scan(entries, CookieOf, cookie);
      if i.None? {
        return Done;
      }
      entries := entries[i.value := FlowCounted(entries[i.value], p, b, life)];
      return Done;
    }

    /** `get_associated_meter(cookie)`, with the instruction loop. */
    method AssociatedMeter(cookie: nat) returns (m: Option<nat>)
      ensures m == AssociatedMeterOf(entries, cookie)
    {
      var i := Scan(entries, CookieOf, cookie);
      if i.None? {
        return None;
      }
      var instrs := entries[i.value].instructions;
      var j := 0;
      while j < |instrs|
        invariant 0 <= j <= |instrs|
        invariant forall k :: 0 <= k < j ==> !instrs[k].MeterInstr?
      {
        if instrs[j].MeterInstr? {
          assert FirstMeterIndex(instrs) == Some(j);
          return Some(instrs[j].meter);
        }
        j := j + 1;
      }
      return None;
    }
  }

  // ---------------------------------------------------------------- meter statistics

  datatype MeterStat = MeterStat(
    meterId: nat,
    packetIn: int,
    byteIn: int,
    durationSec: int,
    bands: seq<BandStat>)

  function MeterIdOf(e: MeterStat): nat { e.meterId }

  /** The meter's own counters after a report; the bands are handled apart. */
  function MeterCounted(e: MeterStat, p: int, b: int, life: int): MeterStat
  {
    e.(packetIn := e.packetIn + p, byteIn := e.byteIn + b, durationSec := life)
  }

  /**
   * The entries after `update_statistics(meterId, p, b, ts)`: the meter's counters, then
   * `floor(p / n)` and `floor(b / n)` on each of its `n` bands; with no band the counters are
   * already updated when the division raises.
   */
  function UpdatedMeters(entries: seq<MeterStat>, times: map<nat, int>, id: nat, p: int, b: int, ts: int)
    : seq<MeterStat>
  {
    if id !in times then entries
    else
      match FindIndex(entries, MeterIdOf, id)
      case None => entries
      case Some(i) =>
        var e := MeterCounted(entries[i], p, b, ts - times[id]);
        var n := |e.bands|;
        if n == 0 then entries[i := e]
        else entries[i := e.(bands := AddToBands(e.bands, p / n, b / n))]
  }

  /** A meter report raises for a missing start time, and for a found meter without bands. */
  function MeterUpdateOutcome(entries: seq<MeterStat>, times: map<nat, int>, id: nat): Outcome
  {
    if id !in times then KeyError
    else
      match FindIndex(entries, MeterIdOf, id)
      case None => Done
      case Some(i) => if |entries[i].bands| == 0 then ZeroDivision else Done
  }

  /**
   * A meter report touches only the first entry with its id; when it has bands their packet total
   * grows by at most the delta, and by less than one band short of it.
   */
  lemma UpdatedMetersTouchesFirst(entries: seq<MeterStat>, times: map<nat, int>, id: nat, p: int, b: int, ts: int)
    ensures var r := UpdatedMeters(entries, times, id, p, b, ts);
      && |r| == |entries|
      && forall j :: 0 <= j < |r| && Some(j) != FindIndex(entries, MeterIdOf, id) ==> r[j] == entries[j]
    ensures id in times && FindIndex(entries, MeterIdOf, id).Some? ==>
      var i := FindIndex(entries, MeterIdOf, id).value;
      var r := UpdatedMeters(entries, times, id, p, b, ts);
      var n := |entries[i].bands|;
      && r[i].meterId == id
      && r[i].packetIn == entries[i].packetIn + p
      && |r[i].bands| == n
      && (n > 0 ==> var gain := SumPackets(r[i].bands) - SumPackets(entries[i].bands); gain <= p < gain + n)
      && (MeterUpdateOutcome(entries, times, id) == ZeroDivision <==> n == 0)
  {
    if id in times && FindIndex(entries, MeterIdOf, id).Some? {
      var i := FindIndex(entries, MeterIdOf, id).value;
      if |entries[i].bands| > 0 {
        MeterBandsGain(entries[i].bands, p, b);
      }
    }
  }

  class MeterStatsList {
    var entries: seq<MeterStat>
    var startTime: map<nat, int>

    constructor ()
      ensures entries == [] && startTime == map[]
    {
      entries := [];
      startTime := map[];
    }

    method Append(item: MeterStat, now: int)
      modifies this
      ensures entries == old(entries) + [item]
      ensures startTime == old(startTime)[item.meterId := now]
    {
      entries := entries + [item];
      startTime := startTime[item.meterId := now];
    }

    /** `delete(meterId)`, as for flows. */
    method Delete(meterId: nat) returns (r: Outcome)
      modifies this
      ensures entries == DeletedEntries(old(entries), MeterIdOf, meterId)
      ensures startTime == DeletedTimes(old(entries), MeterIdOf, meterId, old(startTime))
      ensures r == DeleteOutcome(old(entries), MeterIdOf, meterId, old(startTime))
    {
      entries, startTime, r := DeleteKeyed(entries, MeterIdOf, meterId, startTime);
    }

    /**
     * `update_statistics(meterId, p, b, timestamp)`: the meter's counters as for a flow, then each
     * band gets `floor(p / n)` packets and `floor(b / n)` bytes for `n` bands. With no band the
     * counters are already updated when the division raises.
     */
    method UpdateStatistics(meterId: nat, p: int, b: int, timestamp: int) returns (r: Outcome)
      modifies this
      ensures startTime == old(startTime)
      ensures entries == UpdatedMeters(old(entries), old(startTime), meterId, p, b, timestamp)
      ensures r == MeterUpdateOutcome(old(entries), old(startTime), meterId)
    {
      if meterId !in startTime {
        return KeyError;
      }
      var life := timestamp - startTime[meterId];
      var i := Scan(entries, MeterIdOf, meterId);
      if i.None? {
        return Done;
      }
      var e := MeterCounted(entries[i.value], p, b, life);
      entries := entries[i.value := e];
      var n := |e.bands|;
      if n == 0 {
        return ZeroDivision;
      }
      var bands := AddToBandsLoop(e.bands, p / n, b / n);
      entries := entries[i.value := e.(bands := bands)];
      return Done;
    }
  }

  // ---------------------------------------------------------------- group statistics

  datatype GroupStat = GroupStat(
    groupId: nat,
    packets: int,
    bytes: int,
    durationSec: int,
    buckets: seq<BandStat>)

  function GroupIdOf(e: GroupStat): nat { e.groupId }

  /** A report for a group: the counters as for a flow, and the full deltas on every bucket. */
  function GroupCounted(e: GroupStat, p: int, b: int, life: int): GroupStat
  {
    e.(packets := e.packets + p, bytes := e.bytes + b, durationSec := life,
       buckets := AddToBands(e.buckets, p, b))
  }

  /** The entries after `update_statistics(groupId, p, b, ts)`. */
  function UpdatedGroups(entries: seq<GroupStat>, times: map<nat, int>, id: nat, p: int, b: int, ts: int)
    : seq<GroupStat>
  {
    if id !in times then entries
    else
      match FindIndex(entries, GroupIdOf, id)
      case None => entries
      case Some(i) => entries[i := GroupCounted(entries[i], p, b, ts - times[id])]
  }

  /** A group report touches only the first entry with its id, and every bucket of it gains the full deltas. */
  lemma UpdatedGroupsTouchesFirst(entries: seq<GroupStat>, times: map<nat, int>, id: nat, p: int, b: int, ts: int)
    ensures var r := UpdatedGroups(entries, times, id, p, b, ts);
      && |r| == |entries|
      && forall j :: 0 <= j < |r| && Some(j) != FindIndex(entries, GroupIdOf, id) ==> r[j] == entries[j]
    ensures id in times && FindIndex(entries, GroupIdOf, id).Some? ==>
      var i := FindIndex(entries, GroupIdOf, id).value;
      var r := UpdatedGroups(entries, times, id, p, b, ts);
      && r[i].groupId == id
      && |r[i].buckets| == |entries[i].buckets|
      && SumPackets(r[i].buckets) == SumPackets(entries[i].buckets) + |entries[i].buckets| * p
  {
    if id in times && FindIndex(entries, GroupIdOf, id).Some? {
      var i := FindIndex(entries, GroupIdOf, id).value;
      SumPacketsAdd(entries[i].buckets, p, b);
    }
  }

  class GroupStatsList {
    var entries: seq<GroupStat>
    var startTime: map<nat, int>

    constructor ()
      ensures entries == [] && startTime == map[]
    {
      entries := [];
      startTime := map[];
    }

    method Append(item: GroupStat, now: int)
      modifies this
      ensures entries == old(entries) + [item]
      ensures startTime == old(startTime)[item.groupId := now]
    {
      entries := entries + [item];
      startTime := startTime[item.groupId := now];
    }

    /** `delete(groupId)`, as for flows. */
    method Delete(groupId: nat) returns (r: Outcome)
      modifies this
      ensures entries == DeletedEntries(old(entries), GroupIdOf, groupId)
      ensures startTime == DeletedTimes(old(entries), GroupIdOf, groupId, old(startTime))
      ensures r == DeleteOutcome(old(entries), GroupIdOf, groupId, old(startTime))
    {
      entries, startTime, r := DeleteKeyed(entries, GroupIdOf, groupId, startTime);
    }

    /** `update_statistics(groupId, p, b, timestamp)`. */
    method UpdateStatistics(groupId: nat, p: int, b: int, timestamp: int) returns (r: Outcome)
      modifies this
      ensures startTime == old(startTime)
      ensures entries == UpdatedGroups(old(entries), old(startTime), groupId, p, b, timestamp)
      ensures r == UpdateOutcome(old(startTime), groupId)
    {
      if groupId !in startTime {
        return KeyError;
      }
      var life := timestamp - startTime[groupId];
      var i := Scan(entries, GroupIdOf, groupId);
      if i.None? {
        return Done;
      }
      var e := entries[i.value];
      var buckets := AddToBandsLoop(e.buckets, p, b);
      entries := entries[i.value := e.(packets := e.packets + p, bytes := e.bytes + b,
                                       durationSec := life, buckets := buckets)];
      return Done;
    }
  }

  /** Two group reports count as one report of the summed deltas, buckets included. */
  lemma GroupCountedAdds(e: GroupStat, p1: int, b1: int, l1: int, p2: int, b2: int, l2: int)
    ensures GroupCounted(GroupCounted(e, p1, b1, l1), p2, b2, l2) == GroupCounted(e, p1 + p2, b1 + b2, l2)
  {
    var twice := AddToBands(AddToBands(e.buckets, p1, b1), p2, b2);
    var once := AddToBands(e.buckets, p1 + p2, b1 + b2);
    assert |twice| == |once|;
    assert forall i :: 0 <= i < |once| ==> twice[i] == once[i];
  }
}
