/**
 * `ListOfMeters` and `ListOfGroups`: the meter and group entries received from the controller,
 * the bandwidth a meter's DROP bands stand for, and the multicast group check.
 */
module MetersGroups {
  import opened Wrappers

  // ---------------------------------------------------------------- meters

  datatype BandType = Drop | DscpRemark | Experimenter

  datatype Band = Band(bandType: BandType, rate: nat, burstSize: nat)

  datatype Meter = Meter(meterId: nat, bands: seq<Band>)

  /** Committed rate, peak rate and peak burst size. */
  datatype Bandwidth = Bandwidth(cir: nat, pir: nat, pbs: nat)

  /**
   * The outcomes of `get_meterId_bandwidth`: `None` for an unknown meter, the `KeyError` raised
   * when the meter has no DROP band, or the bandwidth dictionary.
   */
  datatype MeterBandwidth = UnknownMeter | NoDropBand | Known(bw: Bandwidth)

  /** `get_meter(id)`: the first meter with that id. */
  function FindMeter(meters: seq<Meter>, id: nat): (r: Option<Meter>)
    ensures r.Some? ==> r.value in meters && r.value.meterId == id
    ensures r.None? <==> forall m :: m in meters ==> m.meterId != id
  {
    if |meters| == 0 then None
    else if meters[0].meterId == id then Some(meters[0])
    else
      var r := FindMeter(meters[1..], id);
      assert forall m :: m in meters <==> m == meters[0] || m in meters[1..];
      r
  }

  /** `delete(id)`: every meter with that id is removed. */
  function RemoveMeter(meters: seq<Meter>, id: nat): (r: seq<Meter>)
    ensures forall m :: m in r <==> m in meters && m.meterId != id
  {
    if |meters| == 0 then []
    else
      var rest := RemoveMeter(meters[1..], id);
      assert forall m :: m in meters <==> m == meters[0] || m in meters[1..];
      if meters[0].meterId == id then rest else [meters[0]] + rest
  }

  function DropBands(bands: seq<Band>): (r: seq<Band>)
    ensures forall b :: b in r <==> b in bands && b.bandType == Drop
  {
    if |bands| == 0 then []
    else
      var rest := DropBands(bands[1..]);
      assert forall b :: b in bands <==> b == bands[0] || b in bands[1..];
      if bands[0].bandType == Drop then [bands[0]] + rest else rest
  }

  function MinRate(bands: seq<Band>): nat
    requires |bands| > 0
  {
    if |bands| == 1 then bands[0].rate
    else
      var m := MinRate(bands[1..]);
      if bands[0].rate <= m then bands[0].rate else m
  }

  function MaxRate(bands: seq<Band>): nat
    requires |bands| > 0
  {
    if |bands| == 1 then bands[0].rate
    else
      var m := MaxRate(bands[1..]);
      if bands[0].rate >= m then bands[0].rate else m
  }

  function MaxBurst(bands: seq<Band>): nat
    requires |bands| > 0
  {
    if |bands| == 1 then bands[0].burstSize
    else
      var m := MaxBurst(bands[1..]);
      if bands[0].burstSize >= m then bands[0].burstSize else m
  }

  /** `MinRate` is a bound of every band and is the value of one of them. */
  lemma {:induction false} MinRateExtreme(bands: seq<Band>)
    requires |bands| > 0
    ensures forall i :: 0 <= i < |bands| ==> MinRate(bands) <= bands[i].rate
    ensures exists i :: 0 <= i < |bands| && bands[i].rate == MinRate(bands)
  {
    if |bands| > 1 {
      MinRateExtreme(bands[1..]);
      var j :| 0 <= j < |bands| - 1 && bands[1..][j].rate == MinRate(bands[1..]);
      assert bands[j + 1].rate == MinRate(bands[1..]);
      assert forall i :: 0 < i < |bands| ==> bands[i] == bands[1..][i - 1];
    } else {
      assert bands[0].rate == MinRate(bands);
    }
  }

  /** `MaxRate` is a bound of every band and is the value of one of them. */
  lemma {:induction false} MaxRateExtreme(bands: seq<Band>)
    requires |bands| > 0
    ensures forall i :: 0 <= i < |bands| ==> bands[i].rate <= MaxRate(bands)
    ensures exists i :: 0 <= i < |bands| && bands[i].rate == MaxRate(bands)
  {
    if |bands| > 1 {
      MaxRateExtreme(bands[1..]);
      var j :| 0 <= j < |bands| - 1 && bands[1..][j].rate == MaxRate(bands[1..]);
      assert bands[j + 1].rate == MaxRate(bands[1..]);
      assert forall i :: 0 < i < |bands| ==> bands[i] == bands[1..][i - 1];
    } else {
      assert bands[0].rate == MaxRate(bands);
    }
  }

  /** `MaxBurst` is a bound of every band and is the value of one of them. */
  lemma {:induction false} MaxBurstExtreme(bands: seq<Band>)
    requires |bands| > 0
    ensures forall i :: 0 <= i < |bands| ==> bands[i].burstSize <= MaxBurst(bands)
    ensures exists i :: 0 <= i < |bands| && bands[i].burstSize == MaxBurst(bands)
  {
    if |bands| > 1 {
      MaxBurstExtreme(bands[1..]);
      var j :| 0 <= j < |bands| - 1 && bands[1..][j].burstSize == MaxBurst(bands[1..]);
      assert bands[j + 1].burstSize == MaxBurst(bands[1..]);
      assert forall i :: 0 < i < |bands| ==> bands[i] == bands[1..][i - 1];
    } else {
      assert bands[0].burstSize == MaxBurst(bands);
    }
  }

  /**
   * What a meter's bands stand for: the smallest DROP rate is the committed rate, the largest
   * the peak rate, and the largest DROP burst the peak burst size.
   */
  function BandwidthOf(meters: seq<Meter>, id: nat): MeterBandwidth
  {
    match FindMeter(meters, id)
    case None => UnknownMeter
    case Some(m) =>
      var drops := DropBands(m.bands);
      if |drops| == 0 then NoDropBand
      else Known(Bandwidth(MinRate(drops), MaxRate(drops), MaxBurst(drops)))
  }

  /** `get_meterId_bandwidth(id)`: one pass over the bands, filling the dictionary in place. */
  method GetMeterIdBandwidth(meters: seq<Meter>, id: nat) returns (r: MeterBandwidth)
    ensures r == BandwidthOf(meters, id)
  {
    var found := FindMeter(meters, id);
    if found.None? {
      return UnknownMeter;
    }
    var bands := found.value.bands;
    var cir: Option<nat> := None;
    var pir: Option<nat> := None;
    var pbs: Option<nat> := None;
    ghost var d: seq<Band> := [];
    var i := 0;
    while i < |bands|
      invariant 0 <= i <= |bands|
      invariant d == DropBands(bands[..i])
      invariant BandSummary(d, cir, pir, pbs)
    {
      DropBandsSnoc(bands[..i], bands[i]);
      assert bands[..i + 1] == bands[..i] + [bands[i]];
      cir, pir, pbs := BandStep(d, bands[i], cir, pir, pbs);
      if bands[i].bandType == Drop {
        d := d + [bands[i]];
      }
      i := i + 1;
    }
    assert bands[..i] == bands;
    if cir.None? {
      return NoDropBand;
    }
    if pir.None? {
      pir := cir;
    }
    r := Known(Bandwidth(cir.value, pir.value, pbs.value));
  }

  /** The dictionary `get_meterId_bandwidth` fills, against the DROP bands `d` seen so far. */
  ghost predicate BandSummary(d: seq<Band>, cir: Option<nat>, pir: Option<nat>, pbs: Option<nat>)
  {
    && (|d| == 0 ==> cir.None? && pir.None? && pbs.None?)
    && (|d| > 0 ==> cir == Some(MinRate(d)) && pbs == Some(MaxBurst(d)))
    && (|d| == 1 ==> pir.None? && MaxRate(d) == MinRate(d))
    && (|d| > 1 ==> pir == Some(MaxRate(d)))
  }

  /** One band of the pass: a DROP band updates `cir`, `pir` and `pbs`; any other band changes nothing. */
  method BandStep(ghost d: seq<Band>, band: Band, cir: Option<nat>, pir: Option<nat>, pbs: Option<nat>)
    returns (cir': Option<nat>, pir': Option<nat>, pbs': Option<nat>)
    requires BandSummary(d, cir, pir, pbs)
    ensures BandSummary(d + (if band.bandType == Drop then [band] else []), cir', pir', pbs')
  {
    cir', pir', pbs' := cir, pir, pbs;
    if band.bandType != Drop {
      assert d + [] == d;
      return;
    }
    if |d| > 0 {
      MinRateSnoc(d, band);
      MaxRateSnoc(d, band);
      MaxBurstSnoc(d, band);
      MinLeMax(d);
    } else {
      assert d + [band] == [band];
    }
    if cir.Some? {
      if band.rate >= cir.value {
        if pir.None? || band.rate > pir.value {
          pir' := Some(band.rate);
        }
      } else {
        if pir.None? || cir.value > pir.value {
          pir' := cir;
        }
        cir' := Some(band.rate);
      }
    } else {
      cir' := Some(band.rate);
    }
    if pbs.None? || pbs.value < band.burstSize {
      pbs' := Some(band.burstSize);
    }
  }

  lemma {:induction false} DropBandsSnoc(bands: seq<Band>, b: Band)
    ensures DropBands(bands + [b]) == DropBands(bands) + (if b.bandType == Drop then [b] else [])
  {
    if |bands| == 0 {
      assert bands + [b] == [b];
    } else {
      assert (bands + [b])[1..] == bands[1..] + [b];
      DropBandsSnoc(bands[1..], b);
    }
  }

  lemma {:induction false} MinRateSnoc(d: seq<Band>, b: Band)
    requires |d| > 0
    ensures MinRate(d + [b]) == if b.rate < MinRate(d) then b.rate else MinRate(d)
  {
    assert (d + [b])[1..] == d[1..] + [b];
    if |d| > 1 {
      MinRateSnoc(d[1..], b);
    } else {
      assert d[1..] + [b] == [b];
    }
  }

  lemma {:induction false} MaxRateSnoc(d: seq<Band>, b: Band)
    requires |d| > 0
    ensures MaxRate(d + [b]) == if b.rate > MaxRate(d) then b.rate else MaxRate(d)
  {
    assert (d + [b])[1..] == d[1..] + [b];
    if |d| > 1 {
      MaxRateSnoc(d[1..], b);
    } else {
      assert d[1..] + [b] == [b];
    }
  }

  lemma {:induction false} MaxBurstSnoc(d: seq<Band>, b: Band)
    requires |d| > 0
    ensures MaxBurst(d + [b]) == if b.burstSize > MaxBurst(d) then b.burstSize else MaxBurst(d)
  {
    assert (d + [b])[1..] == d[1..] + [b];
    if |d| > 1 {
      MaxBurstSnoc(d[1..], b);
    } else {
      assert d[1..] + [b] == [b];
    }
  }

  lemma MinLeMax(d: seq<Band>)
    requires |d| > 0
    ensures MinRate(d) <= MaxRate(d)
  {
    MinRateExtreme(d);
    MaxRateExtreme(d);
  }

  /** `meterIds_to_bandwidth`: `{}`, the propagated `KeyError`, or the combined bandwidth. */
  datatype TotalBandwidth = NoBandwidth | Raised | Total(bw: Bandwidth)

  /** The first meter of the list that does not give a bandwidth. */
  function FirstFailure(meters: seq<Meter>, ids: seq<nat>): (r: Option<MeterBandwidth>)
    ensures r.Some? ==> !r.value.Known?
  {
    if |ids| == 0 then None
    else if !BandwidthOf(meters, ids[0]).Known? then Some(BandwidthOf(meters, ids[0]))
    else FirstFailure(meters, ids[1..])
  }

  /** No failure is found exactly when every meter has a bandwidth. */
  lemma {:induction false} FirstFailureNone(meters: seq<Meter>, ids: seq<nat>)
    ensures FirstFailure(meters, ids).None? <==> forall i :: 0 <= i < |ids| ==> BandwidthOf(meters, ids[i]).Known?
  {
    if |ids| > 0 {
      FirstFailureNone(meters, ids[1..]);
      assert forall i :: 0 < i < |ids| ==> ids[i] == ids[1..][i - 1];
    }
  }

  function MinNat(a: nat, b: nat): nat
  {
    if a > b then b else a
  }

  /** The bandwidths of meters all known to have one. */
  function KnownBandwidths(meters: seq<Meter>, ids: seq<nat>): (r: seq<Bandwidth>)
    requires FirstFailure(meters, ids).None?
    ensures |r| == |ids|
    ensures forall i :: 0 <= i < |ids| ==> BandwidthOf(meters, ids[i]).Known? && r[i] == BandwidthOf(meters, ids[i]).bw
  {
    FirstFailureNone(meters, ids);
    seq(|ids|, i requires 0 <= i < |ids| => BandwidthOf(meters, ids[i]).bw)
  }

  /** The componentwise minimum of a list of bandwidths, taken left to right. */
  function MinAll(bws: seq<Bandwidth>): Bandwidth
    requires |bws| > 0
  {
    var last := bws[|bws| - 1];
    if |bws| == 1 then last
    else
      var t := MinAll(bws[..|bws| - 1]);
      Bandwidth(MinNat(t.cir, last.cir), MinNat(t.pir, last.pir), MinNat(t.pbs, last.pbs))
  }

  /** The combination is below every bandwidth and each component comes from one of them. */
  lemma {:induction false} MinAllIsMinimum(bws: seq<Bandwidth>)
    requires |bws| > 0
    ensures forall i :: 0 <= i < |bws| ==>
      MinAll(bws).cir <= bws[i].cir && MinAll(bws).pir <= bws[i].pir && MinAll(bws).pbs <= bws[i].pbs
    ensures exists i :: 0 <= i < |bws| && MinAll(bws).cir == bws[i].cir
    ensures exists i :: 0 <= i < |bws| && MinAll(bws).pir == bws[i].pir
    ensures exists i :: 0 <= i < |bws| && MinAll(bws).pbs == bws[i].pbs
  {
    var n := |bws| - 1;
    if n > 0 {
      var pre := bws[..n];
      MinAllIsMinimum(pre);
      assert forall i :: 0 <= i < n ==> pre[i] == bws[i];
      var t := MinAll(pre);
      var i1 :| 0 <= i1 < n && t.cir == pre[i1].cir;
      var i2 :| 0 <= i2 < n && t.pir == pre[i2].pir;
      var i3 :| 0 <= i3 < n && t.pbs == pre[i3].pbs;
      assert bws[i1] == pre[i1] && bws[i2] == pre[i2] && bws[i3] == pre[i3];
    } else {
      assert MinAll(bws) == bws[0];
    }
  }

  /**
   * `meterIds_to_bandwidth(ids)`: the componentwise minimum over the meters; `{}` for an empty
   * list or when the first meter without a bandwidth is unknown; the `KeyError` when it has no
   * DROP band.
   */
  method MeterIdsToBandwidth(meters: seq<Meter>, ids: seq<nat>) returns (r: TotalBandwidth)
    ensures |ids| == 0 ==> r == NoBandwidth
    ensures FirstFailure(meters, ids) == Some(UnknownMeter) ==> r == NoBandwidth
    ensures FirstFailure(meters, ids) == Some(NoDropBand) ==> r == Raised
    ensures FirstFailure(meters, ids).None? && |ids| > 0 ==> r == Total(MinAll(KnownBandwidths(meters, ids)))
  {
    var total: Option<Bandwidth> := None;
    ghost var bws: seq<Bandwidth> := [];
    var i := 0;
    while i < |ids|
      invariant 0 <= i <= |ids|
      invariant FirstFailure(meters, ids[..i]).None?
      invariant total.None? <==> i == 0
      invariant bws == KnownBandwidths(meters, ids[..i])
      invariant total.Some? ==> total.value == MinAll(bws)
    {
      var bw := GetMeterIdBandwidth(meters, ids[i]);
      if !bw.Known? {
        FirstFailureSnoc(meters, ids[..i], ids[i]);
        assert ids[..i + 1] == ids[..i] + [ids[i]];
        FirstFailurePrefix(meters, ids, i + 1);
        return if bw.UnknownMeter? then NoBandwidth else Raised;
      }
      var b := bw.bw;
      KnownStep(meters, ids, i, b);
      if i > 0 {
        MinAllSnoc(bws, b);
      }
      if total.None? {
        total := Some(b);
      } else {
        var t := total.value;
        var cir := if t.cir > b.cir then b.cir else t.cir;
        var pir := if t.pir > b.pir then b.pir else t.pir;
        var pbs := if t.pbs > b.pbs then b.pbs else t.pbs;
        total := Some(Bandwidth(cir, pir, pbs));
      }
      bws := bws + [b];
      i := i + 1;
    }
    assert ids[..i] == ids;
    if total.None? {
      return NoBandwidth;
    }
    r := Total(total.value);
  }

  /** A meter with a bandwidth extends the list of known bandwidths by its own. */
  lemma KnownStep(meters: seq<Meter>, ids: seq<nat>, i: nat, b: Bandwidth)
    requires i < |ids| && FirstFailure(meters, ids[..i]).None? && BandwidthOf(meters, ids[i]) == Known(b)
    ensures FirstFailure(meters, ids[..i + 1]).None?
    ensures KnownBandwidths(meters, ids[..i + 1]) == KnownBandwidths(meters, ids[..i]) + [b]
  {
    FirstFailureSnoc(meters, ids[..i], ids[i]);
    assert ids[..i + 1] == ids[..i] + [ids[i]];
  }

  lemma MinAllSnoc(bws: seq<Bandwidth>, b: Bandwidth)
    requires |bws| > 0
    ensures MinAll(bws + [b]) == Bandwidth(MinNat(MinAll(bws).cir, b.cir), MinNat(MinAll(bws).pir, b.pir),
                                           MinNat(MinAll(bws).pbs, b.pbs))
  {
    assert (bws + [b])[..|bws|] == bws;
  }

  lemma {:induction false} FirstFailureSnoc(meters: seq<Meter>, ids: seq<nat>, id: nat)
    requires FirstFailure(meters, ids).None?
    ensures FirstFailure(meters, ids + [id]) ==
      if BandwidthOf(meters, id).Known? then None else Some(BandwidthOf(meters, id))
  {
    if |ids| > 0 {
      assert (ids + [id])[1..] == ids[1..] + [id];
      assert BandwidthOf(meters, ids[0]).Known?;
      FirstFailureSnoc(meters, ids[1..], id);
    } else {
      assert ids + [id] == [id];
    }
  }

  lemma {:induction false} FirstFailurePrefix(meters: seq<Meter>, ids: seq<nat>, n: nat)
    requires n <= |ids|
    requires FirstFailure(meters, ids[..n]).Some?
    ensures FirstFailure(meters, ids) == FirstFailure(meters, ids[..n])
  {
    if !BandwidthOf(meters, ids[0]).Known? {
      assert ids[..n][0] == ids[0];
    } else {
      assert ids[..n][1..] == ids[1..][..n - 1];
      FirstFailurePrefix(meters, ids[1..], n - 1);
    }
  }

  // ---------------------------------------------------------------- groups

  datatype GroupType = All | Select | Indirect | FastFailover

  datatype GroupAction = OutputTo(port: nat) | OtherGroupAction

  datatype Bucket = Bucket(actions: seq<GroupAction>)

  datatype Group = Group(groupId: nat, groupType: GroupType, buckets: seq<Bucket>)

  /** `get_group(id)`: the first group with that id. */
  function FindGroup(groups: seq<Group>, id: nat): (r: Option<Group>)
    ensures r.Some? ==> r.value in groups && r.value.groupId == id
    ensures r.None? <==> forall g :: g in groups ==> g.groupId != id
  {
    if |groups| == 0 then None
    else if groups[0].groupId == id then Some(groups[0])
    else
      var r := FindGroup(groups[1..], id);
      assert forall g :: g in groups <==> g == groups[0] || g in groups[1..];
      r
  }

  /** `exists(id)`. */
  function GroupExists(groups: seq<Group>, id: nat): (b: bool)
    ensures b <==> exists g :: g in groups && g.groupId == id
  {
    FindGroup(groups, id).Some?
  }

  /** `delete(id)`: every group with that id is removed. */
  function RemoveGroup(groups: seq<Group>, id: nat): (r: seq<Group>)
    ensures forall g :: g in r <==> g in groups && g.groupId != id
  {
    if |groups| == 0 then []
    else
      var rest := RemoveGroup(groups[1..], id);
      assert forall g :: g in groups <==> g == groups[0] || g in groups[1..];
      if groups[0].groupId == id then rest else [groups[0]] + rest
  }

  function OutputPorts(actions: seq<GroupAction>): (r: seq<nat>)
    ensures forall p :: p in r <==> OutputTo(p) in actions
  {
    if |actions| == 0 then []
    else
      var rest := OutputPorts(actions[1..]);
      assert forall a :: a in actions <==> a == actions[0] || a in actions[1..];
      if actions[0].OutputTo? then [actions[0].port] + rest else rest
  }

  function BucketPorts(buckets: seq<Bucket>): (r: seq<nat>)
    ensures forall p :: p in r <==> exists b :: b in buckets && OutputTo(p) in b.actions
  {
    if |buckets| == 0 then []
    else
      var rest := BucketPorts(buckets[1..]);
      assert forall b :: b in buckets <==> b == buckets[0] || b in buckets[1..];
      OutputPorts(buckets[0].actions) + rest
  }

  /**
   * `get_group_ports(id)`: the OUTPUT ports of every bucket of the group. The source dereferences
   * the group without a check, so it is only called for a stored group.
   */
  function GroupPorts(groups: seq<Group>, id: nat): (r: seq<nat>)
    requires GroupExists(groups, id)
    ensures forall p :: p in r <==> exists b :: b in FindGroup(groups, id).value.buckets && OutputTo(p) in b.actions
  {
    BucketPorts(FindGroup(groups, id).value.buckets)
  }

  /** How the caller names a port: a bare number, or the `{port_no, flowType}` record. */
  datatype PortRef = PortNumber(n: nat) | PortRecord(portNo: nat, downstream: bool)

  /** True when some bucket of `g` outputs to the port `p` refers to (a Python `==` test). */
  ghost predicate OutputsTo(g: Group, p: PortRef)
  {
    exists b :: b in g.buckets && exists q :: OutputTo(q) in b.actions && p == PortNumber(q)
  }

  function OutputMatches(actions: seq<GroupAction>, p: PortRef): (r: nat)
    ensures r > 0 <==> exists q :: OutputTo(q) in actions && p == PortNumber(q)
  {
    if |actions| == 0 then 0
    else
      var rest := OutputMatches(actions[1..], p);
      assert forall a :: a in actions <==> a == actions[0] || a in actions[1..];
      (if actions[0].OutputTo? && p == PortNumber(actions[0].port) then 1 else 0) + rest
  }

  function BucketMatches(buckets: seq<Bucket>, p: PortRef): (r: nat)
    ensures r > 0 <==> exists b :: b in buckets && exists q :: OutputTo(q) in b.actions && p == PortNumber(q)
  {
    if |buckets| == 0 then 0
    else
      var rest := BucketMatches(buckets[1..], p);
      assert forall b :: b in buckets <==> b == buckets[0] || b in buckets[1..];
      OutputMatches(buckets[0].actions, p) + rest
  }

  function Repeat(x: nat, n: nat): (r: seq<nat>)
    ensures forall y :: y in r <==> n > 0 && y == x
  {
    if n == 0 then [] else [x] + Repeat(x, n - 1)
  }

  /** `get_groupsByPort(p)`: a group id once for every OUTPUT action to `p`. */
  function GroupsByPort(groups: seq<Group>, p: PortRef): (r: seq<nat>)
    ensures forall id :: id in r <==> exists g :: g in groups && g.groupId == id && OutputsTo(g, p)
  {
    if |groups| == 0 then []
    else
      var rest := GroupsByPort(groups[1..], p);
      assert forall g :: g in groups <==> g == groups[0] || g in groups[1..];
      Repeat(groups[0].groupId, BucketMatches(groups[0].buckets, p)) + rest
  }

  /** A record never equals a port number, so a record finds no group. */
  lemma RecordFindsNoGroup(groups: seq<Group>, portNo: nat, downstream: bool)
    ensures GroupsByPort(groups, PortRecord(portNo, downstream)) == []
  {
  }

  /**
   * `check_mcGroup`: an ALL group is accepted when some bucket outputs to a known port; other
   * buckets are not looked at.
   */
  function CheckMcGroup(g: Group, ports: seq<nat>): (b: bool)
    ensures b <==> g.groupType == All && exists p :: p in BucketPorts(g.buckets) && p in ports
  {
    g.groupType == All && AnyKnown(BucketPorts(g.buckets), ports)
  }

  function AnyKnown(candidates: seq<nat>, ports: seq<nat>): (b: bool)
    ensures b <==> exists p :: p in candidates && p in ports
  {
    if |candidates| == 0 then false
    else if candidates[0] in ports then true
    else
      var b := AnyKnown(candidates[1..], ports);
      assert forall p :: p in candidates <==> p == candidates[0] || p in candidates[1..];
      b
  }
}
