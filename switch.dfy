/**
 * `ONOSAdaptor`: the switch side of the OpenFlow session. It owns the flow store, the meter and
 * group lists, the three statistics lists, the announced ports, the flow-mod copies and the queue
 * of flow events handed to the OLT side, and applies controller messages to them.
 */
module Switch {
  import opened Wrappers
  import opened Dicts
  import opened OpenFlow
  import opened FlowStore
  import MetersGroups
  import FlowDecode
  import Validation
  import opened Stats

  // ---------------------------------------------------------------- role requests

  /** `ofp_controller_role` of section 7.3.9 of the OpenFlow Switch Specification 1.3. */
  datatype Role = NoChange | Equal | Master | Slave

  datatype RoleReplyMsg = RoleReplyMsg(role: Role, generationId: nat)

  /** The reply sent and the role the caller keeps afterwards. */
  datatype RoleStep = RoleStep(reply: RoleReplyMsg, stored: Role)

  /**
   * `send_OFPT_ROLE_REPLY`: a NOCHANGE request before any role is known answers EQUAL (with the
   * default generation id 0) and keeps it; a later NOCHANGE echoes the kept role; any other role
   * is adopted and echoed.
   */
  function RoleReply(role: Role, generationId: nat, stored: Option<Role>): (r: RoleStep)
    ensures r.reply.role == r.stored
    ensures stored != Some(NoChange) ==> r.stored != NoChange
    ensures role != NoChange ==> r.stored == role && r.reply.generationId == generationId
    ensures role == NoChange && stored.Some? ==> r.stored == stored.value && r.reply.generationId == generationId
    ensures role == NoChange && stored.None? ==> r == RoleStep(RoleReplyMsg(Equal, 0), Equal)
  {
    if role == NoChange && stored.None? then RoleStep(RoleReplyMsg(Equal, 0), Equal)
    else if role == NoChange then RoleStep(RoleReplyMsg(stored.value, generationId), stored.value)
    else RoleStep(RoleReplyMsg(role, generationId), role)
  }

  /** The role kept after a sequence of requests (generation ids do not affect it). */
  function RoleAfter(reqs: seq<Role>, init: Option<Role>): Option<Role>
    decreases |reqs|
  {
    if |reqs| == 0 then init
    else Some(RoleReply(reqs[|reqs| - 1], 0, RoleAfter(reqs[..|reqs| - 1], init)).stored)
  }

  /** The position of the last request that names a role. */
  function LastChange(reqs: seq<Role>): (r: Option<nat>)
    ensures r.Some? ==> r.value < |reqs| && reqs[r.value] != NoChange
    ensures r.Some? ==> forall j :: r.value < j < |reqs| ==> reqs[j] == NoChange
    ensures r.None? <==> forall j :: 0 <= j < |reqs| ==> reqs[j] == NoChange
    decreases |reqs|
  {
    if |reqs| == 0 then None
    else if reqs[|reqs| - 1] != NoChange then Some(|reqs| - 1)
    else
      var r := LastChange(reqs[..|reqs| - 1]);
      assert forall j :: 0 <= j < |reqs| - 1 ==> reqs[..|reqs| - 1][j] == reqs[j];
      r
  }

  /**
   * Starting with no role, the kept role after a non-empty sequence of requests is the last role
   * named, or EQUAL when only NOCHANGE was ever asked.
   */
  lemma {:induction false} RoleAfterLastChange(reqs: seq<Role>)
    requires |reqs| > 0
    ensures LastChange(reqs).Some? ==> RoleAfter(reqs, None) == Some(reqs[LastChange(reqs).value])
    ensures LastChange(reqs).None? ==> RoleAfter(reqs, None) == Some(Equal)
    decreases |reqs|
  {
    var n := |reqs|;
    var front := reqs[..n - 1];
    assert forall j :: 0 <= j < n - 1 ==> front[j] == reqs[j];
    if reqs[n - 1] == NoChange {
      if n == 1 {
        assert RoleAfter(front, None) == None;
      } else {
        RoleAfterLastChange(front);
        assert LastChange(reqs) == LastChange(front);
      }
    }
  }

  // ---------------------------------------------------------------- messages and queue

  datatype FlowModCommand = FlowAdd | FlowModify | FlowModifyStrict | FlowDelete | FlowDeleteStrict

  predicate IsDelete(cmd: FlowModCommand)
  {
    cmd == FlowDelete || cmd == FlowDeleteStrict
  }

  datatype MeterModCommand = MeterAdd | MeterModify | MeterDelete

  datatype GroupModCommand = GroupAdd | GroupModify | GroupDelete

  /** A flow event queued for the OLT side: `Flow(flow_id, flow_action)`. */
  datatype QueuedFlow = QueuedFlow(flowId: nat, command: FlowModCommand)

  datatype PortReason = PortAdded | PortModified

  /** The statistics entry a FLOW_MOD add creates: zero counters and the message's instructions. */
  function StatsOf(fm: FlowDecode.FlowMod): FlowStat
  {
    FlowStat(fm.cookie, 0, 0, 0, fm.instructions)
  }

  /** The flow statistics after the first step of a FLOW_MOD that is not a delete. */
  function Stamped(entries: seq<FlowStat>, cmd: FlowModCommand, fm: FlowDecode.FlowMod): seq<FlowStat>
  {
    if cmd == FlowAdd then entries + [StatsOf(fm)] else entries
  }

  function StampedTimes(times: map<nat, int>, cmd: FlowModCommand, fm: FlowDecode.FlowMod, now: int)
    : map<nat, int>
  {
    if cmd == FlowAdd then times[fm.cookie := now] else times
  }

  /** The flow as `check_flows` leaves it when it accepts: direction and service type written in. */
  function Classified(env: Validation.Env, f: Flow): Flow
  {
    f.(flowType := Some(Validation.DirectionOf(env, f)), serviceType := Validation.ServiceOf(env, f))
  }

  /** Zero counters, one per band or bucket. */
  function Zeros(n: nat): seq<BandStat>
  {
    seq(n, _ => BandStat(0, 0))
  }

  /** `for i in range(n): l.append(BandStats(0, 0))`. */
  method ZeroCounters(n: nat) returns (r: seq<BandStat>)
    ensures r == Zeros(n)
  {
    r := [];
    var i := 0;
    while i < n
      invariant 0 <= i <= n
      invariant r == Zeros(i)
    {
      r := r + [BandStat(0, 0)];
      i := i + 1;
    }
  }

  /** Every flow in the store has been through `check_flows`, so it carries a direction. */
  ghost predicate AllClassified(st: Store)
  {
    forall t, f :: t in st.m && f in st.m[t] ==> f.flowType.Some?
  }

  /** Every meter a stored flow names is in the meter list. */
  ghost predicate MetersCovered(st: Store, meters: seq<MetersGroups.Meter>)
  {
    forall t, f :: t in st.m && f in st.m[t] && MeterId in f.instructions.m ==>
      MetersGroups.FindMeter(meters, f.instructions.m[MeterId]).Some?
  }

  /** Every group a stored flow names is in the group list. */
  ghost predicate GroupsCovered(st: Store, groups: seq<MetersGroups.Group>)
  {
    forall t, f :: t in st.m && f in st.m[t] && GroupId in f.instructions.m ==>
      MetersGroups.GroupExists(groups, f.instructions.m[GroupId])
  }

  /**
   * The METER_MOD delete guard keeps every meter a stored flow names: a meter still in use is not
   * removed, and removing an unused one takes nothing a flow refers to.
   */
  lemma MeterGuardKeepsReferences(st: Store, meters: seq<MetersGroups.Meter>, id: nat)
    requires st.Valid()
    requires MetersCovered(st, meters)
    ensures MetersCovered(st, if AttachedMeter(st, id) then meters else MetersGroups.RemoveMeter(meters, id))
  {
    if !AttachedMeter(st, id) {
      var rest := MetersGroups.RemoveMeter(meters, id);
      forall t, f | t in st.m && f in st.m[t] && MeterId in f.instructions.m
        ensures MetersGroups.FindMeter(rest, f.instructions.m[MeterId]).Some?
      {
        var x := f.instructions.m[MeterId];
        assert Instr(f, MeterId) == Some(x);
        assert x != id;
        var m := MetersGroups.FindMeter(meters, x).value;
        assert m in rest;
      }
    }
  }

  /** The GROUP_MOD delete guard keeps every group a stored flow names. */
  lemma GroupGuardKeepsReferences(st: Store, groups: seq<MetersGroups.Group>, id: nat)
    requires st.Valid()
    requires GroupsCovered(st, groups)
    ensures GroupsCovered(st, if AttachedGroup(st, id) then groups else MetersGroups.RemoveGroup(groups, id))
  {
    if !AttachedGroup(st, id) {
      var rest := MetersGroups.RemoveGroup(groups, id);
      forall t, f | t in st.m && f in st.m[t] && GroupId in f.instructions.m
        ensures MetersGroups.GroupExists(rest, f.instructions.m[GroupId])
      {
        var x := f.instructions.m[GroupId];
        assert Instr(f, GroupId) == Some(x);
        assert x != id;
        var g := MetersGroups.FindGroup(groups, x).value;
        assert g in rest;
      }
    }
  }

  /**
   * A rejected FLOW_MOD add of a fresh cookie leaves the flow statistics as they were: the entry
   * stamped first is the one removed again, and nothing raises.
   */
  lemma RejectedAddLeavesStats(entries: seq<FlowStat>, times: map<nat, int>, fm: FlowDecode.FlowMod, now: int)
    requires FindIndex(entries, CookieOf, fm.cookie).None?
    requires fm.cookie !in times
    ensures DeletedEntries(Stamped(entries, FlowAdd, fm), CookieOf, fm.cookie) == entries
    ensures DeletedTimes(Stamped(entries, FlowAdd, fm), CookieOf, fm.cookie, StampedTimes(times, FlowAdd, fm, now)) == times
    ensures DeleteOutcome(Stamped(entries, FlowAdd, fm), CookieOf, fm.cookie, StampedTimes(times, FlowAdd, fm, now)) == Done
  {
    DeleteUndoesAppend(entries, StatsOf(fm), CookieOf, times, now);
  }

  /** Removing the first flow with a cookie keeps only flows that were there. */
  lemma RemoveFirstCookieSubset(fl: seq<Flow>, cookie: nat)
    ensures forall g :: g in RemoveFirstCookie(fl, cookie) ==> g in fl
  {
    if ContainsCookie(fl, cookie) {
      var i := FirstCookieIndex(fl, cookie);
      assert forall g :: g in fl[..i] + fl[i + 1..] ==> g in fl;
    }
  }

  // ---------------------------------------------------------------- the adaptor

  class Adaptor {
    const switchTables: nat
    const nniPort: nat
    var flows: FlowTable
    var flowStats: FlowStatsList
    var meterStats: MeterStatsList
    var groupStats: GroupStatsList
    var meters: seq<MetersGroups.Meter>
    var groups: seq<MetersGroups.Group>
    var ports: seq<nat>
    var flowMods: map<nat, FlowDecode.FlowMod>
    var queue: seq<QueuedFlow>

    ghost predicate Valid()
      reads this, flows
    {
      flows.Valid() && AllClassified(flows.store)
    }

    /** What `check_flows` consults. */
    function Env(): Validation.Env
      reads this
    {
      Validation.Env(switchTables, nniPort, ports, groups)
    }

    /**
     * `__init__` together with the set-up at the head of the session loop: every list starts
     * empty except the port list, which announces the NNI port 0x14 before any message is read.
     */
    constructor (switchTables: nat)
      ensures Valid()
      ensures this.switchTables == switchTables && nniPort == 0x14
      ensures fresh(flows) && fresh(flowStats) && fresh(meterStats) && fresh(groupStats)
      ensures flows.store == Dict(map[], [])
      ensures flowStats.entries == [] && meterStats.entries == [] && groupStats.entries == []
      ensures meters == [] && groups == [] && ports == [nniPort] && flowMods == map[] && queue == []
    {
      this.switchTables := switchTables;
      nniPort := 0x14;
      flows := new FlowTable();
      flowStats := new FlowStatsList();
      meterStats := new MeterStatsList();
      groupStats := new GroupStatsList();
      meters := [];
      groups := [];
      ports := [nniPort];
      flowMods := map[];
      queue := [];
    }

    /**
     * `get_OFPT_FLOW_MOD`. A delete of a stored flow is queued for the OLT side, a delete of an
     * unknown one drops its statistics. Otherwise an add first creates the statistics entry; a
     * message that does not decode stops there (the entry stays); a rejected flow drops the first
     * statistics entry with its cookie; an accepted one is classified, stored, kept and queued. A
     * MODIFY goes the same way without the statistics entry.
     */
    method FlowMod(fm: FlowDecode.FlowMod, cmd: FlowModCommand, now: int) returns (r: Outcome)
      requires Valid()
      modifies this, flows, flowStats
      ensures Valid()
      ensures flows == old(flows) && flowStats == old(flowStats)
      ensures meters == old(meters) && groups == old(groups) && ports == old(ports)
      ensures IsDelete(cmd) && old(Exist(flows.store, fm.cookie, fm.tableId)) ==>
        && r == Done && queue == old(queue) + [QueuedFlow(fm.cookie, cmd)]
        && flows.store == old(flows.store) && flowMods == old(flowMods)
        && flowStats.entries == old(flowStats.entries) && flowStats.startTime == old(flowStats.startTime)
      ensures IsDelete(cmd) && !old(Exist(flows.store, fm.cookie, fm.tableId)) ==>
        && queue == old(queue) && flows.store == old(flows.store) && flowMods == old(flowMods)
        && flowStats.entries == DeletedEntries(old(flowStats.entries), CookieOf, fm.cookie)
        && flowStats.startTime == DeletedTimes(old(flowStats.entries), CookieOf, fm.cookie, old(flowStats.startTime))
        && r == DeleteOutcome(old(flowStats.entries), CookieOf, fm.cookie, old(flowStats.startTime))
      ensures !IsDelete(cmd) && FlowDecode.DecodeFlow(fm).None? ==>
        && r == Done && queue == old(queue) && flows.store == old(flows.store) && flowMods == old(flowMods)
        && flowStats.entries == Stamped(old(flowStats.entries), cmd, fm)
        && flowStats.startTime == StampedTimes(old(flowStats.startTime), cmd, fm, now)
      ensures !IsDelete(cmd) && FlowDecode.DecodeFlow(fm).Some?
              && !Validation.Accepts(old(Env()), FlowDecode.DecodeFlow(fm).value) ==>
        && queue == old(queue) && flows.store == old(flows.store) && flowMods == old(flowMods)
        && var stamped := Stamped(old(flowStats.entries), cmd, fm);
           var times := StampedTimes(old(flowStats.startTime), cmd, fm, now);
           && flowStats.entries == DeletedEntries(stamped, CookieOf, fm.cookie)
           && flowStats.startTime == DeletedTimes(stamped, CookieOf, fm.cookie, times)
           && r == DeleteOutcome(stamped, CookieOf, fm.cookie, times)
      ensures !IsDelete(cmd) && FlowDecode.DecodeFlow(fm).Some?
              && Validation.Accepts(old(Env()), FlowDecode.DecodeFlow(fm).value) ==>
        && r == Done
        && flowStats.entries == Stamped(old(flowStats.entries), cmd, fm)
        && flowStats.startTime == StampedTimes(old(flowStats.startTime), cmd, fm, now)
        && var g := Classified(old(Env()), FlowDecode.DecodeFlow(fm).value);
           && flows.store.m == old(flows.store.m)[fm.tableId := old(TableFlows(flows.store, fm.tableId)) + [g]]
           && flows.store.order == (if fm.tableId in old(flows.store.m) then old(flows.store.order)
                                    else old(flows.store.order) + [fm.tableId])
           && flowMods == old(flowMods)[fm.cookie := fm]
           && queue == old(queue) + [QueuedFlow(fm.cookie, cmd)]
    {
      if IsDelete(cmd) {
        r := FlowModDelete(fm, cmd);
      } else {
        r := FlowModInstall(fm, cmd, now);
      }
    }

    /** The delete branch of `get_OFPT_FLOW_MOD`. */
    method FlowModDelete(fm: FlowDecode.FlowMod, cmd: FlowModCommand) returns (r: Outcome)
      requires Valid()
      modifies this, flowStats
      ensures Valid()
      ensures flows == old(flows) && flowStats == old(flowStats) && flows.store == old(flows.store)
      ensures meters == old(meters) && groups == old(groups) && ports == old(ports) && flowMods == old(flowMods)
      ensures old(Exist(flows.store, fm.cookie, fm.tableId)) ==>
        && r == Done && queue == old(queue) + [QueuedFlow(fm.cookie, cmd)]
        && flowStats.entries == old(flowStats.entries) && flowStats.startTime == old(flowStats.startTime)
      ensures !old(Exist(flows.store, fm.cookie, fm.tableId)) ==>
        && queue == old(queue)
        && flowStats.entries == DeletedEntries(old(flowStats.entries), CookieOf, fm.cookie)
        && flowStats.startTime == DeletedTimes(old(flowStats.entries), CookieOf, fm.cookie, old(flowStats.startTime))
        && r == DeleteOutcome(old(flowStats.entries), CookieOf, fm.cookie, old(flowStats.startTime))
    {
      if Exist(flows.store, fm.cookie, fm.tableId) {
        queue := queue + [QueuedFlow(fm.cookie, cmd)];
        return Done;
      }
      r := flowStats.Delete(fm.cookie);
    }

    /** The add and modify branch of `get_OFPT_FLOW_MOD`: statistics, decoding, then admission. */
    method FlowModInstall(fm: FlowDecode.FlowMod, cmd: FlowModCommand, now: int) returns (r: Outcome)
      requires Valid()
      requires !IsDelete(cmd)
      modifies this, flows, flowStats
      ensures Valid()
      ensures flows == old(flows) && flowStats == old(flowStats)
      ensures meters == old(meters) && groups == old(groups) && ports == old(ports)
      ensures FlowDecode.DecodeFlow(fm).None? ==>
        && r == Done && queue == old(queue) && flows.store == old(flows.store) && flowMods == old(flowMods)
        && flowStats.entries == Stamped(old(flowStats.entries), cmd, fm)
        && flowStats.startTime == StampedTimes(old(flowStats.startTime), cmd, fm, now)
      ensures FlowDecode.DecodeFlow(fm).Some? && !Validation.Accepts(old(Env()), FlowDecode.DecodeFlow(fm).value) ==>
        && queue == old(queue) && flows.store == old(flows.store) && flowMods == old(flowMods)
        && var stamped := Stamped(old(flowStats.entries), cmd, fm);
           var times := StampedTimes(old(flowStats.startTime), cmd, fm, now);
           && flowStats.entries == DeletedEntries(stamped, CookieOf, fm.cookie)
           && flowStats.startTime == DeletedTimes(stamped, CookieOf, fm.cookie, times)
           && r == DeleteOutcome(stamped, CookieOf, fm.cookie, times)
      ensures FlowDecode.DecodeFlow(fm).Some? && Validation.Accepts(old(Env()), FlowDecode.DecodeFlow(fm).value) ==>
        && r == Done
        && flowStats.entries == Stamped(old(flowStats.entries), cmd, fm)
        && flowStats.startTime == StampedTimes(old(flowStats.startTime), cmd, fm, now)
        && var g := Classified(old(Env()), FlowDecode.DecodeFlow(fm).value);
           && flows.store.m == old(flows.store.m)[fm.tableId := old(TableFlows(flows.store, fm.tableId)) + [g]]
           && flows.store.order == (if fm.tableId in old(flows.store.m) then old(flows.store.order)
                                    else old(flows.store.order) + [fm.tableId])
           && flowMods == old(flowMods)[fm.cookie := fm]
           && queue == old(queue) + [QueuedFlow(fm.cookie, cmd)]
    {
      if cmd == FlowAdd {
        flowStats.Append(StatsOf(fm), now);
      }
      var decoded := FlowDecode.GetFlowParameters(fm);
      if decoded.None? {
        return Done;
      }
      FlowDecode.DecodeFields(fm);
      r := Admit(decoded.value, fm, cmd);
    }

    /** `check_flows` and what follows it for a decoded flow `f` of the message `fm`. */
    method Admit(f: Flow, fm: FlowDecode.FlowMod, cmd: FlowModCommand) returns (r: Outcome)
      requires Valid()
      requires f.instructions.Valid() && f.flowId == fm.cookie && f.tableId == fm.tableId
      modifies this, flows, flowStats
      ensures Valid()
      ensures flows == old(flows) && flowStats == old(flowStats)
      ensures meters == old(meters) && groups == old(groups) && ports == old(ports)
      ensures !Validation.Accepts(old(Env()), f) ==>
        && queue == old(queue) && flows.store == old(flows.store) && flowMods == old(flowMods)
        && flowStats.entries == DeletedEntries(old(flowStats.entries), CookieOf, fm.cookie)
        && flowStats.startTime == DeletedTimes(old(flowStats.entries), CookieOf, fm.cookie, old(flowStats.startTime))
        && r == DeleteOutcome(old(flowStats.entries), CookieOf, fm.cookie, old(flowStats.startTime))
      ensures Validation.Accepts(old(Env()), f) ==>
        && r == Done
        && flowStats.entries == old(flowStats.entries) && flowStats.startTime == old(flowStats.startTime)
        && flows.store.m == old(flows.store.m)[fm.tableId := old(TableFlows(flows.store, fm.tableId)) + [Classified(old(Env()), f)]]
        && flows.store.order == (if fm.tableId in old(flows.store.m) then old(flows.store.order)
                                 else old(flows.store.order) + [fm.tableId])
        && flowMods == old(flowMods)[fm.cookie := fm]
        && queue == old(queue) + [QueuedFlow(fm.cookie, cmd)]
    {
      var ok, g := Validation.CheckFlows(Env(), f);
      if !ok {
        r := flowStats.Delete(g.flowId);
        return;
      }
      ghost var st0 := flows.store;
      flows.Append(g);
      assert AllClassified(flows.store) by {
        forall t, h | t in flows.store.m && h in flows.store.m[t]
          ensures h.flowType.Some?
        {
          if t != g.tableId || h != g {
            assert t in st0.m && h in st0.m[t];
          }
        }
      }
      flowMods := flowMods[fm.cookie := fm];
      queue := queue + [QueuedFlow(fm.cookie, cmd)];
      return Done;
    }

    /**
     * `delete_flow(cookie)`: an unknown cookie changes nothing; otherwise the first flow with it
     * goes from its table and its statistics entry is dropped.
     */
    method DeleteFlow(cookie: nat) returns (r: Outcome)
      requires Valid()
      modifies flows, flowStats
      ensures Valid()
      ensures GetFlow(old(flows.store), cookie).None? ==>
        r == Done && flows.store == old(flows.store)
        && flowStats.entries == old(flowStats.entries) && flowStats.startTime == old(flowStats.startTime)
      ensures GetFlow(old(flows.store), cookie).Some? ==>
        var t := GetFlow(old(flows.store), cookie).value.tableId;
        && flows.store == old(flows.store).(m := old(flows.store.m)[t := RemoveFirstCookie(old(flows.store.m[t]), cookie)])
        && flowStats.entries == DeletedEntries(old(flowStats.entries), CookieOf, cookie)
        && flowStats.startTime == DeletedTimes(old(flowStats.entries), CookieOf, cookie, old(flowStats.startTime))
        && r == DeleteOutcome(old(flowStats.entries), CookieOf, cookie, old(flowStats.startTime))
    {
      var f := GetFlow(flows.store, cookie);
      if f.None? {
        return Done;
      }
      var t := f.value.tableId;
      assert Exist(flows.store, cookie, t);
      ghost var fl := flows.store.m[t];
      var found := flows.Delete(cookie, t);
      RemoveFirstCookieSubset(fl, cookie);
      r := flowStats.Delete(cookie);
    }

    /**
     * `get_OFPT_METER_MOD`. An add creates zeroed statistics, one counter pair per band, and keeps
     * the meter. A delete of a meter no stored flow names drops its statistics, then every meter
     * with that id (the statistics' `KeyError` stops it before the second step); a meter in use is
     * kept. Any other command changes nothing.
     */
    method MeterMod(cmd: MeterModCommand, meter: MetersGroups.Meter, now: int) returns (r: Outcome)
      requires Valid()
      modifies this, meterStats
      ensures Valid()
      ensures flows == old(flows) && meterStats == old(meterStats) && flowStats == old(flowStats)
      ensures groups == old(groups) && ports == old(ports) && queue == old(queue) && flowMods == old(flowMods)
      ensures cmd == MeterAdd ==>
        && r == Done
        && meterStats.entries == old(meterStats.entries) + [MeterStat(meter.meterId, 0, 0, 0, Zeros(|meter.bands|))]
        && meterStats.startTime == old(meterStats.startTime)[meter.meterId := now]
        && meters == old(meters) + [meter]
      ensures cmd == MeterDelete && AttachedMeter(flows.store, meter.meterId) ==>
        r == Done && meters == old(meters)
        && meterStats.entries == old(meterStats.entries) && meterStats.startTime == old(meterStats.startTime)
      ensures cmd == MeterDelete && !AttachedMeter(flows.store, meter.meterId) ==>
        && meterStats.entries == DeletedEntries(old(meterStats.entries), MeterIdOf, meter.meterId)
        && meterStats.startTime == DeletedTimes(old(meterStats.entries), MeterIdOf, meter.meterId, old(meterStats.startTime))
        && r == DeleteOutcome(old(meterStats.entries), MeterIdOf, meter.meterId, old(meterStats.startTime))
        && meters == (if r == KeyError then old(meters) else MetersGroups.RemoveMeter(old(meters), meter.meterId))
      ensures cmd == MeterModify ==>
        r == Done && meters == old(meters)
        && meterStats.entries == old(meterStats.entries) && meterStats.startTime == old(meterStats.startTime)
    {
      if cmd == MeterAdd {
        var bands := ZeroCounters(|meter.bands|);
        meterStats.Append(MeterStat(meter.meterId, 0, 0, 0, bands), now);
        meters := meters + [meter];
        return Done;
      }
      if cmd == MeterDelete && !AttachedMeter(flows.store, meter.meterId) {
        r := meterStats.Delete(meter.meterId);
        if r == KeyError {
          return;
        }
        meters := MetersGroups.RemoveMeter(meters, meter.meterId);
        return;
      }
      return Done;
    }

    /**
     * `get_OFPT_GROUP_MOD`. A delete is guarded like a meter delete. An add of a group that
     * `check_mcGroup` accepts creates zeroed statistics, one counter pair per bucket, and keeps the
     * group; a rejected add and any other command change nothing.
     */
    method GroupMod(cmd: GroupModCommand, group: MetersGroups.Group, now: int) returns (r: Outcome)
      requires Valid()
      modifies this, groupStats
      ensures Valid()
      ensures flows == old(flows) && groupStats == old(groupStats) && flowStats == old(flowStats)
      ensures meters == old(meters) && ports == old(ports) && queue == old(queue) && flowMods == old(flowMods)
      ensures cmd == GroupAdd && MetersGroups.CheckMcGroup(group, old(ports)) ==>
        && r == Done
        && groupStats.entries == old(groupStats.entries) + [GroupStat(group.groupId, 0, 0, 0, Zeros(|group.buckets|))]
        && groupStats.startTime == old(groupStats.startTime)[group.groupId := now]
        && groups == old(groups) + [group]
      ensures (cmd == GroupAdd && !MetersGroups.CheckMcGroup(group, old(ports))) || cmd == GroupModify
              || (cmd == GroupDelete && AttachedGroup(flows.store, group.groupId)) ==>
        r == Done && groups == old(groups)
        && groupStats.entries == old(groupStats.entries) && groupStats.startTime == old(groupStats.startTime)
      ensures cmd == GroupDelete && !AttachedGroup(flows.store, group.groupId) ==>
        && groupStats.entries == DeletedEntries(old(groupStats.entries), GroupIdOf, group.groupId)
        && groupStats.startTime == DeletedTimes(old(groupStats.entries), GroupIdOf, group.groupId, old(groupStats.startTime))
        && r == DeleteOutcome(old(groupStats.entries), GroupIdOf, group.groupId, old(groupStats.startTime))
        && groups == (if r == KeyError then old(groups) else MetersGroups.RemoveGroup(old(groups), group.groupId))
    {
      if cmd == GroupDelete {
        if !AttachedGroup(flows.store, group.groupId) {
          r := groupStats.Delete(group.groupId);
          if r == KeyError {
            return;
          }
          groups := MetersGroups.RemoveGroup(groups, group.groupId);
          return;
        }
        return Done;
      } else if cmd != GroupAdd {
        return Done;
      }
      if !MetersGroups.CheckMcGroup(group, ports) {
        return Done;
      }
      var buckets := ZeroCounters(|group.buckets|);
      groupStats.Append(GroupStat(group.groupId, 0, 0, 0, buckets), now);
      groups := groups + [group];
      return Done;
    }

    /** `send_OFPT_PORT_STATUS(port)`: MODIFY for a port already announced, else ADD; then it is kept. */
    method PortStatus(portNo: nat) returns (reason: PortReason)
      modifies this
      ensures reason == (if portNo in old(ports) then PortModified else PortAdded)
      ensures ports == old(ports) + [portNo]
      ensures flows == old(flows) && meters == old(meters) && groups == old(groups)
      ensures queue == old(queue) && flowMods == old(flowMods)
      ensures flowStats == old(flowStats) && meterStats == old(meterStats) && groupStats == old(groupStats)
    {
      var known := Validation.PortNoExists(ports, portNo);
      reason := if known then PortModified else PortAdded;
      ports := ports + [portNo];
    }

    /**
     * `update_Flow_statistics(cookie, p, b, ts)`: the meter is looked up first, then the flow's
     * counters are updated and, when the flow names a meter, that meter's (a `KeyError` of the
     * flow's update stops it before the meter).
     */
    method UpdateFlowStatistics(cookie: nat, p: int, b: int, ts: int) returns (r: Outcome)
      modifies flowStats, meterStats
      ensures flowStats.startTime == old(flowStats.startTime) && meterStats.startTime == old(meterStats.startTime)
      ensures flowStats.entries == UpdatedFlows(old(flowStats.entries), old(flowStats.startTime), cookie, p, b, ts)
      ensures var m := AssociatedMeterOf(old(flowStats.entries), cookie);
        if cookie !in old(flowStats.startTime) then
          r == KeyError && meterStats.entries == old(meterStats.entries)
        else if m.None? then
          r == Done && meterStats.entries == old(meterStats.entries)
        else
          && meterStats.entries == UpdatedMeters(old(meterStats.entries), old(meterStats.startTime), m.value, p, b, ts)
          && r == MeterUpdateOutcome(old(meterStats.entries), old(meterStats.startTime), m.value)
    {
      var m := flowStats.AssociatedMeter(cookie);
      r := flowStats.UpdateStatistics(cookie, p, b, ts);
      if r == KeyError {
        return;
      }
      if m.Some? {
        r := meterStats.UpdateStatistics(m.value, p, b, ts);
      }
    }
  }
}
