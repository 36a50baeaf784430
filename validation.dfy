/**
 * `check_flows`: the admission rules a decoded flow must pass before it is stored, and the
 * classification (direction and service type) the check writes into the flow record.
 */
module Validation {
  import opened Wrappers
  import opened Dicts
  import opened OpenFlow
  import MetersGroups

  /** What the check consults: the table count, the NNI port, the known ports and groups. */
  datatype Env = Env(
    switchTables: nat,
    nniPort: nat,
    ports: seq<nat>,
    groups: seq<MetersGroups.Group>)

  /** `portNo_exists(p)`: a scan of the announced ports. */
  method PortNoExists(ports: seq<nat>, p: nat) returns (b: bool)
    ensures b <==> p in ports
  {
    var i := 0;
    while i < |ports|
      invariant 0 <= i <= |ports|
      invariant p !in ports[..i]
    {
      if ports[i] == p {
        return true;
      }
      assert ports[..i + 1] == ports[..i] + [ports[i]];
      i := i + 1;
    }
    assert ports[..i] == ports;
    return false;
  }

  // ---------------------------------------------------------------- the reference rules

  function DirectionOf(env: Env, f: Flow): Direction
  {
    if f.matchFields.inPort == env.nniPort then Downstream else Upstream
  }

  /** UDP to (upstream) or from (downstream) the SIP port. */
  predicate IsSip(env: Env, f: Flow)
  {
    var m := f.matchFields;
    m.ipProto == Some(IP_PROTO_UDP)
    && (if DirectionOf(env, f) == Upstream then m.udpDst == Some(SIP_PORT) else m.udpSrc == Some(SIP_PORT))
  }

  /** A SIP flow must name the VoIP server: the destination upstream, the source downstream. */
  predicate HasSipServer(env: Env, f: Flow)
  {
    if DirectionOf(env, f) == Upstream then f.matchFields.ipv4Dst.Some? else f.matchFields.ipv4Src.Some?
  }

  /** The service type after the port step. */
  function TypeAfterPorts(env: Env, f: Flow): Option<ServiceType>
  {
    if IsSip(env, f) then Some(Voip) else f.serviceType
  }

  /** The service type the check settles on when it accepts. */
  function ServiceOf(env: Env, f: Flow): Option<ServiceType>
  {
    if HasInstr(f, GroupId) then Some(Multicast)
    else if HasInstr(f, OutPort) && TypeAfterPorts(env, f).None? then Some(Unicast)
    else TypeAfterPorts(env, f)
  }

  /** Every admission rule at once, in no particular order. */
  predicate Accepts(env: Env, f: Flow)
  {
    var ins := f.instructions;
    && f.tableId < env.switchTables
    && (DirectionOf(env, f) == Upstream ==> f.matchFields.inPort in env.ports)
    && (IsSip(env, f) ==> HasSipServer(env, f))
    && (HasInstr(f, GroupId) || HasInstr(f, OutPort) || HasInstr(f, GotoTable))
    && (HasInstr(f, GroupId) ==>
          TypeAfterPorts(env, f).None? && MetersGroups.GroupExists(env.groups, ins.m[GroupId]))
    && (!HasInstr(f, GroupId) && HasInstr(f, OutPort) ==>
          ins.m[OutPort] in env.ports && ins.m[OutPort] != f.matchFields.inPort)
    && (!HasInstr(f, GroupId) && !HasInstr(f, OutPort) && HasInstr(f, GotoTable) ==>
          f.tableId < ins.m[GotoTable] < env.switchTables)
  }

  // ---------------------------------------------------------------- the check

  /**
   * `check_flows(flowConfig)`: the tests in the source's order, with the early returns. `g` is
   * the flow record after the check has written into it.
   */
  method CheckFlows(env: Env, f: Flow) returns (ok: bool, g: Flow)
    ensures ok <==> Accepts(env, f)
    ensures ok ==> g == f.(flowType := Some(DirectionOf(env, f)), serviceType := ServiceOf(env, f))
    ensures g == f.(flowType := g.flowType, serviceType := g.serviceType)
    ensures f.tableId >= env.switchTables ==> !ok
    ensures DirectionOf(env, f) == Upstream && f.matchFields.inPort !in env.ports ==> !ok
    ensures HasInstr(f, GroupId) && !MetersGroups.GroupExists(env.groups, f.instructions.m[GroupId]) ==> !ok
    ensures HasInstr(f, GroupId) && IsSip(env, f) ==> !ok
    ensures !HasInstr(f, GroupId) && HasInstr(f, OutPort) && f.instructions.m[OutPort] == f.matchFields.inPort ==> !ok
    ensures !HasInstr(f, GroupId) && !HasInstr(f, OutPort) && HasInstr(f, GotoTable) ==>
      (f.instructions.m[GotoTable] <= f.tableId || f.instructions.m[GotoTable] >= env.switchTables ==> !ok)
    ensures !HasInstr(f, GroupId) && HasInstr(f, OutPort) && f.instructions.m[OutPort] !in env.ports ==> !ok
    ensures !HasInstr(f, GroupId) && !HasInstr(f, OutPort) && !HasInstr(f, GotoTable) ==> !ok
  {
    g := f;
    if f.tableId >= env.switchTables {
      return false, g;
    }
    var m := f.matchFields;
    if m.inPort != env.nniPort {
      var known := PortNoExists(env.ports, m.inPort);
      if !known {
        return false, g;
      }
      g := g.(flowType := Some(Upstream));
      if m.ipProto.Some? && m.ipProto.value == IP_PROTO_UDP {
        if m.udpDst.Some? && m.udpDst.value == SIP_PORT {
          g := g.(serviceType := Some(Voip));
          if m.ipv4Dst.None? {
            return false, g;
          }
        }
      }
    } else {
      g := g.(flowType := Some(Downstream));
      if m.ipProto.Some? && m.ipProto.value == IP_PROTO_UDP {
        if m.udpSrc.Some? && m.udpSrc.value == SIP_PORT {
          g := g.(serviceType := Some(Voip));
          if m.ipv4Src.None? {
            return false, g;
          }
        }
      }
    }
    var ins := f.instructions;
    if GroupId in ins.m {
      if g.serviceType.Some? {
        return false, g;
      }
      g := g.(serviceType := Some(Multicast));
      if !MetersGroups.GroupExists(env.groups, ins.m[GroupId]) {
        return false, g;
      }
    } else if OutPort in ins.m {
      if g.serviceType.None? {
        g := g.(serviceType := Some(Unicast));
      }
      var outKnown := PortNoExists(env.ports, ins.m[OutPort]);
      if outKnown {
        if m.inPort == ins.m[OutPort] {
          return false, g;
        }
      } else {
        return false, g;
      }
    } else if GotoTable in ins.m {
      if ins.m[GotoTable] <= f.tableId || ins.m[GotoTable] >= env.switchTables {
        return false, g;
      }
    } else {
      return false, g;
    }
    return true, g;
  }

  // ---------------------------------------------------------------- properties

  /**
   * For a freshly decoded flow that is accepted: it is downstream exactly when it enters on the
   * NNI port; it is multicast exactly when it has a group (and is then not SIP), VoIP exactly when
   * it is SIP (it then names its server), unicast exactly when it outputs without a group and is
   * not SIP, and unclassified only when it merely continues to another table.
   */
  lemma AcceptedClassification(env: Env, f: Flow)
    requires f.serviceType.None?
    requires Accepts(env, f)
    ensures (DirectionOf(env, f) == Downstream) <==> f.matchFields.inPort == env.nniPort
    ensures ServiceOf(env, f) == Some(Multicast) <==> HasInstr(f, GroupId)
    ensures HasInstr(f, GroupId) ==> !IsSip(env, f)
    ensures ServiceOf(env, f) == Some(Voip) <==> IsSip(env, f)
    ensures IsSip(env, f) ==> HasSipServer(env, f)
    ensures ServiceOf(env, f) == Some(Unicast) <==> !HasInstr(f, GroupId) && HasInstr(f, OutPort) && !IsSip(env, f)
    ensures ServiceOf(env, f).None? ==>
      !HasInstr(f, GroupId) && !HasInstr(f, OutPort) && HasInstr(f, GotoTable)
  {
  }
}
