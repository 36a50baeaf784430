/**
 * `getFlowParameters`: a decoded FLOW_MOD message (OpenFlow Switch Specification 1.3, section
 * 7.3.4.1) turned into the flat flow record the store keeps. The match fields are read in order,
 * a VLAN id without OFPVID_PRESENT rejects the message, and the instruction list is flattened into
 * one dictionary.
 */
module FlowDecode {
  import opened Wrappers
  import opened Dicts
  import opened OpenFlow

  /** An OXM match field, with its value already read as a big-endian integer. */
  datatype Oxm =
    | InPortOxm(port: nat)
    | VlanVidOxm(raw: nat)
    | IpProtoOxm(proto: nat)
    | UdpSrcOxm(udpPort: nat)
    | UdpDstOxm(udpPort: nat)
    | Ipv4SrcOxm(addr: nat)
    | Ipv4DstOxm(addr: nat)
    | OtherOxm

  datatype Action =
    | PopVlanAction
    | PushVlanAction
    | SetFieldAction(field: Oxm)
    | OutputAction(outPort: nat)
    | GroupAction(groupId: nat)
    | OtherAction

  datatype OfInstruction =
    | ApplyActions(actions: seq<Action>)
    | GotoTableInstr(table: nat)
    | MeterInstr(meter: nat)
    | OtherInstr

  datatype FlowMod = FlowMod(
    cookie: nat,
    tableId: nat,
    priority: nat,
    oxms: seq<Oxm>,
    instructions: seq<OfInstruction>)

  // ---------------------------------------------------------------- VLAN ids

  /** `v & OFPVID_PRESENT == OFPVID_PRESENT`: bit 12 is set. */
  predicate HasPresent(v: nat)
  {
    (v / OFPVID_PRESENT) % 2 == 1
  }

  /** `v ^ OFPVID_PRESENT`: bit 12 flipped. */
  function XorPresent(v: nat): (r: nat)
    ensures HasPresent(r) <==> !HasPresent(v)
    ensures r / (2 * OFPVID_PRESENT) == v / (2 * OFPVID_PRESENT)
    ensures r % OFPVID_PRESENT == v % OFPVID_PRESENT
  {
    PresentBit(v);
    if HasPresent(v) then
      ShiftWithinBlock(v, -(OFPVID_PRESENT as int));
      PresentBit(v - OFPVID_PRESENT);
      v - OFPVID_PRESENT
    else
      ShiftWithinBlock(v, OFPVID_PRESENT);
      PresentBit(v + OFPVID_PRESENT);
      v + OFPVID_PRESENT
  }

  /** Bit 12 is set exactly when the remainder modulo 2^13 reaches 2^12. */
  lemma PresentBit(v: nat)
    ensures HasPresent(v) <==> v % (2 * OFPVID_PRESENT) >= OFPVID_PRESENT
    ensures v % OFPVID_PRESENT == (v % (2 * OFPVID_PRESENT)) % OFPVID_PRESENT
  {
    var hi, lo := v / (2 * OFPVID_PRESENT), v % (2 * OFPVID_PRESENT);
    assert v == hi * (2 * OFPVID_PRESENT) + lo;
    assert v / OFPVID_PRESENT == 2 * hi + lo / OFPVID_PRESENT;
    assert v % OFPVID_PRESENT == lo % OFPVID_PRESENT;
  }

  /** Moving within one block of 2^13 keeps the block and moves the remainder. */
  lemma ShiftWithinBlock(v: nat, s: int)
    requires 0 <= v % (2 * OFPVID_PRESENT) + s < 2 * OFPVID_PRESENT
    ensures v + s >= 0
    ensures (v + s) / (2 * OFPVID_PRESENT) == v / (2 * OFPVID_PRESENT)
    ensures (v + s) % (2 * OFPVID_PRESENT) == v % (2 * OFPVID_PRESENT) + s
  {
  }

  /** How a controller writes a VLAN id on the wire. */
  function EncodeVid(vid: nat): nat
  {
    vid + OFPVID_PRESENT
  }

  lemma XorPresentInvolution(v: nat)
    ensures XorPresent(XorPresent(v)) == v
  {
  }

  lemma VidRoundTrip(vid: nat)
    requires vid < OFPVID_PRESENT
    ensures HasPresent(EncodeVid(vid))
    ensures XorPresent(EncodeVid(vid)) == vid
  {
  }

  // ---------------------------------------------------------------- match fields

  /** The match dictionary while it is being filled: every key may still be missing. */
  datatype PartialMatch = PartialMatch(
    inPort: Option<nat>,
    vlanId: Option<nat>,
    ipProto: Option<nat>,
    udpSrc: Option<nat>,
    udpDst: Option<nat>,
    ipv4Src: Option<nat>,
    ipv4Dst: Option<nat>)

  const NoMatch := PartialMatch(None, None, None, None, None, None, None)

  /** One OXM field; `None` is the early `return None` of a VLAN id without OFPVID_PRESENT. */
  function MatchStep(pm: PartialMatch, oxm: Oxm): Option<PartialMatch>
  {
    match oxm
    case InPortOxm(p) => Some(pm.(inPort := Some(p)))
    case VlanVidOxm(raw) =>
      if HasPresent(raw) then Some(pm.(vlanId := Some(XorPresent(raw)))) else None
    case IpProtoOxm(v) => Some(pm.(ipProto := Some(v)))
    case UdpSrcOxm(v) => Some(pm.(udpSrc := Some(v)))
    case UdpDstOxm(v) => Some(pm.(udpDst := Some(v)))
    case Ipv4SrcOxm(a) => Some(pm.(ipv4Src := Some(a)))
    case Ipv4DstOxm(a) => Some(pm.(ipv4Dst := Some(a)))
    case OtherOxm => Some(pm)
  }

  /** The OXM fields read in order from `pm`. */
  function MatchFold(pm: PartialMatch, oxms: seq<Oxm>): Option<PartialMatch>
    decreases |oxms|
  {
    if |oxms| == 0 then Some(pm)
    else
      match MatchStep(pm, oxms[0])
      case None => None
      case Some(p) => MatchFold(p, oxms[1..])
  }

  predicate RejectedVid(o: Oxm)
  {
    o.VlanVidOxm? && !HasPresent(o.raw)
  }

  /** The last in-port field of the list. */
  function LastInPort(oxms: seq<Oxm>): (r: Option<nat>)
    ensures r.None? <==> forall i :: 0 <= i < |oxms| ==> !oxms[i].InPortOxm?
  {
    if |oxms| == 0 then None
    else
      var rest := LastInPort(oxms[1..]);
      assert forall i :: 0 < i < |oxms| ==> oxms[i] == oxms[1..][i - 1];
      if rest.Some? then rest
      else if oxms[0].InPortOxm? then Some(oxms[0].port)
      else None
  }

  /** The last VLAN id field of the list, as written on the wire. */
  function LastVlanRaw(oxms: seq<Oxm>): (r: Option<nat>)
    ensures r.None? <==> forall i :: 0 <= i < |oxms| ==> !oxms[i].VlanVidOxm?
  {
    if |oxms| == 0 then None
    else
      var rest := LastVlanRaw(oxms[1..]);
      assert forall i :: 0 < i < |oxms| ==> oxms[i] == oxms[1..][i - 1];
      if rest.Some? then rest
      else if oxms[0].VlanVidOxm? then Some(oxms[0].raw)
      else None
  }

  /**
   * Reading the fields fails exactly when one VLAN id lacks OFPVID_PRESENT; otherwise the in-port
   * and the VLAN id are those of the last such field (a later field overwrites an earlier one).
   */
  lemma {:induction false} MatchFoldSpec(pm: PartialMatch, oxms: seq<Oxm>)
    decreases |oxms|
    ensures MatchFold(pm, oxms).None? <==> exists i :: 0 <= i < |oxms| && RejectedVid(oxms[i])
    ensures MatchFold(pm, oxms).Some? ==>
      MatchFold(pm, oxms).value.inPort == (if LastInPort(oxms).Some? then LastInPort(oxms) else pm.inPort)
    ensures MatchFold(pm, oxms).Some? ==>
      MatchFold(pm, oxms).value.vlanId ==
        (if LastVlanRaw(oxms).Some? then Some(XorPresent(LastVlanRaw(oxms).value)) else pm.vlanId)
  {
    if |oxms| > 0 {
      assert forall i :: 0 < i < |oxms| ==> oxms[i] == oxms[1..][i - 1];
      match MatchStep(pm, oxms[0])
      case None =>
        assert RejectedVid(oxms[0]);
      case Some(p) =>
        MatchFoldSpec(p, oxms[1..]);
        if exists i :: 0 <= i < |oxms[1..]| && RejectedVid(oxms[1..][i]) {
          var i :| 0 <= i < |oxms[1..]| && RejectedVid(oxms[1..][i]);
          assert RejectedVid(oxms[i + 1]);
        }
    }
  }

  // ---------------------------------------------------------------- instructions

  /** The state of one APPLY_ACTIONS list: its local dictionary and the pending `vlanOper`. */
  datatype ActionState = ActionState(inst: Instructions, vlanOper: InstrKey)

  function ActionStep(s: ActionState, a: Action, vlanId: nat): ActionState
    requires s.inst.Valid()
  {
    match a
    case PopVlanAction => ActionState(s.inst.Put(PopVlan, vlanId), PopVlan)
    case PushVlanAction => s.(vlanOper := PushVlan)
    case SetFieldAction(field) =>
      if field.VlanVidOxm? then ActionState(s.inst.Put(s.vlanOper, XorPresent(field.raw)), SetVlan)
      else s
    case OutputAction(p) => s.(inst := s.inst.Put(OutPort, p))
    case GroupAction(g) => s.(inst := s.inst.Put(GroupId, g))
    case OtherAction => s
  }

  function ActionFold(s: ActionState, actions: seq<Action>, vlanId: nat): (r: ActionState)
    requires s.inst.Valid()
    ensures r.inst.Valid()
    decreases |actions|
  {
    if |actions| == 0 then s
    else ActionFold(ActionStep(s, actions[0], vlanId), actions[1..], vlanId)
  }

  /** The dictionary an APPLY_ACTIONS list writes, starting with `vlanOper = "setVlan"`. */
  function AppliedActions(actions: seq<Action>, vlanId: nat): (r: Instructions)
    ensures r.Valid()
  {
    ActionFold(ActionState(Empty(), SetVlan), actions, vlanId).inst
  }

  /** `d.update(src)` for the keys `keys` of `src`, in that order. */
  function MergeKeys(d: Instructions, src: map<InstrKey, nat>, keys: seq<InstrKey>): (r: Instructions)
    requires d.Valid()
    requires forall k :: k in keys ==> k in src
    ensures r.Valid()
    decreases |keys|
  {
    if |keys| == 0 then d
    else MergeKeys(d.Put(keys[0], src[keys[0]]), src, keys[1..])
  }

  /** `d.update(src)`. */
  function Merge(d: Instructions, src: Instructions): (r: Instructions)
    requires d.Valid() && src.Valid()
    ensures r.Valid()
  {
    MergeKeys(d, src.m, src.order)
  }

  function InstrStep(d: Instructions, ins: OfInstruction, vlanId: nat): (r: Instructions)
    requires d.Valid()
    ensures r.Valid()
  {
    match ins
    case ApplyActions(actions) => Merge(d, AppliedActions(actions, vlanId))
    case GotoTableInstr(t) => d.Put(GotoTable, t)
    case MeterInstr(m) => d.Put(MeterId, m)
    case OtherInstr => d
  }

  function InstrFold(d: Instructions, instrs: seq<OfInstruction>, vlanId: nat): (r: Instructions)
    requires d.Valid()
    ensures r.Valid()
    decreases |instrs|
  {
    if |instrs| == 0 then d
    else InstrFold(InstrStep(d, instrs[0], vlanId), instrs[1..], vlanId)
  }

  /** The flow record of a FLOW_MOD, before the admission check classifies it. */
  function DecodeFlow(fm: FlowMod): Option<Flow>
  {
    match MatchFold(NoMatch, fm.oxms)
    case None => None
    case Some(pm) =>
      if pm.vlanId.None? || pm.inPort.None? then None
      else
        var m := Match(pm.inPort.value, pm.vlanId.value, pm.ipProto, pm.udpSrc, pm.udpDst,
                       pm.ipv4Src, pm.ipv4Dst);
        Some(Flow(fm.cookie, fm.tableId, fm.priority, m,
                  InstrFold(Empty(), fm.instructions, pm.vlanId.value), None, None))
  }

  /** `getFlowParameters(flow_struct)`: the loops over match fields, instructions and actions. */
  method GetFlowParameters(fm: FlowMod) returns (r: Option<Flow>)
    ensures r == DecodeFlow(fm)
  {
    var pm := NoMatch;
    var i := 0;
    while i < |fm.oxms|
      invariant 0 <= i <= |fm.oxms|
      invariant MatchFold(pm, fm.oxms[i..]) == MatchFold(NoMatch, fm.oxms)
    {
      assert fm.oxms[i..][1..] == fm.oxms[i + 1..];
      var oxm := fm.oxms[i];
      match oxm {
        case InPortOxm(p) => pm := pm.(inPort := Some(p));
        case VlanVidOxm(raw) =>
          if HasPresent(raw) {
            pm := pm.(vlanId := Some(XorPresent(raw)));
          } else {
            return None;
          }
        case IpProtoOxm(v) => pm := pm.(ipProto := Some(v));
        case UdpSrcOxm(v) => pm := pm.(udpSrc := Some(v));
        case UdpDstOxm(v) => pm := pm.(udpDst := Some(v));
        case Ipv4SrcOxm(a) => pm := pm.(ipv4Src := Some(a));
        case Ipv4DstOxm(a) => pm := pm.(ipv4Dst := Some(a));
        case OtherOxm =>
      }
      i := i + 1;
    }
    if pm.vlanId.None? || pm.inPort.None? {
      return None;
    }
    var vlanId := pm.vlanId.value;
    var instructions: Instructions := Empty();
    var j := 0;
    while j < |fm.instructions|
      invariant 0 <= j <= |fm.instructions|
      invariant instructions.Valid()
      invariant InstrFold(instructions, fm.instructions[j..], vlanId) == InstrFold(Empty(), fm.instructions, vlanId)
    {
      assert fm.instructions[j..][1..] == fm.instructions[j + 1..];
      match fm.instructions[j] {
        case ApplyActions(actions) =>
          var instruction := ApplyActionList(actions, vlanId);
          instructions := UpdateWith(instructions, instruction);
        case GotoTableInstr(t) =>
          instructions := instructions.Put(GotoTable, t);
        case MeterInstr(m) =>
          instructions := instructions.Put(MeterId, m);
        case OtherInstr =>
      }
      j := j + 1;
    }
    r := Some(Flow(fm.cookie, fm.tableId, fm.priority,
                   Match(pm.inPort.value, vlanId, pm.ipProto, pm.udpSrc, pm.udpDst, pm.ipv4Src, pm.ipv4Dst),
                   instructions, None, None));
  }

  /** The inner loop over one APPLY_ACTIONS list. */
  method ApplyActionList(actions: seq<Action>, vlanId: nat) returns (inst: Instructions)
    ensures inst.Valid()
    ensures inst == AppliedActions(actions, vlanId)
  {
    var s := ActionState(Empty(), SetVlan);
    var k := 0;
    while k < |actions|
      invariant 0 <= k <= |actions|
      invariant s.inst.Valid()
      invariant ActionFold(s, actions[k..], vlanId).inst == AppliedActions(actions, vlanId)
    {
      assert actions[k..][1..] == actions[k + 1..];
      match actions[k] {
        case PopVlanAction =>
          s := ActionState(s.inst.Put(PopVlan, vlanId), PopVlan);
        case PushVlanAction =>
          s := s.(vlanOper := PushVlan);
        case SetFieldAction(field) =>
          if field.VlanVidOxm? {
            s := ActionState(s.inst.Put(s.vlanOper, XorPresent(field.raw)), SetVlan);
          }
        case OutputAction(p) =>
          s := s.(inst := s.inst.Put(OutPort, p));
        case GroupAction(g) =>
          s := s.(inst := s.inst.Put(GroupId, g));
        case OtherAction =>
      }
      k := k + 1;
    }
    inst := s.inst;
  }

  /** `dict.update(other)`: a loop over the other dictionary's keys in order. */
  method UpdateWith(d: Instructions, src: Instructions) returns (r: Instructions)
    requires d.Valid() && src.Valid()
    ensures r.Valid()
    ensures r == Merge(d, src)
  {
    r := d;
    var k := 0;
    while k < |src.order|
      invariant 0 <= k <= |src.order|
      invariant r.Valid()
      invariant MergeKeys(r, src.m, src.order[k..]) == Merge(d, src)
    {
      assert src.order[k..][1..] == src.order[k + 1..];
      r := r.Put(src.order[k], src.m[src.order[k]]);
      k := k + 1;
    }
  }

  // ---------------------------------------------------------------- properties

  /**
   * The FLOW_MOD is rejected exactly when a VLAN id lacks OFPVID_PRESENT or the in-port or the
   * VLAN id match field is missing.
   */
  lemma DecodeRejects(fm: FlowMod)
    ensures DecodeFlow(fm).None? <==>
      (exists i :: 0 <= i < |fm.oxms| && RejectedVid(fm.oxms[i]))
      || (forall i :: 0 <= i < |fm.oxms| ==> !fm.oxms[i].InPortOxm?)
      || (forall i :: 0 <= i < |fm.oxms| ==> !fm.oxms[i].VlanVidOxm?)
  {
    MatchFoldSpec(NoMatch, fm.oxms);
  }

  /**
   * A decoded flow keeps the cookie, table and priority, takes the last in-port and the last VLAN
   * id with OFPVID_PRESENT cleared, and carries no classification yet.
   */
  lemma DecodeFields(fm: FlowMod)
    requires DecodeFlow(fm).Some?
    ensures DecodeFlow(fm).value.flowId == fm.cookie
    ensures DecodeFlow(fm).value.tableId == fm.tableId
    ensures DecodeFlow(fm).value.priority == fm.priority
    ensures LastInPort(fm.oxms) == Some(DecodeFlow(fm).value.matchFields.inPort)
    ensures LastVlanRaw(fm.oxms).Some?
    ensures DecodeFlow(fm).value.matchFields.vlanId == XorPresent(LastVlanRaw(fm.oxms).value)
    ensures DecodeFlow(fm).value.matchFields.vlanId < OFPVID_PRESENT
            <==> LastVlanRaw(fm.oxms).value < 2 * OFPVID_PRESENT
    ensures DecodeFlow(fm).value.flowType.None? && DecodeFlow(fm).value.serviceType.None?
    ensures DecodeFlow(fm).value.instructions.Valid()
  {
    MatchFoldSpec(NoMatch, fm.oxms);
    var raw := LastVlanRaw(fm.oxms).value;
    assert HasPresent(raw) by {
      LastVlanPresent(NoMatch, fm.oxms);
    }
  }

  lemma {:induction false} LastVlanPresent(pm: PartialMatch, oxms: seq<Oxm>)
    requires MatchFold(pm, oxms).Some?
    ensures LastVlanRaw(oxms).Some? ==> HasPresent(LastVlanRaw(oxms).value)
    decreases |oxms|
  {
    if |oxms| > 0 {
      var p := MatchStep(pm, oxms[0]).value;
      LastVlanPresent(p, oxms[1..]);
    }
  }

  /** The keys an APPLY_ACTIONS list can write. */
  predicate ActionKey(k: InstrKey)
  {
    k in {SetVlan, PushVlan, PopVlan, OutPort, GroupId}
  }

  lemma {:induction false} ActionFoldKeys(s: ActionState, actions: seq<Action>, vlanId: nat)
    requires s.inst.Valid()
    requires ActionKey(s.vlanOper)
    ensures forall k :: k in ActionFold(s, actions, vlanId).inst.m ==> k in s.inst.m || ActionKey(k)
    decreases |actions|
  {
    if |actions| > 0 {
      ActionFoldKeys(ActionStep(s, actions[0], vlanId), actions[1..], vlanId);
    }
  }

  lemma {:induction false} MergeKeysOther(d: Instructions, src: map<InstrKey, nat>, keys: seq<InstrKey>, k: InstrKey)
    requires d.Valid()
    requires forall x :: x in keys ==> x in src
    requires k !in keys
    ensures MergeKeys(d, src, keys).Get(k) == d.Get(k)
    decreases |keys|
  {
    if |keys| > 0 {
      MergeKeysOther(d.Put(keys[0], src[keys[0]]), src, keys[1..], k);
    }
  }

  /** The last GOTO_TABLE instruction of the list. */
  function LastGoto(instrs: seq<OfInstruction>): (r: Option<nat>)
    ensures r.None? <==> forall i :: 0 <= i < |instrs| ==> !instrs[i].GotoTableInstr?
  {
    if |instrs| == 0 then None
    else
      var rest := LastGoto(instrs[1..]);
      assert forall i :: 0 < i < |instrs| ==> instrs[i] == instrs[1..][i - 1];
      if rest.Some? then rest
      else if instrs[0].GotoTableInstr? then Some(instrs[0].table)
      else None
  }

  /** The last METER instruction of the list. */
  function LastMeter(instrs: seq<OfInstruction>): (r: Option<nat>)
    ensures r.None? <==> forall i :: 0 <= i < |instrs| ==> !instrs[i].MeterInstr?
  {
    if |instrs| == 0 then None
    else
      var rest := LastMeter(instrs[1..]);
      assert forall i :: 0 < i < |instrs| ==> instrs[i] == instrs[1..][i - 1];
      if rest.Some? then rest
      else if instrs[0].MeterInstr? then Some(instrs[0].meter)
      else None
  }

  /** An APPLY_ACTIONS list never writes `gotoTable` or `meterId`. */
  lemma AppliedKeys(actions: seq<Action>, vlanId: nat, k: InstrKey)
    requires !ActionKey(k)
    ensures k !in AppliedActions(actions, vlanId).m
  {
    ActionFoldKeys(ActionState(Empty(), SetVlan), actions, vlanId);
  }

  lemma {:induction false} InstrFoldGotoMeter(d: Instructions, instrs: seq<OfInstruction>, vlanId: nat)
    requires d.Valid()
    ensures InstrFold(d, instrs, vlanId).Get(GotoTable) ==
      (if LastGoto(instrs).Some? then LastGoto(instrs) else d.Get(GotoTable))
    ensures InstrFold(d, instrs, vlanId).Get(MeterId) ==
      (if LastMeter(instrs).Some? then LastMeter(instrs) else d.Get(MeterId))
    decreases |instrs|
  {
    if |instrs| > 0 {
      var d1 := InstrStep(d, instrs[0], vlanId);
      InstrFoldGotoMeter(d1, instrs[1..], vlanId);
      if instrs[0].ApplyActions? {
        var a := AppliedActions(instrs[0].actions, vlanId);
        AppliedKeys(instrs[0].actions, vlanId, GotoTable);
        AppliedKeys(instrs[0].actions, vlanId, MeterId);
        MergeKeysOther(d, a.m, a.order, GotoTable);
        MergeKeysOther(d, a.m, a.order, MeterId);
      }
    }
  }

  /** `gotoTable` and `meterId` of a decoded flow come from the last such instruction. */
  lemma DecodeGotoMeter(fm: FlowMod)
    requires DecodeFlow(fm).Some?
    ensures Instr(DecodeFlow(fm).value, GotoTable) == LastGoto(fm.instructions)
    ensures Instr(DecodeFlow(fm).value, MeterId) == LastMeter(fm.instructions)
  {
    var f := DecodeFlow(fm).value;
    InstrFoldGotoMeter(Empty(), fm.instructions, f.matchFields.vlanId);
  }

  /** PUSH_VLAN followed by SET_FIELD writes the pushed VLAN id under `pushVlan`. */
  lemma PushThenSet(vid: nat, vlanId: nat)
    requires vid < OFPVID_PRESENT
    ensures AppliedActions([PushVlanAction, SetFieldAction(VlanVidOxm(EncodeVid(vid)))], vlanId).m
            == map[PushVlan := vid]
  {
    var acts := [PushVlanAction, SetFieldAction(VlanVidOxm(EncodeVid(vid)))];
    VidRoundTrip(vid);
    var s0 := ActionState(Empty(), SetVlan);
    var s1 := ActionStep(s0, acts[0], vlanId);
    assert s1 == ActionState(Empty(), PushVlan);
    var s2 := ActionStep(s1, acts[1], vlanId);
    assert s2.inst.m == map[PushVlan := vid];
    assert acts[1..][1..] == [];
    assert ActionFold(s1, acts[1..], vlanId) == ActionFold(s2, acts[1..][1..], vlanId);
    assert ActionFold(s0, acts, vlanId) == ActionFold(s1, acts[1..], vlanId);
  }

  /** A lone SET_FIELD writes `setVlan`, and POP_VLAN records the matched VLAN id. */
  lemma SetAndPop(vid: nat, vlanId: nat)
    requires vid < OFPVID_PRESENT
    ensures AppliedActions([SetFieldAction(VlanVidOxm(EncodeVid(vid)))], vlanId).m == map[SetVlan := vid]
    ensures AppliedActions([PopVlanAction], vlanId).m == map[PopVlan := vlanId]
  {
    VidRoundTrip(vid);
    var s0 := ActionState(Empty(), SetVlan);
    var a := [SetFieldAction(VlanVidOxm(EncodeVid(vid)))];
    assert a[1..] == [];
    assert ActionStep(s0, a[0], vlanId).inst.m == map[SetVlan := vid];
    assert ActionFold(s0, a, vlanId) == ActionFold(ActionStep(s0, a[0], vlanId), a[1..], vlanId);
    var b := [PopVlanAction];
    assert b[1..] == [];
    assert ActionStep(s0, b[0], vlanId).inst.m == map[PopVlan := vlanId];
  }
}
