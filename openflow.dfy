/**
 * The flow records the OpenFlow front end keeps (OpenFlow Switch Specification 1.3), after
 * decoding: one record per FLOW_MOD, with its match fields and a flattened instruction dictionary.
 */
module OpenFlow {
  import opened Wrappers
  import opened Dicts

  /** OFPVID_PRESENT, section 7.2.3.8 of the OpenFlow Switch Specification 1.3. */
  const OFPVID_PRESENT: nat := 0x1000
  /** Port number of the NNI port the agent announces at start-up. */
  const NNI_PORT: nat := 0x14
  const IP_PROTO_UDP: nat := 17
  const SIP_PORT: nat := 5060

  datatype Direction = Upstream | Downstream
  datatype ServiceType = Unicast | Voip | Multicast

  /** Keys of the flattened instruction dictionary. */
  datatype InstrKey = SetVlan | PushVlan | PopVlan | OutPort | GroupId | GotoTable | MeterId

  /** The instruction dictionary, in the order its keys were first written. */
  type Instructions = Dict<InstrKey, nat>

  /** The match dictionary: `inPort` and `vlanId` are always present in a stored flow. */
  datatype Match = Match(
    inPort: nat,
    vlanId: nat,
    ipProto: Option<nat>,
    udpSrc: Option<nat>,
    udpDst: Option<nat>,
    ipv4Src: Option<nat>,
    ipv4Dst: Option<nat>)

  /**
   * A flow record (`flowParams`). `flowType` and `serviceType` are absent until the admission
   * check writes them.
   */
  datatype Flow = Flow(
    flowId: nat,
    tableId: nat,
    priority: nat,
    matchFields: Match,
    instructions: Instructions,
    flowType: Option<Direction>,
    serviceType: Option<ServiceType>)

  predicate HasInstr(f: Flow, k: InstrKey)
  {
    k in f.instructions.m
  }

  function Instr(f: Flow, k: InstrKey): Option<nat>
  {
    f.instructions.Get(k)
  }
}
