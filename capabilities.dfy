/**
 * `generate_capabilities`: the `capabilities` word of the features reply, one bit per
 * `ofp_capabilities` flag of section 7.3.1 of the OpenFlow Switch Specification 1.3.
 */
module Capabilities {

  const OFPC_FLOW_STATS: bv32 := 1
  const OFPC_TABLE_STATS: bv32 := 2
  const OFPC_PORT_STATS: bv32 := 4
  const OFPC_GROUP_STATS: bv32 := 8
  const OFPC_IP_REASM: bv32 := 0x20
  const OFPC_QUEUE_STATS: bv32 := 0x40
  const OFPC_PORT_BLOCKED: bv32 := 0x100

  /** The device's `cap_*` attributes. */
  datatype Flags = Flags(
    flowStats: bool,
    tableStats: bool,
    portStats: bool,
    groupStats: bool,
    ipReasm: bool,
    queueStats: bool,
    portBlocked: bool)

  /** The values the OLT device sets in its constructor. */
  const DeviceFlags := Flags(true, true, false, true, false, false, false)

  /** The shifts and ORs in the order the source writes them. */
  function Generate(f: Flags): (c: bv32)
    ensures (c & OFPC_FLOW_STATS != 0) <==> f.flowStats
    ensures (c & OFPC_TABLE_STATS != 0) <==> f.tableStats
    ensures (c & OFPC_PORT_STATS != 0) <==> f.portStats
    ensures (c & OFPC_GROUP_STATS != 0) <==> f.groupStats
    ensures (c & OFPC_IP_REASM != 0) <==> f.ipReasm
    ensures (c & OFPC_QUEUE_STATS != 0) <==> f.queueStats
    ensures (c & OFPC_PORT_BLOCKED != 0) <==> f.portBlocked
    ensures c & !(OFPC_FLOW_STATS | OFPC_TABLE_STATS | OFPC_PORT_STATS | OFPC_GROUP_STATS
                  | OFPC_IP_REASM | OFPC_QUEUE_STATS | OFPC_PORT_BLOCKED) == 0
  {
    var c0: bv32 := 0;
    var c1 := if f.portBlocked then c0 | (1 << 8) else c0;
    var c2 := if f.queueStats then c1 | (1 << 6) else c1;
    var c3 := if f.ipReasm then c2 | (1 << 5) else c2;
    var c4 := if f.groupStats then c3 | (1 << 3) else c3;
    var c5 := if f.portStats then c4 | (1 << 2) else c4;
    var c6 := if f.tableStats then c5 | (1 << 1) else c5;
    if f.flowStats then c6 | 1 else c6
  }

  /** The device announces flow, table and group statistics: the word 0x0b. */
  lemma DeviceCapabilities()
    ensures Generate(DeviceFlags) == OFPC_FLOW_STATS | OFPC_TABLE_STATS | OFPC_GROUP_STATS
    ensures Generate(DeviceFlags) == 0x0b
  {
  }

  /** The word determines the flags: two flag sets with the same word are the same. */
  lemma GenerateInjective(f: Flags, g: Flags)
    requires Generate(f) == Generate(g)
    ensures f == g
  {
  }
}
