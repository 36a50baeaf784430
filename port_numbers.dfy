/**
 * `onu_to_portNo` / `portNo_to_onu`: the OpenFlow port number of a UNI packs the PON interface
 * into bits 28-31, the POTS flag into bit 27, the ONU id into bits 16-26 and the PPTP (UNI) id
 * into bits 0-15.
 *
 * Python's integers are unbounded and non-negative here, so a shifted and masked field is plain
 * arithmetic: `(x << 28) & 0xf0000000` is `(x % 16) * 2^28`, `(x >> 16) & 0x07ff` is
 * `x / 2^16 % 2048`, and an OR of fields that occupy disjoint bits is their sum.
 */
module PortNumbers {

  /** What `portNo_to_onu` returns: interface, ONU id, PPTP id and the POTS flag. */
  datatype OnuPort = OnuPort(intfId: nat, onuId: nat, pptp: nat, pots: bool)

  /** `onu_to_portNo(intf_id, onu_id, PPTP, POTS)`. */
  function OnuToPortNo(intfId: nat, onuId: nat, pptp: nat, pots: bool): (p: nat)
    ensures p < 0x1_0000_0000
  {
    (intfId % 16) * 0x1000_0000 + (if pots then 0x0800_0000 else 0) + (onuId % 0x800) * 0x1_0000 + pptp % 0x1_0000
  }

  /** `portNo_to_onu(port_no)`. */
  function PortNoToOnu(portNo: nat): (r: OnuPort)
    ensures r.intfId < 16 && r.onuId < 2048 && r.pptp < 65536
  {
    OnuPort(portNo / 0x1000_0000 % 16, portNo / 0x1_0000 % 0x800, portNo % 0x1_0000, portNo / 0x0800_0000 % 2 == 1)
  }

  /**
   * Unpacking a packed port number gives back each field modulo its width; in particular
   * `portNo_to_onu(onu_to_portNo(i, o, p, pots)) == (i, o, p, pots)` for `i < 16`, `o < 2048`
   * and `p < 65536`.
   */
  lemma UnpackPack(intfId: nat, onuId: nat, pptp: nat, pots: bool)
    ensures PortNoToOnu(OnuToPortNo(intfId, onuId, pptp, pots))
         == OnuPort(intfId % 16, onuId % 2048, pptp % 65536, pots)
  {
    var a, b, c, d := intfId % 16, if pots then 1 else 0, onuId % 0x800, pptp % 0x1_0000;
    var n := OnuToPortNo(intfId, onuId, pptp, pots);
    var x := (a * 2 + b) * 0x800 + c;
    assert n == x * 0x1_0000 + d;
    OnuField(n, x, d);
    assert n == (a * 2 + b) * 0x0800_0000 + (c * 0x1_0000 + d);
    PotsField(n, a * 2 + b, c * 0x1_0000 + d);
    assert n == a * 0x1000_0000 + (b * 0x0800_0000 + c * 0x1_0000 + d);
    IntfField(n, a, b * 0x0800_0000 + c * 0x1_0000 + d);
    OnuMod(x, a * 2 + b, c);
    PotsBit(a * 2 + b, a, b);
  }

  lemma OnuMod(x: nat, q: nat, c: nat)
    requires c < 0x800 && x == q * 0x800 + c
    ensures x % 0x800 == c
  {
  }

  lemma PotsBit(x: nat, q: nat, b: nat)
    requires b < 2 && x == q * 2 + b
    ensures x % 2 == b
  {
  }

  lemma OnuField(n: nat, q: nat, r: nat)
    requires r < 0x1_0000 && n == q * 0x1_0000 + r
    ensures n / 0x1_0000 == q && n % 0x1_0000 == r
  {
  }

  lemma RoundTrip(intfId: nat, onuId: nat, pptp: nat, pots: bool)
    requires intfId < 16 && onuId < 2048 && pptp < 65536
    ensures PortNoToOnu(OnuToPortNo(intfId, onuId, pptp, pots)) == OnuPort(intfId, onuId, pptp, pots)
  {
    UnpackPack(intfId, onuId, pptp, pots);
  }

  /** The four fields cover all 32 bits, so every 32-bit port number is the packing of its fields. */
  lemma PackUnpack(portNo: nat)
    requires portNo < 0x1_0000_0000
    ensures var r := PortNoToOnu(portNo); OnuToPortNo(r.intfId, r.onuId, r.pptp, r.pots) == portNo
  {
    var q, p := portNo / 0x1_0000, portNo % 0x1_0000;
    var q2, o := q / 0x800, q % 0x800;
    var h, b := q2 / 2, q2 % 2;
    assert portNo == q2 * 0x0800_0000 + (o * 0x1_0000 + p);
    assert portNo == h * 0x1000_0000 + (b * 0x0800_0000 + o * 0x1_0000 + p);
    PotsField(portNo, q2, o * 0x1_0000 + p);
    IntfField(portNo, h, b * 0x0800_0000 + o * 0x1_0000 + p);
  }

  lemma PotsField(n: nat, q: nat, r: nat)
    requires r < 0x0800_0000 && n == q * 0x0800_0000 + r
    ensures n / 0x0800_0000 == q
  {
  }

  lemma IntfField(n: nat, q: nat, r: nat)
    requires r < 0x1000_0000 && n == q * 0x1000_0000 + r
    ensures n / 0x1000_0000 == q
  {
  }
}
