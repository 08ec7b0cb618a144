/** The unified packet and traffic-statistics value types of `models/packet.py`. */
module Packets {
  import opened Results

  /** One value of a packet's free-form dictionaries (`payload_decoded`, `metadata`). */
  datatype Value = VNone | VBool(b: bool) | VInt(i: int) | VReal(r: real) | VStr(s: string)

  type Dict = map<string, Value>

  /** Python truthiness of a dictionary value. */
  predicate Truthy(v: Value) {
    match v
    case VNone => false
    case VBool(b) => b
    case VInt(i) => i != 0
    case VReal(r) => r != 0.0
    case VStr(s) => s != ""
  }

  /** One frame of CAN, automotive Ethernet or V2X traffic. The first five fields have
      no default and must be supplied; the last four default to empty values. */
  datatype UnifiedPacket = UnifiedPacket(
    timestamp: real,
    protocol: string,
    source: string,
    destination: string,
    msgId: string,
    payloadHex: string := "",
    payloadDecoded: Dict := map[],
    domain: string := "",
    metadata: Dict := map[])

  /** `p.metadata.get("attack")` is truthy: the packet is tagged as synthetic attack traffic. */
  predicate IsAttack(p: UnifiedPacket) {
    "attack" in p.metadata && Truthy(p.metadata["attack"])
  }

  /** Aggregate traffic counters; every field has a default. */
  datatype TrafficStats = TrafficStats(
    totalPackets: int := 0,
    canCount: int := 0,
    ethCount: int := 0,
    v2xCount: int := 0,
    timeRangeStart: Option<real> := None,
    timeRangeEnd: Option<real> := None,
    packetsPerSecond: real := 0.0)

  /** A packet built from its five required fields carries the documented defaults. */
  lemma PacketDefaults(timestamp: real, protocol: string, source: string, destination: string, msgId: string)
    ensures var p := UnifiedPacket(timestamp, protocol, source, destination, msgId);
      && p.payloadHex == ""
      && p.payloadDecoded == map[]
      && p.domain == ""
      && p.metadata == map[]
      && !IsAttack(p)
  {
  }

  /** A statistics record built without arguments is all zero with no time range. */
  lemma TrafficStatsDefaults()
    ensures var s := TrafficStats();
      && s.totalPackets == 0 && s.canCount == 0 && s.ethCount == 0 && s.v2xCount == 0
      && s.timeRangeStart.None? && s.timeRangeEnd.None?
      && s.packetsPerSecond == 0.0
  {
  }
}
