/** The SOME/IP traffic generator of `simulators/eth_simulator.py`. `service(i)` is the
    table row `random.choice` picks for packet `i` and `length(i)` the payload length
    `random.randint(8, 128)` draws for it. */
module EthSimulator {
  import opened Results
  import opened Text
  import opened Packets
  import RuleDetector
  import CanSimulator

  /** One SOME/IP service method: service id, method id, client, server and domain. */
  datatype ServiceRow = ServiceRow(serviceId: string, methodId: string, source: string, destination: string, domain: string)

  const SomeIpServices: seq<ServiceRow> := [
    ServiceRow("0x0100", "0x0001", "HU", "ADAS", "infotainment"),
    ServiceRow("0x0100", "0x0002", "HU", "ADAS", "infotainment"),
    ServiceRow("0x0200", "0x0001", "ADAS", "GW", "chassis"),
    ServiceRow("0x0300", "0x0001", "TBOX", "GW", "body"),
    ServiceRow("0x0300", "0x0002", "TBOX", "CLOUD", "body"),
    ServiceRow("0x0400", "0x0001", "GW", "BCM", "body"),
    ServiceRow("0x0500", "0x0001", "DIAG_ETH", "GW", "body")
  ]

  /** A position in `SomeIpServices`. */
  type ServiceIndex = i: int | 0 <= i < 7

  /** A payload length `random.randint(8, 128)` can draw. */
  type PayloadLength = n: int | 8 <= n <= 128 witness 8

  function EthPacket(i: nat, base: real, s: ServiceIndex, length: PayloadLength): UnifiedPacket {
    var row := SomeIpServices[s];
    UnifiedPacket(
      timestamp := base + (i as real) * 0.02,
      protocol := "ETH",
      source := row.source,
      destination := row.destination,
      msgId := row.serviceId + "." + row.methodId,
      payloadHex := Repeat("AA", length),
      payloadDecoded := map[
        "service_id" := VStr(row.serviceId),
        "method_id" := VStr(row.methodId),
        "msg_type" := VStr("REQUEST"),
        "return_code" := VStr("E_OK"),
        "length" := VInt(length)],
      domain := row.domain,
      metadata := map["eth_type" := VStr("SOME/IP"), "vlan" := VInt(10)])
  }

  /** `generate_normal_eth(count, base)`. */
  function GenerateNormalEth(count: int, base: real, service: nat -> ServiceIndex, length: nat -> PayloadLength): (ps: seq<UnifiedPacket>)
    ensures |ps| == CanSimulator.RangeLength(count)
  {
    seq(CanSimulator.RangeLength(count), i requires 0 <= i => EthPacket(i, base, service(i), length(i)))
  }

  /** Ethernet traffic: `count` packets spaced 20 ms apart, each an ETH packet whose id
      joins the service and method ids of one table row and whose endpoints and domain
      come from that same row; the payload repeats the byte AA between 8 and 128 times
      and its decoded length is that repetition count, i.e. half the hex length; no
      packet is tagged as an attack. */
  lemma NormalEthShape(count: int, base: real, service: nat -> ServiceIndex, length: nat -> PayloadLength)
    ensures var ps := GenerateNormalEth(count, base, service, length);
      && |ps| == (if count < 0 then 0 else count)
      && forall i :: 0 <= i < |ps| ==>
           var m := SomeIpServices[service(i)];
           && ps[i].timestamp == base + (i as real) * 0.02
           && ps[i].protocol == "ETH"
           && ps[i].msgId == m.serviceId + "." + m.methodId
           && ps[i].source == m.source && ps[i].destination == m.destination && ps[i].domain == m.domain
           && 16 <= |ps[i].payloadHex| <= 256 && RepeatsOneByte(ps[i].payloadHex)
           && "length" in ps[i].payloadDecoded
           && ps[i].payloadDecoded["length"] == VInt(|ps[i].payloadHex| / 2)
           && !IsAttack(ps[i])
  {
    var ps := GenerateNormalEth(count, base, service, length);
    forall i | 0 <= i < |ps|
      ensures RepeatsOneByte(ps[i].payloadHex)
      ensures "length" in ps[i].payloadDecoded
      ensures ps[i].payloadDecoded["length"] == VInt(|ps[i].payloadHex| / 2)
    {
      assert ps[i] == EthPacket(i, base, service(i), length(i));
      RepeatRepeatsOneByte("AA", length(i));
    }
  }

  /** Ethernet traffic carries no CAN packet, so the rule detector raises nothing on it
      whatever the threshold, even though every payload repeats one byte. */
  lemma NormalEthRaisesNoRuleAlerts(count: int, base: real, service: nat -> ServiceIndex, length: nat -> PayloadLength, threshold: real)
    ensures RuleDetector.Check(GenerateNormalEth(count, base, service, length), threshold) == Success([])
  {
    var ps := GenerateNormalEth(count, base, service, length);
    forall i | 0 <= i < |ps|
      ensures ps[i].protocol == "ETH"
    {
      assert ps[i] == EthPacket(i, base, service(i), length(i));
    }
    NoCanPackets(ps);
  }

  /** The three checks on a batch without CAN packets. */
  lemma {:induction false} NoCanPackets(ps: seq<UnifiedPacket>)
    requires forall i :: 0 <= i < |ps| ==> ps[i].protocol == "ETH"
    ensures RuleDetector.CanIds(ps) == []
    ensures RuleDetector.CheckUnknownId(ps) == []
    ensures RuleDetector.CheckPayload(ps) == []
  {
    if ps != [] {
      NoCanPackets(ps[1..]);
    }
  }
}
