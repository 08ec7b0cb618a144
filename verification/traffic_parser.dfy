/** The CAN and SOME/IP parsers and the batch parser of `services/traffic_parser.py`. */
module TrafficParser {
  import opened Results
  import opened Text
  import opened Seqs
  import opened Packets

  /** The ECU, functional domain and signal name a known CAN id stands for. */
  datatype EcuInfo = EcuInfo(ecu: string, domain: string, signal: string)

  const KnownIds: map<string, EcuInfo> := map[
    "0x0C0" := EcuInfo("ECM", "powertrain", "engine_rpm_torque"),
    "0x0C8" := EcuInfo("ECM", "powertrain", "engine_temp"),
    "0x130" := EcuInfo("TCM", "powertrain", "gear_status"),
    "0x180" := EcuInfo("ABS", "chassis", "wheel_speed"),
    "0x1A0" := EcuInfo("ESP", "chassis", "yaw_rate"),
    "0x200" := EcuInfo("EPS", "chassis", "steering_angle"),
    "0x260" := EcuInfo("BCM", "body", "light_door_status"),
    "0x280" := EcuInfo("BCM", "body", "ac_status"),
    "0x320" := EcuInfo("ICM", "infotainment", "dashboard"),
    "0x3E0" := EcuInfo("HU", "infotainment", "head_unit_cmd"),
    "0x7DF" := EcuInfo("DIAG", "body", "obd_broadcast"),
    "0x7E0" := EcuInfo("DIAG", "powertrain", "diag_request")
  ]

  const UnknownEcu := EcuInfo("UNKNOWN", "unknown", "unknown")

  /** The id whose payload carries the engine speed. */
  const EngineRpmId := "0x0C0"

  /** `KNOWN_IDS.get(msg_id, ("UNKNOWN", "unknown", "unknown"))`. */
  function LookupEcu(msgId: string): (r: EcuInfo)
    ensures msgId in KnownIds ==> r == KnownIds[msgId]
    ensures msgId !in KnownIds ==> r == UnknownEcu
  {
    if msgId in KnownIds then KnownIds[msgId] else UnknownEcu
  }

  /** `round(raw * 0.25, 1)` expressed in tenths. `raw * 0.25` is an exact binary
      fraction, so a value ending in .25 or .75 is an exact tie and Python rounds it
      half to even. */
  function RpmTenths(raw: nat): (r: nat)
    ensures 2 * r <= 5 * raw + 1 && 5 * raw <= 2 * r + 1
    ensures raw % 2 == 0 ==> 2 * r == 5 * raw
  {
    var q := raw / 2;
    if raw % 2 == 0 then 5 * q
    else
      // the exact value, 5q + 2.5 tenths, is a tie between 5q + 2 and 5q + 3
      var down := 5 * q + 2;
      if down % 2 == 0 then down else down + 1
  }

  /** The decoded engine speed in rpm. */
  function Rpm(raw: nat): real {
    RpmTenths(raw) as real / 10.0
  }

  /** `(b0 << 8) | b1` for a high byte `b0` and a low byte `b1 < 256`. */
  function ShiftOr(b0: nat, b1: nat): nat
    requires b1 < 256
  {
    b0 * 256 + b1
  }

  /** Two characters read by `int(s, 16)` never exceed one byte. */
  lemma TwoDigitsByte(s: string)
    requires |s| == 2 && ParseInt16(s).Some?
    ensures ParseInt16(s).value < 256
  {
    assert !(s[0] == '0' && (s[1] == 'x' || s[1] == 'X'));
    assert ParseInt16(s) == Some(DigitsValue(s));
    assert s[..1][..0] == [];
    assert DigitsValue(s[..1]) == DigitValue(s[0]).value;
  }

  /** The engine speed carried by the first two payload bytes, or ValueError when they
      are not hexadecimal. */
  function DecodeRpm(payloadHex: string): (r: Result<real>)
    requires |payloadHex| >= 4
    ensures r.Success? <==> ParseInt16(payloadHex[0..2]).Some? && ParseInt16(payloadHex[2..4]).Some?
    ensures r.Failure? ==> r.error.ValueError?
    ensures r.Success? ==>
      var b0, b1 := ParseInt16(payloadHex[0..2]).value, ParseInt16(payloadHex[2..4]).value;
      && b0 < 256 && b1 < 256
      && r.value == Rpm(256 * b0 + b1)
      && 0.0 <= r.value <= 16383.8
  {
    var b0 := ParseInt16(payloadHex[0..2]);
    var b1 := ParseInt16(payloadHex[2..4]);
    if b0.None? || b1.None? then Failure(ValueError("invalid literal for int() with base 16"))
    else
      TwoDigitsByte(payloadHex[0..2]);
      TwoDigitsByte(payloadHex[2..4]);
      RpmRange(ShiftOr(b0.value, b1.value));
      Success(Rpm(ShiftOr(b0.value, b1.value)))
  }

  /** `CANParser.parse`: builds a CAN packet from an id and a hex payload. A missing
      timestamp is replaced by `now`. */
  function CanParse(msgId: string, payloadHex: string, timestamp: Option<real>, now: real): (r: Result<UnifiedPacket>)
    ensures r.Success? ==>
      && r.value.protocol == "CAN"
      && r.value.destination == "BROADCAST"
      && r.value.msgId == msgId
      && r.value.payloadHex == payloadHex
      && r.value.timestamp == (if timestamp.Some? then timestamp.value else now)
      && r.value.source == LookupEcu(msgId).ecu
      && r.value.domain == LookupEcu(msgId).domain
      && {"signal", "dlc", "raw"} <= r.value.payloadDecoded.Keys
      && r.value.payloadDecoded["signal"] == VStr(LookupEcu(msgId).signal)
      && r.value.payloadDecoded["dlc"] == VInt(|payloadHex| / 2)
      && r.value.payloadDecoded["raw"] == VStr(payloadHex)
      && ("rpm" in r.value.payloadDecoded <==> msgId == EngineRpmId && |payloadHex| / 2 >= 2)
    ensures r.Success? && msgId == EngineRpmId && |payloadHex| >= 4 ==>
      && DecodeRpm(payloadHex).Success?
      && r.value.payloadDecoded["rpm"] == VReal(DecodeRpm(payloadHex).value)
    ensures r.Failure? <==>
      msgId == EngineRpmId && |payloadHex| >= 4 && DecodeRpm(payloadHex).Failure?
  {
    var ts := if timestamp.Some? then timestamp.value else now;
    var info := LookupEcu(msgId);
    var dlc := |payloadHex| / 2;
    var decoded := map["signal" := VStr(info.signal), "dlc" := VInt(dlc), "raw" := VStr(payloadHex)];
    var packet := UnifiedPacket(
      timestamp := ts,
      protocol := "CAN",
      source := info.ecu,
      destination := "BROADCAST",
      msgId := msgId,
      payloadHex := payloadHex,
      payloadDecoded := decoded,
      domain := info.domain,
      metadata := map["bus" := VStr("CAN-H"), "bitrate" := VInt(500000)]);
    if msgId == EngineRpmId && dlc >= 2 then
      var rpm :- DecodeRpm(payloadHex);
      Success(packet.(payloadDecoded := decoded["rpm" := VReal(rpm)]))
    else
      Success(packet)
  }

  /** `EthernetParser.parse`: a SOME/IP packet whose id joins service and method ids. */
  function EthParse(serviceId: string, methodId: string, src: string, dst: string,
                    payloadHex: string, timestamp: Option<real>, now: real): (r: UnifiedPacket)
    ensures r.protocol == "ETH" && r.domain == "infotainment"
    ensures r.msgId == serviceId + "." + methodId
    ensures r.source == src && r.destination == dst && r.payloadHex == payloadHex
    ensures {"length", "service_id", "method_id"} <= r.payloadDecoded.Keys
    ensures r.payloadDecoded["length"] == VInt(|payloadHex| / 2)
    ensures r.payloadDecoded["service_id"] == VStr(serviceId) && r.payloadDecoded["method_id"] == VStr(methodId)
    ensures r.timestamp == (if timestamp.Some? then timestamp.value else now)
  {
    UnifiedPacket(
      timestamp := if timestamp.Some? then timestamp.value else now,
      protocol := "ETH",
      source := src,
      destination := dst,
      msgId := serviceId + "." + methodId,
      payloadHex := payloadHex,
      payloadDecoded := map[
        "service_id" := VStr(serviceId),
        "method_id" := VStr(methodId),
        "msg_type" := VStr("REQUEST"),
        "return_code" := VStr("E_OK"),
        "length" := VInt(|payloadHex| / 2)],
      domain := "infotainment",
      metadata := map["eth_type" := VStr("SOME/IP"), "vlan" := VInt(10)])
  }

  /** One raw input record: each key of the Python dict is either absent (`None`) or
      holds a value of the type the parser expects. */
  datatype RawRecord = RawRecord(
    protocol: Option<string>,
    timestamp: Option<real>,
    msgId: Option<string>,
    payloadHex: Option<string>,
    serviceId: Option<string>,
    methodId: Option<string>,
    source: Option<string>,
    destination: Option<string>,
    msgType: Option<string>,
    payloadDecoded: Option<Dict>,
    metadata: Option<Dict>)

  /** `rec.get(key, default)`. */
  function Get<T>(o: Option<T>, default: T): T {
    if o.Some? then o.value else default
  }

  /** The upper-cased protocol of a record (`rec.get("protocol", "").upper()`). */
  function ProtocolOf(rec: RawRecord): string {
    Upper(Get(rec.protocol, ""))
  }

  /** The batch parser keeps only CAN, ETH and V2X records. */
  predicate Accepted(rec: RawRecord) {
    ProtocolOf(rec) in {"CAN", "ETH", "V2X"}
  }

  /** The packet for one accepted record, or the exception its parsing raises. */
  function ParseAccepted(rec: RawRecord, now: real): (r: Result<UnifiedPacket>)
    requires Accepted(rec)
    ensures r.Success? ==> r.value.protocol == ProtocolOf(rec)
    ensures r.Success? ==> r.value.timestamp == Get(rec.timestamp, now)
  {
    var ts := Get(rec.timestamp, now);
    match ProtocolOf(rec)
    case "CAN" =>
      if rec.msgId.None? then Failure(KeyError("msg_id"))
      else CanParse(rec.msgId.value, Get(rec.payloadHex, ""), Some(ts), now)
    case "ETH" =>
      Success(EthParse(Get(rec.serviceId, "0x0000"), Get(rec.methodId, "0x0000"),
                       Get(rec.source, ""), Get(rec.destination, ""),
                       Get(rec.payloadHex, ""), Some(ts), now))
    case _ =>
      Success(UnifiedPacket(
        timestamp := ts,
        protocol := "V2X",
        source := Get(rec.source, ""),
        destination := Get(rec.destination, "BROADCAST"),
        msgId := Get(rec.msgType, "BSM"),
        payloadDecoded := Get(rec.payloadDecoded, map[]),
        domain := "v2x",
        metadata := Get(rec.metadata, map[])))
  }

  /** `TrafficParserService.parse_batch`: parses the accepted records in order and
      skips the others; the first record whose parsing raises aborts the batch. */
  function ParseBatch(recs: seq<RawRecord>, now: real): (r: Result<seq<UnifiedPacket>>)
    ensures r.Success? ==> |r.value| == |Filter(Accepted, recs)| <= |recs|
    ensures r.Failure? <==> exists i :: 0 <= i < |recs| && Accepted(recs[i]) && ParseAccepted(recs[i], now).Failure?
  {
    if recs == [] then Success([])
    else
      var head := recs[0];
      var first: Result<seq<UnifiedPacket>> :=
        if Accepted(head) then
          (var p :- ParseAccepted(head, now); Success([p]))
        else Success([]);
      if first.Failure? then Failure(first.error)
      else
        var rest := ParseBatch(recs[1..], now);
        assert forall i :: 1 <= i < |recs| ==> recs[i] == recs[1..][i - 1];
        if rest.Failure? then Failure(rest.error)
        else Success(first.value + rest.value)
  }

  // ---- Properties ----

  /** Each packet of a successful batch is the parse of the accepted record at the same
      position, so input order is preserved and protocols are upper-cased. */
  lemma {:induction false} ParseBatchInOrder(recs: seq<RawRecord>, now: real)
    requires ParseBatch(recs, now).Success?
    ensures var out := ParseBatch(recs, now).value;
      var acc := Filter(Accepted, recs);
      |out| == |acc| &&
      forall k :: 0 <= k < |out| ==>
        Accepted(acc[k]) && ParseAccepted(acc[k], now) == Success(out[k])
        && out[k].protocol == ProtocolOf(acc[k])
  {
    if recs != [] {
      var tail := recs[1..];
      var out := ParseBatch(recs, now).value;
      var acc := Filter(Accepted, recs);
      ParseBatchCons(recs, now);
      var outTail := ParseBatch(tail, now).value;
      var accTail := Filter(Accepted, tail);
      ParseBatchInOrder(tail, now);
      if Accepted(recs[0]) {
        forall k | 0 <= k < |out|
          ensures Accepted(acc[k]) && ParseAccepted(acc[k], now) == Success(out[k])
          ensures out[k].protocol == ProtocolOf(acc[k])
        {
          if k > 0 {
            assert out[k] == outTail[k - 1] && acc[k] == accTail[k - 1];
          }
        }
      }
    }
  }

  /** One step of a successful batch: the rest succeeds too, and the head record adds
      its packet exactly when it is accepted. */
  lemma ParseBatchCons(recs: seq<RawRecord>, now: real)
    requires recs != [] && ParseBatch(recs, now).Success?
    ensures ParseBatch(recs[1..], now).Success?
    ensures var out := ParseBatch(recs, now).value;
      var outTail := ParseBatch(recs[1..], now).value;
      var acc := Filter(Accepted, recs);
      var accTail := Filter(Accepted, recs[1..]);
      if Accepted(recs[0]) then
        && ParseAccepted(recs[0], now).Success?
        && out == [ParseAccepted(recs[0], now).value] + outTail
        && acc == [recs[0]] + accTail
      else out == outTail && acc == accTail
  {
  }

  /** A V2X record without fields becomes a broadcast BSM with an empty payload. */
  lemma V2xDefaults(now: real)
    ensures var rec := RawRecord(Some("v2x"), None, None, None, None, None, None, None, None, None, None);
      && Accepted(rec)
      && var p := ParseAccepted(rec, now);
      && p.Success?
      && p.value.msgId == "BSM" && p.value.destination == "BROADCAST"
      && p.value.domain == "v2x" && p.value.payloadHex == "" && p.value.timestamp == now
  {
    var rec := RawRecord(Some("v2x"), None, None, None, None, None, None, None, None, None, None);
    assert ProtocolOf(rec) == "V2X";
  }

  /** The decoded speed is the exact quarter-rpm value rounded to one decimal, so it
      lies within 0.05 of `raw * 0.25` and never exceeds 16383.8. */
  lemma RpmRange(raw: nat)
    requires raw < 65536
    ensures 0.0 <= Rpm(raw) <= 16383.8
    ensures -0.05 <= Rpm(raw) - raw as real * 0.25 <= 0.05
  {
    var t := RpmTenths(raw);
    assert 2 * t <= 5 * 65535 + 1;
    assert t <= 163838;
  }
}
