/** The CAN traffic generators of `simulators/can_simulator.py`: periodic ECU traffic and
    DoS, fuzzy and spoofing attacks. Every random draw is an input: `row(i)` is the table
    row `random.choice` picks for packet `i`, and `byte(i, j)` is the `j`-th payload byte
    drawn for it. `base` is the batch's base time (the caller's clock when omitted). */
module CanSimulator {
  import opened Results
  import opened Text
  import opened Seqs
  import opened Packets
  import opened Anomalies
  import TrafficParser
  import RuleDetector
  import IsolationForest

  /** One periodic message of the simulated vehicle: id, sending ECU, functional domain,
      period in milliseconds and data length in bytes. */
  datatype CanRow = CanRow(msgId: string, source: string, domain: string, periodMs: nat, dlc: nat)

  const NormalCanMessages: seq<CanRow> := [
    CanRow("0x0C0", "ECM", "powertrain", 10, 8),
    CanRow("0x0C8", "ECM", "powertrain", 20, 8),
    CanRow("0x130", "TCM", "powertrain", 20, 8),
    CanRow("0x180", "ABS", "chassis", 10, 8),
    CanRow("0x1A0", "ESP", "chassis", 20, 8),
    CanRow("0x200", "EPS", "chassis", 10, 8),
    CanRow("0x260", "BCM", "body", 100, 8),
    CanRow("0x280", "BCM", "body", 200, 4),
    CanRow("0x320", "ICM", "infotainment", 50, 8),
    CanRow("0x3E0", "HU", "infotainment", 100, 8),
    CanRow("0x7DF", "DIAG", "body", 0, 8),
    CanRow("0x7E0", "DIAG", "powertrain", 0, 8)
  ]

  /** A position in `NormalCanMessages`: what `random.choice` can return. */
  type RowIndex = i: int | 0 <= i < 12

  /** An id `random.randint(0, 0x7FF)` can draw. */
  type IdDraw = n: int | 0 <= n <= 0x7FF

  /** A length `random.randint(1, 8)` can draw. */
  type DlcDraw = n: int | 1 <= n <= 8 witness 1

  /** The number of iterations of `range(count)`. */
  function RangeLength(count: int): nat {
    if count <= 0 then 0 else count
  }

  const CanBusMetadata: Dict := map["bus" := VStr("CAN-H"), "bitrate" := VInt(500000)]

  /** The `dlc` bytes `_random_payload` draws for packet `i`. */
  function DrawnBytes(i: nat, dlc: nat, byte: (nat, nat) -> Byte): (bs: seq<Byte>)
    ensures |bs| == dlc
  {
    seq(dlc, j requires 0 <= j => byte(i, j))
  }

  /** `_decode_engine_rpm`: bytes 0 and 1 of the payload as a big-endian raw value
      times 0.25, rounded to one decimal, together with the raw payload. A payload whose
      first two slices are not hexadecimal raises ValueError. */
  function DecodeEngineRpm(payloadHex: string): (r: Result<Dict>)
    ensures r.Success? ==> r.value.Keys == {"rpm", "raw"} && r.value["raw"] == VStr(payloadHex)
  {
    var b0 := ParseInt16(Slice(payloadHex, 0, 2));
    var b1 := ParseInt16(Slice(payloadHex, 2, 4));
    if b0.None? || b1.None? then Failure(ValueError("invalid literal for int() with base 16"))
    else
      ShortHexByte(Slice(payloadHex, 2, 4));
      var raw := TrafficParser.ShiftOr(b0.value, b1.value);
      Success(map["rpm" := VReal(TrafficParser.Rpm(raw)), "raw" := VStr(payloadHex)])
  }

  /** The first two two-character slices of an encoding parse to its first two bytes. */
  lemma EncodedFirstBytesParse(bs: seq<Byte>)
    requires |bs| >= 2
    ensures ParseInt16(Slice(HexEncode(bs), 0, 2)) == Some(bs[0] as nat)
    ensures ParseInt16(Slice(HexEncode(bs), 2, 4)) == Some(bs[1] as nat)
  {
    HexEncodeFirstBytes(bs);
    ParseByteHex(bs[0]);
    ParseByteHex(bs[1]);
  }

  /** Decoding an encoded payload recovers the engine speed of its first two bytes. */
  lemma DecodeEngineRpmOfBytes(bs: seq<Byte>)
    requires |bs| >= 2
    ensures var h := HexEncode(bs);
      DecodeEngineRpm(h) == Success(map["rpm" := VReal(TrafficParser.Rpm(TrafficParser.ShiftOr(bs[0], bs[1]))), "raw" := VStr(h)])
  {
    EncodedFirstBytesParse(bs);
    DecodeEngineRpmOfParsed(HexEncode(bs), bs[0], bs[1]);
  }

  /** A payload whose first two slices parse decodes to the speed of those values. */
  lemma DecodeEngineRpmOfParsed(h: string, b0: nat, b1: nat)
    requires b1 < 256
    requires ParseInt16(Slice(h, 0, 2)) == Some(b0) && ParseInt16(Slice(h, 2, 4)) == Some(b1)
    ensures DecodeEngineRpm(h) == Success(map["rpm" := VReal(TrafficParser.Rpm(TrafficParser.ShiftOr(b0, b1))), "raw" := VStr(h)])
  {
  }

  /** The simulator's engine-speed decoder and the parser's agree: on a payload of at
      least four characters both fail or both yield the same rpm. */
  lemma DecodeEngineRpmAgrees(h: string)
    requires |h| >= 4
    ensures DecodeEngineRpm(h).Success? <==> TrafficParser.DecodeRpm(h).Success?
    ensures DecodeEngineRpm(h).Success? ==>
      DecodeEngineRpm(h).value["rpm"] == VReal(TrafficParser.DecodeRpm(h).value)
  {
    assert Slice(h, 0, 2) == h[0..2];
    assert Slice(h, 2, 4) == h[2..4];
  }

  /** The parser's decoder applied to the hex encoding of a payload recovers the
      engine speed of its first two bytes, high byte first. */
  lemma DecodeRpmOfBytes(bs: seq<Byte>)
    requires |bs| >= 2
    ensures var h := HexEncode(bs);
      |h| >= 4 && TrafficParser.DecodeRpm(h) == Success(TrafficParser.Rpm(TrafficParser.ShiftOr(bs[0], bs[1])))
  {
    var h := HexEncode(bs);
    EncodedFirstBytesParse(bs);
    assert Slice(h, 0, 2) == h[0..2];
    assert Slice(h, 2, 4) == h[2..4];
    DecodeRpmOfParsed(h, bs[0] as nat, bs[1] as nat);
  }

  /** A payload whose first two slices parse decodes, in the parser, to the speed of
      those values. */
  lemma DecodeRpmOfParsed(h: string, b0: nat, b1: nat)
    requires |h| >= 4
    requires ParseInt16(h[0..2]) == Some(b0) && ParseInt16(h[2..4]) == Some(b1)
    ensures TrafficParser.DecodeRpm(h) == Success(TrafficParser.Rpm(256 * b0 + b1))
  {
  }

  /** Every row's dlc is 4 or 8, and only the first row carries the engine-speed id. */
  lemma RowFacts(r: RowIndex)
    ensures NormalCanMessages[r].dlc in {4, 8}
    ensures NormalCanMessages[r].msgId == TrafficParser.EngineRpmId <==> r == 0
  {
  }

  // ---- Normal traffic ----

  /** Packet `i` of `generate_normal_can`, sent by table row `r`. */
  function NormalPacket(i: nat, base: real, r: RowIndex, byte: (nat, nat) -> Byte): UnifiedPacket {
    var row := NormalCanMessages[r];
    var bytes := DrawnBytes(i, row.dlc, byte);
    var payload := HexEncode(bytes);
    var decoded :=
      if row.msgId == TrafficParser.EngineRpmId then
        RowFacts(r);
        DecodeEngineRpmOfBytes(bytes);
        DecodeEngineRpm(payload).value
      else map["dlc" := VInt(row.dlc), "raw" := VStr(payload)];
    UnifiedPacket(
      timestamp := base + (i as real) * 0.01,
      protocol := "CAN",
      source := row.source,
      destination := "BROADCAST",
      msgId := row.msgId,
      payloadHex := payload,
      payloadDecoded := decoded,
      domain := row.domain,
      metadata := CanBusMetadata)
  }

  /** `generate_normal_can(count, base)`. */
  function GenerateNormalCan(count: int, base: real, row: nat -> RowIndex, byte: (nat, nat) -> Byte): (ps: seq<UnifiedPacket>)
    ensures |ps| == RangeLength(count)
  {
    seq(RangeLength(count), i requires 0 <= i => NormalPacket(i, base, row(i), byte))
  }

  /** Normal traffic: `count` packets (none for a non-positive count), spaced 10 ms
      apart from `base`, each a CAN broadcast whose id, sender and domain come from the
      drawn table row, whose payload is `2 * dlc` hexadecimal characters, and which
      carries no attack tag. */
  lemma NormalCanShape(count: int, base: real, row: nat -> RowIndex, byte: (nat, nat) -> Byte)
    ensures var ps := GenerateNormalCan(count, base, row, byte);
      && |ps| == (if count < 0 then 0 else count)
      && forall i :: 0 <= i < |ps| ==>
           var m := NormalCanMessages[row(i)];
           && ps[i].timestamp == base + (i as real) * 0.01
           && ps[i].protocol == "CAN" && ps[i].destination == "BROADCAST"
           && ps[i].msgId == m.msgId && ps[i].source == m.source && ps[i].domain == m.domain
           && |ps[i].payloadHex| == 2 * m.dlc && IsHexDigits(ps[i].payloadHex)
           && "attack" !in ps[i].metadata && !IsAttack(ps[i])
  {
    var ps := GenerateNormalCan(count, base, row, byte);
    forall i | 0 <= i < |ps|
      ensures IsHexDigits(ps[i].payloadHex)
    {
      HexEncodeDigits(DrawnBytes(i, NormalCanMessages[row(i)].dlc, byte));
    }
  }

  /** Normal traffic is in time order. */
  lemma NormalCanInTimeOrder(count: int, base: real, row: nat -> RowIndex, byte: (nat, nat) -> Byte)
    ensures var ps := GenerateNormalCan(count, base, row, byte);
      forall i, j :: 0 <= i <= j < |ps| ==> ps[i].timestamp <= ps[j].timestamp
  {
    var ps := GenerateNormalCan(count, base, row, byte);
    forall i, j | 0 <= i <= j < |ps|
      ensures ps[i].timestamp <= ps[j].timestamp
    {
      assert ps[i] == NormalPacket(i, base, row(i), byte);
      assert ps[j] == NormalPacket(j, base, row(j), byte);
      assert (i as real) * 0.01 <= (j as real) * 0.01;
    }
  }

  /** The ids of the normal message table are exactly the detector's whitelist. */
  lemma NormalIdsAreWhitelisted()
    ensures (set m | m in NormalCanMessages :: m.msgId) == RuleDetector.ValidCanIds
  {
    var ids := set m | m in NormalCanMessages :: m.msgId;
    assert ids <= RuleDetector.ValidCanIds by {
      forall m | m in NormalCanMessages
        ensures m.msgId in RuleDetector.ValidCanIds
      {
        var k :| 0 <= k < 12 && NormalCanMessages[k] == m;
        RowIdWhitelisted(k);
      }
    }
    assert RuleDetector.ValidCanIds <= ids by {
      var t := NormalCanMessages;
      assert RuleDetector.ValidCanIds == {t[0].msgId, t[1].msgId, t[2].msgId, t[3].msgId, t[4].msgId, t[5].msgId,
                                          t[6].msgId, t[7].msgId, t[8].msgId, t[9].msgId, t[10].msgId, t[11].msgId};
      forall k | 0 <= k < 12
        ensures t[k].msgId in ids
      {
        assert t[k] in t;
      }
    }
  }

  lemma RowIdWhitelisted(r: RowIndex)
    ensures NormalCanMessages[r].msgId in RuleDetector.ValidCanIds
  {
  }

  /** Normal traffic never raises an unknown-id alert. */
  lemma NormalTrafficHasNoUnknownIds(count: int, base: real, row: nat -> RowIndex, byte: (nat, nat) -> Byte)
    ensures RuleDetector.CheckUnknownId(GenerateNormalCan(count, base, row, byte)) == []
  {
    var ps := GenerateNormalCan(count, base, row, byte);
    NormalIdsAreWhitelisted();
    forall p | p in ps && RuleDetector.IsCan(p)
      ensures p.msgId in RuleDetector.ValidCanIds
    {
      var i :| 0 <= i < |ps| && ps[i] == p;
      assert NormalCanMessages[row(i)] in NormalCanMessages;
    }
    RuleDetector.WhitelistedBatchHasNoUnknownIdAlerts(ps);
  }

  /** The engine speed the simulator stores in an engine packet is what the traffic
      parser decodes from the same id and payload. */
  lemma NormalRpmMatchesParser(count: int, base: real, row: nat -> RowIndex, byte: (nat, nat) -> Byte, i: nat, now: real)
    requires i < RangeLength(count)
    requires row(i) == 0
    ensures var p := GenerateNormalCan(count, base, row, byte)[i];
      var parsed := TrafficParser.CanParse(p.msgId, p.payloadHex, Some(p.timestamp), now);
      && parsed.Success?
      && "rpm" in p.payloadDecoded && "rpm" in parsed.value.payloadDecoded
      && parsed.value.payloadDecoded["rpm"] == p.payloadDecoded["rpm"]
  {
    var p := GenerateNormalCan(count, base, row, byte)[i];
    var bytes := DrawnBytes(i, 8, byte);
    assert p.payloadHex == HexEncode(bytes);
    DecodeEngineRpmOfBytes(bytes);
    DecodeEngineRpmAgrees(p.payloadHex);
  }

  // ---- DoS ----

  const DosTargetId := "0x000"

  function DosPacket(i: nat, base: real, byte: (nat, nat) -> Byte): UnifiedPacket {
    UnifiedPacket(
      timestamp := base + (i as real) * 0.0002,
      protocol := "CAN",
      source := "ATTACKER",
      destination := "BROADCAST",
      msgId := DosTargetId,
      payloadHex := HexEncode(DrawnBytes(i, 8, byte)),
      payloadDecoded := map["attack" := VStr("dos"), "dlc" := VInt(8)],
      domain := "unknown",
      metadata := CanBusMetadata["attack" := VBool(true)])
  }

  /** `generate_dos_attack(count, base)`. */
  function GenerateDos(count: int, base: real, byte: (nat, nat) -> Byte): (ps: seq<UnifiedPacket>)
    ensures |ps| == RangeLength(count)
  {
    seq(RangeLength(count), i requires 0 <= i => DosPacket(i, base, byte))
  }

  /** A batch of CAN packets that all carry `id`. */
  predicate AllCanWithId(ps: seq<UnifiedPacket>, id: string) {
    forall i :: 0 <= i < |ps| ==> RuleDetector.IsCan(ps[i]) && ps[i].msgId == id
  }

  /** DoS traffic: `count` tagged attacker packets with id 0x000, spaced 0.2 ms apart. */
  lemma DosShape(count: int, base: real, byte: (nat, nat) -> Byte)
    ensures var ps := GenerateDos(count, base, byte);
      && |ps| == (if count < 0 then 0 else count)
      && AllCanWithId(ps, DosTargetId)
      && forall i :: 0 <= i < |ps| ==>
           && ps[i].timestamp == base + (i as real) * 0.0002
           && ps[i].source == "ATTACKER" && |ps[i].payloadHex| == 16
           && IsAttack(ps[i])
  {
  }

  /** The CAN ids of a batch that all carry `id` are `id` repeated. */
  lemma {:induction false} CanIdsOfOneId(ps: seq<UnifiedPacket>, id: string)
    requires AllCanWithId(ps, id)
    ensures RuleDetector.CanIds(ps) == seq(|ps|, _ => id)
    ensures id !in RuleDetector.ValidCanIds ==> RuleDetector.UnknownCanIds(ps) == seq(|ps|, _ => id)
  {
    if ps != [] {
      assert AllCanWithId(ps[1..], id) by {
        forall i | 0 <= i < |ps[1..]|
          ensures RuleDetector.IsCan(ps[1..][i]) && ps[1..][i].msgId == id
        {
          assert ps[1..][i] == ps[i + 1];
        }
      }
      CanIdsOfOneId(ps[1..], id);
    }
  }

  /** A non-empty DoS batch raises exactly one unknown-id alert, built from its first
      packet. */
  lemma DosRaisesOneUnknownIdAlert(count: int, base: real, byte: (nat, nat) -> Byte)
    requires count >= 1
    ensures var ps := GenerateDos(count, base, byte);
      RuleDetector.CheckUnknownId(ps) == [RuleDetector.UnknownIdEvent(ps[0])]
  {
    var ps := GenerateDos(count, base, byte);
    DosShape(count, base, byte);
    CanIdsOfOneId(ps, DosTargetId);
    var unknown := RuleDetector.UnknownCanIds(ps);
    SingleElementSet(unknown);
    RuleDetector.UnknownIdCheckSpec(ps);
    var ids := Distinct(unknown);
    var r := RuleDetector.CheckUnknownId(ps);
    assert |r| == 1;
    var j := RuleDetector.FirstCanIndex(ps, ids[0]);
    assert ps[j].msgId == DosTargetId;
    assert j == 0;
  }

  /** The frequency check compares each id's rate with the mean rate over ids, so a DoS
      batch, which has a single id, is flagged exactly when the threshold is below 1. */
  lemma DosFrequencyAlertIff(count: int, base: real, byte: (nat, nat) -> Byte, threshold: real)
    requires count >= 2 && threshold > 0.0
    ensures var r := RuleDetector.CheckFrequency(GenerateDos(count, base, byte), threshold);
      r.Success? && |r.value| == (if threshold < 1.0 then 1 else 0)
  {
    var ps := GenerateDos(count, base, byte);
    DosShape(count, base, byte);
    assert ps[|ps| - 1].timestamp > ps[0].timestamp;
    CanIdsOfOneId(ps, DosTargetId);
    OneIdFrequency(ps, DosTargetId, threshold);
  }

  /** The frequency check on a batch of one CAN id with a positive span. */
  lemma OneIdFrequency(ps: seq<UnifiedPacket>, id: string, threshold: real)
    requires |ps| >= 2 && ps[|ps| - 1].timestamp > ps[0].timestamp && threshold > 0.0
    requires RuleDetector.CanIds(ps) == seq(|ps|, _ => id)
    ensures var r := RuleDetector.CheckFrequency(ps, threshold);
      r.Success? && |r.value| == (if threshold < 1.0 then 1 else 0)
  {
    var n := |ps|;
    var canIds := RuleDetector.CanIds(ps);
    var ids := Distinct(canIds);
    OneIdCounts(canIds, id);
    assert ids[0] == id by {
      assert ids[0] in canIds;
    }
    var flagged := RuleDetector.FlaggedIds(ids, canIds, 1, n, threshold);
    var r := RuleDetector.CheckFrequency(ps, threshold);
    assert r.Success? && |r.value| == |flagged| by {
      RuleDetector.FrequencyCheckSpec(ps, threshold);
    }
    assert |flagged| == (if threshold < 1.0 then 1 else 0) by {
      FlaggedOne(ids, canIds, n, threshold);
      FlaggedWholeBatch(n, threshold);
    }
  }

  /** The flagging loop over a single id. */
  lemma FlaggedOne(ids: seq<string>, canIds: seq<string>, total: nat, threshold: real)
    requires |ids| == 1
    ensures RuleDetector.FlaggedIds(ids, canIds, 1, total, threshold)
      == if RuleDetector.Flagged(Count(canIds, ids[0]), 1, total, threshold) then [ids[0]] else []
  {
    assert ids[1..] == [];
  }

  /** An id that makes up the whole batch is flagged exactly when the threshold is
      below 1. */
  lemma FlaggedWholeBatch(n: nat, threshold: real)
    requires n > 0
    ensures RuleDetector.Flagged(n, 1, n, threshold) <==> threshold < 1.0
  {
    assert n as real * 1 as real == n as real;
  }

  /** A non-empty sequence of one repeated id has one distinct id, counted `|s|` times. */
  lemma OneIdCounts(s: seq<string>, id: string)
    requires |s| >= 1 && s == seq(|s|, _ => id)
    ensures |Distinct(s)| == 1 && id in s
    ensures Count(s, id) == |s|
  {
    assert s[0] == id;
    SingleElementSet(s);
    DistinctCardinality(s);
    CountConstant(s, id);
  }

  // ---- Fuzzy ----

  function FuzzyPacket(i: nat, base: real, id: IdDraw, dlc: DlcDraw, byte: (nat, nat) -> Byte): UnifiedPacket {
    UnifiedPacket(
      timestamp := base + (i as real) * 0.005,
      protocol := "CAN",
      source := "ATTACKER",
      destination := "BROADCAST",
      msgId := "0x" + FormatHex(id, 3),
      payloadHex := HexEncode(DrawnBytes(i, dlc, byte)),
      payloadDecoded := map["attack" := VStr("fuzzy"), "dlc" := VInt(dlc)],
      domain := "unknown",
      metadata := map["bus" := VStr("CAN-H"), "attack" := VBool(true)])
  }

  /** `generate_fuzzy_attack(count, base)`: `id(i)` and `dlc(i)` are the id and length
      drawn for packet `i`. */
  function GenerateFuzzy(count: int, base: real, id: nat -> IdDraw, dlc: nat -> DlcDraw, byte: (nat, nat) -> Byte): (ps: seq<UnifiedPacket>)
    ensures |ps| == RangeLength(count)
  {
    seq(RangeLength(count), i requires 0 <= i => FuzzyPacket(i, base, id(i), dlc(i), byte))
  }

  /** Fuzzy traffic: every id reads back, as `int(msg_id, 16)` and as the detector's
      feature column, to the drawn value, which is at most 0x7FF; the payload holds
      between 1 and 8 bytes and the decoded dlc counts them; every packet is tagged. */
  lemma FuzzyShape(count: int, base: real, id: nat -> IdDraw, dlc: nat -> DlcDraw, byte: (nat, nat) -> Byte, hash: IsolationForest.Hash)
    ensures var ps := GenerateFuzzy(count, base, id, dlc, byte);
      forall i :: 0 <= i < |ps| ==>
        && ParseInt16(ps[i].msgId) == Some(id(i))
        && IsolationForest.MsgIdNumber(ps[i].msgId, hash) == id(i) <= 0x7FF
        && 2 <= |ps[i].payloadHex| <= 16
        && "dlc" in ps[i].payloadDecoded && ps[i].payloadDecoded["dlc"] == VInt(|ps[i].payloadHex| / 2)
        && ps[i].timestamp == base + (i as real) * 0.005
        && IsAttack(ps[i])
  {
    var ps := GenerateFuzzy(count, base, id, dlc, byte);
    forall i | 0 <= i < |ps|
      ensures ParseInt16(ps[i].msgId) == Some(id(i))
      ensures IsolationForest.MsgIdNumber(ps[i].msgId, hash) == id(i)
      ensures ps[i].payloadDecoded["dlc"] == VInt(|ps[i].payloadHex| / 2)
    {
      assert ps[i] == FuzzyPacket(i, base, id(i), dlc(i), byte);
      ParsePrefixedFormatHex(id(i), 3);
      IsolationForest.MsgIdNumberOfCanId(id(i), hash);
    }
  }

  // ---- Spoofing ----

  function SpoofingPacket(i: nat, base: real, r: RowIndex): UnifiedPacket {
    var row := NormalCanMessages[r];
    UnifiedPacket(
      timestamp := base + (i as real) * 0.02,
      protocol := "CAN",
      source := row.source,
      destination := "BROADCAST",
      msgId := row.msgId,
      payloadHex := Repeat("FF", row.dlc),
      payloadDecoded := map["attack" := VStr("spoofing"), "spoofed_ecu" := VStr(row.source)],
      domain := row.domain,
      metadata := map["bus" := VStr("CAN-H"), "attack" := VBool(true)])
  }

  /** `generate_spoofing_attack(count, base)`: `r` is the one row drawn for the batch. */
  function GenerateSpoofing(count: int, base: real, r: RowIndex): (ps: seq<UnifiedPacket>)
    ensures |ps| == RangeLength(count)
  {
    seq(RangeLength(count), i requires 0 <= i => SpoofingPacket(i, base, r))
  }

  /** Spoofing traffic impersonates one legitimate row for the whole batch, so its ids
      are whitelisted, and every packet trips the payload rule as critical with
      confidence 0.9. */
  lemma SpoofingTripsPayloadRule(count: int, base: real, r: RowIndex)
    ensures var ps := GenerateSpoofing(count, base, r);
      && AllCanWithId(ps, NormalCanMessages[r].msgId)
      && NormalCanMessages[r].msgId in RuleDetector.ValidCanIds
      && forall i :: 0 <= i < |ps| ==>
           var a := RuleDetector.PayloadAlert(ps[i]);
           && ps[i].source == NormalCanMessages[r].source && IsAttack(ps[i])
           && a.Some? && a.value.severity == Critical && a.value.confidence == 0.9
  {
    var ps := GenerateSpoofing(count, base, r);
    var row := NormalCanMessages[r];
    RowIdWhitelisted(r);
    forall i | 0 <= i < |ps|
      ensures RuleDetector.PayloadAlert(ps[i]).Some?
      ensures RuleDetector.PayloadAlert(ps[i]).value.severity == Critical
      ensures RuleDetector.PayloadAlert(ps[i]).value.confidence == 0.9
    {
      assert ps[i] == SpoofingPacket(i, base, r);
      assert RepeatsOneByte(ps[i].payloadHex) && |ps[i].payloadHex| >= 8 && ps[i].payloadHex[..2] == "FF" by {
        RowFacts(r);
        RepeatRepeatsOneByte("FF", row.dlc);
      }
      RuleDetector.PayloadAlertSpec(ps[i]);
    }
  }
}
