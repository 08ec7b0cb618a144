/** The rule-based detector of `services/anomaly_detector.py` (`RuleBasedDetector`):
    a frequency check, a CAN-id whitelist check and a repeated-byte payload check. */
module RuleDetector {
  import opened Results
  import opened Seqs
  import opened Text
  import opened Packets
  import opened Anomalies
  import TrafficParser

  /** The whitelist of CAN ids. */
  const ValidCanIds: set<string> := {
    "0x0C0", "0x0C8", "0x130", "0x180", "0x1A0", "0x200",
    "0x260", "0x280", "0x320", "0x3E0", "0x7DF", "0x7E0"
  }

  predicate IsCan(p: UnifiedPacket) {
    p.protocol == "CAN"
  }

  /** The message ids of the CAN packets of a batch, in batch order. */
  function CanIds(ps: seq<UnifiedPacket>): (r: seq<string>)
    ensures |r| <= |ps|
  {
    if ps == [] then [] else (if IsCan(ps[0]) then [ps[0].msgId] else []) + CanIds(ps[1..])
  }

  // ---- Frequency check ----

  function FrequencySeverity(ratio: real): Severity {
    if ratio > 3.0 then Critical else if ratio > 1.5 then High else Medium
  }

  function FrequencyEvent(msgId: string, ratio: real, at: real): AnomalyEvent {
    AnomalyEvent(
      timestamp := at,
      anomalyType := "frequency_anomaly",
      severity := FrequencySeverity(ratio),
      confidence := if ratio < 1.0 then ratio else 1.0,
      protocol := "CAN",
      sourceNode := msgId,
      detectionMethod := "rule_frequency")
  }

  /** One iteration of the loop over the `Counter` items: an id whose rate `freq`
      exceeds `bar = avg * threshold` is flagged with ratio `freq / bar`; a zero bar
      divides by zero. */
  function FrequencyAlert(id: string, freq: real, bar: real, at: real): Result<Option<AnomalyEvent>> {
    if freq > bar then
      if bar == 0.0 then Failure(ZeroDivisionError)
      else Success(Some(FrequencyEvent(id, freq / bar, at)))
    else Success(None)
  }

  /** The loop over the `Counter` items, in first-occurrence order. */
  function FrequencyAlerts(ids: seq<string>, canIds: seq<string>, span: real, avg: real,
                           threshold: real, at: real): Result<seq<AnomalyEvent>>
    requires span > 0.0
  {
    if ids == [] then Success([])
    else
      var alert :- FrequencyAlert(ids[0], Count(canIds, ids[0]) as real / span, avg * threshold, at);
      var rest :- FrequencyAlerts(ids[1..], canIds, span, avg, threshold, at);
      Success((if alert.Some? then [alert.value] else []) + rest)
  }

  /** `_check_frequency`: the span is taken between the first and last packet of the
      whole batch, whatever their protocol. */
  function CheckFrequency(ps: seq<UnifiedPacket>, threshold: real): (r: Result<seq<AnomalyEvent>>)
    ensures |ps| < 2 ==> r == Success([])
    ensures |ps| >= 2 && ps[|ps| - 1].timestamp <= ps[0].timestamp ==> r == Success([])
    ensures CanIds(ps) == [] ==> r == Success([])
    ensures threshold != 0.0 ==> r.Success?
  {
    if |ps| < 2 then Success([])
    else
      var span := ps[|ps| - 1].timestamp - ps[0].timestamp;
      if span <= 0.0 then Success([])
      else
        var canIds := CanIds(ps);
        var ids := Distinct(canIds);
        if |ids| == 0 then Success([])
        else
          var avg := SumCounts(canIds, ids) as real / |ids| as real / span;
          SumCountsDistinct(canIds);
          assert ids[0] in canIds;
          assert avg > 0.0;
          FrequencyAlertsTotal(ids, canIds, span, avg, threshold, ps[|ps| - 1].timestamp);
          FrequencyAlerts(ids, canIds, span, avg, threshold, ps[|ps| - 1].timestamp)
  }

  lemma {:induction false} FrequencyAlertsTotal(ids: seq<string>, canIds: seq<string>, span: real,
                                                 avg: real, threshold: real, at: real)
    requires span > 0.0
    ensures threshold != 0.0 && avg > 0.0 ==> FrequencyAlerts(ids, canIds, span, avg, threshold, at).Success?
  {
    if ids != [] {
      FrequencyAlertsTotal(ids[1..], canIds, span, avg, threshold, at);
    }
  }

  /** With a zero threshold the bar `avg * threshold` is zero, so the first id already
      exceeds it and the ratio divides by zero. */
  lemma ZeroThresholdRaises(ps: seq<UnifiedPacket>)
    requires |ps| >= 2 && ps[|ps| - 1].timestamp > ps[0].timestamp
    requires CanIds(ps) != []
    ensures CheckFrequency(ps, 0.0) == Failure(ZeroDivisionError)
  {
    var canIds := CanIds(ps);
    var ids := Distinct(canIds);
    assert canIds[0] in ids;
    var span := ps[|ps| - 1].timestamp - ps[0].timestamp;
    var avg := SumCounts(canIds, ids) as real / |ids| as real / span;
    CountPositive(canIds, ids[0]);
    assert Count(canIds, ids[0]) as real / span > 0.0;
    assert FrequencyAlert(ids[0], Count(canIds, ids[0]) as real / span, avg * 0.0, ps[|ps| - 1].timestamp)
      == Failure(ZeroDivisionError);
  }

  /** An id is flagged when its count `c` among `total` CAN packets spread over `k`
      distinct ids satisfies `c * k > total * threshold`. */
  predicate Flagged(c: nat, k: nat, total: nat, threshold: real) {
    c as real * k as real > total as real * threshold
  }

  /** The span cancels out of the rate comparison and of the ratio. */
  lemma RateComparison(c: real, total: real, k: real, span: real, threshold: real, avg: real)
    requires c >= 0.0 && total > 0.0 && k > 0.0 && span > 0.0 && threshold > 0.0
    requires avg == total / k / span
    ensures avg * threshold > 0.0
    ensures c / span > avg * threshold <==> c * k > total * threshold
    ensures (c / span) / (avg * threshold) == (c * k) / (total * threshold)
  {
    assert avg * k * span == total;
    var f := c / span;
    assert f * span == c;
    var m := avg * threshold;
    assert m * span * k == total * threshold;
    assert m > 0.0;
    if f > m {
      assert f * span * k > m * span * k;
    }
    if c * k > total * threshold {
      assert f * span * k > m * span * k;
    }
    assert (f / m) * (total * threshold) == (f / m) * (m * span * k) == f * span * k == c * k;
  }

  /** The reference list of flagged ids, in first-occurrence order. */
  function FlaggedIds(ids: seq<string>, canIds: seq<string>, k: nat, total: nat, threshold: real): (r: seq<string>)
    ensures forall x :: x in r ==> x in ids
  {
    if ids == [] then []
    else (if Flagged(Count(canIds, ids[0]), k, total, threshold) then [ids[0]] else [])
         + FlaggedIds(ids[1..], canIds, k, total, threshold)
  }

  /** The ratio reported for an id seen `c` times. */
  function FlagRatio(c: nat, k: nat, total: nat, threshold: real): real
    requires total > 0 && threshold > 0.0
  {
    (c as real * k as real) / (total as real * threshold)
  }

  /** One step of the alert loop, with the span cancelled out. */
  lemma FrequencyAlertStep(canIds: seq<string>, id: string, span: real, avg: real, k: nat, total: nat, threshold: real, at: real)
    requires span > 0.0 && threshold > 0.0 && k > 0 && total > 0
    requires avg == total as real / k as real / span
    ensures StepAsFlagged(canIds, span, avg, threshold, at, k, total, id)
  {
    var c := Count(canIds, id);
    FlagComparison(c, k, total, span, threshold, avg);
    AlertOfComparison(id, c as real / span, avg * threshold, at, Flagged(c, k, total, threshold), FlagRatio(c, k, total, threshold));
  }

  /** The rate comparison and the ratio of one id, in terms of its count. */
  lemma FlagComparison(c: nat, k: nat, total: nat, span: real, threshold: real, avg: real)
    requires span > 0.0 && threshold > 0.0 && k > 0 && total > 0
    requires avg == total as real / k as real / span
    ensures avg * threshold != 0.0
    ensures c as real / span > avg * threshold <==> Flagged(c, k, total, threshold)
    ensures (c as real / span) / (avg * threshold) == FlagRatio(c, k, total, threshold)
  {
    RateComparison(c as real, total as real, k as real, span, threshold, avg);
  }

  /** The alert of one id, once the rate comparison and the ratio are known. */
  lemma AlertOfComparison(id: string, freq: real, bar: real, at: real, flagged: bool, ratio: real)
    requires bar != 0.0 && (freq > bar <==> flagged) && freq / bar == ratio
    ensures FrequencyAlert(id, freq, bar, at)
      == if flagged then Success(Some(FrequencyEvent(id, ratio, at))) else Success(None)
  {
  }

  /** Every iteration of the loop behaves as `Flagged` says. */
  ghost predicate StepsAsFlagged(canIds: seq<string>, span: real, avg: real, threshold: real, at: real, k: nat, total: nat)
    requires span > 0.0 && threshold > 0.0 && total > 0
  {
    forall id: string :: StepAsFlagged(canIds, span, avg, threshold, at, k, total, id)
  }

  /** The iteration for one id behaves as `Flagged` says. */
  ghost predicate StepAsFlagged(canIds: seq<string>, span: real, avg: real, threshold: real, at: real, k: nat, total: nat, id: string)
    requires span > 0.0 && threshold > 0.0 && total > 0
  {
    FrequencyAlert(id, Count(canIds, id) as real / span, avg * threshold, at)
      == if Flagged(Count(canIds, id), k, total, threshold)
         then Success(Some(FrequencyEvent(id, FlagRatio(Count(canIds, id), k, total, threshold), at)))
         else Success(None)
  }

  lemma {:induction false} FrequencyAlertsMatch(ids: seq<string>, canIds: seq<string>, span: real, avg: real,
                                                 k: nat, total: nat, threshold: real, at: real)
    requires span > 0.0 && threshold > 0.0 && total > 0
    requires StepsAsFlagged(canIds, span, avg, threshold, at, k, total)
    ensures var r := FrequencyAlerts(ids, canIds, span, avg, threshold, at);
      var flagged := FlaggedIds(ids, canIds, k, total, threshold);
      && r.Success? && |r.value| == |flagged|
      && forall i :: 0 <= i < |flagged| ==>
           r.value[i] == FrequencyEvent(flagged[i], FlagRatio(Count(canIds, flagged[i]), k, total, threshold), at)
  {
    if ids != [] {
      FrequencyAlertsMatch(ids[1..], canIds, span, avg, k, total, threshold, at);
      assert StepAsFlagged(canIds, span, avg, threshold, at, k, total, ids[0]);
    }
  }

  /** Frequency alerts: with a positive span and threshold, exactly the CAN ids whose
      count `c` satisfies `c * k > total * threshold` are flagged, in first-occurrence
      order; each alert's ratio is `c * k / (total * threshold)`, which exceeds 1, so
      its confidence is 1.0, and its severity follows the ratio. */
  lemma FrequencyCheckSpec(ps: seq<UnifiedPacket>, threshold: real)
    requires |ps| >= 2 && ps[|ps| - 1].timestamp > ps[0].timestamp
    requires threshold > 0.0
    ensures var canIds := CanIds(ps);
      var ids := Distinct(canIds);
      var k := |ids|;
      var total := |canIds|;
      var flagged := FlaggedIds(ids, canIds, k, total, threshold);
      var r := CheckFrequency(ps, threshold);
      && r.Success? && |r.value| == |flagged|
      && (forall id :: id in flagged <==> id in canIds && Flagged(Count(canIds, id), k, total, threshold))
      && (total > 0 ==> forall i :: 0 <= i < |flagged| ==>
           var ratio := FlagRatio(Count(canIds, flagged[i]), k, total, threshold);
           && ratio > 1.0
           && r.value[i] == FrequencyEvent(flagged[i], ratio, ps[|ps| - 1].timestamp))
  {
    var canIds := CanIds(ps);
    var ids := Distinct(canIds);
    var k := |ids|;
    var total := |canIds|;
    var flagged := FlaggedIds(ids, canIds, k, total, threshold);
    var span := ps[|ps| - 1].timestamp - ps[0].timestamp;
    var at := ps[|ps| - 1].timestamp;
    FlaggedIdsMembers(ids, canIds, k, total, threshold);
    if k > 0 {
      var avg := CheckFrequencyUnfold(ps, threshold);
      StepsHold(canIds, span, avg, k, total, threshold, at);
      FrequencyAlertsMatch(ids, canIds, span, avg, k, total, threshold, at);
      forall i | 0 <= i < |flagged|
        ensures FlagRatio(Count(canIds, flagged[i]), k, total, threshold) > 1.0
      {
        assert flagged[i] in flagged;
        RatioAboveOne(Count(canIds, flagged[i]), k, total, threshold);
      }
    }
  }

  /** With CAN ids present, the check is the alert loop over the distinct ids, with
      the average rate `total / k / span`. */
  lemma CheckFrequencyUnfold(ps: seq<UnifiedPacket>, threshold: real) returns (avg: real)
    requires |ps| >= 2 && ps[|ps| - 1].timestamp > ps[0].timestamp
    requires Distinct(CanIds(ps)) != []
    ensures var canIds := CanIds(ps);
      var span := ps[|ps| - 1].timestamp - ps[0].timestamp;
      && |canIds| > 0
      && avg == |canIds| as real / |Distinct(canIds)| as real / span
      && CheckFrequency(ps, threshold)
         == FrequencyAlerts(Distinct(canIds), canIds, span, avg, threshold, ps[|ps| - 1].timestamp)
  {
    var canIds := CanIds(ps);
    var ids := Distinct(canIds);
    var span := ps[|ps| - 1].timestamp - ps[0].timestamp;
    SumCountsDistinct(canIds);
    assert ids[0] in canIds;
    avg := SumCounts(canIds, ids) as real / |ids| as real / span;
  }

  lemma StepsHold(canIds: seq<string>, span: real, avg: real, k: nat, total: nat, threshold: real, at: real)
    requires span > 0.0 && threshold > 0.0 && k > 0 && total > 0
    requires avg == total as real / k as real / span
    ensures StepsAsFlagged(canIds, span, avg, threshold, at, k, total)
  {
    forall id: string
      ensures StepAsFlagged(canIds, span, avg, threshold, at, k, total, id)
    {
      FrequencyAlertStep(canIds, id, span, avg, k, total, threshold, at);
    }
  }

  lemma RatioAboveOne(c: nat, k: nat, total: nat, threshold: real)
    requires total > 0 && threshold > 0.0 && Flagged(c, k, total, threshold)
    ensures FlagRatio(c, k, total, threshold) > 1.0
  {
  }

  lemma {:induction false} FlaggedIdsMembers(ids: seq<string>, canIds: seq<string>, k: nat, total: nat, threshold: real)
    ensures forall id :: id in FlaggedIds(ids, canIds, k, total, threshold) <==>
      id in ids && Flagged(Count(canIds, id), k, total, threshold)
  {
    if ids != [] {
      FlaggedIdsMembers(ids[1..], canIds, k, total, threshold);
    }
  }

  /** The manual detection endpoint (`routers/anomaly.py:100`) hands the detector the
      most recent packets newest first; on such a batch the span is never positive, so
      the frequency check never fires there. */
  lemma NewestFirstBatchHasNoFrequencyAlerts(ps: seq<UnifiedPacket>, threshold: real)
    requires forall i, j :: 0 <= i < j < |ps| ==> ps[i].timestamp >= ps[j].timestamp
    ensures CheckFrequency(ps, threshold) == Success([])
  {
    if |ps| >= 2 {
      assert ps[0].timestamp >= ps[|ps| - 1].timestamp;
    }
  }

  // ---- Unknown-id check ----

  function UnknownIdEvent(p: UnifiedPacket): (a: AnomalyEvent)
    ensures a.severity == High && a.confidence == 0.8 && a.anomalyType == "unknown_can_id"
  {
    AnomalyEvent(
      timestamp := p.timestamp,
      anomalyType := "unknown_can_id",
      severity := High,
      confidence := 0.8,
      protocol := "CAN",
      sourceNode := p.source,
      detectionMethod := "rule_id_whitelist")
  }

  /** The loop of `_check_unknown_id` from a given "seen" set onwards. */
  function UnknownIdScan(ps: seq<UnifiedPacket>, seen: set<string>): seq<AnomalyEvent> {
    if ps == [] then []
    else
      var p := ps[0];
      if !IsCan(p) then UnknownIdScan(ps[1..], seen)
      else if p.msgId !in ValidCanIds && p.msgId !in seen then
        [UnknownIdEvent(p)] + UnknownIdScan(ps[1..], seen + {p.msgId})
      else UnknownIdScan(ps[1..], seen)
  }

  /** `_check_unknown_id`. */
  function CheckUnknownId(ps: seq<UnifiedPacket>): seq<AnomalyEvent> {
    UnknownIdScan(ps, {})
  }

  /** The ids of the CAN packets that are not whitelisted, in batch order. */
  function UnknownCanIds(ps: seq<UnifiedPacket>): (r: seq<string>)
    ensures forall id :: id in r ==> id !in ValidCanIds
  {
    if ps == [] then []
    else (if IsCan(ps[0]) && ps[0].msgId !in ValidCanIds then [ps[0].msgId] else []) + UnknownCanIds(ps[1..])
  }

  /** The position of the first CAN packet carrying `id`, or `|ps|` if there is none. */
  function FirstCanIndex(ps: seq<UnifiedPacket>, id: string): (r: nat)
    ensures r <= |ps|
    ensures r < |ps| ==> IsCan(ps[r]) && ps[r].msgId == id
    ensures forall j :: 0 <= j < r ==> !(IsCan(ps[j]) && ps[j].msgId == id)
  {
    if ps == [] then 0
    else if IsCan(ps[0]) && ps[0].msgId == id then 0
    else 1 + FirstCanIndex(ps[1..], id)
  }

  lemma {:induction false} UnknownCanIdsPresent(ps: seq<UnifiedPacket>, id: string)
    requires id in UnknownCanIds(ps)
    ensures FirstCanIndex(ps, id) < |ps|
  {
    if !(IsCan(ps[0]) && ps[0].msgId == id) {
      UnknownCanIdsPresent(ps[1..], id);
    }
  }

  /** What `UnknownIdScan` computes from a given "seen" set. */
  predicate ScanMatches(ps: seq<UnifiedPacket>, seen: set<string>) {
    var d := DistinctFrom(UnknownCanIds(ps), seen);
    var r := UnknownIdScan(ps, seen);
    && |r| == |d|
    && forall i :: 0 <= i < |d| ==>
         FirstCanIndex(ps, d[i]) < |ps| && r[i] == UnknownIdEvent(ps[FirstCanIndex(ps, d[i])])
  }

  lemma {:induction false} UnknownIdScanSpec(ps: seq<UnifiedPacket>, seen: set<string>)
    ensures ScanMatches(ps, seen)
  {
    if ps != [] {
      var p := ps[0];
      if IsCan(p) && p.msgId !in ValidCanIds && p.msgId !in seen {
        UnknownIdScanSpec(ps[1..], seen + {p.msgId});
        ScanNewId(ps, seen);
      } else {
        UnknownIdScanSpec(ps[1..], seen);
        ScanSkip(ps, seen);
      }
    }
  }

  /** The head packet carries a new unknown id: it yields the first alert. */
  lemma ScanNewId(ps: seq<UnifiedPacket>, seen: set<string>)
    requires ps != [] && IsCan(ps[0]) && ps[0].msgId !in ValidCanIds && ps[0].msgId !in seen
    requires ScanMatches(ps[1..], seen + {ps[0].msgId})
    ensures ScanMatches(ps, seen)
  {
    var p, tail := ps[0], ps[1..];
    var seen' := seen + {p.msgId};
    var d := DistinctFrom(UnknownCanIds(ps), seen);
    var dt := DistinctFrom(UnknownCanIds(tail), seen');
    var r, rt := UnknownIdScan(ps, seen), UnknownIdScan(tail, seen');
    assert d == [p.msgId] + dt by {
      assert UnknownCanIds(ps) == [p.msgId] + UnknownCanIds(tail);
    }
    assert r == [UnknownIdEvent(p)] + rt;
    forall i | 0 <= i < |d|
      ensures FirstCanIndex(ps, d[i]) < |ps| && r[i] == UnknownIdEvent(ps[FirstCanIndex(ps, d[i])])
    {
      if i > 0 {
        var id := dt[i - 1];
        assert id in dt;
        assert id != p.msgId;
        assert FirstCanIndex(ps, id) == 1 + FirstCanIndex(tail, id);
        assert r[i] == rt[i - 1];
      }
    }
  }

  /** The head packet yields no alert: the scan of the tail is the whole answer. */
  lemma ScanSkip(ps: seq<UnifiedPacket>, seen: set<string>)
    requires ps != [] && !(IsCan(ps[0]) && ps[0].msgId !in ValidCanIds && ps[0].msgId !in seen)
    requires ScanMatches(ps[1..], seen)
    ensures ScanMatches(ps, seen)
  {
    var p, tail := ps[0], ps[1..];
    var d := DistinctFrom(UnknownCanIds(ps), seen);
    var dt := DistinctFrom(UnknownCanIds(tail), seen);
    assert UnknownIdScan(ps, seen) == UnknownIdScan(tail, seen);
    if IsCan(p) && p.msgId !in ValidCanIds {
      assert UnknownCanIds(ps) == [p.msgId] + UnknownCanIds(tail);
      assert p.msgId in seen;
    } else {
      assert UnknownCanIds(ps) == UnknownCanIds(tail);
    }
    assert d == dt;
    forall i | 0 <= i < |d|
      ensures FirstCanIndex(ps, d[i]) == 1 + FirstCanIndex(tail, d[i])
    {
      assert d[i] in d;
      assert d[i] !in seen && d[i] !in ValidCanIds;
    }
  }

  /** Unknown-id alerts: exactly one alert per distinct non-whitelisted CAN id, in order
      of first occurrence, each built from the first CAN packet carrying that id;
      non-CAN packets never contribute. */
  lemma UnknownIdCheckSpec(ps: seq<UnifiedPacket>)
    ensures var ids := Distinct(UnknownCanIds(ps));
      var r := CheckUnknownId(ps);
      && |r| == |ids| == |set id | id in UnknownCanIds(ps)|
      && NoDuplicates(ids)
      && forall i :: 0 <= i < |ids| ==>
           var j := FirstCanIndex(ps, ids[i]);
           && j < |ps| && ps[j].msgId !in ValidCanIds
           && r[i] == UnknownIdEvent(ps[j])
  {
    UnknownIdScanSpec(ps, {});
    DistinctCardinality(UnknownCanIds(ps));
  }

  /** A batch whose CAN ids are all whitelisted raises no unknown-id alert. */
  lemma WhitelistedBatchHasNoUnknownIdAlerts(ps: seq<UnifiedPacket>)
    requires forall p :: p in ps && IsCan(p) ==> p.msgId in ValidCanIds
    ensures CheckUnknownId(ps) == []
  {
    UnknownIdScanSpec(ps, {});
    NoUnknownIds(ps);
  }

  lemma {:induction false} NoUnknownIds(ps: seq<UnifiedPacket>)
    requires forall p :: p in ps && IsCan(p) ==> p.msgId in ValidCanIds
    ensures UnknownCanIds(ps) == []
  {
    if ps != [] {
      assert forall p :: p in ps[1..] ==> p in ps;
      NoUnknownIds(ps[1..]);
    }
  }

  /** The parser's table of known ids and the whitelist are the same set, so a parsed
      known id never trips the whitelist. */
  lemma KnownIdsAreWhitelisted()
    ensures TrafficParser.KnownIds.Keys == ValidCanIds
  {
  }

  // ---- Payload check ----

  /** The severity and confidence of a repeated-byte payload. */
  predicate CriticalByte(chunk: string) {
    chunk in {"ff", "FF", "00"}
  }

  /** The alert `_check_payload` raises for one packet, if any. */
  function PayloadAlert(p: UnifiedPacket): Option<AnomalyEvent> {
    if !IsCan(p) || p.payloadHex == "" then None
    else
      var chunks := Chunks(p.payloadHex);
      if |set c | c in chunks| == 1 && |p.payloadHex| >= 8 then
        var critical := CriticalByte(chunks[0]);
        Some(AnomalyEvent(
          timestamp := p.timestamp,
          anomalyType := "payload_anomaly",
          severity := if critical then Critical else Low,
          confidence := if critical then 0.9 else 0.5,
          protocol := "CAN",
          sourceNode := p.source,
          targetNode := p.msgId,
          detectionMethod := "rule_payload"))
      else None
  }

  /** `_check_payload`: one alert per offending packet, in batch order. */
  function CheckPayload(ps: seq<UnifiedPacket>): (r: seq<AnomalyEvent>)
    ensures |r| <= |ps|
    ensures forall a :: a in r ==> a.anomalyType == "payload_anomaly" && a.detectionMethod == "rule_payload"
  {
    if ps == [] then []
    else
      (var a := PayloadAlert(ps[0]); if a.Some? then [a.value] else []) + CheckPayload(ps[1..])
  }

  predicate HasPayloadAlert(p: UnifiedPacket) {
    PayloadAlert(p).Some?
  }

  /** The payload alerts are exactly the alerts of the offending packets, one each,
      in batch order. */
  lemma {:induction false} CheckPayloadSpec(ps: seq<UnifiedPacket>)
    ensures var offenders := Filter(HasPayloadAlert, ps);
      && |CheckPayload(ps)| == |offenders|
      && forall k :: 0 <= k < |offenders| ==> Some(CheckPayload(ps)[k]) == PayloadAlert(offenders[k])
  {
    if ps != [] {
      CheckPayloadSpec(ps[1..]);
      var head := if HasPayloadAlert(ps[0]) then [ps[0]] else [];
      var rest := Filter(HasPayloadAlert, ps[1..]);
      assert Filter(HasPayloadAlert, ps) == head + rest;
      var a := PayloadAlert(ps[0]);
      assert CheckPayload(ps) == (if a.Some? then [a.value] else []) + CheckPayload(ps[1..]);
    }
  }

  /** Payload alerts: a packet raises one exactly when it is CAN, its hex payload has
      at least 8 characters and repeats a single two-character byte; the alert is
      critical with confidence 0.9 for "ff", "FF" or "00" and low with 0.5 otherwise. */
  lemma PayloadAlertSpec(p: UnifiedPacket)
    ensures var h := p.payloadHex;
      PayloadAlert(p).Some? <==> IsCan(p) && |h| >= 8 && RepeatsOneByte(h)
    ensures PayloadAlert(p).Some? ==>
      var a := PayloadAlert(p).value;
      var critical := CriticalByte(p.payloadHex[..2]);
      && a.anomalyType == "payload_anomaly" && a.targetNode == p.msgId
      && a.severity == (if critical then Critical else Low)
      && a.confidence == (if critical then 0.9 else 0.5)
  {
    if IsCan(p) && |p.payloadHex| >= 8 {
      RepeatedByteChunks(p.payloadHex);
    }
  }

  // ---- Composition ----

  /** `check`: frequency alerts, then unknown-id alerts, then payload alerts. */
  function Check(ps: seq<UnifiedPacket>, threshold: real): (r: Result<seq<AnomalyEvent>>)
    ensures ps == [] ==> r == Success([])
    ensures threshold != 0.0 ==> r.Success?
    ensures r.Success? ==> forall a :: a in r.value ==>
      a.anomalyType in {"frequency_anomaly", "unknown_can_id", "payload_anomaly"} && a.protocol == "CAN"
  {
    var frequency :- CheckFrequency(ps, threshold);
    FrequencyAlertKinds(ps, threshold);
    UnknownIdAlertKinds(ps, {});
    PayloadAlertKinds(ps);
    Success(frequency + CheckUnknownId(ps) + CheckPayload(ps))
  }

  lemma FrequencyAlertKinds(ps: seq<UnifiedPacket>, threshold: real)
    ensures CheckFrequency(ps, threshold).Success? ==>
      forall a :: a in CheckFrequency(ps, threshold).value ==> a.anomalyType == "frequency_anomaly" && a.protocol == "CAN"
  {
    if |ps| >= 2 && ps[|ps| - 1].timestamp - ps[0].timestamp > 0.0 {
      var canIds := CanIds(ps);
      var ids := Distinct(canIds);
      if |ids| > 0 {
        var span := ps[|ps| - 1].timestamp - ps[0].timestamp;
        var avg := SumCounts(canIds, ids) as real / |ids| as real / span;
        FrequencyAlertsKinds(ids, canIds, span, avg, threshold, ps[|ps| - 1].timestamp);
      }
    }
  }

  lemma {:induction false} FrequencyAlertsKinds(ids: seq<string>, canIds: seq<string>, span: real,
                                                 avg: real, threshold: real, at: real)
    requires span > 0.0
    ensures var r := FrequencyAlerts(ids, canIds, span, avg, threshold, at);
      r.Success? ==> forall a :: a in r.value ==> a.anomalyType == "frequency_anomaly" && a.protocol == "CAN"
  {
    if ids != [] {
      FrequencyAlertsKinds(ids[1..], canIds, span, avg, threshold, at);
    }
  }

  lemma {:induction false} UnknownIdAlertKinds(ps: seq<UnifiedPacket>, seen: set<string>)
    ensures forall a :: a in UnknownIdScan(ps, seen) ==> a.anomalyType == "unknown_can_id" && a.protocol == "CAN"
  {
    if ps != [] {
      UnknownIdAlertKinds(ps[1..], seen);
      UnknownIdAlertKinds(ps[1..], seen + {ps[0].msgId});
    }
  }

  lemma {:induction false} PayloadAlertKinds(ps: seq<UnifiedPacket>)
    ensures forall a :: a in CheckPayload(ps) ==> a.anomalyType == "payload_anomaly" && a.protocol == "CAN"
  {
    if ps != [] {
      PayloadAlertKinds(ps[1..]);
    }
  }
}
