/** The anomaly-event value type of `models/anomaly.py`. */
module Anomalies {
  import opened Packets

  /** The ordinal risk label attached to an alert. */
  datatype Severity = Low | Medium | High | Critical

  /** The position of a severity on the low-to-critical scale. */
  function SeverityRank(s: Severity): nat {
    match s
    case Low => 0
    case Medium => 1
    case High => 2
    case Critical => 3
  }

  /** One detector finding. `timestamp` and `anomalyType` must be supplied; the other
      fields default to medium severity, zero confidence and empty text. */
  datatype AnomalyEvent = AnomalyEvent(
    timestamp: real,
    anomalyType: string,
    severity: Severity := Medium,
    confidence: real := 0.0,
    protocol: string := "",
    sourceNode: string := "",
    targetNode: string := "",
    description: string := "",
    detectionMethod: string := "",
    rawPackets: seq<UnifiedPacket> := [])

  lemma AnomalyEventDefaults(timestamp: real, anomalyType: string)
    ensures var a := AnomalyEvent(timestamp, anomalyType);
      && a.severity == Medium
      && a.confidence == 0.0
      && a.protocol == "" && a.sourceNode == "" && a.targetNode == ""
      && a.description == "" && a.detectionMethod == ""
      && a.rawPackets == []
  {
  }
}
