/** The two-stage detection entry point of `services/anomaly_detector.py`
    (`AnomalyDetectorService`): rule alerts, then machine-learning alerts, merged and
    sorted by descending confidence. */
module DetectorService {
  import opened Results
  import opened Seqs
  import opened Packets
  import opened Anomalies
  import opened Config
  import RuleDetector
  import opened IsolationForest

  /** The service state: the rule detector is stateless, so only the forest is kept. */
  datatype Service = Service(forest: Forest)

  function NewService(settings: DetectorSettings): (s: Service)
    ensures !s.forest.fitted && s.forest.training == []
    ensures s.forest.contamination == ContaminationOf(settings.contamination)
  {
    Service(NewForest(ContaminationOf(settings.contamination)))
  }

  /** The configured contamination as the model library reads it: the string "auto",
      a number (a boolean counts as 0 or 1), or an unsupported value. */
  function ContaminationOf(v: Value): Contamination {
    if v == VStr("auto") then Auto
    else match AsNumber(v)
      case Some(x) => Fraction(x)
      case None => Unsupported
  }

  /** `train`: fits the forest on the batch. */
  function Train(s: Service, ps: seq<UnifiedPacket>, hash: Hash, log2: Log2): (r: Result<Service>)
    ensures r.Success? <==> Fit(s.forest, ps, hash, log2).Success?
    ensures r.Success? ==> r.value.forest == Fit(s.forest, ps, hash, log2).value
    ensures r.Success? && ps != [] ==> r.value.forest.fitted
    ensures r.Success? && s.forest.fitted ==> r.value.forest.fitted
  {
    var f :- Fit(s.forest, ps, hash, log2);
    Success(Service(f))
  }

  /** The configured contamination passes the model library's check exactly when it
      is the string "auto" or a number in (0, 0.5]; the default 0.05 passes. */
  lemma ContaminationAccepted(v: Value)
    ensures ValidContamination(ContaminationOf(v)) <==>
      v == VStr("auto") || (AsNumber(v).Some? && 0.0 < AsNumber(v).value <= 0.5)
    ensures ValidContamination(ContaminationOf(VReal(0.05)))
  {
    assert ContaminationOf(VReal(0.05)) == Fraction(0.05);
  }

  /** Training a new service fails on a non-empty batch exactly when its contamination
      does not pass that check, once the features could be extracted. */
  lemma TrainContaminationCheck(settings: DetectorSettings, ps: seq<UnifiedPacket>, hash: Hash, log2: Log2)
    requires ps != [] && ExtractFeatures(ps, hash, log2).Success?
    ensures Train(NewService(settings), ps, hash, log2).Success? <==>
      ValidContamination(ContaminationOf(settings.contamination))
  {
    var s := NewService(settings);
    FitContaminationCheck(s.forest, ps, hash, log2);
  }

  // ---- Sorting by descending confidence ----

  predicate SortedByConfidence(s: seq<AnomalyEvent>) {
    forall i, j :: 0 <= i < j < |s| ==> s[i].confidence >= s[j].confidence
  }

  /** Places `a` before the first alert whose confidence does not exceed its own. */
  function Insert(a: AnomalyEvent, s: seq<AnomalyEvent>): (r: seq<AnomalyEvent>)
    ensures |r| == |s| + 1
    ensures multiset(r) == multiset(s) + multiset{a}
    ensures forall x :: x in r ==> x == a || x in s
  {
    if s == [] || a.confidence >= s[0].confidence then [a] + s
    else
      assert s == [s[0]] + s[1..];
      [s[0]] + Insert(a, s[1..])
  }

  /** `alerts.sort(key=confidence, reverse=True)`: a stable sort, highest confidence first. */
  function SortByConfidence(s: seq<AnomalyEvent>): (r: seq<AnomalyEvent>)
    ensures |r| == |s|
    ensures multiset(r) == multiset(s)
  {
    if s == [] then []
    else
      assert s == [s[0]] + s[1..];
      Insert(s[0], SortByConfidence(s[1..]))
  }

  lemma {:induction false} InsertSorted(a: AnomalyEvent, s: seq<AnomalyEvent>)
    requires SortedByConfidence(s)
    ensures SortedByConfidence(Insert(a, s))
  {
    if s != [] && a.confidence < s[0].confidence {
      var t := s[1..];
      InsertSorted(a, t);
      var r := Insert(a, t);
      forall j | 0 <= j < |r|
        ensures s[0].confidence >= r[j].confidence
      {
        assert r[j] in r;
        if r[j] != a {
          var k :| 0 <= k < |t| && t[k] == r[j];
          assert s[k + 1] == t[k];
        }
      }
    }
  }

  /** The alerts carrying one confidence value, in order. */
  function WithConfidence(v: real, s: seq<AnomalyEvent>): seq<AnomalyEvent> {
    Filter((a: AnomalyEvent) => a.confidence == v, s)
  }

  lemma FilterCons(v: real, a: AnomalyEvent, s: seq<AnomalyEvent>)
    ensures WithConfidence(v, [a] + s) == (if a.confidence == v then [a] else []) + WithConfidence(v, s)
  {
    assert ([a] + s)[1..] == s;
  }

  lemma {:induction false} InsertStable(v: real, a: AnomalyEvent, s: seq<AnomalyEvent>)
    requires SortedByConfidence(s)
    ensures WithConfidence(v, Insert(a, s)) == WithConfidence(v, [a] + s)
  {
    if s != [] && a.confidence < s[0].confidence {
      var t := s[1..];
      assert s == [s[0]] + t;
      InsertStable(v, a, t);
      FilterCons(v, s[0], Insert(a, t));
      FilterCons(v, a, t);
      FilterCons(v, a, s);
      FilterCons(v, s[0], t);
    }
  }

  /** The sort puts the highest confidence first, keeps every alert, and keeps alerts of
      equal confidence in their original order (Python's sort is stable). */
  lemma {:induction false} SortByConfidenceSpec(s: seq<AnomalyEvent>)
    ensures SortedByConfidence(SortByConfidence(s))
    ensures multiset(SortByConfidence(s)) == multiset(s)
    ensures forall v: real :: WithConfidence(v, SortByConfidence(s)) == WithConfidence(v, s)
  {
    if s != [] {
      var t := s[1..];
      assert s == [s[0]] + t;
      SortByConfidenceSpec(t);
      InsertSorted(s[0], SortByConfidence(t));
      forall v: real
        ensures WithConfidence(v, SortByConfidence(s)) == WithConfidence(v, s)
      {
        InsertStable(v, s[0], SortByConfidence(t));
        FilterCons(v, s[0], SortByConfidence(t));
        FilterCons(v, s[0], t);
      }
    }
  }

  // ---- Detection ----

  /** `detect`: rule alerts when the rule stage is on, model alerts when the ML stage
      is on and the forest is fitted, all sorted by descending confidence. */
  function Detect(s: Service, ps: seq<UnifiedPacket>, settings: DetectorSettings,
                  hash: Hash, log2: Log2, scorer: Scorer): (r: Result<seq<AnomalyEvent>>)
  {
    var rules :- if settings.ruleEnabled then RuleDetector.Check(ps, settings.frequencyThreshold) else Success([]);
    var ml :- if settings.mlEnabled && s.forest.fitted then Predict(s.forest, ps, hash, log2, scorer) else Success([]);
    Success(SortByConfidence(rules + ml))
  }

  /** Detection reports every rule alert and every model alert, no others, highest
      confidence first, equal confidences in rule-then-model order; a stage that is off,
      or an unfitted forest, contributes nothing. */
  lemma DetectSpec(s: Service, ps: seq<UnifiedPacket>, settings: DetectorSettings,
                   hash: Hash, log2: Log2, scorer: Scorer)
    requires Detect(s, ps, settings, hash, log2, scorer).Success?
    ensures var r := Detect(s, ps, settings, hash, log2, scorer).value;
      var rules := if settings.ruleEnabled then RuleDetector.Check(ps, settings.frequencyThreshold).value else [];
      var ml := if settings.mlEnabled && s.forest.fitted then Predict(s.forest, ps, hash, log2, scorer).value else [];
      && SortedByConfidence(r)
      && multiset(r) == multiset(rules) + multiset(ml)
      && forall v: real :: WithConfidence(v, r) == WithConfidence(v, rules + ml)
  {
    var rules := if settings.ruleEnabled then RuleDetector.Check(ps, settings.frequencyThreshold).value else [];
    var ml := if settings.mlEnabled && s.forest.fitted then Predict(s.forest, ps, hash, log2, scorer).value else [];
    SortByConfidenceSpec(rules + ml);
  }

  /** With both stages off, or on an empty batch, detection finds nothing. */
  lemma DetectNothing(s: Service, ps: seq<UnifiedPacket>, settings: DetectorSettings,
                      hash: Hash, log2: Log2, scorer: Scorer)
    requires (!settings.ruleEnabled && !settings.mlEnabled) || ps == []
    ensures Detect(s, ps, settings, hash, log2, scorer) == Success([])
  {
  }

  /** Before training, only rule alerts are reported. */
  lemma UntrainedReportsRulesOnly(s: Service, ps: seq<UnifiedPacket>, settings: DetectorSettings,
                                  hash: Hash, log2: Log2, scorer: Scorer)
    requires !s.forest.fitted && Detect(s, ps, settings, hash, log2, scorer).Success?
    ensures forall a :: a in Detect(s, ps, settings, hash, log2, scorer).value ==>
      a.anomalyType in {"frequency_anomaly", "unknown_can_id", "payload_anomaly"}
  {
    var rules := if settings.ruleEnabled then RuleDetector.Check(ps, settings.frequencyThreshold).value else [];
    SortByConfidenceSpec(rules);
    var r := Detect(s, ps, settings, hash, log2, scorer).value;
    assert rules + [] == rules;
    forall a | a in r
      ensures a in rules
    {
      assert a in multiset(r);
    }
  }
}
