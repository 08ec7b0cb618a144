/** The machine-learning detector of `services/anomaly_detector.py`
    (`IsolationForestDetector`): feature extraction, the byte-entropy feature, fitting
    and prediction. The forest itself is an oracle: `Scorer` stands for the fitted
    model's `decision_function` and `predict`, `Hash` for Python's per-process string
    hash and `Log2` for `numpy.log2`. */
module IsolationForest {
  import opened Results
  import opened Seqs
  import opened Text
  import opened Packets
  import opened Anomalies

  /** Python's `hash` on strings, salted per process. */
  type Hash = string -> int

  /** `numpy.log2`. */
  type Log2 = real -> real

  /** The two laws of the base-2 logarithm the entropy bounds rest on. */
  ghost predicate Log2Laws(log2: Log2) {
    && log2(1.0) == 0.0
    && forall p: real :: 0.0 < p < 1.0 ==> log2(p) < 0.0
  }

  /** One row of the feature matrix: `[msg_id_num, payload_len, payload_entropy,
      proto_num, domain_num]`. */
  datatype Features = Features(msgIdNum: int, payloadLen: nat, entropy: real, protocolCode: nat, domainCode: nat)

  function ProtocolCode(protocol: string): (r: nat)
    ensures r <= 3
    ensures r == 3 <==> protocol !in {"CAN", "ETH", "V2X"}
  {
    if protocol == "CAN" then 0 else if protocol == "ETH" then 1 else if protocol == "V2X" then 2 else 3
  }

  function DomainCode(domain: string): (r: nat)
    ensures r <= 5
    ensures r == 5 <==> domain !in {"powertrain", "chassis", "body", "infotainment", "v2x"}
  {
    if domain == "powertrain" then 0
    else if domain == "chassis" then 1
    else if domain == "body" then 2
    else if domain == "infotainment" then 3
    else if domain == "v2x" then 4
    else 5
  }

  /** The numeric message-id feature: a hexadecimal id without a dot reads as its value;
      any other id, and a `0x` id that does not parse, falls into one of `0xFFF` hash
      buckets. */
  function MsgIdNumber(msgId: string, hash: Hash): (r: int)
    ensures r >= 0
    ensures '.' in msgId ==> r == hash(msgId) % 0xFFF
  {
    if '.' !in msgId && StartsWith(msgId, "0x") then
      match ParseInt16(msgId)
      case Some(n) => n
      case None => hash(msgId) % 0xFFF
    else hash(msgId) % 0xFFF
  }

  /** A CAN id written the way the sources write it reads back as its numeric value,
      independently of the hash; an id with a dot (a SOME/IP `service.method` id) is
      always hashed into `[0, 0xFFF)`. */
  lemma MsgIdNumberOfCanId(n: nat, hash: Hash)
    ensures MsgIdNumber("0x" + FormatHex(n, 3), hash) == n
  {
    var id := "0x" + FormatHex(n, 3);
    assert StartsWith(id, "0x") by {
      assert id[..2] == "0x";
    }
    assert '.' !in id by {
      var digits := FormatHex(n, 3);
      forall k | 0 <= k < |id|
        ensures id[k] != '.'
      {
        if k >= 2 {
          assert id[k] == digits[k - 2];
          assert DigitValue(digits[k - 2]).Some?;
        }
      }
    }
    assert ParseInt16(id) == Some(n) by {
      ParsePrefixedFormatHex(n, 3);
    }
  }

  lemma MsgIdNumberHashed(msgId: string, hash: Hash)
    requires '.' in msgId
    ensures 0 <= MsgIdNumber(msgId, hash) < 0xFFF
  {
  }

  /** `int(chunk, 16)` for every chunk, or `None` when one of them raises. */
  function ByteValues(chunks: seq<string>): (r: Option<seq<nat>>)
    ensures r.Some? <==> forall k :: 0 <= k < |chunks| ==> ParseInt16(chunks[k]).Some?
    ensures r.Some? ==>
      && |r.value| == |chunks|
      && forall k :: 0 <= k < |chunks| ==> r.value[k] == ParseInt16(chunks[k]).value
  {
    if chunks == [] then Some([])
    else
      match ParseInt16(chunks[0])
      case None => None
      case Some(v) =>
        match ByteValues(chunks[1..])
        case None => None
        case Some(rest) => Some([v] + rest)
  }

  /** The term `-p log2 p` of a byte value seen `c` times among `total`. */
  function EntropyTerm(c: nat, total: nat, log2: Log2): real
    requires total > 0
  {
    var p := c as real / total as real;
    if p > 0.0 then -(p * log2(p)) else 0.0
  }

  /** The sum of the entropy terms of the given keys over `vals`. */
  function EntropyTerms(keys: seq<nat>, vals: seq<nat>, log2: Log2): real
    requires vals != []
  {
    if keys == [] then 0.0
    else EntropyTerm(Count(vals, keys[0]), |vals|, log2) + EntropyTerms(keys[1..], vals, log2)
  }

  /** `_byte_entropy`: the Shannon entropy, in bits, of the byte values of a hex payload;
      zero for a payload shorter than one byte; a chunk that is not hexadecimal raises
      ValueError. */
  function ByteEntropy(hex: string, log2: Log2): Result<real> {
    if |hex| < 2 then Success(0.0)
    else
      match ByteValues(Chunks(hex))
      case None => Failure(ValueError("invalid literal for int() with base 16"))
      case Some(vals) => Success(EntropyTerms(Distinct(vals), vals, log2))
  }

  /** A value that occurs contributes nothing when it is the only one and a positive
      amount otherwise. */
  lemma EntropyTermSign(c: nat, total: nat, log2: Log2)
    requires 1 <= c <= total && Log2Laws(log2)
    ensures EntropyTerm(c, total, log2) >= 0.0
    ensures c < total ==> EntropyTerm(c, total, log2) > 0.0
    ensures c == total ==> EntropyTerm(c, total, log2) == 0.0
  {
    var p := c as real / total as real;
    RatioBounds(c, total);
    if c < total {
      assert log2(p) < 0.0;
    }
  }

  /** The share of `c` among `total` lies in `(0, 1]` and is 1 only for `c == total`. */
  lemma RatioBounds(c: nat, total: nat)
    requires 1 <= c <= total
    ensures 0.0 < c as real / total as real <= 1.0
    ensures c < total ==> c as real / total as real < 1.0
    ensures c == total ==> c as real / total as real == 1.0
  {
    var p := c as real / total as real;
    var t := total as real;
    assert p * t == c as real;
  }

  lemma {:induction false} EntropyTermsNonNegative(keys: seq<nat>, vals: seq<nat>, log2: Log2)
    requires vals != [] && Log2Laws(log2)
    requires forall k :: 0 <= k < |keys| ==> keys[k] in vals
    ensures EntropyTerms(keys, vals, log2) >= 0.0
  {
    if keys != [] {
      EntropyTermsNonNegative(keys[1..], vals, log2);
      CountPositive(vals, keys[0]);
      CountBounded(vals, keys[0]);
      EntropyTermSign(Count(vals, keys[0]), |vals|, log2);
    }
  }

  lemma {:induction false} EntropyTermsPositive(keys: seq<nat>, vals: seq<nat>, log2: Log2, k: nat)
    requires vals != [] && Log2Laws(log2)
    requires forall i :: 0 <= i < |keys| ==> keys[i] in vals
    requires k < |keys| && Count(vals, keys[k]) < |vals|
    ensures EntropyTerms(keys, vals, log2) > 0.0
  {
    CountPositive(vals, keys[0]);
    CountBounded(vals, keys[0]);
    EntropyTermSign(Count(vals, keys[0]), |vals|, log2);
    if k == 0 {
      EntropyTermsNonNegative(keys[1..], vals, log2);
    } else {
      EntropyTermsPositive(keys[1..], vals, log2, k - 1);
    }
  }

  /** The entropy of a payload is never negative, and it is zero exactly when the
      payload is shorter than one byte or all its byte values are equal. */
  lemma ByteEntropyZeroIff(hex: string, log2: Log2)
    requires Log2Laws(log2)
    requires ByteEntropy(hex, log2).Success?
    ensures ByteEntropy(hex, log2).value >= 0.0
    ensures |hex| < 2 ==> ByteEntropy(hex, log2).value == 0.0
    ensures |hex| >= 2 ==>
      (ByteEntropy(hex, log2).value == 0.0 <==> Constant(ByteValues(Chunks(hex)).value))
  {
    if |hex| >= 2 {
      var vals := ByteValues(Chunks(hex)).value;
      assert |vals| >= 1;
      ValuesEntropyZeroIff(vals, log2);
    }
  }

  lemma ValuesEntropyZeroIff(vals: seq<nat>, log2: Log2)
    requires vals != [] && Log2Laws(log2)
    ensures EntropyTerms(Distinct(vals), vals, log2) >= 0.0
    ensures EntropyTerms(Distinct(vals), vals, log2) == 0.0 <==> Constant(vals)
  {
    var keys := Distinct(vals);
    EntropyTermsNonNegative(keys, vals, log2);
    if Constant(vals) {
      SingleEntropy(vals, log2);
    } else {
      var k :| 0 <= k < |vals| && vals[k] != vals[0];
      assert vals[0] in keys;
      var i :| 0 <= i < |keys| && keys[i] == vals[0];
      CountBelowLength(vals, vals[0], vals[k]);
      EntropyTermsPositive(keys, vals, log2, i);
    }
  }

  lemma SingleEntropy(vals: seq<nat>, log2: Log2)
    requires vals != [] && Log2Laws(log2)
    requires Constant(vals)
    ensures EntropyTerms(Distinct(vals), vals, log2) == 0.0
  {
    var keys := Distinct(vals);
    SingleElementSet(vals);
    DistinctCardinality(vals);
    assert keys[0] in vals;
    assert keys == [vals[0]];
    CountConstant(vals, vals[0]);
    EntropyTermSign(|vals|, |vals|, log2);
  }

  /** The payload the repeated-byte rule flags carries no information: its entropy is 0. */
  lemma RepeatedBytePayloadHasZeroEntropy(hex: string, log2: Log2)
    requires Log2Laws(log2)
    requires IsHexDigits(hex) && RepeatsOneByte(hex)
    ensures ByteEntropy(hex, log2) == Success(0.0)
  {
    var chunks := Chunks(hex);
    RepeatedByteConstantChunks(hex);
    forall k | 0 <= k < |chunks|
      ensures ParseInt16(chunks[k]).Some?
    {
      ChunkAt(hex, k);
      HexChunkParses(hex, k);
    }
    var vals := ByteValues(chunks).value;
    assert Constant(vals);
    ByteEntropyZeroIff(hex, log2);
  }

  lemma HexChunkParses(hex: string, k: nat)
    requires IsHexDigits(hex) && k < |Chunks(hex)|
    ensures ParseInt16(Chunks(hex)[k]).Some?
  {
    ChunkAt(hex, k);
    var c := Chunks(hex)[k];
    assert forall i :: 0 <= i < |c| ==> c[i] == hex[2 * k + i];
    assert IsHexDigits(c);
    if |c| >= 2 {
      assert c[1] != 'x' && c[1] != 'X';
    }
  }

  /** One feature row; only the entropy column can raise. */
  function FeaturesOf(p: UnifiedPacket, hash: Hash, log2: Log2): (r: Result<Features>)
    ensures r.Success? <==> ByteEntropy(p.payloadHex, log2).Success?
  {
    var entropy :- ByteEntropy(p.payloadHex, log2);
    Success(Features(
      msgIdNum := MsgIdNumber(p.msgId, hash),
      payloadLen := |p.payloadHex| / 2,
      entropy := entropy,
      protocolCode := ProtocolCode(p.protocol),
      domainCode := DomainCode(p.domain)))
  }

  /** `extract_features`: one row per packet, in packet order; the first payload that is
      not hexadecimal makes the whole extraction raise. */
  function ExtractFeatures(ps: seq<UnifiedPacket>, hash: Hash, log2: Log2): (r: Result<seq<Features>>)
    ensures r.Success? ==> |r.value| == |ps|
  {
    if ps == [] then Success([])
    else
      var row :- FeaturesOf(ps[0], hash, log2);
      var rest :- ExtractFeatures(ps[1..], hash, log2);
      Success([row] + rest)
  }

  /** Extraction raises exactly when some packet's payload makes the entropy raise. */
  lemma {:induction false} ExtractFeaturesSucceedsIff(ps: seq<UnifiedPacket>, hash: Hash, log2: Log2)
    ensures ExtractFeatures(ps, hash, log2).Success?
      <==> forall i :: 0 <= i < |ps| ==> ByteEntropy(ps[i].payloadHex, log2).Success?
  {
    if ps != [] {
      ExtractFeaturesCons(ps, hash, log2);
      ExtractFeaturesSucceedsIff(ps[1..], hash, log2);
      assert forall i :: 1 <= i < |ps| ==> ps[i] == ps[1..][i - 1];
    }
  }

  /** Row `i` of the matrix describes packet `i`. */
  lemma {:induction false} ExtractFeaturesRows(ps: seq<UnifiedPacket>, hash: Hash, log2: Log2)
    requires ExtractFeatures(ps, hash, log2).Success?
    ensures var rows := ExtractFeatures(ps, hash, log2).value;
      forall i :: 0 <= i < |ps| ==>
        && rows[i].msgIdNum == MsgIdNumber(ps[i].msgId, hash)
        && rows[i].payloadLen == |ps[i].payloadHex| / 2
        && ByteEntropy(ps[i].payloadHex, log2) == Success(rows[i].entropy)
        && rows[i].protocolCode == ProtocolCode(ps[i].protocol)
        && rows[i].domainCode == DomainCode(ps[i].domain)
  {
    if ps != [] {
      ExtractFeaturesRows(ps[1..], hash, log2);
    }
  }

  /** The matrix of a non-empty batch is the first packet's row followed by the rest's. */
  lemma ExtractFeaturesCons(ps: seq<UnifiedPacket>, hash: Hash, log2: Log2)
    requires ps != []
    ensures ExtractFeatures(ps, hash, log2).Success? <==>
      FeaturesOf(ps[0], hash, log2).Success? && ExtractFeatures(ps[1..], hash, log2).Success?
    ensures ExtractFeatures(ps, hash, log2).Success? ==>
      ExtractFeatures(ps, hash, log2).value
        == [FeaturesOf(ps[0], hash, log2).value] + ExtractFeatures(ps[1..], hash, log2).value
  {
  }

  /** The model's verdict on one row: `predict` gives -1 for an outlier, and
      `decision_function` the score (negative for outliers). */
  datatype Verdict = Verdict(outlier: bool, score: real)

  /** The detector state: the model's hyper-parameters, whether it has been fitted and
      the rows it was fitted on. */
  datatype Forest = Forest(contamination: Contamination, nEstimators: nat, randomState: int, fitted: bool, training: seq<Features>)

  /** The `contamination` hyper-parameter as the model library sees it: the string
      "auto", a number, or anything else. */
  datatype Contamination = Auto | Fraction(value: real) | Unsupported

  /** The values the library's parameter check admits: "auto" or a number in (0, 0.5]. */
  predicate ValidContamination(c: Contamination) {
    c.Auto? || (c.Fraction? && 0.0 < c.value <= 0.5)
  }

  /** The fitted model's verdict on a row, given the detector state. */
  type Scorer = (Forest, Features) -> Verdict

  /** A scorer that behaves like scikit-learn's: a row is an outlier exactly when its
      decision score is negative. */
  ghost predicate SignConsistent(scorer: Scorer) {
    forall f: Forest, x: Features :: scorer(f, x).outlier <==> scorer(f, x).score < 0.0
  }

  /** `IsolationForestDetector()`: 100 trees, random state 42, not fitted. */
  function NewForest(contamination: Contamination): (f: Forest)
    ensures !f.fitted && f.training == []
    ensures f.contamination == contamination && f.nEstimators == 100 && f.randomState == 42
  {
    Forest(contamination, 100, 42, false, [])
  }

  /** `fit`: a non-empty batch refits the model on its features; an empty batch leaves
      the detector as it was; a payload that is not hexadecimal raises, and so does the
      library's parameter check of the contamination, which only runs once there are
      rows to fit. */
  function Fit(f: Forest, ps: seq<UnifiedPacket>, hash: Hash, log2: Log2): (r: Result<Forest>)
    ensures ExtractFeatures(ps, hash, log2).Failure? ==> r == Failure(ExtractFeatures(ps, hash, log2).error)
    ensures r.Failure? <==>
      ExtractFeatures(ps, hash, log2).Failure? || (ps != [] && !ValidContamination(f.contamination))
    ensures r.Success? && ps == [] ==> r.value == f
    ensures r.Success? && ps != [] ==>
      && ValidContamination(f.contamination)
      && r.value == f.(fitted := true, training := ExtractFeatures(ps, hash, log2).value)
  {
    var rows :- ExtractFeatures(ps, hash, log2);
    if |rows| == 0 then Success(f)
    else if !ValidContamination(f.contamination) then
      Failure(ValueError("The 'contamination' parameter of IsolationForest must be a str among {'auto'} or a float in the range (0.0, 0.5]"))
    else Success(f.(fitted := true, training := rows))
  }

  /** Once the features of a non-empty batch could be extracted, fitting fails exactly
      when the contamination is neither "auto" nor a fraction in (0, 0.5]. */
  lemma FitContaminationCheck(f: Forest, ps: seq<UnifiedPacket>, hash: Hash, log2: Log2)
    requires ps != [] && ExtractFeatures(ps, hash, log2).Success?
    ensures Fit(f, ps, hash, log2).Success? <==> ValidContamination(f.contamination)
    ensures Fit(f, ps, hash, log2).Failure? ==> Fit(f, ps, hash, log2).error.ValueError?
  {
  }

  /** The severity an outlier's score maps to. */
  function MlSeverity(score: real): Severity {
    if score < -0.05 then Critical
    else if score < -0.03 then High
    else if score < -0.02 then Medium
    else Low
  }

  /** A lower score never gives a lower severity. */
  lemma MlSeverityMonotone(s1: real, s2: real)
    requires s1 <= s2
    ensures SeverityRank(MlSeverity(s1)) >= SeverityRank(MlSeverity(s2))
  {
  }

  function Abs(x: real): real {
    if x < 0.0 then -x else x
  }

  function MlEvent(p: UnifiedPacket, score: real): AnomalyEvent {
    AnomalyEvent(
      timestamp := p.timestamp,
      anomalyType := "ml_anomaly",
      severity := MlSeverity(score),
      confidence := if Abs(score) < 1.0 then Abs(score) else 1.0,
      protocol := p.protocol,
      sourceNode := p.source,
      targetNode := p.msgId,
      detectionMethod := "isolation_forest")
  }

  /** The alert loop of `predict` over packets and their rows. */
  function MlAlerts(f: Forest, ps: seq<UnifiedPacket>, rows: seq<Features>, scorer: Scorer): seq<AnomalyEvent>
    requires |rows| == |ps|
  {
    if ps == [] then []
    else
      var v := scorer(f, rows[0]);
      (if v.outlier then [MlEvent(ps[0], v.score)] else []) + MlAlerts(f, ps[1..], rows[1..], scorer)
  }

  /** The positions, counted from `from`, of the rows the model calls outliers. */
  function OutlierPositions(f: Forest, rows: seq<Features>, scorer: Scorer, from: nat): (r: seq<nat>)
    ensures forall j :: 0 <= j < |r| ==> from <= r[j] < from + |rows|
    ensures forall j, k :: 0 <= j < k < |r| ==> r[j] < r[k]
    ensures forall i :: 0 <= i < |rows| ==> (scorer(f, rows[i]).outlier <==> from + i in r)
  {
    if rows == [] then []
    else
      var rest := OutlierPositions(f, rows[1..], scorer, from + 1);
      assert forall i :: 1 <= i < |rows| ==> rows[i] == rows[1..][i - 1];
      (if scorer(f, rows[0]).outlier then [from] else []) + rest
  }

  lemma {:induction false} MlAlertsAtOutliers(f: Forest, ps: seq<UnifiedPacket>, rows: seq<Features>, scorer: Scorer)
    requires |rows| == |ps|
    ensures var pos := OutlierPositions(f, rows, scorer, 0);
      var alerts := MlAlerts(f, ps, rows, scorer);
      && |alerts| == |pos|
      && forall j :: 0 <= j < |pos| ==> alerts[j] == MlEvent(ps[pos[j]], scorer(f, rows[pos[j]]).score)
  {
    if ps != [] {
      var pos := OutlierPositions(f, rows, scorer, 0);
      var alerts := MlAlerts(f, ps, rows, scorer);
      var tailPos := OutlierPositions(f, rows[1..], scorer, 0);
      var shifted := OutlierPositions(f, rows[1..], scorer, 1);
      var tailAlerts := MlAlerts(f, ps[1..], rows[1..], scorer);
      MlAlertsAtOutliers(f, ps[1..], rows[1..], scorer);
      ShiftPositions(f, rows[1..], scorer, 0);
      var v := scorer(f, rows[0]);
      var d := if v.outlier then 1 else 0;
      assert pos == (if v.outlier then [0] else []) + shifted;
      assert alerts == (if v.outlier then [MlEvent(ps[0], v.score)] else []) + tailAlerts;
      forall j | d <= j < |pos|
        ensures alerts[j] == MlEvent(ps[pos[j]], scorer(f, rows[pos[j]]).score)
      {
        var k := j - d;
        assert pos[j] == shifted[k] == tailPos[k] + 1;
        assert alerts[j] == tailAlerts[k];
        assert ps[pos[j]] == ps[1..][tailPos[k]] && rows[pos[j]] == rows[1..][tailPos[k]];
      }
    }
  }

  /** Counting from `from + 1` shifts every position by one. */
  lemma {:induction false} ShiftPositions(f: Forest, rows: seq<Features>, scorer: Scorer, from: nat)
    ensures var a := OutlierPositions(f, rows, scorer, from);
      var b := OutlierPositions(f, rows, scorer, from + 1);
      |a| == |b| && forall j :: 0 <= j < |a| ==> b[j] == a[j] + 1
  {
    if rows != [] {
      ShiftPositions(f, rows[1..], scorer, from + 1);
    }
  }

  /** `predict`: nothing before the model is fitted or on an empty batch; otherwise one
      alert per row the model calls an outlier, in packet order. */
  function Predict(f: Forest, ps: seq<UnifiedPacket>, hash: Hash, log2: Log2, scorer: Scorer): (r: Result<seq<AnomalyEvent>>)
    ensures !f.fitted || ps == [] ==> r == Success([])
    ensures f.fitted && ps != [] ==> (r.Success? <==> ExtractFeatures(ps, hash, log2).Success?)
  {
    if !f.fitted || ps == [] then Success([])
    else
      var rows :- ExtractFeatures(ps, hash, log2);
      Success(MlAlerts(f, ps, rows, scorer))
  }

  /** The alerts of a prediction are exactly the outlier rows, in packet order, each
      describing its packet; with a scorer that behaves like scikit-learn's every
      confidence lies in (0, 1]. */
  lemma PredictSpec(f: Forest, ps: seq<UnifiedPacket>, hash: Hash, log2: Log2, scorer: Scorer)
    requires f.fitted && Predict(f, ps, hash, log2, scorer).Success?
    ensures var alerts := Predict(f, ps, hash, log2, scorer).value;
      var rows := ExtractFeatures(ps, hash, log2).value;
      var pos := OutlierPositions(f, rows, scorer, 0);
      && |alerts| == |pos|
      && (forall i :: 0 <= i < |ps| ==> (scorer(f, rows[i]).outlier <==> i in pos))
      && forall j :: 0 <= j < |pos| ==>
           var p := ps[pos[j]];
           var score := scorer(f, rows[pos[j]]).score;
           && alerts[j].anomalyType == "ml_anomaly"
           && alerts[j].timestamp == p.timestamp && alerts[j].protocol == p.protocol
           && alerts[j].sourceNode == p.source && alerts[j].targetNode == p.msgId
           && alerts[j].severity == MlSeverity(score)
           && (SignConsistent(scorer) ==> 0.0 < alerts[j].confidence <= 1.0)
  {
    if ps != [] {
      var rows := ExtractFeatures(ps, hash, log2).value;
      MlAlertsAtOutliers(f, ps, rows, scorer);
      var pos := OutlierPositions(f, rows, scorer, 0);
      forall j | 0 <= j < |pos| && SignConsistent(scorer)
        ensures scorer(f, rows[pos[j]]).score < 0.0
      {
        assert scorer(f, rows[pos[j]]).outlier;
      }
    }
  }
}
