/**
 * analyzer.py: each extracted test is looked up in the catalogue, classified
 * against its reference range as Low, Normal or High with a percentage
 * deviation from the crossed boundary, given a severity tier, and the
 * recognised tests together earn a health score from 0 to 100.
 */
module Analyzer {
  import opened Optional
  import opened RangeTable
  import opened NormalRanges
  import Parser
  import opened Sequences

  datatype Status = Low | Normal | High

  /** How far a value lies outside its range. */
  datatype Severity = Normal | Mild | Moderate | Critical

  /** What `_explain` chooses for a test: the range it lies within, or the
      direction word and the boundary it crossed. The wording around these
      is not modelled. */
  datatype Explanation =
    | WithinRange(low: real, high: real)
    | OutsideRange(direction: string, boundary: real)

  /** `Status.value`. */
  function StatusValue(s: Status): string {
    match s
    case Low => "Low"
    case Normal => "Normal"
    case High => "High"
  }

  /** `Severity.value`. */
  function SeverityValue(s: Severity): string {
    match s
    case Normal => "Normal"
    case Mild => "Mild"
    case Moderate => "Moderate"
    case Critical => "Critical"
  }

  datatype AnalyzedTest = AnalyzedTest(
    canonicalName: string,
    rawName: string,
    value: real,
    minValue: real,
    maxValue: real,
    unit: string,
    status: Status,
    deviationPct: real,
    severity: Severity,
    explanation: Explanation)

  datatype AnalysisReport = AnalysisReport(
    matched: seq<AnalyzedTest>,
    unrecognized: seq<Parser.ExtractedTest>,
    healthScore: int)

  // ------------------------------------------------------------------
  // Rounding
  // ------------------------------------------------------------------

  /** `round(y)`: the nearest integer, ties to the even one. */
  function RoundHalfEven(y: real): (r: int)
    ensures y - 0.5 <= r as real <= y + 0.5
  {
    var f := y.Floor;
    var d := y - f as real;
    if d < 0.5 then f
    else if d > 0.5 then f + 1
    else if f % 2 == 0 then f
    else f + 1
  }

  /** Rounding never reverses the order of two numbers. */
  lemma RoundHalfEvenMonotone(x: real, y: real)
    requires x <= y
    ensures RoundHalfEven(x) <= RoundHalfEven(y)
  {
    var fx, fy := x.Floor, y.Floor;
    assert fx <= fy;
    if fx == fy {
      assert x - fx as real <= y - fy as real;
    }
  }

  /** `round(x, 1)`: the nearest multiple of 0.1, ties to the even digit. */
  function Round1(x: real): (r: real)
    ensures x - 0.05 <= r <= x + 0.05
  {
    RoundHalfEven(x * 10.0) as real / 10.0
  }

  lemma Round1Monotone(x: real, y: real)
    requires x <= y
    ensures Round1(x) <= Round1(y)
  {
    RoundHalfEvenMonotone(x * 10.0, y * 10.0);
  }

  /** Rounding a non-negative number gives a non-negative number. */
  lemma Round1NonNegative(x: real)
    ensures 0.0 <= x ==> 0.0 <= Round1(x)
  {
    if 0.0 <= x {
      Round1Monotone(0.0, x);
      assert RoundHalfEven(0.0) == 0;
    }
  }

  /** Dividing by a positive number keeps order. */
  lemma DivideMonotone(a: real, b: real, s: real)
    requires a <= b && 0.0 < s
    ensures a / s <= b / s
  {
    assert b / s - a / s == (b - a) / s;
  }

  // ------------------------------------------------------------------
  // Classification
  // ------------------------------------------------------------------

  /** The divisor for a boundary: the boundary itself, or 1 when it is 0. */
  function SpanOf(boundary: real): (r: real)
    ensures r != 0.0
  {
    if boundary != 0.0 then boundary else 1.0
  }

  /** `_classify(value, ref)`: Low below the minimum, High above the maximum,
      Normal on or between the bounds; the deviation is the distance from the
      crossed bound as a percentage of it, rounded to one decimal. */
  function Classify(value: real, ref: ReferenceRange): (r: (Status, real))
    ensures r.0 == Status.Low <==> value < ref.minValue
    ensures r.0 == Status.High <==> ref.minValue <= value && ref.maxValue < value
    ensures r.0 == Status.Normal <==> ref.minValue <= value <= ref.maxValue
    ensures r.0 == Status.Normal ==> r.1 == 0.0
    ensures 0.0 <= ref.minValue <= ref.maxValue ==> 0.0 <= r.1
  {
    if value < ref.minValue then
      var span := SpanOf(ref.minValue);
      var deviation := (ref.minValue - value) / span * 100.0;
      if 0.0 <= ref.minValue then DivideMonotone(0.0, ref.minValue - value, span); Round1NonNegative(deviation);
      (Status.Low, Round1(deviation))
      else (Status.Low, Round1(deviation))
    else if value > ref.maxValue then
      var span := SpanOf(ref.maxValue);
      var deviation := (value - ref.maxValue) / span * 100.0;
      if 0.0 <= ref.maxValue then DivideMonotone(0.0, value - ref.maxValue, span); Round1NonNegative(deviation);
      (Status.High, Round1(deviation))
      else (Status.High, Round1(deviation))
    else (Status.Normal, 0.0)
  }

  /** The further a value lies outside its range, the larger its deviation:
      below the range it grows as the value falls. */
  lemma ClassifyMonotoneLow(ref: ReferenceRange, v1: real, v2: real)
    requires 0.0 <= ref.minValue && v1 <= v2 < ref.minValue
    ensures Classify(v2, ref).1 <= Classify(v1, ref).1
  {
    var s := SpanOf(ref.minValue);
    DivideMonotone(ref.minValue - v2, ref.minValue - v1, s);
    Round1Monotone((ref.minValue - v2) / s * 100.0, (ref.minValue - v1) / s * 100.0);
  }

  /** Above the range, the deviation grows as the value rises. */
  lemma ClassifyMonotoneHigh(ref: ReferenceRange, v1: real, v2: real)
    requires 0.0 <= ref.minValue <= ref.maxValue < v1 <= v2
    ensures Classify(v1, ref).1 <= Classify(v2, ref).1
  {
    var s := SpanOf(ref.maxValue);
    DivideMonotone(v1 - ref.maxValue, v2 - ref.maxValue, s);
    Round1Monotone((v1 - ref.maxValue) / s * 100.0, (v2 - ref.maxValue) / s * 100.0);
  }

  /** `_severity_level(status, deviation)`: High tiers break at 10 and 30,
      Low tiers at 10 and 25, both bounds inclusive. */
  function SeverityLevel(status: Status, deviation: real): (r: Severity)
    ensures r == Severity.Normal <==> status == Status.Normal
    ensures status == Status.High ==>
      (r == Mild <==> deviation <= 10.0) && (r == Critical <==> 30.0 < deviation)
    ensures status == Status.Low ==>
      (r == Mild <==> deviation <= 10.0) && (r == Critical <==> 25.0 < deviation)
  {
    if status == Status.Normal then Severity.Normal
    else if status == Status.High then
      if deviation <= 10.0 then Mild
      else if deviation <= 30.0 then Moderate
      else Critical
    else
      if deviation <= 10.0 then Mild
      else if deviation <= 25.0 then Moderate
      else Critical
  }

  /** The tiers in increasing order of concern. */
  function Rank(s: Severity): nat {
    match s
    case Normal => 0
    case Mild => 1
    case Moderate => 2
    case Critical => 3
  }

  /** For a fixed direction, severity never falls as the deviation grows. */
  lemma SeverityMonotone(status: Status, d1: real, d2: real)
    requires d1 <= d2
    ensures Rank(SeverityLevel(status, d1)) <= Rank(SeverityLevel(status, d2))
  {
  }

  /** `_explain`: within the range, or below the minimum, or above the maximum. */
  function Explain(status: Status, ref: ReferenceRange): (r: Explanation)
    ensures r.WithinRange? <==> status == Status.Normal
    ensures r.OutsideRange? ==> (r.direction == "below" <==> status == Status.Low)
    ensures r.OutsideRange? ==> r.boundary == (if status == Status.Low then ref.minValue else ref.maxValue)
  {
    match status
    case Normal => WithinRange(ref.minValue, ref.maxValue)
    case Low => OutsideRange("below", ref.minValue)
    case High => OutsideRange("above", ref.maxValue)
  }

  // ------------------------------------------------------------------
  // Health score
  // ------------------------------------------------------------------

  /** The documented invariant of a result: its deviation is never negative. */
  predicate DeviationOk(t: AnalyzedTest) { 0.0 <= t.deviationPct }

  /** The severity is Normal exactly when the status is. */
  predicate SeverityAgrees(t: AnalyzedTest) {
    t.severity == Severity.Normal <==> t.status == Status.Normal
  }

  function Min(a: real, b: real): real { if a <= b then a else b }

  /** `raw / (raw + 20)` for a capped deviation stays below 5/6. */
  lemma SoftCurveBound(raw: real)
    requires 0.0 <= raw <= 100.0
    ensures 0.0 <= raw / (raw + 20.0) <= 5.0 / 6.0
  {
    var d := raw + 20.0;
    DivideMonotone(0.0, raw, d);
    DivideMonotone(raw, 5.0 / 6.0 * d, d);
    assert 5.0 / 6.0 * d / d == 5.0 / 6.0;
  }

  /** One test's penalty: nothing for a normal test, otherwise a share of the
      score scaled by the soft curve of its capped deviation, which keeps it
      below five sixths of the share. */
  function Penalty(share: real, t: AnalyzedTest): (r: real)
    requires 0.0 < share && DeviationOk(t)
    ensures 0.0 <= r <= share * 5.0 / 6.0 && r < share
    ensures t.status == Status.Normal ==> r == 0.0
  {
    if t.status == Status.Normal then 0.0
    else
      var raw := Min(t.deviationPct, 100.0);
      SoftCurveBound(raw);
      share * (raw / (raw + 20.0))
  }

  function TotalPenalty(share: real, tests: seq<AnalyzedTest>): (r: real)
    requires 0.0 < share && forall i :: 0 <= i < |tests| ==> DeviationOk(tests[i])
    decreases |tests|
  {
    if |tests| == 0 then 0.0
    else Penalty(share, tests[0]) + TotalPenalty(share, tests[1..])
  }

  /** `n` copies of `c` added up. */
  function Repeat(c: real, n: nat): real {
    if n == 0 then 0.0 else c + Repeat(c, n - 1)
  }

  lemma {:induction false} RepeatIsProduct(c: real, n: nat)
    ensures Repeat(c, n) == (n as real) * c
  {
    if n > 0 {
      RepeatIsProduct(c, n - 1);
      assert (n as real) * c == ((n - 1) as real) * c + c;
    }
  }

  /** The summed penalty is at most five sixths of the share per test, and
      nothing when every test is normal. */
  lemma {:induction false} TotalPenaltyBounds(share: real, tests: seq<AnalyzedTest>)
    requires 0.0 < share && forall i :: 0 <= i < |tests| ==> DeviationOk(tests[i])
    ensures 0.0 <= TotalPenalty(share, tests) <= Repeat(share * 5.0 / 6.0, |tests|)
    ensures (forall i :: 0 <= i < |tests| ==> tests[i].status == Status.Normal) ==> TotalPenalty(share, tests) == 0.0
    decreases |tests|
  {
    if |tests| > 0 {
      TotalPenaltyBounds(share, tests[1..]);
    }
  }

  /** With the score shared among `n` tests, the caps add up to 500/6. */
  lemma ShareCap(n: nat)
    requires n > 0
    ensures Repeat(100.0 / (n as real) * 5.0 / 6.0, n) == 500.0 / 6.0
  {
    var share := 100.0 / (n as real);
    RepeatIsProduct(share * 5.0 / 6.0, n);
    assert share * (n as real) == 100.0;
    assert (n as real) * (share * 5.0 / 6.0) == share * (n as real) * 5.0 / 6.0;
  }

  function Max(a: int, b: int): int { if a >= b then a else b }

  /** `_compute_health_score(tests)`. */
  function HealthScore(tests: seq<AnalyzedTest>): (r: int)
    requires forall i :: 0 <= i < |tests| ==> DeviationOk(tests[i])
    ensures 0 <= r <= 100
    ensures |tests| > 0 ==> 17 <= r
    ensures (forall i :: 0 <= i < |tests| ==> tests[i].status == Status.Normal) ==> r == 100
  {
    if |tests| == 0 then 100
    else
      var share := 100.0 / (|tests| as real);
      var penalty := TotalPenalty(share, tests);
      TotalPenaltyBounds(share, tests);
      ShareCap(|tests|);
      Max(0, RoundHalfEven(100.0 - penalty))
  }

  /** Making one test normal never lowers the score. */
  lemma {:induction false} TotalPenaltyNormalise(share: real, tests: seq<AnalyzedTest>, i: nat, t: AnalyzedTest)
    requires 0.0 < share && forall k :: 0 <= k < |tests| ==> DeviationOk(tests[k])
    requires i < |tests| && t.status == Status.Normal && DeviationOk(t)
    ensures TotalPenalty(share, tests[i := t]) <= TotalPenalty(share, tests)
    decreases |tests|
  {
    var u := tests[i := t];
    if i == 0 {
      assert u[1..] == tests[1..];
    } else {
      assert u[1..] == tests[1..][i - 1 := t];
      TotalPenaltyNormalise(share, tests[1..], i - 1, t);
    }
  }

  lemma HealthScoreNormalise(tests: seq<AnalyzedTest>, i: nat, t: AnalyzedTest)
    requires forall k :: 0 <= k < |tests| ==> DeviationOk(tests[k])
    requires i < |tests| && t.status == Status.Normal && DeviationOk(t)
    ensures HealthScore(tests) <= HealthScore(tests[i := t])
  {
    var share := 100.0 / (|tests| as real);
    TotalPenaltyNormalise(share, tests, i, t);
    RoundHalfEvenMonotone(100.0 - TotalPenalty(share, tests), 100.0 - TotalPenalty(share, tests[i := t]));
  }

  // ------------------------------------------------------------------
  // analyze
  // ------------------------------------------------------------------

  /** The result for a test found in the catalogue under `canonical`. */
  function AnalyzeOne(ext: Parser.ExtractedTest, canonical: string, ref: ReferenceRange): (a: AnalyzedTest)
    ensures a.canonicalName == canonical && a.rawName == ext.rawName && a.value == ext.value
    ensures a.minValue == ref.minValue && a.maxValue == ref.maxValue && a.unit == ref.unit
    ensures a.status == Status.Normal <==> ref.minValue <= ext.value <= ref.maxValue
    ensures a.status == Classify(ext.value, ref).0 && a.deviationPct == Classify(ext.value, ref).1
    ensures a.severity == SeverityLevel(a.status, a.deviationPct)
    ensures a.explanation == Explain(a.status, ref)
    ensures a.severity == Severity.Normal <==> a.status == Status.Normal
    ensures 0.0 <= ref.minValue <= ref.maxValue ==> DeviationOk(a)
  {
    var c := Classify(ext.value, ref);
    AnalyzedTest(canonical, ext.rawName, ext.value, ref.minValue, ref.maxValue, ref.unit,
                 c.0, c.1, SeverityLevel(c.0, c.1), Explain(c.0, ref))
  }

  predicate IsAbnormal(t: AnalyzedTest) { t.status != Status.Normal }

  /** `[t for t in tests if t.status != Status.NORMAL]`. */
  function Abnormal(tests: seq<AnalyzedTest>): (r: seq<AnalyzedTest>)
    ensures |r| <= |tests|
    ensures forall i :: 0 <= i < |r| ==> r[i].status != Status.Normal
  {
    Filter(tests, IsAbnormal)
  }

  /** The abnormal tests are the tests that are not normal, in order. */
  lemma AbnormalSpec(tests: seq<AnalyzedTest>) returns (idx: seq<nat>)
    ensures |idx| == |Abnormal(tests)|
    ensures forall i :: 0 <= i < |idx| ==> idx[i] < |tests| && Abnormal(tests)[i] == tests[idx[i]]
    ensures forall i, j :: 0 <= i < j < |idx| ==> idx[i] < idx[j]
    ensures forall k :: 0 <= k < |tests| && tests[k].status != Status.Normal ==> k in idx
  {
    idx := FilterSpec(tests, IsAbnormal);
  }

  /** Nothing is abnormal exactly when every test is normal. */
  lemma {:induction false} AbnormalEmpty(tests: seq<AnalyzedTest>)
    ensures |Abnormal(tests)| == 0 <==> forall k :: 0 <= k < |tests| ==> tests[k].status == Status.Normal
  {
    var idx := AbnormalSpec(tests);
    if |Abnormal(tests)| > 0 {
      assert tests[idx[0]].status != Status.Normal;
    }
  }

  /** What a catalogue search may answer. */
  type Found = Option<(string, ReferenceRange)>

  /** The answer carries a range that is neither inverted nor negative. */
  predicate FoundOk(f: Found) {
    f.Some? ==> 0.0 <= f.value.1.minValue <= f.value.1.maxValue
  }

  /** A test the catalogue recognised, with its canonical name and range. */
  datatype Hit = Hit(test: Parser.ExtractedTest, canonical: string, range: ReferenceRange)

  /** The loop of `analyze`, given what the catalogue answers for each test:
      the recognised tests and the tests not found, both in input order. */
  function Partition(tests: seq<Parser.ExtractedTest>, founds: seq<Found>): (r: (seq<Hit>, seq<Parser.ExtractedTest>))
    requires |founds| == |tests|
    ensures |r.0| + |r.1| == |tests|
    decreases |tests|
  {
    if |tests| == 0 then ([], [])
    else
      var n := |tests| - 1;
      var init := Partition(tests[..n], founds[..n]);
      match founds[n]
      case Some(f) => (init.0 + [Hit(tests[n], f.0, f.1)], init.1)
      case None => (init.0, init.1 + [tests[n]])
  }

  /** The recognised tests, one each, in input order. */
  lemma {:induction false} PartitionMatched(tests: seq<Parser.ExtractedTest>, founds: seq<Found>) returns (idx: seq<nat>)
    requires |founds| == |tests|
    ensures |idx| == |Partition(tests, founds).0|
    ensures forall i :: 0 <= i < |idx| ==>
      idx[i] < |tests| && founds[idx[i]].Some?
      && Partition(tests, founds).0[i] == Hit(tests[idx[i]], founds[idx[i]].value.0, founds[idx[i]].value.1)
    ensures forall i, j :: 0 <= i < j < |idx| ==> idx[i] < idx[j]
    ensures forall k :: 0 <= k < |tests| && founds[k].Some? ==> k in idx
    decreases |tests|
  {
    if |tests| == 0 {
      idx := [];
    } else {
      var n := |tests| - 1;
      var ts, fs := tests[..n], founds[..n];
      var prev := PartitionMatched(ts, fs);
      assert forall k :: 0 <= k < n ==> ts[k] == tests[k] && fs[k] == founds[k];
      if founds[n].Some? {
        idx := prev + [n];
      } else {
        idx := prev;
      }
    }
  }

  /** The unrecognised tests are the tests not found, in input order. */
  lemma {:induction false} PartitionUnrecognized(tests: seq<Parser.ExtractedTest>, founds: seq<Found>) returns (idx: seq<nat>)
    requires |founds| == |tests|
    ensures |idx| == |Partition(tests, founds).1|
    ensures forall i :: 0 <= i < |idx| ==>
      idx[i] < |tests| && founds[idx[i]].None?
      && Partition(tests, founds).1[i] == tests[idx[i]]
    ensures forall i, j :: 0 <= i < j < |idx| ==> idx[i] < idx[j]
    ensures forall k :: 0 <= k < |tests| && founds[k].None? ==> k in idx
    decreases |tests|
  {
    if |tests| == 0 {
      idx := [];
    } else {
      var n := |tests| - 1;
      var ts, fs := tests[..n], founds[..n];
      var prev := PartitionUnrecognized(ts, fs);
      assert forall k :: 0 <= k < n ==> ts[k] == tests[k] && fs[k] == founds[k];
      if founds[n].None? {
        idx := prev + [n];
      } else {
        idx := prev;
      }
    }
  }

  /** A result for each recognised test, in order. */
  function Results(hits: seq<Hit>): (r: seq<AnalyzedTest>)
    requires forall i :: 0 <= i < |hits| ==> 0.0 <= hits[i].range.minValue <= hits[i].range.maxValue
    ensures |r| == |hits|
    ensures forall i :: 0 <= i < |r| ==> DeviationOk(r[i]) && SeverityAgrees(r[i])
  {
    seq(|hits|, i requires 0 <= i < |hits| => AnalyzeOne(hits[i].test, hits[i].canonical, hits[i].range))
  }

  /** Hits drawn from sound catalogue answers carry sound ranges. */
  lemma PartitionRanges(tests: seq<Parser.ExtractedTest>, founds: seq<Found>)
    requires |founds| == |tests| && forall k :: 0 <= k < |founds| ==> FoundOk(founds[k])
    ensures forall i :: 0 <= i < |Partition(tests, founds).0| ==>
      0.0 <= Partition(tests, founds).0[i].range.minValue <= Partition(tests, founds).0[i].range.maxValue
  {
    var idx := PartitionMatched(tests, founds);
    forall i | 0 <= i < |Partition(tests, founds).0|
      ensures 0.0 <= Partition(tests, founds).0[i].range.minValue <= Partition(tests, founds).0[i].range.maxValue
    {
      assert FoundOk(founds[idx[i]]);
    }
  }

  /** What the catalogue answers for each test. */
  function Lookups(tests: seq<Parser.ExtractedTest>): (r: seq<Found>)
    ensures |r| == |tests|
    ensures forall k :: 0 <= k < |tests| ==> r[k] == Lookup(tests[k].rawName) && FoundOk(r[k])
  {
    CatalogueRanges();
    seq(|tests|, k requires 0 <= k < |tests| => Lookup(tests[k].rawName))
  }

  /** The report `analyze` builds from what the catalogue answers for each
      test. */
  function Report(tests: seq<Parser.ExtractedTest>, founds: seq<Found>): (r: AnalysisReport)
    requires |founds| == |tests| && forall k :: 0 <= k < |founds| ==> FoundOk(founds[k])
    ensures |r.matched| + |r.unrecognized| == |tests|
    ensures forall i :: 0 <= i < |r.matched| ==> DeviationOk(r.matched[i]) && SeverityAgrees(r.matched[i])
    ensures 0 <= r.healthScore <= 100
  {
    var parts := Partition(tests, founds);
    PartitionRanges(tests, founds);
    var matched := Results(parts.0);
    AnalysisReport(matched, parts.1, HealthScore(matched))
  }

  /** `analyze(tests)`. */
  function Analyze(tests: seq<Parser.ExtractedTest>): (r: AnalysisReport)
    ensures |r.matched| + |r.unrecognized| == |tests|
    ensures forall i :: 0 <= i < |r.matched| ==> DeviationOk(r.matched[i]) && SeverityAgrees(r.matched[i])
    ensures 0 <= r.healthScore <= 100
  {
    Report(tests, Lookups(tests))
  }

  /** The results of a report are those of the recognised tests, in order. */
  lemma ReportMatched(tests: seq<Parser.ExtractedTest>, founds: seq<Found>) returns (idx: seq<nat>)
    requires |founds| == |tests| && forall k :: 0 <= k < |founds| ==> FoundOk(founds[k])
    ensures |idx| == |Report(tests, founds).matched|
    ensures forall i, j :: 0 <= i < j < |idx| ==> idx[i] < idx[j]
    ensures forall k :: 0 <= k < |tests| && founds[k].Some? ==> k in idx
    ensures forall i :: 0 <= i < |idx| ==>
      idx[i] < |tests| && founds[idx[i]].Some?
      && Report(tests, founds).matched[i] == AnalyzeOne(tests[idx[i]], founds[idx[i]].value.0, founds[idx[i]].value.1)
  {
    idx := PartitionMatched(tests, founds);
  }

  /** Each result comes from a test the catalogue recognises, in input
      order, copying the name and value of the test and the canonical name,
      bounds and unit of its catalogue entry, with the status, deviation,
      severity and explanation computed from them; every recognised test has
      one. */
  lemma AnalyzeMatched(tests: seq<Parser.ExtractedTest>) returns (idx: seq<nat>)
    ensures |idx| == |Analyze(tests).matched|
    ensures forall i, j :: 0 <= i < j < |idx| ==> idx[i] < idx[j]
    ensures forall k :: 0 <= k < |tests| && Lookup(tests[k].rawName).Some? ==> k in idx
    ensures forall i :: 0 <= i < |idx| ==>
      idx[i] < |tests| && Lookup(tests[idx[i]].rawName).Some?
      && var a := Analyze(tests).matched[i];
      var (c, ref) := Lookup(tests[idx[i]].rawName).value;
      a.rawName == tests[idx[i]].rawName && a.value == tests[idx[i]].value
      && a.canonicalName == c && a.minValue == ref.minValue && a.maxValue == ref.maxValue && a.unit == ref.unit
      && a.status == Classify(a.value, ref).0 && a.deviationPct == Classify(a.value, ref).1
      && a.severity == SeverityLevel(a.status, a.deviationPct) && a.explanation == Explain(a.status, ref)
  {
    var founds := Lookups(tests);
    idx := ReportMatched(tests, founds);
    forall i | 0 <= i < |idx|
      ensures var a := Analyze(tests).matched[i];
        var (c, ref) := founds[idx[i]].value;
        a == AnalyzeOne(tests[idx[i]], c, ref)
    {
    }
  }

  /** The tests a report sets aside are the tests not found, in order. */
  lemma ReportUnrecognized(tests: seq<Parser.ExtractedTest>, founds: seq<Found>) returns (idx: seq<nat>)
    requires |founds| == |tests| && forall k :: 0 <= k < |founds| ==> FoundOk(founds[k])
    ensures |idx| == |Report(tests, founds).unrecognized|
    ensures forall i, j :: 0 <= i < j < |idx| ==> idx[i] < idx[j]
    ensures forall k :: 0 <= k < |tests| && founds[k].None? ==> k in idx
    ensures forall i :: 0 <= i < |idx| ==>
      idx[i] < |tests| && founds[idx[i]].None? && Report(tests, founds).unrecognized[i] == tests[idx[i]]
  {
    idx := PartitionUnrecognized(tests, founds);
  }

  /** The unrecognised tests are exactly those the catalogue does not know,
      in input order. */
  lemma AnalyzeUnrecognized(tests: seq<Parser.ExtractedTest>) returns (idx: seq<nat>)
    ensures |idx| == |Analyze(tests).unrecognized|
    ensures forall i, j :: 0 <= i < j < |idx| ==> idx[i] < idx[j]
    ensures forall k :: 0 <= k < |tests| && Lookup(tests[k].rawName).None? ==> k in idx
    ensures forall i :: 0 <= i < |idx| ==>
      idx[i] < |tests| && Lookup(tests[idx[i]].rawName).None? && Analyze(tests).unrecognized[i] == tests[idx[i]]
  {
    idx := ReportUnrecognized(tests, Lookups(tests));
  }

  /** A test the catalogue did not find changes neither the results nor the
      score of a report. */
  lemma ReportIgnoresNone(tests: seq<Parser.ExtractedTest>, founds: seq<Found>, u: Parser.ExtractedTest, more: seq<Found>)
    requires |founds| == |tests| && forall k :: 0 <= k < |founds| ==> FoundOk(founds[k])
    requires |more| == |tests| + 1 && more[|tests|] == None
    requires forall k :: 0 <= k < |tests| ==> more[k] == founds[k]
    ensures Report(tests + [u], more).matched == Report(tests, founds).matched
    ensures Report(tests + [u], more).unrecognized == Report(tests, founds).unrecognized + [u]
    ensures Report(tests + [u], more).healthScore == Report(tests, founds).healthScore
  {
    var all := tests + [u];
    assert all[..|tests|] == tests && more[..|tests|] == founds;
  }

  /** A test the catalogue does not know is set aside and changes neither the
      results nor the score. */
  lemma AnalyzeIgnoresUnrecognized(tests: seq<Parser.ExtractedTest>, u: Parser.ExtractedTest)
    requires Lookup(u.rawName).None?
    ensures Analyze(tests + [u]).matched == Analyze(tests).matched
    ensures Analyze(tests + [u]).unrecognized == Analyze(tests).unrecognized + [u]
    ensures Analyze(tests + [u]).healthScore == Analyze(tests).healthScore
  {
    var all, founds := tests + [u], Lookups(tests);
    var more := Lookups(all);
    forall k | 0 <= k < |tests|
      ensures more[k] == founds[k] && FoundOk(founds[k])
    {
      assert all[k] == tests[k];
    }
    assert all[|tests|] == u;
    ReportIgnoresNone(tests, founds, u, more);
  }

  // ------------------------------------------------------------------
  // A worked report
  // ------------------------------------------------------------------

  /** A report with one High test 18% above its range scores 53. */
  lemma SingleHighScore(t: AnalyzedTest)
    requires t.status == Status.High && t.deviationPct == 18.0
    ensures HealthScore([t]) == 53
  {
    var tests := [t];
    assert tests[1..] == [];
    assert TotalPenalty(100.0, tests) == 100.0 * (18.0 / 38.0);
    assert (100.0 - 100.0 * (18.0 / 38.0)).Floor == 52;
  }

  /** 118 against a 70-100 range: High, 18% out, Moderate. */
  lemma HighGlucoseResult(ext: Parser.ExtractedTest, canonical: string, ref: ReferenceRange)
    requires ext.value == 118.0 && ref.minValue == 70.0 && ref.maxValue == 100.0
    ensures AnalyzeOne(ext, canonical, ref).status == Status.High
    ensures AnalyzeOne(ext, canonical, ref).deviationPct == 18.0
    ensures AnalyzeOne(ext, canonical, ref).severity == Moderate
  {
    assert (118.0 - 100.0) / 100.0 * 100.0 == 18.0;
    assert RoundHalfEven(180.0) == 180;
  }

  lemma PartitionSingle(ext: Parser.ExtractedTest, c: string, ref: ReferenceRange)
    ensures Partition([ext], [Some((c, ref))]) == ([Hit(ext, c, ref)], [])
  {
    var tests, founds, none := [ext], [Some((c, ref))], [];
    assert tests[..0] == none && founds[..0] == [];
    var r := Partition(tests, founds);
    assert r.0 == [] + [Hit(ext, c, ref)] == [Hit(ext, c, ref)];
    assert r.1 == [];
  }

  /** The report on one test the catalogue found. */
  lemma ReportSingle(ext: Parser.ExtractedTest, founds: seq<Found>, c: string, ref: ReferenceRange)
    requires |founds| == 1 && founds[0] == Some((c, ref)) && 0.0 <= ref.minValue <= ref.maxValue
    ensures Report([ext], founds).matched == [AnalyzeOne(ext, c, ref)]
    ensures Report([ext], founds).unrecognized == []
    ensures Report([ext], founds).healthScore == HealthScore([AnalyzeOne(ext, c, ref)])
  {
    assert founds == [Some((c, ref))];
    PartitionSingle(ext, c, ref);
  }

  /** A one-test report whose test the catalogue finds. */
  lemma AnalyzeSingle(ext: Parser.ExtractedTest, c: string, ref: ReferenceRange)
    requires Lookup(ext.rawName) == Some((c, ref))
    ensures Analyze([ext]).matched == [AnalyzeOne(ext, c, ref)]
    ensures Analyze([ext]).unrecognized == []
    ensures Analyze([ext]).healthScore == HealthScore(Analyze([ext]).matched)
  {
    var founds := Lookups([ext]);
    assert founds[0] == Some((c, ref)) && FoundOk(founds[0]);
    ReportSingle(ext, founds, c, ref);
  }

  /** Fasting glucose of 118 mg/dL, as the single test of a report: one
      result, High and Moderate, nothing unrecognised, and a score of 53. */
  lemma FastingGlucoseReport(ext: Parser.ExtractedTest)
    requires ext.rawName == "Fasting Glucose" && ext.value == 118.0
    ensures |Analyze([ext]).matched| == 1 && Analyze([ext]).unrecognized == []
    ensures Analyze([ext]).matched[0].canonicalName == "fasting glucose"
    ensures Analyze([ext]).matched[0].status == Status.High
    ensures Analyze([ext]).matched[0].severity == Moderate
    ensures Analyze([ext]).healthScore == 53
  {
    FastingGlucoseLookup();
    var (c, ref) := Lookup(ext.rawName).value;
    AnalyzeSingle(ext, c, ref);
    HighGlucoseResult(ext, c, ref);
    SingleHighScore(AnalyzeOne(ext, c, ref));
  }
}
