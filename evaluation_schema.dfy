/** The evaluation runner's record types: one EvaluationResult per sample,
    one MetricResult per metric, and the EvaluationReport that gathers them. */
module EvaluationSchema {
  import opened Common
  import opened JsonValue

  /** A pairwise comparison matrix as stored: rows of optional numbers. */
  type Matrix = seq<seq<Option<real>>>

  datatype EvaluationResult = EvaluationResult(
    uniqueId: string,
    scores: Option<seq<real>>,
    predictedIndex: Option<int>,
    groundTruthIndex: Option<int>,
    comparisonMatrix: Option<Matrix>,
    metadata: map<string, Json>,
    error: Option<string>)
  {
    /** is_valid: no error was recorded. */
    predicate IsValid() {
      error.None?
    }
  }

  /** The largest entry of a non-empty list (`max`). */
  function MaxOf(s: seq<real>): (m: real)
    requires |s| > 0
    ensures m in s
    ensures forall i :: 0 <= i < |s| ==> s[i] <= m
  {
    if |s| == 1 then s[0]
    else
      var rest := MaxOf(s[1..]);
      assert forall i :: 1 <= i < |s| ==> s[i] == s[1..][i - 1];
      if s[0] >= rest then s[0] else rest
  }

  /** Python's `s[i]`: negative indices count from the end; anything else
      outside the list raises IndexError (None here). */
  function PyIndex<T>(s: seq<T>, i: int): (r: Option<T>)
    ensures r.Some? <==> -|s| <= i < |s|
    ensures 0 <= i < |s| ==> r == Some(s[i])
    ensures -|s| <= i < 0 ==> r == Some(s[|s| + i])
  {
    if 0 <= i < |s| then Some(s[i])
    else if -|s| <= i < 0 then Some(s[|s| + i])
    else None
  }

  /** is_correct. Indexing the scores with an out-of-range ground truth
      raises, which is the Err case. */
  function IsCorrect(r: EvaluationResult): (c: Result<bool>)
    ensures !r.IsValid() ==> c == Ok(false)
    ensures r.IsValid() && r.predictedIndex.Some? && r.groundTruthIndex.Some? ==>
              c == Ok(r.predictedIndex.value == r.groundTruthIndex.value)
    ensures c.Err? ==> r.IsValid() && r.scores.Some? && r.groundTruthIndex.Some?
  {
    if !r.IsValid() then Ok(false)
    else if r.predictedIndex.Some? && r.groundTruthIndex.Some? then
      Ok(r.predictedIndex.value == r.groundTruthIndex.value)
    else if r.scores.Some? && |r.scores.value| > 0 && r.groundTruthIndex.Some? then
      match PyIndex(r.scores.value, r.groundTruthIndex.value)
      case None => Err("IndexError: list index out of range")
      case Some(s) => Ok(s == MaxOf(r.scores.value))
    else Ok(false)
  }

  /** Score-based correctness: with no predicted index, a non-empty score
      list and an in-range ground truth, the result is correct iff the ground
      truth's score is at least every other score; without scores or a
      ground truth it is never correct. */
  lemma ScoreBasedCorrectness(r: EvaluationResult)
    requires r.IsValid() && r.predictedIndex.None?
    ensures r.groundTruthIndex.None? || r.scores.None? || r.scores.value == [] ==> IsCorrect(r) == Ok(false)
    ensures r.groundTruthIndex.Some? && r.scores.Some? && 0 <= r.groundTruthIndex.value < |r.scores.value| ==>
              (IsCorrect(r) == Ok(true) <==>
               forall j :: 0 <= j < |r.scores.value| ==> r.scores.value[j] <= r.scores.value[r.groundTruthIndex.value])
    ensures r.groundTruthIndex.Some? && r.scores.Some? && |r.scores.value| > 0 ==>
              (IsCorrect(r).Err? <==> !(-|r.scores.value| <= r.groundTruthIndex.value < |r.scores.value|))
  {
    if r.groundTruthIndex.Some? && r.scores.Some? && 0 <= r.groundTruthIndex.value < |r.scores.value| {
      var s := r.scores.value;
      var g := r.groundTruthIndex.value;
      var m := MaxOf(s);
      if forall j :: 0 <= j < |s| ==> s[j] <= s[g] {
        var k :| 0 <= k < |s| && s[k] == m;
        assert s[g] == m;
      }
    }
  }

  datatype MetricResult = MetricResult(
    metricName: string, value: real, details: map<string, Json>, error: Option<string>)
  {
    predicate IsValid() {
      error.None?
    }
  }

  datatype EvaluationReport = EvaluationReport(
    modelName: string,
    totalSamples: int,
    validSamples: int,
    results: seq<EvaluationResult>,
    metrics: map<string, MetricResult>,
    errors: seq<string>,
    metadata: map<string, Json>)

  function ErrorRate(rep: EvaluationReport): (e: real)
    ensures rep.totalSamples == 0 ==> e == 0.0
    ensures 0 <= rep.validSamples <= rep.totalSamples ==> 0.0 <= e <= 1.0
  {
    if rep.totalSamples == 0 then 0.0
    else (rep.totalSamples - rep.validSamples) as real / rep.totalSamples as real
  }

  function SuccessRate(rep: EvaluationReport): (s: real)
    ensures rep.totalSamples == 0 ==> s == 0.0
    ensures 0 <= rep.validSamples <= rep.totalSamples ==> 0.0 <= s <= 1.0
  {
    if rep.totalSamples == 0 then 0.0
    else rep.validSamples as real / rep.totalSamples as real
  }

  /** The two rates are complementary whenever there is at least one sample. */
  lemma RatesComplement(rep: EvaluationReport)
    ensures rep.totalSamples != 0 ==> ErrorRate(rep) + SuccessRate(rep) == 1.0
    ensures rep.totalSamples == 0 ==> ErrorRate(rep) == 0.0 == SuccessRate(rep)
  {
    if rep.totalSamples != 0 {
      var t := rep.totalSamples as real;
      assert (rep.totalSamples - rep.validSamples) as real / t + rep.validSamples as real / t
          == ((rep.totalSamples - rep.validSamples) as real + rep.validSamples as real) / t;
    }
  }

  /** get_metric_value: the metric's value when it is present and valid,
      else the default. */
  function GetMetricValue(rep: EvaluationReport, name: string, default: real): (v: real)
    ensures name in rep.metrics && rep.metrics[name].IsValid() ==> v == rep.metrics[name].value
    ensures name !in rep.metrics || !rep.metrics[name].IsValid() ==> v == default
  {
    if name in rep.metrics && rep.metrics[name].IsValid() then rep.metrics[name].value else default
  }

  datatype Summary = Summary(
    modelName: string, totalSamples: int, validSamples: int,
    errorRate: real, successRate: real, metrics: map<string, real>, errorsCount: nat)

  /** summary: the counts, both rates, and the values of the valid metrics only. */
  function Summarize(rep: EvaluationReport): (s: Summary)
    ensures forall name :: name in s.metrics <==> name in rep.metrics && rep.metrics[name].IsValid()
    ensures forall name :: name in s.metrics ==> s.metrics[name] == GetMetricValue(rep, name, 0.0)
    ensures s.errorRate == ErrorRate(rep) && s.successRate == SuccessRate(rep)
    ensures s.totalSamples == rep.totalSamples && s.validSamples == rep.validSamples
    ensures s.errorsCount == |rep.errors| && s.modelName == rep.modelName
  {
    Summary(rep.modelName, rep.totalSamples, rep.validSamples, ErrorRate(rep), SuccessRate(rep),
            map name | name in rep.metrics && rep.metrics[name].IsValid() :: rep.metrics[name].value,
            |rep.errors|)
  }
}
