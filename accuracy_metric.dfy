/** AccuracyMetric: the share of valid results that are correct. */
module AccuracyMetric {
  import opened Common
  import opened JsonValue
  import opened EvaluationSchema

  /** The results without an error, in order. */
  function ValidResults(results: seq<EvaluationResult>): (v: seq<EvaluationResult>)
    ensures |v| <= |results|
    ensures forall r :: r in v <==> r in results && r.IsValid()
  {
    if |results| == 0 then []
    else
      var rest := ValidResults(results[1..]);
      assert forall r :: r in results <==> r == results[0] || r in results[1..];
      if results[0].IsValid() then [results[0]] + rest else rest
  }

  /** `sum(1 for r in valid if r.is_correct)`; the first is_correct that
      raises makes the whole sum raise. */
  function CountCorrect(valid: seq<EvaluationResult>): (c: Result<nat>)
    ensures c.Ok? ==> c.value <= |valid|
    ensures c.Err? <==> exists r :: r in valid && IsCorrect(r).Err?
  {
    if |valid| == 0 then Ok(0)
    else
      var rest := CountCorrect(valid[1..]);
      assert forall r :: r in valid <==> r == valid[0] || r in valid[1..];
      match IsCorrect(valid[0])
      case Err(m) => Err(m)
      case Ok(b) =>
        match rest
        case Err(m) => Err(m)
        case Ok(k) => Ok(if b then k + 1 else k)
  }

  function Count(n: int): Json { JNum(n as real) }

  /** The details dict: correct, total and valid counts, and the error count
      when there is one to report. */
  function Details(correct: int, total: int, valid: int, errors: Option<int>): map<string, Json> {
    var base := map["correct_count" := Count(correct), "total_count" := Count(total), "valid_count" := Count(valid)];
    if errors.Some? then base["error_count" := Count(errors.value)] else base
  }

  /** compute. */
  function Compute(name: string, results: seq<EvaluationResult>): (m: Result<MetricResult>)
    ensures results == [] ==> m == Ok(MetricResult(name, 0.0, Details(0, 0, 0, None), None))
    ensures results != [] && ValidResults(results) == [] ==>
              m == Ok(MetricResult(name, 0.0, Details(0, |results|, 0, Some(|results|)), None))
    ensures m.Err? <==> exists r :: r in results && r.IsValid() && IsCorrect(r).Err?
    ensures m.Ok? ==> 0.0 <= m.value.value <= 1.0 && m.value.metricName == name && m.value.IsValid()
    ensures m.Ok? && ValidResults(results) != [] ==>
              var valid := ValidResults(results);
              var correct := CountCorrect(valid).value;
              m.value.value == correct as real / |valid| as real &&
              m.value.details == Details(correct, |results|, |valid|, Some(|results| - |valid|))
  {
    if |results| == 0 then Ok(MetricResult(name, 0.0, Details(0, 0, 0, None), None))
    else
      var valid := ValidResults(results);
      if |valid| == 0 then
        assert forall r :: r in results && r.IsValid() ==> r in valid;
        Ok(MetricResult(name, 0.0, Details(0, |results|, 0, Some(|results|)), None))
      else
        match CountCorrect(valid)
        case Err(e) => Err(e)
        case Ok(correct) =>
          RatioBounds(correct, |valid|);
          Ok(MetricResult(name, correct as real / |valid| as real,
                          Details(correct, |results|, |valid|, Some(|results| - |valid|)), None))
  }

  /** Every valid result correct gives accuracy 1; none correct gives 0. */
  lemma {:induction false} CountCorrectExtremes(valid: seq<EvaluationResult>)
    ensures (forall r :: r in valid ==> IsCorrect(r) == Ok(true)) ==> CountCorrect(valid) == Ok(|valid|)
    ensures (forall r :: r in valid ==> IsCorrect(r) == Ok(false)) ==> CountCorrect(valid) == Ok(0)
  {
    if |valid| > 0 {
      CountCorrectExtremes(valid[1..]);
      assert forall r :: r in valid[1..] ==> r in valid;
    }
  }

  /** The accuracy example: predictions 0, 1, 0 against ground truths 0, 1, 1
      give 2 correct out of 3. */
  lemma AccuracyExample()
    ensures
      var mk := (p: int, g: int) => EvaluationResult("", None, Some(p), Some(g), None, map[], None);
      var m := Compute("accuracy", [mk(0, 0), mk(1, 1), mk(0, 1)]);
      m.Ok? && m.value.value == 2.0 / 3.0
  {
    var mk := (p: int, g: int) => EvaluationResult("", None, Some(p), Some(g), None, map[], None);
    var rs := [mk(0, 0), mk(1, 1), mk(0, 1)];
    assert ValidResults(rs[2..]) == [mk(0, 1)];
    assert ValidResults(rs[1..]) == [mk(1, 1), mk(0, 1)];
    assert ValidResults(rs) == rs;
    assert CountCorrect(rs[2..]) == Ok(0);
    assert CountCorrect(rs[1..]) == Ok(1);
    assert CountCorrect(rs) == Ok(2);
  }
}
