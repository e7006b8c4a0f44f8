/** The pairwise comparison runner of the conflict detector: every pair of
    answers is judged once, the verdicts fill an antisymmetric comparison
    matrix, and the answer with the largest row sum is the prediction. */
module ConflictDetector {
  import opened Common
  import opened JsonValue
  import opened EvaluationSchema
  import ConflictMetric

  // ---------------------------------------------------------------------
  // Verdicts

  /** One block of a chat response. */
  datatype Block = Block(kind: string, text: string)

  /** The concatenated text of the response's "text" blocks. */
  function ResponseText(blocks: seq<Block>): (t: string)
    ensures (forall k :: 0 <= k < |blocks| ==> blocks[k].kind != "text") ==> t == ""
    ensures |blocks| == 1 && blocks[0].kind == "text" ==> t == blocks[0].text
  {
    if |blocks| == 0 then ""
    else
      var last := blocks[|blocks| - 1];
      ResponseText(blocks[..|blocks| - 1]) + (if last.kind == "text" then last.text else "")
  }

  /** Reading the blocks in two parts and joining the texts gives the same text. */
  lemma {:induction false} ResponseTextAppend(a: seq<Block>, b: seq<Block>)
    ensures ResponseText(a + b) == ResponseText(a) + ResponseText(b)
    decreases |b|
  {
    if |b| > 0 {
      assert (a + b)[..|a + b| - 1] == a + b[..|b| - 1];
      ResponseTextAppend(a, b[..|b| - 1]);
    } else {
      assert a + b == a;
    }
  }

  /** _compare_pair's reading of the judge's reply: an A verdict wins over a
      B verdict, and anything else is a tie. */
  function Verdict(text: string): (v: int)
    ensures v == 1 <==> Contains(Upper(text), "[[BEST: A]]")
    ensures v == -1 <==> !Contains(Upper(text), "[[BEST: A]]") && Contains(Upper(text), "[[BEST: B]]")
    ensures v == 0 <==> !Contains(Upper(text), "[[BEST: A]]") && !Contains(Upper(text), "[[BEST: B]]")
  {
    if Contains(Upper(text), "[[BEST: A]]") then 1
    else if Contains(Upper(text), "[[BEST: B]]") then -1
    else 0
  }

  /** A judge call that raised (None) counts as a tie. */
  function ComparePair(reply: Option<seq<Block>>): (v: int)
    ensures -1 <= v <= 1
    ensures reply.None? ==> v == 0
  {
    match reply
    case None => 0
    case Some(blocks) => Verdict(ResponseText(blocks))
  }

  /** The verdict is read case-insensitively. */
  lemma VerdictExamples()
    ensures Verdict("[[best: a]]") == 1
    ensures Verdict("[[best: b]]") == -1
    ensures Verdict("[[TIE]]") == 0
  {
    assert Upper("[[best: a]]") == "[[BEST: A]]";
    assert OccursAt(Upper("[[best: a]]"), "[[BEST: A]]", 0);
    var b := Upper("[[best: b]]");
    assert b == "[[BEST: B]]";
    assert OccursAt(b, "[[BEST: B]]", 0);
    assert !OccursAt(b, "[[BEST: A]]", 0) by {
      assert b[8] != "[[BEST: A]]"[8];
    }
    var t := Upper("[[TIE]]");
    assert |t| < |"[[BEST: A]]"|;
  }

  // ---------------------------------------------------------------------
  // The compared pairs

  /** Number of pairs whose first index is below k. */
  function Offset(n: nat, k: nat): nat
    requires k <= n
  {
    if k == 0 then 0 else Offset(n, k - 1) + (n - k)
  }

  lemma {:induction false} OffsetMono(n: nat, k: nat, l: nat)
    requires k <= l <= n
    ensures Offset(n, k) <= Offset(n, l)
    decreases l - k
  {
    if k < l {
      OffsetMono(n, k, l - 1);
    }
  }

  /** Position of the pair (i, j), i < j, in the enumeration. */
  function PairIndex(n: nat, i: nat, j: nat): (t: nat)
    requires i < j < n
    ensures Offset(n, i) <= t < Offset(n, i + 1) <= Offset(n, n)
  {
    OffsetMono(n, i + 1, n);
    Offset(n, i) + (j - i - 1)
  }

  /** The pairs (i, j) for j = i+1 .. n-1. */
  function Row(n: nat, i: nat): seq<(nat, nat)>
    requires i < n
  {
    seq(n - 1 - i, d requires 0 <= d < n - 1 - i => (i, i + 1 + d))
  }

  /** The pairs whose first index is below k, in order. */
  function Rows(n: nat, k: nat): seq<(nat, nat)>
    requires k <= n
  {
    if k == 0 then [] else Rows(n, k - 1) + Row(n, k - 1)
  }

  /** `[(i, j) for i in range(n) for j in range(i + 1, n)]` */
  function IndexPairs(n: nat): (p: seq<(nat, nat)>)
    ensures |p| == Offset(n, n)
  {
    RowsLength(n, n);
    Rows(n, n)
  }

  lemma {:induction false} RowsLength(n: nat, k: nat)
    requires k <= n
    ensures |Rows(n, k)| == Offset(n, k)
  {
    if k > 0 {
      RowsLength(n, k - 1);
    }
  }

  lemma {:induction false} RowsSound(n: nat, k: nat)
    requires k <= n
    ensures forall t :: 0 <= t < |Rows(n, k)| ==>
              Rows(n, k)[t].0 < k && Rows(n, k)[t].0 < Rows(n, k)[t].1 < n &&
              PairIndex(n, Rows(n, k)[t].0, Rows(n, k)[t].1) == t
  {
    if k > 0 {
      RowsSound(n, k - 1);
      RowsLength(n, k - 1);
      var before, row := Rows(n, k - 1), Row(n, k - 1);
      forall t | |before| <= t < |Rows(n, k)|
        ensures Rows(n, k)[t].0 < k && Rows(n, k)[t].0 < Rows(n, k)[t].1 < n
        ensures PairIndex(n, Rows(n, k)[t].0, Rows(n, k)[t].1) == t
      {
        assert Rows(n, k)[t] == row[t - |before|];
      }
      assert forall t :: 0 <= t < |before| ==> Rows(n, k)[t] == before[t];
    }
  }

  lemma {:induction false} RowsComplete(n: nat, k: nat)
    requires k <= n
    ensures forall a, b :: 0 <= a < k && a < b < n ==>
              PairIndex(n, a, b) < |Rows(n, k)| && Rows(n, k)[PairIndex(n, a, b)] == (a, b)
  {
    if k > 0 {
      RowsComplete(n, k - 1);
      RowsLength(n, k - 1);
      RowsLength(n, k);
      var before, row := Rows(n, k - 1), Row(n, k - 1);
      forall a, b | 0 <= a < k && a < b < n
        ensures PairIndex(n, a, b) < |Rows(n, k)| && Rows(n, k)[PairIndex(n, a, b)] == (a, b)
      {
        if a == k - 1 {
          assert Rows(n, k)[PairIndex(n, a, b)] == row[b - a - 1];
        } else {
          OffsetMono(n, a + 1, k - 1);
          assert Rows(n, k)[PairIndex(n, a, b)] == before[PairIndex(n, a, b)];
        }
      }
    }
  }

  /** The enumeration lists each pair i < j < n exactly once, at PairIndex. */
  lemma PairsIndexed(n: nat)
    ensures |IndexPairs(n)| == Offset(n, n)
    ensures forall t :: 0 <= t < |IndexPairs(n)| ==>
              IndexPairs(n)[t].0 < IndexPairs(n)[t].1 < n &&
              PairIndex(n, IndexPairs(n)[t].0, IndexPairs(n)[t].1) == t
    ensures forall a, b :: 0 <= a < b < n ==> IndexPairs(n)[PairIndex(n, a, b)] == (a, b)
  {
    RowsSound(n, n);
    RowsComplete(n, n);
  }

  /** A pair is compared exactly when its first index is below its second. */
  lemma PairsExactly(n: nat)
    ensures forall p: (nat, nat) :: p in IndexPairs(n) <==> p.0 < p.1 < n
  {
    PairsIndexed(n);
    forall p: (nat, nat) | p.0 < p.1 < n ensures p in IndexPairs(n) {
      assert IndexPairs(n)[PairIndex(n, p.0, p.1)] == p;
    }
  }

  /** No pair is compared twice. */
  lemma PairsDistinct(n: nat)
    ensures forall s, t :: 0 <= s < t < |IndexPairs(n)| ==> IndexPairs(n)[s] != IndexPairs(n)[t]
  {
    PairsIndexed(n);
  }

  lemma {:induction false} OffsetClosedForm(n: nat, k: nat)
    requires k <= n
    ensures 2 * Offset(n, k) == k * (2 * n - k - 1)
  {
    if k > 0 {
      OffsetClosedForm(n, k - 1);
      calc {
        2 * Offset(n, k);
        2 * Offset(n, k - 1) + 2 * (n - k);
        (k - 1) * (2 * n - k) + 2 * (n - k);
        { assert (k - 1) * (2 * n - k) == k * (2 * n - k) - (2 * n - k); }
        k * (2 * n - k) - k;
        k * (2 * n - k - 1);
      }
    }
  }

  /** n answers give n(n-1)/2 comparisons. */
  lemma PairsCount(n: nat)
    ensures |IndexPairs(n)| == n * (n - 1) / 2
  {
    PairsIndexed(n);
    OffsetClosedForm(n, n);
  }

  // ---------------------------------------------------------------------
  // The comparison matrix

  type Grid = seq<seq<real>>

  predicate Square(m: Grid, n: nat) {
    |m| == n && forall a :: 0 <= a < n ==> |m[a]| == n
  }

  /** The cell (a, b) of the matrix built from the verdicts of the first k
      pairs; the cells of the remaining pairs are still 0. */
  function Partial(n: nat, results: seq<int>, k: nat, a: nat, b: nat): real
    requires |results| == Offset(n, n) && a < n && b < n
  {
    if a < b && PairIndex(n, a, b) < k then results[PairIndex(n, a, b)] as real
    else if b < a && PairIndex(n, b, a) < k then -(results[PairIndex(n, b, a)] as real)
    else 0.0
  }

  /** The full matrix: verdict r of the pair (i, j) stands at [i][j] and
      -r at [j][i]; the diagonal is 0. */
  function MatrixOf(n: nat, results: seq<int>): (m: Grid)
    requires |results| == Offset(n, n)
    ensures Square(m, n)
  {
    seq(n, a requires 0 <= a < n => seq(n, b requires 0 <= b < n => Partial(n, results, |results|, a, b)))
  }

  /** The matrix is antisymmetric with a zero diagonal, and each compared
      pair's verdict is its upper cell. */
  lemma MatrixAntisymmetric(n: nat, results: seq<int>)
    requires |results| == Offset(n, n)
    ensures forall a, b :: 0 <= a < n && 0 <= b < n ==> MatrixOf(n, results)[a][b] == -MatrixOf(n, results)[b][a]
    ensures forall a :: 0 <= a < n ==> MatrixOf(n, results)[a][a] == 0.0
    ensures forall a, b :: 0 <= a < b < n ==> MatrixOf(n, results)[a][b] == results[PairIndex(n, a, b)] as real
  {
    PairsIndexed(n);
  }

  /** _build_comparison_matrix: start from zeros and write both cells of
      every compared pair, in the order the pairs were compared. */
  method BuildMatrix(n: nat, results: seq<int>) returns (m: Grid)
    requires |results| == |IndexPairs(n)|
    ensures m == MatrixOf(n, results)
  {
    var pairs := IndexPairs(n);
    PairsIndexed(n);
    m := seq(n, _ => seq(n, _ => 0.0));
    var k := 0;
    while k < |pairs|
      invariant 0 <= k <= |pairs|
      invariant Square(m, n)
      invariant forall a, b :: 0 <= a < n && 0 <= b < n ==> m[a][b] == Partial(n, results, k, a, b)
    {
      var i, j := pairs[k].0, pairs[k].1;
      m := m[i := m[i][j := results[k] as real]];
      m := m[j := m[j][i := -(results[k] as real)]];
      k := k + 1;
    }
    assert forall a :: 0 <= a < n ==> m[a] == MatrixOf(n, results)[a];
  }

  // ---------------------------------------------------------------------
  // One sample

  /** A DataSample: the sample's fields and one record per answer. */
  datatype DataSample = DataSample(data: map<string, Json>, samples: seq<map<string, Json>>)

  function Field(d: map<string, Json>, key: string): Json {
    if key in d then d[key] else JStr("")
  }

  /** The sample id as a string; a missing id is "". */
  function UniqueId(d: map<string, Json>): string {
    if "unique_id" in d && d["unique_id"].JStr? then d["unique_id"].s else ""
  }

  /** `[sample.get("answer", "") for sample in data_sample.samples]` */
  function Answers(samples: seq<map<string, Json>>): (a: seq<Json>)
    ensures |a| == |samples|
  {
    seq(|samples|, i requires 0 <= i < |samples| => Field(samples[i], "answer"))
  }

  predicate Chosen(answer: map<string, Json>) {
    "preference" in answer && answer["preference"] == JStr("chosen")
  }

  /** The verdict of each compared pair; `judge` stands for the model call
      on (query, answer A, answer B), None when the call raised. */
  function Verdicts(n: nat, query: Json, answers: seq<Json>, judge: (Json, Json, Json) -> Option<seq<Block>>): (v: seq<int>)
    requires |answers| == n
    ensures |v| == |IndexPairs(n)|
  {
    PairsIndexed(n);
    var pairs := IndexPairs(n);
    seq(|pairs|, t requires 0 <= t < |pairs| =>
      ComparePair(judge(query, answers[pairs[t].0], answers[pairs[t].1])))
  }

  function Sum(row: seq<real>): real {
    if |row| == 0 then 0.0 else Sum(row[..|row| - 1]) + row[|row| - 1]
  }

  /** Lifts a numeric matrix into the stored form. */
  function Stored(m: Grid): (s: Matrix)
    ensures |s| == |m|
    ensures forall a :: 0 <= a < |m| ==> |s[a]| == |m[a]| && forall b :: 0 <= b < |m[a]| ==> s[a][b] == Some(m[a][b])
  {
    seq(|m|, a requires 0 <= a < |m| => seq(|m[a]|, b requires 0 <= b < |m[a]| => Some(m[a][b])))
  }

  /** The first answer marked "chosen", if any. */
  method FirstChosen(answers: seq<map<string, Json>>) returns (g: Option<int>)
    ensures g.Some? ==> 0 <= g.value < |answers| && Chosen(answers[g.value]) &&
                        forall i :: 0 <= i < g.value ==> !Chosen(answers[i])
    ensures g.None? ==> forall i :: 0 <= i < |answers| ==> !Chosen(answers[i])
  {
    var i := 0;
    while i < |answers|
      invariant 0 <= i <= |answers|
      invariant forall i' :: 0 <= i' < i ==> !Chosen(answers[i'])
    {
      if Chosen(answers[i]) {
        return Some(i);
      }
      i := i + 1;
    }
    return None;
  }

  /** `row_sums.index(max(row_sums))`: the first row with the largest sum. */
  method FirstBestRow(m: Grid) returns (p: nat)
    requires |m| > 0
    ensures p < |m|
    ensures forall a :: 0 <= a < |m| ==> Sum(m[a]) <= Sum(m[p])
    ensures forall a :: 0 <= a < p ==> Sum(m[a]) < Sum(m[p])
  {
    p := 0;
    var best := Sum(m[0]);
    var a := 1;
    while a < |m|
      invariant 1 <= a <= |m| && p < a && best == Sum(m[p])
      invariant forall a' :: 0 <= a' < a ==> Sum(m[a']) <= best
      invariant forall a' :: 0 <= a' < p ==> Sum(m[a']) < best
    {
      var s := Sum(m[a]);
      if s > best {
        p, best := a, s;
      }
      a := a + 1;
    }
  }

  function InsufficientAnswers(d: map<string, Json>): EvaluationResult {
    EvaluationResult(UniqueId(d), None, None, None, None, map[], Some("Insufficient answers"))
  }

  /** _evaluate_single_sample: fewer than two answers is an error result;
      otherwise every pair is judged, the matrix built, the first "chosen"
      answer is the ground truth and the first best row the prediction. */
  method EvaluateSample(sample: DataSample, judge: (Json, Json, Json) -> Option<seq<Block>>)
    returns (r: EvaluationResult)
    ensures var n := |sample.samples|;
            n < 2 ==> r == InsufficientAnswers(sample.data)
    ensures var n := |sample.samples|;
            var answers := Answers(sample.samples);
            n >= 2 ==>
              r.uniqueId == UniqueId(sample.data) && r.error.None? && r.scores.None? &&
              r.comparisonMatrix == Some(Stored(MatrixOf(n, Verdicts(n, Field(sample.data, "query"), answers, judge)))) &&
              r.metadata == map["num_answers" := JNum(n as real), "num_comparisons" := JNum((n * (n - 1) / 2) as real)]
    ensures r.groundTruthIndex.Some? ==>
              0 <= r.groundTruthIndex.value < |sample.samples| && Chosen(sample.samples[r.groundTruthIndex.value]) &&
              forall i :: 0 <= i < r.groundTruthIndex.value ==> !Chosen(sample.samples[i])
    ensures |sample.samples| >= 2 && r.groundTruthIndex.None? ==>
              forall i :: 0 <= i < |sample.samples| ==> !Chosen(sample.samples[i])
    ensures |sample.samples| >= 2 ==> r.predictedIndex.Some?
    ensures r.predictedIndex.Some? ==>
              var p := r.predictedIndex.value;
              var n := |sample.samples|;
              var m := MatrixOf(n, Verdicts(n, Field(sample.data, "query"), Answers(sample.samples), judge));
              0 <= p < |m| &&
              (forall a :: 0 <= a < |m| ==> Sum(m[a]) <= Sum(m[p])) &&
              (forall a :: 0 <= a < p ==> Sum(m[a]) < Sum(m[p]))
  {
    var n := |sample.samples|;
    if n < 2 {
      return InsufficientAnswers(sample.data);
    }
    var query := Field(sample.data, "query");
    var answers := Answers(sample.samples);
    var results := Verdicts(n, query, answers, judge);
    var matrix := BuildMatrix(n, results);
    var groundTruth := FirstChosen(sample.samples);
    var predicted := FirstBestRow(matrix);
    PairsCount(n);
    r := EvaluationResult(UniqueId(sample.data), None, Some(predicted), groundTruth, Some(Stored(matrix)),
                          map["num_answers" := JNum(n as real), "num_comparisons" := JNum(|results| as real)], None);
  }

  /** Every matrix the runner stores can be checked by the conflict metric:
      it is square and every cell holds a number. */
  lemma DetectorMatricesCheckable(n: nat, results: seq<int>)
    requires |results| == Offset(n, n)
    ensures ConflictMetric.SampleConflict(Stored(MatrixOf(n, results))).Ok?
  {
    var s := Stored(MatrixOf(n, results));
    assert ConflictMetric.Rectangular(s);
    assert ConflictMetric.Comparable(s);
  }
}
