/** AverageEvaluationStrategy: run the evaluation several times and average.
    Scores are averaged arithmetically (a missing score counts as 0); rank
    lists are averaged position by position and the positions re-ranked
    1..n by ascending average, ties kept in position order (a stable sort). */
module AverageStrategy {
  import opened Common
  import opened JsonValue
  import opened GraderSchema
  import opened StrategyCalls

  datatype AverageEvaluationStrategy = AverageEvaluationStrategy(numEvaluations: nat)

  /** The constructor: at least two evaluations are required. */
  function NewAverageStrategy(numEvaluations: int): (r: Result<AverageEvaluationStrategy>)
    ensures r.Ok? <==> numEvaluations >= 2
    ensures r.Ok? ==> r.value.numEvaluations == numEvaluations
    ensures r.Err? ==> r.msg == "num_evaluations must be at least 2"
  {
    if numEvaluations < 2 then Err("num_evaluations must be at least 2")
    else Ok(AverageEvaluationStrategy(numEvaluations))
  }

  // ---------------------------------------------------------------------
  // Scores

  /** `getattr(r, "score", 0)`. */
  function ScoreOrZero(o: CallOutput): real {
    if HasScore(o) then o.result.score else 0.0
  }

  function SumScores(results: seq<CallOutput>): real {
    if |results| == 0 then 0.0
    else SumScores(results[..|results| - 1]) + ScoreOrZero(results[|results| - 1])
  }

  function MeanScore(results: seq<CallOutput>): real
    requires |results| > 0
  {
    SumScores(results) / (|results| as real)
  }

  lemma {:induction false} SumScoresBounds(results: seq<CallOutput>, lo: real, hi: real)
    requires forall i :: 0 <= i < |results| ==> lo <= ScoreOrZero(results[i]) <= hi
    ensures lo * (|results| as real) <= SumScores(results) <= hi * (|results| as real)
  {
    if |results| > 0 {
      var init := results[..|results| - 1];
      assert forall i :: 0 <= i < |init| ==> init[i] == results[i];
      SumScoresBounds(init, lo, hi);
    }
  }

  /** The mean lies between the smallest and the largest score; in
      particular N equal scores average to that score. */
  lemma MeanScoreBetween(results: seq<CallOutput>, lo: real, hi: real)
    requires |results| > 0
    requires forall i :: 0 <= i < |results| ==> lo <= ScoreOrZero(results[i]) <= hi
    ensures lo <= MeanScore(results) <= hi
  {
    SumScoresBounds(results, lo, hi);
    var n := |results| as real;
    assert lo * n / n == lo && hi * n / n == hi;
  }

  // ---------------------------------------------------------------------
  // Ranks

  /** The rank lists of the answers that are rank results, in call order. */
  function Ranks(results: seq<CallOutput>): (ranks: seq<seq<int>>)
    ensures |ranks| <= |results|
    ensures |results| > 0 && HasRank(results[0]) ==> |ranks| > 0 && ranks[0] == results[0].result.rank
  {
    if |results| == 0 then []
    else if HasRank(results[0]) then [results[0].result.rank] + Ranks(results[1..])
    else Ranks(results[1..])
  }

  /** np.mean over the rank lists needs them all to have the same length. */
  predicate AllOfLength(ranks: seq<seq<int>>, n: nat) {
    forall k :: 0 <= k < |ranks| ==> |ranks[k]| == n
  }

  function ColumnSum(ranks: seq<seq<int>>, n: nat, i: nat): int
    requires AllOfLength(ranks, n) && i < n
  {
    if |ranks| == 0 then 0
    else ColumnSum(ranks[..|ranks| - 1], n, i) + ranks[|ranks| - 1][i]
  }

  /** avg_rank: the mean rank of every position. */
  function AverageRanks(ranks: seq<seq<int>>, n: nat): (key: seq<real>)
    requires |ranks| > 0 && AllOfLength(ranks, n)
    ensures |key| == n
  {
    seq(n, i requires 0 <= i < n => (ColumnSum(ranks, n, i) as real) / (|ranks| as real))
  }

  /** Position `a` comes before position `b` in the stable sort by key. */
  predicate Before(key: seq<real>, a: nat, b: nat) {
    a < |key| && b < |key| && (key[a] < key[b] || (key[a] == key[b] && a < b))
  }

  predicate SortedBy(key: seq<real>, s: seq<nat>) {
    forall p, q :: 0 <= p < q < |s| ==> Before(key, s[p], s[q])
  }

  function Insert(key: seq<real>, x: nat, s: seq<nat>): (r: seq<nat>)
    requires x < |key| && x !in s
    requires forall y :: y in s ==> y < |key|
    requires SortedBy(key, s)
    ensures |r| == |s| + 1
    ensures forall y :: y in r <==> y == x || y in s
    ensures SortedBy(key, r)
  {
    if |s| == 0 then [x]
    else if Before(key, x, s[0]) then [x] + s
    else
      var t := s[1..];
      assert forall y :: y in s <==> y == s[0] || y in t;
      assert SortedBy(key, t) by {
        forall p, q | 0 <= p < q < |t| ensures Before(key, t[p], t[q]) {
          assert t[p] == s[p + 1] && t[q] == s[q + 1];
        }
      }
      var u := Insert(key, x, t);
      assert s[0] in s;
      assert Before(key, s[0], x);
      assert forall q :: 0 <= q < |u| ==> Before(key, s[0], u[q]) by {
        forall q | 0 <= q < |u| ensures Before(key, s[0], u[q]) {
          assert u[q] in u;
          if u[q] != x {
            var k :| 0 <= k < |t| && t[k] == u[q];
            assert s[k + 1] == u[q];
          }
        }
      }
      var r := [s[0]] + u;
      assert SortedBy(key, r) by {
        forall p, q | 0 <= p < q < |r| ensures Before(key, r[p], r[q]) {
          if p > 0 {
            assert r[p] == u[p - 1] && r[q] == u[q - 1];
          } else {
            assert r[q] == u[q - 1];
          }
        }
      }
      r
  }

  /** `sorted(range(k), key=avg_rank)`: the positions 0..k-1, stably sorted. */
  function SortedPositions(key: seq<real>, k: nat): (order: seq<nat>)
    requires k <= |key|
    ensures |order| == k
    ensures forall y: nat :: y in order <==> y < k
    ensures SortedBy(key, order)
  {
    if k == 0 then [] else Insert(key, k - 1, SortedPositions(key, k - 1))
  }

  /** Every position has its place in a sorted list of all positions. */
  lemma PlaceOf(key: seq<real>, order: seq<nat>, i: nat) returns (q: nat)
    requires i < |order| == |key| && i in order
    ensures q < |order| && order[q] == i
  {
    q :| 0 <= q < |order| && order[q] == i;
  }

  /** A rank list filled from a sorted list of all positions, the position
      at place q receiving rank q + 1, is a permutation of 1..n that
      respects the sort order. */
  lemma FilledFromOrder(key: seq<real>, order: seq<nat>, r: seq<int>)
    requires |order| == |r| == |key|
    requires forall y: nat :: y in order <==> y < |key|
    requires SortedBy(key, order)
    requires forall q :: 0 <= q < |order| ==> 0 <= order[q] < |r| && r[order[q]] == q + 1
    ensures multiset(r) == multiset(Iota(|key|))
    ensures forall i, j :: 0 <= i < |key| && 0 <= j < |key| && Before(key, i, j) ==> r[i] < r[j]
  {
    var n := |key|;
    forall i, j | 0 <= i < n && 0 <= j < n && Before(key, i, j)
      ensures r[i] < r[j]
    {
      var qi := PlaceOf(key, order, i);
      var qj := PlaceOf(key, order, j);
      assert qj < qi ==> Before(key, j, i);
    }
    assert Distinct(r) by {
      forall i, j | 0 <= i < j < n ensures r[i] != r[j] {
        var qi := PlaceOf(key, order, i);
        var qj := PlaceOf(key, order, j);
      }
    }
    var iota := Iota(n);
    IotaDistinct(n);
    forall v | v in r ensures v in iota {
      var i :| 0 <= i < n && r[i] == v;
      var qi := PlaceOf(key, order, i);
      assert iota[qi] == v;
    }
    forall v | v in iota ensures v in r {
      var q :| 0 <= q < n && iota[q] == v;
      assert r[order[q]] == v;
    }
    assert Elems(r) == Elems(iota);
    DistinctMultisetIffSet(r, iota);
  }

  /** new_rank: position order[p] receives rank p + 1. The result is a
      permutation of 1..n in which a position with a lower average rank (or
      an equal average and a lower index) gets the smaller rank. */
  method RankByAverage(key: seq<real>) returns (newRank: seq<int>)
    ensures |newRank| == |key|
    ensures multiset(newRank) == multiset(Iota(|key|))
    ensures forall i, j :: 0 <= i < |key| && 0 <= j < |key| && Before(key, i, j) ==> newRank[i] < newRank[j]
  {
    var n := |key|;
    var order := SortedPositions(key, n);
    assert forall q :: 0 <= q < n ==> order[q] < n by {
      forall q | 0 <= q < n ensures order[q] < n {
        assert order[q] in order;
      }
    }
    var a := new int[n](_ => 0);
    var p := 0;
    while p < n
      invariant 0 <= p <= n
      invariant forall q :: 0 <= q < p ==> a[order[q]] == q + 1
      invariant forall i :: 0 <= i < n && i !in order[..p] ==> a[i] == 0
    {
      assert forall q :: 0 <= q < p ==> Before(key, order[q], order[p]);
      a[order[p]] := p + 1;
      p := p + 1;
    }
    newRank := a[..];
    FilledFromOrder(key, order, newRank);
  }

  // ---------------------------------------------------------------------
  // execute

  /** The reason attached to an averaged rank. */
  function RankReason(n: nat): string {
    "Averaged from " + NatToString(n) + " evaluations."
  }

  /** A rank list that orders the positions by their average rank over the
      answers' rank lists, as `sorted(range(n), key=avg_rank)` does. */
  ghost predicate AveragedRanking(results: seq<CallOutput>, rank: seq<int>)
    requires |results| > 0 && HasRank(results[0])
  {
    var n := |results[0].result.rank|;
    AllOfLength(Ranks(results), n) && |rank| == n && IsRanking(rank) &&
    forall i, j :: 0 <= i < n && 0 <= j < n && Before(AverageRanks(Ranks(results), n), i, j) ==> rank[i] < rank[j]
  }

  /** The rank branch of execute: the lists must agree in length; the
      positions are re-ranked by their average. */
  method AverageRankResults(results: seq<CallOutput>, numEvaluations: nat) returns (r: Result<GraderResult>)
    requires |results| > 0 && HasRank(results[0])
    ensures r.Ok? <==> AllOfLength(Ranks(results), |results[0].result.rank|) && |results[0].result.rank| > 0
    ensures r.Ok? ==> r.value.GraderRank? && r.value.name == results[0].result.name &&
                      r.value.reason == RankReason(numEvaluations) && AveragedRanking(results, r.value.rank)
  {
    var first := results[0].result;
    var ranks := Ranks(results);
    var n := |first.rank|;
    if !AllOfLength(ranks, n) {
      // np.mean over lists of different lengths raises.
      r := Err("inhomogeneous rank lists cannot be averaged");
      return;
    }
    var key := AverageRanks(ranks, n);
    var newRank := RankByAverage(key);
    // GraderRank(...) re-validates the list; only an empty one is refused.
    var made := MakeGraderRank(first.name, newRank, RankReason(numEvaluations), map[]);
    if made.Valid? {
      r := Ok(made.value);
    } else {
      r := Err("Rank list cannot be empty");
    }
  }

  method Execute(s: AverageEvaluationStrategy, callFn: nat -> CallOutput)
    returns (results: seq<CallOutput>, r: Result<GraderResult>)
    ensures |results| == s.numEvaluations
    ensures forall k :: 0 <= k < s.numEvaluations ==> results[k] == callFn(k)
    // No answers, or a first answer that is neither a score nor a rank: ValueError.
    ensures (|results| == 0 || !(HasScore(results[0]) || HasRank(results[0]))) ==>
              r == Err("AverageEvaluationStrategy can only handle GraderScore or GraderRank results.")
    // Scores: the mean, with the first answer's name and metadata.
    ensures |results| > 0 && HasScore(results[0]) ==>
              r == Ok(GraderScore(results[0].result.name, MeanScore(results),
                                  "Averaged from " + NatToString(s.numEvaluations) + " evaluations. Original: "
                                    + results[0].result.reason,
                                  results[0].result.metadata))
    // Ranks: the lists must agree in length; the result re-ranks by average.
    ensures |results| > 0 && HasRank(results[0]) ==>
              (r.Ok? <==> AllOfLength(Ranks(results), |results[0].result.rank|) && |results[0].result.rank| > 0)
    ensures |results| > 0 && HasRank(results[0]) && r.Ok? ==>
              r.value.GraderRank? && r.value.name == results[0].result.name &&
              r.value.reason == RankReason(s.numEvaluations) && AveragedRanking(results, r.value.rank)
  {
    results := CollectCalls(callFn, s.numEvaluations);
    if |results| > 0 && HasScore(results[0]) {
      var first := results[0].result;
      r := Ok(GraderScore(first.name, MeanScore(results),
                          "Averaged from " + NatToString(s.numEvaluations) + " evaluations. Original: " + first.reason,
                          first.metadata));
    } else if |results| > 0 && HasRank(results[0]) {
      r := AverageRankResults(results, s.numEvaluations);
    } else {
      r := Err("AverageEvaluationStrategy can only handle GraderScore or GraderRank results.");
    }
  }

  // ---------------------------------------------------------------------
  // Examples

  /** Scores 0.5, 0.7 and 0.9 average to 0.7. */
  lemma MeanScoreExample()
    ensures MeanScore([Graded(GraderScore("test", 0.5, "First", map[])),
                       Graded(GraderScore("test", 0.7, "Second", map[])),
                       Graded(GraderScore("test", 0.9, "Third", map[]))]) == 0.7
  {
    var a := Graded(GraderScore("test", 0.5, "First", map[]));
    var b := Graded(GraderScore("test", 0.7, "Second", map[]));
    var c := Graded(GraderScore("test", 0.9, "Third", map[]));
    assert [a, b, c][..2] == [a, b] && [a, b][..1] == [a] && [a][..0] == [];
    assert SumScores([a]) == 0.5;
    assert SumScores([a, b]) == 1.2;
    assert SumScores([a, b, c]) == 2.1;
  }

  /** The column sums of the rank lists [1,2,3], [2,1,3] and [1,3,2]. */
  lemma ExampleColumnSums()
    ensures ColumnSum([[1, 2, 3], [2, 1, 3], [1, 3, 2]], 3, 0) == 4
    ensures ColumnSum([[1, 2, 3], [2, 1, 3], [1, 3, 2]], 3, 1) == 6
    ensures ColumnSum([[1, 2, 3], [2, 1, 3], [1, 3, 2]], 3, 2) == 8
  {
    var ranks := [[1, 2, 3], [2, 1, 3], [1, 3, 2]];
    var r1 := [[1, 2, 3]];
    var r2 := r1 + [[2, 1, 3]];
    assert ranks[..2] == r2 && r2[..1] == r1 && r1[..0] == [];
    assert ColumnSum(r1, 3, 0) == 1 && ColumnSum(r1, 3, 1) == 2 && ColumnSum(r1, 3, 2) == 3;
    assert ColumnSum(r2, 3, 0) == 3 && ColumnSum(r2, 3, 1) == 3 && ColumnSum(r2, 3, 2) == 6;
  }

  /** Ranks [1,2,3], [2,1,3] and [1,3,2] average to 4/3, 2 and 8/3 per
      position, and the only ranking that respects that order is [1,2,3]. */
  lemma RankAverageExample(r: seq<int>)
    requires |r| == 3 && multiset(r) == multiset(Iota(3))
    requires forall i, j :: 0 <= i < 3 && 0 <= j < 3 && Before(AverageRanks([[1, 2, 3], [2, 1, 3], [1, 3, 2]], 3), i, j) ==> r[i] < r[j]
    ensures r == [1, 2, 3]
  {
    var key := AverageRanks([[1, 2, 3], [2, 1, 3], [1, 3, 2]], 3);
    ExampleColumnSums();
    assert key == [4.0 / 3.0, 2.0, 8.0 / 3.0];
    assert Before(key, 0, 1) && Before(key, 1, 2);
    IncreasingRankingOf3(r);
  }

  /** The only increasing permutation of 1, 2, 3 is [1, 2, 3]. */
  lemma IncreasingRankingOf3(r: seq<int>)
    requires |r| == 3 && multiset(r) == multiset(Iota(3)) && r[0] < r[1] < r[2]
    ensures r == [1, 2, 3]
  {
    assert Iota(3) == [1, 2, 3];
    assert forall x :: x in r ==> x in multiset([1, 2, 3]);
    assert r[0] in r && r[1] in r && r[2] in r;
  }
}
