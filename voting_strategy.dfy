/** VotingEvaluationStrategy: run the evaluation several times and report the
    most frequent score, the lowest one among equally frequent scores. */
module VotingStrategy {
  import opened Common
  import opened GraderSchema
  import opened StrategyCalls

  datatype VotingEvaluationStrategy = VotingEvaluationStrategy(numVotes: nat)

  /** The constructor: at least two votes are required. */
  function NewVotingStrategy(numVotes: int): (r: Result<VotingEvaluationStrategy>)
    ensures r.Ok? <==> numVotes >= 2
    ensures r.Ok? ==> r.value.numVotes == numVotes
    ensures r.Err? ==> r.msg == "num_votes must be at least 2"
  {
    if numVotes < 2 then Err("num_votes must be at least 2")
    else Ok(VotingEvaluationStrategy(numVotes))
  }

  /** The scores of the answers that carry one, in call order. */
  function Scores(results: seq<CallOutput>): (values: seq<real>)
    ensures |values| <= |results|
    ensures values == [] <==> forall i :: 0 <= i < |results| ==> !HasScore(results[i])
    ensures forall v :: v in values <==> exists i :: 0 <= i < |results| && HasScore(results[i]) && results[i].result.score == v
  {
    if |results| == 0 then []
    else
      var rest := Scores(results[1..]);
      assert forall i :: 1 <= i < |results| ==> results[i] == results[1..][i - 1];
      if HasScore(results[0]) then [results[0].result.score] + rest else rest
  }

  /** `v` is a winner of the vote: nothing is more frequent, and among the
      equally frequent values none is smaller. */
  ghost predicate IsVoteWinner(values: seq<real>, v: real) {
    v in values &&
    (forall w :: w in values ==> multiset(values)[w] <= multiset(values)[v]) &&
    (forall w :: w in values && multiset(values)[w] == multiset(values)[v] ==> v <= w)
  }

  /** `a` beats `b`: more frequent, or as frequent and smaller. */
  predicate Beats(values: seq<real>, a: real, b: real) {
    multiset(values)[a] > multiset(values)[b] ||
    (multiset(values)[a] == multiset(values)[b] && a <= b)
  }

  /** The best of values[..k] under Beats (Counter.most_common, then min). */
  function BestOfPrefix(values: seq<real>, k: nat): (v: real)
    requires 1 <= k <= |values|
    ensures v in values[..k]
    ensures forall j :: 0 <= j < k ==> multiset(values)[values[j]] <= multiset(values)[v]
    ensures forall j :: 0 <= j < k && multiset(values)[values[j]] == multiset(values)[v] ==> v <= values[j]
  {
    if k == 1 then values[0]
    else
      var best := BestOfPrefix(values, k - 1);
      assert values[..k] == values[..k - 1] + [values[k - 1]];
      if Beats(values, values[k - 1], best) then values[k - 1] else best
  }

  /** The voted score. */
  function Vote(values: seq<real>): (v: real)
    requires |values| > 0
    ensures IsVoteWinner(values, v)
  {
    var v := BestOfPrefix(values, |values|);
    assert values[..|values|] == values;
    forall w | w in values
      ensures multiset(values)[w] <= multiset(values)[v]
      ensures multiset(values)[w] == multiset(values)[v] ==> v <= w
    {
      var j :| 0 <= j < |values| && values[j] == w;
    }
    v
  }

  /** The winner is unique, so Vote is the only possible answer. */
  lemma VoteWinnerUnique(values: seq<real>, v: real, u: real)
    requires IsVoteWinner(values, v) && IsVoteWinner(values, u)
    ensures v == u
  {
    assert multiset(values)[u] <= multiset(values)[v];
    assert multiset(values)[v] <= multiset(values)[u];
  }

  /** execute: call the evaluation function numVotes times, then vote. */
  method Execute(s: VotingEvaluationStrategy, callFn: nat -> CallOutput)
    returns (results: seq<CallOutput>, r: Result<GraderResult>)
    ensures |results| == s.numVotes
    ensures forall k :: 0 <= k < s.numVotes ==> results[k] == callFn(k)
    ensures r.Err? <==> forall k :: 0 <= k < s.numVotes ==> !HasScore(callFn(k))
    ensures r.Ok? ==> r.value.GraderScore?
    ensures r.Ok? ==> IsVoteWinner(Scores(results), r.value.score)
    ensures r.Ok? ==> r.value.name == FirstName(results)
    ensures r.Ok? ==> r.value.reason == "Vote from " + NatToString(s.numVotes) + " evaluations."
  {
    results := CollectCalls(callFn, s.numVotes);
    var values := Scores(results);
    if |values| == 0 {
      r := Err("VotingEvaluationStrategy only supports GraderScore."
               + "No results were returned from the evaluation correctly.");
      return;
    }
    r := Ok(GraderScore(FirstName(results), Vote(values),
                        "Vote from " + NatToString(s.numVotes) + " evaluations.", map[]));
  }

  /** The majority example: [0.8, 0.8, 0.6] votes 0.8. */
  lemma VoteMajorityExample()
    ensures Vote([0.8, 0.8, 0.6]) == 0.8
  {
    var a := [0.8, 0.8, 0.6];
    assert multiset(a) == multiset{0.8, 0.8, 0.6};
    assert forall w :: w in a ==> w == 0.8 || w == 0.6;
    assert IsVoteWinner(a, 0.8);
    VoteWinnerUnique(a, Vote(a), 0.8);
  }

  /** The tie in [1, 3, 5, 5, 3] between 3 and 5 goes to the lower value, 3. */
  lemma VoteTieExample()
    ensures Vote([1.0, 3.0, 5.0, 5.0, 3.0]) == 3.0
  {
    var b := [1.0, 3.0, 5.0, 5.0, 3.0];
    assert multiset(b) == multiset{1.0, 3.0, 3.0, 5.0, 5.0};
    assert multiset(b)[1.0] == 1 && multiset(b)[3.0] == 2 && multiset(b)[5.0] == 2;
    assert forall w :: w in b ==> w == 1.0 || w == 3.0 || w == 5.0;
    assert IsVoteWinner(b, 3.0);
    VoteWinnerUnique(b, Vote(b), 3.0);
  }
}
