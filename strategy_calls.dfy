/** What an evaluation strategy receives back from the evaluation function it
    repeats. The function is an oracle indexed by the call number: the k-th
    call (k = 0, 1, ...) answers `callFn(k)`, so different calls may answer
    differently, as repeated LLM judgements do. An answer is either a grader
    result or some other object that has neither a score, a rank nor a name. */
module StrategyCalls {
  import opened GraderSchema

  datatype CallOutput = Graded(result: GraderResult) | Opaque

  predicate HasScore(o: CallOutput) { o.Graded? && o.result.GraderScore? }
  predicate HasRank(o: CallOutput) { o.Graded? && o.result.GraderRank? }
  predicate HasName(o: CallOutput) { o.Graded? }

  /** The loop both strategies run before reducing: call the evaluation
      function `count` times and keep every answer, in call order. */
  method CollectCalls(callFn: nat -> CallOutput, count: nat) returns (results: seq<CallOutput>)
    ensures |results| == count
    ensures forall k :: 0 <= k < count ==> results[k] == callFn(k)
  {
    results := [];
    var k := 0;
    while k < count
      invariant k <= count
      invariant |results| == k
      invariant forall j :: 0 <= j < k ==> results[j] == callFn(j)
    {
      results := results + [callFn(k)];
      k := k + 1;
    }
  }

  /** The name of the first answer that has one, or "" when none does. */
  function FirstName(results: seq<CallOutput>): (name: string)
    ensures name != "" ==> exists i :: 0 <= i < |results| && HasName(results[i]) && results[i].result.name == name
    ensures (forall i :: 0 <= i < |results| ==> !HasName(results[i])) ==> name == ""
    ensures forall i :: 0 <= i < |results| && HasName(results[i]) && (forall j :: 0 <= j < i ==> !HasName(results[j]))
              ==> name == results[i].result.name
  {
    if |results| == 0 then ""
    else if HasName(results[0]) then results[0].result.name
    else
      var rest := FirstName(results[1..]);
      assert forall i :: 1 <= i < |results| ==> results[i] == results[1..][i - 1];
      rest
  }
}
