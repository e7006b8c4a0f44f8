/** ConflictMetric: the share of valid samples whose pairwise comparison
    matrix contains a preference cycle (A beats B, B beats C, C beats A). A
    cycle is found by building the "beats" graph of the matrix and looking
    for a strongly connected component with more than one vertex. */
module ConflictMetric {
  import opened Common
  import opened JsonValue
  import opened EvaluationSchema
  import opened ConflictGraph

  // ---------------------------------------------------------------------
  // The matrix and its graph

  /** `np.array(matrix)` accepts only rows of one length (a ragged list of
      lists raises ValueError). */
  predicate Rectangular(m: Matrix) {
    forall i :: 0 <= i < |m| ==> |m[i]| == |m[0]|
  }

  /** Cell (i, j) exists and holds a number: an absent cell raises
      IndexError, a None one makes `> 0` raise TypeError. */
  predicate Readable(m: Matrix, i: nat, j: nat) {
    i < |m| && j < |m[i]| && m[i][j].Some?
  }

  function Value(m: Matrix, i: nat, j: nat): real
    requires Readable(m, i, j)
  {
    m[i][j].value
  }

  /** Row i can be read at the off-diagonal columns below k. */
  predicate RowReadable(m: Matrix, i: nat, k: nat) {
    i < |m| && forall j :: 0 <= j < k && j != i ==> Readable(m, i, j)
  }

  /** Every off-diagonal cell of the n x n block is readable. */
  predicate Comparable(m: Matrix) {
    forall i, j :: 0 <= i < |m| && 0 <= j < |m| && i != j ==> Readable(m, i, j)
  }

  /** The successors of i among the columns below k, in column order. */
  function RowOf(m: Matrix, i: nat, k: nat): seq<nat>
    requires RowReadable(m, i, k)
  {
    if k == 0 then []
    else RowOf(m, i, k - 1) + (if k - 1 != i && Value(m, i, k - 1) > 0.0 then [k - 1] else [])
  }

  /** The graph `_has_conflict` builds: an edge i -> j when i beat j. */
  function GraphOf(m: Matrix): Graph
    requires Comparable(m)
  {
    seq(|m|, i requires 0 <= i < |m| => RowOf(m, i, |m|))
  }

  lemma {:induction false} RowOfMembers(m: Matrix, i: nat, k: nat)
    requires RowReadable(m, i, k)
    ensures forall j: nat :: j in RowOf(m, i, k) <==> j < k && j != i && Value(m, i, j) > 0.0
  {
    if k > 0 {
      RowOfMembers(m, i, k - 1);
    }
  }

  /** There is an edge i -> j exactly when i != j and matrix[i][j] > 0;
      the graph has one adjacency list per answer, stays within the answers
      and has no self-loops. */
  lemma GraphOfEdges(m: Matrix)
    requires Comparable(m)
    ensures |GraphOf(m)| == |m| && WellFormed(GraphOf(m)) && NoSelfLoops(GraphOf(m))
    ensures forall i: nat, j: nat :: i < |m| && j < |m| ==>
              (j in GraphOf(m)[i] <==> i != j && Value(m, i, j) > 0.0)
  {
    var g := GraphOf(m);
    forall i | 0 <= i < |m|
      ensures forall j: nat :: j in g[i] <==> j < |m| && j != i && Value(m, i, j) > 0.0
    {
      RowOfMembers(m, i, |m|);
    }
    forall v, k | 0 <= v < |g| && 0 <= k < |g[v]|
      ensures g[v][k] < |g|
    {
      assert g[v][k] in g[v];
    }
  }

  /** The graph-building loops of _has_conflict. Reading a missing or
      non-numeric cell raises. */
  method BuildGraph(m: Matrix) returns (r: Result<Graph>)
    ensures r.Ok? <==> Comparable(m)
    ensures r.Ok? ==> r.value == GraphOf(m)
  {
    var n := |m|;
    var graph: seq<seq<nat>> := seq(n, _ => []);
    var i := 0;
    while i < n
      invariant 0 <= i <= n && |graph| == n
      invariant forall i' :: 0 <= i' < i ==> RowReadable(m, i', n) && graph[i'] == RowOf(m, i', n)
      invariant forall i' :: i <= i' < n ==> graph[i'] == []
    {
      var j := 0;
      while j < n
        invariant 0 <= j <= n && |graph| == n
        invariant RowReadable(m, i, j) && graph[i] == RowOf(m, i, j)
        invariant forall i' :: 0 <= i' < i ==> RowReadable(m, i', n) && graph[i'] == RowOf(m, i', n)
        invariant forall i' :: i < i' < n ==> graph[i'] == []
      {
        if i != j {
          if j >= |m[i]| {
            assert !Readable(m, i, j);
            return Err("IndexError: index " + NatToString(j) + " is out of bounds");
          }
          if m[i][j].None? {
            assert !Readable(m, i, j);
            return Err("TypeError: '>' not supported between instances of 'NoneType' and 'int'");
          }
          if m[i][j].value > 0.0 {
            graph := graph[i := graph[i] + [j]];
          }
        }
        j := j + 1;
      }
      i := i + 1;
    }
    forall i', j | 0 <= i' < n && 0 <= j < n && i' != j
      ensures Readable(m, i', j)
    {
      assert RowReadable(m, i', n);
    }
    r := Ok(graph);
  }

  /** With fewer than two answers there is no edge, hence no cycle. */
  lemma SmallGraphAcyclic(m: Matrix)
    requires |m| < 2
    ensures Comparable(m) && !HasCycle(GraphOf(m))
  {
    var g := GraphOf(m);
    GraphOfEdges(m);
    forall p | IsWalk(g, p) && |p| >= 2 ensures p[1] !in Succ(g, p[0]) {
    }
  }

  /** _has_conflict: true iff the "beats" graph has a cycle, decided by
      looking for a strongly connected component of two or more answers. */
  method HasConflict(m: Matrix) returns (r: Result<bool>)
    ensures r.Ok? <==> Comparable(m)
    ensures r.Ok? ==> (r.value <==> HasCycle(GraphOf(m)))
    ensures |m| < 2 ==> r == Ok(false)
  {
    if |m| < 2 {
      SmallGraphAcyclic(m);
      return Ok(false);
    }
    var built := BuildGraph(m);
    if built.Err? {
      return Err(built.msg);
    }
    var graph := built.value;
    GraphOfEdges(m);
    var sccs := TarjanScc(graph);
    ComponentsDecideCycles(graph, sccs);
    var k := 0;
    while k < |sccs|
      invariant 0 <= k <= |sccs|
      invariant forall c :: 0 <= c < k ==> |sccs[c]| <= 1
    {
      if |sccs[k]| > 1 {
        return Ok(true);
      }
      k := k + 1;
    }
    r := Ok(false);
  }

  // ---------------------------------------------------------------------
  // compute

  /** The results that count: valid and carrying a matrix, in order. */
  function WithMatrix(results: seq<EvaluationResult>): (v: seq<EvaluationResult>)
    ensures |v| <= |results|
    ensures forall r :: r in v <==> r in results && r.IsValid() && r.comparisonMatrix.Some?
  {
    if |results| == 0 then []
    else
      var rest := WithMatrix(results[1..]);
      assert forall r :: r in results <==> r == results[0] || r in results[1..];
      if results[0].IsValid() && results[0].comparisonMatrix.Some? then [results[0]] + rest else rest
  }

  /** One sample's verdict: converting a ragged matrix raises, so does
      reading an unreadable cell; otherwise the sample conflicts iff its
      graph has a cycle. */
  ghost function SampleConflict(m: Matrix): Result<bool> {
    if !Rectangular(m) then Err("ValueError: inhomogeneous matrix")
    else if !Comparable(m) then Err("unreadable matrix cell")
    else Ok(HasCycle(GraphOf(m)))
  }

  /** The conflicting samples among `valid`, in order; the first sample
      whose check raises makes the whole computation raise. */
  ghost function Conflicting(valid: seq<EvaluationResult>): (c: Result<seq<EvaluationResult>>)
    requires forall r :: r in valid ==> r.comparisonMatrix.Some?
    ensures c.Ok? ==> |c.value| <= |valid| && forall r :: r in c.value ==> r in valid
  {
    if |valid| == 0 then Ok([])
    else
      var init, last := valid[..|valid| - 1], valid[|valid| - 1];
      assert forall r :: r in init ==> r in valid;
      var before := Conflicting(init);
      if before.Err? then before
      else
        var here := SampleConflict(last.comparisonMatrix.value);
        if here.Err? then Err(here.msg)
        else Ok(before.value + (if here.value then [last] else []))
  }

  /** The sample's matrix can be checked without raising. */
  ghost predicate Checkable(r: EvaluationResult) {
    r.comparisonMatrix.Some? && SampleConflict(r.comparisonMatrix.value).Ok?
  }

  /** The sample's matrix is checked and its preference graph has a cycle. */
  ghost predicate Conflicts(r: EvaluationResult) {
    r.comparisonMatrix.Some? && SampleConflict(r.comparisonMatrix.value) == Ok(true)
  }

  predicate AllMatrices(valid: seq<EvaluationResult>) {
    forall r :: r in valid ==> r.comparisonMatrix.Some?
  }

  ghost predicate AllCheckable(valid: seq<EvaluationResult>) {
    forall k :: 0 <= k < |valid| ==> Checkable(valid[k])
  }

  lemma AllCheckableSnoc(valid: seq<EvaluationResult>)
    requires |valid| > 0
    ensures AllCheckable(valid) <==> AllCheckable(valid[..|valid| - 1]) && Checkable(valid[|valid| - 1])
  {
    var init := valid[..|valid| - 1];
    assert forall k :: 0 <= k < |init| ==> init[k] == valid[k];
  }

  lemma ConflictingSnocOk(valid: seq<EvaluationResult>)
    requires AllMatrices(valid) && |valid| > 0
    ensures AllMatrices(valid[..|valid| - 1])
    ensures Conflicting(valid).Ok? <==> Conflicting(valid[..|valid| - 1]).Ok? && Checkable(valid[|valid| - 1])
  {
    assert forall r :: r in valid[..|valid| - 1] ==> r in valid;
  }

  /** Conflicting succeeds iff every sample can be checked. */
  lemma {:induction false} ConflictingOk(valid: seq<EvaluationResult>)
    requires AllMatrices(valid)
    ensures Conflicting(valid).Ok? <==> AllCheckable(valid)
  {
    if |valid| > 0 {
      ConflictingSnocOk(valid);
      ConflictingOk(valid[..|valid| - 1]);
      AllCheckableSnoc(valid);
    }
  }

  /** When it succeeds, Conflicting keeps exactly the samples whose graph has a cycle. */
  lemma {:induction false} ConflictingKeeps(valid: seq<EvaluationResult>)
    requires forall r :: r in valid ==> r.comparisonMatrix.Some?
    requires Conflicting(valid).Ok?
    ensures forall r :: r in Conflicting(valid).value <==> r in valid && Conflicts(r)
  {
    if |valid| > 0 {
      var init, last := valid[..|valid| - 1], valid[|valid| - 1];
      assert forall r :: r in init ==> r in valid;
      ConflictingKeeps(init);
      var here := SampleConflict(last.comparisonMatrix.value);
      assert Conflicting(valid).value == Conflicting(init).value + (if here.value then [last] else []);
      assert forall r :: r in valid <==> r in init || r == last;
    }
  }

  /** One more checked sample extends the conflicting list by it or by nothing. */
  lemma ConflictingStep(valid: seq<EvaluationResult>, k: nat, found: seq<EvaluationResult>, b: bool)
    requires AllMatrices(valid)
    requires k < |valid| && AllMatrices(valid[..k]) && Conflicting(valid[..k]) == Ok(found)
    requires SampleConflict(valid[k].comparisonMatrix.value) == Ok(b)
    ensures AllMatrices(valid[..k + 1])
    ensures Conflicting(valid[..k + 1]) == Ok(found + (if b then [valid[k]] else []))
  {
    assert forall r :: r in valid[..k + 1] ==> r in valid;
    assert valid[..k + 1][..k] == valid[..k];
    assert valid[..k + 1][k] == valid[k];
  }

  /** The entry conflict_details keeps for one conflicting sample. */
  function ConflictDetail(r: EvaluationResult): Json
    requires r.comparisonMatrix.Some?
  {
    JObj(map["unique_id" := JStr(r.uniqueId), "matrix_size" := JNum(|r.comparisonMatrix.value| as real)])
  }

  function ConflictDetails(rs: seq<EvaluationResult>): (d: seq<Json>)
    requires forall r :: r in rs ==> r.comparisonMatrix.Some?
    ensures |d| == |rs|
  {
    if |rs| == 0 then []
    else
      assert forall r :: r in rs[..|rs| - 1] ==> r in rs;
      ConflictDetails(rs[..|rs| - 1]) + [ConflictDetail(rs[|rs| - 1])]
  }

  lemma ConflictDetailsSnoc(rs: seq<EvaluationResult>, x: EvaluationResult)
    requires AllMatrices(rs) && x.comparisonMatrix.Some?
    ensures AllMatrices(rs + [x])
    ensures ConflictDetails(rs + [x]) == ConflictDetails(rs) + [ConflictDetail(x)]
  {
    assert (rs + [x])[..|rs|] == rs;
  }

  function Count(n: int): Json { JNum(n as real) }

  function EmptyDetails(total: nat): map<string, Json> {
    var base := map["samples_with_conflicts" := Count(0), "total_samples" := Count(total), "valid_samples" := Count(0)];
    if total == 0 then base else base["no_matrix_count" := Count(total)]
  }

  function RunDetails(conflicts: nat, total: nat, valid: nat, details: seq<Json>): map<string, Json> {
    map["samples_with_conflicts" := Count(conflicts), "total_samples" := Count(total),
        "valid_samples" := Count(valid), "conflict_details" := JArr(Prefix(details, 10))]
  }

  /** One sample of the loop in compute: the matrix is converted, then checked. */
  method CheckSample(m: Matrix) returns (r: Result<bool>)
    ensures r == SampleConflict(m)
  {
    if |m| > 0 {
      var w := |m[0]|;
      var i := 0;
      while i < |m|
        invariant 0 <= i <= |m|
        invariant forall i' :: 0 <= i' < i ==> |m[i']| == w
      {
        if |m[i]| != w {
          return Err("ValueError: inhomogeneous matrix");
        }
        i := i + 1;
      }
    }
    r := HasConflict(m);
    if r.Err? {
      r := Err("unreadable matrix cell");
    }
  }

  /** compute: conflict rate = conflicting samples / valid samples, with the
      first ten conflicting samples listed. */
  method Compute(name: string, results: seq<EvaluationResult>) returns (r: Result<MetricResult>)
    ensures results == [] ==> r == Ok(MetricResult(name, 0.0, EmptyDetails(0), None))
    ensures results != [] && WithMatrix(results) == [] ==>
              r == Ok(MetricResult(name, 0.0, EmptyDetails(|results|), None))
    ensures WithMatrix(results) != [] ==> (r.Err? <==> Conflicting(WithMatrix(results)).Err?)
    ensures r.Ok? ==> r.value.metricName == name && r.value.IsValid() && 0.0 <= r.value.value <= 1.0
    ensures r.Ok? && WithMatrix(results) != [] ==>
              (var valid := WithMatrix(results);
               var conflicting := Conflicting(valid).value;
               r.value.value == |conflicting| as real / |valid| as real &&
               r.value.details == RunDetails(|conflicting|, |results|, |valid|, ConflictDetails(conflicting)))
  {
    if |results| == 0 {
      return Ok(MetricResult(name, 0.0, EmptyDetails(0), None));
    }
    var valid := WithMatrix(results);
    if |valid| == 0 {
      return Ok(MetricResult(name, 0.0, EmptyDetails(|results|), None));
    }
    var scan := ScanSamples(valid);
    if scan.Err? {
      return Err(scan.msg);
    }
    var (samplesWithConflicts, details) := scan.value;
    RatioBounds(samplesWithConflicts, |valid|);
    r := Ok(MetricResult(name, samplesWithConflicts as real / |valid| as real,
                         RunDetails(samplesWithConflicts, |results|, |valid|, details), None));
  }

  /** The loop of compute over the samples that carry a matrix: the number of
      conflicting samples and their detail entries, or the first error. */
  method ScanSamples(valid: seq<EvaluationResult>) returns (r: Result<(nat, seq<Json>)>)
    requires AllMatrices(valid)
    ensures r.Err? <==> Conflicting(valid).Err?
    ensures r.Ok? ==> r.value == (|Conflicting(valid).value|, ConflictDetails(Conflicting(valid).value))
  {
    var samplesWithConflicts := 0;
    var details: seq<Json> := [];
    ghost var found: seq<EvaluationResult> := [];
    var k := 0;
    while k < |valid|
      invariant 0 <= k <= |valid|
      invariant AllMatrices(valid[..k]) && Conflicting(valid[..k]) == Ok(found)
      invariant AllMatrices(found)
      invariant samplesWithConflicts == |found| && details == ConflictDetails(found)
    {
      var here := CheckSample(valid[k].comparisonMatrix.value);
      if here.Err? {
        ScanStepErr(valid, k);
        return Err(here.msg);
      }
      ScanStep(valid, k, found, here.value);
      if here.value {
        samplesWithConflicts := samplesWithConflicts + 1;
        details := details + [ConflictDetail(valid[k])];
      }
      found := found + (if here.value then [valid[k]] else []);
      k := k + 1;
    }
    assert valid[..k] == valid;
    r := Ok((samplesWithConflicts, details));
  }

  /** The bookkeeping of one checked sample in the loop of compute. */
  lemma ScanStep(valid: seq<EvaluationResult>, k: nat, found: seq<EvaluationResult>, b: bool)
    requires AllMatrices(valid) && k < |valid|
    requires AllMatrices(valid[..k]) && Conflicting(valid[..k]) == Ok(found) && AllMatrices(found)
    requires SampleConflict(valid[k].comparisonMatrix.value) == Ok(b)
    ensures AllMatrices(valid[..k + 1])
    ensures var next := found + (if b then [valid[k]] else []);
      Conflicting(valid[..k + 1]) == Ok(next) && AllMatrices(next) &&
      ConflictDetails(next) == ConflictDetails(found) + (if b then [ConflictDetail(valid[k])] else [])
  {
    ConflictingStep(valid, k, found, b);
    if b {
      ConflictDetailsSnoc(found, valid[k]);
    } else {
      assert found + [] == found;
      assert ConflictDetails(found) + [] == ConflictDetails(found);
    }
  }

  /** A sample whose check raises makes the whole computation raise. */
  lemma ScanStepErr(valid: seq<EvaluationResult>, k: nat)
    requires AllMatrices(valid) && k < |valid|
    requires AllMatrices(valid[..k]) && Conflicting(valid[..k]).Ok?
    requires SampleConflict(valid[k].comparisonMatrix.value).Err?
    ensures Conflicting(valid).Err?
  {
    var s := valid[..k + 1];
    assert Conflicting(s).Err? by {
      assert s[..k] == valid[..k] && s[k] == valid[k];
      assert AllMatrices(s) by {
        assert forall r :: r in s ==> r in valid;
      }
      ConflictingSnocErr(s);
    }
    ConflictingPrefixErr(valid, k + 1);
  }

  lemma ConflictingSnocErr(s: seq<EvaluationResult>)
    requires AllMatrices(s) && |s| > 0
    requires AllMatrices(s[..|s| - 1]) && Conflicting(s[..|s| - 1]).Ok?
    requires SampleConflict(s[|s| - 1].comparisonMatrix.value).Err?
    ensures Conflicting(s).Err?
  {
  }

  /** Once a prefix fails to be checked, the whole list does. */
  lemma {:induction false} ConflictingPrefixErr(valid: seq<EvaluationResult>, k: nat)
    requires forall r :: r in valid ==> r.comparisonMatrix.Some?
    requires k <= |valid| && Conflicting(valid[..k]).Err?
    ensures Conflicting(valid).Err?
    decreases |valid| - k
  {
    if k < |valid| {
      assert valid[..k + 1][..k] == valid[..k];
      ConflictingPrefixErr(valid, k + 1);
    } else {
      assert valid[..k] == valid;
    }
  }

  // ---------------------------------------------------------------------
  // Examples

  /** A beats B and B beats A: a two-cycle. */
  lemma TwoCycleConflicts()
    ensures var m: Matrix := [[None, Some(1.0)], [Some(1.0), None]];
            Comparable(m) && HasCycle(GraphOf(m))
  {
    var m: Matrix := [[None, Some(1.0)], [Some(1.0), None]];
    GraphOfEdges(m);
    var g := GraphOf(m);
    assert 1 in Succ(g, 0) && 0 in Succ(g, 1);
    assert IsWalk(g, [0, 1, 0]);
  }
}
