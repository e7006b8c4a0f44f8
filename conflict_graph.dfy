/** The comparison graph of the conflict metric and Tarjan's strongly
    connected components search over it. Vertices are answer indices
    0..n-1; an edge i -> j means answer i beat answer j. */
module ConflictGraph {
  import opened Common
  import opened GraderSchema

  /** Adjacency lists. */
  type Graph = seq<seq<nat>>

  predicate WellFormed(g: Graph) {
    forall v, k :: 0 <= v < |g| && 0 <= k < |g[v]| ==> g[v][k] < |g|
  }

  function Succ(g: Graph, x: nat): seq<nat> {
    if x < |g| then g[x] else []
  }

  predicate NoSelfLoops(g: Graph) {
    forall v :: 0 <= v < |g| ==> v !in g[v]
  }

  // ---------------------------------------------------------------------
  // Walks, reachability and cycles

  ghost predicate IsWalk(g: Graph, p: seq<nat>) {
    |p| >= 1 && forall i {:trigger Succ(g, p[i])} :: 0 <= i < |p| - 1 ==> p[i + 1] in Succ(g, p[i])
  }

  ghost predicate Reach(g: Graph, a: nat, b: nat) {
    exists p :: IsWalk(g, p) && p[0] == a && p[|p| - 1] == b
  }

  /** A closed walk with at least one edge. */
  ghost predicate HasCycle(g: Graph) {
    exists p :: IsWalk(g, p) && |p| >= 2 && p[0] == p[|p| - 1]
  }

  lemma ReachRefl(g: Graph, a: nat)
    ensures Reach(g, a, a)
  {
    assert IsWalk(g, [a]);
  }

  lemma ReachEdge(g: Graph, a: nat, b: nat)
    requires b in Succ(g, a)
    ensures Reach(g, a, b)
  {
    assert IsWalk(g, [a, b]);
  }

  lemma ReachTrans(g: Graph, a: nat, b: nat, c: nat)
    requires Reach(g, a, b) && Reach(g, b, c)
    ensures Reach(g, a, c)
  {
    var p :| IsWalk(g, p) && p[0] == a && p[|p| - 1] == b;
    var q :| IsWalk(g, q) && q[0] == b && q[|q| - 1] == c;
    var r := p + q[1..];
    forall i | 0 <= i < |r| - 1 ensures r[i + 1] in Succ(g, r[i]) {
      if i < |p| - 1 {
        assert r[i] == p[i] && r[i + 1] == p[i + 1];
      } else {
        assert r[i] == q[i - |p| + 1] && r[i + 1] == q[i - |p| + 2];
      }
    }
    assert IsWalk(g, r);
  }

  lemma ReachStep(g: Graph, a: nat, b: nat, c: nat)
    requires b in Succ(g, a) && Reach(g, b, c)
    ensures Reach(g, a, c)
  {
    ReachEdge(g, a, b);
    ReachTrans(g, a, b, c);
  }

  /** Two distinct vertices that reach each other lie on a cycle. */
  lemma MutualReachCycle(g: Graph, a: nat, b: nat)
    requires a != b && Reach(g, a, b) && Reach(g, b, a)
    ensures HasCycle(g)
  {
    var p :| IsWalk(g, p) && p[0] == a && p[|p| - 1] == b;
    var q :| IsWalk(g, q) && q[0] == b && q[|q| - 1] == a;
    var r := p + q[1..];
    forall i | 0 <= i < |r| - 1 ensures r[i + 1] in Succ(g, r[i]) {
      if i < |p| - 1 {
        assert r[i] == p[i] && r[i + 1] == p[i + 1];
      } else {
        assert r[i] == q[i - |p| + 1] && r[i + 1] == q[i - |p| + 2];
      }
    }
    assert |p| >= 2;
    assert IsWalk(g, r) && |r| >= 2 && r[0] == r[|r| - 1];
  }

  // ---------------------------------------------------------------------
  // Components

  /** u lies in some component. */
  ghost predicate InComponent(ss: seq<seq<nat>>, u: nat) {
    exists c :: 0 <= c < |ss| && u in ss[c]
  }

  lemma {:induction false} FlattenMember(ss: seq<seq<nat>>, u: nat)
    ensures u in Flatten<nat>(ss) <==> InComponent(ss, u)
    decreases |ss|
  {
    if |ss| > 0 {
      var init := ss[..|ss| - 1];
      FlattenMember(init, u);
      if u in Flatten<nat>(init) {
        var c :| 0 <= c < |init| && u in init[c];
        assert ss[c] == init[c];
      }
      if exists c :: 0 <= c < |ss| && u in ss[c] {
        var c :| 0 <= c < |ss| && u in ss[c];
        if c < |init| {
          assert init[c] == ss[c];
        }
      }
    }
  }

  /** Each vertex 0..n-1 lies in exactly one component, at one position,
      and no component is empty. */
  ghost predicate IsPartition(sccs: seq<seq<nat>>, n: nat) {
    (forall c :: 0 <= c < |sccs| ==> |sccs[c]| > 0 && Distinct(sccs[c])) &&
    (forall c, u :: 0 <= c < |sccs| && u in sccs[c] ==> u < n) &&
    (forall u :: 0 <= u < n ==> InComponent(sccs, u)) &&
    (forall c1, c2, u :: 0 <= c1 < |sccs| && 0 <= c2 < |sccs| && u in sccs[c1] && u in sccs[c2] ==> c1 == c2)
  }

  /** Components come out in reverse topological order: an edge leaves a
      component only towards the same or an earlier one. */
  ghost predicate ClosedInOrder(g: Graph, sccs: seq<seq<nat>>) {
    forall c, x, w :: 0 <= c < |sccs| && x in sccs[c] && w in Succ(g, x) ==>
      exists c' :: 0 <= c' <= c && w in sccs[c']
  }

  /** Every component is strongly connected through its last vertex. */
  ghost predicate ComponentsConnected(g: Graph, sccs: seq<seq<nat>>) {
    forall c, x :: 0 <= c < |sccs| && |sccs[c]| > 0 && x in sccs[c] ==>
      Reach(g, sccs[c][|sccs[c]| - 1], x) && Reach(g, x, sccs[c][|sccs[c]| - 1])
  }

  /** Distinct flattened components covering 0..n-1 form a partition. */
  lemma FlattenPartition(sccs: seq<seq<nat>>, n: nat)
    requires Distinct(Flatten<nat>(sccs))
    requires forall u :: u in Flatten<nat>(sccs) <==> 0 <= u < n
    requires forall c :: 0 <= c < |sccs| ==> |sccs[c]| > 0
    ensures IsPartition(sccs, n)
  {
    forall c | 0 <= c < |sccs| ensures Distinct(sccs[c]) {
      var _ := FlattenSlice(sccs, c);
    }
    forall c, u | 0 <= c < |sccs| && u in sccs[c] ensures u < n {
      FlattenMember(sccs, u);
    }
    forall u | 0 <= u < n ensures InComponent(sccs, u) {
      FlattenMember(sccs, u);
    }
    forall c1, c2, u | 0 <= c1 < |sccs| && 0 <= c2 < |sccs| && u in sccs[c1] && u in sccs[c2]
      ensures c1 == c2
    {
      if c1 != c2 {
        FlattenDisjoint(sccs, c1, c2, u);
      }
    }
  }

  /** Component c sits in Flatten<nat>(sccs) as one contiguous slice. */
  lemma {:induction false} FlattenSlice(sccs: seq<seq<nat>>, c: nat) returns (off: nat)
    requires c < |sccs|
    ensures off + |sccs[c]| <= |Flatten<nat>(sccs)|
    ensures forall i :: 0 <= i < |sccs[c]| ==> Flatten<nat>(sccs)[off + i] == sccs[c][i]
    ensures Distinct(Flatten<nat>(sccs)) ==> Distinct(sccs[c])
    decreases |sccs|
  {
    var init := sccs[..|sccs| - 1];
    var f := Flatten<nat>(sccs);
    assert f == Flatten<nat>(init) + sccs[|sccs| - 1];
    if c == |sccs| - 1 {
      off := |Flatten<nat>(init)|;
    } else {
      off := FlattenSlice(init, c);
      assert init[c] == sccs[c];
    }
    if Distinct(f) {
      forall i, j | 0 <= i < j < |sccs[c]| ensures sccs[c][i] != sccs[c][j] {
        assert sccs[c][i] == f[off + i] && sccs[c][j] == f[off + j];
      }
    }
  }

  lemma SharedBreaksDistinct(a: seq<nat>, b: seq<nat>, u: nat)
    requires u in a && u in b
    ensures !Distinct(a + b)
  {
    var i :| 0 <= i < |a| && a[i] == u;
    var j :| 0 <= j < |b| && b[j] == u;
    assert (a + b)[i] == (a + b)[|a| + j];
  }

  /** Two different components of a duplicate-free flattening share nothing. */
  lemma {:induction false} FlattenDisjoint(sccs: seq<seq<nat>>, c1: nat, c2: nat, u: nat)
    requires c1 < |sccs| && c2 < |sccs| && c1 != c2
    requires Distinct(Flatten<nat>(sccs))
    ensures !(u in sccs[c1] && u in sccs[c2])
    decreases |sccs|
  {
    var init := sccs[..|sccs| - 1];
    var f := Flatten<nat>(sccs);
    assert f == Flatten<nat>(init) + sccs[|sccs| - 1];
    assert Distinct(Flatten<nat>(init)) by {
      forall i, j | 0 <= i < j < |Flatten<nat>(init)| ensures Flatten<nat>(init)[i] != Flatten<nat>(init)[j] {
        assert Flatten<nat>(init)[i] == f[i] && Flatten<nat>(init)[j] == f[j];
      }
    }
    var last := |sccs| - 1;
    if c1 == last || c2 == last {
      var other := if c1 == last then c2 else c1;
      if u in sccs[c1] && u in sccs[c2] {
        assert u in init[other];
        FlattenMember(init, u);
        SharedBreaksDistinct(Flatten<nat>(init), sccs[last], u);
      }
    } else {
      FlattenDisjoint(init, c1, c2, u);
    }
  }

  /** Tarjan's output decides cycles: with components that partition the
      vertices, come out closed in order and are strongly connected, a
      graph without self-loops has a directed cycle iff some component has
      more than one vertex. */
  lemma ComponentsDecideCycles(g: Graph, sccs: seq<seq<nat>>)
    requires WellFormed(g) && NoSelfLoops(g)
    requires IsPartition(sccs, |g|) && ClosedInOrder(g, sccs) && ComponentsConnected(g, sccs)
    ensures (exists c :: 0 <= c < |sccs| && |sccs[c]| > 1) <==> HasCycle(g)
  {
    if exists c :: 0 <= c < |sccs| && |sccs[c]| > 1 {
      var c :| 0 <= c < |sccs| && |sccs[c]| > 1;
      var root := sccs[c][|sccs[c]| - 1];
      var x := sccs[c][0];
      assert Distinct(sccs[c]);
      assert x in sccs[c] && root in sccs[c];
      MutualReachCycle(g, root, x);
    } else {
      SingletonsAcyclic(g, sccs);
    }
  }

  /** With singleton components only, no closed walk exists. */
  lemma SingletonsAcyclic(g: Graph, sccs: seq<seq<nat>>)
    requires WellFormed(g) && NoSelfLoops(g)
    requires IsPartition(sccs, |g|) && ClosedInOrder(g, sccs)
    requires forall c :: 0 <= c < |sccs| ==> |sccs[c]| <= 1
    ensures !HasCycle(g)
  {
    forall p | IsWalk(g, p) && |p| >= 2 ensures p[0] != p[|p| - 1] {
      assert p[1] in Succ(g, p[0]);
      assert p[0] < |g|;
      assert InComponent(sccs, p[0]);
      var c0 :| 0 <= c0 < |sccs| && p[0] in sccs[c0];
      var k := |p| - 1;
      assert p[k] < |g| by { assert p[k] in Succ(g, p[k - 1]); }
      assert InComponent(sccs, p[k]);
      var ck :| 0 <= ck < |sccs| && p[k] in sccs[ck];
      WalkDescends(g, sccs, p, k);
      assert ck < c0;
    }
  }

  lemma SingletonSame(sccs: seq<seq<nat>>, c: nat, a: nat, b: nat)
    requires c < |sccs| && |sccs[c]| <= 1 && a in sccs[c] && b in sccs[c]
    ensures a == b
  {
  }

  /** Along a walk through singleton components, every edge goes to a
      strictly earlier component. */
  lemma {:induction false} WalkDescends(g: Graph, sccs: seq<seq<nat>>, p: seq<nat>, k: nat)
    requires WellFormed(g) && NoSelfLoops(g)
    requires IsPartition(sccs, |g|) && ClosedInOrder(g, sccs)
    requires forall c :: 0 <= c < |sccs| ==> |sccs[c]| <= 1
    requires IsWalk(g, p) && |p| >= 2 && 1 <= k < |p| && p[0] < |g|
    ensures forall c0, ck :: 0 <= c0 < |sccs| && 0 <= ck < |sccs| && p[0] in sccs[c0] && p[k] in sccs[ck] ==> ck < c0
    decreases k
  {
    forall c0, ck | 0 <= c0 < |sccs| && 0 <= ck < |sccs| && p[0] in sccs[c0] && p[k] in sccs[ck]
      ensures ck < c0
    {
      var prev := p[k - 1];
      assert p[k] in Succ(g, prev);
      assert prev < |g| by {
        if k - 1 > 0 { assert p[k - 1] in Succ(g, p[k - 2]); }
      }
      assert InComponent(sccs, prev);
      var cp :| 0 <= cp < |sccs| && prev in sccs[cp];
      var c' :| 0 <= c' <= cp && p[k] in sccs[c'];
      assert c' == ck;
      assert prev != p[k] by { assert p[k] in g[prev]; }
      if c' == cp {
        SingletonSame(sccs, cp, prev, p[k]);
      }
      if k > 1 {
        WalkDescends(g, sccs, p, k - 1);
      }
    }
  }

  // ---------------------------------------------------------------------
  // The state of the search, as values, and the invariant it keeps

  /** indices, lowlinks, on_stack, the index counter, the stack and the
      components found so far, with the visited and finished vertices. */
  datatype SearchState = SearchState(
    ix: seq<int>, ll: seq<int>, os: seq<bool>, counter: int,
    stack: seq<nat>, sccs: seq<seq<nat>>, visited: set<nat>, done: set<nat>)

  function Ix(s: SearchState, u: nat): int { if u < |s.ix| then s.ix[u] else -1 }
  function Ll(s: SearchState, u: nat): int { if u < |s.ll| then s.ll[u] else -1 }

  ghost predicate Bookkeeping(g: Graph, s: SearchState) {
    WellFormed(g) && |s.ix| == |g| && |s.ll| == |g| && |s.os| == |g| &&
    (forall u :: u in s.visited ==> u < |g|) &&
    (forall u :: 0 <= u < |g| ==> (s.ix[u] == -1 <==> u !in s.visited)) &&
    (forall u :: 0 <= u < |g| && u in s.visited ==> 0 <= s.ix[u] < s.counter) &&
    s.counter == |s.visited| &&
    (forall u :: 0 <= u < |g| ==> (s.os[u] <==> u in s.stack)) &&
    s.done <= s.visited
  }

  /** Every visited vertex is on the stack or in exactly one emitted component. */
  ghost predicate Partitioned(s: SearchState) {
    Distinct(s.stack) && Distinct(Flatten<nat>(s.sccs)) &&
    (forall u :: u in s.visited <==> u in s.stack || u in Flatten<nat>(s.sccs)) &&
    (forall u :: u in s.stack ==> u !in Flatten<nat>(s.sccs)) &&
    (forall c :: 0 <= c < |s.sccs| ==> |s.sccs[c]| > 0)
  }

  /** The stack holds vertices in visiting order. */
  ghost predicate StackOrdered(s: SearchState) {
    forall i, j :: 0 <= i < j < |s.stack| ==> Ix(s, s.stack[i]) < Ix(s, s.stack[j])
  }

  /** A stacked vertex's lowlink is at most its index and is the index of a
      stacked vertex it reaches. */
  ghost predicate LowlinksWitnessed(g: Graph, s: SearchState) {
    (forall i :: 0 <= i < |s.stack| ==> Ll(s, s.stack[i]) <= Ix(s, s.stack[i])) &&
    (forall i {:trigger LowWitness(g, s, s.stack[i])} :: 0 <= i < |s.stack| ==> LowWitness(g, s, s.stack[i]))
  }

  /** Some stacked vertex reachable from x has x's lowlink as its index. */
  ghost predicate LowWitness(g: Graph, s: SearchState, x: nat) {
    exists j :: 0 <= j < |s.stack| && Ix(s, s.stack[j]) == Ll(s, x) && Reach(g, x, s.stack[j])
  }

  /** Edge x -> w is accounted for: w is emitted, or stacked with an index
      no lower than x's lowlink. */
  ghost predicate EdgeSettled(s: SearchState, x: nat, w: nat) {
    w in Flatten<nat>(s.sccs) || (w in s.stack && Ll(s, x) <= Ix(s, w))
  }

  ghost predicate Settled(g: Graph, s: SearchState, x: nat) {
    forall w :: w in Succ(g, x) ==> EdgeSettled(s, x, w)
  }

  /** A finished vertex still on the stack is not a root and has all its
      edges accounted for. */
  ghost predicate DoneSettled(g: Graph, s: SearchState) {
    forall i :: 0 <= i < |s.stack| && s.stack[i] in s.done ==>
      Ll(s, s.stack[i]) < Ix(s, s.stack[i]) && Settled(g, s, s.stack[i])
  }

  ghost predicate Inv(g: Graph, s: SearchState) {
    Bookkeeping(g, s) && Partitioned(s) && StackOrdered(s) && LowlinksWitnessed(g, s) &&
    DoneSettled(g, s) && ClosedInOrder(g, s.sccs) && ComponentsConnected(g, s.sccs)
  }

  /** The initial state: nothing visited. */
  function Initial(n: nat): SearchState {
    SearchState(seq(n, _ => -1), seq(n, _ => -1), seq(n, _ => false), 0, [], [], {}, {})
  }

  lemma InitialInv(g: Graph)
    requires WellFormed(g)
    ensures Inv(g, Initial(|g|))
  {
  }

  lemma {:induction false} BoundedSetSize(s: set<nat>, n: nat)
    requires forall u :: u in s ==> u < n
    ensures |s| <= n
    decreases n
  {
    if n > 0 {
      var s' := s - {n - 1};
      BoundedSetSize(s', n - 1);
      assert s <= s' + {n - 1};
      assert |s' + {n - 1}| <= |s'| + 1;
    } else {
      assert s == {};
    }
  }

  /** Visiting v: it gets the next index as index and lowlink and is pushed. */
  function Push(s: SearchState, v: nat): SearchState
    requires v < |s.ix| && v < |s.ll| && v < |s.os|
  {
    s.(ix := s.ix[v := s.counter], ll := s.ll[v := s.counter], counter := s.counter + 1,
       stack := s.stack + [v], os := s.os[v := true], visited := s.visited + {v})
  }

  lemma PushInv(g: Graph, s: SearchState, v: nat)
    requires Inv(g, s) && v < |g| && v !in s.visited
    ensures Inv(g, Push(s, v))
  {
    var t := Push(s, v);
    assert v !in s.stack && v !in Flatten<nat>(s.sccs);
    assert forall u :: u in s.visited ==> u != v;
    assert t.sccs == s.sccs;
    PushBookkeeping(g, s, v);
    assert forall u :: u in s.stack ==> u in s.visited && u < |g| && 0 <= s.ix[u] < s.counter;
    PushOrdered(g, s, v);
    PushLowlinks(g, s, v);
    PushDoneSettled(g, s, v);
  }

  lemma PushBookkeeping(g: Graph, s: SearchState, v: nat)
    requires Inv(g, s) && v < |g| && v !in s.visited
    ensures Bookkeeping(g, Push(s, v)) && Partitioned(Push(s, v))
  {
    var t := Push(s, v);
    assert v !in s.stack && v !in Flatten<nat>(s.sccs);
    assert |t.visited| == |s.visited| + 1;
    forall u | 0 <= u < |g| && u in t.visited ensures 0 <= t.ix[u] < t.counter {
      if u != v {
        assert u in s.visited;
      }
    }
    assert Distinct(t.stack);
  }

  lemma PushOrdered(g: Graph, s: SearchState, v: nat)
    requires |s.ix| == |g| && |s.ll| == |g| && |s.os| == |g| && v < |g| && v !in s.visited
    requires forall u :: u in s.stack ==> u in s.visited && u < |g| && 0 <= s.ix[u] < s.counter
    requires StackOrdered(s)
    ensures StackOrdered(Push(s, v))
  {
    var t := Push(s, v);
    forall i, j | 0 <= i < j < |t.stack| ensures Ix(t, t.stack[i]) < Ix(t, t.stack[j]) {
      assert t.stack[i] == s.stack[i] && s.stack[i] in s.visited && s.stack[i] != v;
      if j < |s.stack| {
        assert t.stack[j] == s.stack[j] && s.stack[j] != v;
      }
    }
  }

  lemma PushLowlinks(g: Graph, s: SearchState, v: nat)
    requires |s.ix| == |g| && |s.ll| == |g| && |s.os| == |g| && v < |g| && v !in s.visited
    requires forall u :: u in s.stack ==> u in s.visited
    requires LowlinksWitnessed(g, s)
    ensures LowlinksWitnessed(g, Push(s, v))
  {
    var t := Push(s, v);
    forall i | 0 <= i < |t.stack|
      ensures Ll(t, t.stack[i]) <= Ix(t, t.stack[i]) && LowWitness(g, t, t.stack[i])
    {
      if i == |s.stack| {
        ReachRefl(g, v);
        assert Ix(t, t.stack[i]) == Ll(t, t.stack[i]) && Reach(g, t.stack[i], t.stack[i]);
      } else {
        PushKeepsWitness(g, s, v, s.stack[i]);
      }
    }
  }

  lemma PushKeepsWitness(g: Graph, s: SearchState, v: nat, x: nat)
    requires v < |s.ix| && v < |s.ll| && v < |s.os| && x != v
    requires forall u :: u in s.stack ==> u != v
    requires LowWitness(g, s, x)
    ensures LowWitness(g, Push(s, v), x) && Ll(Push(s, v), x) == Ll(s, x) && Ix(Push(s, v), x) == Ix(s, x)
  {
    var t := Push(s, v);
    var j :| 0 <= j < |s.stack| && Ix(s, s.stack[j]) == Ll(s, x) && Reach(g, x, s.stack[j]);
    var y := s.stack[j];
    assert y in s.stack;
    assert t.stack[j] == y && y != v;
    assert Ix(t, y) == Ix(s, y);
  }

  lemma PushDoneSettled(g: Graph, s: SearchState, v: nat)
    requires |s.ix| == |g| && |s.ll| == |g| && |s.os| == |g| && v < |g| && v !in s.visited
    requires forall u :: u in s.stack || u in Flatten<nat>(s.sccs) ==> u in s.visited
    requires s.done <= s.visited
    requires DoneSettled(g, s)
    ensures DoneSettled(g, Push(s, v))
  {
    var t := Push(s, v);
    forall i | 0 <= i < |t.stack| && t.stack[i] in t.done
      ensures Ll(t, t.stack[i]) < Ix(t, t.stack[i]) && Settled(g, t, t.stack[i])
    {
      var x := t.stack[i];
      assert x != v;
      assert x == s.stack[i];
      forall w | w in Succ(g, x) ensures EdgeSettled(t, x, w) {
        assert EdgeSettled(s, x, w);
        if w in s.stack {
          assert w != v;
        }
      }
    }
  }

  /** Lowering v's lowlink to val. */
  function SetLow(s: SearchState, v: nat, val: int): SearchState
    requires v < |s.ll|
  {
    s.(ll := s.ll[v := val])
  }

  /** Lowering the lowlink of a stacked, unfinished vertex to the index of a
      stacked vertex it reaches keeps the invariant. */
  lemma LowerInv(g: Graph, s: SearchState, v: nat, val: int, j: nat)
    requires Inv(g, s) && v in s.stack && v !in s.done
    requires val <= Ll(s, v) && j < |s.stack| && Ix(s, s.stack[j]) == val && Reach(g, v, s.stack[j])
    ensures v < |s.ll| && Inv(g, SetLow(s, v, val))
  {
    assert v in s.visited;
    var t := SetLow(s, v, val);
    assert t.ix == s.ix && t.stack == s.stack && t.sccs == s.sccs && t.os == s.os;
    LowerLowlinks(g, s, v, val, j);
    LowerDoneSettled(g, s, v, val);
  }

  lemma LowerLowlinks(g: Graph, s: SearchState, v: nat, val: int, j: nat)
    requires |s.ll| == |g| && v < |g| && LowlinksWitnessed(g, s)
    requires v in s.stack && val <= Ll(s, v)
    requires j < |s.stack| && Ix(s, s.stack[j]) == val && Reach(g, v, s.stack[j])
    ensures LowlinksWitnessed(g, SetLow(s, v, val))
  {
    var t := SetLow(s, v, val);
    assert t.stack == s.stack && t.ix == s.ix;
    forall i | 0 <= i < |t.stack| ensures Ll(t, t.stack[i]) <= Ix(t, t.stack[i]) {
      assert Ll(s, s.stack[i]) <= Ix(s, s.stack[i]);
    }
    forall i {:trigger LowWitness(g, t, t.stack[i])} | 0 <= i < |t.stack| ensures LowWitness(g, t, t.stack[i]) {
      var x := s.stack[i];
      if x == v {
        LowerNewWitness(g, s, v, val, j);
      } else {
        LowerKeepsWitness(g, s, v, val, x);
      }
    }
  }

  lemma LowerNewWitness(g: Graph, s: SearchState, v: nat, val: int, j: nat)
    requires v < |s.ll| && j < |s.stack| && Ix(s, s.stack[j]) == val && Reach(g, v, s.stack[j])
    ensures LowWitness(g, SetLow(s, v, val), v) && Ll(SetLow(s, v, val), v) == val
  {
    var t := SetLow(s, v, val);
    assert t.stack[j] == s.stack[j] && Ix(t, t.stack[j]) == Ix(s, s.stack[j]);
  }

  lemma LowerKeepsWitness(g: Graph, s: SearchState, v: nat, val: int, x: nat)
    requires v < |s.ll| && x != v && LowWitness(g, s, x)
    ensures LowWitness(g, SetLow(s, v, val), x) && Ll(SetLow(s, v, val), x) == Ll(s, x)
  {
    var t := SetLow(s, v, val);
    var j :| 0 <= j < |s.stack| && Ix(s, s.stack[j]) == Ll(s, x) && Reach(g, x, s.stack[j]);
    assert Ix(t, t.stack[j]) == Ll(t, x);
  }

  lemma LowerDoneSettled(g: Graph, s: SearchState, v: nat, val: int)
    requires |s.ll| == |g| && v < |g| && DoneSettled(g, s) && v !in s.done
    ensures DoneSettled(g, SetLow(s, v, val))
  {
    var t := SetLow(s, v, val);
    forall i | 0 <= i < |t.stack| && t.stack[i] in t.done
      ensures Ll(t, t.stack[i]) < Ix(t, t.stack[i]) && Settled(g, t, t.stack[i])
    {
      var x := t.stack[i];
      assert x != v && Ll(t, x) == Ll(s, x);
      forall w | w in Succ(g, x) ensures EdgeSettled(t, x, w) {
        assert EdgeSettled(s, x, w);
      }
    }
  }

  // ---------------------------------------------------------------------
  // Emitting a component: popping the stack down to its root

  /** The list reversed: popping a stack slice yields it top first. */
  function Reverse(s: seq<nat>): (r: seq<nat>)
    ensures |r| == |s|
    ensures forall i :: 0 <= i < |s| ==> r[i] == s[|s| - 1 - i]
  {
    if |s| == 0 then [] else Reverse(s[1..]) + [s[0]]
  }

  lemma ReverseFacts(s: seq<nat>)
    ensures forall x :: x in Reverse(s) <==> x in s
    ensures Distinct(s) ==> Distinct(Reverse(s))
    ensures |s| > 0 ==> Reverse(s)[|s| - 1] == s[0]
  {
    var r := Reverse(s);
    forall x ensures x in r <==> x in s {
      if x in r {
        var i :| 0 <= i < |r| && r[i] == x;
        assert s[|s| - 1 - i] == x;
      }
      if x in s {
        var i :| 0 <= i < |s| && s[i] == x;
        assert r[|s| - 1 - i] == x;
      }
    }
    if Distinct(s) {
      forall i, j | 0 <= i < j < |r| ensures r[i] != r[j] {
        assert r[i] == s[|s| - 1 - i] && r[j] == s[|s| - 1 - j];
      }
    }
  }

  /** on_stack with the flags of xs cleared. */
  function ClearFlags(os: seq<bool>, xs: seq<nat>): (r: seq<bool>)
    ensures |r| == |os|
    ensures forall u :: 0 <= u < |os| ==> (r[u] <==> os[u] && u !in xs)
  {
    seq(|os|, u requires 0 <= u < |os| => os[u] && u !in xs)
  }

  /** The stack from position p up becomes a new component, popped top first. */
  function Emit(s: SearchState, p: nat): SearchState
    requires p <= |s.stack|
  {
    s.(stack := s.stack[..p], sccs := s.sccs + [Reverse(s.stack[p..])], os := ClearFlags(s.os, s.stack[p..]))
  }

  lemma FlattenAppend(ss: seq<seq<nat>>, r: seq<nat>)
    ensures Flatten<nat>(ss + [r]) == Flatten<nat>(ss) + r
  {
    assert (ss + [r])[..|ss|] == ss;
  }

  lemma DistinctConcat(a: seq<nat>, b: seq<nat>)
    requires Distinct(a) && Distinct(b) && forall x :: x in a ==> x !in b
    ensures Distinct(a + b)
  {
    var c := a + b;
    forall i, j | 0 <= i < j < |c| ensures c[i] != c[j] {
      if j < |a| {
        assert c[i] == a[i] && c[j] == a[j];
      } else if i >= |a| {
        assert c[i] == b[i - |a|] && c[j] == b[j - |a|];
      } else {
        assert c[i] == a[i] && c[j] == b[j - |a|];
        assert c[i] in a && c[j] in b;
      }
    }
  }

  lemma DistinctSplit(s: seq<nat>, p: nat)
    requires Distinct(s) && p <= |s|
    ensures Distinct(s[..p]) && Distinct(s[p..])
    ensures forall x :: x in s[..p] ==> x !in s[p..]
    ensures forall x :: x in s <==> x in s[..p] || x in s[p..]
  {
    assert s == s[..p] + s[p..];
    forall x | x in s[..p] ensures x !in s[p..] {
      var i :| 0 <= i < p && s[i] == x;
      forall j | 0 <= j < |s| - p ensures s[p..][j] != x {
        assert s[p..][j] == s[p + j];
      }
    }
  }

  /** The root is ready to be emitted: an unfinished stacked vertex whose
      lowlink equals its index and whose edges are all accounted for. */
  ghost predicate RootReady(g: Graph, s: SearchState, p: nat) {
    p < |s.stack| && s.stack[p] !in s.done && Ll(s, s.stack[p]) == Ix(s, s.stack[p]) &&
    Settled(g, s, s.stack[p]) && AboveRoot(g, s, p)
  }

  /** Everything stacked above position p is finished, has a lowlink no lower
      than the vertex at p and is reachable from it. */
  ghost predicate AboveRoot(g: Graph, s: SearchState, p: nat)
    requires p < |s.stack|
  {
    forall i :: p < i < |s.stack| ==>
      s.stack[i] in s.done && Ll(s, s.stack[p]) <= Ll(s, s.stack[i]) && Reach(g, s.stack[p], s.stack[i])
  }

  /** On an ordered stack, a position whose index is no larger lies no higher. */
  lemma IndexOrder(s: SearchState, a: nat, b: nat)
    requires StackOrdered(s) && a < |s.stack| && b < |s.stack| && Ix(s, s.stack[a]) <= Ix(s, s.stack[b])
    ensures a <= b
  {
  }

  lemma EmitInv(g: Graph, s: SearchState, p: nat)
    requires Inv(g, s) && RootReady(g, s, p)
    ensures Inv(g, Emit(s, p))
  {
    EmitBookkeeping(g, s, p);
    EmitLowlinks(g, s, p);
    EmitDoneSettled(g, s, p);
    EmitClosed(g, s, p);
    EmitConnected(g, s, p);
  }

  lemma EmitBookkeeping(g: Graph, s: SearchState, p: nat)
    requires Inv(g, s) && p < |s.stack|
    ensures Bookkeeping(g, Emit(s, p)) && Partitioned(Emit(s, p)) && StackOrdered(Emit(s, p))
  {
    var t := Emit(s, p);
    var top := s.stack[p..];
    FlattenAppend(s.sccs, Reverse(top));
    ReverseFacts(top);
    DistinctSplit(s.stack, p);
    DistinctConcat(Flatten<nat>(s.sccs), Reverse(top));
    assert Flatten<nat>(t.sccs) == Flatten<nat>(s.sccs) + Reverse(top);
    forall u | 0 <= u < |g| ensures t.os[u] <==> u in t.stack {
    }
    forall c | 0 <= c < |t.sccs| ensures |t.sccs[c]| > 0 {
      if c < |s.sccs| {
        assert t.sccs[c] == s.sccs[c];
      }
    }
  }

  lemma EmitLowlinks(g: Graph, s: SearchState, p: nat)
    requires StackOrdered(s) && LowlinksWitnessed(g, s) && p < |s.stack|
    ensures LowlinksWitnessed(g, Emit(s, p))
  {
    var t := Emit(s, p);
    forall i | 0 <= i < |t.stack| ensures Ll(t, t.stack[i]) <= Ix(t, t.stack[i]) {
      assert t.stack[i] == s.stack[i];
    }
    forall i {:trigger LowWitness(g, t, t.stack[i])} | 0 <= i < |t.stack| ensures LowWitness(g, t, t.stack[i]) {
      EmitKeepsWitness(g, s, p, i);
    }
  }

  lemma EmitKeepsWitness(g: Graph, s: SearchState, p: nat, i: nat)
    requires StackOrdered(s) && i < p < |s.stack|
    requires Ll(s, s.stack[i]) <= Ix(s, s.stack[i]) && LowWitness(g, s, s.stack[i])
    ensures LowWitness(g, Emit(s, p), s.stack[i])
  {
    var t := Emit(s, p);
    var x := s.stack[i];
    var j :| 0 <= j < |s.stack| && Ix(s, s.stack[j]) == Ll(s, x) && Reach(g, x, s.stack[j]);
    IndexOrder(s, j, i);
    assert j < p;
    assert t.stack[j] == s.stack[j];
  }

  lemma EmitDoneSettled(g: Graph, s: SearchState, p: nat)
    requires Inv(g, s) && p < |s.stack|
    ensures DoneSettled(g, Emit(s, p))
  {
    var t := Emit(s, p);
    var top := s.stack[p..];
    FlattenAppend(s.sccs, Reverse(top));
    ReverseFacts(top);
    DistinctSplit(s.stack, p);
    forall i | 0 <= i < |t.stack| && t.stack[i] in t.done
      ensures Ll(t, t.stack[i]) < Ix(t, t.stack[i]) && Settled(g, t, t.stack[i])
    {
      var x := t.stack[i];
      assert x == s.stack[i];
      forall w | w in Succ(g, x) ensures EdgeSettled(t, x, w) {
        assert EdgeSettled(s, x, w);
      }
    }
  }

  /** The vertex at stack position i >= p lies on the new component, and
      every edge out of it stays inside it or goes to an earlier one. */
  lemma EmitClosed(g: Graph, s: SearchState, p: nat)
    requires Inv(g, s) && RootReady(g, s, p)
    ensures ClosedInOrder(g, Emit(s, p).sccs)
  {
    var t := Emit(s, p);
    var top := s.stack[p..];
    ReverseFacts(top);
    var n := |s.sccs|;
    forall c, x, w | 0 <= c < |t.sccs| && x in t.sccs[c] && w in Succ(g, x)
      ensures exists c' :: 0 <= c' <= c && w in t.sccs[c']
    {
      if c < n {
        assert t.sccs[c] == s.sccs[c];
        var c' :| 0 <= c' <= c && w in s.sccs[c'];
        assert t.sccs[c'] == s.sccs[c'];
      } else {
        assert x in top;
        var i :| p <= i < |s.stack| && s.stack[i] == x;
        EmitEdge(g, s, p, i, w);
        if w in Flatten<nat>(s.sccs) {
          FlattenMember(s.sccs, w);
          var c' :| 0 <= c' < n && w in s.sccs[c'];
          assert t.sccs[c'] == s.sccs[c'];
        } else {
          assert t.sccs[n] == Reverse(top);
        }
      }
    }
  }

  /** An edge out of the vertex at position i >= p leads to an emitted
      vertex or to the stack at or above p. */
  lemma EmitEdge(g: Graph, s: SearchState, p: nat, i: nat, w: nat)
    requires Inv(g, s) && RootReady(g, s, p) && p <= i < |s.stack| && w in Succ(g, s.stack[i])
    ensures w in Flatten<nat>(s.sccs) || w in s.stack[p..]
  {
    var x := s.stack[i];
    var v := s.stack[p];
    if i > p {
      assert x in s.done;
    }
    assert Settled(g, s, x);
    assert EdgeSettled(s, x, w);
    if w !in Flatten<nat>(s.sccs) {
      var k :| 0 <= k < |s.stack| && s.stack[k] == w;
      assert Ix(s, v) <= Ll(s, x) <= Ix(s, w);
      IndexOrder(s, p, k);
      assert s.stack[p..][k - p] == w;
    }
  }

  lemma EmitConnected(g: Graph, s: SearchState, p: nat)
    requires Inv(g, s) && RootReady(g, s, p)
    ensures ComponentsConnected(g, Emit(s, p).sccs)
  {
    TopConnected(g, s, p);
    AppendConnected(g, s.sccs, s.stack[p..]);
  }

  /** The root and every vertex stacked above it reach each other. */
  lemma TopConnected(g: Graph, s: SearchState, p: nat)
    requires Inv(g, s) && RootReady(g, s, p)
    ensures forall x :: x in s.stack[p..] ==> Reach(g, x, s.stack[p]) && Reach(g, s.stack[p], x)
  {
    forall x | x in s.stack[p..] ensures Reach(g, x, s.stack[p]) && Reach(g, s.stack[p], x) {
      var i :| p <= i < |s.stack| && s.stack[i] == x;
      if i == p {
        ReachRefl(g, x);
      }
      ReachRootByIndex(g, s, p, i);
    }
  }

  /** Adding, reversed, a block whose first vertex and every other vertex
      reach each other keeps every component strongly connected. */
  lemma AppendConnected(g: Graph, sccs: seq<seq<nat>>, top: seq<nat>)
    requires ComponentsConnected(g, sccs) && |top| > 0
    requires forall x :: x in top ==> Reach(g, x, top[0]) && Reach(g, top[0], x)
    ensures ComponentsConnected(g, sccs + [Reverse(top)])
  {
    var t := sccs + [Reverse(top)];
    var r := Reverse(top);
    ReverseFacts(top);
    forall c, x | 0 <= c < |t| && |t[c]| > 0 && x in t[c]
      ensures Reach(g, t[c][|t[c]| - 1], x) && Reach(g, x, t[c][|t[c]| - 1])
    {
      if c < |sccs| {
        assert t[c] == sccs[c];
      } else {
        assert t[c] == r && r[|r| - 1] == top[0];
      }
    }
  }

  /** Every vertex stacked at or above the root reaches the root: follow
      lowlink witnesses, whose indices strictly decrease and stay at or
      above the root's. */
  lemma {:induction false} ReachRootByIndex(g: Graph, s: SearchState, p: nat, i: nat)
    requires Inv(g, s) && RootReady(g, s, p) && p <= i < |s.stack|
    ensures Reach(g, s.stack[i], s.stack[p])
    decreases Ix(s, s.stack[i])
  {
    var x := s.stack[i];
    var v := s.stack[p];
    if i == p {
      ReachRefl(g, v);
    } else {
      assert x in s.done && Ll(s, v) <= Ll(s, x);
      assert Ll(s, x) < Ix(s, x);
      assert LowWitness(g, s, x);
      var j :| 0 <= j < |s.stack| && Ix(s, s.stack[j]) == Ll(s, x) && Reach(g, x, s.stack[j]);
      IndexOrder(s, p, j);
      assert x in s.visited;
      ReachRootByIndex(g, s, p, j);
      ReachTrans(g, x, s.stack[j], v);
    }
  }

  // ---------------------------------------------------------------------
  // Finishing a vertex, and what one visit guarantees

  function Finish(s: SearchState, v: nat): SearchState {
    s.(done := s.done + {v})
  }

  /** A visited vertex may be marked finished once it has been emitted, or
      once it is known not to be a root and all its edges are accounted for. */
  lemma FinishInv(g: Graph, s: SearchState, v: nat)
    requires Inv(g, s) && v in s.visited
    requires v in s.stack ==> Ll(s, v) < Ix(s, v) && Settled(g, s, v)
    ensures Inv(g, Finish(s, v))
  {
    FinishWitnessed(g, s, v);
    FinishDoneSettled(g, s, v);
  }

  /** Marking a vertex finished leaves every lowlink witnessed. */
  lemma FinishWitnessed(g: Graph, s: SearchState, v: nat)
    requires LowlinksWitnessed(g, s)
    ensures LowlinksWitnessed(g, Finish(s, v))
  {
    var t := Finish(s, v);
    assert t.stack == s.stack && t.ix == s.ix && t.ll == s.ll;
    forall i {:trigger LowWitness(g, t, t.stack[i])} | 0 <= i < |t.stack| ensures LowWitness(g, t, t.stack[i]) {
      assert LowWitness(g, s, s.stack[i]);
      var j :| 0 <= j < |s.stack| && Ix(s, s.stack[j]) == Ll(s, s.stack[i]) && Reach(g, s.stack[i], s.stack[j]);
      assert Ix(t, t.stack[j]) == Ll(t, t.stack[i]);
    }
  }

  /** Marking a settled non-root finished keeps every finished stacked
      vertex settled. */
  lemma FinishDoneSettled(g: Graph, s: SearchState, v: nat)
    requires DoneSettled(g, s)
    requires v in s.stack ==> Ll(s, v) < Ix(s, v) && Settled(g, s, v)
    ensures DoneSettled(g, Finish(s, v))
  {
    var t := Finish(s, v);
    assert t.stack == s.stack && t.ix == s.ix && t.ll == s.ll && t.sccs == s.sccs;
    forall i | 0 <= i < |t.stack| && t.stack[i] in t.done
      ensures Ll(t, t.stack[i]) < Ix(t, t.stack[i]) && Settled(g, t, t.stack[i])
    {
      var x := t.stack[i];
      forall w | w in Succ(g, x) ensures EdgeSettled(t, x, w) {
        assert EdgeSettled(s, x, w);
      }
    }
  }

  /** The bottom of the stack is a root: its lowlink equals its index. */
  lemma BottomIsRoot(g: Graph, s: SearchState)
    requires StackOrdered(s) && LowlinksWitnessed(g, s)
    ensures |s.stack| > 0 ==> Ll(s, s.stack[0]) == Ix(s, s.stack[0])
  {
    if |s.stack| > 0 {
      var x := s.stack[0];
      assert LowWitness(g, s, x);
      var j :| 0 <= j < |s.stack| && Ix(s, s.stack[j]) == Ll(s, x) && Reach(g, x, s.stack[j]);
      IndexOrder(s, j, 0);
    }
  }

  /** State a grows from state b: the old stack and component list are
      prefixes, nothing is forgotten, and the indices and lowlinks of the
      vertices b had visited are untouched. */
  ghost predicate Grows(b: SearchState, a: SearchState) {
    |b.stack| <= |a.stack| && a.stack[..|b.stack|] == b.stack &&
    |b.sccs| <= |a.sccs| && a.sccs[..|b.sccs|] == b.sccs &&
    b.visited <= a.visited && b.done <= a.done &&
    (forall u :: u in a.done ==> u in b.done || u !in b.visited) &&
    (forall u :: u in b.visited ==> Ix(a, u) == Ix(b, u) && Ll(a, u) == Ll(b, u))
  }

  /** What visiting w from state b leaves in state a: w got the next index
      and is finished; everything newly left on the stack is finished, has a
      lowlink no lower than w's and is reachable from w; and either w was a
      root and its component has been emitted, or w stays on the stack with a
      lowlink below its index. */
  ghost predicate VisitPost(g: Graph, b: SearchState, a: SearchState, w: nat) {
    Inv(g, a) && Grows(b, a) && a.counter >= b.counter + 1 &&
    w in a.visited && w in a.done && Ix(a, w) == b.counter &&
    (forall i :: |b.stack| <= i < |a.stack| ==>
       a.stack[i] in a.done && Ll(a, w) <= Ll(a, a.stack[i]) && Reach(g, w, a.stack[i])) &&
    ((Ll(a, w) == Ix(a, w) && a.stack == b.stack) ||
     (Ll(a, w) < Ix(a, w) && |a.stack| > |b.stack| && a.stack[|b.stack|] == w))
  }

  /** The first k edges out of v are accounted for. */
  ghost predicate SettledUpTo(g: Graph, s: SearchState, v: nat, k: nat) {
    forall k' :: 0 <= k' < k && k' < |Succ(g, v)| ==> EdgeSettled(s, v, Succ(g, v)[k'])
  }

  /** The state while the edges out of v are scanned, relative to the state
      s0 before v was visited. */
  ghost predicate ScanInv(g: Graph, s0: SearchState, s: SearchState, v: nat, k: nat) {
    Inv(g, s) && v < |g| && v !in s0.visited && Grows(s0, s) &&
    |s.stack| > |s0.stack| && s.stack[|s0.stack|] == v &&
    v in s.visited && v !in s.done && Ix(s, v) == s0.counter && s.counter >= s0.counter + 1 &&
    AboveRoot(g, s, |s0.stack|) && k <= |g[v]| && SettledUpTo(g, s, v, k)
  }

  /** Growing keeps emitted vertices emitted and stacked ones stacked. */
  lemma GrowsKeeps(b: SearchState, a: SearchState, u: nat)
    requires Grows(b, a)
    ensures u in Flatten<nat>(b.sccs) ==> u in Flatten<nat>(a.sccs)
    ensures u in b.stack ==> u in a.stack
  {
    if u in Flatten<nat>(b.sccs) {
      FlattenMember(b.sccs, u);
      var c :| 0 <= c < |b.sccs| && u in b.sccs[c];
      assert a.sccs[c] == b.sccs[c];
      FlattenMember(a.sccs, u);
    }
    if u in b.stack {
      var i :| 0 <= i < |b.stack| && b.stack[i] == u;
      assert a.stack[i] == u;
    }
  }

  lemma GrowsTrans(s0: SearchState, b: SearchState, a: SearchState)
    requires Grows(s0, b) && Grows(b, a)
    ensures Grows(s0, a)
  {
    assert a.stack[..|s0.stack|] == a.stack[..|b.stack|][..|s0.stack|];
    assert a.sccs[..|s0.sccs|] == a.sccs[..|b.sccs|][..|s0.sccs|];
  }

  /** Visiting v: the scan of its edges starts. */
  lemma ScanStart(g: Graph, s0: SearchState, v: nat)
    requires Inv(g, s0) && v < |g| && v !in s0.visited
    ensures ScanInv(g, s0, Push(s0, v), v, 0)
  {
    var t := Push(s0, v);
    PushInv(g, s0, v);
    GrowsPush(s0, v);
    assert t.stack[|s0.stack|] == v && Ix(t, v) == s0.counter;
  }

  lemma GrowsPush(s0: SearchState, v: nat)
    requires v < |s0.ix| && v < |s0.ll| && v < |s0.os| && v !in s0.visited
    ensures Grows(s0, Push(s0, v))
  {
    var t := Push(s0, v);
    assert t.stack[..|s0.stack|] == s0.stack;
    assert t.sccs[..|s0.sccs|] == s0.sccs;
    assert forall u :: u in s0.visited ==> u != v;
  }

  /** Edge v -> w to an emitted vertex: nothing to do. */
  lemma ScanEmitted(g: Graph, s0: SearchState, s: SearchState, v: nat, k: nat)
    requires ScanInv(g, s0, s, v, k) && k < |g[v]| && g[v][k] in s.visited && !s.os[g[v][k]]
    ensures ScanInv(g, s0, s, v, k + 1)
  {
    var w := g[v][k];
    assert w in Flatten<nat>(s.sccs);
    assert EdgeSettled(s, v, w);
  }

  /** Edge v -> w to a stacked vertex: v's lowlink drops to w's index. */
  lemma ScanStacked(g: Graph, s0: SearchState, s: SearchState, v: nat, k: nat)
    requires ScanInv(g, s0, s, v, k) && k < |g[v]| && g[v][k] in s.visited && s.os[g[v][k]]
    ensures v < |s.ll| && g[v][k] < |s.ix| && Ll(s, v) == s.ll[v] && Ix(s, g[v][k]) == s.ix[g[v][k]]
    ensures ScanInv(g, s0, SetLow(s, v, MinInt(Ll(s, v), Ix(s, g[v][k]))), v, k + 1)
  {
    var w := g[v][k];
    var m := MinInt(Ll(s, v), Ix(s, w));
    var t := SetLow(s, v, m);
    assert w in s.stack;
    var j :| 0 <= j < |s.stack| && s.stack[j] == w;
    ReachEdge(g, v, w);
    assert v in s.stack;
    LowerOrKeep(g, s, v, m, j);
    ScanLowered(g, s0, s, v, k, m);
    GrowsLower(s0, s, v, m);
    assert EdgeSettled(t, v, w);
  }

  /** min(lowlink, val) keeps the invariant when val is the index of a
      stacked vertex v reaches. */
  lemma LowerOrKeep(g: Graph, s: SearchState, v: nat, m: int, j: nat)
    requires Inv(g, s) && v in s.stack && v !in s.done && j < |s.stack| && Reach(g, v, s.stack[j])
    requires m == MinInt(Ll(s, v), Ix(s, s.stack[j]))
    ensures v < |s.ll| && Inv(g, SetLow(s, v, m))
  {
    assert v in s.visited;
    if Ix(s, s.stack[j]) < Ll(s, v) {
      LowerInv(g, s, v, m, j);
    } else {
      assert SetLow(s, v, m) == s;
    }
  }

  /** Lowering v's lowlink keeps the scan invariant for the edges seen so far. */
  lemma ScanLowered(g: Graph, s0: SearchState, s: SearchState, v: nat, k: nat, m: int)
    requires ScanInv(g, s0, s, v, k) && m <= Ll(s, v) && Inv(g, SetLow(s, v, m))
    ensures var t := SetLow(s, v, m);
      Grows(s0, t) && AboveRoot(g, t, |s0.stack|) && SettledUpTo(g, t, v, k) &&
      Ix(t, v) == s0.counter && Ll(t, v) == m
  {
    var t := SetLow(s, v, m);
    var p := |s0.stack|;
    assert forall u :: u in s0.visited ==> u != v;
    forall i | p < i < |t.stack|
      ensures t.stack[i] in t.done && Ll(t, t.stack[p]) <= Ll(t, t.stack[i]) && Reach(g, t.stack[p], t.stack[i])
    {
      assert s.stack[i] in s.done;
      assert s.stack[i] != v;
    }
    forall k' | 0 <= k' < k && k' < |Succ(g, v)| ensures EdgeSettled(t, v, Succ(g, v)[k']) {
      assert EdgeSettled(s, v, Succ(g, v)[k']);
    }
  }

  /** Edge v -> w to an unvisited vertex: after visiting w, v's lowlink drops
      to w's. */
  lemma ScanChild(g: Graph, s0: SearchState, b: SearchState, a: SearchState, v: nat, k: nat)
    requires ScanInv(g, s0, b, v, k) && k < |g[v]| && g[v][k] !in b.visited
    requires VisitPost(g, b, a, g[v][k])
    ensures v < |a.ll| && g[v][k] < |a.ll| && Ll(a, v) == a.ll[v] && Ll(a, g[v][k]) == a.ll[g[v][k]]
    ensures ScanInv(g, s0, SetLow(a, v, MinInt(Ll(a, v), Ll(a, g[v][k]))), v, k + 1)
  {
    var m := MinInt(Ll(a, v), Ll(a, g[v][k]));
    ChildLowerInv(g, s0, b, a, v, k);
    ChildAbove(g, s0, b, a, v, k, m);
    ChildSettled(g, s0, b, a, v, k, m);
    GrowsLower(s0, a, v, m);
  }

  /** After the child's visit, lowering v to the child's lowlink keeps the
      invariant, and v is still where the scan left it. */
  lemma ChildLowerInv(g: Graph, s0: SearchState, b: SearchState, a: SearchState, v: nat, k: nat)
    requires ScanInv(g, s0, b, v, k) && k < |g[v]| && g[v][k] !in b.visited
    requires VisitPost(g, b, a, g[v][k])
    ensures v < |a.ll| && g[v][k] < |a.ll| && Ll(a, v) == a.ll[v] && Ll(a, g[v][k]) == a.ll[g[v][k]]
    ensures Grows(s0, a) && |a.stack| > |s0.stack| && a.stack[|s0.stack|] == v
    ensures v in a.visited && v !in a.done && Ix(a, v) == s0.counter && a.counter >= s0.counter + 1
    ensures Inv(g, SetLow(a, v, MinInt(Ll(a, v), Ll(a, g[v][k]))))
  {
    ChildFrame(g, s0, b, a, v, k);
    LowerToChild(g, a, v, g[v][k]);
  }

  /** What the scan state after the child's visit keeps of the state before. */
  lemma ChildFrame(g: Graph, s0: SearchState, b: SearchState, a: SearchState, v: nat, k: nat)
    requires ScanInv(g, s0, b, v, k) && k < |g[v]| && g[v][k] !in b.visited
    requires VisitPost(g, b, a, g[v][k])
    ensures Inv(g, a) && Grows(s0, a) && v < |g| && g[v][k] in Succ(g, v)
    ensures |a.stack| > |s0.stack| && a.stack[|s0.stack|] == v && v in a.stack
    ensures v in a.visited && v !in a.done && Ix(a, v) == s0.counter && a.counter >= s0.counter + 1
    ensures v < |a.ll| && g[v][k] < |a.ll| && Ll(a, v) == a.ll[v] && Ll(a, g[v][k]) == a.ll[g[v][k]]
    ensures g[v][k] in a.stack || Ll(a, v) <= Ll(a, g[v][k])
  {
    var p := |s0.stack|;
    assert v in b.visited && v !in a.done;
    assert a.stack[p] == b.stack[p] == v by {
      assert a.stack[..|b.stack|][p] == a.stack[p];
    }
    GrowsTrans(s0, b, a);
    assert Ll(a, v) <= Ix(a, v);
    if |a.stack| > |b.stack| {
      assert a.stack[|b.stack|] == g[v][k];
    }
  }

  /** Lowering a stacked, unfinished v to the lowlink of a successor w keeps
      the invariant when w is stacked (w's witness is reachable from v) or
      when it changes nothing. */
  lemma LowerToChild(g: Graph, a: SearchState, v: nat, w: nat)
    requires Inv(g, a) && v in a.stack && v !in a.done && w in Succ(g, v)
    requires w in a.stack || Ll(a, v) <= Ll(a, w)
    ensures v < |a.ll| && Inv(g, SetLow(a, v, MinInt(Ll(a, v), Ll(a, w))))
  {
    var m := MinInt(Ll(a, v), Ll(a, w));
    if w in a.stack {
      var i :| 0 <= i < |a.stack| && a.stack[i] == w;
      assert LowWitness(g, a, a.stack[i]);
      var j :| 0 <= j < |a.stack| && Ix(a, a.stack[j]) == Ll(a, w) && Reach(g, w, a.stack[j]);
      ReachStep(g, v, w, a.stack[j]);
      LowerOrKeep(g, a, v, m, j);
    } else {
      assert v in a.visited;
      assert SetLow(a, v, m) == a;
    }
  }

  lemma GrowsLower(s0: SearchState, a: SearchState, v: nat, m: int)
    requires Grows(s0, a) && v !in s0.visited && v < |a.ll|
    ensures Grows(s0, SetLow(a, v, m))
  {
    assert forall u :: u in s0.visited ==> u != v;
  }

  lemma ChildAbove(g: Graph, s0: SearchState, b: SearchState, a: SearchState, v: nat, k: nat, m: int)
    requires ScanInv(g, s0, b, v, k) && k < |g[v]| && g[v][k] !in b.visited
    requires VisitPost(g, b, a, g[v][k])
    requires m <= Ll(a, v) && (|a.stack| > |b.stack| ==> m <= Ll(a, g[v][k]))
    ensures v < |a.ll| && |a.stack| > |s0.stack| && AboveRoot(g, SetLow(a, v, m), |s0.stack|)
  {
    var p := |s0.stack|;
    assert v in b.visited && b.done <= b.visited && Distinct(a.stack);
    assert a.stack[p] == v by {
      assert a.stack[..|b.stack|][p] == a.stack[p];
    }
    AboveAfterChild(g, b, a, v, g[v][k], p, m);
  }

  /** The vertices above the root position p after a child's visit: the old
      ones were above it already, the new ones are reachable through the
      edge to the child; lowering v to m keeps their lowlinks above v's. */
  lemma AboveAfterChild(g: Graph, b: SearchState, a: SearchState, v: nat, w: nat, p: nat, m: int)
    requires p < |b.stack| && b.stack[p] == v && AboveRoot(g, b, p) && Grows(b, a)
    requires b.done <= b.visited && v in b.visited && Distinct(a.stack) && w in Succ(g, v) && v < |a.ll|
    requires forall i :: |b.stack| <= i < |a.stack| ==>
               a.stack[i] in a.done && Ll(a, w) <= Ll(a, a.stack[i]) && Reach(g, w, a.stack[i])
    requires m <= Ll(a, v) && (|a.stack| > |b.stack| ==> m <= Ll(a, w))
    ensures AboveRoot(g, SetLow(a, v, m), p)
  {
    var t := SetLow(a, v, m);
    assert a.stack[p] == v by {
      assert a.stack[..|b.stack|][p] == a.stack[p];
    }
    forall i | p < i < |t.stack|
      ensures t.stack[i] in t.done && Ll(t, t.stack[p]) <= Ll(t, t.stack[i]) && Reach(g, t.stack[p], t.stack[i])
    {
      var x := a.stack[i];
      assert x != v;
      if i < |b.stack| {
        assert a.stack[..|b.stack|][i] == x;
        assert x == b.stack[i] && x in b.done && x in b.visited;
      } else {
        ReachEdge(g, v, w);
        ReachTrans(g, v, w, x);
      }
    }
  }

  lemma ChildSettled(g: Graph, s0: SearchState, b: SearchState, a: SearchState, v: nat, k: nat, m: int)
    requires ScanInv(g, s0, b, v, k) && k < |g[v]| && g[v][k] !in b.visited
    requires VisitPost(g, b, a, g[v][k])
    requires m <= Ll(a, v) && m <= Ix(a, v)
    ensures v < |a.ll| && SettledUpTo(g, SetLow(a, v, m), v, k + 1)
  {
    var w := g[v][k];
    assert v in b.visited && w in a.visited;
    if |a.stack| > |b.stack| {
      assert a.stack[|b.stack|] == w;
      assert Ix(a, w) == b.counter > Ix(a, v);
    } else {
      assert w !in b.stack;
    }
    SettledAfterChild(g, b, a, v, k, m);
  }

  /** Edges already accounted for stay so while the stack grows and v's
      lowlink only drops; the edge to the child is accounted for once the
      child is emitted or stacked above v. */
  lemma SettledAfterChild(g: Graph, b: SearchState, a: SearchState, v: nat, k: nat, m: int)
    requires SettledUpTo(g, b, v, k) && k < |Succ(g, v)| && Grows(b, a) && v in b.visited && v < |a.ll|
    requires forall u :: u in b.stack ==> u in b.visited
    requires Succ(g, v)[k] in Flatten<nat>(a.sccs) || (Succ(g, v)[k] in a.stack && Ix(a, v) < Ix(a, Succ(g, v)[k]))
    requires m <= Ll(a, v) && m <= Ix(a, v)
    ensures SettledUpTo(g, SetLow(a, v, m), v, k + 1)
  {
    var t := SetLow(a, v, m);
    forall k' | 0 <= k' < k + 1 && k' < |Succ(g, v)| ensures EdgeSettled(t, v, Succ(g, v)[k']) {
      var u := Succ(g, v)[k'];
      if k' < k {
        assert EdgeSettled(b, v, u);
        GrowsKeeps(b, a, u);
      }
    }
  }

  lemma ScanSettled(g: Graph, s: SearchState, v: nat)
    requires SettledUpTo(g, s, v, |Succ(g, v)|)
    ensures Settled(g, s, v)
  {
    forall w | w in Succ(g, v) ensures EdgeSettled(s, v, w) {
      var k :| 0 <= k < |Succ(g, v)| && Succ(g, v)[k] == w;
    }
  }

  /** The scan is over and v is a root: its component is emitted and v is
      finished. */
  lemma ScanEmit(g: Graph, s0: SearchState, s: SearchState, v: nat)
    requires ScanInv(g, s0, s, v, |Succ(g, v)|) && Ll(s, v) == Ix(s, v)
    ensures VisitPost(g, s0, Finish(Emit(s, |s0.stack|), v), v)
  {
    var p := |s0.stack|;
    ScanSettled(g, s, v);
    EmitInv(g, s, p);
    var e := Emit(s, p);
    DistinctSplit(s.stack, p);
    assert v in s.stack[p..];
    GrowsEmit(s0, s, v);
    assert s.stack[..p] == s0.stack;
    EmittedPost(g, s0, e, v);
  }

  /** Once v's component is emitted and the stack is back to where it was
      before v's visit, finishing v completes the visit. */
  lemma EmittedPost(g: Graph, s0: SearchState, e: SearchState, v: nat)
    requires Inv(g, e) && v in e.visited && v !in e.stack && e.stack == s0.stack
    requires Grows(s0, Finish(e, v)) && e.counter >= s0.counter + 1
    requires Ix(e, v) == s0.counter && Ll(e, v) == Ix(e, v)
    ensures VisitPost(g, s0, Finish(e, v), v)
  {
    FinishInv(g, e, v);
  }

  lemma GrowsEmit(s0: SearchState, s: SearchState, v: nat)
    requires Grows(s0, s) && v !in s0.visited && |s0.stack| < |s.stack|
    ensures Grows(s0, Finish(Emit(s, |s0.stack|), v))
  {
    var p := |s0.stack|;
    var f := Finish(Emit(s, p), v);
    assert f.stack == s0.stack;
    assert f.sccs[..|s0.sccs|] == s0.sccs by {
      assert f.sccs[..|s.sccs|] == s.sccs;
      assert f.sccs[..|s0.sccs|] == f.sccs[..|s.sccs|][..|s0.sccs|];
    }
    assert f.ix == s.ix && f.ll == s.ll && f.visited == s.visited && f.done == s.done + {v};
    assert forall u :: u in s0.visited ==> Ix(f, u) == Ix(s0, u) && Ll(f, u) == Ll(s0, u);
    assert forall u :: u in f.done ==> u in s0.done || u !in s0.visited;
  }

  /** The scan is over and v is not a root: v is finished and stays stacked. */
  lemma ScanKeep(g: Graph, s0: SearchState, s: SearchState, v: nat)
    requires ScanInv(g, s0, s, v, |Succ(g, v)|) && Ll(s, v) != Ix(s, v)
    ensures VisitPost(g, s0, Finish(s, v), v)
  {
    ScanSettled(g, s, v);
    assert v in s.stack;
    FinishInv(g, s, v);
    GrowsFinish(s0, s, v);
    KeepAbove(g, s0, s, v);
  }

  lemma GrowsFinish(s0: SearchState, s: SearchState, v: nat)
    requires Grows(s0, s) && v !in s0.visited
    ensures Grows(s0, Finish(s, v))
  {
    assert forall u :: u in s0.visited ==> u != v;
  }

  /** v, kept on the stack, and everything above it are finished, reachable
      from v and have lowlinks no lower than v's. */
  lemma KeepAbove(g: Graph, s0: SearchState, s: SearchState, v: nat)
    requires |s.stack| > |s0.stack| && s.stack[|s0.stack|] == v && AboveRoot(g, s, |s0.stack|)
    ensures forall i :: |s0.stack| <= i < |Finish(s, v).stack| ==>
              Finish(s, v).stack[i] in Finish(s, v).done && Ll(Finish(s, v), v) <= Ll(Finish(s, v), Finish(s, v).stack[i]) &&
              Reach(g, v, Finish(s, v).stack[i])
  {
    var p := |s0.stack|;
    var f := Finish(s, v);
    forall i | p <= i < |f.stack|
      ensures f.stack[i] in f.done && Ll(f, v) <= Ll(f, f.stack[i]) && Reach(g, v, f.stack[i])
    {
      if i == p {
        ReachRefl(g, v);
      }
    }
  }

  lemma ClearFlagsStep(os: seq<bool>, xs: seq<nat>, w: nat)
    requires w < |os|
    ensures ClearFlags(os, [w] + xs) == ClearFlags(os, xs)[w := false]
  {
    var l := ClearFlags(os, [w] + xs);
    var r := ClearFlags(os, xs)[w := false];
    forall u | 0 <= u < |os| ensures l[u] == r[u] {
      assert u in [w] + xs <==> u == w || u in xs;
    }
  }

  // ---------------------------------------------------------------------
  // The search as an object: strongconnect updates the shared counter,
  // stack, index tables and result list in place

  /** A visit started on an empty stack ends on an empty stack: the visited
      vertex is at the bottom, so it cannot stay there unemitted. */
  lemma RootVisitDone(g: Graph, b: SearchState, a: SearchState, v: nat)
    requires Inv(g, b) && b.stack == [] && VisitPost(g, b, a, v)
    ensures Inv(g, a) && a.stack == [] && b.visited <= a.visited && v in a.visited
  {
    BottomIsRoot(g, a);
  }

  /** Once every vertex is visited and the stack is empty, the emitted
      components partition the vertices. */
  lemma AllVisited(g: Graph, s: SearchState)
    requires Inv(g, s) && s.stack == [] && forall u :: 0 <= u < |g| ==> u in s.visited
    ensures IsPartition(s.sccs, |g|) && ClosedInOrder(g, s.sccs) && ComponentsConnected(g, s.sccs)
  {
    assert forall u :: u in Flatten<nat>(s.sccs) <==> 0 <= u < |g|;
    FlattenPartition(s.sccs, |g|);
  }

  class Tarjan {
    const graph: Graph
    var indices: seq<int>
    var lowlinks: seq<int>
    var onStack: seq<bool>
    var index: int
    var stack: seq<nat>
    var sccs: seq<seq<nat>>
    ghost var visited: set<nat>
    ghost var done: set<nat>

    ghost function State(): SearchState
      reads this
    {
      SearchState(indices, lowlinks, onStack, index, stack, sccs, visited, done)
    }

    /** n = len(graph); index = 0; empty stack; indices and lowlinks all -1;
        on_stack all False; no components. */
    constructor (g: Graph)
      requires WellFormed(g)
      ensures graph == g && State() == Initial(|g|) && Inv(g, State())
    {
      graph := g;
      indices := seq(|g|, _ => -1);
      lowlinks := seq(|g|, _ => -1);
      onStack := seq(|g|, _ => false);
      index := 0;
      stack := [];
      sccs := [];
      visited := {};
      done := {};
      new;
      InitialInv(g);
    }

    /** strongconnect(v): number v, push it, scan its edges (recursing into
        unvisited successors and lowering v's lowlink), and pop its component
        if it turns out to be a root. */
    method StrongConnect(v: nat)
      requires Inv(graph, State()) && v < |graph| && v !in visited
      modifies this
      ensures VisitPost(graph, old(State()), State(), v)
      decreases |graph| - index, 2
    {
      ghost var s0 := State();
      BoundedSetSize(visited + {v}, |graph|);
      OpenVisit(v);
      ScanStart(graph, s0, v);
      var k := 0;
      while k < |graph[v]|
        invariant ScanInv(graph, s0, State(), v, k)
        decreases |graph[v]| - k
      {
        ScanEdge(v, k, s0);
        k := k + 1;
      }
      CloseVisit(v, s0);
    }

    /** indices[v] = lowlinks[v] = index; index += 1; push v. */
    method OpenVisit(v: nat)
      requires v < |indices| && v < |lowlinks| && v < |onStack|
      modifies this
      ensures State() == Push(old(State()), v)
    {
      indices := indices[v := index];
      lowlinks := lowlinks[v := index];
      index := index + 1;
      stack := stack + [v];
      onStack := onStack[v := true];
      visited := visited + {v};
    }

    /** After the scan: a root pops its component; either way v is finished. */
    method CloseVisit(v: nat, ghost s0: SearchState)
      requires ScanInv(graph, s0, State(), v, |Succ(graph, v)|)
      modifies this
      ensures VisitPost(graph, s0, State(), v)
    {
      ghost var s := State();
      if lowlinks[v] == indices[v] {
        ScanEmit(graph, s0, s, v);
        DistinctSplit(stack, |s0.stack|);
        PopComponent(v, |s0.stack|);
        MarkDone(v);
      } else {
        ScanKeep(graph, s0, s, v);
        MarkDone(v);
      }
    }

    /** v is finished. */
    method MarkDone(v: nat)
      modifies this
      ensures State() == Finish(old(State()), v)
    {
      done := done + {v};
    }

    /** One pass of the loop over v's edges: the k-th edge v -> w. */
    method ScanEdge(v: nat, k: nat, ghost s0: SearchState)
      requires ScanInv(graph, s0, State(), v, k) && k < |graph[v]|
      modifies this
      ensures ScanInv(graph, s0, State(), v, k + 1)
      decreases |graph| - s0.counter, 1
    {
      var w := graph[v][k];
      if indices[w] == -1 {
        Descend(v, k, s0);
      } else if onStack[w] {
        ScanStacked(graph, s0, State(), v, k);
        SetLowlink(v, MinInt(lowlinks[v], indices[w]));
      } else {
        ScanEmitted(graph, s0, State(), v, k);
      }
    }

    /** The successor w is unvisited: strongconnect(w), then
        lowlinks[v] = min(lowlinks[v], lowlinks[w]). */
    method Descend(v: nat, k: nat, ghost s0: SearchState)
      requires ScanInv(graph, s0, State(), v, k) && k < |graph[v]| && indices[graph[v][k]] == -1
      modifies this
      ensures ScanInv(graph, s0, State(), v, k + 1)
      decreases |graph| - s0.counter, 0
    {
      var w := graph[v][k];
      ghost var b := State();
      BoundedSetSize(visited + {w}, |graph|);
      StrongConnect(w);
      ghost var a := State();
      ScanChild(graph, s0, b, a, v, k);
      SetLowlink(v, MinInt(lowlinks[v], lowlinks[w]));
    }

    /** lowlinks[v] = val. */
    method SetLowlink(v: nat, val: int)
      requires v < |lowlinks|
      modifies this
      ensures State() == SetLow(old(State()), v, val)
    {
      lowlinks := lowlinks[v := val];
    }

    /** Pop until v comes off, clearing each popped vertex's flag; the popped
        vertices, top first, form the new component. */
    method PopComponent(v: nat, ghost p: nat)
      requires p < |stack| && stack[p] == v && Distinct(stack)
      requires forall u :: u in stack ==> u < |onStack|
      modifies this
      ensures stack == old(stack)[..p]
      ensures sccs == old(sccs) + [Reverse(old(stack)[p..])]
      ensures onStack == ClearFlags(old(onStack), old(stack)[p..])
      ensures indices == old(indices) && lowlinks == old(lowlinks) && index == old(index)
      ensures visited == old(visited) && done == old(done)
      ensures State() == Emit(old(State()), p)
    {
      ghost var s0 := stack;
      ghost var o0 := onStack;
      var scc: seq<nat> := [];
      assert s0[|stack|..] == [];
      while true
        invariant p < |stack| <= |s0| && stack == s0[..|stack|]
        invariant scc == Reverse(s0[|stack|..])
        invariant onStack == ClearFlags(o0, s0[|stack|..])
        invariant indices == old(indices) && lowlinks == old(lowlinks) && index == old(index)
        invariant visited == old(visited) && done == old(done) && sccs == old(sccs)
        decreases |stack|
      {
        var top := |stack| - 1;
        var w := stack[top];
        assert w == s0[top] && w in s0;
        assert s0[top..] == [w] + s0[top + 1..];
        ClearFlagsStep(o0, s0[top + 1..], w);
        stack := stack[..top];
        onStack := onStack[w := false];
        scc := scc + [w];
        if w == v {
          assert s0[top] == s0[p];
          break;
        }
      }
      sccs := sccs + [scc];
    }

    /** The outer loop: visit every vertex not yet numbered. */
    method Run() returns (result: seq<seq<nat>>)
      requires Inv(graph, State()) && stack == [] && visited == {}
      modifies this
      ensures result == sccs
      ensures IsPartition(result, |graph|) && ClosedInOrder(graph, result) && ComponentsConnected(graph, result)
    {
      var v := 0;
      while v < |graph|
        invariant 0 <= v <= |graph| && Inv(graph, State()) && stack == []
        invariant forall u :: 0 <= u < v ==> u in visited
      {
        if indices[v] == -1 {
          ghost var b := State();
          StrongConnect(v);
          RootVisitDone(graph, b, State(), v);
        }
        v := v + 1;
      }
      AllVisited(graph, State());
      result := sccs;
    }
  }

  /** _tarjan_scc: the components of g, each exactly once, in reverse
      topological order, each strongly connected. */
  method TarjanScc(g: Graph) returns (sccs: seq<seq<nat>>)
    requires WellFormed(g)
    ensures IsPartition(sccs, |g|) && ClosedInOrder(g, sccs) && ComponentsConnected(g, sccs)
  {
    var t := new Tarjan(g);
    sccs := t.Run();
  }
}
