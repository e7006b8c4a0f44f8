/** GradingRunner: run every grader on every sample, keep each grader's
    results aligned with the dataset by index, turn a grader's exception into
    a GraderError for that one item, and add one list per aggregator whose
    i-th entry is computed from the graders' i-th results. Concurrency is
    modelled as a sequential run in scheduling order; only the placement of
    each result by (grader, index) matters, so the order of completion does
    not. */
module GradingRunner {
  import opened Common
  import opened JsonValue
  import opened GraderSchema

  /** A dataset sample (a dict of fields). */
  type Sample = map<string, Json>

  /** What `grader.aevaluate(**sample)` does: return a result or raise. */
  datatype GraderOutcome = Returned(result: GraderResult) | Raised(error: string)

  datatype Grader = Grader(name: string, aevaluate: Sample -> GraderOutcome)

  /** _arun: evaluate one sample, catching any exception. */
  function RunOne(sample: Sample, grader: Grader): (r: GraderResult)
    ensures grader.aevaluate(sample).Returned? ==> r == grader.aevaluate(sample).result
    ensures grader.aevaluate(sample).Raised? ==>
              r.GraderError? && r.name == grader.name &&
              EndsWith(r.error, grader.aevaluate(sample).error) && r.metadata == map[]
  {
    match grader.aevaluate(sample)
    case Returned(res) => res
    case Raised(e) =>
      var prefix := "Error in " + grader.name + " during evaluation";
      GraderError(grader.name, prefix, prefix + ": " + e, map[])
  }

  // ---------------------------------------------------------------------
  // Aggregators

  datatype AggregatorOutcome = AggOk(result: GraderResult) | AggRaised(error: string)

  /** An aggregator: a callable named by `__name__`, maybe a BaseAggregator,
      applied to one sample's {grader name: result} dict. */
  datatype Aggregator = Aggregator(
    name: string, isBaseAggregator: bool,
    apply: map<string, Option<GraderResult>> -> AggregatorOutcome)

  /** The `aggregators` argument: nothing, a single callable, or a list. */
  datatype AggregatorsArg = NoneGiven | Single(a: Aggregator) | ListOf(items: seq<Aggregator>)

  /** What `self.aggregators` holds after __init__ as written: a list, or a
      bare callable when a single callable that is not a BaseAggregator was given. */
  datatype AggregatorSetting = AggList(items: seq<Aggregator>) | AggBare(a: Aggregator)

  /** __init__'s normalisation as written. */
  function NormalizeAggregatorsAsWritten(arg: AggregatorsArg): AggregatorSetting {
    match arg
    case NoneGiven => AggList([])
    case ListOf(items) => AggList(items)
    case Single(a) => if a.isBaseAggregator then AggList([a]) else AggBare(a)
  }

  /** `for aggregator in self.aggregators`: a bare callable is not iterable. */
  function IterateAggregators(s: AggregatorSetting): Result<seq<Aggregator>> {
    match s
    case AggList(items) => Ok(items)
    case AggBare(_) => Err("TypeError: 'function' object is not iterable")
  }

  /** A single plain callable, which the signature accepts, leaves arun
      unable to iterate its aggregators. */
  lemma SinglePlainCallableBreaksArun(a: Aggregator)
    requires !a.isBaseAggregator
    ensures IterateAggregators(NormalizeAggregatorsAsWritten(Single(a))).Err?
  {
  }

  /** The normalisation the model uses: None or an empty list give [], a
      single callable of either kind gives a one-element list, and a list is
      kept as is. */
  function NormalizeAggregators(arg: AggregatorsArg): (r: seq<Aggregator>)
    ensures arg.Single? ==> r == [arg.a]
    ensures arg.ListOf? ==> r == arg.items
    ensures arg.NoneGiven? ==> r == []
  {
    match arg
    case NoneGiven => []
    case ListOf(items) => items
    case Single(a) => [a]
  }

  /** The two normalisations agree except on a single plain callable, and
      the corrected one is always iterable. */
  lemma NormalizeAggregatorsAgrees(arg: AggregatorsArg)
    ensures !(arg.Single? && !arg.a.isBaseAggregator) ==>
              NormalizeAggregatorsAsWritten(arg) == AggList(NormalizeAggregators(arg))
    ensures arg.Single? ==> |NormalizeAggregators(arg)| == 1
  {
  }

  // ---------------------------------------------------------------------
  // Scheduling: one evaluation per (grader, sample)

  function ScheduleRow(name: string, n: nat): seq<(string, nat)> {
    seq(n, i requires 0 <= i < n => (name, i))
  }

  /** coroutine_info: grader by grader, sample by sample. */
  function Schedule(names: seq<string>, n: nat): seq<(string, nat)>
    decreases |names|
  {
    if |names| == 0 then [] else Schedule(names[..|names| - 1], n) + ScheduleRow(names[|names| - 1], n)
  }

  /** The position of grader g's evaluation of sample i in the schedule. */
  function Slot(n: nat, g: nat, i: nat): nat {
    g * n + i
  }

  lemma MulStep(g: nat, m: nat, n: nat, i: nat)
    requires g < m && i < n
    ensures g * n + i < m * n
  {
    assert (g + 1) * n <= m * n by {
      assert m * n == (g + 1) * n + (m - g - 1) * n;
    }
  }

  /** len(graders) × len(dataset) evaluations; entry g·n + i is grader g on
      sample i. */
  lemma ScheduleIndex(names: seq<string>, n: nat)
    ensures |Schedule(names, n)| == |names| * n
    ensures forall g, i :: 0 <= g < |names| && 0 <= i < n ==>
              Slot(n, g, i) < |Schedule(names, n)| && Schedule(names, n)[Slot(n, g, i)] == (names[g], i)
    ensures forall t :: 0 <= t < |Schedule(names, n)| ==> Schedule(names, n)[t].0 in names && Schedule(names, n)[t].1 < n
  {
    ScheduleLength(names, n);
    forall g, i | 0 <= g < |names| && 0 <= i < n
      ensures Slot(n, g, i) < |Schedule(names, n)| && Schedule(names, n)[Slot(n, g, i)] == (names[g], i)
    {
      ScheduleEntry(names, n, g, i);
    }
    forall t | 0 <= t < |Schedule(names, n)| ensures Schedule(names, n)[t].0 in names && Schedule(names, n)[t].1 < n {
      ScheduleRange(names, n, t);
    }
  }

  lemma {:induction false} ScheduleLength(names: seq<string>, n: nat)
    ensures |Schedule(names, n)| == |names| * n
    decreases |names|
  {
    if |names| > 0 {
      var m := |names| - 1;
      ScheduleLength(names[..m], n);
      assert |Schedule(names, n)| == m * n + n;
    }
  }

  lemma {:induction false} ScheduleEntry(names: seq<string>, n: nat, g: nat, i: nat)
    requires g < |names| && i < n
    ensures Slot(n, g, i) < |Schedule(names, n)| && Schedule(names, n)[Slot(n, g, i)] == (names[g], i)
    decreases |names|
  {
    var m := |names| - 1;
    var init := names[..m];
    ScheduleLength(init, n);
    var s := Schedule(names, n);
    assert s == Schedule(init, n) + ScheduleRow(names[m], n);
    if g < m {
      MulStep(g, m, n, i);
      ScheduleEntry(init, n, g, i);
      assert s[g * n + i] == Schedule(init, n)[g * n + i];
      assert init[g] == names[g];
    } else {
      assert g * n + i == m * n + i;
    }
  }

  lemma {:induction false} ScheduleRange(names: seq<string>, n: nat, t: nat)
    requires t < |Schedule(names, n)|
    ensures Schedule(names, n)[t].0 in names && Schedule(names, n)[t].1 < n
    decreases |names|
  {
    var m := |names| - 1;
    var init := names[..m];
    var s := Schedule(names, n);
    assert s == Schedule(init, n) + ScheduleRow(names[m], n);
    if t < |Schedule(init, n)| {
      ScheduleRange(init, n, t);
      assert s[t] == Schedule(init, n)[t];
      assert s[t].0 in init;
    }
  }

  // ---------------------------------------------------------------------
  // The runner

  /** grader name -> one slot per sample (None until filled). */
  type RunnerResult = map<string, seq<Option<GraderResult>>>

  class Runner {
    const graderNames: seq<string>
    const graders: map<string, Grader>
    const aggregators: seq<Aggregator>
    var showProgress: bool

    /** The graders form a dict: distinct keys, in insertion order. */
    ghost predicate WellFormed() {
      Distinct(graderNames) && forall k :: k in graders <==> k in graderNames
    }

    constructor (graderNames: seq<string>, graders: map<string, Grader>, aggregators: AggregatorsArg, showProgress: bool)
      requires Distinct(graderNames) && forall k :: k in graders <==> k in graderNames
      ensures this.graderNames == graderNames && this.graders == graders
      ensures this.aggregators == NormalizeAggregators(aggregators)
      ensures this.showProgress == showProgress
      ensures WellFormed()
    {
      this.graderNames := graderNames;
      this.graders := graders;
      this.aggregators := NormalizeAggregators(aggregators);
      this.showProgress := showProgress;
    }

    /** Aggregator names clash neither with each other nor with grader names. */
    predicate FreshAggregatorNames() {
      (forall k, l :: 0 <= k < l < |aggregators| ==> aggregators[k].name != aggregators[l].name) &&
      (forall k :: 0 <= k < |aggregators| ==> aggregators[k].name !in graderNames)
    }

    /** What grader `g` yields on every sample. */
    function GraderColumn(dataset: seq<Sample>, g: string): seq<Option<GraderResult>>
      requires g in graders
    {
      seq(|dataset|, i requires 0 <= i < |dataset| => Some(RunOne(dataset[i], graders[g])))
    }

    /** The dict an aggregator receives for sample i. */
    function ExpectedRow(dataset: seq<Sample>, i: nat): map<string, Option<GraderResult>>
      requires i < |dataset|
    {
      map g | g in graderNames && g in graders :: Some(RunOne(dataset[i], graders[g]))
    }

    /** `{g: grader_results[g][i] for g in graders}` on the current dict. */
    static function CurrentRow(out: RunnerResult, names: seq<string>, i: nat): map<string, Option<GraderResult>> {
      map g | g in names && g in out :: if i < |out[g]| then out[g][i] else None
    }

    /** Every aggregator succeeds on every sample. */
    predicate AggregatorsSucceed(dataset: seq<Sample>) {
      forall k, i :: 0 <= k < |aggregators| && 0 <= i < |dataset| ==> aggregators[k].apply(ExpectedRow(dataset, i)).AggOk?
    }

    /** The dict arun returns when nothing raises. */
    ghost predicate IsRunnerResult(out: RunnerResult, dataset: seq<Sample>)
      requires WellFormed()
    {
      (forall key :: key in out <==> key in graderNames || exists k :: 0 <= k < |aggregators| && aggregators[k].name == key) &&
      (forall g :: g in graderNames ==> out[g] == GraderColumn(dataset, g)) &&
      (forall k :: 0 <= k < |aggregators| ==>
         |out[aggregators[k].name]| == |dataset| &&
         forall i :: 0 <= i < |dataset| ==>
           aggregators[k].apply(ExpectedRow(dataset, i)).AggOk? &&
           out[aggregators[k].name][i] == Some(aggregators[k].apply(ExpectedRow(dataset, i)).result))
    }

    /** Schedule every (grader, sample) evaluation and run it. */
    method ScheduleAll(dataset: seq<Sample>) returns (info: seq<(string, nat)>, allResults: seq<GraderResult>)
      requires WellFormed()
      ensures info == Schedule(graderNames, |dataset|)
      ensures |allResults| == |info|
      ensures forall t :: 0 <= t < |info| ==>
                (info[t].0 in graders && info[t].1 < |dataset| &&
                 allResults[t] == RunOne(dataset[info[t].1], graders[info[t].0]))
    {
      var n := |dataset|;
      info, allResults := [], [];
      var g := 0;
      while g < |graderNames|
        invariant 0 <= g <= |graderNames|
        invariant info == Schedule(graderNames[..g], n)
        invariant |allResults| == |info|
        invariant forall t :: 0 <= t < |info| ==>
                    (info[t].0 in graders && info[t].1 < n &&
                     allResults[t] == RunOne(dataset[info[t].1], graders[info[t].0]))
      {
        var name := graderNames[g];
        var i := 0;
        ghost var start := info;
        while i < n
          invariant 0 <= i <= n
          invariant info == start + ScheduleRow(name, i)
          invariant |allResults| == |info|
          invariant forall t :: 0 <= t < |info| ==>
                      (info[t].0 in graders && info[t].1 < n &&
                       allResults[t] == RunOne(dataset[info[t].1], graders[info[t].0]))
        {
          info := info + [(name, i)];
          allResults := allResults + [RunOne(dataset[i], graders[name])];
          i := i + 1;
        }
        assert graderNames[..g + 1][..g] == graderNames[..g];
        g := g + 1;
      }
      assert graderNames[..g] == graderNames;
    }

    /** `grader_results[name] = [None] * len(dataset)` for every grader. */
    method InitSlots(n: nat) returns (out: RunnerResult)
      ensures forall key :: key in out <==> key in graderNames
      ensures forall key :: key in out ==> out[key] == seq(n, i => None)
    {
      out := map[];
      var g := 0;
      while g < |graderNames|
        invariant 0 <= g <= |graderNames|
        invariant forall key :: key in out <==> key in graderNames[..g]
        invariant forall key :: key in out ==> out[key] == seq(n, i => None)
      {
        out := out[graderNames[g] := seq(n, i => None)];
        g := g + 1;
      }
      assert graderNames[..g] == graderNames;
    }

    /** The evaluation of `key` on sample i is among the first t scheduled. */
    static ghost predicate Placed(info: seq<(string, nat)>, t: nat, key: string, i: nat) {
      exists u :: 0 <= u < t && u < |info| && info[u] == (key, i)
    }

    /** `grader_results[name][i] = result` for every scheduled evaluation:
        a slot is filled exactly when its evaluation was scheduled. */
    method PlaceResults(dataset: seq<Sample>, info: seq<(string, nat)>, allResults: seq<GraderResult>)
      returns (out: RunnerResult)
      requires WellFormed()
      requires |allResults| == |info|
      requires forall t :: 0 <= t < |info| ==>
                 (info[t].0 in graders && info[t].1 < |dataset| &&
                  allResults[t] == RunOne(dataset[info[t].1], graders[info[t].0]))
      ensures forall key :: key in out <==> key in graderNames
      ensures forall key :: key in out ==> |out[key]| == |dataset|
      ensures forall key, i :: key in out && 0 <= i < |dataset| ==>
                out[key][i] == (if Placed(info, |info|, key, i) then Some(RunOne(dataset[i], graders[key])) else None)
    {
      var n := |dataset|;
      out := InitSlots(n);
      var t := 0;
      while t < |info|
        invariant 0 <= t <= |info|
        invariant forall key :: key in out <==> key in graderNames
        invariant forall key :: key in out ==> |out[key]| == n
        invariant forall key, i :: key in out && 0 <= i < n ==>
                    out[key][i] == (if Placed(info, t, key, i) then Some(RunOne(dataset[i], graders[key])) else None)
      {
        var (key, i) := info[t];
        assert info[t] == (key, i);
        out := out[key := out[key][i := Some(allResults[t])]];
        forall key', i' | key' in out && 0 <= i' < n
          ensures Placed(info, t + 1, key', i') <==> Placed(info, t, key', i') || (key', i') == (key, i)
        {
          if Placed(info, t + 1, key', i') && (key', i') != (key, i) {
            var u :| 0 <= u < t + 1 && u < |info| && info[u] == (key', i');
            assert Placed(info, t, key', i');
          }
          if (key', i') == (key, i) {
            assert info[t] == (key', i');
          }
        }
        t := t + 1;
      }
    }

    /** Every (grader, sample) pair is scheduled. */
    lemma AllScheduled(n: nat)
      requires WellFormed()
      ensures forall key, i :: key in graderNames && 0 <= i < n ==>
                Placed(Schedule(graderNames, n), |Schedule(graderNames, n)|, key, i)
    {
      var info := Schedule(graderNames, n);
      forall key, i | key in graderNames && 0 <= i < n ensures Placed(info, |info|, key, i) {
        var g :| 0 <= g < |graderNames| && graderNames[g] == key;
        ScheduleEntry(graderNames, n, g, i);
        assert info[Slot(n, g, i)] == (key, i);
      }
    }

    /** Run and place every grader's results. */
    method GradeAll(dataset: seq<Sample>) returns (out: RunnerResult, info: seq<(string, nat)>)
      requires WellFormed()
      ensures info == Schedule(graderNames, |dataset|)
      ensures forall key :: key in out <==> key in graderNames
      ensures forall g :: g in graderNames ==> out[g] == GraderColumn(dataset, g)
    {
      var allResults;
      info, allResults := ScheduleAll(dataset);
      out := PlaceResults(dataset, info, allResults);
      AllScheduled(|dataset|);
      forall g | g in graderNames ensures out[g] == GraderColumn(dataset, g) {
        assert |out[g]| == |dataset|;
      }
    }

    /** arun: every grader on every sample, then every aggregator per sample. */
    method Arun(dataset: seq<Sample>) returns (r: Result<RunnerResult>, info: seq<(string, nat)>)
      requires WellFormed()
      ensures info == Schedule(graderNames, |dataset|)
      ensures r.Ok? ==> forall key :: key in graderNames ==> key in r.value && |r.value[key]| == |dataset|
      ensures FreshAggregatorNames() ==> (r.Ok? <==> AggregatorsSucceed(dataset))
      ensures FreshAggregatorNames() && r.Ok? ==> IsRunnerResult(r.value, dataset)
    {
      var out;
      out, info := GradeAll(dataset);
      r := RunAggregators(dataset, out);
    }

    /** One aggregator over every sample:
        `grader_results[name] = [aggregator(row i) for i in range(n)]`, where
        row i is read from the dict as it stands. When the aggregator's name
        is not a grader's, its own writes do not feed back into the rows. */
    static method ApplyAggregator(names: seq<string>, out: RunnerResult, agg: Aggregator, n: nat)
      returns (r: Result<RunnerResult>)
      ensures r.Ok? ==> forall key :: key in r.value <==> key in out || key == agg.name
      ensures r.Ok? ==> forall key :: key in out && key != agg.name ==> r.value[key] == out[key]
      ensures r.Ok? ==> |r.value[agg.name]| == n
      ensures agg.name !in names ==>
                (r.Ok? <==> forall i :: 0 <= i < n ==> agg.apply(CurrentRow(out, names, i)).AggOk?)
      ensures agg.name !in names && r.Ok? ==>
                forall i :: 0 <= i < n ==> r.value[agg.name][i] == Some(agg.apply(CurrentRow(out, names, i)).result)
    {
      var cur := out[agg.name := seq(n, i => None)];
      assert agg.name !in names ==> forall i :: CurrentRow(cur, names, i) == CurrentRow(out, names, i);
      var i := 0;
      while i < n
        invariant 0 <= i <= n
        invariant forall key :: key in cur <==> key in out || key == agg.name
        invariant forall key :: key in out && key != agg.name ==> cur[key] == out[key]
        invariant |cur[agg.name]| == n
        invariant agg.name !in names ==> forall i' :: CurrentRow(cur, names, i') == CurrentRow(out, names, i')
        invariant agg.name !in names ==>
                    forall i' :: 0 <= i' < i ==>
                      agg.apply(CurrentRow(out, names, i')).AggOk? &&
                      cur[agg.name][i'] == Some(agg.apply(CurrentRow(out, names, i')).result)
      {
        var res := agg.apply(CurrentRow(cur, names, i));
        if res.AggRaised? {
          r := Err(res.error);
          return;
        }
        cur := cur[agg.name := cur[agg.name][i := Some(res.result)]];
        i := i + 1;
      }
      r := Ok(cur);
    }

    /** With every grader's column in place, the row an aggregator reads is
        the expected one. */
    lemma RowsAreExpected(dataset: seq<Sample>, out: RunnerResult)
      requires WellFormed()
      requires forall g :: g in graderNames ==> g in out && out[g] == GraderColumn(dataset, g)
      ensures forall i :: 0 <= i < |dataset| ==> CurrentRow(out, graderNames, i) == ExpectedRow(dataset, i)
    {
    }

    /** After the first k aggregators, every grader column is intact and
        aggregator j < k holds its aggregated column. */
    ghost predicate AggregatedUpTo(dataset: seq<Sample>, out: RunnerResult, k: nat)
      requires WellFormed()
    {
      k <= |aggregators| &&
      (forall g :: g in graderNames ==> g in out && out[g] == GraderColumn(dataset, g)) &&
      (forall j :: 0 <= j < k ==> aggregators[j].name in out && |out[aggregators[j].name]| == |dataset|) &&
      (forall j, i :: 0 <= j < k && 0 <= i < |dataset| ==>
         aggregators[j].apply(ExpectedRow(dataset, i)).AggOk? &&
         out[aggregators[j].name][i] == Some(aggregators[j].apply(ExpectedRow(dataset, i)).result))
    }

    /** One step of the aggregation loop keeps AggregatedUpTo. */
    lemma AggregatedStep(dataset: seq<Sample>, out: RunnerResult, k: nat, next: RunnerResult)
      requires WellFormed() && FreshAggregatorNames()
      requires k < |aggregators| && AggregatedUpTo(dataset, out, k)
      requires forall key :: key in next <==> key in out || key == aggregators[k].name
      requires forall key :: key in out && key != aggregators[k].name ==> next[key] == out[key]
      requires |next[aggregators[k].name]| == |dataset|
      requires forall i :: 0 <= i < |dataset| ==>
                 aggregators[k].apply(CurrentRow(out, graderNames, i)).AggOk? &&
                 next[aggregators[k].name][i] == Some(aggregators[k].apply(CurrentRow(out, graderNames, i)).result)
      ensures AggregatedUpTo(dataset, next, k + 1)
    {
      RowsAreExpected(dataset, out);
    }

    /** The aggregation loop of arun. */
    method RunAggregators(dataset: seq<Sample>, graded: RunnerResult) returns (r: Result<RunnerResult>)
      requires WellFormed()
      requires forall key :: key in graded <==> key in graderNames
      requires forall g :: g in graderNames ==> graded[g] == GraderColumn(dataset, g)
      ensures r.Ok? ==> forall key :: key in graderNames ==> key in r.value && |r.value[key]| == |dataset|
      ensures FreshAggregatorNames() ==> (r.Ok? <==> AggregatorsSucceed(dataset))
      ensures FreshAggregatorNames() && r.Ok? ==> IsRunnerResult(r.value, dataset)
    {
      ghost var isFresh := FreshAggregatorNames();
      var n := |dataset|;
      var out := graded;
      var k := 0;
      while k < |aggregators|
        invariant 0 <= k <= |aggregators|
        invariant forall key :: key in graderNames ==> key in out && |out[key]| == n
        invariant forall key :: key in out ==> key in graderNames || exists j :: 0 <= j < k && aggregators[j].name == key
        invariant forall j :: 0 <= j < k ==> aggregators[j].name in out
        invariant isFresh ==> AggregatedUpTo(dataset, out, k)
      {
        var agg := aggregators[k];
        var next := ApplyAggregator(graderNames, out, agg, n);
        if next.Err? {
          if isFresh {
            RowsAreExpected(dataset, out);
            assert !AggregatorsSucceed(dataset);
          }
          r := next;
          return;
        }
        if isFresh {
          RowsAreExpected(dataset, out);
          AggregatedStep(dataset, out, k, next.value);
        }
        out := next.value;
        k := k + 1;
      }
      r := Ok(out);
    }

    /** arun_multiple_datasets: one result per dataset, in input order, with
        the progress flag switched off meanwhile and restored afterwards,
        also when a run fails. */
    method ArunMultipleDatasets(datasets: seq<seq<Sample>>) returns (r: Result<seq<RunnerResult>>)
      requires WellFormed()
      modifies this
      ensures showProgress == old(showProgress)
      ensures r.Ok? ==> |r.value| == |datasets|
      ensures FreshAggregatorNames() ==> (r.Ok? <==> forall k :: 0 <= k < |datasets| ==> AggregatorsSucceed(datasets[k]))
      ensures FreshAggregatorNames() && r.Ok? ==> forall k :: 0 <= k < |datasets| ==> IsRunnerResult(r.value[k], datasets[k])
    {
      var original := showProgress;
      showProgress := false;
      var results: seq<RunnerResult> := [];
      var k := 0;
      while k < |datasets|
        invariant 0 <= k <= |datasets|
        invariant |results| == k
        invariant FreshAggregatorNames() ==> forall j :: 0 <= j < k ==> AggregatorsSucceed(datasets[j]) && IsRunnerResult(results[j], datasets[j])
      {
        var one, _ := Arun(datasets[k]);
        if one.Err? {
          showProgress := original;
          r := Err(one.msg);
          return;
        }
        results := results + [one.value];
        k := k + 1;
      }
      showProgress := original;
      r := Ok(results);
    }
  }
}
