/** The zero-shot evaluation pipeline: stage ordering, the checkpoint
    manager that lets a run resume, the pairwise dataset builder (every pair
    of endpoints, in both presentation orders), the extraction of comparison
    details from the judge's scores, and the resume flow of `evaluate`.
    Query generation, response collection, rubric generation and the judge
    are oracles passed in by the caller; files become fields of the manager. */
module ZeroShotPipeline {
  import opened Common
  import opened GraderSchema

  // ---------------------------------------------------------------------
  // Stages

  datatype EvaluationStage =
    | NotStarted | QueriesGenerated | ResponsesCollected | RubricsGenerated | EvaluationComplete
  {
    /** The enum's string value. */
    function Value(): string {
      match this
      case NotStarted => "not_started"
      case QueriesGenerated => "queries_generated"
      case ResponsesCollected => "responses_collected"
      case RubricsGenerated => "rubrics_generated"
      case EvaluationComplete => "evaluation_complete"
    }

    /** get_order: the position of the stage in the pipeline. */
    function Order(): int {
      match this
      case NotStarted => 0
      case QueriesGenerated => 1
      case ResponsesCollected => 2
      case RubricsGenerated => 3
      case EvaluationComplete => 4
    }

    predicate Ge(other: EvaluationStage) { Order() >= other.Order() }
    predicate Gt(other: EvaluationStage) { Order() > other.Order() }
    predicate Le(other: EvaluationStage) { Order() <= other.Order() }
    predicate Lt(other: EvaluationStage) { Order() < other.Order() }
  }

  /** The stages in pipeline order. */
  function Stages(): (s: seq<EvaluationStage>)
    ensures |s| == 5
  {
    [NotStarted, QueriesGenerated, ResponsesCollected, RubricsGenerated, EvaluationComplete]
  }

  /** The comparisons follow the pipeline order, in which every stage has
      its own place, and the four operators agree with each other. */
  lemma StageComparisons()
    ensures forall i, j :: 0 <= i < 5 && 0 <= j < 5 ==> (Stages()[i].Lt(Stages()[j]) <==> i < j)
    ensures forall a: EvaluationStage, b: EvaluationStage :: a.Order() == b.Order() ==> a == b
    ensures forall a: EvaluationStage, b: EvaluationStage :: a.Ge(b) <==> b.Le(a)
    ensures forall a: EvaluationStage, b: EvaluationStage :: a.Gt(b) <==> b.Lt(a)
    ensures forall a: EvaluationStage, b: EvaluationStage :: a.Ge(b) <==> !a.Lt(b)
    ensures forall a: EvaluationStage, b: EvaluationStage :: a.Gt(b) <==> a.Ge(b) && a != b
  {
  }

  /** Order by string value would put "evaluation_complete" before
      "not_started"; the pipeline order puts it last. */
  lemma StageOrderIsNotStringOrder()
    ensures EvaluationComplete.Gt(NotStarted) && EvaluationComplete.Value()[0] < NotStarted.Value()[0]
    ensures forall s: EvaluationStage :: EvaluationComplete.Ge(s)
  {
  }

  // ---------------------------------------------------------------------
  // The checkpoint record and the manager

  /** _CheckpointData without its timestamps. */
  datatype CheckpointData = CheckpointData(
    stage: EvaluationStage,
    queriesFile: Option<string>,
    responsesFile: Option<string>,
    rubricsFile: Option<string>,
    totalQueries: int,
    collectedResponses: int,
    evaluatedPairs: int,
    totalPairs: int)

  function DefaultCheckpoint(): CheckpointData {
    CheckpointData(NotStarted, None, None, None, 0, 0, 0, 0)
  }

  /** A keyword argument of update_stage; a name the record does not have
      is carried as Unknown and ignored. */
  datatype StageUpdate =
    | TotalQueries(n: int)
    | CollectedResponses(n: int)
    | EvaluatedPairs(n: int)
    | TotalPairs(n: int)
    | QueriesFile(path: string)
    | ResponsesFile(path: string)
    | RubricsFile(path: string)
    | Unknown(key: string)

  /** setattr for one keyword argument. */
  function ApplyUpdate(d: CheckpointData, u: StageUpdate): CheckpointData {
    match u
    case TotalQueries(n) => d.(totalQueries := n)
    case CollectedResponses(n) => d.(collectedResponses := n)
    case EvaluatedPairs(n) => d.(evaluatedPairs := n)
    case TotalPairs(n) => d.(totalPairs := n)
    case QueriesFile(p) => d.(queriesFile := Some(p))
    case ResponsesFile(p) => d.(responsesFile := Some(p))
    case RubricsFile(p) => d.(rubricsFile := Some(p))
    case Unknown(_) => d
  }

  /** All keyword arguments, in the order given. */
  function ApplyUpdates(d: CheckpointData, us: seq<StageUpdate>): CheckpointData
    decreases |us|
  {
    if |us| == 0 then d else ApplyUpdates(ApplyUpdate(d, us[0]), us[1..])
  }

  /** Keyword arguments never change the stage, and unknown names change nothing. */
  lemma {:induction false} ApplyUpdatesKeepsStage(d: CheckpointData, us: seq<StageUpdate>)
    ensures ApplyUpdates(d, us).stage == d.stage
    ensures (forall k :: 0 <= k < |us| ==> us[k].Unknown?) ==> ApplyUpdates(d, us) == d
    decreases |us|
  {
    if |us| > 0 {
      ApplyUpdatesKeepsStage(ApplyUpdate(d, us[0]), us[1..]);
    }
  }

  lemma ApplyTwoUpdates(d: CheckpointData, u1: StageUpdate, u2: StageUpdate)
    ensures ApplyUpdates(d, [u1, u2]) == ApplyUpdate(ApplyUpdate(d, u1), u2)
  {
    assert [u1, u2][1..] == [u2];
    assert ApplyUpdates(d, [u1, u2]) == ApplyUpdates(ApplyUpdate(d, u1), [u2]);
    assert [u2][1..] == [];
    var e := ApplyUpdate(d, u1);
    assert ApplyUpdates(e, [u2]) == ApplyUpdates(ApplyUpdate(e, u2), []);
  }

  /** A field named by no keyword argument keeps its value; here, the counters. */
  lemma {:induction false} ApplyUpdatesFrame(d: CheckpointData, us: seq<StageUpdate>)
    ensures (forall k :: 0 <= k < |us| ==> !us[k].TotalPairs?) ==> ApplyUpdates(d, us).totalPairs == d.totalPairs
    ensures (forall k :: 0 <= k < |us| ==> !us[k].EvaluatedPairs?) ==> ApplyUpdates(d, us).evaluatedPairs == d.evaluatedPairs
    ensures (forall k :: 0 <= k < |us| ==> !us[k].TotalQueries?) ==> ApplyUpdates(d, us).totalQueries == d.totalQueries
    ensures (forall k :: 0 <= k < |us| ==> !us[k].CollectedResponses?) ==> ApplyUpdates(d, us).collectedResponses == d.collectedResponses
    decreases |us|
  {
    if |us| > 0 {
      ApplyUpdatesFrame(ApplyUpdate(d, us[0]), us[1..]);
    }
  }

  /** What checkpoint.json holds: nothing, something that does not parse
      as a checkpoint, or a checkpoint. */
  datatype CheckpointFile = NoFile | Unreadable | Saved(data: CheckpointData)

  /** One entry of responses.json: a query and each endpoint's answer
      (None where the endpoint gave none). */
  datatype ResponseRecord = ResponseRecord(query: string, responses: map<string, Option<string>>)

  datatype ComparisonDetail = ComparisonDetail(
    query: string, modelA: string, modelB: string,
    responseA: string, responseB: string,
    winner: string, score: real, reason: string, order: string)

  /** _CheckpointManager over an in-memory output directory. */
  class CheckpointManager {
    const outputDir: string
    var checkpointFile: CheckpointFile
    var queriesFile: Option<seq<string>>
    var responsesFile: Option<seq<ResponseRecord>>
    var rubricsFile: Option<seq<string>>
    var detailsFile: Option<seq<ComparisonDetail>>
    /** The checkpoint held in memory (`_checkpoint`). */
    var checkpoint: Option<CheckpointData>

    constructor (outputDir: string, existing: CheckpointFile)
      ensures this.outputDir == outputDir && checkpointFile == existing
      ensures checkpoint.None?
      ensures queriesFile.None? && responsesFile.None? && rubricsFile.None? && detailsFile.None?
    {
      this.outputDir := outputDir;
      checkpointFile := existing;
      queriesFile := None;
      responsesFile := None;
      rubricsFile := None;
      detailsFile := None;
      checkpoint := None;
    }

    /** load: a missing or unreadable checkpoint is no checkpoint. */
    method Load() returns (r: Option<CheckpointData>)
      modifies this
      ensures r.Some? <==> old(checkpointFile).Saved?
      ensures r.Some? ==> checkpointFile.Saved? && r.value == checkpointFile.data && checkpoint == r
      ensures r.None? ==> checkpoint == old(checkpoint)
      ensures checkpointFile == old(checkpointFile)
      ensures queriesFile == old(queriesFile) && responsesFile == old(responsesFile)
      ensures rubricsFile == old(rubricsFile) && detailsFile == old(detailsFile)
    {
      match checkpointFile
      case NoFile => r := None;
      case Unreadable => r := None;
      case Saved(d) =>
        checkpoint := Some(d);
        r := Some(d);
    }

    /** save: the checkpoint becomes both the file and the one in memory. */
    method Save(d: CheckpointData)
      modifies this
      ensures checkpoint == Some(d) && checkpointFile == Saved(d)
      ensures queriesFile == old(queriesFile) && responsesFile == old(responsesFile)
      ensures rubricsFile == old(rubricsFile) && detailsFile == old(detailsFile)
    {
      checkpoint := Some(d);
      checkpointFile := Saved(d);
    }

    function LoadQueries(): seq<string>
      reads this
    {
      queriesFile.GetOr([])
    }

    function LoadResponses(): seq<ResponseRecord>
      reads this
    {
      responsesFile.GetOr([])
    }

    function LoadRubrics(): seq<string>
      reads this
    {
      rubricsFile.GetOr([])
    }

    method SaveQueries(qs: seq<string>) returns (path: string)
      modifies this
      ensures queriesFile == Some(qs) && path == outputDir + "/queries.json"
      ensures checkpoint == old(checkpoint) && checkpointFile == old(checkpointFile)
      ensures responsesFile == old(responsesFile) && rubricsFile == old(rubricsFile) && detailsFile == old(detailsFile)
    {
      queriesFile := Some(qs);
      path := outputDir + "/queries.json";
    }

    method SaveResponses(rs: seq<ResponseRecord>) returns (path: string)
      modifies this
      ensures responsesFile == Some(rs) && path == outputDir + "/responses.json"
      ensures checkpoint == old(checkpoint) && checkpointFile == old(checkpointFile)
      ensures queriesFile == old(queriesFile) && rubricsFile == old(rubricsFile) && detailsFile == old(detailsFile)
    {
      responsesFile := Some(rs);
      path := outputDir + "/responses.json";
    }

    method SaveRubrics(rs: seq<string>) returns (path: string)
      modifies this
      ensures rubricsFile == Some(rs) && path == outputDir + "/rubrics.json"
      ensures checkpoint == old(checkpoint) && checkpointFile == old(checkpointFile)
      ensures queriesFile == old(queriesFile) && responsesFile == old(responsesFile) && detailsFile == old(detailsFile)
    {
      rubricsFile := Some(rs);
      path := outputDir + "/rubrics.json";
    }

    method SaveComparisonDetails(ds: seq<ComparisonDetail>)
      modifies this
      ensures detailsFile == Some(ds)
      ensures checkpoint == old(checkpoint) && checkpointFile == old(checkpointFile)
      ensures queriesFile == old(queriesFile) && responsesFile == old(responsesFile) && rubricsFile == old(rubricsFile)
    {
      detailsFile := Some(ds);
    }

    /** update_stage: start from the checkpoint in memory (a fresh one when
        there is none), set the stage, apply the keyword arguments the record
        knows, and save. */
    method UpdateStage(stage: EvaluationStage, updates: seq<StageUpdate>)
      modifies this
      ensures checkpoint == Some(ApplyUpdates(old(checkpoint).GetOr(DefaultCheckpoint()).(stage := stage), updates))
      ensures checkpointFile == Saved(checkpoint.value)
      ensures checkpoint.value.stage == stage
      ensures queriesFile == old(queriesFile) && responsesFile == old(responsesFile)
      ensures rubricsFile == old(rubricsFile) && detailsFile == old(detailsFile)
    {
      var d := checkpoint.GetOr(DefaultCheckpoint());
      d := d.(stage := stage);
      ghost var start := d;
      var k := 0;
      while k < |updates|
        invariant 0 <= k <= |updates|
        invariant ApplyUpdates(d, updates[k..]) == ApplyUpdates(start, updates)
      {
        assert updates[k..][1..] == updates[k + 1..];
        d := ApplyUpdate(d, updates[k]);
        k := k + 1;
      }
      ApplyUpdatesKeepsStage(start, updates);
      Save(d);
    }

    /** clear: every file is removed and nothing is held in memory. */
    method Clear()
      modifies this
      ensures checkpointFile == NoFile && checkpoint.None?
      ensures queriesFile.None? && responsesFile.None? && rubricsFile.None? && detailsFile.None?
    {
      checkpointFile := NoFile;
      queriesFile := None;
      responsesFile := None;
      rubricsFile := None;
      detailsFile := None;
      checkpoint := None;
    }
  }

  // ---------------------------------------------------------------------
  // Pairs of endpoints: itertools.combinations(names, 2)

  /** combinations(names, 2): the first name with each later one, then the
      pairs of the remaining names. */
  function Pairs(names: seq<string>): seq<(string, string)> {
    if |names| == 0 then []
    else seq(|names| - 1, t requires 0 <= t < |names| - 1 => (names[0], names[t + 1])) + Pairs(names[1..])
  }

  /** There are C(k, 2) pairs. */
  lemma {:induction false} PairsCount(names: seq<string>)
    ensures |Pairs(names)| == |names| * (|names| - 1) / 2
  {
    if |names| > 0 {
      var n := |names|;
      PairsCount(names[1..]);
      assert (n - 1) + (n - 1) * (n - 2) / 2 == n * (n - 1) / 2 by {
        assert (n - 1) * (n - 2) + 2 * (n - 1) == n * (n - 1);
      }
    }
  }

  /** Every (names[i], names[j]) with i < j is a pair. */
  lemma {:induction false} PairsComplete(names: seq<string>)
    ensures forall i, j :: 0 <= i < j < |names| ==> (names[i], names[j]) in Pairs(names)
  {
    if |names| > 0 {
      var n := |names|;
      var tail := names[1..];
      var row := seq(n - 1, t requires 0 <= t < n - 1 => (names[0], names[t + 1]));
      var rest := Pairs(tail);
      PairsComplete(tail);
      assert Pairs(names) == row + rest;
      forall i, j | 0 <= i < j < n ensures (names[i], names[j]) in row + rest {
        if i == 0 {
          assert row[j - 1] == (names[i], names[j]);
        } else {
          assert (tail[i - 1], tail[j - 1]) in rest;
        }
      }
    }
  }

  /** Every pair is some (names[i], names[j]) with i < j. */
  lemma {:induction false} PairsSound(names: seq<string>)
    ensures forall p :: p in Pairs(names) ==> exists i, j :: 0 <= i < j < |names| && p == (names[i], names[j])
  {
    if |names| > 0 {
      var n := |names|;
      var tail := names[1..];
      var row := seq(n - 1, t requires 0 <= t < n - 1 => (names[0], names[t + 1]));
      var rest := Pairs(tail);
      PairsSound(tail);
      assert Pairs(names) == row + rest;
      forall p | p in row + rest ensures exists i, j :: 0 <= i < j < n && p == (names[i], names[j]) {
        if p in row {
          var t :| 0 <= t < n - 1 && row[t] == p;
          assert p == (names[0], names[t + 1]);
        } else {
          var i, j :| 0 <= i < j < |tail| && p == (tail[i], tail[j]);
          assert p == (names[i + 1], names[j + 1]);
        }
      }
    }
  }

  /** With distinct names (dictionary keys are), no pair appears twice. */
  lemma {:induction false} PairsDistinct(names: seq<string>)
    requires Distinct(names)
    ensures Distinct(Pairs(names))
  {
    if |names| > 0 {
      var n := |names|;
      var tail := names[1..];
      var row := seq(n - 1, t requires 0 <= t < n - 1 => (names[0], names[t + 1]));
      var rest := Pairs(tail);
      assert Distinct(tail) by {
        forall i, j | 0 <= i < j < |tail| ensures tail[i] != tail[j] {
          assert tail[i] == names[i + 1] && tail[j] == names[j + 1];
        }
      }
      PairsDistinct(tail);
      PairsSound(tail);
      var all := row + rest;
      assert Pairs(names) == all;
      forall s, t | 0 <= s < t < |all| ensures all[s] != all[t] {
        if t < |row| {
          assert all[s].1 == names[s + 1] && all[t].1 == names[t + 1];
        } else if s < |row| {
          assert all[t] in rest;
          var i, j :| 0 <= i < j < |tail| && all[t] == (tail[i], tail[j]);
          assert all[t].0 == names[i + 1];
        } else {
          assert all[s] == rest[s - |row|] && all[t] == rest[t - |row|];
        }
      }
    }
  }

  // ---------------------------------------------------------------------
  // The pairwise dataset

  datatype PairwiseItem = PairwiseItem(
    instruction: string, responseA: string, responseB: string,
    modelA: string, modelB: string, order: string)

  /** `resp_dict.get(name)` is not None. */
  predicate Answered(responses: map<string, Option<string>>, name: string) {
    name in responses && responses[name].Some?
  }

  /** The items one record yields for the pair (a, b): the original and the
      swapped comparison when both answered, nothing otherwise. */
  function PairItems(r: ResponseRecord, a: string, b: string): seq<PairwiseItem> {
    if Answered(r.responses, a) && Answered(r.responses, b) then
      var ra := r.responses[a].value;
      var rb := r.responses[b].value;
      [PairwiseItem(r.query, ra, rb, a, b, "original"), PairwiseItem(r.query, rb, ra, b, a, "swapped")]
    else []
  }

  /** The items one record yields, pair by pair. */
  function ItemsFor(r: ResponseRecord, pairs: seq<(string, string)>): seq<PairwiseItem> {
    if |pairs| == 0 then [] else PairItems(r, pairs[0].0, pairs[0].1) + ItemsFor(r, pairs[1..])
  }

  /** The whole dataset, record by record. */
  function Dataset(records: seq<ResponseRecord>, pairs: seq<(string, string)>): seq<PairwiseItem> {
    if |records| == 0 then [] else ItemsFor(records[0], pairs) + Dataset(records[1..], pairs)
  }

  /** The number of pairs both of whose endpoints answered in a record. */
  function AnsweredPairs(r: ResponseRecord, pairs: seq<(string, string)>): nat {
    if |pairs| == 0 then 0
    else (if Answered(r.responses, pairs[0].0) && Answered(r.responses, pairs[0].1) then 1 else 0)
         + AnsweredPairs(r, pairs[1..])
  }

  /** The number of answered (record, pair) combinations. */
  function AnsweredCombinations(records: seq<ResponseRecord>, pairs: seq<(string, string)>): nat {
    if |records| == 0 then 0 else AnsweredPairs(records[0], pairs) + AnsweredCombinations(records[1..], pairs)
  }

  /** Items come two by two: an original (A, B) immediately followed by the
      same comparison swapped, responses and model names exchanged. */
  predicate OriginalThenSwapped(items: seq<PairwiseItem>) {
    |items| % 2 == 0 &&
    forall t :: 0 <= t < |items| / 2 ==>
      items[2 * t].order == "original" &&
      items[2 * t + 1] == PairwiseItem(items[2 * t].instruction, items[2 * t].responseB, items[2 * t].responseA,
                                       items[2 * t].modelB, items[2 * t].modelA, "swapped")
  }

  lemma OriginalThenSwappedConcat(a: seq<PairwiseItem>, b: seq<PairwiseItem>)
    requires OriginalThenSwapped(a) && OriginalThenSwapped(b)
    ensures OriginalThenSwapped(a + b)
  {
    var c := a + b;
    forall t | 0 <= t < |c| / 2
      ensures c[2 * t].order == "original"
      ensures c[2 * t + 1] == PairwiseItem(c[2 * t].instruction, c[2 * t].responseB, c[2 * t].responseA,
                                           c[2 * t].modelB, c[2 * t].modelA, "swapped")
    {
      if 2 * t < |a| {
        assert c[2 * t] == a[2 * t] && c[2 * t + 1] == a[2 * t + 1];
      } else {
        var u := t - |a| / 2;
        assert c[2 * t] == b[2 * u] && c[2 * t + 1] == b[2 * u + 1];
      }
    }
  }

  lemma {:induction false} ItemsForShape(r: ResponseRecord, pairs: seq<(string, string)>)
    ensures |ItemsFor(r, pairs)| == 2 * AnsweredPairs(r, pairs)
    ensures OriginalThenSwapped(ItemsFor(r, pairs))
  {
    if |pairs| > 0 {
      ItemsForShape(r, pairs[1..]);
      var here := PairItems(r, pairs[0].0, pairs[0].1);
      assert OriginalThenSwapped(here);
      OriginalThenSwappedConcat(here, ItemsFor(r, pairs[1..]));
    }
  }

  /** The dataset has two items per answered (record, pair) combination,
      and they come as original/swapped couples. */
  lemma {:induction false} DatasetShape(records: seq<ResponseRecord>, pairs: seq<(string, string)>)
    ensures |Dataset(records, pairs)| == 2 * AnsweredCombinations(records, pairs)
    ensures OriginalThenSwapped(Dataset(records, pairs))
  {
    if |records| > 0 {
      ItemsForShape(records[0], pairs);
      DatasetShape(records[1..], pairs);
      OriginalThenSwappedConcat(ItemsFor(records[0], pairs), Dataset(records[1..], pairs));
    }
  }

  /** An endpoint that gave no answer in a record appears in none of its items. */
  lemma {:induction false} UnansweredContributesNothing(r: ResponseRecord, pairs: seq<(string, string)>, name: string)
    requires !Answered(r.responses, name)
    ensures forall it :: it in ItemsFor(r, pairs) ==> it.modelA != name && it.modelB != name
  {
    if |pairs| > 0 {
      UnansweredContributesNothing(r, pairs[1..], name);
    }
  }

  lemma ItemsForStep(r: ResponseRecord, pairs: seq<(string, string)>, p: nat)
    requires p < |pairs|
    ensures ItemsFor(r, pairs[p..]) == PairItems(r, pairs[p].0, pairs[p].1) + ItemsFor(r, pairs[p + 1..])
  {
    assert pairs[p..][1..] == pairs[p + 1..];
  }

  lemma DatasetStep(records: seq<ResponseRecord>, pairs: seq<(string, string)>, k: nat)
    requires k < |records|
    ensures Dataset(records[k..], pairs) == ItemsFor(records[k], pairs) + Dataset(records[k + 1..], pairs)
  {
    assert records[k..][1..] == records[k + 1..];
  }

  /** The inner loop of _prepare_pairwise_data for one record. */
  method AppendRecordItems(dataset: seq<PairwiseItem>, r: ResponseRecord, pairs: seq<(string, string)>)
    returns (out: seq<PairwiseItem>)
    ensures out == dataset + ItemsFor(r, pairs)
  {
    out := dataset;
    var p := 0;
    while p < |pairs|
      invariant 0 <= p <= |pairs|
      invariant out + ItemsFor(r, pairs[p..]) == dataset + ItemsFor(r, pairs)
    {
      var a := pairs[p].0;
      var b := pairs[p].1;
      ghost var prev := out;
      if Answered(r.responses, a) && Answered(r.responses, b) {
        var ra := r.responses[a].value;
        var rb := r.responses[b].value;
        out := out + [PairwiseItem(r.query, ra, rb, a, b, "original"), PairwiseItem(r.query, rb, ra, b, a, "swapped")];
      }
      assert out == prev + PairItems(r, a, b);
      ItemsForStep(r, pairs, p);
      assert out + ItemsFor(r, pairs[p + 1..]) == prev + ItemsFor(r, pairs[p..]);
      p := p + 1;
    }
    assert pairs[p..] == [];
  }

  /** _prepare_pairwise_data: for each record, for each pair with both
      answers, append the original and the swapped item. */
  method PreparePairwiseData(records: seq<ResponseRecord>, endpointNames: seq<string>)
    returns (dataset: seq<PairwiseItem>, names: seq<string>)
    ensures names == endpointNames
    ensures dataset == Dataset(records, Pairs(endpointNames))
  {
    names := endpointNames;
    var pairs := Pairs(endpointNames);
    dataset := [];
    var k := 0;
    assert records[0..] == records;
    while k < |records|
      invariant 0 <= k <= |records|
      invariant dataset + Dataset(records[k..], pairs) == Dataset(records, pairs)
    {
      DatasetStep(records, pairs, k);
      dataset := AppendRecordItems(dataset, records[k], pairs);
      k := k + 1;
    }
    assert records[k..] == [];
  }

  // ---------------------------------------------------------------------
  // Comparison details

  /** The detail one judged item yields, if any: GraderError results and
      results without a score are skipped. */
  function DetailOf(item: PairwiseItem, result: GraderResult): Option<ComparisonDetail> {
    if result.GraderScore? then
      Some(ComparisonDetail(item.instruction, item.modelA, item.modelB, item.responseA, item.responseB,
                            if result.score >= 0.5 then "model_a" else "model_b",
                            result.score, result.reason, item.order))
    else None
  }

  /** The details of `zip(dataset, results)`. */
  function Details(dataset: seq<PairwiseItem>, results: seq<GraderResult>): seq<ComparisonDetail> {
    if |dataset| == 0 || |results| == 0 then []
    else
      var rest := Details(dataset[1..], results[1..]);
      match DetailOf(dataset[0], results[0])
      case Some(d) => [d] + rest
      case None => rest
  }

  /** The number of scored results among the first min(|dataset|, |results|). */
  function ScoredCount(dataset: seq<PairwiseItem>, results: seq<GraderResult>): nat {
    if |dataset| == 0 || |results| == 0 then 0
    else (if results[0].GraderScore? then 1 else 0) + ScoredCount(dataset[1..], results[1..])
  }

  /** One detail per scored result; the winner is model_a exactly when the
      score is at least 0.5, model_b otherwise; every detail comes from a
      scored dataset item. */
  lemma {:induction false} DetailsFacts(dataset: seq<PairwiseItem>, results: seq<GraderResult>)
    ensures |Details(dataset, results)| == ScoredCount(dataset, results)
    ensures forall d :: d in Details(dataset, results) ==>
              (d.winner == "model_a" <==> d.score >= 0.5) && (d.winner == "model_a" || d.winner == "model_b")
    ensures forall d :: d in Details(dataset, results) ==>
              exists i :: 0 <= i < |dataset| && i < |results| && results[i].GraderScore? &&
                d.modelA == dataset[i].modelA && d.modelB == dataset[i].modelB && d.score == results[i].score
  {
    if |dataset| > 0 && |results| > 0 {
      DetailsFacts(dataset[1..], results[1..]);
      forall d | d in Details(dataset[1..], results[1..])
        ensures exists i :: 0 <= i < |dataset| && i < |results| && results[i].GraderScore? &&
                  d.modelA == dataset[i].modelA && d.modelB == dataset[i].modelB && d.score == results[i].score
      {
        var i :| 0 <= i < |dataset[1..]| && i < |results[1..]| && results[1..][i].GraderScore? &&
                 d.modelA == dataset[1..][i].modelA && d.modelB == dataset[1..][i].modelB && d.score == results[1..][i].score;
        assert dataset[i + 1] == dataset[1..][i] && results[i + 1] == results[1..][i];
      }
    }
  }

  /** The detail loop of _run_pairwise_evaluation. */
  method CollectDetails(dataset: seq<PairwiseItem>, results: seq<GraderResult>) returns (details: seq<ComparisonDetail>)
    ensures details == Details(dataset, results)
  {
    details := [];
    var n := MinInt(|dataset|, |results|);
    var k := 0;
    while k < n
      invariant 0 <= k <= n
      invariant details + Details(dataset[k..], results[k..]) == Details(dataset, results)
    {
      assert dataset[k..][1..] == dataset[k + 1..] && results[k..][1..] == results[k + 1..];
      var d := DetailOf(dataset[k], results[k]);
      if d.Some? {
        details := details + [d.value];
      }
      k := k + 1;
    }
  }

  // ---------------------------------------------------------------------
  // evaluate

  /** Which of the oracles a run called. */
  datatype OracleCalls = OracleCalls(generatedQueries: bool, collectedResponses: bool, generatedRubrics: bool)

  /** What a successful run hands to the analysis (which is not modelled). */
  datatype EvaluationRun = EvaluationRun(dataset: seq<PairwiseItem>, graderResults: seq<GraderResult>)

  /** The checkpoint a run resumes from. */
  function ResumedFrom(resume: bool, file: CheckpointFile): Option<CheckpointData> {
    if resume && file.Saved? then Some(file.data) else None
  }

  predicate ReachedStage(cp: Option<CheckpointData>, s: EvaluationStage) {
    cp.Some? && cp.value.stage.Ge(s)
  }

  const NoQueriesError := "No queries available. Run generate_queries() first."
  const NoPairsError := "No valid comparison pairs. Check if responses were collected successfully."

  class Pipeline {
    const endpointNames: seq<string>
    const resume: bool
    const mgr: CheckpointManager
    var queries: seq<string>
    var responses: seq<ResponseRecord>
    var rubrics: seq<string>
    var comparisonDetails: seq<ComparisonDetail>

    constructor (endpointNames: seq<string>, resume: bool, mgr: CheckpointManager)
      ensures this.endpointNames == endpointNames && this.resume == resume && this.mgr == mgr
      ensures queries == [] && responses == [] && rubrics == [] && comparisonDetails == []
    {
      this.endpointNames := endpointNames;
      this.resume := resume;
      this.mgr := mgr;
      queries := [];
      responses := [];
      rubrics := [];
      comparisonDetails := [];
    }

    /** Step 1: provided queries, else the checkpointed ones, else (when
        none are held) generated ones, saved and checkpointed. */
    method ObtainQueries(provided: seq<string>, cp: Option<CheckpointData>, generateQueries: seq<string>)
      returns (generated: bool)
      modifies this`queries, mgr
      ensures |provided| > 0 ==> queries == provided
      ensures |provided| == 0 && ReachedStage(cp, QueriesGenerated) ==> queries == old(mgr.LoadQueries())
      ensures generated <==> |provided| == 0 && !ReachedStage(cp, QueriesGenerated) && old(queries) == []
      ensures !generated && |provided| == 0 && !ReachedStage(cp, QueriesGenerated) ==> queries == old(queries)
      ensures generated ==> queries == generateQueries && mgr.queriesFile == Some(queries) &&
                            mgr.checkpoint.Some? && mgr.checkpoint.value.stage == QueriesGenerated &&
                            mgr.checkpoint.value.totalQueries == |queries|
      ensures !generated ==> mgr.checkpoint == old(mgr.checkpoint) && mgr.checkpointFile == old(mgr.checkpointFile)
      ensures mgr.responsesFile == old(mgr.responsesFile) && mgr.rubricsFile == old(mgr.rubricsFile)
      ensures mgr.detailsFile == old(mgr.detailsFile)
    {
      generated := false;
      if |provided| > 0 {
        queries := provided;
      } else if ReachedStage(cp, QueriesGenerated) {
        queries := mgr.LoadQueries();
      } else if |queries| == 0 {
        queries := generateQueries;
        generated := true;
        var path := mgr.SaveQueries(queries);
        ApplyTwoUpdates(mgr.checkpoint.GetOr(DefaultCheckpoint()).(stage := QueriesGenerated), TotalQueries(|queries|), QueriesFile(path));
        mgr.UpdateStage(QueriesGenerated, [TotalQueries(|queries|), QueriesFile(path)]);
      }
    }

    /** Step 2: the checkpointed responses, else (when none are held) the
        collected ones, saved and checkpointed; collecting needs queries. */
    method ObtainResponses(cp: Option<CheckpointData>, collectResponses: seq<string> -> seq<ResponseRecord>)
      returns (collected: bool, ok: bool)
      modifies this`responses, mgr
      ensures ReachedStage(cp, ResponsesCollected) ==> ok && responses == old(mgr.LoadResponses())
      ensures !ok <==> !ReachedStage(cp, ResponsesCollected) && old(responses) == [] && queries == []
      ensures collected <==> ok && !ReachedStage(cp, ResponsesCollected) && old(responses) == []
      ensures !collected && !ReachedStage(cp, ResponsesCollected) ==> responses == old(responses)
      ensures collected ==> responses == collectResponses(queries) && mgr.responsesFile == Some(responses) &&
                            mgr.checkpoint.Some? && mgr.checkpoint.value.stage == ResponsesCollected &&
                            mgr.checkpoint.value.collectedResponses == |responses|
      ensures !collected ==> mgr.checkpoint == old(mgr.checkpoint) && mgr.checkpointFile == old(mgr.checkpointFile)
      ensures !collected ==> mgr.responsesFile == old(mgr.responsesFile)
      ensures mgr.queriesFile == old(mgr.queriesFile) && mgr.rubricsFile == old(mgr.rubricsFile)
      ensures mgr.detailsFile == old(mgr.detailsFile)
    {
      collected, ok := false, true;
      if ReachedStage(cp, ResponsesCollected) {
        responses := mgr.LoadResponses();
      } else if |responses| == 0 {
        if |queries| == 0 {
          ok := false;
          return;
        }
        responses := collectResponses(queries);
        collected := true;
        var path := mgr.SaveResponses(responses);
        ApplyTwoUpdates(mgr.checkpoint.GetOr(DefaultCheckpoint()).(stage := ResponsesCollected), CollectedResponses(|responses|), ResponsesFile(path));
        mgr.UpdateStage(ResponsesCollected, [CollectedResponses(|responses|), ResponsesFile(path)]);
      }
    }

    /** Step 3: provided rubrics, else the checkpointed ones, else (when
        none are held) rubrics generated from at most five sample queries. */
    method ObtainRubrics(provided: seq<string>, cp: Option<CheckpointData>, generateRubrics: seq<string> -> seq<string>)
      returns (generated: bool)
      modifies this`rubrics, mgr
      ensures |provided| > 0 ==> rubrics == provided
      ensures |provided| == 0 && ReachedStage(cp, RubricsGenerated) ==> rubrics == old(mgr.LoadRubrics())
      ensures generated <==> |provided| == 0 && !ReachedStage(cp, RubricsGenerated) && old(rubrics) == []
      ensures generated ==> rubrics == generateRubrics(Prefix(queries, 5)) && mgr.rubricsFile == Some(rubrics) &&
                            mgr.checkpoint.Some? && mgr.checkpoint.value.stage == RubricsGenerated
      ensures mgr.queriesFile == old(mgr.queriesFile) && mgr.responsesFile == old(mgr.responsesFile)
      ensures mgr.detailsFile == old(mgr.detailsFile)
    {
      generated := false;
      if |provided| > 0 {
        rubrics := provided;
      } else if ReachedStage(cp, RubricsGenerated) {
        rubrics := mgr.LoadRubrics();
      } else if |rubrics| == 0 {
        rubrics := generateRubrics(Prefix(queries, 5));
        generated := true;
        var path := mgr.SaveRubrics(rubrics);
        mgr.UpdateStage(RubricsGenerated, [RubricsFile(path)]);
      }
    }

    /** evaluate: resume what the checkpoint already holds, produce the rest
        with the oracles, build the pairwise dataset, judge every item and
        record the run as complete. The analysis of the judged items is not
        part of this model. */
    method Evaluate(providedQueries: seq<string>, providedRubrics: seq<string>,
                    generateQueries: seq<string>,
                    collectResponses: seq<string> -> seq<ResponseRecord>,
                    generateRubrics: seq<string> -> seq<string>,
                    judge: PairwiseItem -> GraderResult)
      returns (r: Result<EvaluationRun>, calls: OracleCalls)
      modifies this, mgr
      // Step 1: provided queries win; a checkpoint past query generation is reloaded.
      ensures |providedQueries| > 0 ==> queries == providedQueries && !calls.generatedQueries
      ensures |providedQueries| == 0 && ReachedStage(ResumedFrom(resume, old(mgr.checkpointFile)), QueriesGenerated) ==>
                !calls.generatedQueries && queries == old(mgr.LoadQueries())
      ensures calls.generatedQueries ==> |providedQueries| == 0 && old(queries) == [] && queries == generateQueries
      // Step 2: a checkpoint past response collection is reloaded.
      ensures ReachedStage(ResumedFrom(resume, old(mgr.checkpointFile)), ResponsesCollected) ==>
                !calls.collectedResponses && responses == old(mgr.LoadResponses())
      ensures calls.collectedResponses ==> old(responses) == [] && |queries| > 0 && responses == collectResponses(queries)
      // Collecting responses without queries is an error.
      ensures r == Err(NoQueriesError) <==>
                !ReachedStage(ResumedFrom(resume, old(mgr.checkpointFile)), ResponsesCollected) && old(responses) == [] && queries == []
      // Step 3: provided rubrics win; a checkpoint past rubric generation is reloaded.
      ensures r != Err(NoQueriesError) && |providedRubrics| > 0 ==> rubrics == providedRubrics && !calls.generatedRubrics
      ensures r != Err(NoQueriesError) && |providedRubrics| == 0 &&
              ReachedStage(ResumedFrom(resume, old(mgr.checkpointFile)), RubricsGenerated) ==>
                !calls.generatedRubrics && rubrics == old(mgr.LoadRubrics())
      // Step 4: an empty dataset is an error; otherwise every item is judged once.
      ensures r.Err? ==> r == Err(NoQueriesError) || (r == Err(NoPairsError) && Dataset(responses, Pairs(endpointNames)) == [])
      ensures r != Err(NoQueriesError) && Dataset(responses, Pairs(endpointNames)) == [] ==> r == Err(NoPairsError)
      ensures r.Ok? ==> r.value.dataset == Dataset(responses, Pairs(endpointNames)) && |r.value.dataset| > 0
      ensures r.Ok? ==> |r.value.graderResults| == |r.value.dataset| &&
                        forall i :: 0 <= i < |r.value.dataset| ==> r.value.graderResults[i] == judge(r.value.dataset[i])
      ensures r.Ok? ==> comparisonDetails == Details(r.value.dataset, r.value.graderResults) &&
                        mgr.detailsFile == Some(comparisonDetails)
      // The run ends recorded as complete, with its counts.
      ensures r.Ok? ==> mgr.checkpoint.Some? && mgr.checkpointFile == Saved(mgr.checkpoint.value) &&
                        mgr.checkpoint.value.stage == EvaluationComplete &&
                        mgr.checkpoint.value.totalPairs == |r.value.dataset| &&
                        mgr.checkpoint.value.evaluatedPairs == |r.value.graderResults|
    {
      calls := OracleCalls(false, false, false);
      var cp: Option<CheckpointData> := None;
      if resume {
        cp := mgr.Load();
      }
      assert cp == ResumedFrom(resume, old(mgr.checkpointFile));

      var genQ := ObtainQueries(providedQueries, cp, generateQueries);
      var collected, ok := ObtainResponses(cp, collectResponses);
      calls := OracleCalls(genQ, collected, false);
      if !ok {
        r := Err(NoQueriesError);
        return;
      }
      var genR := ObtainRubrics(providedRubrics, cp, generateRubrics);
      calls := calls.(generatedRubrics := genR);

      var dataset, names := PreparePairwiseData(responses, endpointNames);
      if |dataset| == 0 {
        r := Err(NoPairsError);
        return;
      }
      var run := JudgeAll(dataset, judge);
      r := Ok(run);
    }

    /** Step 4 on a non-empty dataset: judge every item, keep the details
        of the scored ones, save them and record the run as complete. */
    method JudgeAll(dataset: seq<PairwiseItem>, judge: PairwiseItem -> GraderResult) returns (run: EvaluationRun)
      modifies this`comparisonDetails, mgr
      ensures run.dataset == dataset
      ensures |run.graderResults| == |dataset| &&
              forall i :: 0 <= i < |dataset| ==> run.graderResults[i] == judge(dataset[i])
      ensures comparisonDetails == Details(dataset, run.graderResults) && mgr.detailsFile == Some(comparisonDetails)
      ensures mgr.checkpoint.Some? && mgr.checkpointFile == Saved(mgr.checkpoint.value) &&
              mgr.checkpoint.value.stage == EvaluationComplete &&
              mgr.checkpoint.value.totalPairs == |dataset| &&
              mgr.checkpoint.value.evaluatedPairs == |run.graderResults|
    {
      var graderResults := seq(|dataset|, i requires 0 <= i < |dataset| => judge(dataset[i]));
      comparisonDetails := CollectDetails(dataset, graderResults);
      mgr.SaveComparisonDetails(comparisonDetails);
      ApplyTwoUpdates(mgr.checkpoint.GetOr(DefaultCheckpoint()).(stage := EvaluationComplete), TotalPairs(|dataset|), EvaluatedPairs(|graderResults|));
      mgr.UpdateStage(EvaluationComplete, [TotalPairs(|dataset|), EvaluatedPairs(|graderResults|)]);
      run := EvaluationRun(dataset, graderResults);
    }
  }
}
