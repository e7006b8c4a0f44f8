/** The paper-review history of the studio: one record per finished
    review, stored as its own file under the task id, and an index of the
    newest reviews (at most 100) that listing, deletion and the summary
    statistics read.

    The history directory is an in-memory store: `entryFiles` maps a task
    id to the JSON its file holds, or to None when the file cannot be read
    or parsed; the index file is absent, corrupt or a list of index
    items. Task ids and timestamps are parameters. */
module ReviewHistory {
  import opened Common
  import opened JsonValue
  import opened ReviewSchema
  import opened ReviewRunner

  /** One history record. */
  datatype HistoryEntry = HistoryEntry(
    taskId: string,
    paperName: string,
    createdAt: string,
    success: bool,
    elapsedSeconds: real,
    reviewScore: Option<int>,
    correctnessScore: Option<int>,
    report: Option<string>,
    error: Option<string>,
    metadata: map<string, Json>)

  /** from_task_result: the record of a review, under the given task id or,
      when none (or an empty one) is given, under a fresh id. The review
      score is copied and the correctness score is stored inverted
      (4 - score), each None when the review has no such result. */
  function FromTaskResult(result: ReviewTaskResult, taskId: Option<string>, freshId: string, now: string): (e: HistoryEntry)
    ensures e.taskId == (if taskId.Some? && taskId.value != "" then taskId.value else freshId)
    ensures e.paperName == result.paperName && e.success == result.success && e.createdAt == now
    ensures e.elapsedSeconds == result.elapsedSeconds && e.report == result.report && e.error == result.error
    ensures e.reviewScore.Some? <==> result.result.Some? && result.result.value.review.Some?
    ensures e.reviewScore.Some? ==> e.reviewScore.value == result.result.value.review.value.score
    ensures e.correctnessScore.Some? <==> result.result.Some? && result.result.value.correctness.Some?
    ensures e.correctnessScore.Some? ==> e.correctnessScore.value + result.result.value.correctness.value.score == 4
    ensures e.metadata == map[]
  {
    var review := if result.result.Some? && result.result.value.review.Some? then Some(result.result.value.review.value.score) else None;
    var correctness := if result.result.Some? && result.result.value.correctness.Some? then Some(4 - result.result.value.correctness.value.score) else None;
    HistoryEntry(
      if taskId.Some? && taskId.value != "" then taskId.value else freshId,
      result.paperName, now, result.success, result.elapsedSeconds,
      review, correctness, result.report, result.error, map[])
  }

  /** A correctness score on the pipeline's 1..3 scale (1 best) is stored on
      the same scale turned around (3 best). */
  lemma CorrectnessInverted(result: ReviewTaskResult, taskId: Option<string>, freshId: string, now: string)
    requires result.result.Some? && result.result.value.correctness.Some?
    requires 1 <= result.result.value.correctness.value.score <= 3
    ensures var e := FromTaskResult(result, taskId, freshId, now);
      e.correctnessScore.Some? && 1 <= e.correctnessScore.value <= 3
  {
  }

  // ---------------------------------------------------------------------
  // The record as a JSON object

  function OptStr(s: Option<string>): Json {
    if s.Some? then JStr(s.value) else JNull
  }

  function OptInt(i: Option<int>): Json {
    if i.Some? then JNum(i.value as real) else JNull
  }

  /** The dataclass's field names, which `cls(**data)` accepts. */
  const FieldNames: set<string> := {"task_id", "paper_name", "created_at", "success", "elapsed_seconds",
    "review_score", "correctness_score", "report", "error", "metadata"}

  /** The fields without a default, which `cls(**data)` requires. */
  const RequiredNames: set<string> := {"task_id", "paper_name", "created_at", "success", "elapsed_seconds"}

  /** to_dict: one key per field. */
  function ToDict(e: HistoryEntry): (j: Json)
    ensures j.JObj? && j.fields.Keys == FieldNames
  {
    JObj(map[
      "task_id" := JStr(e.taskId),
      "paper_name" := JStr(e.paperName),
      "created_at" := JStr(e.createdAt),
      "success" := JBool(e.success),
      "elapsed_seconds" := JNum(e.elapsedSeconds),
      "review_score" := OptInt(e.reviewScore),
      "correctness_score" := OptInt(e.correctnessScore),
      "report" := OptStr(e.report),
      "error" := OptStr(e.error),
      "metadata" := JObj(e.metadata)])
  }

  function AsStr(j: Json): Result<string> {
    if j.JStr? then Ok(j.s) else Err("TypeError")
  }

  function AsOptStr(m: map<string, Json>, key: string): Result<Option<string>> {
    if key !in m || m[key].JNull? then Ok(None)
    else if m[key].JStr? then Ok(Some(m[key].s))
    else Err("TypeError")
  }

  function AsOptInt(m: map<string, Json>, key: string): Result<Option<int>> {
    if key !in m || m[key].JNull? then Ok(None)
    else if m[key].JNum? && m[key].n == m[key].n.Floor as real then Ok(Some(m[key].n.Floor))
    else Err("TypeError")
  }

  /** from_dict: `cls(**data)`. An unknown or a missing required key raises
      TypeError; an absent optional field takes its default. */
  function FromDict(j: Json): (r: Result<HistoryEntry>)
    ensures r.Ok? ==> j.JObj? && RequiredNames <= j.fields.Keys <= FieldNames
    ensures r.Err? ==> r.msg == "TypeError"
  {
    if !j.JObj? || !(j.fields.Keys <= FieldNames) || !(RequiredNames <= j.fields.Keys) then Err("TypeError")
    else
      var m := j.fields;
      var id := AsStr(m["task_id"]);
      var name := AsStr(m["paper_name"]);
      var created := AsStr(m["created_at"]);
      var review := AsOptInt(m, "review_score");
      var correctness := AsOptInt(m, "correctness_score");
      var report := AsOptStr(m, "report");
      var error := AsOptStr(m, "error");
      if id.Err? || name.Err? || created.Err? || !m["success"].JBool? || !m["elapsed_seconds"].JNum?
        || review.Err? || correctness.Err? || report.Err? || error.Err?
        || ("metadata" in m && !m["metadata"].JObj?)
      then Err("TypeError")
      else
        Ok(HistoryEntry(id.value, name.value, created.value, m["success"].b, m["elapsed_seconds"].n,
          review.value, correctness.value, report.value, error.value,
          if "metadata" in m then m["metadata"].fields else map[]))
  }

  /** from_dict(to_dict(e)) gives back e. */
  lemma DictRoundTrip(e: HistoryEntry)
    ensures FromDict(ToDict(e)) == Ok(e)
  {
    var m := ToDict(e).fields;
    assert AsOptInt(m, "review_score") == Ok(e.reviewScore) by {
      if e.reviewScore.Some? { assert (e.reviewScore.value as real).Floor == e.reviewScore.value; }
    }
    assert AsOptInt(m, "correctness_score") == Ok(e.correctnessScore) by {
      if e.correctnessScore.Some? { assert (e.correctnessScore.value as real).Floor == e.correctnessScore.value; }
    }
  }

  // ---------------------------------------------------------------------
  // The index

  /** What the index keeps of a record. */
  datatype IndexItem = IndexItem(taskId: string, paperName: string, createdAt: string, success: bool, reviewScore: Option<int>)

  datatype IndexFile = Absent | Corrupt | Items(items: seq<IndexItem>)

  function ItemOf(e: HistoryEntry): IndexItem {
    IndexItem(e.taskId, e.paperName, e.createdAt, e.success, e.reviewScore)
  }

  /** The ids an index lists. */
  function Ids(items: seq<IndexItem>): (ids: set<string>)
    ensures forall id :: id in ids <==> exists k :: 0 <= k < |items| && items[k].taskId == id
  {
    set k | 0 <= k < |items| :: items[k].taskId
  }

  /** The index without the items of one id, order kept. */
  function WithoutId(items: seq<IndexItem>, id: string): (r: seq<IndexItem>)
    ensures |r| <= |items|
    ensures forall x :: x in r <==> x in items && x.taskId != id
    ensures |r| < |items| <==> id in Ids(items)
  {
    if |items| == 0 then []
    else
      var rest := WithoutId(items[..|items| - 1], id);
      var last := items[|items| - 1];
      assert items == items[..|items| - 1] + [last];
      var r := rest + (if last.taskId == id then [] else [last]);
      assert id in Ids(items) <==> id in Ids(items[..|items| - 1]) || last.taskId == id by {
        if id in Ids(items) {
          var k :| 0 <= k < |items| && items[k].taskId == id;
          if k < |items| - 1 { assert items[..|items| - 1][k] == items[k]; }
        }
        if id in Ids(items[..|items| - 1]) {
          var k :| 0 <= k < |items| - 1 && items[..|items| - 1][k].taskId == id;
          assert items[k].taskId == id;
        }
      }
      r
  }

  /** What `get` makes of a record file: Ok(None) when the file is missing
      or cannot be read or parsed (the errors `get` catches), the TypeError
      of from_dict when its JSON is not a record (`get` does not catch it),
      and the record otherwise. */
  function Load(files: map<string, Option<Json>>, taskId: string): Result<Option<HistoryEntry>> {
    if taskId !in files || files[taskId].None? then Ok(None)
    else match FromDict(files[taskId].value)
      case Err(msg) => Err(msg)
      case Ok(e) => Ok(Some(e))
  }

  /** One more index item adds its record, or raises its TypeError. */
  lemma PresentStep(items: seq<IndexItem>, x: IndexItem, files: map<string, Option<Json>>, found: seq<HistoryEntry>)
    requires Present(items, files) == Ok(found)
    ensures Load(files, x.taskId).Err? ==> Present(items + [x], files) == Err(Load(files, x.taskId).msg)
    ensures Load(files, x.taskId).Ok? ==>
      Present(items + [x], files) == Ok(found + (if Load(files, x.taskId).value.Some? then [Load(files, x.taskId).value.value] else []))
  {
    assert (items + [x])[..|items|] == items;
  }

  /** An index item whose file is not a record makes the whole loop raise. */
  lemma PresentRaises(items: seq<IndexItem>, k: nat, files: map<string, Option<Json>>)
    requires k < |items| && Load(files, items[k].taskId).Err?
    ensures Present(items, files) == Err("TypeError")
  {
  }

  /** A record save writes reads back as that record. */
  lemma SavedReadsBack(files: map<string, Option<Json>>, e: HistoryEntry)
    ensures Load(files[e.taskId := Some(ToDict(e))], e.taskId) == Ok(Some(e))
  {
    DictRoundTrip(e);
  }

  /** The loop of list_all: the records the listed index items point to,
      skipping missing or unreadable files, in index order; a file that is
      not a record raises its TypeError out of the loop. */
  function Present(items: seq<IndexItem>, files: map<string, Option<Json>>): (r: Result<seq<HistoryEntry>>)
    ensures r.Err? <==> exists k :: 0 <= k < |items| && Load(files, items[k].taskId).Err?
    ensures r.Err? ==> r.msg == "TypeError"
    ensures r.Ok? ==> |r.value| <= |items|
    ensures r.Ok? ==> forall e :: e in r.value ==> exists k :: 0 <= k < |items| && Load(files, items[k].taskId) == Ok(Some(e))
  {
    if |items| == 0 then Ok([])
    else
      var init := items[..|items| - 1];
      var last := items[|items| - 1];
      assert forall k :: 0 <= k < |init| ==> init[k] == items[k];
      match Present(init, files)
      case Err(msg) => Err(msg)
      case Ok(rest) =>
        match Load(files, last.taskId)
        case Err(msg) => Err(msg)
        case Ok(e) =>
          assert forall k :: 0 <= k < |items| ==> k < |init| || items[k] == last;
          Ok(rest + (if e.Some? then [e.value] else []))
  }

  /** The summary statistics; an average is None when no record has that score. */
  datatype SummaryStats = SummaryStats(total: nat, success: nat, failed: nat, avgReview: Option<real>, avgCorrectness: Option<real>)

  function ReviewScores(es: seq<HistoryEntry>): (s: seq<int>)
    ensures |s| <= |es|
  {
    if |es| == 0 then []
    else ReviewScores(es[..|es| - 1]) + (if es[|es| - 1].reviewScore.Some? then [es[|es| - 1].reviewScore.value] else [])
  }

  function CorrectnessScores(es: seq<HistoryEntry>): (s: seq<int>)
    ensures |s| <= |es|
  {
    if |es| == 0 then []
    else CorrectnessScores(es[..|es| - 1]) + (if es[|es| - 1].correctnessScore.Some? then [es[|es| - 1].correctnessScore.value] else [])
  }

  function Sum(xs: seq<int>): int {
    if |xs| == 0 then 0 else Sum(xs[..|xs| - 1]) + xs[|xs| - 1]
  }

  function Mean(xs: seq<int>): Option<real> {
    if |xs| == 0 then None else Some(Sum(xs) as real / |xs| as real)
  }

  predicate EntrySucceeded(e: HistoryEntry) { e.success }
  predicate EntryFailed(e: HistoryEntry) { !e.success }

  function StatsOf(es: seq<HistoryEntry>): SummaryStats {
    if |es| == 0 then SummaryStats(0, 0, 0, None, None)
    else
      var success := CountWhere(es, EntrySucceeded);
      SummaryStats(|es|, success, |es| - success, Mean(ReviewScores(es)), Mean(CorrectnessScores(es)))
  }

  lemma {:induction false} SumBounds(xs: seq<int>, lo: int, hi: int)
    requires forall i :: 0 <= i < |xs| ==> lo <= xs[i] <= hi
    ensures |xs| * lo <= Sum(xs) <= |xs| * hi
  {
    if |xs| > 0 {
      var n := |xs| - 1;
      SumBounds(xs[..n], lo, hi);
      MulSucc(n, lo);
      MulSucc(n, hi);
    }
  }

  lemma MulSucc(n: int, a: int)
    ensures (n + 1) * a == n * a + a
  {
  }

  /** A mean of values in [lo, hi] lies in [lo, hi]. */
  lemma MeanBounds(xs: seq<int>, lo: int, hi: int)
    requires |xs| > 0 && forall i :: 0 <= i < |xs| ==> lo <= xs[i] <= hi
    ensures lo as real <= Mean(xs).value <= hi as real
  {
    SumBounds(xs, lo, hi);
    DivBounds(Sum(xs) as real, |xs| as real, lo as real, hi as real);
  }

  lemma DivBounds(s: real, n: real, a: real, b: real)
    requires n > 0.0 && n * a <= s <= n * b
    ensures a <= s / n <= b
  {
    var q := s / n;
    assert q * n == s;
    if q < a {
      MulLess(q, a, n);
    }
    if q > b {
      MulLess(b, q, n);
    }
  }

  lemma MulLess(x: real, y: real, n: real)
    requires n > 0.0 && x < y
    ensures x * n < y * n
  {
  }

  lemma {:induction false} ReviewScoresOf(es: seq<HistoryEntry>)
    ensures forall x :: x in ReviewScores(es) ==> exists k :: 0 <= k < |es| && es[k].reviewScore == Some(x)
    ensures ReviewScores(es) == [] <==> forall k :: 0 <= k < |es| ==> es[k].reviewScore.None?
  {
    if |es| > 0 {
      var init := es[..|es| - 1];
      ReviewScoresOf(init);
      forall x | x in ReviewScores(es) ensures exists k :: 0 <= k < |es| && es[k].reviewScore == Some(x) {
        if x in ReviewScores(init) {
          var k :| 0 <= k < |init| && init[k].reviewScore == Some(x);
          assert es[k] == init[k];
        }
      }
      if ReviewScores(es) == [] {
        forall k | 0 <= k < |es| ensures es[k].reviewScore.None? {
          if k < |init| { assert es[k] == init[k]; }
        }
      }
    }
  }

  /** The summary: successes and failures add up to the records listed; the
      average review score exists iff some record has one, and lies within
      the bounds every present score keeps. */
  lemma StatsFacts(es: seq<HistoryEntry>, lo: int, hi: int)
    requires forall k :: 0 <= k < |es| && es[k].reviewScore.Some? ==> lo <= es[k].reviewScore.value <= hi
    ensures StatsOf(es).total == |es| && StatsOf(es).success + StatsOf(es).failed == |es|
    ensures StatsOf(es).success == CountWhere(es, EntrySucceeded)
    ensures StatsOf(es).avgReview.Some? <==> exists k :: 0 <= k < |es| && es[k].reviewScore.Some?
    ensures StatsOf(es).avgReview.Some? ==> lo as real <= StatsOf(es).avgReview.value <= hi as real
  {
    ReviewScoresOf(es);
    if |es| > 0 {
      var xs := ReviewScores(es);
      if |xs| > 0 {
        forall i | 0 <= i < |xs| ensures lo <= xs[i] <= hi {
          assert xs[i] in xs;
        }
        MeanBounds(xs, lo, hi);
      }
    }
  }

  // ---------------------------------------------------------------------
  // The service

  /** The newest this many reviews stay in the index. */
  const MaxIndex: nat := 100

  class HistoryService {
    var entryFiles: map<string, Option<Json>>
    var indexFile: IndexFile

    constructor ()
      ensures entryFiles == map[] && indexFile == Absent
    {
      entryFiles := map[];
      indexFile := Absent;
    }

    /** _load_index: an absent or unreadable index reads as empty. */
    function LoadIndex(): (items: seq<IndexItem>)
      reads this
      ensures indexFile.Items? ==> items == indexFile.items
      ensures !indexFile.Items? ==> items == []
    {
      if indexFile.Items? then indexFile.items else []
    }

    /** get: the record stored under the id; None when the file is missing
        or cannot be read or parsed; from_dict's TypeError when the file's
        JSON is not a record. */
    function Get(taskId: string): (e: Result<Option<HistoryEntry>>)
      reads this
      ensures taskId !in entryFiles || entryFiles[taskId].None? ==> e == Ok(None)
      ensures taskId in entryFiles && entryFiles[taskId].Some? ==>
        (e.Err? <==> FromDict(entryFiles[taskId].value).Err?) &&
        (e.Ok? ==> e.value == Some(FromDict(entryFiles[taskId].value).value))
    {
      Load(entryFiles, taskId)
    }

    /** delete: the file goes, every index item of the id goes; true iff the
        index listed the id (the index is rewritten only then). */
    method Delete(taskId: string) returns (removed: bool)
      modifies this
      ensures entryFiles == old(entryFiles) - {taskId}
      ensures removed <==> taskId in Ids(old(LoadIndex()))
      ensures removed ==> indexFile == Items(WithoutId(old(LoadIndex()), taskId))
      ensures !removed ==> indexFile == old(indexFile)
    {
      entryFiles := entryFiles - {taskId};
      var index := LoadIndex();
      var kept := WithoutId(index, taskId);
      if |kept| < |index| {
        indexFile := Items(kept);
        return true;
      }
      return false;
    }

    /** The loop of save that deletes the records of the dropped items. */
    method DeleteAll(dropped: seq<IndexItem>)
      modifies this
      ensures entryFiles == old(entryFiles) - Ids(dropped)
    {
      var k := 0;
      while k < |dropped|
        invariant 0 <= k <= |dropped|
        invariant entryFiles == old(entryFiles) - Ids(dropped[..k])
      {
        assert Ids(dropped[..k + 1]) == Ids(dropped[..k]) + {dropped[k].taskId} by {
          assert dropped[..k + 1] == dropped[..k] + [dropped[k]];
        }
        var _ := Delete(dropped[k].taskId);
        k := k + 1;
      }
      assert dropped[..k] == dropped;
    }

    /** save: the record of the result is written under the fresh id, which
        goes to the front of the index; the index keeps its newest 100
        items and the records of the dropped ones are deleted. */
    method Save(result: ReviewTaskResult, freshId: string, now: string) returns (taskId: string)
      modifies this
      ensures taskId == freshId
      ensures var index := [ItemOf(FromTaskResult(result, Some(freshId), freshId, now))] + old(LoadIndex());
        indexFile == Items(Prefix(index, MaxIndex))
        && entryFiles == old(entryFiles)[freshId := Some(ToDict(FromTaskResult(result, Some(freshId), freshId, now)))]
                         - Ids(index[MinInt(MaxIndex, |index|)..])
    {
      taskId := freshId;
      var entry := FromTaskResult(result, Some(taskId), freshId, now);
      entryFiles := entryFiles[taskId := Some(ToDict(entry))];
      var index := [ItemOf(entry)] + LoadIndex();
      var kept := index;
      if |index| > MaxIndex {
        kept := index[..MaxIndex];
        DeleteAll(index[MaxIndex..]);
      } else {
        assert index[MinInt(MaxIndex, |index|)..] == [];
      }
      indexFile := Items(kept);
    }

    /** list_all: the readable records of the first `limit` index items, in
        index order, or the TypeError of the first that is not a record. */
    method ListAll(limit: int) returns (entries: Result<seq<HistoryEntry>>)
      ensures entries == Present(Slice(LoadIndex(), 0, limit), entryFiles)
      ensures entries.Ok? && limit >= 0 ==> |entries.value| <= limit
    {
      var items := Slice(LoadIndex(), 0, limit);
      var found: seq<HistoryEntry> := [];
      var k := 0;
      while k < |items|
        invariant 0 <= k <= |items|
        invariant Present(items[..k], entryFiles) == Ok(found)
      {
        assert items[..k + 1] == items[..k] + [items[k]];
        PresentStep(items[..k], items[k], entryFiles, found);
        var entry := Get(items[k].taskId);
        assert entry == Load(entryFiles, items[k].taskId);
        if entry.Err? {
          PresentRaises(items, k, entryFiles);
          return Err(entry.msg);
        }
        ghost var before := found;
        if entry.value.Some? {
          found := found + [entry.value.value];
        }
        assert found == before + (if entry.value.Some? then [entry.value.value] else []);
        assert Present(items[..k] + [items[k]], entryFiles) == Ok(found);
        k := k + 1;
      }
      assert items[..k] == items;
      entries := Ok(found);
    }

    /** clear_all: every listed record's file goes and the index is emptied;
        the count is the number of index items. */
    method ClearAll() returns (count: nat)
      modifies this
      ensures count == |old(LoadIndex())|
      ensures entryFiles == old(entryFiles) - Ids(old(LoadIndex()))
      ensures indexFile == Items([])
    {
      var index := LoadIndex();
      count := |index|;
      var k := 0;
      while k < |index|
        invariant 0 <= k <= |index|
        invariant entryFiles == old(entryFiles) - Ids(index[..k])
      {
        assert Ids(index[..k + 1]) == Ids(index[..k]) + {index[k].taskId} by {
          assert index[..k + 1] == index[..k] + [index[k]];
        }
        entryFiles := entryFiles - {index[k].taskId};
        k := k + 1;
      }
      assert index[..k] == index;
      indexFile := Items([]);
    }

    /** get_summary_stats: the statistics of the newest 100 listed records. */
    method GetSummaryStats() returns (stats: Result<SummaryStats>)
      ensures var listed := Present(Slice(LoadIndex(), 0, MaxIndex), entryFiles);
        (stats.Err? <==> listed.Err?) && (stats.Ok? ==> stats.value == StatsOf(listed.value))
      ensures stats.Ok? ==> stats.value.success + stats.value.failed == stats.value.total <= MaxIndex
    {
      var entries := ListAll(MaxIndex);
      if entries.Err? {
        return Err(entries.msg);
      }
      stats := Ok(StatsOf(entries.value));
      CountWhereComplement(entries.value, EntrySucceeded, EntryFailed);
    }
  }
}
