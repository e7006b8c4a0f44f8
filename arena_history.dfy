/** The Auto Arena history: the evaluation directories a workspace holds,
    read back as task summaries (with a status inferred from the checkpoint
    and the results file), listed newest first, shown in detail, exported
    and deleted.

    The directory is an in-memory map from task id to what the task's
    directory holds; JSON files arrive already decoded (`FileState`), and a
    directory's modification time and a checkpoint's creation time are
    integer timestamps. */
module ArenaHistory {
  import opened Common
  import opened Ordering
  import opened JsonValue

  const CheckpointFile := "checkpoint.json"
  const ResultsFile := "evaluation_results.json"
  const ReportFile := "evaluation_report.md"
  const ChartFile := "win_rate_chart.png"

  /** The keys of checkpoint.json the history reads. */
  datatype Checkpoint = Checkpoint(createdAt: Option<int>, stage: Option<string>, totalQueries: Option<int>)

  /** The keys of evaluation_results.json the history reads:
      config.task.description, config.target_endpoints, config.num_queries,
      result.best_pipeline, result.win_rates and result.rankings. */
  datatype ResultsDoc = ResultsDoc(
    description: Option<string>,
    targetModels: seq<string>,
    numQueries: Option<int>,
    bestPipeline: Option<string>,
    winRates: Option<seq<(string, real)>>,
    rankings: Option<seq<(string, real)>>)

  /** One entry of the evaluations directory. */
  datatype TaskDir = TaskDir(
    isDir: bool,
    mtime: int,
    checkpoint: FileState<Checkpoint>,
    results: FileState<ResultsDoc>,
    queries: FileState<Json>,
    comparison: FileState<Json>,
    report: Option<string>,
    hasChart: bool)

  datatype TaskSummary = TaskSummary(
    taskId: string,
    createdAt: int,
    description: string,
    targetModels: seq<string>,
    numQueries: int,
    status: string,
    bestModel: Option<string>,
    winRates: Option<seq<(string, real)>>)

  // ---------------------------------------------------------------------
  // Reading one task

  /** Python truthiness of an optional string. */
  predicate Named(s: Option<string>) {
    s.Some? && s.value != ""
  }

  /** The status a task shows: completed once the results name a best
      pipeline; otherwise the checkpoint's stage (its last stage read as
      completed); "in_progress" without a checkpoint. */
  function InferredStatus(ck: Option<Checkpoint>, res: Option<ResultsDoc>): (s: string)
    ensures ck.None? && res.None? ==> s == "in_progress"
    ensures res.Some? && Named(res.value.bestPipeline) ==> s == "completed"
  {
    if res.Some? && Named(res.value.bestPipeline) then "completed"
    else if ck.Some? then
      var stage := ck.value.stage.GetOr("in_progress");
      if stage == "evaluation_complete" then "completed" else stage
    else "in_progress"
  }

  /** A task reads as completed exactly when the results name a best
      pipeline or the checkpoint reached the last stage (or says completed). */
  lemma CompletedIff(ck: Option<Checkpoint>, res: Option<ResultsDoc>)
    ensures InferredStatus(ck, res) == "completed" <==>
      (res.Some? && Named(res.value.bestPipeline)) ||
      (ck.Some? && ck.value.stage.Some? && ck.value.stage.value in {"evaluation_complete", "completed"})
  {
  }

  /** The description shown for a task: its first 100 characters, or
      "Unknown task" when it is empty. */
  function Describe(d: string): (r: string)
    ensures d == "" ==> r == "Unknown task"
    ensures d != "" ==> 0 < |r| <= 100 && |r| <= |d| && d[..|r|] == r
    ensures d != "" && |d| <= 100 ==> r == d
  {
    if d == "" then "Unknown task" else d[..MinInt(100, |d|)]
  }

  /** What `_load_task_summary` yields for a directory, stated field by
      field; None when one of its JSON files cannot be read. */
  function SummaryOf(id: string, d: TaskDir): Option<TaskSummary> {
    if d.checkpoint.FileUnreadable? || d.results.FileUnreadable? then None
    else
      var ck := if d.checkpoint.FileRead? then Some(d.checkpoint.content) else None;
      var res := if d.results.FileRead? then Some(d.results.content) else None;
      var queriesFromCheckpoint := if ck.Some? then ck.value.totalQueries.GetOr(0) else 0;
      Some(TaskSummary(
        id,
        if ck.Some? then ck.value.createdAt.GetOr(d.mtime) else d.mtime,
        Describe(if res.Some? then res.value.description.GetOr("") else ""),
        if res.Some? then res.value.targetModels else [],
        if res.Some? then res.value.numQueries.GetOr(queriesFromCheckpoint) else queriesFromCheckpoint,
        InferredStatus(ck, res),
        if res.Some? then res.value.bestPipeline else None,
        if res.Some? then res.value.winRates else None))
  }

  /** `_load_task_summary`, reassigning its locals file by file as the
      source does. */
  method LoadTaskSummary(id: string, d: TaskDir) returns (r: Option<TaskSummary>)
    ensures r == SummaryOf(id, d)
    ensures r.Some? ==> r.value.taskId == id
    ensures r.Some? && d.checkpoint.FileAbsent? && d.results.FileAbsent? ==> r.value.status == "in_progress" && r.value.createdAt == d.mtime
  {
    if d.checkpoint.FileUnreadable? || d.results.FileUnreadable? {
      return None;
    }
    var createdAt := d.mtime;
    var description := "";
    var targetModels: seq<string> := [];
    var numQueries := 0;
    var status := "in_progress";
    var bestModel: Option<string> := None;
    var winRates: Option<seq<(string, real)>> := None;
    if d.checkpoint.FileRead? {
      var ck := d.checkpoint.content;
      createdAt := ck.createdAt.GetOr(createdAt);
      status := ck.stage.GetOr("in_progress");
      numQueries := ck.totalQueries.GetOr(0);
      if status == "evaluation_complete" {
        status := "completed";
      }
    }
    if d.results.FileRead? {
      var res := d.results.content;
      description := res.description.GetOr("");
      targetModels := res.targetModels;
      numQueries := res.numQueries.GetOr(numQueries);
      bestModel := res.bestPipeline;
      winRates := res.winRates;
      if Named(bestModel) {
        status := "completed";
      }
    }
    r := Some(TaskSummary(id, createdAt, Describe(description), targetModels, numQueries, status, bestModel, winRates));
  }

  // ---------------------------------------------------------------------
  // Listing

  /** The order `list_tasks` sorts by: newer first (the sort is stable, so
      equal times keep directory order). */
  predicate NewerFirst(a: TaskSummary, b: TaskSummary) {
    a.createdAt >= b.createdAt
  }

  lemma NewerFirstTotalPreorder()
    ensures TotalPreorder(NewerFirst)
  {
  }

  /** `order` lists every entry of the directory exactly once. */
  predicate Enumerates(order: seq<string>, tasks: map<string, TaskDir>) {
    (forall i, j :: 0 <= i < j < |order| ==> order[i] != order[j]) &&
    (forall n :: n in order ==> n in tasks) &&
    (forall n :: n in tasks ==> n in order)
  }

  /** The summaries of the readable directories among `order`, in that order. */
  function Summaries(order: seq<string>, tasks: map<string, TaskDir>): seq<TaskSummary>
    requires forall n :: n in order ==> n in tasks
    decreases |order|
  {
    if |order| == 0 then []
    else
      var last := order[|order| - 1];
      var s := if tasks[last].isDir then SummaryOf(last, tasks[last]) else None;
      Summaries(order[..|order| - 1], tasks) + (if s.Some? then [s.value] else [])
  }

  lemma {:induction false} SummariesMembers(order: seq<string>, tasks: map<string, TaskDir>)
    requires forall n :: n in order ==> n in tasks
    ensures forall t :: t in Summaries(order, tasks) <==>
      exists n :: n in order && tasks[n].isDir && SummaryOf(n, tasks[n]) == Some(t)
    decreases |order|
  {
    if |order| > 0 {
      var init := order[..|order| - 1];
      var last := order[|order| - 1];
      SummariesMembers(init, tasks);
      assert order == init + [last];
      forall t ensures t in Summaries(order, tasks) <==> exists n :: n in order && tasks[n].isDir && SummaryOf(n, tasks[n]) == Some(t) {
        if t in Summaries(order, tasks) && t !in Summaries(init, tasks) {
          assert last in order;
        }
        if exists n :: n in order && tasks[n].isDir && SummaryOf(n, tasks[n]) == Some(t) {
          var n :| n in order && tasks[n].isDir && SummaryOf(n, tasks[n]) == Some(t);
          if n != last {
            assert n in init;
          }
        }
      }
    }
  }

  /** `list_tasks`: newest first, cut at `limit` (a Python slice, so a
      negative limit drops entries from the end), holding only summaries of
      readable directories, each at most once per directory. */
  lemma ListFacts(order: seq<string>, tasks: map<string, TaskDir>, limit: int)
    requires Enumerates(order, tasks)
    ensures var all := SortBy(Summaries(order, tasks), NewerFirst);
      var r := Slice(all, 0, limit);
      SortedBy(r, NewerFirst) &&
      (limit >= 0 ==> |r| == MinInt(limit, |all|)) &&
      r == all[..|r|] &&
      (forall t :: t in all <==> exists n :: n in tasks && tasks[n].isDir && SummaryOf(n, tasks[n]) == Some(t)) &&
      (forall t :: t in r ==> exists n :: n in tasks && tasks[n].isDir && SummaryOf(n, tasks[n]) == Some(t))
  {
    var all := SortBy(Summaries(order, tasks), NewerFirst);
    NewerFirstTotalPreorder();
    SortBySorted(Summaries(order, tasks), NewerFirst);
    SummariesMembers(order, tasks);
    SameElements(all, Summaries(order, tasks));
    var r := Slice(all, 0, limit);
    assert r == all[..|r|];
    forall t | t in r ensures t in all {
      var k :| 0 <= k < |r| && r[k] == t;
      assert all[k] == t;
    }
  }

  // ---------------------------------------------------------------------
  // Details and export

  datatype Details = Details(
    taskId: string,
    results: Option<ResultsDoc>,
    queries: Option<Json>,
    comparison: Option<Json>,
    hasReport: bool,
    hasChart: bool)

  /** What `get_task_details` ends with: no such task, an exception from an
      undecodable file, or the details. */
  datatype DetailsOutcome = NoTask | DetailsRaised | Found(details: Details)

  /** The CSV cells `export_task` writes: a header, then one row per ranking
      numbered from 1; `pct` formats a win rate as a percentage. */
  function CsvRows(rankings: seq<(string, real)>, pct: real -> string): (rows: seq<seq<string>>)
    decreases |rankings|
    ensures |rows| == |rankings| + 1
    ensures rows[0] == ["Rank", "Model", "Win Rate"]
    ensures forall i :: 0 <= i < |rankings| ==> rows[i + 1] == [NatToString(i + 1), rankings[i].0, pct(rankings[i].1)]
  {
    if |rankings| == 0 then [["Rank", "Model", "Win Rate"]]
    else
      var n := |rankings|;
      CsvRows(rankings[..n - 1], pct) + [[NatToString(n), rankings[n - 1].0, pct(rankings[n - 1].1)]]
  }

  /** Reading a CSV row's rank cell back as an integer gives its position
      among the rankings, counted from 1. */
  lemma CsvRanksReadBack(rankings: seq<(string, real)>, pct: real -> string, j: nat)
    requires j < |rankings|
    ensures var row := CsvRows(rankings, pct)[j + 1];
      |row| == 3 && PyInt(row[0]) == Some(j + 1) && row[1] == rankings[j].0
  {
    var rows := CsvRows(rankings, pct);
    var x := rankings[j];
    assert rows[j + 1] == [NatToString(j + 1), x.0, pct(x.1)];
    PyIntPlain(j + 1);
  }

  /** What `export_task` returns: None (no task, or an unknown format), the
      details to be written as JSON, or the CSV cells. */
  datatype Export = NoExport | ExportRaised | JsonExport(details: Details) | CsvExport(rows: seq<seq<string>>)

  class ArenaHistory {
    /** The evaluations directory's path and its entries by name. */
    var baseDir: string
    var tasks: map<string, TaskDir>

    constructor (baseDir: string, tasks: map<string, TaskDir>)
      ensures this.baseDir == baseDir && this.tasks == tasks
    {
      this.baseDir := baseDir;
      this.tasks := tasks;
    }

    /** `list_tasks`: summaries of the directories in `order`, sorted
        newest first and cut at `limit`. */
    method ListTasks(order: seq<string>, limit: int) returns (r: seq<TaskSummary>)
      requires Enumerates(order, tasks)
      ensures r == Slice(SortBy(Summaries(order, tasks), NewerFirst), 0, limit)
    {
      var found: seq<TaskSummary> := [];
      var i := 0;
      while i < |order|
        invariant 0 <= i <= |order|
        invariant found == Summaries(order[..i], tasks)
      {
        assert order[..i + 1][..i] == order[..i];
        var d := tasks[order[i]];
        if d.isDir {
          var s := LoadTaskSummary(order[i], d);
          if s.Some? {
            found := found + [s.value];
          }
        }
        i := i + 1;
      }
      assert order[..i] == order;
      r := Slice(SortBy(found, NewerFirst), 0, limit);
    }

    /** `get_task_details`. */
    function GetTaskDetails(id: string): (r: DetailsOutcome)
      reads this
      ensures r == NoTask <==> id !in tasks
      ensures r == DetailsRaised <==>
        id in tasks && tasks[id].isDir && (tasks[id].results.FileUnreadable? || tasks[id].queries.FileUnreadable? || tasks[id].comparison.FileUnreadable?)
      ensures r.Found? ==> r.details.taskId == id
      ensures r.Found? && tasks[id].isDir ==>
        r.details.results == Loaded(tasks[id].results) &&
        r.details.queries == Loaded(tasks[id].queries) && r.details.comparison == Loaded(tasks[id].comparison) &&
        r.details.hasReport == tasks[id].report.Some? && r.details.hasChart == tasks[id].hasChart
    {
      if id !in tasks then NoTask
      else
        var d := tasks[id];
        if !d.isDir then Found(Details(id, None, None, None, false, false))
        else if d.results.FileUnreadable? || d.queries.FileUnreadable? || d.comparison.FileUnreadable? then DetailsRaised
        else Found(Details(id, Loaded(d.results), Loaded(d.queries), Loaded(d.comparison), d.report.Some?, d.hasChart))
    }

    /** `get_report_content`. */
    function GetReportContent(id: string): (r: Option<string>)
      reads this
      ensures r.Some? <==> id in tasks && tasks[id].isDir && tasks[id].report.Some?
      ensures r.Some? ==> r == tasks[id].report
    {
      if id in tasks && tasks[id].isDir then tasks[id].report else None
    }

    /** `get_chart_path`: the chart's path inside the task's directory. */
    function GetChartPath(id: string): (r: Option<string>)
      reads this
      ensures r.Some? <==> id in tasks && tasks[id].isDir && tasks[id].hasChart
      ensures r.Some? ==> EndsWith(r.value, "/" + id + "/" + ChartFile)
    {
      if id in tasks && tasks[id].isDir && tasks[id].hasChart then
        Some(baseDir + "/" + id + "/" + ChartFile)
      else None
    }

    /** `export_task`; `pct` formats a win rate as a percentage. */
    function ExportTask(id: string, format: string, pct: real -> string): (r: Export)
      reads this
      ensures GetTaskDetails(id) == NoTask ==> r == NoExport
      ensures format != "json" && format != "csv" ==> r == NoExport || r == ExportRaised
      ensures GetTaskDetails(id).Found? && format == "json" ==> r == JsonExport(GetTaskDetails(id).details)
      ensures GetTaskDetails(id).Found? && format == "csv" ==>
        var res := GetTaskDetails(id).details.results;
        r == CsvExport(CsvRows(if res.Some? then res.value.rankings.GetOr([]) else [], pct))
    {
      match GetTaskDetails(id)
      case NoTask => NoExport
      case DetailsRaised => ExportRaised
      case Found(details) =>
        if format == "json" then JsonExport(details)
        else if format == "csv" then
          CsvExport(CsvRows(if details.results.Some? then details.results.value.rankings.GetOr([]) else [], pct))
        else NoExport
    }

    /** `delete_task`; `removalFails` stands for an error while removing the
        directory tree. */
    method DeleteTask(id: string, removalFails: bool) returns (r: bool)
      modifies this
      ensures r <==> id in old(tasks) && !removalFails
      ensures tasks == if r then old(tasks) - {id} else old(tasks)
      ensures baseDir == old(baseDir)
    {
      if id !in tasks || removalFails {
        return false;
      }
      tasks := tasks - {id};
      r := true;
    }
  }
}
