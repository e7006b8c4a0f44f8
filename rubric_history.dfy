/** The Auto Rubric history: one directory per generated grader, holding
    the generation settings (config.json), the rubric text (rubrics.txt)
    and the exported grader (grader.json); saved, listed newest first,
    shown in detail, deleted, and its rubric text counted.

    The rubrics directory is an in-memory map from task id to what the
    task's directory holds; JSON files arrive already decoded
    (`FileState`), and the clock is a parameter: a broken-down local time
    for the task id and an ISO 8601 text for `created_at`. */
module RubricHistory {
  import opened Common
  import opened Ordering
  import opened JsonValue

  const ConfigFile := "config.json"
  const RubricsFile := "rubrics.txt"
  const GraderFile := "grader.json"

  // ---------------------------------------------------------------------
  // Task ids

  /** A local time as `datetime.now()` breaks it down. */
  datatype Stamp = Stamp(year: nat, month: nat, day: nat, hour: nat, minute: nat, second: nat)

  /** The ranges a `datetime` keeps its fields in. */
  predicate ValidStamp(t: Stamp) {
    1 <= t.year <= 9999 && 1 <= t.month <= 12 && 1 <= t.day <= 31 &&
    t.hour < 24 && t.minute < 60 && t.second < 60
  }

  /** A field below 100 as two digits ("%m", "%d", "%H", "%M", "%S"). */
  function TwoDigits(n: nat): (r: string)
    requires n < 100
    ensures |r| == 2 && IsDigit(r[0]) && IsDigit(r[1])
  {
    [DigitChar(n / 10), DigitChar(n % 10)]
  }

  /** Different fields give different digits. */
  lemma TwoDigitsInjective(a: nat, b: nat)
    requires a < 100 && b < 100 && TwoDigits(a) == TwoDigits(b)
    ensures a == b
  {
    assert TwoDigits(a)[0] == TwoDigits(b)[0] && TwoDigits(a)[1] == TwoDigits(b)[1];
    assert a / 10 == b / 10 && a % 10 == b % 10;
  }

  /** `generate_task_id`: "rubric_" followed by the time as
      "%Y%m%d_%H%M%S". */
  function TaskId(t: Stamp): (id: string)
    requires ValidStamp(t)
    ensures StartsWith(id, "rubric_")
  {
    "rubric_" + NatToString(t.year) + TwoDigits(t.month) + TwoDigits(t.day) + "_" +
      TwoDigits(t.hour) + TwoDigits(t.minute) + TwoDigits(t.second)
  }

  /** From year 1000 on, an id is 22 characters: the prefix, eight date
      digits, an underscore and six time digits. */
  lemma TaskIdShape(t: Stamp)
    requires ValidStamp(t) && t.year >= 1000
    ensures var id := TaskId(t);
      |id| == 22 && id[..7] == "rubric_" && id[15] == '_' &&
      (forall i :: 7 <= i < 22 && i != 15 ==> IsDigit(id[i]))
  {
    var y := NatToString(t.year);
    assert |y| == 4 by {
      assert NatToString(t.year / 10) == NatToString(t.year / 10 / 10) + [DigitChar(t.year / 10 % 10)];
      assert NatToString(t.year / 100) == NatToString(t.year / 100 / 10) + [DigitChar(t.year / 100 % 10)];
      assert t.year / 1000 < 10;
    }
  }

  /** From year 1000 on, each field of the time sits at a fixed place in
      the id. */
  lemma TaskIdFields(t: Stamp)
    requires ValidStamp(t) && t.year >= 1000
    ensures var id := TaskId(t);
      |id| == 22 && id[7..11] == NatToString(t.year) &&
      id[11..13] == TwoDigits(t.month) && id[13..15] == TwoDigits(t.day) &&
      id[16..18] == TwoDigits(t.hour) && id[18..20] == TwoDigits(t.minute) && id[20..22] == TwoDigits(t.second)
  {
    TaskIdShape(t);
  }

  /** Two times within the same second get the same id, and only they do:
      the id is the time. */
  lemma TaskIdInjective(a: Stamp, b: Stamp)
    requires ValidStamp(a) && ValidStamp(b)
    requires a.year >= 1000 && b.year >= 1000
    requires TaskId(a) == TaskId(b)
    ensures a == b
  {
    TaskIdFields(a);
    TaskIdFields(b);
    DigitsOfNat(a.year);
    DigitsOfNat(b.year);
    TwoDigitsInjective(a.month, b.month);
    TwoDigitsInjective(a.day, b.day);
    TwoDigitsInjective(a.hour, b.hour);
    TwoDigitsInjective(a.minute, b.minute);
    TwoDigitsInjective(a.second, b.second);
  }

  // ---------------------------------------------------------------------
  // Saving

  /** `d.get(key, default)` on a dictionary of settings. */
  function Setting(config: map<string, Json>, key: string, default: Json): (r: Json)
    ensures key in config ==> r == config[key]
    ensures key !in config ==> r == default
  {
    if key in config then config[key] else default
  }

  /** The config.json `save_grader` writes: the task's id, mode, data count
      and creation time, and the caller's settings with their defaults. */
  function ConfigData(taskId: string, config: map<string, Json>, mode: string,
                      dataCount: Option<int>, createdAt: string): (r: map<string, Json>)
    ensures r.Keys == {"task_id", "mode", "grader_name", "task_description", "grader_mode",
                       "language", "min_score", "max_score", "data_count", "created_at", "model_name"}
    ensures r["task_id"] == JStr(taskId) && r["mode"] == JStr(mode) && r["created_at"] == JStr(createdAt)
    ensures r["data_count"] == (if dataCount.Some? then JNum(dataCount.value as real) else JNull)
    ensures "grader_mode" !in config ==> r["grader_mode"] == JStr("pointwise")
    ensures "language" !in config ==> r["language"] == JStr("EN")
    ensures "min_score" !in config ==> r["min_score"] == JNum(0.0)
    ensures "max_score" !in config ==> r["max_score"] == JNum(5.0)
  {
    map[
      "task_id" := JStr(taskId),
      "mode" := JStr(mode),
      "grader_name" := Setting(config, "grader_name", JStr("")),
      "task_description" := Setting(config, "task_description", JStr("")),
      "grader_mode" := Setting(config, "grader_mode", JStr("pointwise")),
      "language" := Setting(config, "language", JStr("EN")),
      "min_score" := Setting(config, "min_score", JNum(0.0)),
      "max_score" := Setting(config, "max_score", JNum(5.0)),
      "data_count" := if dataCount.Some? then JNum(dataCount.value as real) else JNull,
      "created_at" := JStr(createdAt),
      "model_name" := Setting(config, "model_name", JStr(""))]
  }

  /** One entry of the rubrics directory: a directory (or a plain file)
      and the three files a task directory can hold. */
  datatype TaskDir = TaskDir(
    isDir: bool,
    config: FileState<Json>,
    rubrics: FileState<string>,
    grader: FileState<Json>)

  /** The directory `save_grader` leaves behind. */
  function SavedDir(taskId: string, config: map<string, Json>, rubrics: string, graderConfig: Json,
                    mode: string, dataCount: Option<int>, createdAt: string): TaskDir
  {
    TaskDir(true, FileRead(JObj(ConfigData(taskId, config, mode, dataCount, createdAt))),
            FileRead(rubrics), FileRead(graderConfig))
  }

  // ---------------------------------------------------------------------
  // Listing

  datatype TaskSummary = TaskSummary(
    taskId: string,
    graderName: Json,
    mode: Json,
    graderMode: Json,
    dataCount: Json,
    createdAt: Json,
    taskDir: string)

  /** The path of a task's directory. */
  function TaskPath(baseDir: string, id: string): string {
    baseDir + "/" + id
  }

  /** The summary `list_tasks` builds for one entry; None for an entry it
      skips: not a directory, no config.json, or a config.json that cannot
      be read or is not an object (its `.get` raises). */
  function SummaryOf(baseDir: string, id: string, d: TaskDir): (r: Option<TaskSummary>)
    ensures r.Some? <==> d.isDir && d.config.FileRead? && d.config.content.JObj?
    ensures r.Some? ==> r.value.taskId == id && r.value.taskDir == TaskPath(baseDir, id)
  {
    if !d.isDir || !d.config.FileRead? || !d.config.content.JObj? then None
    else
      var c := d.config.content.fields;
      Some(TaskSummary(id, Setting(c, "grader_name", JStr("")), Setting(c, "mode", JStr("simple")),
        Setting(c, "grader_mode", JStr("pointwise")), Setting(c, "data_count", JNull),
        Setting(c, "created_at", JStr("")), TaskPath(baseDir, id)))
  }

  /** What `save_grader` writes is what `list_tasks` reads back: the id,
      the mode and the creation time, and the saved grader's name and grading
      mode with the defaults of both sides. */
  lemma SavedSummary(baseDir: string, taskId: string, config: map<string, Json>, rubrics: string,
                     graderConfig: Json, mode: string, dataCount: Option<int>, createdAt: string)
    ensures SummaryOf(baseDir, taskId, SavedDir(taskId, config, rubrics, graderConfig, mode, dataCount, createdAt)) ==
      Some(TaskSummary(taskId, Setting(config, "grader_name", JStr("")), JStr(mode),
        Setting(config, "grader_mode", JStr("pointwise")),
        if dataCount.Some? then JNum(dataCount.value as real) else JNull,
        JStr(createdAt), TaskPath(baseDir, taskId)))
  {
  }

  /** The key `list_tasks` sorts by; a `created_at` that is not a string
      sorts as the empty string. */
  function SortKey(t: TaskSummary): string {
    if t.createdAt.JStr? then t.createdAt.s else ""
  }

  /** Newest first: descending by creation time, compared as text (an ISO
      8601 time orders like the time it names). */
  predicate NewerFirst(a: TaskSummary, b: TaskSummary) {
    StrLe(SortKey(b), SortKey(a))
  }

  lemma NewerFirstTotalPreorder()
    ensures TotalPreorder(NewerFirst)
  {
    forall a, b ensures NewerFirst(a, b) || NewerFirst(b, a) {
      StrLeTotal(SortKey(a), SortKey(b));
    }
    forall a, b, c | NewerFirst(a, b) && NewerFirst(b, c) ensures NewerFirst(a, c) {
      StrLeTrans(SortKey(c), SortKey(b), SortKey(a));
    }
  }

  /** `order` lists every entry of the directory exactly once. */
  predicate Enumerates(order: seq<string>, tasks: map<string, TaskDir>) {
    (forall i, j :: 0 <= i < j < |order| ==> order[i] != order[j]) &&
    (forall n :: n in order ==> n in tasks) &&
    (forall n :: n in tasks ==> n in order)
  }

  /** The summaries of the entries in `order` that are not skipped, in
      that order. */
  function Summaries(baseDir: string, order: seq<string>, tasks: map<string, TaskDir>): seq<TaskSummary>
    requires forall n :: n in order ==> n in tasks
    decreases |order|
  {
    if |order| == 0 then []
    else
      var last := order[|order| - 1];
      var s := SummaryOf(baseDir, last, tasks[last]);
      Summaries(baseDir, order[..|order| - 1], tasks) + (if s.Some? then [s.value] else [])
  }

  lemma {:induction false} SummariesMembers(baseDir: string, order: seq<string>, tasks: map<string, TaskDir>)
    requires forall n :: n in order ==> n in tasks
    ensures forall t :: t in Summaries(baseDir, order, tasks) <==>
      exists n :: n in order && SummaryOf(baseDir, n, tasks[n]) == Some(t)
    decreases |order|
  {
    if |order| > 0 {
      var init := order[..|order| - 1];
      var last := order[|order| - 1];
      SummariesMembers(baseDir, init, tasks);
      assert order == init + [last];
      forall t ensures t in Summaries(baseDir, order, tasks) <==> exists n :: n in order && SummaryOf(baseDir, n, tasks[n]) == Some(t) {
        if t in Summaries(baseDir, order, tasks) && t !in Summaries(baseDir, init, tasks) {
          assert last in order;
        }
        if exists n :: n in order && SummaryOf(baseDir, n, tasks[n]) == Some(t) {
          var n :| n in order && SummaryOf(baseDir, n, tasks[n]) == Some(t);
          if n != last {
            assert n in init;
          }
        }
      }
    }
  }

  /** `list_tasks(limit)`: newest first, cut at `limit` (a Python slice,
      so a negative limit drops entries from the end). */
  function TaskList(baseDir: string, order: seq<string>, tasks: map<string, TaskDir>, limit: int): seq<TaskSummary>
    requires forall n :: n in order ==> n in tasks
  {
    Slice(SortBy(Summaries(baseDir, order, tasks), NewerFirst), 0, limit)
  }

  /** The listing is sorted newest first, is a prefix of the full sorted
      list of at most `limit` entries, and the full list holds exactly the
      summaries of the entries that are not skipped. */
  lemma ListFacts(baseDir: string, order: seq<string>, tasks: map<string, TaskDir>, limit: int)
    requires Enumerates(order, tasks)
    ensures var all := SortBy(Summaries(baseDir, order, tasks), NewerFirst);
      var r := TaskList(baseDir, order, tasks, limit);
      SortedBy(r, NewerFirst) &&
      (limit >= 0 ==> |r| == MinInt(limit, |all|)) &&
      r == all[..|r|] &&
      (forall t :: t in all <==> exists n :: n in tasks && SummaryOf(baseDir, n, tasks[n]) == Some(t))
  {
    var all := SortBy(Summaries(baseDir, order, tasks), NewerFirst);
    NewerFirstTotalPreorder();
    SortBySorted(Summaries(baseDir, order, tasks), NewerFirst);
    SummariesMembers(baseDir, order, tasks);
    SameElements(all, Summaries(baseDir, order, tasks));
    var r := TaskList(baseDir, order, tasks, limit);
    assert r == all[..|r|];
  }

  // ---------------------------------------------------------------------
  // Details

  /** What `get_task_details` returns for a task that can be read: each
      file's content when the file exists. */
  datatype Details = Details(
    taskId: string,
    taskDir: string,
    config: Option<Json>,
    rubrics: Option<string>,
    graderConfig: Option<Json>)

  /** A plain file has no files under it. */
  function Under<T>(d: TaskDir, f: FileState<T>): FileState<T> {
    if d.isDir then f else FileAbsent
  }

  /** `get_task_details`: None for a missing entry or one whose existing
      files cannot all be read. */
  function DetailsOf(baseDir: string, tasks: map<string, TaskDir>, id: string): (r: Option<Details>)
    ensures r.None? <==> (id !in tasks ||
      (tasks[id].isDir && (tasks[id].config.FileUnreadable? || tasks[id].rubrics.FileUnreadable? || tasks[id].grader.FileUnreadable?)))
    ensures r.Some? ==> r.value.taskId == id && r.value.taskDir == TaskPath(baseDir, id)
    ensures r.Some? && tasks[id].isDir ==>
      r.value.config == Loaded(tasks[id].config) && r.value.rubrics == Loaded(tasks[id].rubrics) &&
      r.value.graderConfig == Loaded(tasks[id].grader)
    ensures r.Some? && !tasks[id].isDir ==>
      r.value.config.None? && r.value.rubrics.None? && r.value.graderConfig.None?
  {
    if id !in tasks then None
    else
      var d := tasks[id];
      var c, ru, g := Under(d, d.config), Under(d, d.rubrics), Under(d, d.grader);
      if c.FileUnreadable? || ru.FileUnreadable? || g.FileUnreadable? then None
      else Some(Details(id, TaskPath(baseDir, id), Loaded(c), Loaded(ru), Loaded(g)))
  }

  // ---------------------------------------------------------------------
  // Counting rubrics

  /** Where the run of digits starting at `i` ends. */
  function DigitsFrom(s: string, i: nat): (j: nat)
    requires i <= |s|
    ensures i <= j <= |s|
    ensures forall k :: i <= k < j ==> IsDigit(s[k])
    ensures j < |s| ==> !IsDigit(s[j])
    decreases |s| - i
  {
    if i < |s| && IsDigit(s[i]) then DigitsFrom(s, i + 1) else i
  }

  /** `\d+` followed by `mark` matches at `i`. */
  predicate NumberAt(s: string, i: nat, mark: char)
    requires i <= |s|
  {
    var j := DigitsFrom(s, i);
    j > i && j < |s| && s[j] == mark
  }

  /** Greedy matching of the digits finds every way the pattern can match:
      some non-empty run of digits followed by the (non-digit) mark. */
  lemma NumberAtIff(s: string, i: nat, mark: char)
    requires i <= |s| && !IsDigit(mark)
    ensures NumberAt(s, i, mark) <==>
      exists k :: i < k < |s| && (forall m :: i <= m < k ==> IsDigit(s[m])) && s[k] == mark
  {
    if exists k :: i < k < |s| && (forall m :: i <= m < k ==> IsDigit(s[m])) && s[k] == mark {
      var k :| i < k < |s| && (forall m :: i <= m < k ==> IsDigit(s[m])) && s[k] == mark;
      DigitsFromIs(s, i, k);
    }
  }

  /** The run of digits from `i` ends at the first non-digit. */
  lemma {:induction false} DigitsFromIs(s: string, i: nat, k: nat)
    requires i <= k <= |s|
    requires forall m :: i <= m < k ==> IsDigit(s[m])
    requires k == |s| || !IsDigit(s[k])
    ensures DigitsFrom(s, i) == k
    decreases k - i
  {
    if i < k {
      DigitsFromIs(s, i + 1, k);
    }
  }

  /** A line the pattern `^\d+\.|^Rubric \d+:` matches at its start: "3."
      or "Rubric 3:". */
  predicate RubricLine(line: string) {
    NumberAt(line, 0, '.') || (StartsWith(line, "Rubric ") && NumberAt(line, 7, ':'))
  }

  /** `get_rubrics_count`: 0 for empty text; otherwise the number of lines
      that open a rubric, or 1 when none does. With MULTILINE, `^` matches
      at the start of each line, and neither alternative crosses a line
      break, so there is at most one match per line. */
  function RubricsCount(rubrics: string): (n: nat)
    ensures rubrics == "" <==> n == 0
    ensures n <= |Split(rubrics, '\n')|
  {
    if rubrics == "" then 0
    else
      var m := CountWhere(Split(rubrics, '\n'), RubricLine);
      if m == 0 then 1 else m
  }

  /** For text made of lines, the count is the number of lines opening a
      rubric, and one for text that opens none. */
  lemma RubricsCountOfLines(lines: seq<string>)
    requires |lines| >= 1 && Join(lines, "\n") != ""
    requires forall l :: l in lines ==> '\n' !in l
    ensures RubricsCount(Join(lines, "\n")) == MaxInt(1, CountWhere(lines, RubricLine))
  {
    SplitJoin(lines, '\n');
  }

  /** Appending a line adds one exactly when that line opens a rubric. */
  lemma RubricsCountAppend(lines: seq<string>, line: string)
    requires |lines| >= 1 && Join(lines, "\n") != ""
    requires forall l :: l in lines + [line] ==> '\n' !in l
    requires CountWhere(lines, RubricLine) >= 1
    ensures RubricsCount(Join(lines + [line], "\n")) ==
      RubricsCount(Join(lines, "\n")) + (if RubricLine(line) then 1 else 0)
  {
    var all := lines + [line];
    RubricsCountOfLines(lines);
    assert all[..|lines|] == lines;
    assert CountWhere(all, RubricLine) == CountWhere(lines, RubricLine) + (if RubricLine(line) then 1 else 0);
    assert Join(all, "\n") == all[0] + "\n" + Join(all[1..], "\n");
    RubricsCountOfLines(all);
  }

  // ---------------------------------------------------------------------
  // The store

  class RubricStore {
    /** The rubrics directory's path and its entries by name. */
    var baseDir: string
    var tasks: map<string, TaskDir>

    constructor (baseDir: string, tasks: map<string, TaskDir>)
      ensures this.baseDir == baseDir && this.tasks == tasks
    {
      this.baseDir := baseDir;
      this.tasks := tasks;
    }

    /** `save_grader`; `writeFails` stands for an error while writing the
        files. A plain file in the task's place makes the directory
        creation raise. */
    method SaveGrader(taskId: string, config: map<string, Json>, rubrics: string, graderConfig: Json,
                      mode: string, dataCount: Option<int>, createdAt: string, writeFails: bool)
      returns (ok: bool)
      modifies this
      ensures ok <==> !writeFails && (taskId !in old(tasks) || old(tasks)[taskId].isDir)
      ensures tasks == if ok then old(tasks)[taskId := SavedDir(taskId, config, rubrics, graderConfig, mode, dataCount, createdAt)]
                       else old(tasks)
      ensures baseDir == old(baseDir)
    {
      if taskId in tasks && !tasks[taskId].isDir {
        return false;
      }
      if writeFails {
        return false;
      }
      var configData := ConfigData(taskId, config, mode, dataCount, createdAt);
      tasks := tasks[taskId := TaskDir(true, FileRead(JObj(configData)), FileRead(rubrics), FileRead(graderConfig))];
      ok := true;
    }

    /** `list_tasks`, walking the entries in directory order, then sorting. */
    method ListTasks(order: seq<string>, limit: int) returns (r: seq<TaskSummary>)
      requires Enumerates(order, tasks)
      ensures r == TaskList(baseDir, order, tasks, limit)
    {
      var found: seq<TaskSummary> := [];
      var i := 0;
      while i < |order|
        invariant 0 <= i <= |order|
        invariant found == Summaries(baseDir, order[..i], tasks)
      {
        assert order[..i + 1][..i] == order[..i];
        var d := tasks[order[i]];
        if d.isDir && d.config.FileRead? && d.config.content.JObj? {
          var c := d.config.content.fields;
          found := found + [TaskSummary(order[i], Setting(c, "grader_name", JStr("")), Setting(c, "mode", JStr("simple")),
            Setting(c, "grader_mode", JStr("pointwise")), Setting(c, "data_count", JNull),
            Setting(c, "created_at", JStr("")), TaskPath(baseDir, order[i]))];
        }
        i := i + 1;
      }
      assert order[..i] == order;
      r := Slice(SortBy(found, NewerFirst), 0, limit);
    }

    /** `get_task_details`. */
    function GetTaskDetails(id: string): (r: Option<Details>)
      reads this
      ensures r == DetailsOf(baseDir, tasks, id)
    {
      DetailsOf(baseDir, tasks, id)
    }

    /** `delete_task`; `removalFails` stands for an error while removing the
        directory tree. */
    method DeleteTask(id: string, removalFails: bool) returns (r: bool)
      modifies this
      ensures r <==> id in old(tasks) && !removalFails
      ensures tasks == if r then old(tasks) - {id} else old(tasks)
      ensures baseDir == old(baseDir)
    {
      if id !in tasks || removalFails {
        return false;
      }
      tasks := tasks - {id};
      r := true;
    }
  }

  /** A saved grader reads back in full: its settings, its rubric text and
      its grader configuration. */
  lemma SavedDetails(baseDir: string, tasks: map<string, TaskDir>, taskId: string, config: map<string, Json>,
                     rubrics: string, graderConfig: Json, mode: string, dataCount: Option<int>, createdAt: string)
    ensures var t := tasks[taskId := SavedDir(taskId, config, rubrics, graderConfig, mode, dataCount, createdAt)];
      DetailsOf(baseDir, t, taskId) ==
        Some(Details(taskId, TaskPath(baseDir, taskId), Some(JObj(ConfigData(taskId, config, mode, dataCount, createdAt))),
                     Some(rubrics), Some(graderConfig)))
  {
  }
}
