/** The Batch Grader history: one directory per batch evaluation task
    ("batch_..."), holding its configuration, checkpoint, summary and the
    results file, which grows one record at a time while the batch runs.

    The directory is an in-memory map from directory name to its files.
    The configuration, checkpoint and summary arrive decoded into the keys
    the history reads (`FileState`); the results file is kept as text,
    because appending edits that text, and decoding it is an oracle the
    readers receive (`string -> Option<Json>`, None for invalid JSON).
    Times are integer timestamps in seconds. */
module BatchHistory {
  import opened Common
  import opened Ordering
  import opened JsonValue

  const ConfigFile := "config.json"
  const CheckpointFile := "checkpoint.json"
  const ResultsFile := "results.json"
  const SummaryFile := "summary.json"

  /** config.json: grader_name, grader_name_zh and created_at (None when
      absent or empty). */
  datatype BatchConfig = BatchConfig(graderName: Option<string>, graderNameZh: Option<string>, createdAt: Option<int>)

  /** checkpoint.json. */
  datatype BatchCheckpoint = BatchCheckpoint(
    totalCount: Option<int>,
    completedIndices: Option<seq<int>>,
    successCount: Option<int>,
    failedCount: Option<int>,
    status: Option<string>)

  /** summary.json. */
  datatype SummaryDoc = SummaryDoc(
    totalCount: Option<int>,
    completedCount: Option<int>,
    successCount: Option<int>,
    failedCount: Option<int>,
    avgScore: Option<real>,
    passRate: Option<real>,
    status: Option<string>)

  /** One entry of the batch evaluations directory. */
  datatype BatchDir = BatchDir(
    isDir: bool,
    mtime: int,
    config: FileState<BatchConfig>,
    checkpoint: FileState<BatchCheckpoint>,
    summary: FileState<SummaryDoc>,
    resultsText: Option<string>)

  datatype BatchTaskSummary = BatchTaskSummary(
    taskId: string,
    createdAt: int,
    graderName: string,
    graderNameZh: string,
    totalCount: int,
    completedCount: int,
    successCount: int,
    failedCount: int,
    status: string,
    avgScore: Option<real>,
    passRate: Option<real>)

  // ---------------------------------------------------------------------
  // Reading one task

  /** Python truthiness of an optional string. */
  predicate Named(s: Option<string>) {
    s.Some? && s.value != ""
  }

  /** The status written down for a task: the summary's when it names one,
      otherwise the checkpoint's, otherwise "unknown". */
  function RecordedStatus(ck: Option<BatchCheckpoint>, sm: Option<SummaryDoc>): string {
    if sm.Some? && Named(sm.value.status) then sm.value.status.value
    else if ck.Some? then ck.value.status.GetOr("unknown")
    else "unknown"
  }

  /** The status shown for a task: the recorded one, or, when that is
      "unknown", one read off the counts. */
  function ShownStatus(recorded: string, completed: int, total: int): (s: string)
    ensures recorded != "unknown" ==> s == recorded
    ensures recorded == "unknown" ==>
      (s == "completed" <==> completed == total && total > 0) &&
      (s == "paused" <==> completed > 0 && !(completed == total && total > 0)) &&
      (s == "pending" <==> completed <= 0)
  {
    if recorded != "unknown" then recorded
    else if completed == total && total > 0 then "completed"
    else if completed > 0 then "paused"
    else "pending"
  }

  /** What `_load_task_summary` yields for a directory: the summary's counts
      override the checkpoint's, which override zero; None when one of the
      three files cannot be read. */
  function SummaryOf(id: string, d: BatchDir): (r: Option<BatchTaskSummary>)
    ensures r.Some? ==> r.value.taskId == id
  {
    if d.config.FileUnreadable? || d.checkpoint.FileUnreadable? || d.summary.FileUnreadable? then None
    else
      var cf := Loaded(d.config);
      var ck := Loaded(d.checkpoint);
      var sm := Loaded(d.summary);
      var name := if cf.Some? then cf.value.graderName.GetOr("Unknown") else "Unknown";
      var nameZh := if cf.Some? then cf.value.graderNameZh.GetOr(name) else "未知";
      var createdAt := if cf.Some? && cf.value.createdAt.Some? then cf.value.createdAt.value else d.mtime;
      var ckTotal := if ck.Some? then ck.value.totalCount.GetOr(0) else 0;
      var ckCompleted := if ck.Some? then |ck.value.completedIndices.GetOr([])| else 0;
      var ckSuccess := if ck.Some? then ck.value.successCount.GetOr(0) else 0;
      var ckFailed := if ck.Some? then ck.value.failedCount.GetOr(0) else 0;
      var total := if sm.Some? then sm.value.totalCount.GetOr(ckTotal) else ckTotal;
      var completed := if sm.Some? then sm.value.completedCount.GetOr(ckCompleted) else ckCompleted;
      Some(BatchTaskSummary(
        id, createdAt, name, nameZh, total, completed,
        if sm.Some? then sm.value.successCount.GetOr(ckSuccess) else ckSuccess,
        if sm.Some? then sm.value.failedCount.GetOr(ckFailed) else ckFailed,
        ShownStatus(RecordedStatus(ck, sm), completed, total),
        if sm.Some? then sm.value.avgScore else None,
        if sm.Some? then sm.value.passRate else None))
  }

  /** `_load_task_summary`, reassigning its locals file by file. */
  method LoadTaskSummary(id: string, d: BatchDir) returns (r: Option<BatchTaskSummary>)
    ensures r == SummaryOf(id, d)
    ensures r.Some? ==> r.value.taskId == id
  {
    if d.config.FileUnreadable? || d.checkpoint.FileUnreadable? || d.summary.FileUnreadable? {
      return None;
    }
    var createdAt := d.mtime;
    var graderName := "Unknown";
    var graderNameZh := "未知";
    var total, completed, success, failed := 0, 0, 0, 0;
    var status := "unknown";
    var avgScore: Option<real> := None;
    var passRate: Option<real> := None;
    if d.config.FileRead? {
      var cf := d.config.content;
      graderName := cf.graderName.GetOr(graderName);
      graderNameZh := cf.graderNameZh.GetOr(graderName);
      if cf.createdAt.Some? {
        createdAt := cf.createdAt.value;
      }
    }
    if d.checkpoint.FileRead? {
      var ck := d.checkpoint.content;
      total := ck.totalCount.GetOr(0);
      completed := |ck.completedIndices.GetOr([])|;
      success := ck.successCount.GetOr(0);
      failed := ck.failedCount.GetOr(0);
      status := ck.status.GetOr("unknown");
    }
    if d.summary.FileRead? {
      var sm := d.summary.content;
      total := sm.totalCount.GetOr(total);
      completed := sm.completedCount.GetOr(completed);
      success := sm.successCount.GetOr(success);
      failed := sm.failedCount.GetOr(failed);
      avgScore := sm.avgScore;
      passRate := sm.passRate;
      if Named(sm.status) {
        status := sm.status.value;
      }
    }
    if status == "unknown" {
      if completed == total && total > 0 {
        status := "completed";
      } else if completed > 0 {
        status := "paused";
      } else {
        status := "pending";
      }
    }
    r := Some(BatchTaskSummary(id, createdAt, graderName, graderNameZh, total, completed, success, failed, status, avgScore, passRate));
  }

  /** The summary's values win over the checkpoint's: a summary naming a
      status and counts decides them whatever the checkpoint says. */
  lemma SummaryOverrides(id: string, d: BatchDir, st: string, total: int, completed: int)
    requires d.config.FileRead? || d.config.FileAbsent?
    requires d.checkpoint.FileRead? || d.checkpoint.FileAbsent?
    requires d.summary.FileRead? && st != "" && d.summary.content.status == Some(st)
    requires d.summary.content.totalCount == Some(total) && d.summary.content.completedCount == Some(completed)
    ensures SummaryOf(id, d).Some?
    ensures var s := SummaryOf(id, d).value;
      s.totalCount == total && s.completedCount == completed &&
      s.status == (if st == "unknown" then ShownStatus("unknown", completed, total) else st)
  {
  }

  /** A task with no status on record reads as completed when every item is
      done, paused when some are, pending otherwise. */
  lemma UnknownStatusRules(id: string, d: BatchDir)
    requires SummaryOf(id, d).Some?
    requires var ck := Loaded(d.checkpoint); var sm := Loaded(d.summary);
      RecordedStatus(ck, sm) == "unknown"
    ensures var s := SummaryOf(id, d).value;
      (s.status == "completed" <==> s.completedCount == s.totalCount > 0) &&
      (s.status == "paused" <==> 0 < s.completedCount && !(s.completedCount == s.totalCount)) &&
      (s.status == "pending" <==> s.completedCount <= 0)
  {
  }

  // ---------------------------------------------------------------------
  // Listing

  predicate NewerFirst(a: BatchTaskSummary, b: BatchTaskSummary) {
    a.createdAt >= b.createdAt
  }

  lemma NewerFirstTotalPreorder()
    ensures TotalPreorder(NewerFirst)
  {
  }

  /** `order` lists every entry of the directory exactly once. */
  predicate Enumerates(order: seq<string>, dirs: map<string, BatchDir>) {
    (forall i, j :: 0 <= i < j < |order| ==> order[i] != order[j]) &&
    (forall n :: n in order ==> n in dirs) &&
    (forall n :: n in dirs ==> n in order)
  }

  /** The entries `list_tasks` reads: directories named "batch_...". */
  predicate Listed(name: string, d: BatchDir) {
    d.isDir && StartsWith(name, "batch_")
  }

  /** The summaries of the readable batch directories among `order`. */
  function Summaries(order: seq<string>, dirs: map<string, BatchDir>): seq<BatchTaskSummary>
    requires forall n :: n in order ==> n in dirs
    decreases |order|
  {
    if |order| == 0 then []
    else
      var last := order[|order| - 1];
      var s := if Listed(last, dirs[last]) then SummaryOf(last, dirs[last]) else None;
      Summaries(order[..|order| - 1], dirs) + (if s.Some? then [s.value] else [])
  }

  lemma {:induction false} SummariesMembers(order: seq<string>, dirs: map<string, BatchDir>)
    requires forall n :: n in order ==> n in dirs
    ensures forall t :: t in Summaries(order, dirs) <==>
      exists n :: n in order && Listed(n, dirs[n]) && SummaryOf(n, dirs[n]) == Some(t)
    decreases |order|
  {
    if |order| > 0 {
      var init := order[..|order| - 1];
      var last := order[|order| - 1];
      SummariesMembers(init, dirs);
      assert order == init + [last];
      forall t ensures t in Summaries(order, dirs) <==> exists n :: n in order && Listed(n, dirs[n]) && SummaryOf(n, dirs[n]) == Some(t) {
        if t in Summaries(order, dirs) && t !in Summaries(init, dirs) {
          assert last in order;
        }
        if exists n :: n in order && Listed(n, dirs[n]) && SummaryOf(n, dirs[n]) == Some(t) {
          var n :| n in order && Listed(n, dirs[n]) && SummaryOf(n, dirs[n]) == Some(t);
          if n != last {
            assert n in init;
          }
        }
      }
    }
  }

  /** `list_tasks(limit)`: newest first, cut at `limit`. */
  function TaskList(order: seq<string>, dirs: map<string, BatchDir>, limit: int): seq<BatchTaskSummary>
    requires forall n :: n in order ==> n in dirs
  {
    Slice(SortBy(Summaries(order, dirs), NewerFirst), 0, limit)
  }

  /** The directories a task summary can come from. */
  ghost predicate SummarizedIn(t: BatchTaskSummary, dirs: map<string, BatchDir>) {
    exists n :: n in dirs && Listed(n, dirs[n]) && SummaryOf(n, dirs[n]) == Some(t)
  }

  /** The listing is sorted newest first and is a prefix of the full sorted
      list, of at most `limit` entries. */
  lemma ListOrder(order: seq<string>, dirs: map<string, BatchDir>, limit: int)
    requires Enumerates(order, dirs)
    ensures var all := SortBy(Summaries(order, dirs), NewerFirst);
      var r := TaskList(order, dirs, limit);
      SortedBy(r, NewerFirst) &&
      (limit >= 0 ==> |r| == MinInt(limit, |all|)) &&
      r == all[..|r|]
  {
    var all := SortBy(Summaries(order, dirs), NewerFirst);
    NewerFirstTotalPreorder();
    SortBySorted(Summaries(order, dirs), NewerFirst);
    var r := TaskList(order, dirs, limit);
    assert r == all[..|r|];
  }

  /** The full list holds exactly the summaries of the readable batch
      directories. */
  lemma ListMembers(order: seq<string>, dirs: map<string, BatchDir>)
    requires Enumerates(order, dirs)
    ensures forall t :: t in SortBy(Summaries(order, dirs), NewerFirst) <==> SummarizedIn(t, dirs)
  {
    SummariesMembers(order, dirs);
    SameElements(SortBy(Summaries(order, dirs), NewerFirst), Summaries(order, dirs));
  }

  /** Every listed task is one of them, and its id names a batch directory. */
  lemma ListedAreBatches(order: seq<string>, dirs: map<string, BatchDir>, limit: int)
    requires Enumerates(order, dirs)
    ensures forall t :: t in TaskList(order, dirs, limit) ==> SummarizedIn(t, dirs) && StartsWith(t.taskId, "batch_")
  {
    var all := SortBy(Summaries(order, dirs), NewerFirst);
    ListMembers(order, dirs);
    var r := TaskList(order, dirs, limit);
    forall t | t in r ensures SummarizedIn(t, dirs) && StartsWith(t.taskId, "batch_") {
      var k :| 0 <= k < |r| && r[k] == t;
      assert r == all[..|r|] by { ListOrder(order, dirs, limit); }
      assert all[k] == t;
      assert t in all;
      var n :| n in dirs && Listed(n, dirs[n]) && SummaryOf(n, dirs[n]) == Some(t);
    }
  }

  /** The tasks `get_incomplete_tasks` offers to resume. */
  predicate Resumable(t: BatchTaskSummary) {
    (t.status == "running" || t.status == "paused") && t.completedCount < t.totalCount
  }

  function Incomplete(ts: seq<BatchTaskSummary>): (r: seq<BatchTaskSummary>)
    decreases |ts|
    ensures forall t :: t in r <==> t in ts && Resumable(t)
    ensures |r| <= |ts|
  {
    if |ts| == 0 then []
    else Incomplete(ts[..|ts| - 1]) + (if Resumable(ts[|ts| - 1]) then [ts[|ts| - 1]] else [])
  }

  // ---------------------------------------------------------------------
  // Appending to the results file

  /** The position of the last `c` in `s`, if any. */
  function LastIndexOfChar(s: string, c: char): (r: Option<nat>)
    decreases |s|
    ensures r.Some? ==> r.value < |s| && s[r.value] == c && forall k :: r.value < k < |s| ==> s[k] != c
    ensures r.None? ==> forall k :: 0 <= k < |s| ==> s[k] != c
  {
    if |s| == 0 then None
    else if s[|s| - 1] == c then Some(|s| - 1)
    else LastIndexOfChar(s[..|s| - 1], c)
  }

  /** The results file after `append_result` writes the record `enc` (its
      JSON text): a new file holds a one-element array; otherwise the last
      "]" among the final 10 characters is replaced by ",\n<enc>\n]", and
      without one the file is left alone. */
  function Appended(text: Option<string>, enc: string): string {
    if text.None? then "[\n" + enc + "\n]"
    else
      var t := text.value;
      var start := MaxInt(0, |t| - 10);
      match LastIndexOfChar(t[start..], ']')
      case None => t
      case Some(b) => t[..start + b] + ",\n" + enc + "\n]"
  }

  /** The text of a JSON array (RFC 8259) of the records `encs`, laid out
      as `append_result` lays it out: one record per line, separated by
      ",\n" lines. */
  function ArrayText(encs: seq<string>): string
    requires |encs| > 0
  {
    "[\n" + Join(encs, "\n,\n") + "\n]"
  }

  lemma {:induction false} JoinSnoc(encs: seq<string>, e: string, sep: string)
    requires |encs| > 0
    ensures Join(encs + [e], sep) == Join(encs, sep) + sep + e
    decreases |encs|
  {
    if |encs| == 1 {
      assert (encs + [e])[1..] == [e];
    } else {
      JoinSnoc(encs[1..], e, sep);
      assert (encs + [e])[1..] == encs[1..] + [e];
    }
  }

  /** Appending to a file that holds an array of records yields the array
      with exactly one more element, at the end. */
  lemma AppendExtends(encs: seq<string>, e: string)
    requires |encs| > 0
    ensures Appended(Some(ArrayText(encs)), e) == ArrayText(encs + [e])
  {
    var body := "[\n" + Join(encs, "\n,\n") + "\n";
    var t := ArrayText(encs);
    assert t == body + "]";
    var start := MaxInt(0, |t| - 10);
    var tail := t[start..];
    assert tail[|tail| - 1] == ']';
    assert LastIndexOfChar(tail, ']') == Some(|tail| - 1);
    assert start + (|tail| - 1) == |body|;
    assert t[..|body|] == body;
    assert Appended(Some(t), e) == body + ",\n" + e + "\n]";
    JoinSnoc(encs, e, "\n,\n");
  }

  /** Appending records one by one from a missing file leaves the array of
      all of them, in order. */
  lemma {:induction false} AppendAll(encs: seq<string>)
    requires |encs| > 0
    ensures AppendedAll(encs) == ArrayText(encs)
    decreases |encs|
  {
    if |encs| == 1 {
      assert Join(encs, "\n,\n") == encs[0];
    } else {
      var init := encs[..|encs| - 1];
      AppendAll(init);
      AppendExtends(init, encs[|encs| - 1]);
      assert init + [encs[|encs| - 1]] == encs;
    }
  }

  /** The results file after appending `encs` to a missing file. */
  function AppendedAll(encs: seq<string>): string
    requires |encs| > 0
    decreases |encs|
  {
    if |encs| == 1 then Appended(None, encs[0])
    else Appended(Some(AppendedAll(encs[..|encs| - 1])), encs[|encs| - 1])
  }

  // ---------------------------------------------------------------------
  // Paging the results

  /** `get_task_results`: the decoded results list sliced as
      [offset:offset+limit], or [offset:] without a limit; None for a
      missing or undecodable file or one that is not a list. */
  function ResultsPage(text: Option<string>, parse: string -> Option<Json>, offset: int, limit: Option<int>): (r: Option<seq<Json>>)
    ensures r.Some? <==> text.Some? && parse(text.value).Some? && parse(text.value).value.JArr?
    ensures r.Some? && 0 <= offset && (limit.None? || limit.value >= 0) ==>
      var all := parse(text.value).value.items;
      var from := MinInt(offset, |all|);
      var to := if limit.None? then |all| else MinInt(offset + limit.value, |all|);
      r.value == all[from..to]
  {
    if text.None? then None
    else match parse(text.value)
      case None => None
      case Some(j) =>
        if !j.JArr? then None
        else if limit.None? then Some(Slice(j.items, offset, |j.items|))
        else Some(Slice(j.items, offset, offset + limit.value))
  }

  /** Consecutive pages of one size cover the list without gaps or overlap. */
  lemma PagesTile(text: string, parse: string -> Option<Json>, page: nat, size: nat)
    requires parse(text).Some? && parse(text).value.JArr?
    ensures ResultsPage(Some(text), parse, page * size, Some(size)).value +
      ResultsPage(Some(text), parse, (page + 1) * size, Some(size)).value ==
      ResultsPage(Some(text), parse, page * size, Some(2 * size)).value
  {
    var all := parse(text).value.items;
    var a, b, c := MinInt(page * size, |all|), MinInt((page + 1) * size, |all|), MinInt(page * size + 2 * size, |all|);
    assert (page + 1) * size == page * size + size;
    assert all[a..b] + all[b..c] == all[a..c];
  }

  // ---------------------------------------------------------------------
  // Exporting the results as CSV

  const StandardFields: seq<string> := ["index", "status", "score", "passed", "reason"]

  /** The decoded `input` object of a result, `{}` when absent; None when
      the result or its input is not an object. */
  function InputOf(result: Json): Option<map<string, Json>> {
    if !result.JObj? then None
    else if "input" !in result.fields then Some(map[])
    else if result.fields["input"].JObj? then Some(result.fields["input"].fields)
    else None
  }

  /** The CSV header `export_results` builds from the input keys, visited
      in `keys` order (Python's set order): "input_<key>" is added unless
      `key` itself already names a column, so an input key equal to a
      standard column name gets no column. */
  function FieldNamesAsWritten(keys: seq<string>): (fields: seq<string>)
    decreases |keys|
    ensures StandardFields <= fields
  {
    if |keys| == 0 then StandardFields
    else
      var init := FieldNamesAsWritten(keys[..|keys| - 1]);
      var k := keys[|keys| - 1];
      if k in init then init else init + ["input_" + k]
  }

  /** The header with the column test applied to the column's own name:
      every input key gets its "input_<key>" column. */
  function FieldNames(keys: seq<string>): (fields: seq<string>)
    decreases |keys|
    ensures StandardFields <= fields
    ensures forall k :: k in keys ==> "input_" + k in fields
    ensures forall f :: f in fields ==> f in StandardFields || exists k :: k in keys && f == "input_" + k
  {
    if |keys| == 0 then StandardFields
    else
      var init := FieldNames(keys[..|keys| - 1]);
      var k := keys[|keys| - 1];
      assert forall j :: j in keys ==> j in keys[..|keys| - 1] || j == k;
      if "input_" + k in init then init else init + ["input_" + k]
  }

  /** Distinct keys get distinct prefixed column names. */
  lemma PrefixedInjective(p: string)
    ensures forall a: string, b: string :: p + a == p + b ==> a == b
  {
    forall a: string, b: string | p + a == p + b ensures a == b {
      assert (p + a)[|p|..] == a;
      assert (p + b)[|p|..] == b;
    }
  }

  /** The first 500 characters of a text. */
  function Clip(s: string): (r: string)
    ensures |r| <= 500 && |r| <= |s| && r == s[..|r|]
    ensures |s| <= 500 ==> r == s
  {
    s[..MinInt(500, |s|)]
  }

  /** The cell for one input value: containers as clipped JSON text, other
      truthy values as their clipped str(), falsy ones empty. */
  function InputCell(v: Json, dumps: Json -> string, str: Json -> string): Json {
    if v.JObj? || v.JArr? then JStr(Clip(dumps(v)))
    else if Truthy(v) then JStr(Clip(str(v)))
    else JStr("")
  }

  /** `result.get(key, "")`. */
  function FieldOr(f: map<string, Json>, key: string): Json {
    if key in f then f[key] else JStr("")
  }

  /** The reason cell: empty for a falsy reason, else its first 500
      characters (or items); a truthy reason that cannot be sliced raises. */
  function ReasonCell(f: map<string, Json>): (r: Result<Json>)
    ensures "reason" in f && f["reason"].JStr? ==> r == Ok(JStr(Clip(f["reason"].s)))
    ensures "reason" !in f ==> r == Ok(JStr(""))
  {
    var reason := FieldOr(f, "reason");
    if !Truthy(reason) then Ok(JStr(""))
    else if reason.JStr? then Ok(JStr(Clip(reason.s)))
    else if reason.JArr? then Ok(JArr(reason.items[..MinInt(500, |reason.items|)]))
    else Err("TypeError: unhashable type: 'slice'")
  }

  /** One CSV row: the five standard cells, and the "input_<key>" cells by
      their key. */
  datatype CsvRow = CsvRow(index: Json, status: Json, score: Json, passed: Json, reason: Json, inputs: map<string, Json>)

  /** The row for one result; `dumps` is json.dumps and `str` Python's str
      of a value. */
  function RowOf(result: Json, dumps: Json -> string, str: Json -> string): (r: Result<CsvRow>)
    requires InputOf(result).Some?
    ensures r.Ok? <==> ReasonCell(result.fields).Ok?
    ensures r.Ok? ==> r.value.reason == ReasonCell(result.fields).value
    ensures r.Ok? ==> r.value.inputs.Keys == InputOf(result).value.Keys
  {
    var f := result.fields;
    var reason := ReasonCell(f);
    if reason.Err? then Err(reason.msg)
    else
      var input := InputOf(result).value;
      Ok(CsvRow(FieldOr(f, "index"), FieldOr(f, "status"), FieldOr(f, "score"), FieldOr(f, "passed"), reason.value,
        map k | k in input :: InputCell(input[k], dumps, str)))
  }

  /** The input keys of `results` whose input is an object. */
  function InputKeys(results: seq<Json>): (keys: set<string>)
    decreases |results|
    ensures forall i, k :: 0 <= i < |results| && InputOf(results[i]).Some? && k in InputOf(results[i]).value ==> k in keys
  {
    if |results| == 0 then {}
    else
      var last := InputOf(results[|results| - 1]);
      InputKeys(results[..|results| - 1]) + (if last.Some? then last.value.Keys else {})
  }

  /** `keys` visits every input key of `results` once. */
  predicate KeyOrder(keys: seq<string>, results: seq<Json>) {
    (forall i, j :: 0 <= i < j < |keys| ==> keys[i] != keys[j]) &&
    (forall k :: k in keys ==> k in InputKeys(results)) &&
    (forall k :: k in InputKeys(results) ==> k in keys)
  }

  /** Every result is an object whose input, if any, is an object: otherwise
      reading the rows raises. */
  predicate RowsReadable(results: seq<Json>) {
    forall i :: 0 <= i < |results| ==> InputOf(results[i]).Some?
  }

  /** The CSV rows, in result order; Err when a row raises. */
  function Rows(results: seq<Json>, dumps: Json -> string, str: Json -> string): (r: Result<seq<CsvRow>>)
    requires RowsReadable(results)
    decreases |results|
    ensures r.Ok? ==> |r.value| == |results|
    ensures r.Ok? ==> forall i :: 0 <= i < |results| ==> RowOf(results[i], dumps, str) == Ok(r.value[i])
  {
    if |results| == 0 then Ok([])
    else
      var init := Rows(results[..|results| - 1], dumps, str);
      var last := RowOf(results[|results| - 1], dumps, str);
      if init.Err? then init
      else if last.Err? then Err(last.msg)
      else Ok(init.value + [last.value])
  }

  /** The CSV table: its header and its rows. */
  datatype CsvTable = CsvTable(fields: seq<string>, rows: seq<CsvRow>)

  /** The table `export_results` writes with a given header, or Err for the
      exception the writer raises: a row holding a column the header lacks. */
  function Table(results: seq<Json>, fields: seq<string>, dumps: Json -> string, str: Json -> string): (r: Result<CsvTable>)
  {
    if !RowsReadable(results) then Err("AttributeError: input is not a dict")
    else
      var rows := Rows(results, dumps, str);
      if rows.Err? then Err(rows.msg)
      else if exists i, k :: 0 <= i < |rows.value| && k in rows.value[i].inputs && "input_" + k !in fields then
        Err("ValueError: dict contains fields not in fieldnames")
      else Ok(CsvTable(fields, rows.value))
  }

  /** The CSV export as the code builds its header. */
  function CsvAsWritten(results: seq<Json>, keys: seq<string>, dumps: Json -> string, str: Json -> string): Result<CsvTable> {
    Table(results, FieldNamesAsWritten(keys), dumps, str)
  }

  /** The CSV export with every input key's column in the header. */
  function Csv(results: seq<Json>, keys: seq<string>, dumps: Json -> string, str: Json -> string): Result<CsvTable> {
    Table(results, FieldNames(keys), dumps, str)
  }

  /** An input key named like a standard column ("reason") gets no column,
      so writing its row raises, where the corrected header has the column. */
  lemma AsWrittenRejectsReasonInput(dumps: Json -> string, str: Json -> string)
    ensures var results := [JObj(map["input" := JObj(map["reason" := JStr("x")])])];
      CsvAsWritten(results, ["reason"], dumps, str).Err? &&
      KeyOrder(["reason"], results) &&
      Csv(results, ["reason"], dumps, str).Ok?
  {
    var results := [JObj(map["input" := JObj(map["reason" := JStr("x")])])];
    assert InputOf(results[0]) == Some(map["reason" := JStr("x")]);
    assert RowsReadable(results);
    var rows := Rows(results, dumps, str);
    assert rows.Ok? && "reason" in rows.value[0].inputs;
    assert "reason" in StandardFields;
    assert FieldNamesAsWritten(["reason"]) == StandardFields;
    assert "input_reason"[..6] == "input_";
    assert "input_reason" !in StandardFields;
    assert results[..0] == [];
    assert InputKeys(results) == {"reason"};
    assert ["reason"][..0] == [];
    assert "input_" + "reason" == "input_reason";
    assert FieldNames(["reason"]) == StandardFields + ["input_reason"];
  }

  /** With the corrected header, every row's columns are in the header:
      the export raises only for rows it cannot read. */
  lemma CsvColumnsComplete(results: seq<Json>, keys: seq<string>, dumps: Json -> string, str: Json -> string)
    requires KeyOrder(keys, results)
    ensures Csv(results, keys, dumps, str).Err? <==> !RowsReadable(results) || Rows(results, dumps, str).Err?
  {
    if RowsReadable(results) && Rows(results, dumps, str).Ok? {
      var rows := Rows(results, dumps, str).value;
      var fields := FieldNames(keys);
      forall i, k | 0 <= i < |rows| && k in rows[i].inputs ensures "input_" + k in fields {
        assert RowOf(results[i], dumps, str) == Ok(rows[i]);
        assert k in InputOf(results[i]).value;
        assert k in InputKeys(results);
      }
    }
  }

  /** Reasons are cut to their first 500 characters. */
  lemma ReasonClipped(result: Json, dumps: Json -> string, str: Json -> string)
    requires InputOf(result).Some? && "reason" in result.fields && result.fields["reason"].JStr?
    ensures var reason := result.fields["reason"].s;
      RowOf(result, dumps, str).Ok? &&
      RowOf(result, dumps, str).value.reason == JStr(if |reason| <= 500 then reason else reason[..500])
  {
  }

  // ---------------------------------------------------------------------
  // Cleanup

  /** A task `cleanup_old_tasks` removes: completed and created before
      `cutoff`. */
  predicate Expired(t: BatchTaskSummary, cutoff: int) {
    t.createdAt < cutoff && t.status == "completed"
  }

  /** The expired tasks among `ts`, in order. */
  function Doomed(ts: seq<BatchTaskSummary>, cutoff: int): (r: seq<BatchTaskSummary>)
    decreases |ts|
  {
    if |ts| == 0 then []
    else
      var last := ts[|ts| - 1];
      Doomed(ts[..|ts| - 1], cutoff) + (if Expired(last, cutoff) then [last] else [])
  }

  lemma {:induction false} DoomedMembers(ts: seq<BatchTaskSummary>, cutoff: int)
    ensures forall t :: t in Doomed(ts, cutoff) <==> t in ts && Expired(t, cutoff)
    decreases |ts|
  {
    if |ts| > 0 {
      DoomedMembers(ts[..|ts| - 1], cutoff);
      assert ts == ts[..|ts| - 1] + [ts[|ts| - 1]];
    }
  }

  /** Deleting the tasks `ts` in turn: the number of removals that
      succeeded and the directory left behind; removing an id in `fails`
      raises and is skipped. */
  function DeleteAll(ts: seq<BatchTaskSummary>, dirs: map<string, BatchDir>, fails: set<string>): (r: (nat, map<string, BatchDir>))
    decreases |ts|
  {
    if |ts| == 0 then (0, dirs)
    else
      var before := DeleteAll(ts[..|ts| - 1], dirs, fails);
      var id := ts[|ts| - 1].taskId;
      if id in before.1 && id !in fails then (before.0 + 1, before.1 - {id}) else before
  }

  /** The count is the number of entries that disappeared, and exactly the
      ids of `ts` whose removal does not fail disappear. */
  lemma {:induction false} DeleteAllFacts(ts: seq<BatchTaskSummary>, dirs: map<string, BatchDir>, fails: set<string>)
    ensures var r := DeleteAll(ts, dirs, fails);
      r.1.Keys <= dirs.Keys &&
      r.0 + |r.1.Keys| == |dirs.Keys| &&
      (forall n :: n in dirs && n !in r.1 <==> n in dirs && n !in fails && exists t :: t in ts && t.taskId == n) &&
      (forall n :: n in r.1 ==> r.1[n] == dirs[n])
    decreases |ts|
  {
    if |ts| > 0 {
      var init := ts[..|ts| - 1];
      var last := ts[|ts| - 1];
      DeleteAllFacts(init, dirs, fails);
      var before := DeleteAll(init, dirs, fails);
      if last.taskId in before.1 && last.taskId !in fails {
        assert before.1.Keys == (before.1 - {last.taskId}).Keys + {last.taskId};
      }
      forall n ensures n in dirs && n !in DeleteAll(ts, dirs, fails).1 <==> n in dirs && n !in fails && exists t :: t in ts && t.taskId == n {
        if exists t :: t in ts && t.taskId == n {
          var t :| t in ts && t.taskId == n;
          if t != last { assert t in init; }
        }
        if exists t :: t in init && t.taskId == n {
          var t :| t in init && t.taskId == n;
          assert t in ts;
        }
      }
    }
  }

  // ---------------------------------------------------------------------
  // The history directory

  datatype Details = Details(
    taskId: string,
    config: Option<BatchConfig>,
    checkpoint: Option<BatchCheckpoint>,
    summary: Option<SummaryDoc>,
    hasResults: bool)

  /** What `get_task_details` ends with: no such task, an exception from an
      undecodable file, or the details. */
  datatype DetailsOutcome = NoTask | DetailsRaised | Found(details: Details)

  /** What `export_results` returns: None, an exception, the JSON document
      (task id, config and summary, `{}` when absent, and the results), or
      the CSV table. */
  datatype Export =
    | NoExport
    | ExportRaised(msg: string)
    | JsonExport(taskId: string, config: Option<BatchConfig>, summary: Option<SummaryDoc>, results: seq<Json>)
    | CsvExport(table: CsvTable)

  class BatchStore {
    /** The batch evaluations directory's entries by name. */
    var dirs: map<string, BatchDir>

    constructor (dirs: map<string, BatchDir>)
      ensures this.dirs == dirs
    {
      this.dirs := dirs;
    }

    /** `list_tasks`, walking the entries in directory order, then sorting. */
    method ListTasks(order: seq<string>, limit: int) returns (r: seq<BatchTaskSummary>)
      requires Enumerates(order, dirs)
      ensures r == TaskList(order, dirs, limit)
    {
      var found: seq<BatchTaskSummary> := [];
      var i := 0;
      while i < |order|
        invariant 0 <= i <= |order|
        invariant found == Summaries(order[..i], dirs)
      {
        assert order[..i + 1][..i] == order[..i];
        var d := dirs[order[i]];
        if d.isDir && StartsWith(order[i], "batch_") {
          var s := LoadTaskSummary(order[i], d);
          if s.Some? {
            found := found + [s.value];
          }
        }
        i := i + 1;
      }
      assert order[..i] == order;
      r := Slice(SortBy(found, NewerFirst), 0, limit);
    }

    /** `get_task_details`. */
    function GetTaskDetails(id: string): (r: DetailsOutcome)
      reads this
      ensures r == NoTask <==> id !in dirs
      ensures r == DetailsRaised <==>
        id in dirs && dirs[id].isDir && (dirs[id].config.FileUnreadable? || dirs[id].checkpoint.FileUnreadable? || dirs[id].summary.FileUnreadable?)
      ensures r.Found? ==> r.details.taskId == id
      ensures r.Found? && dirs[id].isDir ==>
        r.details.config == Loaded(dirs[id].config) && r.details.checkpoint == Loaded(dirs[id].checkpoint) &&
        r.details.summary == Loaded(dirs[id].summary) && r.details.hasResults == dirs[id].resultsText.Some?
    {
      if id !in dirs then NoTask
      else
        var d := dirs[id];
        if !d.isDir then Found(Details(id, None, None, None, false))
        else if d.config.FileUnreadable? || d.checkpoint.FileUnreadable? || d.summary.FileUnreadable? then DetailsRaised
        else Found(Details(id, Loaded(d.config), Loaded(d.checkpoint), Loaded(d.summary), d.resultsText.Some?))
    }

    /** `get_task_results`. */
    function GetTaskResults(id: string, parse: string -> Option<Json>, offset: int, limit: Option<int>): (r: Option<seq<Json>>)
      reads this
      ensures id !in dirs || !dirs[id].isDir ==> r.None?
      ensures id in dirs && dirs[id].isDir ==> r == ResultsPage(dirs[id].resultsText, parse, offset, limit)
    {
      if id in dirs && dirs[id].isDir then ResultsPage(dirs[id].resultsText, parse, offset, limit) else None
    }

    /** `append_result`: `enc` is the record's JSON text. Writing into a
        missing task directory fails. */
    method AppendResult(id: string, enc: string) returns (ok: bool)
      modifies this
      ensures ok <==> id in old(dirs) && old(dirs)[id].isDir
      ensures ok ==> dirs == old(dirs)[id := old(dirs)[id].(resultsText := Some(Appended(old(dirs)[id].resultsText, enc)))]
      ensures !ok ==> dirs == old(dirs)
    {
      if id !in dirs || !dirs[id].isDir {
        return false;
      }
      var d := dirs[id];
      var text: string;
      if d.resultsText.None? {
        text := "[\n" + enc + "\n]";
      } else {
        text := d.resultsText.value;
        var start := MaxInt(0, |text| - 10);
        var bracket := LastIndexOfChar(text[start..], ']');
        if bracket.Some? {
          text := text[..start + bracket.value] + ",\n" + enc + "\n]";
        }
      }
      dirs := dirs[id := d.(resultsText := Some(text))];
      ok := true;
    }

    /** `delete_task`; `removalFails` stands for an error while removing the
        directory tree. */
    method DeleteTask(id: string, removalFails: bool) returns (ok: bool)
      modifies this
      ensures ok <==> id in old(dirs) && !removalFails
      ensures dirs == if ok then old(dirs) - {id} else old(dirs)
    {
      if id !in dirs || removalFails {
        return false;
      }
      dirs := dirs - {id};
      ok := true;
    }

    /** `export_results`; `keys` is the order in which Python's set visits
        the input keys. The CSV header is the corrected one (see `Csv`). */
    function ExportResults(id: string, format: string, parse: string -> Option<Json>,
                           dumps: Json -> string, str: Json -> string, keys: seq<string>): (r: Export)
      reads this
      requires var rs := GetTaskResults(id, parse, 0, None); rs.Some? ==> KeyOrder(keys, rs.value)
      ensures var rs := GetTaskResults(id, parse, 0, None); rs.None? || rs.value == [] ==> r == NoExport
      ensures format != "json" && format != "csv" ==> r == NoExport || r.ExportRaised?
      ensures r.JsonExport? ==> r.taskId == id && r.results == GetTaskResults(id, parse, 0, None).value
      ensures r.CsvExport? ==> format == "csv" && Csv(GetTaskResults(id, parse, 0, None).value, keys, dumps, str) == Ok(r.table)
    {
      var rs := GetTaskResults(id, parse, 0, None);
      if rs.None? || rs.value == [] then NoExport
      else
        var details := GetTaskDetails(id);
        if details == DetailsRaised then ExportRaised("unreadable task file")
        else
          var config := if details.Found? then details.details.config else None;
          var summary := if details.Found? then details.details.summary else None;
          if format == "json" then JsonExport(id, config, summary, rs.value)
          else if format == "csv" then
            match Csv(rs.value, keys, dumps, str)
            case Ok(table) => CsvExport(table)
            case Err(msg) => ExportRaised(msg)
          else NoExport
    }

    /** `get_incomplete_tasks`: among the newest 100, those running or
        paused with items left. */
    method IncompleteTasks(order: seq<string>) returns (r: seq<BatchTaskSummary>)
      requires Enumerates(order, dirs)
      ensures r == Incomplete(TaskList(order, dirs, 100))
      ensures forall t :: t in r ==> (t.status == "running" || t.status == "paused") && t.completedCount < t.totalCount
    {
      var all := ListTasks(order, 100);
      r := Incomplete(all);
    }

    /** `cleanup_old_tasks` at time `now`: the tasks beyond the newest
        `keepCount` of the newest 1000 that are completed and older than
        `keepDays` days are deleted in turn; removing an id in `fails`
        raises and is skipped. Returns the number deleted. */
    method CleanupOldTasks(order: seq<string>, now: int, keepDays: int, keepCount: int, fails: set<string>) returns (deleted: nat)
      requires Enumerates(order, dirs)
      modifies this
      ensures var all := TaskList(order, old(dirs), 1000);
        (deleted, dirs) == DeleteAll(Doomed(Slice(all, keepCount, |all|), now - keepDays * 86400), old(dirs), fails)
    {
      var all := ListTasks(order, 1000);
      var cutoff := now - keepDays * 86400;
      var toCheck := Slice(all, keepCount, |all|);
      deleted := SweepTasks(toCheck, cutoff, fails);
      SweepDeletesDoomed(toCheck, cutoff, old(dirs), fails);
    }

    /** The loop of cleanup_old_tasks: each expired, completed task of
        `toCheck` is deleted in turn, counting the deletions that succeed. */
    method SweepTasks(toCheck: seq<BatchTaskSummary>, cutoff: int, fails: set<string>) returns (deleted: nat)
      modifies this
      ensures (deleted, dirs) == Sweep(toCheck, cutoff, old(dirs), fails)
    {
      deleted := 0;
      var i := 0;
      while i < |toCheck|
        invariant 0 <= i <= |toCheck|
        invariant (deleted, dirs) == Sweep(toCheck[..i], cutoff, old(dirs), fails)
      {
        assert toCheck[..i + 1][..i] == toCheck[..i];
        var t := toCheck[i];
        if t.createdAt < cutoff && t.status == "completed" {
          assert Expired(t, cutoff);
          var ok := DeleteTask(t.taskId, t.taskId in fails);
          if ok {
            deleted := deleted + 1;
          }
        }
        i := i + 1;
      }
      assert toCheck[..i] == toCheck;
    }
  }

  /** Cleanup never touches the newest `keepCount` tasks: every entry it
      removes is an expired task beyond them, and the count returned is
      the number of entries removed. */
  lemma CleanupFacts(all: seq<BatchTaskSummary>, cutoff: int, keepCount: int, dirs: map<string, BatchDir>, fails: set<string>)
    ensures var r := DeleteAll(Doomed(Slice(all, keepCount, |all|), cutoff), dirs, fails);
      r.0 + |r.1.Keys| == |dirs.Keys| &&
      forall n :: n in dirs && n !in r.1 ==>
        n !in fails && exists k :: SliceBound(keepCount, |all|) <= k < |all| && all[k].taskId == n && Expired(all[k], cutoff)
  {
    var tail := Slice(all, keepCount, |all|);
    var d := Doomed(tail, cutoff);
    DeleteAllFacts(d, dirs, fails);
    DoomedMembers(tail, cutoff);
    var r := DeleteAll(d, dirs, fails);
    forall n | n in dirs && n !in r.1
      ensures n !in fails && exists k :: SliceBound(keepCount, |all|) <= k < |all| && all[k].taskId == n && Expired(all[k], cutoff)
    {
      var t :| t in d && t.taskId == n;
      var j :| 0 <= j < |tail| && tail[j] == t;
      assert all[SliceBound(keepCount, |all|) + j] == t;
    }
  }

  /** The cleanup loop over `ts`: each completed task older than `cutoff`
      is deleted in turn. */
  function Sweep(ts: seq<BatchTaskSummary>, cutoff: int, dirs: map<string, BatchDir>, fails: set<string>): (nat, map<string, BatchDir>)
    decreases |ts|
  {
    if |ts| == 0 then (0, dirs)
    else
      var before := Sweep(ts[..|ts| - 1], cutoff, dirs, fails);
      var t := ts[|ts| - 1];
      if Expired(t, cutoff) && t.taskId in before.1 && t.taskId !in fails then
        (before.0 + 1, before.1 - {t.taskId})
      else before
  }

  lemma {:induction false} SweepDeletesDoomed(ts: seq<BatchTaskSummary>, cutoff: int, dirs: map<string, BatchDir>, fails: set<string>)
    ensures Sweep(ts, cutoff, dirs, fails) == DeleteAll(Doomed(ts, cutoff), dirs, fails)
    decreases |ts|
  {
    if |ts| > 0 {
      var init := ts[..|ts| - 1];
      var t := ts[|ts| - 1];
      SweepDeletesDoomed(init, cutoff, dirs, fails);
      var d := Doomed(ts, cutoff);
      if Expired(t, cutoff) {
        assert d == Doomed(init, cutoff) + [t];
        assert d[..|d| - 1] == Doomed(init, cutoff) && d[|d| - 1] == t;
        assert DeleteAll(d, dirs, fails) == (var before := DeleteAll(Doomed(init, cutoff), dirs, fails);
          if t.taskId in before.1 && t.taskId !in fails then (before.0 + 1, before.1 - {t.taskId}) else before);
      } else {
        assert d == Doomed(init, cutoff);
      }
    }
  }
}
