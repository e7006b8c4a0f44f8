/** Studio's background task manager: one JSON file per task, `<id>.json`,
    holding the task's type, status, timestamps, configuration snapshot and
    progress. Clock readings and the random task id are parameters, and so
    is the ISO-8601 text form of a time (`iso`, with `parse` for reading it
    back). */
module TaskManager {
  import opened Common
  import opened Ordering
  import opened JsonValue

  datatype TaskStatus = Pending | Running | Paused | Completed | Failed | Cancelled

  function StatusValue(s: TaskStatus): string {
    match s
    case Pending => "pending"
    case Running => "running"
    case Paused => "paused"
    case Completed => "completed"
    case Failed => "failed"
    case Cancelled => "cancelled"
  }

  /** `TaskStatus(value)`: None is the ValueError for an unknown value. */
  function ParseStatus(j: Json): (r: Option<TaskStatus>)
    ensures r.Some? ==> j == JStr(StatusValue(r.value))
  {
    if j == JStr("pending") then Some(Pending)
    else if j == JStr("running") then Some(Running)
    else if j == JStr("paused") then Some(Paused)
    else if j == JStr("completed") then Some(Completed)
    else if j == JStr("failed") then Some(Failed)
    else if j == JStr("cancelled") then Some(Cancelled)
    else None
  }

  lemma StatusRoundTrip(s: TaskStatus)
    ensures ParseStatus(JStr(StatusValue(s))) == Some(s)
  {
  }

  datatype TaskType = AutoArena | Autorubric | PairwiseEval | BatchGrading

  function TypeValue(t: TaskType): string {
    match t
    case AutoArena => "auto_arena"
    case Autorubric => "autorubric"
    case PairwiseEval => "pairwise_eval"
    case BatchGrading => "batch_grading"
  }

  function ParseType(j: Json): (r: Option<TaskType>)
    ensures r.Some? ==> j == JStr(TypeValue(r.value))
  {
    if j == JStr("auto_arena") then Some(AutoArena)
    else if j == JStr("autorubric") then Some(Autorubric)
    else if j == JStr("pairwise_eval") then Some(PairwiseEval)
    else if j == JStr("batch_grading") then Some(BatchGrading)
    else None
  }

  lemma TypeRoundTrip(t: TaskType)
    ensures ParseType(JStr(TypeValue(t))) == Some(t)
  {
  }

  datatype TaskProgress = TaskProgress(
    currentStage: string,
    stageProgress: map<string, Json>,
    totalProgress: real,
    message: string,
    logs: seq<string>)

  datatype TaskInfo = TaskInfo(
    taskId: string,
    taskType: TaskType,
    status: TaskStatus,
    createdAt: int,
    updatedAt: int,
    config: map<string, Json>,
    outputDir: string,
    progress: TaskProgress,
    startTime: Option<int>,
    endTime: Option<int>,
    errorMessage: Option<string>)

  const MaxLogs := 100

  /** `logs[-100:]`: the last hundred entries. */
  function KeepLast(logs: seq<string>): (r: seq<string>)
    ensures |r| == MinInt(|logs|, MaxLogs)
    ensures r == logs[|logs| - |r|..]
  {
    Slice(logs, -MaxLogs, |logs|)
  }

  // ---------------------------------------------------------------------
  // to_dict / from_dict

  function StrItems(ss: seq<string>): (r: seq<Json>)
    ensures |r| == |ss|
    ensures forall i :: 0 <= i < |ss| ==> r[i] == JStr(ss[i])
  {
    seq(|ss|, i requires 0 <= i < |ss| => JStr(ss[i]))
  }

  /** A list of strings read back from JSON; None when it is not one. */
  function Strings(items: seq<Json>): (r: Option<seq<string>>)
    decreases |items|
    ensures r.Some? <==> forall i :: 0 <= i < |items| ==> items[i].JStr?
    ensures r.Some? ==> |r.value| == |items| && forall i :: 0 <= i < |items| ==> items[i] == JStr(r.value[i])
  {
    if |items| == 0 then Some([])
    else
      var init := Strings(items[..|items| - 1]);
      var last := items[|items| - 1];
      assert forall i :: 0 <= i < |items| - 1 ==> items[..|items| - 1][i] == items[i];
      if init.Some? && last.JStr? then Some(init.value + [last.s]) else None
  }

  lemma StringsRoundTrip(ss: seq<string>)
    ensures Strings(StrItems(ss)) == Some(ss)
  {
    var r := Strings(StrItems(ss));
    assert r.Some?;
    assert r.value == ss;
  }

  const ProgressKeys: set<string> := {"current_stage", "stage_progress", "total_progress", "message", "logs"}

  /** The value `to_dict` writes under each key of "progress". */
  function ProgressField(p: TaskProgress, key: string): Json {
    if key == "current_stage" then JStr(p.currentStage)
    else if key == "stage_progress" then JObj(p.stageProgress)
    else if key == "total_progress" then JNum(p.totalProgress)
    else if key == "message" then JStr(p.message)
    else JArr(StrItems(KeepLast(p.logs)))
  }

  function ProgressDict(p: TaskProgress): Json {
    JObj(map k | k in ProgressKeys :: ProgressField(p, k))
  }

  function TimeText(t: Option<int>, iso: int -> string): Json {
    if t.Some? then JStr(iso(t.value)) else JNull
  }

  const TaskKeys: set<string> := {"task_id", "task_type", "status", "created_at", "updated_at", "config_snapshot",
                                   "output_dir", "progress", "start_time", "end_time", "error_message"}

  /** The value `to_dict` writes under each key. */
  function TaskField(t: TaskInfo, iso: int -> string, key: string): Json {
    if key == "task_id" then JStr(t.taskId)
    else if key == "task_type" then JStr(TypeValue(t.taskType))
    else if key == "status" then JStr(StatusValue(t.status))
    else if key == "created_at" then JStr(iso(t.createdAt))
    else if key == "updated_at" then JStr(iso(t.updatedAt))
    else if key == "config_snapshot" then JObj(t.config)
    else if key == "output_dir" then JStr(t.outputDir)
    else if key == "progress" then ProgressDict(t.progress)
    else if key == "start_time" then TimeText(t.startTime, iso)
    else if key == "end_time" then TimeText(t.endTime, iso)
    else if t.errorMessage.Some? then JStr(t.errorMessage.value) else JNull
  }

  /** `TaskInfo.to_dict`. */
  function ToDict(t: TaskInfo, iso: int -> string): Json {
    JObj(map k | k in TaskKeys :: TaskField(t, iso, k))
  }

  /** `d.get(key, default)`. */
  function Field(f: map<string, Json>, key: string, default: Json): (r: Json)
    ensures key in f ==> r == f[key]
    ensures key !in f ==> r == default
  {
    if key in f then f[key] else default
  }

  function AsString(j: Json): Option<string> {
    if j.JStr? then Some(j.s) else None
  }

  function AsObject(j: Json): Option<map<string, Json>> {
    if j.JObj? then Some(j.fields) else None
  }

  function AsNumber(j: Json): Option<real> {
    if j.JNum? then Some(j.n) else None
  }

  function AsStrings(j: Json): Option<seq<string>> {
    if j.JArr? then Strings(j.items) else None
  }

  /** The progress part of `from_dict`; None when a field has the wrong shape. */
  function ProgressFromDict(pd: Json): Option<TaskProgress> {
    if !pd.JObj? then None
    else
      var f := pd.fields;
      var stage := AsString(Field(f, "current_stage", JStr("")));
      var stages := AsObject(Field(f, "stage_progress", JObj(map[])));
      var total := AsNumber(Field(f, "total_progress", JNum(0.0)));
      var message := AsString(Field(f, "message", JStr("")));
      var logs := AsStrings(Field(f, "logs", JArr([])));
      if stage.Some? && stages.Some? && total.Some? && message.Some? && logs.Some? then
        Some(TaskProgress(stage.value, stages.value, total.value, message.value, logs.value))
      else None
  }

  /** An optional time: `fromisoformat(d[key]) if d.get(key) else None`.
      The outer None is a raised error. */
  function OptTime(f: map<string, Json>, key: string, parse: string -> Option<int>): Option<Option<int>> {
    if key in f && Truthy(f[key]) then
      (if f[key].JStr? && parse(f[key].s).Some? then Some(Some(parse(f[key].s).value)) else None)
    else Some(None)
  }

  /** `d.get("error_message")`. */
  function OptText(f: map<string, Json>, key: string): Option<Option<string>> {
    if key !in f || f[key] == JNull then Some(None)
    else if f[key].JStr? then Some(Some(f[key].s))
    else None
  }

  function RequiredTime(f: map<string, Json>, key: string, parse: string -> Option<int>): Option<int> {
    if key in f && f[key].JStr? then parse(f[key].s) else None
  }

  /** `TaskInfo.from_dict`; None when it raises. */
  function FromDict(data: Json, parse: string -> Option<int>): (r: Option<TaskInfo>)
    ensures r.Some? ==> data.JObj? && {"task_id", "task_type", "status", "created_at", "updated_at"} <= data.fields.Keys
  {
    if !data.JObj? then None
    else
      var f := data.fields;
      var progress := ProgressFromDict(Field(f, "progress", JObj(map[])));
      var id := if "task_id" in f then AsString(f["task_id"]) else None;
      var ty := if "task_type" in f then ParseType(f["task_type"]) else None;
      var st := if "status" in f then ParseStatus(f["status"]) else None;
      var created := RequiredTime(f, "created_at", parse);
      var updated := RequiredTime(f, "updated_at", parse);
      var config := AsObject(Field(f, "config_snapshot", JObj(map[])));
      var outputDir := AsString(Field(f, "output_dir", JStr("")));
      var start := OptTime(f, "start_time", parse);
      var end := OptTime(f, "end_time", parse);
      var err := OptText(f, "error_message");
      if progress.Some? && id.Some? && ty.Some? && st.Some? && created.Some? && updated.Some? &&
         config.Some? && outputDir.Some? && start.Some? && end.Some? && err.Some?
      then Some(TaskInfo(id.value, ty.value, st.value, created.value, updated.value, config.value,
                         outputDir.value, progress.value, start.value, end.value, err.value))
      else None
  }

  /** `parse` reads back every text `iso` writes, and none of them is empty. */
  ghost predicate IsoInverse(iso: int -> string, parse: string -> Option<int>) {
    forall x :: iso(x) != "" && parse(iso(x)) == Some(x)
  }

  lemma ProgressRoundTrip(p: TaskProgress)
    ensures ProgressFromDict(ProgressDict(p)) == Some(p.(logs := KeepLast(p.logs)))
  {
    StringsRoundTrip(KeepLast(p.logs));
  }

  /** The required fields read back as written. */
  lemma HeaderReadsBack(t: TaskInfo, iso: int -> string, parse: string -> Option<int>)
    requires IsoInverse(iso, parse)
    ensures var f := ToDict(t, iso).fields;
      AsString(f["task_id"]) == Some(t.taskId) &&
      ParseType(f["task_type"]) == Some(t.taskType) &&
      ParseStatus(f["status"]) == Some(t.status) &&
      RequiredTime(f, "created_at", parse) == Some(t.createdAt) &&
      RequiredTime(f, "updated_at", parse) == Some(t.updatedAt)
  {
    StatusRoundTrip(t.status);
    TypeRoundTrip(t.taskType);
  }

  /** The optional fields read back as written. */
  lemma OptionalReadsBack(t: TaskInfo, iso: int -> string, parse: string -> Option<int>)
    requires IsoInverse(iso, parse)
    ensures var f := ToDict(t, iso).fields;
      ProgressFromDict(Field(f, "progress", JObj(map[]))) == Some(t.progress.(logs := KeepLast(t.progress.logs))) &&
      AsObject(Field(f, "config_snapshot", JObj(map[]))) == Some(t.config) &&
      AsString(Field(f, "output_dir", JStr(""))) == Some(t.outputDir) &&
      OptTime(f, "start_time", parse) == Some(t.startTime) &&
      OptTime(f, "end_time", parse) == Some(t.endTime) &&
      OptText(f, "error_message") == Some(t.errorMessage)
  {
    ProgressRoundTrip(t.progress);
    var f := ToDict(t, iso).fields;
    if t.startTime.Some? {
      var x := t.startTime.value;
      assert f["start_time"] == JStr(iso(x));
      assert iso(x) != "" && parse(iso(x)) == Some(x);
    }
    if t.endTime.Some? {
      var x := t.endTime.value;
      assert f["end_time"] == JStr(iso(x));
      assert iso(x) != "" && parse(iso(x)) == Some(x);
    }
  }

  /** Reading back a saved task gives the task, with only its last hundred
      log entries. */
  lemma {:induction false} DictRoundTrip(t: TaskInfo, iso: int -> string, parse: string -> Option<int>)
    requires IsoInverse(iso, parse)
    ensures FromDict(ToDict(t, iso), parse) == Some(t.(progress := t.progress.(logs := KeepLast(t.progress.logs))))
  {
    HeaderReadsBack(t, iso, parse);
    OptionalReadsBack(t, iso, parse);
  }

  /** With at most a hundred log entries, nothing is lost. */
  lemma ShortLogRoundTrip(t: TaskInfo, iso: int -> string, parse: string -> Option<int>)
    requires IsoInverse(iso, parse)
    requires |t.progress.logs| <= MaxLogs
    ensures FromDict(ToDict(t, iso), parse) == Some(t)
  {
    DictRoundTrip(t, iso, parse);
    assert KeepLast(t.progress.logs) == t.progress.logs;
  }

  // ---------------------------------------------------------------------
  // State changes, as functions of the loaded task

  predicate Terminal(s: TaskStatus) {
    s == Completed || s == Failed || s == Cancelled
  }

  /** `update_task` on a loaded task. */
  function Updated(t: TaskInfo, status: Option<TaskStatus>, progress: Option<TaskProgress>, err: Option<string>, now: int): TaskInfo {
    var t1 := t.(updatedAt := now);
    var t2 :=
      if status.None? then t1
      else if status.value == Running && t1.startTime.None? then t1.(status := Running, startTime := Some(now))
      else if Terminal(status.value) then t1.(status := status.value, endTime := Some(now))
      else t1.(status := status.value);
    var t3 := if progress.Some? then t2.(progress := progress.value) else t2;
    if err.Some? && err.value != "" then t3.(errorMessage := err) else t3
  }

  /** The rules `update_task` follows. */
  lemma UpdateRules(t: TaskInfo, status: Option<TaskStatus>, progress: Option<TaskProgress>, err: Option<string>, now: int)
    ensures var u := Updated(t, status, progress, err, now);
      u.taskId == t.taskId && u.updatedAt == now && u.createdAt == t.createdAt &&
      u.status == (if status.Some? then status.value else t.status) &&
      u.startTime == (if status == Some(Running) && t.startTime.None? then Some(now) else t.startTime) &&
      u.endTime == (if status.Some? && Terminal(status.value) then Some(now) else t.endTime) &&
      u.progress == (if progress.Some? then progress.value else t.progress) &&
      u.errorMessage == (if err.Some? && err.value != "" then err else t.errorMessage)
  {
  }

  /** The log line `update_progress` appends. */
  function LogLine(timestamp: string, log: string): string {
    "[" + timestamp + "] " + log
  }

  /** The logs after `update_progress`: with a log message, its line is
      appended and, past a hundred entries, only the last hundred are kept;
      without one, the logs stay as they are. */
  function AppendLog(logs: seq<string>, log: Option<string>, timestamp: string): (r: seq<string>)
    ensures !(log.Some? && log.value != "") ==> r == logs
    ensures log.Some? && log.value != "" ==>
      var full := logs + [LogLine(timestamp, log.value)];
      |r| == (if |full| > MaxLogs then MaxLogs else |full|) &&
      r == full[|full| - |r|..] &&
      r[|r| - 1] == LogLine(timestamp, log.value)
  {
    if log.Some? && log.value != "" then
      var full := logs + [LogLine(timestamp, log.value)];
      if |full| > MaxLogs then full[|full| - MaxLogs..] else full
    else logs
  }

  /** Logs read from a saved task stay within a hundred entries through
      any number of progress updates. */
  lemma AppendLogBounded(logs: seq<string>, log: Option<string>, timestamp: string)
    requires |logs| <= MaxLogs
    ensures |AppendLog(logs, log, timestamp)| <= MaxLogs
  {
  }

  /** `update_progress` on a loaded task. */
  function Progressed(t: TaskInfo, stage: string, stages: map<string, Json>, total: real, message: string,
                      log: Option<string>, timestamp: string, now: int): TaskInfo {
    t.(progress := TaskProgress(stage, stages, total, message, AppendLog(t.progress.logs, log, timestamp)), updatedAt := now)
  }

  function PauseOf(t: TaskInfo, now: int): Option<TaskInfo> {
    if t.status == Running then Some(t.(status := Paused, updatedAt := now)) else None
  }

  function ResumeOf(t: TaskInfo, now: int): Option<TaskInfo> {
    if t.status == Paused then Some(t.(status := Running, updatedAt := now)) else None
  }

  function CancelOf(t: TaskInfo, now: int): Option<TaskInfo> {
    if t.status != Completed && t.status != Cancelled then Some(t.(status := Cancelled, endTime := Some(now), updatedAt := now)) else None
  }

  /** Pausing only leaves RUNNING, resuming only leaves PAUSED, and
      cancelling works from any status but COMPLETED and CANCELLED; each
      changes the status, the update time and (cancel) the end time only. */
  lemma Transitions(t: TaskInfo, now: int)
    ensures PauseOf(t, now).Some? <==> t.status == Running
    ensures PauseOf(t, now).Some? ==> PauseOf(t, now).value == t.(status := Paused, updatedAt := now)
    ensures ResumeOf(t, now).Some? <==> t.status == Paused
    ensures ResumeOf(t, now).Some? ==> ResumeOf(t, now).value == t.(status := Running, updatedAt := now)
    ensures CancelOf(t, now).Some? <==> !(t.status in {Completed, Cancelled})
    ensures CancelOf(t, now).Some? ==>
      CancelOf(t, now).value.status == Cancelled &&
      CancelOf(t, now).value.endTime == Some(now) && CancelOf(t, now).value.startTime == t.startTime
  {
  }

  /** Pausing then resuming a running task gives it back, updated. */
  lemma PauseResume(t: TaskInfo, now1: int, now2: int)
    requires t.status == Running
    ensures ResumeOf(PauseOf(t, now1).value, now2) == Some(t.(updatedAt := now2))
  {
  }

  // ---------------------------------------------------------------------
  // Listing

  predicate NewerFirst(a: TaskInfo, b: TaskInfo) {
    a.updatedAt >= b.updatedAt
  }

  lemma NewerFirstTotalPreorder()
    ensures TotalPreorder(NewerFirst)
  {
  }

  predicate Matches(t: TaskInfo, ty: Option<TaskType>, st: Option<TaskStatus>) {
    (ty.None? || t.taskType == ty.value) && (st.None? || t.status == st.value)
  }

  /** `order` lists every task file exactly once. */
  predicate Enumerates(order: seq<string>, files: map<string, Option<Json>>) {
    (forall i, j :: 0 <= i < j < |order| ==> order[i] != order[j]) &&
    (forall n :: n in order ==> n in files) &&
    (forall n :: n in files ==> n in order)
  }

  function Load(content: Option<Json>, parse: string -> Option<int>): Option<TaskInfo> {
    if content.Some? then FromDict(content.value, parse) else None
  }

  /** The readable tasks among `order` that pass the filters, in that order. */
  function Listed(order: seq<string>, files: map<string, Option<Json>>, parse: string -> Option<int>,
                  ty: Option<TaskType>, st: Option<TaskStatus>): seq<TaskInfo>
    requires forall n :: n in order ==> n in files
    decreases |order|
  {
    if |order| == 0 then []
    else
      var t := Load(files[order[|order| - 1]], parse);
      Listed(order[..|order| - 1], files, parse, ty, st) + (if t.Some? && Matches(t.value, ty, st) then [t.value] else [])
  }

  /** One more name of `order` adds its task when it loads and matches. */
  lemma ListedStep(order: seq<string>, i: int, files: map<string, Option<Json>>, parse: string -> Option<int>,
                   ty: Option<TaskType>, st: Option<TaskStatus>)
    requires 0 <= i < |order|
    requires forall n :: n in order ==> n in files
    ensures var t := Load(files[order[i]], parse);
      Listed(order[..i + 1], files, parse, ty, st) ==
      Listed(order[..i], files, parse, ty, st) + (if t.Some? && Matches(t.value, ty, st) then [t.value] else [])
  {
    assert order[..i + 1][..i] == order[..i];
  }

  lemma {:induction false} ListedMembers(order: seq<string>, files: map<string, Option<Json>>, parse: string -> Option<int>,
                                         ty: Option<TaskType>, st: Option<TaskStatus>)
    requires forall n :: n in order ==> n in files
    ensures forall t :: t in Listed(order, files, parse, ty, st) <==>
      Matches(t, ty, st) && exists n :: n in order && Load(files[n], parse) == Some(t)
    decreases |order|
  {
    if |order| > 0 {
      var init := order[..|order| - 1];
      var last := order[|order| - 1];
      ListedMembers(init, files, parse, ty, st);
      assert order == init + [last];
      forall t ensures t in Listed(order, files, parse, ty, st) <==>
        Matches(t, ty, st) && exists n :: n in order && Load(files[n], parse) == Some(t)
      {
        if t in Listed(order, files, parse, ty, st) && t !in Listed(init, files, parse, ty, st) {
          assert last in order;
        }
        if exists n :: n in order && Load(files[n], parse) == Some(t) {
          var n :| n in order && Load(files[n], parse) == Some(t);
          if n != last {
            assert n in init;
          }
        }
      }
    }
  }

  /** `list_tasks`: most recently updated first, at most `limit`, all
      passing the filters and read from a task file. */
  lemma ListFacts(order: seq<string>, files: map<string, Option<Json>>, parse: string -> Option<int>,
                  ty: Option<TaskType>, st: Option<TaskStatus>, limit: int)
    requires Enumerates(order, files)
    ensures var all := SortBy(Listed(order, files, parse, ty, st), NewerFirst);
      var r := Slice(all, 0, limit);
      SortedBy(r, NewerFirst) &&
      (limit >= 0 ==> |r| == MinInt(limit, |all|)) &&
      r == all[..|r|] &&
      (forall t :: t in all <==> Matches(t, ty, st) && exists n :: n in files && Load(files[n], parse) == Some(t))
  {
    var all := SortBy(Listed(order, files, parse, ty, st), NewerFirst);
    NewerFirstTotalPreorder();
    SortBySorted(Listed(order, files, parse, ty, st), NewerFirst);
    ListedMembers(order, files, parse, ty, st);
    SameElements(all, Listed(order, files, parse, ty, st));
  }

  predicate Active(t: TaskInfo) {
    t.status == Running || t.status == Paused
  }

  /** The running or paused tasks of a list, in its order. */
  function ActiveOnly(ts: seq<TaskInfo>): (r: seq<TaskInfo>)
    decreases |ts|
    ensures |r| <= |ts|
  {
    if |ts| == 0 then []
    else
      assert ts == ts[..|ts| - 1] + [ts[|ts| - 1]];
      ActiveOnly(ts[..|ts| - 1]) + (if Active(ts[|ts| - 1]) then [ts[|ts| - 1]] else [])
  }

  lemma {:induction false} ActiveOnlyMembers(ts: seq<TaskInfo>)
    ensures forall t :: t in ActiveOnly(ts) <==> t in ts && Active(t)
    decreases |ts|
  {
    if |ts| > 0 {
      ActiveOnlyMembers(ts[..|ts| - 1]);
      assert ts == ts[..|ts| - 1] + [ts[|ts| - 1]];
    }
  }

  const DefaultLimit := 50

  /** `get_running_tasks` looks only at the fifty most recently updated
      tasks of the type: an active task is returned exactly when it is
      among them. */
  lemma RunningWithinLimit(order: seq<string>, files: map<string, Option<Json>>, parse: string -> Option<int>,
                           ty: Option<TaskType>)
    requires Enumerates(order, files)
    ensures var listed := Slice(SortBy(Listed(order, files, parse, ty, None), NewerFirst), 0, DefaultLimit);
      var r := ActiveOnly(listed);
      |r| <= DefaultLimit &&
      (forall t :: t in r <==> t in listed && Active(t))
  {
    var all := SortBy(Listed(order, files, parse, ty, None), NewerFirst);
    assert |Slice(all, 0, DefaultLimit)| <= DefaultLimit;
    ActiveOnlyMembers(Slice(all, 0, DefaultLimit));
  }

  // ---------------------------------------------------------------------
  // The store

  class TaskStore {
    const tasksDir: string
    const iso: int -> string
    const parse: string -> Option<int>
    /** The parsed content of each `<id>.json` (None: not valid JSON). */
    var files: map<string, Option<Json>>

    constructor (tasksDir: string, iso: int -> string, parse: string -> Option<int>, existing: map<string, Option<Json>>)
      ensures this.tasksDir == tasksDir && this.iso == iso && this.parse == parse && files == existing
    {
      this.tasksDir := tasksDir;
      this.iso := iso;
      this.parse := parse;
      files := existing;
    }

    /** `get_task`: None for a missing or unreadable file. */
    function GetTask(id: string): (r: Option<TaskInfo>)
      reads this
      ensures r.Some? ==> id in files && files[id].Some? && FromDict(files[id].value, parse) == r
      ensures id !in files ==> r.None?
    {
      if id in files then Load(files[id], parse) else None
    }

    method Save(t: TaskInfo)
      modifies this
      ensures files == old(files)[t.taskId := Some(ToDict(t, iso))]
    {
      files := files[t.taskId := Some(ToDict(t, iso))];
    }

    /** `create_task`; `id` is the fresh eight-character id. */
    method CreateTask(ty: TaskType, config: map<string, Json>, outputDir: Option<string>, id: string, now: int)
      returns (t: TaskInfo)
      modifies this
      ensures t.taskId == id && t.taskType == ty && t.status == Pending
      ensures t.createdAt == now && t.updatedAt == now
      ensures t.config == config
      ensures t.outputDir == if outputDir.Some? then outputDir.value else tasksDir + "/outputs/" + TypeValue(ty) + "_" + id
      ensures t.progress == TaskProgress("", map[], 0.0, "", [])
      ensures t.startTime.None? && t.endTime.None? && t.errorMessage.None?
      ensures files == old(files)[id := Some(ToDict(t, iso))]
    {
      var dir := if outputDir.None? then tasksDir + "/outputs/" + TypeValue(ty) + "_" + id else outputDir.value;
      t := TaskInfo(id, ty, Pending, now, now, config, dir, TaskProgress("", map[], 0.0, "", []), None, None, None);
      Save(t);
    }

    /** `update_task`. */
    method UpdateTask(id: string, status: Option<TaskStatus>, progress: Option<TaskProgress>, err: Option<string>, now: int)
      returns (r: Option<TaskInfo>)
      modifies this
      ensures old(GetTask(id)).None? ==> r.None? && files == old(files)
      ensures old(GetTask(id)).Some? ==>
        r == Some(Updated(old(GetTask(id)).value, status, progress, err, now)) &&
        files == old(files)[r.value.taskId := Some(ToDict(r.value, iso))]
    {
      var task := GetTask(id);
      if task.None? {
        return None;
      }
      var t := task.value;
      t := t.(updatedAt := now);
      if status.Some? {
        t := t.(status := status.value);
        if status.value == Running && t.startTime.None? {
          t := t.(startTime := Some(now));
        } else if Terminal(status.value) {
          t := t.(endTime := Some(now));
        }
      }
      if progress.Some? {
        t := t.(progress := progress.value);
      }
      if err.Some? && err.value != "" {
        t := t.(errorMessage := err);
      }
      Save(t);
      return Some(t);
    }

    /** `update_progress`; `timestamp` is the clock's "%H:%M:%S" text. */
    method UpdateProgress(id: string, stage: string, stages: map<string, Json>, total: real, message: string,
                          log: Option<string>, timestamp: string, now: int)
      returns (r: Option<TaskInfo>)
      modifies this
      ensures old(GetTask(id)).None? ==> r.None? && files == old(files)
      ensures old(GetTask(id)).Some? ==>
        r == Some(Progressed(old(GetTask(id)).value, stage, stages, total, message, log, timestamp, now)) &&
        files == old(files)[r.value.taskId := Some(ToDict(r.value, iso))]
    {
      var task := GetTask(id);
      if task.None? {
        return None;
      }
      var t := task.value;
      ghost var expected := Progressed(t, stage, stages, total, message, log, timestamp, now);
      var logs := t.progress.logs;
      if log.Some? && log.value != "" {
        logs := logs + [LogLine(timestamp, log.value)];
        if |logs| > MaxLogs {
          logs := logs[|logs| - MaxLogs..];
        }
      }
      assert logs == AppendLog(t.progress.logs, log, timestamp);
      t := t.(progress := TaskProgress(stage, stages, total, message, logs), updatedAt := now);
      assert t == expected;
      Save(t);
      return Some(t);
    }

    /** `pause_task`. */
    method PauseTask(id: string, now: int) returns (ok: bool)
      modifies this
      ensures var p := if old(GetTask(id)).Some? then PauseOf(old(GetTask(id)).value, now) else None;
        ok == p.Some? &&
        (ok ==> files == old(files)[p.value.taskId := Some(ToDict(p.value, iso))]) &&
        (!ok ==> files == old(files))
    {
      var task := GetTask(id);
      if task.None? || task.value.status != Running {
        return false;
      }
      var t := task.value.(status := Paused, updatedAt := now);
      Save(t);
      return true;
    }

    /** `resume_task`. */
    method ResumeTask(id: string, now: int) returns (ok: bool)
      modifies this
      ensures var p := if old(GetTask(id)).Some? then ResumeOf(old(GetTask(id)).value, now) else None;
        ok == p.Some? &&
        (ok ==> files == old(files)[p.value.taskId := Some(ToDict(p.value, iso))]) &&
        (!ok ==> files == old(files))
    {
      var task := GetTask(id);
      if task.None? || task.value.status != Paused {
        return false;
      }
      var t := task.value.(status := Running, updatedAt := now);
      Save(t);
      return true;
    }

    /** `cancel_task`. */
    method CancelTask(id: string, now: int) returns (ok: bool)
      modifies this
      ensures var p := if old(GetTask(id)).Some? then CancelOf(old(GetTask(id)).value, now) else None;
        ok == p.Some? &&
        (ok ==> files == old(files)[p.value.taskId := Some(ToDict(p.value, iso))]) &&
        (!ok ==> files == old(files))
    {
      var task := GetTask(id);
      if task.None? || task.value.status == Completed || task.value.status == Cancelled {
        return false;
      }
      var t := task.value.(status := Cancelled, endTime := Some(now), updatedAt := now);
      Save(t);
      return true;
    }

    /** `delete_task`: removes the file if there is one, readable or not. */
    method DeleteTask(id: string) returns (ok: bool)
      modifies this
      ensures ok == (id in old(files))
      ensures files == old(files) - {id}
    {
      ok := id in files;
      files := files - {id};
    }

    /** `list_tasks`; `order` is the order the directory lists the files in. */
    method ListTasks(order: seq<string>, ty: Option<TaskType>, st: Option<TaskStatus>, limit: int)
      returns (r: seq<TaskInfo>)
      requires Enumerates(order, files)
      ensures r == Slice(SortBy(Listed(order, files, parse, ty, st), NewerFirst), 0, limit)
    {
      var found: seq<TaskInfo> := [];
      var i := 0;
      while i < |order|
        invariant 0 <= i <= |order|
        invariant found == Listed(order[..i], files, parse, ty, st)
      {
        ListedStep(order, i, files, parse, ty, st);
        var t := Load(files[order[i]], parse);
        if t.Some? && Matches(t.value, ty, st) {
          found := found + [t.value];
        }
        i := i + 1;
      }
      assert order[..i] == order;
      r := Slice(SortBy(found, NewerFirst), 0, limit);
    }

    /** `get_running_tasks`. */
    method GetRunningTasks(order: seq<string>, ty: Option<TaskType>) returns (r: seq<TaskInfo>)
      requires Enumerates(order, files)
      ensures r == ActiveOnly(Slice(SortBy(Listed(order, files, parse, ty, None), NewerFirst), 0, DefaultLimit))
    {
      var listed := ListTasks(order, ty, None, DefaultLimit);
      r := FilterActive(listed);
    }
  }

  /** The comprehension of `get_running_tasks`. */
  method FilterActive(ts: seq<TaskInfo>) returns (r: seq<TaskInfo>)
    ensures r == ActiveOnly(ts)
  {
    r := [];
    var i := 0;
    while i < |ts|
      invariant 0 <= i <= |ts|
      invariant r == ActiveOnly(ts[..i])
    {
      assert ts[..i + 1][..i] == ts[..i];
      if Active(ts[i]) {
        r := r + [ts[i]];
      }
      i := i + 1;
    }
    assert ts[..i] == ts;
  }

  /** A freshly created task reads back as created. */
  lemma CreatedReadsBack(t: TaskInfo, iso: int -> string, parse: string -> Option<int>)
    requires IsoInverse(iso, parse)
    requires t.progress == TaskProgress("", map[], 0.0, "", [])
    ensures FromDict(ToDict(t, iso), parse) == Some(t)
  {
    ShortLogRoundTrip(t, iso, parse);
  }
}
