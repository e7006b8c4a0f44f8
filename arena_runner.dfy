/** The studio's Auto Arena runner: the UI configuration it receives, the
    progress record the UI polls (stage, per-stage progress, an overall
    fraction interpolated between fixed stage weights, a timestamped log),
    the configuration check done before a run, the arena configuration built
    from the UI settings, the run itself through the arena pipeline's four
    calls, and resuming a paused evaluation from its output directory.

    The arena pipeline is not part of this model: each of its calls is an
    outcome the caller supplies (a value, an exception, or the asyncio
    cancellation that pauses the run). The clock becomes a timestamp string
    the caller passes for the log lines of one call; the UI callback is not
    modelled. */
module ArenaRunner {
  import opened Common

  // ---------------------------------------------------------------------
  // The UI configuration

  /** One target model as the UI keeps it; a missing key is None. */
  datatype EndpointSettings = EndpointSettings(
    baseUrl: Option<string>,
    apiKey: Option<string>,
    model: Option<string>,
    systemPrompt: Option<string>)

  /** The fields of the UI configuration dict that the runner reads. A
      missing key is None; the target models are the `target_endpoints` dict
      in insertion order (a missing dict and an empty one read alike, so
      both are `[]`). `resume` also looks at the dict itself: see
      `ConfigDict`. */
  datatype UiConfig = UiConfig(
    taskDescription: Option<string>,
    taskScenario: Option<string>,
    targetEndpoints: seq<(string, EndpointSettings)>,
    judgeEndpoint: Option<string>,
    judgeApiKey: Option<string>,
    judgeModel: Option<string>,
    numQueries: Option<int>,
    seedQueries: Option<seq<string>>,
    queryTemperature: Option<real>,
    maxSimilarity: Option<real>,
    enableEvolution: Option<bool>,
    maxConcurrency: Option<int>,
    saveQueries: Option<bool>,
    saveResponses: Option<bool>,
    saveDetails: Option<bool>,
    outputDir: Option<string>,
    generateReport: Option<bool>,
    generateChart: Option<bool>)

  /** Python truthiness of an optional string setting. */
  predicate Filled(s: Option<string>) {
    s.Some? && s.value != ""
  }

  /** The empty dict `{}`. */
  const EmptyConfig := UiConfig(None, None, [], None, None, None, None, None, None, None, None, None, None, None, None, None, None, None)

  // ---------------------------------------------------------------------
  // Stages and the overall fraction

  datatype PipelineStage =
    NotStarted | Queries | Responses | Rubrics | Evaluation | Analysis | Completed | Failed | Paused

  /** The enum's string value, the key of `stage_progress`. */
  function StageValue(s: PipelineStage): (v: string)
    ensures s != NotStarted ==> v != "not_started"
  {
    match s
    case NotStarted => "not_started"
    case Queries => "queries"
    case Responses => "responses"
    case Rubrics => "rubrics"
    case Evaluation => "evaluation"
    case Analysis => "analysis"
    case Completed => "completed"
    case Failed => "failed"
    case Paused => "paused"
  }

  /** Each stage of the ordered list with the weight at which it starts;
      a stage ends where the next one starts. */
  const StageWeights: seq<(PipelineStage, real)> := [
    (NotStarted, 0.0), (Queries, 0.0), (Responses, 0.15), (Rubrics, 0.45),
    (Evaluation, 0.55), (Analysis, 0.90), (Completed, 1.0)]

  /** The position of a stage in `StageWeights`, or -1 (failed, paused). */
  function WeightIndex(s: PipelineStage): int {
    match s
    case NotStarted => 0
    case Queries => 1
    case Responses => 2
    case Rubrics => 3
    case Evaluation => 4
    case Analysis => 5
    case Completed => 6
    case Failed => -1
    case Paused => -1
  }

  /** The stages a run works through, each with a band of its own. */
  predicate Working(s: PipelineStage) {
    s in {Queries, Responses, Rubrics, Evaluation, Analysis}
  }

  /** `{"progress": p, "message": m}` under a stage's value. */
  datatype StageEntry = StageEntry(progress: real, message: string)

  /** `stage_progress.get(stage.value, {}).get("progress", 0.0)`. */
  function Fraction(s: PipelineStage, sp: map<string, StageEntry>): real {
    if StageValue(s) in sp then sp[StageValue(s)].progress else 0.0
  }

  /** The overall fraction for a stage: 1 when completed, the current value
      when failed or paused, 0 before the first stage, and otherwise the
      stage's start weight plus its share of the band up to the next one. */
  function TotalProgress(s: PipelineStage, sp: map<string, StageEntry>, current: real): real {
    if s == Completed then 1.0
    else if s == Failed || s == Paused then current
    else
      var i := WeightIndex(s);
      if i <= 0 then 0.0
      else
        var start := StageWeights[i].1;
        var end := if i + 1 < |StageWeights| then StageWeights[i + 1].1 else 1.0;
        start + (end - start) * Fraction(s, sp)
  }

  /** Where a working stage's band starts and ends. */
  function BandStart(s: PipelineStage): real
    requires Working(s)
  {
    StageWeights[WeightIndex(s)].1
  }

  function BandEnd(s: PipelineStage): real
    requires Working(s)
  {
    StageWeights[WeightIndex(s) + 1].1
  }

  /** The three kinds of stage, as the total sees them. */
  lemma TotalProgressCases(s: PipelineStage, sp: map<string, StageEntry>, current: real)
    ensures s == Completed ==> TotalProgress(s, sp, current) == 1.0
    ensures s == Failed || s == Paused ==> TotalProgress(s, sp, current) == current
    ensures s == NotStarted ==> TotalProgress(s, sp, current) == 0.0
    ensures Working(s) ==> TotalProgress(s, sp, current) == BandStart(s) + (BandEnd(s) - BandStart(s)) * Fraction(s, sp)
  {
  }

  /** A stage fraction in [0, 1] keeps the total inside the stage's band. */
  lemma {:induction false} WithinBand(s: PipelineStage, sp: map<string, StageEntry>, current: real)
    requires Working(s)
    requires 0.0 <= Fraction(s, sp) <= 1.0
    ensures BandStart(s) <= TotalProgress(s, sp, current) <= BandEnd(s)
    ensures 0.0 <= BandStart(s) < BandEnd(s) <= 1.0
  {
    var f := Fraction(s, sp);
    var a, b := BandStart(s), BandEnd(s);
    assert TotalProgress(s, sp, current) == a + (b - a) * f;
    BandStep(a, b, f);
  }

  lemma BandStep(a: real, b: real, f: real)
    requires a <= b && 0.0 <= f <= 1.0
    ensures a <= a + (b - a) * f <= b
  {
    assert (b - a) * f <= (b - a) * 1.0;
  }

  /** A later working stage never shows less than an earlier one: the bands
      follow one another in stage order. */
  lemma {:induction false} MonotoneInStageOrder(s: PipelineStage, t: PipelineStage, sp: map<string, StageEntry>, tp: map<string, StageEntry>, current: real)
    requires Working(s) && Working(t) && WeightIndex(s) < WeightIndex(t)
    requires 0.0 <= Fraction(s, sp) <= 1.0 && 0.0 <= Fraction(t, tp) <= 1.0
    ensures TotalProgress(s, sp, current) <= TotalProgress(t, tp, current)
  {
    WithinBand(s, sp, current);
    WithinBand(t, tp, current);
    assert BandEnd(s) <= BandStart(t);
  }

  // ---------------------------------------------------------------------
  // The progress record

  datatype ArenaResult = ArenaResult(bestPipeline: string, rankings: seq<(string, real)>)

  /** The fields of a `PipelineProgress` (the two datetimes are left out). */
  datatype ProgressState = ProgressState(
    stage: PipelineStage,
    totalProgress: real,
    stageProgress: map<string, StageEntry>,
    logs: seq<string>,
    error: Option<string>,
    result: Option<ArenaResult>,
    outputDir: string)

  /** A fresh record: not started, nothing logged. */
  const InitialProgress := ProgressState(NotStarted, 0.0, map[], [], None, None, "")

  /** A log line: the timestamp in brackets, then the message. */
  function Stamped(stamp: string, message: string): string {
    "[" + stamp + "] " + message
  }

  function Logged(p: ProgressState, stamp: string, message: string): ProgressState {
    p.(logs := p.logs + [Stamped(stamp, message)])
  }

  /** `update_stage`: the stage, its entry, and the recomputed total. */
  function WithStage(p: ProgressState, s: PipelineStage, fraction: real, message: string): ProgressState {
    var sp := p.stageProgress[StageValue(s) := StageEntry(fraction, message)];
    p.(stage := s, stageProgress := sp, totalProgress := TotalProgress(s, sp, p.totalProgress))
  }

  /** The overall fraction and every recorded stage fraction lie in [0, 1]. */
  predicate Sane(p: ProgressState) {
    0.0 <= p.totalProgress <= 1.0 &&
    forall k :: k in p.stageProgress ==> 0.0 <= p.stageProgress[k].progress <= 1.0
  }

  /** Moving to a stage with a fraction in [0, 1] keeps the record sane, and
      a working stage lands in its band with exactly that fraction. */
  lemma {:induction false} WithStageSane(p: ProgressState, s: PipelineStage, fraction: real, message: string)
    requires Sane(p) && 0.0 <= fraction <= 1.0
    ensures Sane(WithStage(p, s, fraction, message))
    ensures Working(s) ==> WithStage(p, s, fraction, message).totalProgress == BandStart(s) + (BandEnd(s) - BandStart(s)) * fraction
  {
    var sp := p.stageProgress[StageValue(s) := StageEntry(fraction, message)];
    assert Fraction(s, sp) == fraction;
    if Working(s) {
      WithinBand(s, sp, p.totalProgress);
    }
  }

  class PipelineProgress {
    var stage: PipelineStage
    var totalProgress: real
    var stageProgress: map<string, StageEntry>
    var logs: seq<string>
    var error: Option<string>
    var result: Option<ArenaResult>
    var outputDir: string

    function View(): ProgressState
      reads this
    {
      ProgressState(stage, totalProgress, stageProgress, logs, error, result, outputDir)
    }

    constructor ()
      ensures View() == InitialProgress
    {
      stage, totalProgress, stageProgress, logs := NotStarted, 0.0, map[], [];
      error, result, outputDir := None, None, "";
    }

    /** `add_log`: exactly one timestamped line more, nothing else changes. */
    method AddLog(message: string, stamp: string)
      modifies this
      ensures View() == Logged(old(View()), stamp, message)
      ensures |logs| == |old(logs)| + 1
    {
      logs := logs + [Stamped(stamp, message)];
    }

    /** `update_stage`: set the stage, record the fraction and message under
        it, and recompute the total. */
    method UpdateStage(s: PipelineStage, fraction: real, message: string)
      modifies this
      ensures View() == WithStage(old(View()), s, fraction, message)
    {
      stage := s;
      stageProgress := stageProgress[StageValue(s) := StageEntry(fraction, message)];
      UpdateTotalProgress();
    }

    /** `_update_total_progress`: search the weight list for the stage and
        interpolate inside its band. */
    method UpdateTotalProgress()
      modifies this
      ensures View() == old(View()).(totalProgress := TotalProgress(stage, stageProgress, old(totalProgress)))
    {
      if stage == Completed {
        totalProgress := 1.0;
        return;
      }
      if stage == Failed || stage == Paused {
        return;
      }
      var current := -1;
      var i := 0;
      while i < |StageWeights|
        invariant 0 <= i <= |StageWeights|
        invariant current == -1 ==> i <= WeightIndex(stage)
        invariant current != -1 ==> current == WeightIndex(stage)
        invariant View() == old(View())
      {
        if StageWeights[i].0 == stage {
          current := i;
          break;
        }
        i := i + 1;
      }
      if current < 0 || current == 0 {
        totalProgress := 0.0;
        return;
      }
      var start := StageWeights[current].1;
      var end := if current + 1 < |StageWeights| then StageWeights[current + 1].1 else 1.0;
      var fraction := if StageValue(stage) in stageProgress then stageProgress[StageValue(stage)].progress else 0.0;
      totalProgress := start + (end - start) * fraction;
    }
  }

  // ---------------------------------------------------------------------
  // The configuration check

  /** The first target model, in dict order, lacking a key or a model name;
      a model lacking both is reported for its key. */
  function EndpointProblem(eps: seq<(string, EndpointSettings)>): (r: Option<string>)
    decreases |eps|
    ensures r.None? <==> forall i :: 0 <= i < |eps| ==> Filled(eps[i].1.apiKey) && Filled(eps[i].1.model)
    ensures |eps| > 0 && !Filled(eps[0].1.apiKey) ==> r == Some("API key missing for target model '" + eps[0].0 + "'")
    ensures |eps| > 0 && Filled(eps[0].1.apiKey) && !Filled(eps[0].1.model) ==> r == Some("Model name missing for target model '" + eps[0].0 + "'")
  {
    if |eps| == 0 then None
    else if !Filled(eps[0].1.apiKey) then Some("API key missing for target model '" + eps[0].0 + "'")
    else if !Filled(eps[0].1.model) then Some("Model name missing for target model '" + eps[0].0 + "'")
    else
      var r := EndpointProblem(eps[1..]);
      assert forall i :: 1 <= i < |eps| ==> eps[i] == eps[1..][i - 1];
      r
  }

  /** `validate_config`'s verdict: None when valid, else the message of the
      first failed check, in the order task, model count, each target model,
      judge key, judge model. */
  function Validation(c: UiConfig): (r: Option<string>)
    ensures r.None? <==> Filled(c.taskDescription) && |c.targetEndpoints| >= 2 && EndpointProblem(c.targetEndpoints).None? && Filled(c.judgeApiKey) && Filled(c.judgeModel)
    ensures !Filled(c.taskDescription) ==> r == Some("Task description is required")
    ensures Filled(c.taskDescription) && |c.targetEndpoints| < 2 ==> r == Some("At least 2 target models are required for comparison")
    ensures Filled(c.taskDescription) && |c.targetEndpoints| >= 2 && EndpointProblem(c.targetEndpoints).Some? ==> r == EndpointProblem(c.targetEndpoints)
    ensures Filled(c.taskDescription) && |c.targetEndpoints| >= 2 && EndpointProblem(c.targetEndpoints).None? && !Filled(c.judgeApiKey) ==> r == Some("Judge model API key is required")
    ensures Filled(c.taskDescription) && |c.targetEndpoints| >= 2 && EndpointProblem(c.targetEndpoints).None? && Filled(c.judgeApiKey) && !Filled(c.judgeModel) ==> r == Some("Judge model name is required")
  {
    if !Filled(c.taskDescription) then Some("Task description is required")
    else if |c.targetEndpoints| < 2 then Some("At least 2 target models are required for comparison")
    else if EndpointProblem(c.targetEndpoints).Some? then EndpointProblem(c.targetEndpoints)
    else if !Filled(c.judgeApiKey) then Some("Judge model API key is required")
    else if !Filled(c.judgeModel) then Some("Judge model name is required")
    else None
  }

  // ---------------------------------------------------------------------
  // The arena configuration built from the UI settings

  /** An OpenAI-compatible endpoint of the arena configuration. */
  datatype OpenAIEndpoint = OpenAIEndpoint(baseUrl: string, apiKey: string, model: string, systemPrompt: Option<string>)

  datatype ArenaConfig = ArenaConfig(
    description: string,
    scenario: Option<string>,
    targets: seq<(string, OpenAIEndpoint)>,
    judge: OpenAIEndpoint,
    numQueries: int,
    seedQueries: Option<seq<string>>,
    temperature: real,
    maxSimilarity: real,
    enableEvolution: bool,
    maxConcurrency: int,
    saveQueries: bool,
    saveResponses: bool,
    saveDetails: bool,
    outputDir: string,
    reportEnabled: bool,
    chartEnabled: bool)

  function TargetOf(e: EndpointSettings): OpenAIEndpoint {
    OpenAIEndpoint(e.baseUrl.GetOr(""), e.apiKey.GetOr(""), e.model.GetOr(""), e.systemPrompt)
  }

  /** The target models kept by the arena configuration, in dict order. */
  function KeptTargets(eps: seq<(string, EndpointSettings)>): seq<(string, OpenAIEndpoint)>
    decreases |eps|
  {
    if |eps| == 0 then []
    else
      var last := eps[|eps| - 1];
      KeptTargets(eps[..|eps| - 1]) + (if Filled(last.1.apiKey) && Filled(last.1.model) then [(last.0, TargetOf(last.1))] else [])
  }

  /** Exactly the target models with both a key and a model name are kept,
      with their settings, and none is added. */
  lemma {:induction false} KeptTargetsFacts(eps: seq<(string, EndpointSettings)>)
    ensures |KeptTargets(eps)| <= |eps|
    ensures forall name, e :: (name, e) in eps && Filled(e.apiKey) && Filled(e.model) ==> (name, TargetOf(e)) in KeptTargets(eps)
    ensures forall t :: t in KeptTargets(eps) ==> exists e :: (t.0, e) in eps && Filled(e.apiKey) && Filled(e.model) && t.1 == TargetOf(e)
    decreases |eps|
  {
    if |eps| > 0 {
      var init := eps[..|eps| - 1];
      KeptTargetsFacts(init);
      assert eps == init + [eps[|eps| - 1]];
      forall t | t in KeptTargets(eps)
        ensures exists e :: (t.0, e) in eps && Filled(e.apiKey) && Filled(e.model) && t.1 == TargetOf(e)
      {
        if t in KeptTargets(init) {
          var e :| (t.0, e) in init && Filled(e.apiKey) && Filled(e.model) && t.1 == TargetOf(e);
          assert (t.0, e) in eps;
        } else {
          assert (t.0, eps[|eps| - 1].1) in eps;
        }
      }
    }
  }

  /** `seed_queries or None`. */
  function SeedsOrNone(s: Option<seq<string>>): Option<seq<string>> {
    if s.Some? && s.value != [] then s else None
  }

  function ArenaOutputDir(c: UiConfig): string {
    c.outputDir.GetOr("./evaluation_results")
  }

  /** `_build_arena_config`: every setting with its default, and only the
      complete target models. */
  function ArenaConfigOf(c: UiConfig): ArenaConfig {
    ArenaConfig(
      c.taskDescription.GetOr(""), c.taskScenario, KeptTargets(c.targetEndpoints),
      OpenAIEndpoint(c.judgeEndpoint.GetOr(""), c.judgeApiKey.GetOr(""), c.judgeModel.GetOr(""), None),
      c.numQueries.GetOr(20), SeedsOrNone(c.seedQueries), c.queryTemperature.GetOr(0.9),
      c.maxSimilarity.GetOr(0.85), c.enableEvolution.GetOr(false), c.maxConcurrency.GetOr(10),
      c.saveQueries.GetOr(true), c.saveResponses.GetOr(true), c.saveDetails.GetOr(true),
      ArenaOutputDir(c), c.generateReport.GetOr(true), c.generateChart.GetOr(true))
  }

  /** The defaults the arena configuration takes for an empty UI config. */
  lemma EmptyConfigDefaults()
    ensures var a := ArenaConfigOf(EmptyConfig);
      a.description == "" && a.targets == [] && a.numQueries == 20 && a.seedQueries.None? &&
      a.temperature == 0.9 && a.maxSimilarity == 0.85 && !a.enableEvolution && a.maxConcurrency == 10 &&
      a.saveQueries && a.saveResponses && a.saveDetails && a.outputDir == "./evaluation_results" &&
      a.reportEnabled && a.chartEnabled
  {
  }

  /** A configuration that passes the check keeps every target model. */
  lemma {:induction false} ValidKeepsAllTargets(eps: seq<(string, EndpointSettings)>)
    requires EndpointProblem(eps).None?
    ensures |KeptTargets(eps)| == |eps|
    decreases |eps|
  {
    if |eps| > 0 {
      var init := eps[..|eps| - 1];
      assert EndpointProblem(init).None? by {
        assert forall i :: 0 <= i < |init| ==> init[i] == eps[i];
      }
      ValidKeepsAllTargets(init);
    }
  }

  // ---------------------------------------------------------------------
  // The run

  /** What one awaited pipeline call does: return a value, raise an
      exception with a message, or be cancelled by asyncio. */
  datatype StageCall<T> = Returned(value: T) | Raised(error: string) | Interrupted

  /** The arena pipeline's four calls and `save_results` (None: it returns). */
  datatype ArenaPipeline = ArenaPipeline(
    queries: StageCall<nat>,
    responses: StageCall<nat>,
    rubrics: StageCall<nat>,
    evaluation: StageCall<ArenaResult>,
    saveError: Option<string>)

  /** The texts of one counted stage: its start message and log line, and
      the verb and nouns of its completion message and log line. */
  datatype StageTexts = StageTexts(stage: PipelineStage, startMessage: string, startLog: string, verb: string, noun: string, logNoun: string)

  const QueriesTexts := StageTexts(Queries, "Generating test queries...", "Stage 1: Generating test queries", "Generated", "queries", "test queries")
  const ResponsesTexts := StageTexts(Responses, "Collecting model responses...", "Stage 2: Collecting responses from target models", "Collected", "responses", "responses")
  const RubricsTexts := StageTexts(Rubrics, "Generating evaluation rubrics...", "Stage 3: Generating evaluation rubrics", "Generated", "rubrics", "evaluation rubrics")

  /** The `except Exception` handler. */
  function Raise(p: ProgressState, e: string, stamp: string): ProgressState {
    Logged(p.(stage := Failed, error := Some(e)), stamp, "Error: " + e)
  }

  /** The `except asyncio.CancelledError` handler. */
  function Interrupt(p: ProgressState, stamp: string): ProgressState {
    Logged(p.(stage := Paused), stamp, "Pipeline cancelled")
  }

  /** What `cancel()` adds to the record. */
  function CancelNoted(p: ProgressState, stamp: string): ProgressState {
    Logged(p, stamp, "Cancellation requested...")
  }

  datatype Step = Go(p: ProgressState) | Stop(p: ProgressState)

  /** One counted stage: announce it, stop if cancelled, await the call,
      and record the count. */
  function CountStage(p: ProgressState, tx: StageTexts, call: StageCall<nat>, cancelled: bool, stamp: string): Step {
    var p1 := Logged(WithStage(p, tx.stage, 0.0, tx.startMessage), stamp, tx.startLog);
    if cancelled then Stop(CancelNoted(p1, stamp))
    else
      match call
      case Returned(n) =>
        var count := NatToString(n);
        Go(Logged(WithStage(p1, tx.stage, 1.0, tx.verb + " " + count + " " + tx.noun), stamp, tx.verb + " " + count + " " + tx.logNoun))
      case Raised(e) => Stop(Raise(p1, e, stamp))
      case Interrupted => Stop(Interrupt(p1, stamp))
  }

  /** After a returned evaluation: the analysis step, completion, and the
      save that may still fail. */
  function Completion(p: ProgressState, r: ArenaResult, saveError: Option<string>, stamp: string): (ProgressState, Option<ArenaResult>) {
    var p2 := Logged(WithStage(p, Analysis, 1.0, "Analysis complete"), stamp, "Stage 5: Analysis complete");
    var p3 := Logged(p2.(stage := Completed, totalProgress := 1.0, result := Some(r)), stamp, "Evaluation completed! Best model: " + r.bestPipeline);
    if saveError.Some? then (Raise(p3, saveError.value, stamp), None) else (p3, Some(r))
  }

  /** The evaluation stage, the analysis step, completion and saving. */
  function EvaluationStage(p: ProgressState, call: StageCall<ArenaResult>, saveError: Option<string>, cancelled: bool, stamp: string): (ProgressState, Option<ArenaResult>) {
    var p1 := Logged(WithStage(p, Evaluation, 0.0, "Running pairwise evaluation..."), stamp, "Stage 4: Running pairwise evaluation");
    if cancelled then (CancelNoted(p1, stamp), None)
    else
      match call
      case Returned(r) => Completion(p1, r, saveError, stamp)
      case Raised(e) => (Raise(p1, e, stamp), None)
      case Interrupted => (Interrupt(p1, stamp), None)
  }

  /** `run`: the final progress record and the returned result. `cancelAt`
      is the cancellation check (0 to 3, one before each pipeline call) by
      which `cancel()` has been called; 4 or more means it never is. */
  function RunOutcome(c: UiConfig, pipe: ArenaPipeline, cancelAt: nat, stamp: string): (ProgressState, Option<ArenaResult>) {
    match Validation(c)
    case Some(err) => (InitialProgress.(error := Some(err), stage := Failed), None)
    case None =>
      var p0 := Logged(InitialProgress, stamp, "Initializing pipeline...").(outputDir := ArenaOutputDir(c));
      match CountStage(p0, QueriesTexts, pipe.queries, cancelAt == 0, stamp)
      case Stop(p) => (p, None)
      case Go(p1) =>
        match CountStage(p1, ResponsesTexts, pipe.responses, cancelAt == 1, stamp)
        case Stop(p) => (p, None)
        case Go(p2) =>
          match CountStage(p2, RubricsTexts, pipe.rubrics, cancelAt == 2, stamp)
          case Stop(p) => (p, None)
          case Go(p3) => EvaluationStage(p3, pipe.evaluation, pipe.saveError, cancelAt == 3, stamp)
  }

  /** The error is set exactly when the record says failed, and the record
      stays sane. */
  predicate Consistent(p: ProgressState) {
    Sane(p) && (p.error.Some? <==> p.stage == Failed)
  }

  lemma CountStageConsistent(p: ProgressState, tx: StageTexts, call: StageCall<nat>, cancelled: bool, stamp: string)
    requires Consistent(p) && p.stage != Failed && tx.stage != Failed
    ensures Consistent(CountStage(p, tx, call, cancelled, stamp).p)
    ensures CountStage(p, tx, call, cancelled, stamp).Go? ==> CountStage(p, tx, call, cancelled, stamp).p.stage == tx.stage
    ensures CountStage(p, tx, call, cancelled, stamp).Stop? && !cancelled ==> CountStage(p, tx, call, cancelled, stamp).p.stage in {Failed, Paused}
  {
    WithStageSane(p, tx.stage, 0.0, tx.startMessage);
    var p1 := Logged(WithStage(p, tx.stage, 0.0, tx.startMessage), stamp, tx.startLog);
    if call.Returned? {
      WithStageSane(p1, tx.stage, 1.0, tx.verb + " " + NatToString(call.value) + " " + tx.noun);
    }
  }

  lemma EvaluationStageConsistent(p: ProgressState, call: StageCall<ArenaResult>, saveError: Option<string>, cancelled: bool, stamp: string)
    requires Consistent(p) && p.stage != Failed
    ensures Consistent(EvaluationStage(p, call, saveError, cancelled, stamp).0)
    ensures EvaluationStage(p, call, saveError, cancelled, stamp).1.Some? ==>
      var q := EvaluationStage(p, call, saveError, cancelled, stamp).0;
      q.stage == Completed && q.totalProgress == 1.0 && q.result == EvaluationStage(p, call, saveError, cancelled, stamp).1
    ensures EvaluationStage(p, call, saveError, cancelled, stamp).1.None? && !cancelled ==>
      EvaluationStage(p, call, saveError, cancelled, stamp).0.stage in {Failed, Paused}
  {
    WithStageSane(p, Evaluation, 0.0, "Running pairwise evaluation...");
    var p1 := Logged(WithStage(p, Evaluation, 0.0, "Running pairwise evaluation..."), stamp, "Stage 4: Running pairwise evaluation");
    WithStageSane(p1, Analysis, 1.0, "Analysis complete");
  }

  /** What a run promises: an invalid configuration fails at once with its
      message and returns nothing; a returned result is the completed one
      at 100%; the error is set exactly when the run failed; the fractions
      stay in [0, 1]; and without a cancellation, a run that returns
      nothing ends failed or paused. */
  lemma {:induction false} RunFacts(c: UiConfig, pipe: ArenaPipeline, cancelAt: nat, stamp: string)
    ensures Validation(c).Some? ==> RunOutcome(c, pipe, cancelAt, stamp) == (InitialProgress.(error := Validation(c), stage := Failed), None)
    ensures Consistent(RunOutcome(c, pipe, cancelAt, stamp).0)
    ensures RunOutcome(c, pipe, cancelAt, stamp).1.Some? ==>
      var p := RunOutcome(c, pipe, cancelAt, stamp).0;
      p.stage == Completed && p.totalProgress == 1.0 && p.result == RunOutcome(c, pipe, cancelAt, stamp).1
    ensures RunOutcome(c, pipe, cancelAt, stamp).1.None? && Validation(c).None? && cancelAt >= 4 ==>
      RunOutcome(c, pipe, cancelAt, stamp).0.stage in {Failed, Paused}
  {
    if Validation(c).None? {
      var p0 := Logged(InitialProgress, stamp, "Initializing pipeline...").(outputDir := ArenaOutputDir(c));
      assert Consistent(p0);
      CountStageConsistent(p0, QueriesTexts, pipe.queries, cancelAt == 0, stamp);
      var s1 := CountStage(p0, QueriesTexts, pipe.queries, cancelAt == 0, stamp);
      if s1.Go? {
        CountStageConsistent(s1.p, ResponsesTexts, pipe.responses, cancelAt == 1, stamp);
        var s2 := CountStage(s1.p, ResponsesTexts, pipe.responses, cancelAt == 1, stamp);
        if s2.Go? {
          CountStageConsistent(s2.p, RubricsTexts, pipe.rubrics, cancelAt == 2, stamp);
          var s3 := CountStage(s2.p, RubricsTexts, pipe.rubrics, cancelAt == 2, stamp);
          if s3.Go? {
            EvaluationStageConsistent(s3.p, pipe.evaluation, pipe.saveError, cancelAt == 3, stamp);
          }
        }
      }
    }
  }

  // ---------------------------------------------------------------------
  // Resuming from an output directory

  /** A configuration dict as loaded from JSON: its keys, whatever their
      values (null, an empty dict, or a key the runner never reads), and the
      fields the runner reads from it. */
  datatype ConfigDict = ConfigDict(keys: set<string>, fields: UiConfig)

  const NoConfig := ConfigDict({}, EmptyConfig)

  /** What the output directory holds: `ui_config.json` (its content), the
      results file (whether it has a "config" key, and its value), and the
      checkpoint (its "stage" value when present). */
  datatype ResumeFiles = ResumeFiles(
    uiConfig: Option<ConfigDict>,
    results: Option<Option<ConfigDict>>,
    checkpoint: Option<Option<string>>)

  /** The saved UI config wins; the results file is read only without it,
      and without a "config" key it gives `{}`. */
  function ResumedConfig(f: ResumeFiles): (d: ConfigDict)
    ensures f.uiConfig.Some? ==> d == f.uiConfig.value
    ensures f.uiConfig.None? && f.results.Some? && f.results.value.Some? ==> d == f.results.value.value
    ensures f.uiConfig.None? && (f.results.None? || f.results.value.None?) ==> d.keys == {}
  {
    if f.uiConfig.Some? then f.uiConfig.value
    else if f.results.Some? then f.results.value.GetOr(NoConfig)
    else NoConfig
  }

  /** The checkpoint stage names and the stage each resumes at. */
  function ResumeStage(checkpointStage: string): (s: PipelineStage)
    ensures checkpointStage == "evaluation_complete" <==> s == Completed
    ensures checkpointStage !in {"not_started", "queries_generated", "responses_collected", "rubrics_generated", "evaluation_complete"} ==> s == NotStarted
    ensures s in {NotStarted, Queries, Responses, Rubrics, Completed}
  {
    if checkpointStage == "queries_generated" then Queries
    else if checkpointStage == "responses_collected" then Responses
    else if checkpointStage == "rubrics_generated" then Rubrics
    else if checkpointStage == "evaluation_complete" then Completed
    else NotStarted
  }

  class PipelineRunner {
    var config: UiConfig
    var progress: PipelineProgress
    var paused: bool
    var cancelled: bool

    constructor (c: UiConfig)
      ensures config == c && !paused && !cancelled
      ensures fresh(progress) && progress.View() == InitialProgress
    {
      config := c;
      progress := new PipelineProgress();
      paused, cancelled := false, false;
    }

    /** `resume`: None stands for the FileNotFoundError raised when the
        loaded configuration is an empty dict (`not config`); a dict with any
        key, even one holding null or an empty dict, resumes. Otherwise the runner carries the loaded
        configuration with the directory as its output directory, and starts
        at the checkpoint's stage with one log line saying so. */
    static method Resume(outputDir: string, f: ResumeFiles, stamp: string) returns (r: Option<PipelineRunner>)
      ensures r.None? <==> ResumedConfig(f).keys == {}
      ensures r.Some? ==> fresh(r.value) && fresh(r.value.progress)
      ensures r.Some? ==> r.value.config == ResumedConfig(f).fields.(outputDir := Some(outputDir))
      ensures r.Some? && f.checkpoint.None? ==> r.value.progress.View() == InitialProgress.(outputDir := outputDir)
      ensures r.Some? && f.checkpoint.Some? ==>
        var s := f.checkpoint.value.GetOr("not_started");
        r.value.progress.View() == InitialProgress.(outputDir := outputDir, stage := ResumeStage(s), logs := [Stamped(stamp, "Resuming from checkpoint: " + s)])
    {
      var d := ResumedConfig(f);
      if d.keys == {} {
        return None;
      }
      var runner := new PipelineRunner(d.fields);
      runner.config := runner.config.(outputDir := Some(outputDir));
      runner.progress.outputDir := outputDir;
      if f.checkpoint.Some? {
        var s := f.checkpoint.value.GetOr("not_started");
        runner.progress.stage := ResumeStage(s);
        runner.progress.AddLog("Resuming from checkpoint: " + s, stamp);
      }
      return Some(runner);
    }

    /** `pause`: the flag, and one log line. */
    method Pause(stamp: string)
      modifies this, progress
      ensures paused && cancelled == old(cancelled) && config == old(config) && progress == old(progress)
      ensures progress.View() == Logged(old(progress.View()), stamp, "Pause requested...")
    {
      paused := true;
      progress.AddLog("Pause requested...", stamp);
    }

    /** `cancel`: the flag, and one log line. */
    method Cancel(stamp: string)
      modifies this, progress
      ensures cancelled && paused == old(paused) && config == old(config) && progress == old(progress)
      ensures progress.View() == CancelNoted(old(progress.View()), stamp)
    {
      cancelled := true;
      progress.AddLog("Cancellation requested...", stamp);
    }

    /** `validate_config`, walking the target models in dict order. */
    method ValidateConfig() returns (ok: bool, message: string)
      ensures ok <==> Validation(config).None?
      ensures ok ==> message == ""
      ensures !ok ==> message == Validation(config).value
    {
      if !Filled(config.taskDescription) {
        return false, "Task description is required";
      }
      var eps := config.targetEndpoints;
      if |eps| < 2 {
        return false, "At least 2 target models are required for comparison";
      }
      var i := 0;
      while i < |eps|
        invariant 0 <= i <= |eps|
        invariant EndpointProblem(eps) == EndpointProblem(eps[i..])
      {
        assert eps[i..][1..] == eps[i + 1..];
        if !Filled(eps[i].1.apiKey) {
          return false, "API key missing for target model '" + eps[i].0 + "'";
        }
        if !Filled(eps[i].1.model) {
          return false, "Model name missing for target model '" + eps[i].0 + "'";
        }
        i := i + 1;
      }
      if !Filled(config.judgeApiKey) {
        return false, "Judge model API key is required";
      }
      if !Filled(config.judgeModel) {
        return false, "Judge model name is required";
      }
      return true, "";
    }

    /** `_build_arena_config`, which also records the output directory in
        the progress record. */
    method BuildArenaConfig() returns (a: ArenaConfig)
      modifies progress
      ensures a == ArenaConfigOf(config)
      ensures progress.View() == old(progress.View()).(outputDir := ArenaOutputDir(config))
    {
      var eps := config.targetEndpoints;
      var targets: seq<(string, OpenAIEndpoint)> := [];
      var i := 0;
      while i < |eps|
        invariant 0 <= i <= |eps|
        invariant targets == KeptTargets(eps[..i])
      {
        assert eps[..i + 1][..i] == eps[..i];
        if Filled(eps[i].1.apiKey) && Filled(eps[i].1.model) {
          targets := targets + [(eps[i].0, TargetOf(eps[i].1))];
        }
        i := i + 1;
      }
      assert eps[..i] == eps;
      var c := config;
      progress.outputDir := ArenaOutputDir(c);
      a := ArenaConfig(
        c.taskDescription.GetOr(""), c.taskScenario, targets,
        OpenAIEndpoint(c.judgeEndpoint.GetOr(""), c.judgeApiKey.GetOr(""), c.judgeModel.GetOr(""), None),
        c.numQueries.GetOr(20), SeedsOrNone(c.seedQueries), c.queryTemperature.GetOr(0.9),
        c.maxSimilarity.GetOr(0.85), c.enableEvolution.GetOr(false), c.maxConcurrency.GetOr(10),
        c.saveQueries.GetOr(true), c.saveResponses.GetOr(true), c.saveDetails.GetOr(true),
        ArenaOutputDir(c), c.generateReport.GetOr(true), c.generateChart.GetOr(true));
    }

    /** One counted stage of `run`; `cancel()` is called just before check
        `k` when `k == cancelAt`. */
    method RunCountStage(tx: StageTexts, call: StageCall<nat>, k: nat, cancelAt: nat, stamp: string) returns (go: bool)
      requires !cancelled
      modifies this, progress
      ensures progress == old(progress) && config == old(config)
      ensures go ==> !cancelled
      ensures var st := CountStage(old(progress.View()), tx, call, k == cancelAt, stamp);
        go == st.Go? && progress.View() == st.p
    {
      progress.UpdateStage(tx.stage, 0.0, tx.startMessage);
      progress.AddLog(tx.startLog, stamp);
      if k == cancelAt {
        Cancel(stamp);
      }
      if cancelled {
        return false;
      }
      match call {
        case Returned(n) =>
          var count := NatToString(n);
          progress.UpdateStage(tx.stage, 1.0, tx.verb + " " + count + " " + tx.noun);
          progress.AddLog(tx.verb + " " + count + " " + tx.logNoun, stamp);
          return true;
        case Raised(e) =>
          progress.stage := Failed;
          progress.error := Some(e);
          progress.AddLog("Error: " + e, stamp);
          return false;
        case Interrupted =>
          progress.stage := Paused;
          progress.AddLog("Pipeline cancelled", stamp);
          return false;
      }
    }

    /** The analysis step, completion and saving after the evaluation
        returned. */
    method Complete(res: ArenaResult, saveError: Option<string>, stamp: string) returns (r: Option<ArenaResult>)
      modifies progress
      ensures (progress.View(), r) == Completion(old(progress.View()), res, saveError, stamp)
    {
      progress.UpdateStage(Analysis, 1.0, "Analysis complete");
      progress.AddLog("Stage 5: Analysis complete", stamp);
      progress.stage := Completed;
      progress.totalProgress := 1.0;
      progress.result := Some(res);
      progress.AddLog("Evaluation completed! Best model: " + res.bestPipeline, stamp);
      if saveError.Some? {
        progress.stage := Failed;
        progress.error := saveError;
        progress.AddLog("Error: " + saveError.value, stamp);
        return None;
      }
      return Some(res);
    }

    /** The evaluation stage of `run`, through completion and saving. */
    method RunEvaluationStage(call: StageCall<ArenaResult>, saveError: Option<string>, cancelAt: nat, stamp: string) returns (r: Option<ArenaResult>)
      requires !cancelled
      modifies this, progress
      ensures progress == old(progress) && config == old(config)
      ensures (progress.View(), r) == EvaluationStage(old(progress.View()), call, saveError, cancelAt == 3, stamp)
    {
      progress.UpdateStage(Evaluation, 0.0, "Running pairwise evaluation...");
      progress.AddLog("Stage 4: Running pairwise evaluation", stamp);
      if cancelAt == 3 {
        Cancel(stamp);
      }
      if cancelled {
        return None;
      }
      match call {
        case Returned(res) =>
          r := Complete(res, saveError, stamp);
        case Raised(e) =>
          progress.stage := Failed;
          progress.error := Some(e);
          progress.AddLog("Error: " + e, stamp);
          return None;
        case Interrupted =>
          progress.stage := Paused;
          progress.AddLog("Pipeline cancelled", stamp);
          return None;
      }
    }

    /** `run`: a fresh progress record, then the stages; the final record
        and the result are those of `RunOutcome`. */
    method Run(pipe: ArenaPipeline, cancelAt: nat, stamp: string) returns (r: Option<ArenaResult>)
      modifies this
      ensures fresh(progress) && config == old(config)
      ensures (progress.View(), r) == RunOutcome(config, pipe, cancelAt, stamp)
    {
      progress := new PipelineProgress();
      paused, cancelled := false, false;
      var ok, error := ValidateConfig();
      if !ok {
        progress.error := Some(error);
        progress.stage := Failed;
        return None;
      }
      progress.AddLog("Initializing pipeline...", stamp);
      var arena := BuildArenaConfig();
      var go := RunCountStage(QueriesTexts, pipe.queries, 0, cancelAt, stamp);
      if !go {
        return None;
      }
      go := RunCountStage(ResponsesTexts, pipe.responses, 1, cancelAt, stamp);
      if !go {
        return None;
      }
      go := RunCountStage(RubricsTexts, pipe.rubrics, 2, cancelAt, stamp);
      if !go {
        return None;
      }
      r := RunEvaluationStage(pipe.evaluation, pipe.saveError, cancelAt, stamp);
    }
  }
}
