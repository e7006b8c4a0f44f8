/** The paper-review service behind the studio UI: the task configuration
    a user fills in, its conversion into a pipeline configuration, and one
    review run that turns the pipeline's outcome into a task result (a
    report on success, an error message otherwise).

    The report generator is an input (`reportOf`, which may raise), and so
    is the elapsed time; start and end timestamps are not modelled. */
module ReviewRunner {
  import opened Common
  import opened ReviewSchema
  import opened ReviewPipeline

  /** A paper-review task as the UI configures it. */
  datatype ReviewTaskConfig = ReviewTaskConfig(
    apiKey: string,
    modelName: string,
    baseUrl: Option<string>,
    temperature: real,
    enableSafetyChecks: bool,
    enableCorrectness: bool,
    enableReview: bool,
    enableCriticality: bool,
    enableBibVerification: bool,
    crossrefMailto: Option<string>,
    paperName: string)

  /** A task configured with nothing but an API key: the record's defaults. */
  function DefaultTaskConfig(apiKey: string): ReviewTaskConfig {
    ReviewTaskConfig(apiKey, "gpt-4o", None, 0.7, true, true, true, true, true, None, "Paper")
  }

  /** The task settings a pipeline configuration carries, with the paper
      name that the pipeline does not know about. */
  function TaskSettings(p: PipelineConfig, paperName: string): ReviewTaskConfig {
    ReviewTaskConfig(p.apiKey, p.modelName, p.baseUrl, p.temperature,
      p.enableSafetyChecks, p.enableCorrectness, p.enableReview, p.enableCriticality,
      p.enableBibVerification, p.crossrefMailto, paperName)
  }

  /** to_pipeline_config: every setting is handed over unchanged, the
      timeout is the pipeline's own default, and the callback is attached. */
  function ToPipelineConfig(c: ReviewTaskConfig, callback: bool): (p: PipelineConfig)
    ensures TaskSettings(p, c.paperName) == c
    ensures p.timeout == DefaultConfig().timeout && p.hasCallback == callback
  {
    PipelineConfig(c.modelName, c.apiKey, c.baseUrl, c.temperature, DefaultConfig().timeout,
      c.enableSafetyChecks, c.enableCorrectness, c.enableReview, c.enableCriticality,
      c.enableBibVerification, c.crossrefMailto, callback)
  }

  /** The task's defaults are the pipeline's defaults. */
  lemma DefaultsAgree()
    ensures ToPipelineConfig(DefaultTaskConfig(""), false) == DefaultConfig()
  {
  }

  // ---------------------------------------------------------------------
  // The sidebar

  /** The settings the sidebar holds; None marks a key that is absent. */
  datatype Sidebar = Sidebar(
    apiKey: Option<string>,
    modelName: Option<string>,
    apiEndpoint: Option<string>,
    temperature: Option<real>,
    enableSafetyChecks: Option<bool>,
    enableCorrectness: Option<bool>,
    enableReview: Option<bool>,
    enableCriticality: Option<bool>,
    enableBibVerification: Option<bool>,
    crossrefMailto: Option<string>)

  const EmptySidebar := Sidebar(None, None, None, None, None, None, None, None, None, None)

  /** create_task_config_from_sidebar: each setting read with its default;
      the base URL is the sidebar's API endpoint. */
  function FromSidebar(s: Sidebar): (c: ReviewTaskConfig)
    ensures c.paperName == "Paper"
  {
    ReviewTaskConfig(
      s.apiKey.GetOr(""), s.modelName.GetOr("gpt-4o"), s.apiEndpoint, s.temperature.GetOr(0.7),
      s.enableSafetyChecks.GetOr(true), s.enableCorrectness.GetOr(true), s.enableReview.GetOr(true),
      s.enableCriticality.GetOr(true), s.enableBibVerification.GetOr(true), s.crossrefMailto, "Paper")
  }

  /** A sidebar holding every setting of `c`. */
  function SidebarOf(c: ReviewTaskConfig): Sidebar {
    Sidebar(Some(c.apiKey), Some(c.modelName), c.baseUrl, Some(c.temperature),
      Some(c.enableSafetyChecks), Some(c.enableCorrectness), Some(c.enableReview),
      Some(c.enableCriticality), Some(c.enableBibVerification), c.crossrefMailto)
  }

  /** An empty sidebar gives a task that runs the pipeline's defaults (with
      an empty key), and a sidebar filled from a task gives that task back. */
  lemma SidebarDefaults(c: ReviewTaskConfig)
    ensures FromSidebar(EmptySidebar) == DefaultTaskConfig("")
    ensures ToPipelineConfig(FromSidebar(EmptySidebar), false) == DefaultConfig()
    ensures c.paperName == "Paper" ==> FromSidebar(SidebarOf(c)) == c
  {
  }

  // ---------------------------------------------------------------------
  // One review run

  /** The result of a review task. */
  datatype ReviewTaskResult = ReviewTaskResult(
    success: bool,
    result: Option<PaperReviewResult>,
    report: Option<string>,
    error: Option<string>,
    paperName: string,
    elapsedSeconds: real)

  /** The pipeline outcome of a task: review_paper run with the task's
      settings, the runner's callback attached and only the .bib content. */
  function Outcome(c: ReviewTaskConfig, inputs: ReviewInputs, bibContent: Option<string>): Result<PaperReviewResult> {
    ReviewOutcome(ToPipelineConfig(c, true), None, bibContent, inputs)
  }

  /** run_async's result for a pipeline outcome. An unsafe paper fails with
      the joined safety issues and keeps the result but has no report; a
      safe one succeeds with its report; an exception (from the pipeline or
      the report generator) fails with its message and keeps nothing. */
  function TaskResult(c: ReviewTaskConfig, outcome: Result<PaperReviewResult>,
                      reportOf: (PaperReviewResult, string) -> Result<string>, elapsed: real): (t: ReviewTaskResult)
    ensures t.paperName == c.paperName && t.elapsedSeconds == elapsed
    ensures t.success <==> outcome.Ok? && outcome.value.isSafe && reportOf(outcome.value, c.paperName).Ok?
    ensures t.success <==> t.report.Some?
    ensures t.success <==> t.error.None?
    ensures t.result.Some? ==> outcome == Ok(t.result.value)
    ensures t.success ==> t.report == Some(reportOf(outcome.value, c.paperName).value)
    ensures outcome.Ok? && !outcome.value.isSafe ==>
      t.result == Some(outcome.value) && t.error == Some(SafetyMessage(outcome.value.safetyIssues))
    ensures outcome.Err? ==> t.result == None && t.error == Some(outcome.msg)
  {
    if outcome.Err? then ReviewTaskResult(false, None, None, Some(outcome.msg), c.paperName, elapsed)
    else if !outcome.value.isSafe then
      ReviewTaskResult(false, Some(outcome.value), None, Some(SafetyMessage(outcome.value.safetyIssues)), c.paperName, elapsed)
    else
      var report := reportOf(outcome.value, c.paperName);
      if report.Err? then ReviewTaskResult(false, None, None, Some(report.msg), c.paperName, elapsed)
      else ReviewTaskResult(true, Some(outcome.value), Some(report.value), None, c.paperName, elapsed)
  }

  /** The progress a runner has seen is what the pipeline reported to its
      callback, from nothing, with the earlier history in front; with a
      callback the progress object's own state is not constrained. */
  lemma ReportedAfter(callback: bool, view: ProgressView, start: seq<ProgressView>, fromRun: seq<ProgressView>,
                      ss: seq<ReviewStage>, r: Result<PaperReviewResult>, before: seq<ProgressView>, view': ProgressView)
    requires callback && start == []
    requires Reported(callback, view, fromRun, start, ss, r)
    ensures Reported(true, view', before + fromRun, before, ss, r)
  {
    if r.Err? {
      FailedAfter(view', before, fromRun, ss, r.msg);
    } else {
      OkAfter(view', before, fromRun, ss, r.value);
    }
  }

  /** The cases of ReportedAfter where the pipeline returned a result. */
  lemma OkAfter(view: ProgressView, before: seq<ProgressView>, fromRun: seq<ProgressView>,
                ss: seq<ReviewStage>, v: PaperReviewResult)
    requires v.isSafe ==> |ss| >= 1 && fromRun == [] + StageViews(ss, |ss|) + [CompletedView(StageView(ss[|ss| - 1], |ss| - 1, |ss|))]
    requires !v.isSafe ==> (|ss| >= 2 && ss[1] == SafetyCheck &&
      fromRun == [] + StageViews(ss[..2], |ss|) + [FailedView(StageView(SafetyCheck, 1, |ss|), SafetyMessage(v.safetyIssues))])
    ensures Reported(true, view, before + fromRun, before, ss, Ok(v))
  {
    var total := |ss|;
    if v.isSafe {
      Shifted(before, fromRun, StageViews(ss, total), [CompletedView(StageView(ss[total - 1], total - 1, total))]);
    } else {
      Shifted(before, fromRun, StageViews(ss[..2], total),
              [FailedView(StageView(SafetyCheck, 1, total), SafetyMessage(v.safetyIssues))]);
    }
  }

  /** The failure case of ReportedAfter: some stage failed with `msg`. */
  lemma FailedAfter(view: ProgressView, before: seq<ProgressView>, fromRun: seq<ProgressView>,
                    ss: seq<ReviewStage>, msg: string)
    requires exists m :: 1 <= m <= |ss| && fromRun == [] + StageViews(ss[..m], |ss|) + [FailedView(StageView(ss[m - 1], m - 1, |ss|), msg)]
    ensures Reported(true, view, before + fromRun, before, ss, Err(msg))
  {
    var m :| 1 <= m <= |ss| && fromRun == [] + StageViews(ss[..m], |ss|) + [FailedView(StageView(ss[m - 1], m - 1, |ss|), msg)];
    Shifted(before, fromRun, StageViews(ss[..m], |ss|), [FailedView(StageView(ss[m - 1], m - 1, |ss|), msg)]);
  }

  /** History in front of a report that starts from nothing. */
  lemma Shifted<T>(before: seq<T>, run: seq<T>, a: seq<T>, b: seq<T>)
    requires run == [] + a + b
    ensures before + run == before + a + b
  {
  }

  /** PipelineRunner: runs one review and remembers the progress object the
      pipeline last reported. */
  class PipelineRunner {
    const config: ReviewTaskConfig
    /** The progress object _on_progress last received. */
    var currentProgress: Option<ReviewProgress>
    /** The progress values _on_progress has received, oldest first; a UI
        callback, when there is one, receives the same values. */
    var seen: seq<ProgressView>

    constructor (config: ReviewTaskConfig)
      ensures this.config == config && currentProgress == None && seen == []
    {
      this.config := config;
      currentProgress := None;
      seen := [];
    }

    /** run_async: the task result of review_paper's outcome; the runner has
        seen the progress review_paper reports to a callback, and holds the
        pipeline's progress object. */
    method RunAsync(inputs: ReviewInputs, bibContent: Option<string>,
                    reportOf: (PaperReviewResult, string) -> Result<string>, elapsed: real)
      returns (t: ReviewTaskResult)
      modifies this
      ensures t == TaskResult(config, Outcome(config, inputs, bibContent), reportOf, elapsed)
      ensures Reported(true, ResetView(0), seen, old(seen),
                       Stages(ToPipelineConfig(config, true), Given(bibContent)), Outcome(config, inputs, bibContent))
      ensures currentProgress.Some? && fresh(currentProgress.value)
    {
      var outcome := ReviewWithCallback(inputs, bibContent);
      t := TaskResult(config, outcome, reportOf, elapsed);
    }

    /** The pipeline part of run_async: a fresh pipeline with the runner's
        callback reviews the paper, and the runner keeps its progress. */
    method ReviewWithCallback(inputs: ReviewInputs, bibContent: Option<string>) returns (outcome: Result<PaperReviewResult>)
      modifies this
      ensures outcome == Outcome(config, inputs, bibContent)
      ensures Reported(true, ResetView(0), seen, old(seen),
                       Stages(ToPipelineConfig(config, true), Given(bibContent)), outcome)
      ensures currentProgress.Some? && fresh(currentProgress.value)
    {
      var pipeline := new PaperReviewPipeline(ToPipelineConfig(config, true));
      ghost var start := pipeline.reported;
      outcome := pipeline.ReviewPaper(None, bibContent, inputs);
      assert Given(None) || Given(bibContent) <==> Given(bibContent);
      ReportedAfter(pipeline.config.hasCallback, pipeline.progress.View(), start, pipeline.reported,
                    Stages(pipeline.config, Given(None) || Given(bibContent)), outcome, seen, ResetView(0));
      seen := seen + pipeline.reported;
      currentProgress := Some(pipeline.progress);
    }
  }
}
