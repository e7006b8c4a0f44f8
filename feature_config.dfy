/** The checks the Auto Arena and Zero-Shot pages run on their settings
    before starting an evaluation. Both pages ask for a task description,
    at least two target models that have both an API key and a model name
    (other, incomplete target models are tolerated) and a judge API key;
    they differ only in how the failure is worded: the Auto Arena page
    through the translation function `t`, which the caller supplies, the
    Zero-Shot page with fixed bilingual texts. */
module FeatureConfig {
  import opened Common
  import opened ArenaRunner

  /** A target model with both an API key and a model name. */
  predicate Complete(e: (string, EndpointSettings)) {
    Filled(e.1.apiKey) && Filled(e.1.model)
  }

  /** How many target models are complete. */
  function Configured(c: UiConfig): (n: nat)
    ensures n <= |c.targetEndpoints|
  {
    CountWhere(c.targetEndpoints, Complete)
  }

  /** The first failed check of a page's settings, if any. */
  datatype Problem = NoProblem | TaskRequired | TooFewModels(configured: nat, total: nat) | JudgeKeyRequired

  function ProblemOf(c: UiConfig): (p: Problem)
    ensures p == NoProblem <==> Filled(c.taskDescription) && Configured(c) >= 2 && Filled(c.judgeApiKey)
    ensures !Filled(c.taskDescription) <==> p == TaskRequired
    ensures p.TooFewModels? <==> Filled(c.taskDescription) && Configured(c) < 2
    ensures p.TooFewModels? ==> p.configured == Configured(c) && p.total == |c.targetEndpoints|
  {
    if !Filled(c.taskDescription) then TaskRequired
    else if Configured(c) < 2 then TooFewModels(Configured(c), |c.targetEndpoints|)
    else if !Filled(c.judgeApiKey) then JudgeKeyRequired
    else NoProblem
  }

  /** The page check is weaker than the runner's: every configuration the
      runner accepts passes it. */
  lemma {:induction false} RunnerValidPassesPage(c: UiConfig)
    requires Validation(c).None?
    ensures ProblemOf(c) == NoProblem
  {
    CountWhereNone(c.targetEndpoints, (e: (string, EndpointSettings)) => !Complete(e));
    CountWhereComplement(c.targetEndpoints, Complete, (e: (string, EndpointSettings)) => !Complete(e));
  }

  /** An incomplete target model does not make the page reject settings that
      have two complete ones; the runner's own check still would. */
  lemma IncompleteTolerated()
    ensures var c := UiConfig(Some("task"), None,
        [("a", EndpointSettings(None, Some("k"), Some("m"), None)),
         ("b", EndpointSettings(None, Some("k"), Some("m"), None)),
         ("c", EndpointSettings(None, None, None, None))],
        None, Some("k"), Some("m"), None, None, None, None, None, None, None, None, None, None, None, None);
      ProblemOf(c) == NoProblem && Validation(c) == Some("API key missing for target model 'c'")
  {
    var eps := [("a", EndpointSettings(None, Some("k"), Some("m"), None)),
         ("b", EndpointSettings(None, Some("k"), Some("m"), None)),
         ("c", EndpointSettings(None, None, None, None))];
    assert eps[..2][..1] == [eps[0]];
    assert eps[..1][..0] == [];
    assert CountWhere(eps, Complete) == 2;
    assert eps[2..] == [eps[2]] && eps[2].0 == "c";
    assert "API key missing for target model '" + "c" + "'" == "API key missing for target model 'c'";
    assert EndpointProblem(eps[2..]) == Some("API key missing for target model 'c'");
    assert EndpointProblem(eps[1..]) == EndpointProblem(eps[1..][1..]);
    assert eps[1..][1..] == eps[2..];
  }

  /** The Auto Arena page's `_validate_config`; `tr(key, args)` is the
      translation function applied to a message key and its arguments. */
  function ArenaValidate(c: UiConfig, tr: (string, seq<(string, nat)>) -> string): (r: (bool, string))
    ensures r.0 <==> ProblemOf(c) == NoProblem
    ensures r.0 ==> r.1 == ""
    ensures ProblemOf(c) == TaskRequired ==> r.1 == tr("arena.validation.task_required", [])
    ensures ProblemOf(c).TooFewModels? ==> r.1 == tr("arena.validation.min_models", [("configured", Configured(c)), ("total", |c.targetEndpoints|)])
    ensures ProblemOf(c) == JudgeKeyRequired ==> r.1 == tr("arena.validation.judge_api_required", [])
  {
    match ProblemOf(c)
    case NoProblem => (true, "")
    case TaskRequired => (false, tr("arena.validation.task_required", []))
    case TooFewModels(configured, total) => (false, tr("arena.validation.min_models", [("configured", configured), ("total", total)]))
    case JudgeKeyRequired => (false, tr("arena.validation.judge_api_required", []))
  }

  /** The Zero-Shot page's `_validate_config`, whose count message reports
      configured/total. */
  function ZeroShotValidate(c: UiConfig): (r: (bool, string))
    ensures r.0 <==> ProblemOf(c) == NoProblem
    ensures r.0 ==> r.1 == ""
    ensures ProblemOf(c) == TaskRequired ==> r.1 == "Task description is required / 任务描述为必填项"
    ensures ProblemOf(c).TooFewModels? ==>
      var counts := NatToString(Configured(c)) + "/" + NatToString(|c.targetEndpoints|);
      r.1 == "Need 2+ models with API Key filled (" + counts + " configured) / 至少需要 2 个填写了 API Key 的模型（已配置 " + counts + "）"
    ensures ProblemOf(c) == JudgeKeyRequired ==> r.1 == "Judge model API key is required / Judge 模型 API Key 为必填项"
  {
    match ProblemOf(c)
    case NoProblem => (true, "")
    case TaskRequired => (false, "Task description is required / 任务描述为必填项")
    case TooFewModels(configured, total) =>
      var counts := NatToString(configured) + "/" + NatToString(total);
      (false, "Need 2+ models with API Key filled (" + counts + " configured) / 至少需要 2 个填写了 API Key 的模型（已配置 " + counts + "）")
    case JudgeKeyRequired => (false, "Judge model API key is required / Judge 模型 API Key 为必填项")
  }

  /** The two pages accept and reject exactly the same settings. */
  lemma SamePagesVerdict(c: UiConfig, tr: (string, seq<(string, nat)>) -> string)
    ensures ArenaValidate(c, tr).0 == ZeroShotValidate(c).0
  {
  }
}
