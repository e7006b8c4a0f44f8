/** Auto Arena presets: named evaluation configurations kept as YAML files
    in one directory, in the layout of the arena cookbook's config file plus
    a `_ui_preset` section of UI metadata. The model covers name validation,
    the listing order, loading, saving, deleting, importing and exporting,
    and the conversions between the UI settings and the config layout.

    The directory is a map from file stem to content; a file whose content
    cannot be read as a mapping is `None`. YAML text is not modelled:
    parsing is an oracle, and export returns the document that is dumped. */
module PresetManager {
  import opened Common
  import opened Ordering
  import opened ArenaRunner

  // ---------------------------------------------------------------------
  // The config layout

  /** The `_ui_preset` section; a missing key is None. */
  datatype UiPreset = UiPreset(
    name: Option<string>,
    displayName: Option<string>,
    description: Option<string>,
    createdAt: Option<string>,
    updatedAt: Option<string>,
    builtin: Option<bool>)

  datatype TaskSection = TaskSection(description: Option<string>, scenario: Option<string>)

  datatype QuerySection = QuerySection(
    numQueries: Option<int>,
    seedQueries: Option<seq<string>>,
    temperature: Option<real>,
    maxSimilarity: Option<real>,
    enableEvolution: Option<bool>)

  datatype JudgeSection = JudgeSection(baseUrl: Option<string>, apiKey: Option<string>, model: Option<string>)

  datatype EvaluationSection = EvaluationSection(maxConcurrency: Option<int>)

  datatype OutputSection = OutputSection(saveQueries: Option<bool>, saveResponses: Option<bool>, saveDetails: Option<bool>)

  /** The `chart` value of the report section: a mapping, or anything else. */
  datatype Chart = ChartMapping(enabled: Option<bool>) | ChartOther

  datatype ReportSection = ReportSection(enabled: Option<bool>, chart: Option<Chart>)

  /** A preset document: each top-level section, None when the key is
      missing; target models in insertion order, with the four keys of a
      UI target model. */
  datatype PresetConfig = PresetConfig(
    uiPreset: Option<UiPreset>,
    task: Option<TaskSection>,
    queryGeneration: Option<QuerySection>,
    targetEndpoints: Option<seq<(string, EndpointSettings)>>,
    judgeEndpoint: Option<JudgeSection>,
    evaluation: Option<EvaluationSection>,
    output: Option<OutputSection>,
    report: Option<ReportSection>)

  /** `existing.get("_ui_preset", {}).get("builtin", False)`. */
  predicate IsBuiltin(c: PresetConfig) {
    c.uiPreset.Some? && c.uiPreset.value.builtin == Some(true)
  }

  // ---------------------------------------------------------------------
  // Names

  const MaxNameLength := 64
  const BuiltinPrefix := "_builtin_"
  const BuiltinDemoName := "_builtin_translation_demo"

  /** `validate_name` as written: the pattern is `re.match` with a `$`
      anchor. */
  function ValidateNameAsWritten(name: string): (r: (bool, string)) {
    if name == "" then (false, "Preset name cannot be empty")
    else if |name| > MaxNameLength then (false, "Preset name cannot exceed 64 characters")
    else if !NamePatternMatches(name) then (false, "Preset name can only contain letters, numbers, underscores, and hyphens")
    else if StartsWith(name, BuiltinPrefix) then (false, "Preset name cannot start with '_builtin_'")
    else (true, "")
  }

  /** The validator as written accepts a name ending in a newline, which
      then becomes part of the preset's file name. */
  lemma AsWrittenAcceptsNewline()
    ensures ValidateNameAsWritten("demo\n") == (true, "")
    ensures ValidateName("demo\n").0 == false
  {
    NamePatternAdmitsNewline();
    assert !StartsWith("demo\n", BuiltinPrefix);
  }

  /** `validate_name` with the pattern read as intended (the whole name
      from the allowed characters); the checks run in order: empty, too
      long, a character outside [A-Za-z0-9_-], the reserved prefix. */
  function ValidateName(name: string): (r: (bool, string))
    ensures r.0 <==> IsSafeName(name) && |name| <= MaxNameLength && !StartsWith(name, BuiltinPrefix)
    ensures r.0 ==> r.1 == ""
    ensures name == "" ==> r.1 == "Preset name cannot be empty"
    ensures name != "" && |name| > MaxNameLength ==> r.1 == "Preset name cannot exceed 64 characters"
    ensures name != "" && |name| <= MaxNameLength && !IsSafeName(name) ==> r.1 == "Preset name can only contain letters, numbers, underscores, and hyphens"
    ensures IsSafeName(name) && |name| <= MaxNameLength && StartsWith(name, BuiltinPrefix) ==> r.1 == "Preset name cannot start with '_builtin_'"
  {
    if name == "" then (false, "Preset name cannot be empty")
    else if |name| > MaxNameLength then (false, "Preset name cannot exceed 64 characters")
    else if !IsSafeName(name) then (false, "Preset name can only contain letters, numbers, underscores, and hyphens")
    else if StartsWith(name, BuiltinPrefix) then (false, "Preset name cannot start with '_builtin_'")
    else (true, "")
  }

  /** On names without a trailing newline the two readings agree. */
  lemma {:induction false} ValidateNameAgrees(name: string)
    requires |name| == 0 || name[|name| - 1] != '\n'
    ensures ValidateNameAsWritten(name) == ValidateName(name)
  {
  }

  // ---------------------------------------------------------------------
  // The built-in preset

  const DashScopeUrl := "https://dashscope.aliyuncs.com/" + "compatible-mode/v1"
  const TranslatorPrompt := "You are a professional " + "English-Chinese translator. " + "Provide accurate and fluent " + "translations."

  /** The built-in translation demo, stamped at `now`. */
  function BuiltinDemo(now: string): (c: PresetConfig)
    ensures IsBuiltin(c)
  {
    PresetConfig(
      Some(UiPreset(Some(BuiltinDemoName), Some("📚 Translation Demo (DashScope)"),
        Some("English to Chinese translation " + "evaluation using DashScope models"), Some(now), Some(now), Some(true))),
      Some(TaskSection(
        Some("English to Chinese translation " + "assistant, " + "helping users translate various " + "types of English content into " + "fluent and accurate Chinese"),
        Some("Users need to translate English " + "articles, documents, or text into " + "Chinese"))),
      Some(QuerySection(Some(20),
        Some(["Please translate the following " + "paragraph into Chinese: " + "'The rapid advancement of " + "artificial intelligence has " + "transformed numerous industries.'",
              "Translate this sentence to Chinese: " + "'Climate change poses significant " + "challenges to global food security.'"]),
        Some(0.9), Some(0.85), Some(false))),
      Some([("qwen-max", EndpointSettings(Some(DashScopeUrl), Some(""), Some("qwen-max"), Some(TranslatorPrompt))),
            ("qwen-plus", EndpointSettings(Some(DashScopeUrl), Some(""), Some("qwen-plus"), Some(TranslatorPrompt)))]),
      Some(JudgeSection(Some(DashScopeUrl), Some(""), Some("qwen-max"))),
      Some(EvaluationSection(Some(10))),
      Some(OutputSection(Some(true), Some(true), Some(true))),
      Some(ReportSection(Some(true), Some(ChartMapping(Some(true))))))
  }

  // ---------------------------------------------------------------------
  // Listing

  /** One entry of `list_presets` (the file path is left out). */
  datatype PresetInfo = PresetInfo(
    name: string,
    displayName: string,
    description: string,
    createdAt: string,
    updatedAt: string,
    builtin: bool)

  function InfoOf(stem: string, c: PresetConfig): PresetInfo {
    var m := c.uiPreset.GetOr(UiPreset(None, None, None, None, None, None));
    PresetInfo(stem, m.displayName.GetOr(stem), m.description.GetOr(""), m.createdAt.GetOr(""), m.updatedAt.GetOr(""), m.builtin.GetOr(false))
  }

  /** The sort key `(not builtin, name.lower())` as a comparison. */
  predicate PresetLe(a: PresetInfo, b: PresetInfo) {
    (a.builtin && !b.builtin) || (a.builtin == b.builtin && StrLe(Lower(a.name), Lower(b.name)))
  }

  lemma PresetLeTotalPreorder()
    ensures TotalPreorder(PresetLe)
  {
    forall a, b ensures PresetLe(a, b) || PresetLe(b, a) {
      StrLeTotal(Lower(a.name), Lower(b.name));
    }
    forall a, b, c | PresetLe(a, b) && PresetLe(b, c) ensures PresetLe(a, c) {
      if a.builtin == b.builtin && b.builtin == c.builtin {
        StrLeTrans(Lower(a.name), Lower(b.name), Lower(c.name));
      }
    }
  }

  /** `order` lists every file of the directory once: the glob's order. */
  predicate Enumerates(order: seq<string>, files: map<string, Option<PresetConfig>>) {
    (forall i, j :: 0 <= i < j < |order| ==> order[i] != order[j]) &&
    (forall n :: n in order ==> n in files) &&
    (forall n :: n in files ==> n in order)
  }

  /** The readable files' entries in glob order; unreadable ones are skipped. */
  function Infos(order: seq<string>, files: map<string, Option<PresetConfig>>): seq<PresetInfo>
    requires forall n :: n in order ==> n in files
    decreases |order|
  {
    if |order| == 0 then []
    else
      var last := order[|order| - 1];
      Infos(order[..|order| - 1], files) + (if files[last].Some? then [InfoOf(last, files[last].value)] else [])
  }

  lemma {:induction false} InfosMembers(order: seq<string>, files: map<string, Option<PresetConfig>>)
    requires forall n :: n in order ==> n in files
    ensures forall p :: p in Infos(order, files) <==> exists n :: n in order && files[n].Some? && p == InfoOf(n, files[n].value)
    decreases |order|
  {
    if |order| > 0 {
      var init := order[..|order| - 1];
      InfosMembers(init, files);
      assert order == init + [order[|order| - 1]];
      forall p ensures p in Infos(order, files) <==> exists n :: n in order && files[n].Some? && p == InfoOf(n, files[n].value) {
        if p in Infos(order, files) && p !in Infos(init, files) {
          assert order[|order| - 1] in order;
        }
        if exists n :: n in order && files[n].Some? && p == InfoOf(n, files[n].value) {
          var n :| n in order && files[n].Some? && p == InfoOf(n, files[n].value);
          if n != order[|order| - 1] {
            assert n in init;
          }
        }
      }
    }
  }

  /** `list_presets`: built-ins first, then by lower-cased name, holding an
      entry for exactly the readable files. */
  lemma ListFacts(order: seq<string>, files: map<string, Option<PresetConfig>>)
    requires Enumerates(order, files)
    ensures var r := SortBy(Infos(order, files), PresetLe);
      SortedBy(r, PresetLe) &&
      (forall i, j :: 0 <= i < j < |r| && r[j].builtin ==> r[i].builtin) &&
      (forall i, j :: 0 <= i < j < |r| && r[i].builtin == r[j].builtin ==> StrLe(Lower(r[i].name), Lower(r[j].name))) &&
      (forall p :: p in r <==> exists n :: n in files && files[n].Some? && p == InfoOf(n, files[n].value))
  {
    PresetLeTotalPreorder();
    SortBySorted(Infos(order, files), PresetLe);
    InfosMembers(order, files);
    SameElements(SortBy(Infos(order, files), PresetLe), Infos(order, files));
  }

  // ---------------------------------------------------------------------
  // Saving and deleting

  /** The metadata `save_preset` writes: the name, display name and creation
      time only when absent, the update time, and not built-in. */
  function SaveMetadata(m: Option<UiPreset>, name: string, now: string): UiPreset {
    var u := m.GetOr(UiPreset(None, None, None, None, None, None));
    u.(name := Some(name),
       displayName := if u.displayName.Some? then u.displayName else Some(name),
       createdAt := if u.createdAt.Some? then u.createdAt else Some(now),
       updatedAt := Some(now),
       builtin := Some(false))
  }

  /** What `save_preset` leaves behind: its return value (Err for the
      exception raised when an existing file cannot be read), the
      directory, and the caller's config (updated in place on success). */
  datatype Saved = Saved(outcome: Result<(bool, string)>, files: map<string, Option<PresetConfig>>, config: PresetConfig)

  function SaveOutcome(files: map<string, Option<PresetConfig>>, name: string, config: PresetConfig, overwrite: bool, now: string): Saved {
    var (valid, message) := ValidateName(name);
    if !valid then Saved(Ok((false, message)), files, config)
    else if name in files && !overwrite then Saved(Ok((false, "Preset '" + name + "' already exists. Use 'Save' to overwrite.")), files, config)
    else if name in files && files[name].None? then Saved(Err("unreadable preset file"), files, config)
    else if name in files && IsBuiltin(files[name].value) then Saved(Ok((false, "Cannot overwrite built-in presets")), files, config)
    else
      var stored := config.(uiPreset := Some(SaveMetadata(config.uiPreset, name, now)));
      Saved(Ok((true, "")), files[name := Some(stored)], stored)
  }

  /** `delete_preset`'s return value and the directory afterwards. */
  function DeleteOutcome(files: map<string, Option<PresetConfig>>, name: string): (Result<(bool, string)>, map<string, Option<PresetConfig>>) {
    if name !in files then (Ok((false, "Preset '" + name + "' not found")), files)
    else if files[name].None? then (Err("unreadable preset file"), files)
    else if IsBuiltin(files[name].value) then (Ok((false, "Cannot delete built-in presets")), files)
    else (Ok((true, "")), files - {name})
  }

  /** A save succeeds exactly for a valid name that is new, or that names a
      readable user preset when overwriting is asked for; a failed save
      changes nothing. A successful one stores the config under the name
      with the name, the update time and `builtin: false` set, and keeps a
      display name or creation time already present. */
  lemma SaveFacts(files: map<string, Option<PresetConfig>>, name: string, config: PresetConfig, overwrite: bool, now: string)
    ensures var s := SaveOutcome(files, name, config, overwrite, now);
      (s.outcome == Ok((true, "")) <==>
        ValidateName(name).0 && (name !in files || (overwrite && files[name].Some? && !IsBuiltin(files[name].value)))) &&
      (s.outcome != Ok((true, "")) ==> s.files == files && s.config == config) &&
      (s.outcome == Ok((true, "")) ==>
        s.files == files[name := Some(s.config)] &&
        s.config.uiPreset.Some? &&
        s.config.uiPreset.value.name == Some(name) &&
        s.config.uiPreset.value.builtin == Some(false) &&
        s.config.uiPreset.value.updatedAt == Some(now) &&
        (config.uiPreset.Some? && config.uiPreset.value.displayName.Some? ==> s.config.uiPreset.value.displayName == config.uiPreset.value.displayName) &&
        (config.uiPreset.Some? && config.uiPreset.value.createdAt.Some? ==> s.config.uiPreset.value.createdAt == config.uiPreset.value.createdAt) &&
        s.config == config.(uiPreset := s.config.uiPreset))
  {
  }

  /** A saved preset is a user preset: it can be deleted afterwards, and its
      name never carries the built-in prefix. */
  lemma SavedIsDeletable(files: map<string, Option<PresetConfig>>, name: string, config: PresetConfig, overwrite: bool, now: string)
    requires SaveOutcome(files, name, config, overwrite, now).outcome == Ok((true, ""))
    ensures !StartsWith(name, BuiltinPrefix)
    ensures DeleteOutcome(SaveOutcome(files, name, config, overwrite, now).files, name) == (Ok((true, "")), files - {name})
  {
    var s := SaveOutcome(files, name, config, overwrite, now);
    assert s.files - {name} == files - {name};
  }

  /** The built-in preset can be neither overwritten nor deleted. */
  lemma BuiltinProtected(files: map<string, Option<PresetConfig>>, now: string, config: PresetConfig, overwrite: bool)
    requires BuiltinDemoName in files && files[BuiltinDemoName] == Some(BuiltinDemo(now))
    ensures DeleteOutcome(files, BuiltinDemoName).0 == Ok((false, "Cannot delete built-in presets"))
    ensures SaveOutcome(files, BuiltinDemoName, config, overwrite, now).outcome.Ok?
    ensures SaveOutcome(files, BuiltinDemoName, config, overwrite, now).outcome.value.0 == false
  {
    assert StartsWith(BuiltinDemoName, BuiltinPrefix);
  }

  // ---------------------------------------------------------------------
  // Import and export

  /** What `yaml.safe_load` (after decoding) makes of an uploaded file: a
      YAML error, another exception, a document that is not a mapping, or a
      preset document. */
  datatype YamlDoc = YamlError(msg: string) | OtherError(msg: string) | NotMapping | Mapping(config: PresetConfig)

  /** `import_from_file`'s (success, error, config). */
  function Import(doc: YamlDoc): (r: (bool, string, Option<PresetConfig>))
    ensures r.0 <==> doc.Mapping? && doc.config.task.Some? && doc.config.targetEndpoints.Some?
    ensures r.0 ==> r.1 == "" && r.2 == Some(doc.config)
    ensures !r.0 ==> r.2.None?
    ensures doc == NotMapping ==> r.1 == "Invalid YAML format: expected a dictionary"
    ensures doc.Mapping? && doc.config.task.None? ==> r.1 == "Invalid config: missing 'task' section"
    ensures doc.Mapping? && doc.config.task.Some? && doc.config.targetEndpoints.None? ==> r.1 == "Invalid config: missing 'target_endpoints' section"
    ensures doc.YamlError? ==> r.1 == "YAML parsing error: " + doc.msg
    ensures doc.OtherError? ==> r.1 == "Import error: " + doc.msg
  {
    match doc
    case YamlError(e) => (false, "YAML parsing error: " + e, None)
    case OtherError(e) => (false, "Import error: " + e, None)
    case NotMapping => (false, "Invalid YAML format: expected a dictionary", None)
    case Mapping(c) =>
      if c.task.None? then (false, "Invalid config: missing 'task' section", None)
      else if c.targetEndpoints.None? then (false, "Invalid config: missing 'target_endpoints' section", None)
      else (true, "", Some(c))
  }

  /** The document `export_to_yaml` dumps: a copy of the config, without
      the UI metadata unless it is asked for. The caller's value is not
      touched (Dafny values are immutable). */
  function Export(c: PresetConfig, includeUiMetadata: bool): (r: PresetConfig)
    ensures includeUiMetadata ==> r == c
    ensures !includeUiMetadata ==> r.uiPreset.None?
    ensures r.(uiPreset := c.uiPreset) == c
  {
    if includeUiMetadata then c else c.(uiPreset := None)
  }

  /** An exported preset imports back to the same sections whenever it has
      the two required ones, provided the YAML text parses back to the
      document that was dumped. */
  lemma ExportImport(c: PresetConfig, includeUiMetadata: bool)
    requires c.task.Some? && c.targetEndpoints.Some?
    ensures Import(Mapping(Export(c, includeUiMetadata))) == (true, "", Some(Export(c, includeUiMetadata)))
    ensures !includeUiMetadata ==> Export(Export(c, false), false) == Export(c, false)
  {
  }

  // ---------------------------------------------------------------------
  // UI settings <-> config layout

  /** One target model as `ui_state_to_config` writes it: the three keys
      with "" defaults, and the system prompt only when it is non-empty. */
  function EndpointEntry(e: EndpointSettings): EndpointSettings {
    EndpointSettings(Some(e.baseUrl.GetOr("")), Some(e.apiKey.GetOr("")), Some(e.model.GetOr("")),
      if Filled(e.systemPrompt) then e.systemPrompt else None)
  }

  /** `ui_state_to_config(sidebar, panel)`: the judge, concurrency, output,
      report and query-count settings come from the sidebar, the rest from
      the panel, each with its default. */
  function UiStateToConfig(sidebar: UiConfig, panel: UiConfig): PresetConfig {
    var eps := panel.targetEndpoints;
    PresetConfig(
      None,
      Some(TaskSection(Some(panel.taskDescription.GetOr("")), Some(panel.taskScenario.GetOr("")))),
      Some(QuerySection(Some(sidebar.numQueries.GetOr(20)), Some(panel.seedQueries.GetOr([])),
        Some(panel.queryTemperature.GetOr(0.9)), Some(panel.maxSimilarity.GetOr(0.85)), Some(panel.enableEvolution.GetOr(false)))),
      Some(seq(|eps|, i requires 0 <= i < |eps| => (eps[i].0, EndpointEntry(eps[i].1)))),
      Some(JudgeSection(Some(sidebar.judgeEndpoint.GetOr("")), Some(sidebar.judgeApiKey.GetOr("")), Some(sidebar.judgeModel.GetOr("")))),
      Some(EvaluationSection(Some(sidebar.maxConcurrency.GetOr(10)))),
      Some(OutputSection(Some(sidebar.saveQueries.GetOr(true)), Some(sidebar.saveResponses.GetOr(true)), Some(sidebar.saveDetails.GetOr(true)))),
      Some(ReportSection(Some(sidebar.generateReport.GetOr(true)), Some(ChartMapping(Some(sidebar.generateChart.GetOr(true)))))))
  }

  /** A target model row of the UI state. */
  datatype EndpointRow = EndpointRow(name: string, baseUrl: string, apiKey: string, model: string, systemPrompt: string)

  /** The UI state `config_to_ui_state` returns. */
  datatype UiState = UiState(
    taskDescription: string,
    taskScenario: string,
    numQueries: int,
    seedQueries: seq<string>,
    queryTemperature: real,
    maxSimilarity: real,
    enableEvolution: bool,
    targetEndpoints: seq<EndpointRow>,
    judgeEndpoint: string,
    judgeApiKey: string,
    judgeModel: string,
    maxConcurrency: int,
    saveQueries: bool,
    saveResponses: bool,
    saveDetails: bool,
    generateReport: bool,
    generateChart: bool)

  /** `chart.get("enabled", True) if isinstance(chart, dict) else True`,
      where a missing chart is `{}`. */
  function ChartEnabled(ch: Option<Chart>): bool {
    match ch
    case None => true
    case Some(ChartMapping(e)) => e.GetOr(true)
    case Some(ChartOther) => true
  }

  /** `config_to_ui_state`: every field from its section, with the same
      defaults as the other direction; the target models become a list of
      rows carrying their names. */
  function ConfigToUiState(c: PresetConfig): UiState {
    var task := c.task.GetOr(TaskSection(None, None));
    var q := c.queryGeneration.GetOr(QuerySection(None, None, None, None, None));
    var eps := c.targetEndpoints.GetOr([]);
    var judge := c.judgeEndpoint.GetOr(JudgeSection(None, None, None));
    var ev := c.evaluation.GetOr(EvaluationSection(None));
    var out := c.output.GetOr(OutputSection(None, None, None));
    var report := c.report.GetOr(ReportSection(None, None));
    UiState(
      task.description.GetOr(""), task.scenario.GetOr(""),
      q.numQueries.GetOr(20), q.seedQueries.GetOr([]), q.temperature.GetOr(0.9), q.maxSimilarity.GetOr(0.85), q.enableEvolution.GetOr(false),
      seq(|eps|, i requires 0 <= i < |eps| =>
        EndpointRow(eps[i].0, eps[i].1.baseUrl.GetOr(""), eps[i].1.apiKey.GetOr(""), eps[i].1.model.GetOr(""), eps[i].1.systemPrompt.GetOr(""))),
      judge.baseUrl.GetOr(""), judge.apiKey.GetOr(""), judge.model.GetOr(""),
      ev.maxConcurrency.GetOr(10),
      out.saveQueries.GetOr(true), out.saveResponses.GetOr(true), out.saveDetails.GetOr(true),
      report.enabled.GetOr(true), ChartEnabled(report.chart))
  }

  /** Reading back a config written from the UI settings gives every
      setting back (its default when it was unset): the target models keep
      their names, order and settings, and a system prompt that was empty
      or unset comes back as "". */
  lemma RoundTrip(sidebar: UiConfig, panel: UiConfig)
    ensures var st := ConfigToUiState(UiStateToConfig(sidebar, panel));
      var eps := panel.targetEndpoints;
      st.taskDescription == panel.taskDescription.GetOr("") &&
      st.taskScenario == panel.taskScenario.GetOr("") &&
      st.numQueries == sidebar.numQueries.GetOr(20) &&
      st.seedQueries == panel.seedQueries.GetOr([]) &&
      st.queryTemperature == panel.queryTemperature.GetOr(0.9) &&
      st.maxSimilarity == panel.maxSimilarity.GetOr(0.85) &&
      st.enableEvolution == panel.enableEvolution.GetOr(false) &&
      st.judgeEndpoint == sidebar.judgeEndpoint.GetOr("") &&
      st.judgeApiKey == sidebar.judgeApiKey.GetOr("") &&
      st.judgeModel == sidebar.judgeModel.GetOr("") &&
      st.maxConcurrency == sidebar.maxConcurrency.GetOr(10) &&
      st.saveQueries == sidebar.saveQueries.GetOr(true) &&
      st.saveResponses == sidebar.saveResponses.GetOr(true) &&
      st.saveDetails == sidebar.saveDetails.GetOr(true) &&
      st.generateReport == sidebar.generateReport.GetOr(true) &&
      st.generateChart == sidebar.generateChart.GetOr(true) &&
      |st.targetEndpoints| == |eps| &&
      (forall i :: 0 <= i < |eps| ==>
        st.targetEndpoints[i].name == eps[i].0 &&
        st.targetEndpoints[i].baseUrl == eps[i].1.baseUrl.GetOr("") &&
        st.targetEndpoints[i].apiKey == eps[i].1.apiKey.GetOr("") &&
        st.targetEndpoints[i].model == eps[i].1.model.GetOr("") &&
        st.targetEndpoints[i].systemPrompt == (if Filled(eps[i].1.systemPrompt) then eps[i].1.systemPrompt.value else ""))
  {
  }

  /** A config with no sections reads as the UI defaults. */
  lemma EmptyConfigReadsDefaults()
    ensures ConfigToUiState(PresetConfig(None, None, None, None, None, None, None, None)) ==
      UiState("", "", 20, [], 0.9, 0.85, false, [], "", "", "", 10, true, true, true, true, true)
  {
  }

  // ---------------------------------------------------------------------
  // The manager

  /** The directory after `_ensure_builtin_presets`. */
  function WithBuiltin(existing: map<string, Option<PresetConfig>>, now: string): (files: map<string, Option<PresetConfig>>)
    ensures BuiltinDemoName in files
    ensures forall n :: n in existing ==> n in files && files[n] == existing[n]
    ensures forall n :: n in files ==> n in existing || n == BuiltinDemoName
    ensures BuiltinDemoName !in existing ==> files[BuiltinDemoName] == Some(BuiltinDemo(now))
  {
    if BuiltinDemoName in existing then existing else existing[BuiltinDemoName := Some(BuiltinDemo(now))]
  }

  class PresetStore {
    /** The preset directory: file stem to content (None: not a readable
        mapping). */
    var files: map<string, Option<PresetConfig>>

    /** `__init__`: the directory as found, with the built-in demo written
        when its file is missing. */
    constructor (existing: map<string, Option<PresetConfig>>, now: string)
      ensures files == WithBuiltin(existing, now)
    {
      files := WithBuiltin(existing, now);
    }

    /** `list_presets`, walking the files in glob order, then sorting. */
    method ListPresets(order: seq<string>) returns (r: seq<PresetInfo>)
      requires Enumerates(order, files)
      ensures r == SortBy(Infos(order, files), PresetLe)
    {
      var presets: seq<PresetInfo> := [];
      var i := 0;
      while i < |order|
        invariant 0 <= i <= |order|
        invariant presets == Infos(order[..i], files)
      {
        assert order[..i + 1][..i] == order[..i];
        var content := files[order[i]];
        if content.Some? {
          presets := presets + [InfoOf(order[i], content.value)];
        }
        i := i + 1;
      }
      assert order[..i] == order;
      r := SortBy(presets, PresetLe);
    }

    /** `load_preset`: None for a missing file, Err for an unreadable one. */
    function LoadPreset(name: string): (r: Result<Option<PresetConfig>>)
      reads this
      ensures r == Ok(None) <==> name !in files
      ensures r.Ok? && r.value.Some? <==> name in files && files[name].Some?
      ensures r.Ok? && r.value.Some? ==> r.value.value == files[name].value
    {
      if name !in files then Ok(None)
      else if files[name].None? then Err("unreadable preset file")
      else Ok(files[name])
    }

    /** `save_preset`; `stored` is the caller's config after the call. */
    method SavePreset(name: string, config: PresetConfig, overwrite: bool, now: string) returns (r: Result<(bool, string)>, stored: PresetConfig)
      modifies this
      ensures Saved(r, files, stored) == SaveOutcome(old(files), name, config, overwrite, now)
    {
      var valid, message := ValidateName(name).0, ValidateName(name).1;
      if !valid {
        return Ok((false, message)), config;
      }
      if name in files && !overwrite {
        return Ok((false, "Preset '" + name + "' already exists. Use 'Save' to overwrite.")), config;
      }
      if name in files {
        var existing := LoadPreset(name);
        if existing.Err? {
          return Err("unreadable preset file"), config;
        }
        if IsBuiltin(existing.value.value) {
          return Ok((false, "Cannot overwrite built-in presets")), config;
        }
      }
      stored := config.(uiPreset := Some(SaveMetadata(config.uiPreset, name, now)));
      files := files[name := Some(stored)];
      r := Ok((true, ""));
    }

    /** `delete_preset`. */
    method DeletePreset(name: string) returns (r: Result<(bool, string)>)
      modifies this
      ensures (r, files) == DeleteOutcome(old(files), name)
    {
      if name !in files {
        return Ok((false, "Preset '" + name + "' not found"));
      }
      var existing := LoadPreset(name);
      if existing.Err? {
        return Err("unreadable preset file");
      }
      if IsBuiltin(existing.value.value) {
        return Ok((false, "Cannot delete built-in presets"));
      }
      files := files - {name};
      r := Ok((true, ""));
    }
  }
}
