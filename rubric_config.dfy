/** The Auto Rubric settings panels: the settings dictionary each panel
    builds from its widgets (the widget values are parameters), the way the
    Simple panel reads sample queries, and the checks each panel runs
    before generation starts. A failed check names the translation key of
    its message; the text itself comes from `t`. */
module RubricConfig {
  import opened Common
  import opened JsonValue

  const NameRequired := "rubric.validation.name_required"
  const TaskRequired := "rubric.validation.task_required"
  const ApiKeyRequired := "rubric.validation.api_key_required"
  const ModelRequired := "rubric.validation.model_required"
  const DataRequired := "rubric.validation.data_required"
  const MinDataRequired := "rubric.validation.min_data_required"

  /** The fewest training records the Iterative panel accepts. */
  const MinDataCount := 10

  /** The number of categories used when categorisation is switched off. */
  const DefaultCategories := 5

  // ---------------------------------------------------------------------
  // Sample queries

  /** The stripped lines that are not blank, in order. */
  function Queries(lines: seq<string>): (qs: seq<string>)
    ensures |qs| <= |lines|
    ensures forall q :: q in qs ==> q != "" && q == Trim(q)
    decreases |lines|
  {
    if |lines| == 0 then []
    else
      var last := Trim(lines[|lines| - 1]);
      TrimTwice(lines[|lines| - 1]);
      Queries(lines[..|lines| - 1]) + (if last != "" then [last] else [])
  }

  /** The Simple panel's sample queries: one per line, stripped, blank
      lines dropped; None when the whole text is blank. */
  function SampleQueries(text: string): (r: Option<seq<string>>)
    ensures r.None? <==> IsBlank(text)
    ensures r.Some? ==> forall q :: q in r.value ==> q != "" && q == Trim(q) && '\n' !in q
  {
    if Trim(text) == "" then None
    else
      var lines := Split(Trim(text), '\n');
      QueriesAvoid(lines, '\n');
      Some(Queries(lines))
  }

  /** A character no line holds is in no query. */
  lemma {:induction false} QueriesAvoid(lines: seq<string>, c: char)
    requires forall l :: l in lines ==> c !in l
    ensures forall q :: q in Queries(lines) ==> c !in q
    decreases |lines|
  {
    if |lines| > 0 {
      var init := lines[..|lines| - 1];
      var last := lines[|lines| - 1];
      assert forall l :: l in init ==> l in lines;
      QueriesAvoid(init, c);
      assert last in lines;
      TrimTwice(last);
    }
  }

  /** Queries written one per line read back as themselves. */
  lemma SampleQueriesRoundTrip(qs: seq<string>)
    requires |qs| >= 1
    requires forall i :: 0 <= i < |qs| ==> qs[i] != "" && qs[i] == Trim(qs[i]) && '\n' !in qs[i]
    ensures SampleQueries(Join(qs, "\n")) == Some(qs)
  {
    EndsUnspaced(qs[0]);
    EndsUnspaced(qs[|qs| - 1]);
    JoinTrimmed(qs);
    SampleQueriesOfStripped(Join(qs, "\n"));
    SplitJoinLines(qs);
    QueriesOfTrimmed(qs);
  }

  /** A stripped text that is not blank is read line by line as it is. */
  lemma SampleQueriesOfStripped(text: string)
    requires text != "" && Trim(text) == text
    ensures SampleQueries(text) == Some(Queries(Split(text, '\n')))
  {
  }

  /** Lines without a line break, joined and split again. */
  lemma SplitJoinLines(qs: seq<string>)
    requires |qs| >= 1
    requires forall i :: 0 <= i < |qs| ==> '\n' !in qs[i]
    ensures Split(Join(qs, "\n"), '\n') == qs
  {
    assert forall p :: p in qs ==> '\n' !in p;
    SplitJoin(qs, '\n');
  }

  /** A stripped text that is not blank begins and ends with a
      non-space character. */
  lemma EndsUnspaced(s: string)
    requires s != "" && s == Trim(s)
    ensures !IsSpace(s[0]) && !IsSpace(s[|s| - 1])
  {
  }

  /** A join of non-empty lines that starts and ends with a non-space
      character is itself stripped and not blank. */
  lemma JoinTrimmed(qs: seq<string>)
    requires |qs| >= 1
    requires forall i :: 0 <= i < |qs| ==> qs[i] != ""
    requires !IsSpace(qs[0][0]) && !IsSpace(qs[|qs| - 1][|qs[|qs| - 1]| - 1])
    ensures Join(qs, "\n") != "" && Trim(Join(qs, "\n")) == Join(qs, "\n")
  {
    JoinEnds(qs);
    TrimUnspaced(Join(qs, "\n"));
  }

  /** A join of non-empty lines begins with the first line's first
      character and ends with the last line's last. */
  lemma {:induction false} JoinEnds(qs: seq<string>)
    requires |qs| >= 1 && forall i :: 0 <= i < |qs| ==> qs[i] != ""
    ensures var t := Join(qs, "\n");
      |t| > 0 && t[0] == qs[0][0] && t[|t| - 1] == qs[|qs| - 1][|qs[|qs| - 1]| - 1]
    decreases |qs|
  {
    if |qs| > 1 {
      var rest := qs[1..];
      assert rest[|rest| - 1] == qs[|qs| - 1];
      JoinEnds(rest);
      assert Join(qs, "\n") == qs[0] + "\n" + Join(rest, "\n");
    }
  }

  /** Lines that are already stripped and not blank are all kept. */
  lemma {:induction false} QueriesOfTrimmed(qs: seq<string>)
    requires forall i :: 0 <= i < |qs| ==> qs[i] != "" && qs[i] == Trim(qs[i])
    ensures Queries(qs) == qs
    decreases |qs|
  {
    if |qs| > 0 {
      var init := qs[..|qs| - 1];
      QueriesOfTrimmed(init);
      assert init + [qs[|qs| - 1]] == qs;
    }
  }

  // ---------------------------------------------------------------------
  // Building the settings

  /** The sample queries as the settings hold them. */
  function QueriesJson(qs: Option<seq<string>>): Json {
    if qs.None? then JNull else JArr(seq(|qs.value|, i requires 0 <= i < |qs.value| => JStr(qs.value[i])))
  }

  /** The keys the Simple panel sets over the sidebar's settings. */
  const SimpleKeys: set<string> := {"grader_name", "task_description", "scenario", "sample_queries"}

  /** `render_simple_config_panel`'s result: the sidebar's settings with
      the panel's fields set over them; an empty scenario is None. */
  function SimpleConfig(sidebar: map<string, Json>, graderName: string, taskDescription: string,
                        scenario: string, sampleText: string): (c: map<string, Json>)
    ensures c.Keys == sidebar.Keys + SimpleKeys
    ensures forall k :: k in sidebar && k !in SimpleKeys ==> c[k] == sidebar[k]
    ensures c["grader_name"] == JStr(graderName) && c["task_description"] == JStr(taskDescription)
    ensures c["scenario"] == (if scenario == "" then JNull else JStr(scenario))
    ensures c["sample_queries"] == QueriesJson(SampleQueries(sampleText))
  {
    sidebar["grader_name" := JStr(graderName)]["task_description" := JStr(taskDescription)]
      ["scenario" := if scenario != "" then JStr(scenario) else JNull]
      ["sample_queries" := QueriesJson(SampleQueries(sampleText))]
  }

  /** The number of categories the Iterative panel asks for: the slider's
      value when categorisation is on, 5 otherwise. */
  function CategoriesNumber(enableCategorization: bool, slider: int): (n: int)
    ensures !enableCategorization ==> n == DefaultCategories
    ensures enableCategorization ==> n == slider
  {
    if enableCategorization then slider else DefaultCategories
  }

  /** `d.get(key, default)`. */
  function Setting(d: map<string, Json>, key: string, default: Json): (r: Json)
    ensures key in d ==> r == d[key]
    ensures key !in d ==> r == default
  {
    if key in d then d[key] else default
  }

  /** The keys the Iterative panel sets over the sidebar's settings. */
  const IterativeKeys: set<string> := {"grader_name", "dataset", "data_count", "data_valid", "task_description",
                                       "enable_categorization", "categories_number", "query_specific_generate_number"}

  /** `render_iterative_config_panel`'s result: the sidebar's settings with
      the panel's fields set over them; `upload` is what the data upload
      panel returns, and an empty task description is None. */
  function IterativeConfig(sidebar: map<string, Json>, graderName: string, upload: map<string, Json>,
                           taskDescription: string, enableCategorization: bool, categoriesSlider: int,
                           querySpecific: int): (c: map<string, Json>)
    ensures c.Keys == sidebar.Keys + IterativeKeys
    ensures forall k :: k in sidebar && k !in IterativeKeys ==> c[k] == sidebar[k]
    ensures c["grader_name"] == JStr(graderName)
    ensures c["data_count"] == Setting(upload, "count", JNum(0.0))
    ensures c["data_valid"] == Setting(upload, "is_valid", JBool(false))
    ensures c["categories_number"] == JNum(CategoriesNumber(enableCategorization, categoriesSlider) as real)
    ensures !enableCategorization ==> c["categories_number"] == JNum(5.0)
  {
    sidebar["grader_name" := JStr(graderName)]
      ["dataset" := Setting(upload, "data", JNull)]
      ["data_count" := Setting(upload, "count", JNum(0.0))]
      ["data_valid" := Setting(upload, "is_valid", JBool(false))]
      ["task_description" := if taskDescription != "" then JStr(taskDescription) else JNull]
      ["enable_categorization" := JBool(enableCategorization)]
      ["categories_number" := JNum(CategoriesNumber(enableCategorization, categoriesSlider) as real)]
      ["query_specific_generate_number" := JNum(querySpecific as real)]
  }

  // ---------------------------------------------------------------------
  // Validation

  /** What `config.get(key, "").strip()` finds: blank text, text, or a
      value that is not a string (calling `strip` on it raises). */
  datatype TextState = Blank | NonBlank | NotText

  function TextOf(config: map<string, Json>, key: string): (r: TextState)
    ensures key !in config ==> r == Blank
    ensures r == NonBlank <==> key in config && config[key].JStr? && !IsBlank(config[key].s)
  {
    if key !in config then Blank
    else match config[key]
      case JStr(s) => if Trim(s) == "" then Blank else NonBlank
      case _ => NotText
  }

  /** The outcome of a check: (True, ""), (False, t(key, **args)), or an
      exception. */
  datatype Validation = Valid | Invalid(messageKey: string, args: map<string, Json>) | Raised

  /** One text check in front of the checks after it. */
  function Require(config: map<string, Json>, key: string, messageKey: string, rest: Validation): (r: Validation)
    ensures TextOf(config, key) == NonBlank ==> r == rest
    ensures TextOf(config, key) == Blank ==> r == Invalid(messageKey, map[])
    ensures TextOf(config, key) == NotText ==> r == Raised
  {
    match TextOf(config, key)
    case NonBlank => rest
    case Blank => Invalid(messageKey, map[])
    case NotText => Raised
  }

  /** `validate_simple_config`: grader name, task description, API key and
      model name must each be non-blank text, checked in that order. */
  function ValidateSimple(config: map<string, Json>): (r: Validation)
    ensures r == Valid <==>
      TextOf(config, "grader_name") == NonBlank && TextOf(config, "task_description") == NonBlank &&
      TextOf(config, "api_key") == NonBlank && TextOf(config, "model_name") == NonBlank
    ensures r == Invalid(NameRequired, map[]) <==> TextOf(config, "grader_name") == Blank
    ensures r == Invalid(TaskRequired, map[]) <==>
      TextOf(config, "grader_name") == NonBlank && TextOf(config, "task_description") == Blank
    ensures r == Invalid(ApiKeyRequired, map[]) <==>
      TextOf(config, "grader_name") == NonBlank && TextOf(config, "task_description") == NonBlank &&
      TextOf(config, "api_key") == Blank
    ensures r == Invalid(ModelRequired, map[]) <==>
      TextOf(config, "grader_name") == NonBlank && TextOf(config, "task_description") == NonBlank &&
      TextOf(config, "api_key") == NonBlank && TextOf(config, "model_name") == Blank
  {
    Require(config, "grader_name", NameRequired,
      Require(config, "task_description", TaskRequired,
        Require(config, "api_key", ApiKeyRequired,
          Require(config, "model_name", ModelRequired, Valid))))
  }

  /** `data_count < 10` on the settings' data count (default 0): Some of
      the comparison, None where comparing raises. A bool compares as 0
      or 1. */
  function TooFewRecords(config: map<string, Json>): (r: Option<bool>)
    ensures "data_count" !in config ==> r == Some(true)
    ensures "data_count" in config && config["data_count"].JNum? ==>
      r == Some(config["data_count"].n < MinDataCount as real)
  {
    match Setting(config, "data_count", JNum(0.0))
    case JNum(n) => Some(n < MinDataCount as real)
    case JBool(_) => Some(true)
    case _ => None
  }

  /** `validate_iterative_config`: grader name, a valid upload, API key and
      model name in that order, then at least ten records. */
  function ValidateIterative(config: map<string, Json>): (r: Validation)
    ensures r == Valid <==>
      TextOf(config, "grader_name") == NonBlank && Truthy(Setting(config, "data_valid", JBool(false))) &&
      TextOf(config, "api_key") == NonBlank && TextOf(config, "model_name") == NonBlank &&
      TooFewRecords(config) == Some(false)
    ensures r == Invalid(NameRequired, map[]) <==> TextOf(config, "grader_name") == Blank
    ensures r == Invalid(DataRequired, map[]) <==>
      TextOf(config, "grader_name") == NonBlank && !Truthy(Setting(config, "data_valid", JBool(false)))
    ensures r == Invalid(MinDataRequired, map["count" := JNum(10.0)]) <==>
      TextOf(config, "grader_name") == NonBlank && Truthy(Setting(config, "data_valid", JBool(false))) &&
      TextOf(config, "api_key") == NonBlank && TextOf(config, "model_name") == NonBlank &&
      TooFewRecords(config) == Some(true)
  {
    Require(config, "grader_name", NameRequired,
      if !Truthy(Setting(config, "data_valid", JBool(false))) then Invalid(DataRequired, map[])
      else
        Require(config, "api_key", ApiKeyRequired,
          Require(config, "model_name", ModelRequired,
            match TooFewRecords(config)
            case Some(true) => Invalid(MinDataRequired, map["count" := JNum(MinDataCount as real)])
            case Some(false) => Valid
            case None => Raised)))
  }

  /** The Simple panel's own settings pass its check exactly when the name
      and the task description are not blank and the sidebar supplies an
      API key and a model name. */
  lemma SimplePanelValid(sidebar: map<string, Json>, graderName: string, taskDescription: string,
                         scenario: string, sampleText: string)
    ensures ValidateSimple(SimpleConfig(sidebar, graderName, taskDescription, scenario, sampleText)) == Valid <==>
      !IsBlank(graderName) && !IsBlank(taskDescription) &&
      TextOf(sidebar, "api_key") == NonBlank && TextOf(sidebar, "model_name") == NonBlank
  {
    var c := SimpleConfig(sidebar, graderName, taskDescription, scenario, sampleText);
    SidebarTextKept(sidebar, c, SimpleKeys, "api_key");
    SidebarTextKept(sidebar, c, SimpleKeys, "model_name");
    NamedTexts(c, graderName, taskDescription);
  }

  /** The panel's two text fields are non-blank text exactly when the
      texts are not blank. */
  lemma NamedTexts(c: map<string, Json>, graderName: string, taskDescription: string)
    requires "grader_name" in c && c["grader_name"] == JStr(graderName)
    requires "task_description" in c && c["task_description"] == JStr(taskDescription)
    ensures TextOf(c, "grader_name") == NonBlank <==> !IsBlank(graderName)
    ensures TextOf(c, "task_description") == NonBlank <==> !IsBlank(taskDescription)
  {
  }

  /** With every other check passed, the Iterative panel accepts an upload
      exactly when it counts at least ten records. */
  lemma IterativeNeedsTenRecords(sidebar: map<string, Json>, graderName: string, count: real, data: Json,
                                 taskDescription: string, enableCategorization: bool, categoriesSlider: int,
                                 querySpecific: int)
    requires !IsBlank(graderName)
    requires TextOf(sidebar, "api_key") == NonBlank && TextOf(sidebar, "model_name") == NonBlank
    ensures var upload := map["data" := data, "count" := JNum(count), "is_valid" := JBool(true)];
      var c := IterativeConfig(sidebar, graderName, upload, taskDescription, enableCategorization, categoriesSlider, querySpecific);
      (ValidateIterative(c) == Valid <==> count >= 10.0) &&
      (ValidateIterative(c) == Invalid(MinDataRequired, map["count" := JNum(10.0)]) <==> count < 10.0)
  {
    var upload := map["data" := data, "count" := JNum(count), "is_valid" := JBool(true)];
    var c := IterativeConfig(sidebar, graderName, upload, taskDescription, enableCategorization, categoriesSlider, querySpecific);
    IterativeUploadFacts(sidebar, graderName, count, data, taskDescription, enableCategorization,
                         categoriesSlider, querySpecific);
    IterativeCountDecides(c, count < 10.0);
  }

  /** The Iterative panel's settings after a valid upload: the name it
      was given, a valid upload, the sidebar's texts and the upload's count. */
  lemma IterativeUploadFacts(sidebar: map<string, Json>, graderName: string, count: real, data: Json,
                             taskDescription: string, enableCategorization: bool, categoriesSlider: int,
                             querySpecific: int)
    requires !IsBlank(graderName)
    ensures var upload := map["data" := data, "count" := JNum(count), "is_valid" := JBool(true)];
      var c := IterativeConfig(sidebar, graderName, upload, taskDescription, enableCategorization, categoriesSlider, querySpecific);
      TextOf(c, "grader_name") == NonBlank && Truthy(Setting(c, "data_valid", JBool(false))) &&
      TextOf(c, "api_key") == TextOf(sidebar, "api_key") && TextOf(c, "model_name") == TextOf(sidebar, "model_name") &&
      TooFewRecords(c) == Some(count < 10.0)
  {
    var upload := map["data" := data, "count" := JNum(count), "is_valid" := JBool(true)];
    var c := IterativeConfig(sidebar, graderName, upload, taskDescription, enableCategorization, categoriesSlider, querySpecific);
    assert c["data_valid"] == JBool(true);
    SidebarTextKept(sidebar, c, IterativeKeys, "api_key");
    SidebarTextKept(sidebar, c, IterativeKeys, "model_name");
  }

  /** A key the panel does not set reads as the sidebar left it. */
  lemma SidebarTextKept(sidebar: map<string, Json>, c: map<string, Json>, panelKeys: set<string>, key: string)
    requires c.Keys == sidebar.Keys + panelKeys
    requires forall k :: k in sidebar && k !in panelKeys ==> c[k] == sidebar[k]
    requires key !in panelKeys
    ensures TextOf(c, key) == TextOf(sidebar, key)
  {
  }

  /** Once the texts and the upload pass, the record count alone decides. */
  lemma IterativeCountDecides(c: map<string, Json>, tooFew: bool)
    requires TextOf(c, "grader_name") == NonBlank && Truthy(Setting(c, "data_valid", JBool(false)))
    requires TextOf(c, "api_key") == NonBlank && TextOf(c, "model_name") == NonBlank
    requires TooFewRecords(c) == Some(tooFew)
    ensures ValidateIterative(c) == Valid <==> !tooFew
    ensures ValidateIterative(c) == Invalid(MinDataRequired, map["count" := JNum(10.0)]) <==> tooFew
  {
  }
}
