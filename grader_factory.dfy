/** The factory of the UI's Grader page: building the keyword arguments a grader is
    constructed with, and the keyword arguments an evaluation is run with.
    This grader classes themselves and the evaluation they run are foreign
    code; what the model keeps is which arguments reach them. */
module GraderFactory {
  import opened Common
  import opened JsonValue
  import opened GraderRegistry

  /** A keyword argument's value. */
  datatype Value =
    | ModelArg(modelId: string)
    | IntArg(i: int)
    | RealArg(x: real)
    | LanguageArg(code: string)
    | StrArg(s: string)
    | ItemsArg(items: seq<Json>)
    | DataArg(v: Json)

  /** What importing a grader class and reading its signature gives:
      the import fails, the signature cannot be read (the class then
      accepts no recognised parameter), or its parameter names. */
  datatype ClassInfo = ImportFails | NoSignature | Params(names: set<string>)

  function InitParams(c: ClassInfo): set<string> {
    if c.Params? then c.names else {}
  }

  /** `dict.update` with a sequence of pairs: each pair, in order, sets its
      key; a later pair overrides an earlier one. */
  function Overlay(kw: map<string, Value>, extras: seq<(string, Value)>): map<string, Value>
    decreases |extras|
  {
    if |extras| == 0 then kw
    else
      var last := extras[|extras| - 1];
      Overlay(kw, extras[..|extras| - 1])[last.0 := last.1]
  }

  /** The value of the last pair with `key`, if any. */
  function LastValue(extras: seq<(string, Value)>, key: string): (r: Option<Value>)
    decreases |extras|
    ensures r.None? <==> forall i :: 0 <= i < |extras| ==> extras[i].0 != key
    ensures r.Some? ==> (key, r.value) in extras
  {
    if |extras| == 0 then None
    else if extras[|extras| - 1].0 == key then Some(extras[|extras| - 1].1)
    else
      var r := LastValue(extras[..|extras| - 1], key);
      assert forall i :: 0 <= i < |extras| - 1 ==> extras[..|extras| - 1][i] == extras[i];
      r
  }

  /** After the overlay, a key carries the last value given to it, or its
      old value when no pair names it. */
  lemma {:induction false} OverlayLastWins(kw: map<string, Value>, extras: seq<(string, Value)>, key: string)
    ensures LastValue(extras, key).Some? ==>
      key in Overlay(kw, extras) && Overlay(kw, extras)[key] == LastValue(extras, key).value
    ensures LastValue(extras, key).None? ==>
      (key in Overlay(kw, extras) <==> key in kw) &&
      (key in kw ==> Overlay(kw, extras)[key] == kw[key])
    decreases |extras|
  {
    if |extras| > 0 {
      OverlayLastWins(kw, extras[..|extras| - 1], key);
    }
  }

  /** The pairs whose key this grader's constructor accepts, in order. */
  function Accepted(extras: seq<(string, Value)>, params: set<string>): (r: seq<(string, Value)>)
    decreases |extras|
    ensures forall i :: 0 <= i < |r| ==> r[i].0 in params
    ensures forall e :: e in r <==> e in extras && e.0 in params
  {
    if |extras| == 0 then []
    else
      var last := extras[|extras| - 1];
      assert extras == extras[..|extras| - 1] + [last];
      Accepted(extras[..|extras| - 1], params) + (if last.0 in params then [last] else [])
  }

  /** The last value an accepted pair gives a key the constructor takes is
      the last value any pair gives it. */
  lemma {:induction false} AcceptedLastValue(extras: seq<(string, Value)>, params: set<string>, key: string)
    requires key in params
    ensures LastValue(Accepted(extras, params), key) == LastValue(extras, key)
    decreases |extras|
  {
    if |extras| > 0 {
      var init := extras[..|extras| - 1];
      var last := extras[|extras| - 1];
      AcceptedLastValue(init, params, key);
      var a := Accepted(init, params);
      if last.0 in params {
        assert Accepted(extras, params) == a + [last];
        assert (a + [last])[..|a|] == a;
        assert (a + [last])[|a|] == last;
      } else {
        assert Accepted(extras, params) == a;
      }
    }
  }

  /** Python's `int()` on a float: truncation toward zero. */
  function Truncate(x: real): (r: int)
    ensures x >= 0.0 ==> r as real <= x < r as real + 1.0
    ensures x < 0.0 ==> r as real - 1.0 < x <= r as real
  {
    if x >= 0.0 then x.Floor else -((-x).Floor)
  }

  /** The arguments `create_grader` decides before the extra parameters:
      the model for a model grader whose constructor takes one, the
      threshold (truncated for graders scored from 1 to 5) and the language
      for a model grader whose constructor takes one. */
  function BaseKwargs(e: GraderEntry, params: set<string>, modelId: string, threshold: real, language: string): map<string, Value> {
    var withModel: map<string, Value> := if e.requiresModel && "model" in params then map["model" := ModelArg(modelId)] else map[];
    var withThreshold := if "threshold" in params then
        withModel["threshold" := if e.scoreRange == (1, 5) then IntArg(Truncate(threshold)) else RealArg(threshold)]
      else withModel;
    if e.requiresModel && "language" in params then withThreshold["language" := LanguageArg(language)] else withThreshold
  }

  /** The outcome of `create_grader`: the error raised, or the keyword
      arguments this grader is constructed with. */
  function CreateOutcome(t: seq<(string, GraderEntry)>, name: string, model: Option<string>, threshold: real,
                         language: string, extras: seq<(string, Value)>, cls: ClassInfo): Result<map<string, Value>> {
    match Lookup(t, name)
    case None => Err("Unknown grader: " + name)
    case Some(e) =>
      if cls.ImportFails? then Err("ImportError")
      else if e.requiresModel && model.None? then Err("Grader '" + name + "' requires a model")
      else
        var params := InitParams(cls);
        Ok(Overlay(BaseKwargs(e, params, model.GetOr(""), threshold, language), Accepted(extras, params)))
  }

  /** One more extra parameter sets its key when the constructor accepts it
      and changes nothing otherwise. */
  lemma AcceptedStep(base: map<string, Value>, extras: seq<(string, Value)>, params: set<string>, i: nat)
    requires i < |extras|
    ensures var o := Overlay(base, Accepted(extras[..i], params));
      Overlay(base, Accepted(extras[..i + 1], params)) == if extras[i].0 in params then o[extras[i].0 := extras[i].1] else o
  {
    assert extras[..i + 1][..i] == extras[..i];
    var a := Accepted(extras[..i], params);
    if extras[i].0 in params {
      assert Accepted(extras[..i + 1], params) == a + [extras[i]];
      assert (a + [extras[i]])[..|a|] == a;
    } else {
      assert Accepted(extras[..i + 1], params) == a;
    }
  }

  /** The loop of `create_grader` over the extra parameters: each one the
      constructor accepts is set, a later pair overwriting an earlier one. */
  method AddAccepted(base: map<string, Value>, extras: seq<(string, Value)>, params: set<string>)
    returns (kwargs: map<string, Value>)
    ensures kwargs == Overlay(base, Accepted(extras, params))
  {
    kwargs := base;
    var i := 0;
    while i < |extras|
      invariant 0 <= i <= |extras|
      invariant kwargs == Overlay(base, Accepted(extras[..i], params))
    {
      var (key, value) := extras[i];
      AcceptedStep(base, extras, params, i);
      if key in params {
        kwargs := kwargs[key := value];
      }
      i := i + 1;
    }
    assert extras[..i] == extras;
  }

  /** `create_grader`. `cls` is what importing the entry's class gives. */
  method CreateGrader(t: seq<(string, GraderEntry)>, name: string, model: Option<string>, threshold: real,
                      language: string, extras: seq<(string, Value)>, cls: ClassInfo)
    returns (r: Result<map<string, Value>>)
    ensures r == CreateOutcome(t, name, model, threshold, language, extras, cls)
  {
    var entry := Lookup(t, name);
    if entry.None? {
      return Err("Unknown grader: " + name);
    }
    var e := entry.value;
    if cls.ImportFails? {
      return Err("ImportError");
    }
    var params := InitParams(cls);
    var kwargs: map<string, Value> := map[];
    if e.requiresModel {
      if model.None? {
        return Err("Grader '" + name + "' requires a model");
      }
      if "model" in params {
        kwargs := kwargs["model" := ModelArg(model.value)];
      }
    }
    if "threshold" in params {
      if e.scoreRange == (1, 5) {
        kwargs := kwargs["threshold" := IntArg(Truncate(threshold))];
      } else {
        kwargs := kwargs["threshold" := RealArg(threshold)];
      }
    }
    if e.requiresModel && "language" in params {
      kwargs := kwargs["language" := LanguageArg(language)];
    }
    assert kwargs == BaseKwargs(e, params, model.GetOr(""), threshold, language);
    kwargs := AddAccepted(kwargs, extras, params);
    return Ok(kwargs);
  }

  /** The error cases of `create_grader`, in the order it checks them. */
  lemma CreateErrors(t: seq<(string, GraderEntry)>, name: string, model: Option<string>, threshold: real,
                     language: string, extras: seq<(string, Value)>, cls: ClassInfo)
    ensures Lookup(t, name).None? ==> CreateOutcome(t, name, model, threshold, language, extras, cls) == Err("Unknown grader: " + name)
    ensures Lookup(t, name).Some? && cls.ImportFails? ==> CreateOutcome(t, name, model, threshold, language, extras, cls).Err?
    ensures Lookup(t, name).Some? && !cls.ImportFails? && Lookup(t, name).value.requiresModel && model.None? ==>
      CreateOutcome(t, name, model, threshold, language, extras, cls) == Err("Grader '" + name + "' requires a model")
    ensures CreateOutcome(t, name, model, threshold, language, extras, cls).Ok? <==>
      Lookup(t, name).Some? && !cls.ImportFails? && (Lookup(t, name).value.requiresModel ==> model.Some?)
  {
  }

  /** Every keyword argument of a created grader is a parameter its
      constructor accepts. */
  lemma {:induction false} CreateOnlyAccepted(t: seq<(string, GraderEntry)>, name: string, model: Option<string>, threshold: real,
                                              language: string, extras: seq<(string, Value)>, cls: ClassInfo)
    requires CreateOutcome(t, name, model, threshold, language, extras, cls).Ok?
    ensures CreateOutcome(t, name, model, threshold, language, extras, cls).value.Keys <= InitParams(cls)
  {
    var e := Lookup(t, name).value;
    var params := InitParams(cls);
    var acc := Accepted(extras, params);
    var base := BaseKwargs(e, params, model.GetOr(""), threshold, language);
    forall k | k in Overlay(base, acc) ensures k in params {
      OverlayLastWins(base, acc, k);
      if LastValue(acc, k).Some? {
        assert (k, LastValue(acc, k).value) in acc;
      }
    }
  }

  /** What a created grader receives under each name: an accepted extra
      parameter wins; otherwise the model goes to model graders, the
      threshold is truncated for graders scored from 1 to 5, and the
      language goes to model graders only. */
  lemma {:induction false} CreateArguments(t: seq<(string, GraderEntry)>, name: string, model: Option<string>, threshold: real,
                                           language: string, extras: seq<(string, Value)>, cls: ClassInfo, key: string)
    requires CreateOutcome(t, name, model, threshold, language, extras, cls).Ok?
    ensures var kw := CreateOutcome(t, name, model, threshold, language, extras, cls).value;
      var e := Lookup(t, name).value;
      var params := InitParams(cls);
      (key in params && LastValue(extras, key).Some? ==> key in kw && kw[key] == LastValue(extras, key).value) &&
      (LastValue(extras, key).None? ==>
        (key == "model" ==> ("model" in kw <==> e.requiresModel && "model" in params) &&
                            ("model" in kw ==> kw["model"] == ModelArg(model.value))) &&
        (key == "threshold" ==> ("threshold" in kw <==> "threshold" in params) &&
                                ("threshold" in kw ==>
                                  kw["threshold"] == if e.scoreRange == (1, 5) then IntArg(Truncate(threshold)) else RealArg(threshold))) &&
        (key == "language" ==> ("language" in kw <==> e.requiresModel && "language" in params) &&
                               ("language" in kw ==> kw["language"] == LanguageArg(language))))
  {
    var e := Lookup(t, name).value;
    var params := InitParams(cls);
    var base := BaseKwargs(e, params, model.GetOr(""), threshold, language);
    OverlayLastWins(base, Accepted(extras, params), key);
    if key in params {
      AcceptedLastValue(extras, params, key);
    } else {
      assert LastValue(Accepted(extras, params), key).None? by {
        var acc := Accepted(extras, params);
        forall i | 0 <= i < |acc| ensures acc[i].0 != key {
          assert acc[i].0 in params;
        }
      }
    }
    if LastValue(extras, key).None? {
      assert LastValue(Accepted(extras, params), key).None? by {
        var acc := Accepted(extras, params);
        forall i | 0 <= i < |acc| ensures acc[i].0 != key {
          assert acc[i] in extras;
        }
      }
    }
  }

  /** The fields `run_evaluation` sends before the extra arguments: each of
      query, response, reference response and context, when not empty. */
  function EvaluationFields(query: string, response: string, reference: string, context: string): (r: map<string, Value>)
    ensures "query" in r <==> query != ""
    ensures "response" in r <==> response != ""
    ensures "reference_response" in r <==> reference != ""
    ensures "context" in r <==> context != ""
    ensures r.Keys <= {"query", "response", "reference_response", "context"}
    ensures "query" in r ==> r["query"] == StrArg(query)
    ensures "response" in r ==> r["response"] == StrArg(response)
    ensures "reference_response" in r ==> r["reference_response"] == StrArg(reference)
    ensures "context" in r ==> r["context"] == StrArg(context)
  {
    var q: map<string, Value> := if query != "" then map["query" := StrArg(query)] else map[];
    var s := if response != "" then q["response" := StrArg(response)] else q;
    var f := if reference != "" then s["reference_response" := StrArg(reference)] else s;
    if context != "" then f["context" := StrArg(context)] else f
  }

  /** `kwargs.update(extra_kwargs)`, one pair at a time. */
  method Update(kw: map<string, Value>, extras: seq<(string, Value)>) returns (r: map<string, Value>)
    ensures r == Overlay(kw, extras)
  {
    r := kw;
    var i := 0;
    while i < |extras|
      invariant 0 <= i <= |extras|
      invariant r == Overlay(kw, extras[..i])
    {
      assert extras[..i + 1][..i] == extras[..i];
      r := r[extras[i].0 := extras[i].1];
      i := i + 1;
    }
    assert extras[..i] == extras;
  }

  /** `run_evaluation`: the keyword arguments this grader is evaluated with. */
  method RunEvaluation(query: string, response: string, reference: string, context: string, extras: seq<(string, Value)>)
    returns (kw: map<string, Value>)
    ensures kw == Overlay(EvaluationFields(query, response, reference, context), extras)
  {
    kw := map[];
    if query != "" {
      kw := kw["query" := StrArg(query)];
    }
    if response != "" {
      kw := kw["response" := StrArg(response)];
    }
    if reference != "" {
      kw := kw["reference_response" := StrArg(reference)];
    }
    if context != "" {
      kw := kw["context" := StrArg(context)];
    }
    kw := Update(kw, extras);
  }

  /** No extra argument is named like one of `params`. Python binds a
      keyword named like a parameter to that parameter (or refuses the call
      with "multiple values"), so `**extra_kwargs` never holds such a name. */
  predicate NoneNamed(extras: seq<(string, Value)>, params: set<string>) {
    forall i :: 0 <= i < |extras| ==> extras[i].0 !in params
  }

  /** No pair names a parameter of `params`. */
  lemma Unnamed(extras: seq<(string, Value)>, params: set<string>)
    requires NoneNamed(extras, params)
    ensures forall key :: key in params ==> LastValue(extras, key).None?
  {
  }

  /** Every extra argument reaches the call with the last value given for it. */
  lemma ExtrasReach(kw: map<string, Value>, extras: seq<(string, Value)>)
    ensures forall i :: 0 <= i < |extras| ==>
      extras[i].0 in Overlay(kw, extras) && Overlay(kw, extras)[extras[i].0] == LastValue(extras, extras[i].0).value
  {
    forall i | 0 <= i < |extras|
      ensures extras[i].0 in Overlay(kw, extras) && Overlay(kw, extras)[extras[i].0] == LastValue(extras, extras[i].0).value
    {
      OverlayLastWins(kw, extras, extras[i].0);
    }
  }

  /** For the extras Python can pass, each text field is sent exactly when
      it is not empty, with its own text, and every extra argument is sent
      with the last value given for it. */
  lemma EvaluationFieldRule(query: string, response: string, reference: string, context: string,
                            extras: seq<(string, Value)>)
    requires NoneNamed(extras, {"grader", "query", "response", "reference_response", "context"})
    ensures var kw := Overlay(EvaluationFields(query, response, reference, context), extras);
      ("query" in kw <==> query != "") && ("query" in kw ==> kw["query"] == StrArg(query)) &&
      ("response" in kw <==> response != "") && ("response" in kw ==> kw["response"] == StrArg(response)) &&
      ("reference_response" in kw <==> reference != "") &&
      ("reference_response" in kw ==> kw["reference_response"] == StrArg(reference)) &&
      ("context" in kw <==> context != "") && ("context" in kw ==> kw["context"] == StrArg(context))
    ensures var kw := Overlay(EvaluationFields(query, response, reference, context), extras);
      forall i :: 0 <= i < |extras| ==> extras[i].0 in kw && kw[extras[i].0] == LastValue(extras, extras[i].0).value
  {
    var base := EvaluationFields(query, response, reference, context);
    OverlayLastWins(base, extras, "query");
    OverlayLastWins(base, extras, "response");
    OverlayLastWins(base, extras, "reference_response");
    OverlayLastWins(base, extras, "context");
    ExtrasReach(base, extras);
  }

  /** `run_multimodal_evaluation`: the response content always, the query
      when not empty, then the extra arguments. */
  method RunMultimodalEvaluation(content: seq<Json>, query: string, extras: seq<(string, Value)>)
    returns (kw: map<string, Value>)
    ensures var base := map["response" := ItemsArg(content)];
      kw == Overlay(if query != "" then base["query" := StrArg(query)] else base, extras)
  {
    kw := map["response" := ItemsArg(content)];
    if query != "" {
      kw := kw["query" := StrArg(query)];
    }
    kw := Update(kw, extras);
  }

  /** `run_agent_evaluation`: query, tool definitions and tool calls always,
      the reference tool calls when given and not empty, then the extras. */
  method RunAgentEvaluation(query: string, definitions: seq<Json>, calls: seq<Json>, reference: Option<seq<Json>>,
                            extras: seq<(string, Value)>)
    returns (kw: map<string, Value>)
    ensures var base := map["query" := StrArg(query), "tool_definitions" := ItemsArg(definitions), "tool_calls" := ItemsArg(calls)];
      kw == Overlay(if reference.Some? && reference.value != [] then base["reference_tool_calls" := ItemsArg(reference.value)] else base, extras)
  {
    kw := map["query" := StrArg(query), "tool_definitions" := ItemsArg(definitions), "tool_calls" := ItemsArg(calls)];
    if reference.Some? && reference.value != [] {
      kw := kw["reference_tool_calls" := ItemsArg(reference.value)];
    }
    kw := Update(kw, extras);
  }

  /** The keyword arguments of `run_agent_evaluation` before the extras:
      the query, tool definitions and tool calls, and the reference tool
      calls when some are given. */
  function AgentKwargs(query: string, definitions: seq<Json>, calls: seq<Json>, reference: Option<seq<Json>>): (r: map<string, Value>)
    ensures "query" in r && r["query"] == StrArg(query)
    ensures "tool_definitions" in r && r["tool_definitions"] == ItemsArg(definitions)
    ensures "tool_calls" in r && r["tool_calls"] == ItemsArg(calls)
    ensures "reference_tool_calls" in r <==> reference.Some? && reference.value != []
    ensures "reference_tool_calls" in r ==> r["reference_tool_calls"] == ItemsArg(reference.value)
    ensures r.Keys <= {"query", "tool_definitions", "tool_calls", "reference_tool_calls"}
  {
    var base := map["query" := StrArg(query), "tool_definitions" := ItemsArg(definitions), "tool_calls" := ItemsArg(calls)];
    if reference.Some? && reference.value != [] then base["reference_tool_calls" := ItemsArg(reference.value)] else base
  }

  /** For the extras Python can pass, the agent evaluation sends the query,
      tool definitions and tool calls as given, the reference tool calls
      exactly when some are given, and every extra argument with the last
      value given for it. */
  lemma AgentFields(query: string, definitions: seq<Json>, calls: seq<Json>, reference: Option<seq<Json>>,
                    extras: seq<(string, Value)>)
    requires NoneNamed(extras, {"grader", "query", "tool_definitions", "tool_calls", "reference_tool_calls"})
    ensures var kw := Overlay(AgentKwargs(query, definitions, calls, reference), extras);
      "query" in kw && kw["query"] == StrArg(query) &&
      "tool_definitions" in kw && kw["tool_definitions"] == ItemsArg(definitions) &&
      "tool_calls" in kw && kw["tool_calls"] == ItemsArg(calls) &&
      ("reference_tool_calls" in kw <==> reference.Some? && reference.value != []) &&
      ("reference_tool_calls" in kw ==> kw["reference_tool_calls"] == ItemsArg(reference.value))
    ensures var kw := Overlay(AgentKwargs(query, definitions, calls, reference), extras);
      forall i :: 0 <= i < |extras| ==> extras[i].0 in kw && kw[extras[i].0] == LastValue(extras, extras[i].0).value
  {
    var b := AgentKwargs(query, definitions, calls, reference);
    Unnamed(extras, {"grader", "query", "tool_definitions", "tool_calls", "reference_tool_calls"});
    OverlayLastWins(b, extras, "query");
    OverlayLastWins(b, extras, "tool_definitions");
    OverlayLastWins(b, extras, "tool_calls");
    OverlayLastWins(b, extras, "reference_tool_calls");
    ExtrasReach(b, extras);
  }
}
