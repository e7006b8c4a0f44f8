/** The agentic (ReAct-style) grader: a chat model may call registered
    tools for a bounded number of rounds, after which its final text is
    turned into a GraderScore or GraderRank.  The chat model, the tools,
    JSON decoding, the regular-expression searches over the final text and
    uuid4 are oracles the caller passes in as functions. */
module AgenticGrader {
  import opened Common
  import opened JsonValue
  import opened GraderSchema

  // ---------------------------------------------------------------------
  // Language

  datatype Language = EN | ZH

  /** The constructor's `language` argument: absent, a name, or an enum value. */
  datatype LanguageArg = NoLanguage | LanguageName(s: string) | LanguageValue(l: Language)

  /** The enum member whose value is the given name. */
  function LanguageOf(s: string): Option<Language> {
    if s == "en" then Some(EN) else if s == "zh" then Some(ZH) else None
  }

  /** A missing or empty language is read from the LANGUAGE environment
      variable (default "en"); a name that is not a language becomes EN. */
  function ResolveLanguage(arg: LanguageArg, env: Option<string>): (r: Language)
    ensures arg.LanguageValue? ==> r == arg.l
    ensures arg.LanguageName? && LanguageOf(arg.s).Some? ==> r == LanguageOf(arg.s).value
    ensures arg.LanguageName? && arg.s != "" && LanguageOf(arg.s).None? ==> r == EN
    ensures !arg.LanguageValue? && (arg.NoLanguage? || arg.s == "") ==>
              r == (if env.Some? && LanguageOf(env.value).Some? then LanguageOf(env.value).value else EN)
  {
    match arg
    case LanguageValue(l) => l
    case NoLanguage => LanguageOf(env.GetOr("en")).GetOr(EN)
    case LanguageName(s) => LanguageOf(if s != "" then s else env.GetOr("en")).GetOr(EN)
  }

  // ---------------------------------------------------------------------
  // Tools

  /** A tool, seen from this grader: its name and its function-calling schema.
      What it does when run is the `run` oracle. */
  datatype Tool = Tool(name: string, schema: Json)

  /** `{tool.name: tool for tool in tools}`. */
  function ToolMap(ts: seq<Tool>): map<string, Tool>
    decreases |ts|
  {
    if |ts| == 0 then map[] else ToolMap(ts[..|ts| - 1])[ts[|ts| - 1].name := ts[|ts| - 1]]
  }

  /** The key order of that dict: a name takes the place of its first occurrence. */
  function ToolOrder(ts: seq<Tool>): seq<string>
    decreases |ts|
  {
    if |ts| == 0 then []
    else
      var init := ToolOrder(ts[..|ts| - 1]);
      if ts[|ts| - 1].name in init then init else init + [ts[|ts| - 1].name]
  }

  /** Tool i is the last one carrying its name. */
  predicate LastOfName(ts: seq<Tool>, i: nat)
    requires i < |ts|
  {
    forall j :: i < j < |ts| ==> ts[j].name != ts[i].name
  }

  /** The dict holds exactly the names of the list. */
  lemma {:induction false} ToolKeys(ts: seq<Tool>)
    ensures forall n :: n in ToolMap(ts) <==> exists i :: 0 <= i < |ts| && ts[i].name == n
  {
    if |ts| > 0 {
      var init := ts[..|ts| - 1];
      var t := ts[|ts| - 1];
      ToolKeys(init);
      forall n | n in ToolMap(ts) ensures exists i :: 0 <= i < |ts| && ts[i].name == n {
        if n != t.name {
          assert n in ToolMap(init);
          var i :| 0 <= i < |init| && init[i].name == n;
          assert ts[i].name == n;
        }
      }
      forall n | exists i :: 0 <= i < |ts| && ts[i].name == n ensures n in ToolMap(ts) {
        var i :| 0 <= i < |ts| && ts[i].name == n;
        if i < |init| {
          assert init[i].name == n;
        }
      }
    }
  }

  /** Each name is bound to the last tool carrying it. */
  lemma {:induction false} ToolLastWins(ts: seq<Tool>)
    ensures forall i :: 0 <= i < |ts| && LastOfName(ts, i) ==> ts[i].name in ToolMap(ts) && ToolMap(ts)[ts[i].name] == ts[i]
  {
    if |ts| > 0 {
      var init := ts[..|ts| - 1];
      var t := ts[|ts| - 1];
      ToolLastWins(init);
      forall i | 0 <= i < |ts| && LastOfName(ts, i) ensures ts[i].name in ToolMap(ts) && ToolMap(ts)[ts[i].name] == ts[i] {
        if i < |init| {
          assert ts[i].name != t.name;
          assert LastOfName(init, i) by {
            forall j | i < j < |init| ensures init[j].name != init[i].name {
              assert init[j] == ts[j];
            }
          }
          assert init[i] == ts[i];
        }
      }
    }
  }

  /** The key order lists every key of the dict exactly once, and each key
      names its own tool. */
  lemma {:induction false} ToolOrderKeys(ts: seq<Tool>)
    ensures Distinct(ToolOrder(ts)) && Elems(ToolOrder(ts)) == ToolMap(ts).Keys
    ensures forall n :: n in ToolMap(ts) ==> ToolMap(ts)[n].name == n
  {
    if |ts| > 0 {
      var init := ts[..|ts| - 1];
      var t := ts[|ts| - 1];
      ToolOrderKeys(init);
      var o := ToolOrder(init);
      if t.name !in o {
        AppendFresh(o, t.name);
      }
    }
  }

  /** Appending a name not yet listed keeps a list duplicate-free. */
  lemma AppendFresh(o: seq<string>, n: string)
    requires Distinct(o) && n !in o
    ensures Distinct(o + [n]) && Elems(o + [n]) == Elems(o) + {n}
  {
    forall a, b | 0 <= a < b < |o| + 1 ensures (o + [n])[a] != (o + [n])[b] {
      if b == |o| {
        assert o[a] in o;
      }
    }
  }

  /** Python's repr of a list of names: ['a', 'b']. */
  function NameList(names: seq<string>): string {
    "[" + Join(seq(|names|, i requires 0 <= i < |names| => "'" + names[i] + "'"), ", ") + "]"
  }

  // ---------------------------------------------------------------------
  // Messages and the oracles

  /** A tool call as the model returns it; None marks a missing field. */
  datatype RawToolCall = RawToolCall(id: Option<string>, name: Option<string>, arguments: Option<Json>)

  /** A tool call as recorded in the assistant message. */
  datatype ToolCall = ToolCall(id: string, name: string, arguments: Json)

  /** An OpenAI-format message; absent keys are None or empty. */
  datatype Message = Message(role: string, content: Option<string>, toolCalls: seq<ToolCall>, toolCallId: Option<string>)

  /** The model's reply (the last chunk, when streamed). */
  datatype Reply = Reply(content: Option<string>, toolCalls: seq<RawToolCall>)

  /** What a tool returns (a ToolResult), or the message of what it raised. */
  datatype ToolOutcome = Returned(success: bool, output: Option<string>, error: Option<string>) | Raised(msg: string)

  /** The outside world: the chat model (Err for a raised exception), JSON
      decoding (None for JSONDecodeError), the tools, and uuid4, which is
      given the round and the position of the call it names. */
  datatype Oracles = Oracles(
    chat: (seq<Message>, seq<Json>) -> Result<Reply>,
    parse: string -> Option<Json>,
    run: (Tool, map<string, Json>) -> ToolOutcome,
    mint: (nat, nat) -> string)

  /** The part of a grader the ReAct loop reads. */
  datatype Toolbox = Toolbox(tools: map<string, Tool>, order: seq<string>, maxIterations: int)

  function Schemas(box: Toolbox): (r: seq<Json>)
    requires forall n :: n in box.order ==> n in box.tools
    ensures |r| == |box.order|
    ensures forall i :: 0 <= i < |r| ==> r[i] == box.tools[box.order[i]].schema
  {
    seq(|box.order|, i requires 0 <= i < |box.order| => box.tools[box.order[i]].schema)
  }

  /** The serialisable form of one returned call: a missing id is minted,
      a missing name is "", missing arguments are "{}". */
  function Serialize(c: RawToolCall, round: nat, pos: nat, mint: (nat, nat) -> string): ToolCall {
    ToolCall(
      if c.id.Some? then c.id.value else mint(round, pos),
      c.name.GetOr(""),
      if c.arguments.Some? then c.arguments.value else JStr("{}"))
  }

  function SerializeAll(cs: seq<RawToolCall>, round: nat, mint: (nat, nat) -> string): (r: seq<ToolCall>)
    ensures |r| == |cs|
    ensures forall i :: 0 <= i < |cs| && cs[i].id.Some? ==> r[i].id == cs[i].id.value
  {
    seq(|cs|, i requires 0 <= i < |cs| => Serialize(cs[i], round, i, mint))
  }

  /** The assistant message: content only when non-empty, tool_calls only when there are some. */
  function AssistantMessage(content: string, calls: seq<ToolCall>): Message {
    Message("assistant", if content == "" then None else Some(content), calls, None)
  }

  // ---------------------------------------------------------------------
  // Executing one tool call

  /** The message text for what a found tool did: its output when non-empty,
      otherwise "Success (no output)" or "Error: <error>". */
  function OutcomeText(outcome: ToolOutcome): (r: string)
    ensures |r| > 0
    ensures outcome.Raised? ==> r == "Execution error: " + outcome.msg
    ensures outcome.Returned? && outcome.output.Some? && outcome.output.value != "" ==> r == outcome.output.value
    ensures outcome.Returned? && (outcome.output.None? || outcome.output.value == "") ==>
              r == (if outcome.success then "Success (no output)" else "Error: " + outcome.error.GetOr("None"))
  {
    match outcome
    case Raised(m) => "Execution error: " + m
    case Returned(success, output, error) =>
      if output.Some? && output.value != "" then output.value
      else if success then "Success (no output)"
      else "Error: " + error.GetOr("None")
  }

  /** Arguments given as a string are decoded; undecodable text becomes {}. */
  function Arguments(args: Json, parse: string -> Option<Json>): (r: Json)
    ensures args.JStr? && parse(args.s).None? ==> r == JObj(map[])
    ensures !args.JStr? ==> r == args
  {
    if args.JStr? then parse(args.s).GetOr(JObj(map[])) else args
  }

  /** The content of the tool message for one call. */
  function ToolContent(box: Toolbox, c: ToolCall, o: Oracles): (r: string)
    ensures |r| > 0
    ensures c.name !in box.tools ==> StartsWith(r, "Error: Tool '" + c.name + "' not found. Available: ")
    ensures c.name in box.tools && !Arguments(c.arguments, o.parse).JObj? ==> StartsWith(r, "Execution error: ")
    ensures c.name in box.tools && Arguments(c.arguments, o.parse).JObj? ==>
              r == OutcomeText(o.run(box.tools[c.name], Arguments(c.arguments, o.parse).fields))
  {
    if c.name !in box.tools then
      var head := "Error: Tool '" + c.name + "' not found. Available: ";
      var r := head + NameList(box.order);
      assert r[..|head|] == head;
      r
    else
      var args := Arguments(c.arguments, o.parse);
      if !args.JObj? then
        var head := "Execution error: ";
        var r := head + "argument after ** must be a mapping";
        assert r[..|head|] == head;
        r
      else OutcomeText(o.run(box.tools[c.name], args.fields))
  }

  /** The tool message: role "tool", echoing the call's id. */
  function ToolMessage(c: ToolCall, content: string): Message {
    Message("tool", Some(content), [], Some(c.id))
  }

  /** The tool messages of one round, one per call and in call order;
      `exec` gives the content of executing a call. */
  function ToolMessages(cs: seq<ToolCall>, exec: ToolCall -> string): (r: seq<Message>)
    decreases |cs|
    ensures |r| == |cs|
  {
    if |cs| == 0 then []
    else
      var c := cs[|cs| - 1];
      ToolMessages(cs[..|cs| - 1], exec) + [ToolMessage(c, exec(c))]
  }

  /** `_execute_tool_call` for this grader's tools, as a function of the call. */
  function Executor(box: Toolbox, o: Oracles): (exec: ToolCall -> string)
    ensures forall c :: exec(c) == ToolContent(box, c, o)
  {
    c => ToolContent(box, c, o)
  }

  /** Tool message i answers call i: role "tool", the call's id echoed, and
      the content of executing that call. */
  lemma {:induction false} ToolMessagesAnswer(cs: seq<ToolCall>, exec: ToolCall -> string)
    ensures var r := ToolMessages(cs, exec);
      forall i :: 0 <= i < |cs| ==> r[i] == ToolMessage(cs[i], exec(cs[i]))
    decreases |cs|
  {
    if |cs| > 0 {
      var init := cs[..|cs| - 1];
      var r := ToolMessages(cs, exec);
      ToolMessagesAnswer(init, exec);
      assert r[..|cs| - 1] == ToolMessages(init, exec);
      forall i | 0 <= i < |cs| ensures r[i] == ToolMessage(cs[i], exec(cs[i])) {
        if i < |cs| - 1 {
          assert cs[i] == init[i] && r[i] == r[..|cs| - 1][i];
        }
      }
    }
  }

  // ---------------------------------------------------------------------
  // The ReAct loop, as a specification

  const UnboundContent := "UnboundLocalError: local variable 'content' referenced before assignment"

  /** One round's model call: the reply's content ("" when absent) and its
      tool calls in serialised form; Err when the model raises. */
  function Ask(box: Toolbox, o: Oracles, msgs: seq<Message>, round: nat): Result<(string, seq<ToolCall>)>
    requires forall n :: n in box.order ==> n in box.tools
  {
    match o.chat(msgs, Schemas(box))
    case Err(e) => Err(e)
    case Ok(reply) => Ok((reply.content.GetOr(""), SerializeAll(reply.toolCalls, round, o.mint)))
  }

  /** The messages one round appends: the assistant message, then one tool
      message per call. */
  function RoundMessages(content: string, calls: seq<ToolCall>, exec: ToolCall -> string): seq<Message> {
    [AssistantMessage(content, calls)] + ToolMessages(calls, exec)
  }

  /** The loop from round `it` on, with the messages so far and the content of
      the last reply (None before the first).  At most maxIterations rounds;
      a reply without tool calls ends it; a raising chat model ends it with Err. */
  function Loop(box: Toolbox, o: Oracles, exec: ToolCall -> string, msgs: seq<Message>, it: nat, last: Option<string>): Result<(string, seq<Message>)>
    requires forall n :: n in box.order ==> n in box.tools
    decreases box.maxIterations - it
  {
    if it >= box.maxIterations then
      if last.None? then Err(UnboundContent) else Ok((last.value, msgs))
    else
      match Ask(box, o, msgs, it + 1)
      case Err(e) => Err(e)
      case Ok((content, calls)) =>
        if |calls| == 0 then Ok((content, msgs + [AssistantMessage(content, calls)]))
        else Loop(box, o, exec, msgs + RoundMessages(content, calls, exec), it + 1, Some(content))
  }

  // ---------------------------------------------------------------------
  // Counting over a message history

  function Sum(ms: seq<Message>, w: Message -> nat): nat
    decreases |ms|
  {
    if |ms| == 0 then 0 else Sum(ms[..|ms| - 1], w) + w(ms[|ms| - 1])
  }

  lemma {:induction false} SumAppend(a: seq<Message>, b: seq<Message>, w: Message -> nat)
    ensures Sum(a + b, w) == Sum(a, w) + Sum(b, w)
    decreases |b|
  {
    if |b| > 0 {
      assert (a + b)[..|a + b| - 1] == a + b[..|b| - 1];
      SumAppend(a, b[..|b| - 1], w);
    } else {
      assert a + b == a;
    }
  }

  function AssistantWeight(m: Message): nat { if m.role == "assistant" then 1 else 0 }
  function CallWeight(m: Message): nat { if m.role == "assistant" then |m.toolCalls| else 0 }
  function ToolWeight(m: Message): nat { if m.role == "tool" then 1 else 0 }

  /** The number of assistant messages ("iterations" in the metadata). */
  function Iterations(ms: seq<Message>): nat { Sum(ms, AssistantWeight) }

  /** The tool calls across assistant messages ("tool_calls" in the metadata). */
  function CallCount(ms: seq<Message>): nat { Sum(ms, CallWeight) }

  /** The number of tool messages. */
  function ToolReplies(ms: seq<Message>): nat { Sum(ms, ToolWeight) }

  lemma {:induction false} ToolMessagesCounts(cs: seq<ToolCall>, exec: ToolCall -> string)
    ensures Iterations(ToolMessages(cs, exec)) == 0
    ensures CallCount(ToolMessages(cs, exec)) == 0
    ensures ToolReplies(ToolMessages(cs, exec)) == |cs|
    decreases |cs|
  {
    if |cs| > 0 {
      var r := ToolMessages(cs, exec);
      ToolMessagesCounts(cs[..|cs| - 1], exec);
      assert r[..|r| - 1] == ToolMessages(cs[..|cs| - 1], exec);
    }
  }

  /** One round's messages: one assistant message, and as many tool
      messages as it has tool calls. */
  lemma RoundCounts(content: string, cs: seq<ToolCall>, exec: ToolCall -> string)
    ensures var round := RoundMessages(content, cs, exec);
      Iterations(round) == 1 && CallCount(round) == |cs| && ToolReplies(round) == |cs|
  {
    var a := [AssistantMessage(content, cs)];
    var t := ToolMessages(cs, exec);
    ToolMessagesCounts(cs, exec);
    SumAppend(a, t, AssistantWeight);
    SumAppend(a, t, CallWeight);
    SumAppend(a, t, ToolWeight);
    assert a[..0] == [];
  }

  /** `out` extends `msgs` by between one and `budget` assistant messages, one
      tool message per tool call, and, when fewer than `budget` rounds ran,
      ends with an assistant message without tool calls holding `content`. */
  predicate Shaped(msgs: seq<Message>, out: seq<Message>, budget: int, content: string) {
    |msgs| < |out| && out[..|msgs|] == msgs &&
    1 <= Iterations(out[|msgs|..]) <= budget &&
    ToolReplies(out[|msgs|..]) == CallCount(out[|msgs|..]) &&
    (Iterations(out[|msgs|..]) < budget ==> out[|out| - 1] == AssistantMessage(content, []))
  }

  lemma ShapedLastRound(msgs: seq<Message>, round: seq<Message>, budget: int, content: string)
    requires Iterations(round) == 1 && ToolReplies(round) == CallCount(round) && |round| > 0
    requires budget >= 1
    requires budget > 1 ==> round[|round| - 1] == AssistantMessage(content, [])
    ensures Shaped(msgs, msgs + round, budget, content)
  {
    assert (msgs + round)[|msgs|..] == round;
    assert (msgs + round)[..|msgs|] == msgs;
  }

  lemma ShapedPrepend(msgs: seq<Message>, round: seq<Message>, out: seq<Message>, budget: int, content: string)
    requires Iterations(round) == 1 && ToolReplies(round) == CallCount(round)
    requires Shaped(msgs + round, out, budget - 1, content)
    ensures Shaped(msgs, out, budget, content)
  {
    var next := msgs + round;
    var rest := out[|next|..];
    assert out[..|next|] == next;
    assert out[..|msgs|] == msgs;
    assert out[|msgs|..] == round + rest;
    SumAppend(round, rest, AssistantWeight);
    SumAppend(round, rest, CallWeight);
    SumAppend(round, rest, ToolWeight);
  }

  /** A round with tool calls hands over to the next round. */
  lemma LoopStep(box: Toolbox, o: Oracles, exec: ToolCall -> string, msgs: seq<Message>, it: nat, last: Option<string>, content: string, calls: seq<ToolCall>)
    requires forall n :: n in box.order ==> n in box.tools
    requires it < box.maxIterations
    requires Ask(box, o, msgs, it + 1) == Ok((content, calls)) && |calls| > 0
    ensures Loop(box, o, exec, msgs, it, last) == Loop(box, o, exec, msgs + RoundMessages(content, calls, exec), it + 1, Some(content))
  {
  }

  /** A round without tool calls ends the loop with its content. */
  lemma LoopStop(box: Toolbox, o: Oracles, exec: ToolCall -> string, msgs: seq<Message>, it: nat, last: Option<string>, content: string)
    requires forall n :: n in box.order ==> n in box.tools
    requires it < box.maxIterations
    requires Ask(box, o, msgs, it + 1) == Ok((content, []))
    ensures Loop(box, o, exec, msgs, it, last) == Ok((content, msgs + RoundMessages(content, [], exec)))
  {
    assert ToolMessages([], exec) == [];
    assert [AssistantMessage(content, [])] + [] == [AssistantMessage(content, [])];
  }

  /** Every run of the loop that returns has the shape `Shaped` describes,
      with the whole remaining budget of rounds. */
  lemma {:induction false} LoopShape(box: Toolbox, o: Oracles, exec: ToolCall -> string, msgs: seq<Message>, it: nat, last: Option<string>)
    requires forall n :: n in box.order ==> n in box.tools
    requires it < box.maxIterations
    ensures var r := Loop(box, o, exec, msgs, it, last);
      r.Ok? ==> Shaped(msgs, r.value.1, box.maxIterations - it, r.value.0)
    decreases box.maxIterations - it
  {
    var ask := Ask(box, o, msgs, it + 1);
    if ask.Ok? {
      var (content, calls) := ask.value;
      var round := RoundMessages(content, calls, exec);
      RoundCounts(content, calls, exec);
      if |calls| == 0 {
        LoopStop(box, o, exec, msgs, it, last, content);
        ShapedLastRound(msgs, round, box.maxIterations - it, content);
      } else {
        LoopStep(box, o, exec, msgs, it, last, content, calls);
        var r := Loop(box, o, exec, msgs + round, it + 1, Some(content));
        if it + 1 >= box.maxIterations {
          ShapedLastRound(msgs, round, box.maxIterations - it, content);
        } else if r.Ok? {
          LoopShape(box, o, exec, msgs + round, it + 1, Some(content));
          ShapedPrepend(msgs, round, r.value.1, box.maxIterations - it, r.value.0);
        }
      }
    }
  }

  /** With max_iterations <= 0 the loop body never runs and the final
      `return content, messages` finds `content` unbound. */
  lemma NoIterationsFails(box: Toolbox, o: Oracles, exec: ToolCall -> string, msgs: seq<Message>)
    requires forall n :: n in box.order ==> n in box.tools
    requires box.maxIterations <= 0
    ensures Loop(box, o, exec, msgs, 0, None) == Err(UnboundContent)
  {
  }

  // ---------------------------------------------------------------------
  // Parsing the final text

  /** What the regular expressions find in the final text: the decoded
      balanced-brace matches in order (None where json.loads fails), the
      float of the first group of each score pattern in order (None where it
      does not match), and the first group of each rank pattern in order.
      `toFloat` is Python's `float()` on a text, None where it raises. */
  datatype Extraction = Extraction(objects: seq<Option<map<string, Json>>>, scores: seq<Option<real>>, ranks: seq<Option<string>>,
                                   toFloat: string -> Option<real>)

  predicate HasVerdictKey(d: map<string, Json>) { "score" in d || "rank" in d }

  predicate Qualifies(obj: Option<map<string, Json>>) { obj.Some? && HasVerdictKey(obj.value) }

  /** The first decoded object, from index i on, holding "score" or "rank". */
  function FirstVerdict(objs: seq<Option<map<string, Json>>>, i: nat): (r: Option<map<string, Json>>)
    decreases |objs| - i
    ensures r.Some? <==> exists k :: i <= k < |objs| && Qualifies(objs[k])
    ensures r.Some? ==> HasVerdictKey(r.value)
    ensures r.Some? ==> exists k :: i <= k < |objs| && objs[k] == r && (forall j :: i <= j < k ==> !Qualifies(objs[j]))
  {
    if i >= |objs| then None
    else if Qualifies(objs[i]) then objs[i]
    else FirstVerdict(objs, i + 1)
  }

  /** The first present entry from index i on: the first pattern that matched. */
  function FirstSome<T>(xs: seq<Option<T>>, i: nat): (r: Option<T>)
    decreases |xs| - i
    ensures r.Some? <==> exists k :: i <= k < |xs| && xs[k].Some?
    ensures r.Some? ==> exists k :: i <= k < |xs| && xs[k] == r && (forall j :: i <= j < k ==> xs[j].None?)
  {
    if i >= |xs| then None
    else if xs[i].Some? then xs[i]
    else
      var r := FirstSome(xs, i + 1);
      assert r.Some? ==> exists k :: i + 1 <= k < |xs| && xs[k] == r && (forall j :: i + 1 <= j < k ==> xs[j].None?);
      r
  }

  /** `[int(x.strip()) for x in parts]`, None where int() raises ValueError. */
  function ParseInts(parts: seq<string>): (r: Option<seq<int>>)
    decreases |parts|
    ensures r.Some? <==> forall i :: 0 <= i < |parts| ==> PyInt(parts[i]).Some?
    ensures r.Some? ==> |r.value| == |parts| && forall i :: 0 <= i < |parts| ==> PyInt(parts[i]) == Some(r.value[i])
  {
    if |parts| == 0 then Some([])
    else
      var init := ParseInts(parts[..|parts| - 1]);
      var last := PyInt(parts[|parts| - 1]);
      assert forall i :: 0 <= i < |parts| - 1 ==> parts[i] == parts[..|parts| - 1][i];
      if init.None? || last.None? then None
      else Some(init.value + [last.value])
  }

  /** A rank group read as comma-separated integers. */
  function RankOf(s: string): Option<seq<int>> { ParseInts(Split(s, ',')) }

  /** Each rank pattern's group read as integers: None where the pattern did
      not match or int() raised. */
  function RankCandidates(ranks: seq<Option<string>>): (r: seq<Option<seq<int>>>)
    ensures |r| == |ranks|
    ensures forall k :: 0 <= k < |ranks| ==> r[k] == if ranks[k].Some? then RankOf(ranks[k].value) else None
  {
    seq(|ranks|, k requires 0 <= k < |ranks| => if ranks[k].Some? then RankOf(ranks[k].value) else None)
  }

  /** The first rank pattern whose group parses; a group that does not parse is skipped. */
  function FirstRank(ranks: seq<Option<string>>): Option<seq<int>> {
    FirstSome(RankCandidates(ranks), 0)
  }

  function IntsJson(rs: seq<int>): (r: seq<Json>)
    ensures |r| == |rs|
  {
    seq(|rs|, i requires 0 <= i < |rs| => JNum(rs[i] as real))
  }

  /** A JSON list of whole numbers as a list of ints; None otherwise. */
  function JsonInts(items: seq<Json>): (r: Option<seq<int>>)
    decreases |items|
    ensures r.Some? ==> |r.value| == |items| && forall i :: 0 <= i < |items| ==> items[i] == JNum(r.value[i] as real)
  {
    if |items| == 0 then Some([])
    else
      var init := JsonInts(items[..|items| - 1]);
      var x := items[|items| - 1];
      if init.Some? && x.JNum? && x.n == x.n.Floor as real then
        assert forall i :: 0 <= i < |items| - 1 ==> items[i] == items[..|items| - 1][i];
        Some(init.value + [x.n.Floor])
      else None
  }

  /** A rank stored as JSON numbers reads back as the same ranks. */
  lemma {:induction false} IntsRoundTrip(rs: seq<int>)
    ensures JsonInts(IntsJson(rs)) == Some(rs)
    decreases |rs|
  {
    if |rs| > 0 {
      var init := rs[..|rs| - 1];
      IntsRoundTrip(init);
      assert IntsJson(rs)[..|rs| - 1] == IntsJson(init);
      assert rs == init + [rs[|rs| - 1]];
    }
  }

  /** `data` after both strategies: the first qualifying JSON object, else
      {"score": ...} or {"rank": [...]} from the first matching pattern of the
      grader's mode, else {}. */
  function Extracted(mode: GraderMode, ex: Extraction): map<string, Json> {
    match FirstVerdict(ex.objects, 0)
    case Some(d) => d
    case None =>
      if mode == Pointwise then
        match FirstSome(ex.scores, 0)
        case Some(v) => map["score" := JNum(v)]
        case None => map[]
      else
        match FirstRank(ex.ranks)
        case Some(rs) => map["rank" := JArr(IntsJson(rs))]
        case None => map[]
  }

  /** float(x) for a decoded JSON value, `toFloat` reading a text. */
  function PyFloat(x: Json, toFloat: string -> Option<real>): (r: Result<real>)
    ensures x.JNum? ==> r == Ok(x.n)
    ensures x.JBool? ==> r == Ok(if x.b then 1.0 else 0.0)
    ensures x.JStr? ==> (r.Ok? <==> toFloat(x.s).Some?) && (r.Ok? ==> r.value == toFloat(x.s).value)
    ensures x.JArr? || x.JObj? || x.JNull? ==> r.Err?
  {
    match x
    case JNum(n) => Ok(n)
    case JBool(b) => Ok(if b then 1.0 else 0.0)
    case JStr(s) =>
      (match toFloat(s)
       case Some(v) => Ok(v)
       case None => Err("ValueError: could not convert string to float"))
    case JNull => Err("TypeError: float() argument must be a string or a real number, not 'NoneType'")
    case _ => Err("TypeError: float() argument must be a string or a real number")
  }

  /** `data.get("reason", output)`, which the result record needs to be a string. */
  function ReasonOf(data: map<string, Json>, output: string): (r: Result<string>)
    ensures "reason" !in data ==> r == Ok(output)
    ensures "reason" in data ==> (r.Ok? <==> data["reason"].JStr?)
  {
    if "reason" !in data then Ok(output)
    else if data["reason"].JStr? then Ok(data["reason"].s)
    else Err("ValidationError: reason should be a valid string")
  }

  /** `data` without the given two keys. */
  function Without(data: map<string, Json>, a: string, b: string): (r: map<string, Json>)
    ensures r.Keys == data.Keys - {a, b}
    ensures forall k :: k in r ==> r[k] == data[k]
  {
    map k | k in data && k != a && k != b :: data[k]
  }

  /** The result record built from `data`: score 3 or rank [1] when nothing
      was extracted, the reason defaulting to the raw output. */
  function Build(name: string, mode: GraderMode, output: string, data: map<string, Json>, toFloat: string -> Option<real>): Result<GraderResult> {
    match ReasonOf(data, output)
    case Err(e) => Err(e)
    case Ok(reason) =>
      if mode == Pointwise then
        var score := if "score" in data && data["score"] != JNull then PyFloat(data["score"], toFloat) else Ok(3.0);
        match score
        case Err(e) => Err(e)
        case Ok(v) => Ok(GraderScore(name, v, reason, Without(data, "score", "reason")))
      else
        var rank :=
          if "rank" !in data || data["rank"] == JNull then Some([1])
          else if data["rank"].JArr? then JsonInts(data["rank"].items)
          else None;
        match rank
        case None => Err("ValidationError: rank should be a valid list of integers")
        case Some(rs) =>
          match MakeGraderRank(name, rs, reason, Without(data, "rank", "reason"))
          case Valid(g) => Ok(g)
          case Invalid(_) => Err("ValidationError: rank should be a permutation of 1..n")
  }

  /** `_parse_result` as a specification. */
  function ParseSpec(name: string, mode: GraderMode, output: string, ex: Extraction): Result<GraderResult> {
    Build(name, mode, output, Extracted(mode, ex), ex.toFloat)
  }

  lemma SingletonRanking()
    ensures IsRanking([1])
  {
    assert Iota(1) == [1];
  }

  /** The promises of `_parse_result`: the result has this grader's name and
      the kind its mode asks for; with nothing extracted it is score 3 (or
      rank [1]) with the raw output as reason and no metadata; without a
      "reason" the raw output is the reason; the metadata is `data` without
      the score (or rank) and the reason. */
  lemma ParseResultProperties(name: string, mode: GraderMode, output: string, ex: Extraction)
    ensures var r := ParseSpec(name, mode, output, ex);
      var data := Extracted(mode, ex);
      (r.Ok? ==> r.value.name == name && (mode == Pointwise <==> r.value.GraderScore?) && !r.value.GraderError?) &&
      (data == map[] && mode == Pointwise ==> r == Ok(GraderScore(name, 3.0, output, map[]))) &&
      (data == map[] && mode == Listwise ==> r == Ok(GraderRank(name, [1], output, map[]))) &&
      (r.Ok? && "reason" !in data ==> r.value.reason == output) &&
      (r.Ok? && mode == Pointwise ==> r.value.metadata == Without(data, "score", "reason")) &&
      (r.Ok? && mode == Listwise ==> r.value.metadata == Without(data, "rank", "reason"))
  {
    SingletonRanking();
    var data := Extracted(mode, ex);
    if data == map[] {
      assert Without(data, "score", "reason") == map[];
      assert Without(data, "rank", "reason") == map[];
    }
  }

  /** A pointwise score given as a JSON string is read with `float()`: the
      result exists exactly when the text converts and the reason is valid,
      and then carries the converted number, so "4.5" gives 4.5. */
  lemma StringScore(name: string, output: string, ex: Extraction)
    requires var data := Extracted(Pointwise, ex); "score" in data && data["score"].JStr?
    ensures var data := Extracted(Pointwise, ex);
      var r := ParseSpec(name, Pointwise, output, ex);
      var v := ex.toFloat(data["score"].s);
      (r.Ok? <==> v.Some? && ReasonOf(data, output).Ok?) &&
      (r.Ok? ==> r.value.GraderScore? && r.value.score == v.value)
  {
  }

  /** A rank stored in `data` by the rank patterns becomes the result's rank
      exactly when it is a permutation of 1..n. */
  lemma BuildPatternRank(name: string, output: string, rs: seq<int>, toFloat: string -> Option<real>)
    ensures var r := Build(name, Listwise, output, map["rank" := JArr(IntsJson(rs))], toFloat);
      (r.Ok? <==> IsRanking(rs)) && (r.Ok? ==> r == Ok(GraderRank(name, rs, output, map[])))
  {
    var data := map["rank" := JArr(IntsJson(rs))];
    IntsRoundTrip(rs);
    assert "reason" !in data;
    assert Without(data, "rank", "reason") == map[];
  }

  /** Without a qualifying JSON object, a listwise grader takes its rank from
      the first rank pattern whose group parses, and the raw output as reason. */
  lemma PatternRankKept(name: string, output: string, ex: Extraction)
    requires FirstVerdict(ex.objects, 0).None?
    requires FirstRank(ex.ranks).Some?
    ensures var rs := FirstRank(ex.ranks).value;
      var r := ParseSpec(name, Listwise, output, ex);
      (r.Ok? <==> IsRanking(rs)) && (r.Ok? ==> r == Ok(GraderRank(name, rs, output, map[])))
  {
    var rs := FirstRank(ex.ranks).value;
    assert Extracted(Listwise, ex) == map["rank" := JArr(IntsJson(rs))];
    BuildPatternRank(name, output, rs, ex.toFloat);
  }

  // ---------------------------------------------------------------------
  // Metadata and configuration

  function ToolCallJson(c: ToolCall): Json {
    JObj(map["id" := JStr(c.id), "type" := JStr("function"),
             "function" := JObj(map["name" := JStr(c.name), "arguments" := c.arguments])])
  }

  /** A message as the dict the history holds. */
  function MessageJson(m: Message): Json {
    var base := map["role" := JStr(m.role)];
    var withContent := if m.content.Some? then base["content" := JStr(m.content.value)] else base;
    var withCalls :=
      if m.toolCalls != [] then
        withContent["tool_calls" := JArr(seq(|m.toolCalls|, i requires 0 <= i < |m.toolCalls| => ToolCallJson(m.toolCalls[i])))]
      else withContent;
    JObj(if m.toolCallId.Some? then withCalls["tool_call_id" := JStr(m.toolCallId.value)] else withCalls)
  }

  /** The metadata `aevaluate` puts on the parsed result. */
  function RunMetadata(md: map<string, Json>, elapsed: real, history: seq<Message>): (r: map<string, Json>)
    ensures "tool_calls" in r && r["tool_calls"] == JNum(CallCount(history) as real)
    ensures "iterations" in r && r["iterations"] == JNum(Iterations(history) as real)
    ensures forall k :: k in md && k !in {"total_time", "tool_calls", "iterations", "messages"} ==> k in r && r[k] == md[k]
  {
    md["total_time" := JNum(elapsed)]
      ["tool_calls" := JNum(CallCount(history) as real)]
      ["iterations" := JNum(Iterations(history) as real)]
      ["messages" := JArr(seq(|history|, i requires 0 <= i < |history| => MessageJson(history[i])))]
  }

  /** `aevaluate` as a specification: the loop, the parse of its final
      content, and the run's metadata over the parsed metadata. */
  function EvaluateSpec(name: string, mode: GraderMode, box: Toolbox, o: Oracles, initial: seq<Message>,
                        extract: string -> Extraction, elapsed: real): Result<GraderResult>
    requires forall n :: n in box.order ==> n in box.tools
  {
    match Loop(box, o, Executor(box, o), initial, 0, None)
    case Err(e) => Err(e)
    case Ok((content, history)) => WithRunMetadata(ParseSpec(name, mode, content, extract(content)), elapsed, history)
  }

  /** The parsed result with the run's metadata merged in; errors pass through. */
  function WithRunMetadata(p: Result<GraderResult>, elapsed: real, history: seq<Message>): (r: Result<GraderResult>)
    ensures r.Ok? <==> p.Ok?
    ensures r.Ok? ==> r.value.metadata == RunMetadata(p.value.metadata, elapsed, history)
  {
    match p
    case Err(e) => Err(e)
    case Ok(g) => Ok(g.(metadata := RunMetadata(g.metadata, elapsed, history)))
  }

  /** The history a returning loop leaves, started from prompt messages. */
  lemma HistoryCounts(box: Toolbox, o: Oracles, exec: ToolCall -> string, initial: seq<Message>)
    requires forall n :: n in box.order ==> n in box.tools
    requires Iterations(initial) == 0 && CallCount(initial) == 0 && ToolReplies(initial) == 0
    ensures var loop := Loop(box, o, exec, initial, 0, None);
      loop.Ok? ==>
        var history := loop.value.1;
        1 <= Iterations(history) <= box.maxIterations && CallCount(history) == ToolReplies(history) &&
        |initial| < |history| && history[..|initial|] == initial
  {
    var loop := Loop(box, o, exec, initial, 0, None);
    if box.maxIterations <= 0 {
      NoIterationsFails(box, o, exec, initial);
    } else if loop.Ok? {
      LoopShape(box, o, exec, initial, 0, None);
      var history := loop.value.1;
      var added := history[|initial|..];
      assert history == initial + added;
      SumAppend(initial, added, AssistantWeight);
      SumAppend(initial, added, CallWeight);
      SumAppend(initial, added, ToolWeight);
    }
  }

  /** Starting from prompt messages (no assistant or tool messages), a
      successful evaluation reports between 1 and max_iterations iterations
      and as many tool calls as the history holds tool messages. */
  lemma EvaluateCounts(name: string, mode: GraderMode, box: Toolbox, o: Oracles, initial: seq<Message>,
                       extract: string -> Extraction, elapsed: real)
    requires forall n :: n in box.order ==> n in box.tools
    requires Iterations(initial) == 0 && CallCount(initial) == 0 && ToolReplies(initial) == 0
    ensures var r := EvaluateSpec(name, mode, box, o, initial, extract, elapsed);
      r.Ok? ==>
        var md := r.value.metadata;
        var history := Loop(box, o, Executor(box, o), initial, 0, None).value.1;
        "iterations" in md && md["iterations"].JNum? && 1.0 <= md["iterations"].n <= box.maxIterations as real &&
        "tool_calls" in md && md["tool_calls"] == JNum(ToolReplies(history) as real)
  {
    HistoryCounts(box, o, Executor(box, o), initial);
    var loop := Loop(box, o, Executor(box, o), initial, 0, None);
    if loop.Ok? {
      var (content, history) := loop.value;
      var p := ParseSpec(name, mode, content, extract(content));
      assert EvaluateSpec(name, mode, box, o, initial, extract, elapsed) == WithRunMetadata(p, elapsed, history);
    }
  }

  /** The constructor arguments `from_config` pops, and the rest as kwargs. */
  datatype ConfigArgs = ConfigArgs(
    name: Json, mode: Json, description: Json, template: Json,
    model: Json, tools: Json, maxIterations: Json, kwargs: map<string, Json>)

  function Pop(config: map<string, Json>, key: string, default: Json): Json {
    if key in config then config[key] else default
  }

  predicate IsConfigKey(k: string) {
    k == "name" || k == "mode" || k == "description" || k == "template" ||
    k == "model" || k == "tools" || k == "max_iterations"
  }

  /** `from_config` works on a copy: every key of the input reaches exactly one
      constructor argument, and absent keys take their defaults. */
  function FromConfig(config: map<string, Json>): (r: ConfigArgs)
    ensures "max_iterations" !in config ==> r.maxIterations == JNum(10.0)
    ensures "name" !in config ==> r.name == JStr("agentic_grader")
    ensures "mode" !in config ==> r.mode == JStr("pointwise")
    ensures "model" !in config ==> r.model == JObj(map[])
    ensures "tools" !in config ==> r.tools == JNull
    ensures forall k :: k in r.kwargs <==> k in config && !IsConfigKey(k)
    ensures forall k :: k in r.kwargs ==> r.kwargs[k] == config[k]
    ensures "max_iterations" in config ==> r.maxIterations == config["max_iterations"]
    ensures "name" in config ==> r.name == config["name"]
  {
    ConfigArgs(
      Pop(config, "name", JStr("agentic_grader")),
      Pop(config, "mode", JStr("pointwise")),
      Pop(config, "description", JStr("ReAct-style agentic grader")),
      Pop(config, "template", JNull),
      Pop(config, "model", JObj(map[])),
      Pop(config, "tools", JNull),
      Pop(config, "max_iterations", JNum(10.0)),
      map k | k in config && !IsConfigKey(k) :: config[k])
  }

  /** The tool calls of one round, executed in order (`_execute_tool_call`
      for each), giving their tool messages. */
  method ExecuteToolCalls(box: Toolbox, calls: seq<ToolCall>, o: Oracles) returns (replies: seq<Message>)
    ensures replies == ToolMessages(calls, Executor(box, o))
  {
    replies := [];
    var k := 0;
    while k < |calls|
      invariant 0 <= k <= |calls|
      invariant replies == ToolMessages(calls[..k], Executor(box, o))
    {
      assert calls[..k + 1][..k] == calls[..k];
      replies := replies + [ToolMessage(calls[k], ToolContent(box, calls[k], o))];
      k := k + 1;
    }
    assert calls[..|calls|] == calls;
  }

  /** The two strategies of `_parse_result`: the first qualifying JSON object,
      else the first matching pattern of this grader's mode. */
  /** The JSON-object strategy: scan the decoded objects for the first verdict. */
  method FindVerdict(objs: seq<Option<map<string, Json>>>) returns (r: Option<map<string, Json>>)
    ensures r == FirstVerdict(objs, 0)
  {
    var i := 0;
    while i < |objs|
      invariant 0 <= i <= |objs|
      invariant FirstVerdict(objs, i) == FirstVerdict(objs, 0)
    {
      if Qualifies(objs[i]) {
        return objs[i];
      }
      i := i + 1;
    }
    return None;
  }

  /** The pointwise pattern strategy: the first score pattern that matched. */
  method FindScore(scores: seq<Option<real>>) returns (r: Option<real>)
    ensures r == FirstSome(scores, 0)
  {
    var j := 0;
    while j < |scores|
      invariant 0 <= j <= |scores|
      invariant FirstSome(scores, j) == FirstSome(scores, 0)
    {
      if scores[j].Some? {
        return scores[j];
      }
      j := j + 1;
    }
    return None;
  }

  /** The listwise pattern strategy: the first rank pattern whose group parses. */
  method FindRank(ranks: seq<Option<string>>) returns (r: Option<seq<int>>)
    ensures r == FirstRank(ranks)
  {
    ghost var candidates := RankCandidates(ranks);
    var j := 0;
    while j < |ranks|
      invariant 0 <= j <= |ranks|
      invariant FirstSome(candidates, j) == FirstSome(candidates, 0)
    {
      if ranks[j].Some? {
        var parsed := RankOf(ranks[j].value);
        if parsed.Some? {
          return parsed;
        }
      }
      j := j + 1;
    }
    return None;
  }

  method ExtractData(mode: GraderMode, ex: Extraction) returns (data: map<string, Json>)
    ensures data == Extracted(mode, ex)
  {
    var verdict := FindVerdict(ex.objects);
    if verdict.Some? {
      return verdict.value;
    }
    if mode == Pointwise {
      var score := FindScore(ex.scores);
      data := if score.Some? then map["score" := JNum(score.value)] else map[];
    } else {
      var rank := FindRank(ex.ranks);
      data := if rank.Some? then map["rank" := JArr(IntsJson(rank.value))] else map[];
    }
  }

  /** One call of the chat model with the tool schemas; the reply's content
      (None read as "") and its tool calls, serialized for round `round`. */
  method AskModel(box: Toolbox, o: Oracles, msgs: seq<Message>, round: nat) returns (r: Result<(string, seq<ToolCall>)>)
    requires forall n :: n in box.order ==> n in box.tools
    ensures r == Ask(box, o, msgs, round)
  {
    var reply := o.chat(msgs, Schemas(box));
    if reply.Err? {
      return Err(reply.msg);
    }
    r := Ok((reply.value.content.GetOr(""), SerializeAll(reply.value.toolCalls, round, o.mint)));
  }

  /** The ReAct loop: ask, run the requested tools, append, until a reply
      without tool calls or the budget of rounds is spent. */
  method RunLoop(box: Toolbox, o: Oracles, messages: seq<Message>) returns (r: Result<(string, seq<Message>)>)
    requires forall n :: n in box.order ==> n in box.tools
    ensures r == Loop(box, o, Executor(box, o), messages, 0, None)
  {
    ghost var exec := Executor(box, o);
    var msgs := messages;
    var it: nat := 0;
    var content: Option<string> := None;
    while it < box.maxIterations
      invariant Loop(box, o, exec, msgs, it, content) == Loop(box, o, exec, messages, 0, None)
      decreases box.maxIterations - it
    {
      var reply := AskModel(box, o, msgs, it + 1);
      if reply.Err? {
        return Err(reply.msg);
      }
      var (c, calls) := reply.value;
      if |calls| == 0 {
        LoopStop(box, o, exec, msgs, it, content, c);
        return Ok((c, msgs + [AssistantMessage(c, calls)]));
      }
      LoopStep(box, o, exec, msgs, it, content, c, calls);
      var replies := ExecuteToolCalls(box, calls, o);
      msgs := msgs + ([AssistantMessage(c, calls)] + replies);
      it := it + 1;
      content := Some(c);
    }
    if content.None? {
      return Err(UnboundContent);
    }
    return Ok((content.value, msgs));
  }

  // ---------------------------------------------------------------------
  // This grader

  class Grader {
    var name: string
    var mode: GraderMode
    var language: Language
    var maxIterations: int
    /** The keys of `tools` in insertion order. */
    var order: seq<string>
    var tools: map<string, Tool>

    /** The tools dict is keyed by tool name; `order` lists its keys once each. */
    predicate Valid()
      reads this
    {
      Distinct(order) && Elems(order) == tools.Keys &&
      forall n :: n in tools ==> tools[n].name == n
    }

    function Box(): (box: Toolbox)
      reads this
      requires Valid()
      ensures forall n :: n in box.order ==> n in box.tools
    {
      assert forall n :: n in order ==> n in Elems(order);
      Toolbox(tools, order, maxIterations)
    }

    constructor (name: string, mode: GraderMode, language: LanguageArg, env: Option<string>, ts: seq<Tool>, maxIterations: int)
      ensures Valid()
      ensures this.name == name && this.mode == mode && this.maxIterations == maxIterations
      ensures this.language == ResolveLanguage(language, env)
      ensures tools == ToolMap(ts) && order == ToolOrder(ts)
    {
      this.name := name;
      this.mode := mode;
      this.language := ResolveLanguage(language, env);
      this.maxIterations := maxIterations;
      order := [];
      tools := map[];
      new;
      var k := 0;
      while k < |ts|
        invariant 0 <= k <= |ts|
        invariant Valid() && tools == ToolMap(ts[..k]) && order == ToolOrder(ts[..k])
        invariant this.name == name && this.mode == mode && this.maxIterations == maxIterations
        invariant this.language == ResolveLanguage(language, env)
      {
        assert ts[..k + 1][..k] == ts[..k];
        RegisterTool(ts[k]);
        k := k + 1;
      }
      assert ts[..|ts|] == ts;
    }

    /** `register_tool`: a new name is appended; an existing one is replaced in place. */
    method RegisterTool(t: Tool)
      requires Valid()
      modifies this
      ensures Valid()
      ensures tools == old(tools)[t.name := t]
      ensures order == if t.name in old(tools) then old(order) else old(order) + [t.name]
      ensures name == old(name) && mode == old(mode) && language == old(language) && maxIterations == old(maxIterations)
    {
      if t.name !in tools {
        assert t.name !in Elems(order);
        AppendFresh(order, t.name);
        order := order + [t.name];
      }
      tools := tools[t.name := t];
    }

    /** `get_tool`: the tool registered under n, None when there is none. */
    function GetTool(n: string): (r: Option<Tool>)
      reads this
      requires Valid()
      ensures r.Some? <==> n in order
      ensures r.Some? ==> r.value.name == n && r.value == tools[n]
    {
      assert n in order <==> n in Elems(order);
      if n in tools then Some(tools[n]) else None
    }

    /** `get_tools_schema`: one schema per registered tool, in registration order. */
    function ToolsSchema(): (r: seq<Json>)
      reads this
      requires Valid()
      ensures |r| == |order| == |tools|
      ensures forall i :: 0 <= i < |order| ==> GetTool(order[i]).Some? && r[i] == GetTool(order[i]).value.schema
    {
      DistinctIffSetSize(order);
      Schemas(Box())
    }

    /** `_react_loop` over the registered tools. */
    method ReactLoop(messages: seq<Message>, o: Oracles) returns (r: Result<(string, seq<Message>)>)
      requires Valid()
      ensures r == Loop(Box(), o, Executor(Box(), o), messages, 0, None)
    {
      r := RunLoop(Box(), o, messages);
    }

    /** `_parse_result`: the extracted `data`, then the record. */
    method ParseResult(output: string, ex: Extraction) returns (r: Result<GraderResult>)
      ensures r == ParseSpec(name, mode, output, ex)
    {
      var data := ExtractData(mode, ex);
      r := Build(name, mode, output, data, ex.toFloat);
    }

    /** `aevaluate`: the loop, the parse, and the run's metadata on top of the
        parsed metadata.  The initial messages and the elapsed time are inputs. */
    method Evaluate(initial: seq<Message>, o: Oracles, extract: string -> Extraction, elapsed: real)
      returns (r: Result<GraderResult>)
      requires Valid()
      ensures r == EvaluateSpec(name, mode, Box(), o, initial, extract, elapsed)
    {
      var loop := ReactLoop(initial, o);
      if loop.Err? {
        return Err(loop.msg);
      }
      var (content, history) := loop.value;
      var p := ParseResult(content, extract(content));
      if p.Err? {
        return Err(p.msg);
      }
      r := Ok(p.value.(metadata := RunMetadata(p.value.metadata, elapsed, history)));
      assert r == WithRunMetadata(p, elapsed, history);
    }
  }
}
