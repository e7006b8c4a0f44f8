/** The registry of the UI's Grader page: a fixed table from grader name to its
    configuration, in declaration order, with lookups by category and by
    name. Only the fields the services act on are kept: the category,
    whether a grader needs a chat model and a vision model, the score
    range and the default pass threshold. */
module GraderRegistry {
  import opened Common

  datatype GraderEntry = GraderEntry(
    category: string,
    requiresModel: bool,
    requiresVisionModel: bool,
    scoreRange: (int, int),
    defaultThreshold: real)

  function Llm(category: string): GraderEntry {
    GraderEntry(category, true, false, (1, 5), 3.0)
  }

  function Rule(category: string, threshold: real): GraderEntry {
    GraderEntry(category, false, false, (0, 1), threshold)
  }

  function Vision(threshold: real): GraderEntry {
    GraderEntry("multimodal", true, true, (0, 1), threshold)
  }

  /** `GRADER_REGISTRY`, in declaration order. */
  const Registry: seq<(string, GraderEntry)> := [
    ("Correctness", Llm("common")),
    ("Relevance", Llm("common")),
    ("Hallucination", Llm("common")),
    ("Harmfulness", Llm("common")),
    ("Instruction Following", Llm("common")),
    ("String Match", Rule("text", 0.8)),
    ("Similarity", Rule("text", 0.5)),
    ("Number Accuracy", Rule("text", 0.9)),
    ("Length Penalty", Rule("format", 0.8)),
    ("Code Style", Rule("code", 0.7)),
    ("Math Verify", Rule("math", 1.0)),
    ("Image Coherence", Vision(0.7)),
    ("Image Helpfulness", Vision(0.7)),
    ("Text to Image", Vision(0.5)),
    ("Tool Selection", Llm("agent")),
    ("Tool Call Accuracy", Llm("agent"))
  ]

  /** A well-formed entry: its threshold lies in its score range, and a
      vision grader is also a model grader. */
  predicate EntryOk(e: GraderEntry) {
    e.scoreRange.0 as real <= e.defaultThreshold <= e.scoreRange.1 as real &&
    (e.requiresVisionModel ==> e.requiresModel)
  }

  /** Every entry of the table is well formed and the names are distinct. */
  lemma {:induction false} RegistryInvariants()
    ensures forall i :: 0 <= i < |Registry| ==> EntryOk(Registry[i].1)
    ensures forall i, j :: 0 <= i < j < |Registry| ==> Registry[i].0 != Registry[j].0
  {
    EntriesWellFormed();
    NamesDistinct();
  }

  /** Each kind of entry the table uses is well formed. */
  lemma EntriesWellFormed()
    ensures forall i :: 0 <= i < |Registry| ==> EntryOk(Registry[i].1)
  {
    var t := Registry;
    assert EntryOk(Llm("common")) && EntryOk(Llm("agent")) && EntryOk(Vision(0.7)) && EntryOk(Vision(0.5));
    assert forall i :: 0 <= i < |t| ==> t[i].1 in {Llm("common"), Rule("text", 0.8), Rule("text", 0.5), Rule("text", 0.9),
      Rule("format", 0.8), Rule("code", 0.7), Rule("math", 1.0), Vision(0.7), Vision(0.5), Llm("agent")};
  }

  /** No grader name appears twice in the table. */
  lemma NamesDistinct()
    ensures forall i, j :: 0 <= i < j < |Registry| ==> Registry[i].0 != Registry[j].0
  {
  }

  /** `get_graders_by_category`: the entries of `category`, in table order. */
  function ByCategory(t: seq<(string, GraderEntry)>, category: string): (r: seq<(string, GraderEntry)>)
    decreases |t|
    ensures forall e :: e in r <==> e in t && e.1.category == category
    ensures |r| <= |t|
  {
    if |t| == 0 then []
    else
      var last := t[|t| - 1];
      assert t == t[..|t| - 1] + [last];
      ByCategory(t[..|t| - 1], category) + (if last.1.category == category then [last] else [])
  }

  /** Selecting a category keeps the entries in their table order: any two
      selected entries come from table positions in the same order. */
  lemma {:induction false} ByCategoryInOrder(t: seq<(string, GraderEntry)>, category: string, a: nat, b: nat)
    requires a < b < |ByCategory(t, category)|
    ensures exists i, j :: 0 <= i < j < |t| && t[i] == ByCategory(t, category)[a] && t[j] == ByCategory(t, category)[b]
    decreases |t|
  {
    var init := t[..|t| - 1];
    var last := t[|t| - 1];
    var r := ByCategory(t, category);
    var ri := ByCategory(init, category);
    assert r == ri + (if last.1.category == category then [last] else []);
    if b < |ri| {
      assert r[a] == ri[a] && r[b] == ri[b];
      ByCategoryInOrder(init, category, a, b);
      var i, j :| 0 <= i < j < |init| && init[i] == ri[a] && init[j] == ri[b];
      assert t[i] == r[a] && t[j] == r[b];
    } else {
      assert r[b] == last;
      assert r[a] in ri;
      var i :| 0 <= i < |init| && init[i] == r[a];
      assert t[i] == r[a] && t[|t| - 1] == r[b];
    }
  }

  /** `get_all_grader_names`: every key, in table order. */
  function AllNames(t: seq<(string, GraderEntry)>): (r: seq<string>)
    decreases |t|
    ensures |r| == |t|
    ensures forall i :: 0 <= i < |t| ==> r[i] == t[i].0
  {
    if |t| == 0 then [] else AllNames(t[..|t| - 1]) + [t[|t| - 1].0]
  }

  /** `get_grader_config`: the entry under `name`, or None. */
  function Lookup(t: seq<(string, GraderEntry)>, name: string): (r: Option<GraderEntry>)
    decreases |t|
    ensures r.None? <==> forall i :: 0 <= i < |t| ==> t[i].0 != name
    ensures r.Some? ==> (name, r.value) in t
  {
    if |t| == 0 then None
    else if t[|t| - 1].0 == name then Some(t[|t| - 1].1)
    else
      var r := Lookup(t[..|t| - 1], name);
      assert forall i :: 0 <= i < |t| - 1 ==> t[..|t| - 1][i] == t[i];
      r
  }

  /** With distinct names, the lookup finds the entry under its own name. */
  lemma {:induction false} LookupFinds(t: seq<(string, GraderEntry)>, i: nat)
    requires i < |t|
    requires forall a, b :: 0 <= a < b < |t| ==> t[a].0 != t[b].0
    ensures Lookup(t, t[i].0) == Some(t[i].1)
    decreases |t|
  {
    if i < |t| - 1 {
      assert t[i].0 != t[|t| - 1].0;
      LookupFinds(t[..|t| - 1], i);
    }
  }

  function GetGradersByCategory(category: string): (r: seq<(string, GraderEntry)>)
    ensures forall e :: e in r <==> e in Registry && e.1.category == category
  {
    ByCategory(Registry, category)
  }

  function GetAllGraderNames(): (r: seq<string>)
    ensures |r| == |Registry| && forall i :: 0 <= i < |Registry| ==> r[i] == Registry[i].0
  {
    AllNames(Registry)
  }

  function GetGraderConfig(name: string): (r: Option<GraderEntry>)
    ensures r.None? <==> name !in GetAllGraderNames()
    ensures r.Some? ==> EntryOk(r.value)
  {
    RegistryInvariants();
    Lookup(Registry, name)
  }
}
