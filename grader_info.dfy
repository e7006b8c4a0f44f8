/** Collecting the core information of every grader class in the package:
    the class definitions that have a parent, the fixpoint that keeps those
    descending from BaseGrader through their first base, and the signature
    of `__init__` and `aevaluate` cut at the first colon outside
    parentheses.  Parsing Python source is not modelled: each file arrives as
    the class definitions its syntax tree holds. */
module GraderInfo {
  import opened Common
  import opened GraderSchema

  /** A node of a class body: a (possibly async) function definition with
      its source segment and docstring, or anything else. */
  datatype BodyNode = FunctionDef(name: string, segment: string, docstring: Option<string>) | OtherNode

  /** A class definition: its name, the names of its bases, its body. */
  datatype ClassDef = ClassDef(name: string, bases: seq<string>, body: seq<BodyNode>)

  /** A module of the package: its file stem and its class definitions in
      the order the syntax-tree walk visits them. */
  datatype SourceFile = SourceFile(stem: string, classes: seq<ClassDef>)

  datatype MethodInfo = MethodInfo(signature: string, docstring: Option<string>)

  datatype GraderInfoRecord = GraderInfoRecord(
    filePath: string, className: string, parentClassNames: seq<string>,
    initMethod: MethodInfo, aevaluateMethod: MethodInfo)

  const Seed: string := "BaseGrader"
  const NotFound: string := "SIGNATURE_NOT_FOUND"

  // ---------------------------------------------------------------------
  // Classes having a parent

  /** Has bases, and they are not `ABC` alone. */
  predicate HasParent(d: ClassDef) {
    |d.bases| > 0 && (|d.bases| > 1 || d.bases[0] != "ABC")
  }

  function HavingParentIn(nodes: seq<ClassDef>): (r: seq<ClassDef>)
    decreases |nodes|
    ensures forall d :: d in r <==> d in nodes && HasParent(d)
  {
    if |nodes| == 0 then []
    else
      var init := nodes[..|nodes| - 1];
      var last := nodes[|nodes| - 1];
      assert nodes == init + [last];
      HavingParentIn(init) + (if HasParent(last) then [last] else [])
  }

  /** The definitions collected over the package, files other than
      `__init__` only, in visiting order. */
  function Collected(files: seq<SourceFile>): seq<ClassDef>
    decreases |files|
  {
    if |files| == 0 then []
    else
      var last := files[|files| - 1];
      Collected(files[..|files| - 1]) + (if last.stem != "__init__" then HavingParentIn(last.classes) else [])
  }

  /** Exactly the definitions having a parent in the files that are not `__init__`. */
  lemma {:induction false} CollectedMembers(files: seq<SourceFile>)
    ensures forall d :: d in Collected(files) <==> exists f :: f in files && f.stem != "__init__" && d in f.classes && HasParent(d)
    decreases |files|
  {
    if |files| > 0 {
      var init := files[..|files| - 1];
      CollectedMembers(init);
      assert files == init + [files[|files| - 1]];
      forall d ensures d in Collected(files) <==> exists f :: f in files && f.stem != "__init__" && d in f.classes && HasParent(d) {
        if exists f :: f in files && f.stem != "__init__" && d in f.classes && HasParent(d) {
          var f :| f in files && f.stem != "__init__" && d in f.classes && HasParent(d);
          if f in init {
            assert d in Collected(init);
          }
        }
      }
    }
  }

  /** `_get_defs_of_classes_having_parent` for one file's nodes. */
  method CollectFile(nodes: seq<ClassDef>, defs: seq<ClassDef>) returns (r: seq<ClassDef>)
    ensures r == defs + HavingParentIn(nodes)
  {
    r := defs;
    var k := 0;
    while k < |nodes|
      invariant 0 <= k <= |nodes|
      invariant r == defs + HavingParentIn(nodes[..k])
    {
      assert nodes[..k + 1][..k] == nodes[..k];
      var d := nodes[k];
      if |d.bases| > 0 && (|d.bases| > 1 || d.bases[0] != "ABC") {
        r := r + [d];
      }
      k := k + 1;
    }
    assert nodes[..k] == nodes;
  }

  /** The walk over the package's files. */
  method CollectAll(files: seq<SourceFile>) returns (defs: seq<ClassDef>)
    ensures defs == Collected(files)
  {
    defs := [];
    var k := 0;
    while k < |files|
      invariant 0 <= k <= |files|
      invariant defs == Collected(files[..k])
    {
      assert files[..k + 1][..k] == files[..k];
      if files[k].stem != "__init__" {
        defs := CollectFile(files[k].classes, defs);
      }
      k := k + 1;
    }
    assert files[..k] == files;
  }

  // ---------------------------------------------------------------------
  // The fixpoint over first bases

  /** Entry k of `order` names a definition in `classes` whose first base
      comes earlier in `order`. */
  ghost predicate LinkedAt(order: seq<string>, classes: map<string, ClassDef>, k: nat)
    requires k < |order|
  {
    order[k] in classes && classes[order[k]].name == order[k] &&
    |classes[order[k]].bases| > 0 && classes[order[k]].bases[0] in order[..k]
  }

  /** What the fixpoint maintains: `order` starts with the seed and lists
      every name found once, each after the name of its first base, and
      `classes` holds the definition found under each name but the seed. */
  ghost predicate Rooted(order: seq<string>, classes: map<string, ClassDef>) {
    |order| > 0 && order[0] == Seed && Distinct(order) &&
    classes.Keys == Elems(order) - {Seed} &&
    forall k :: 1 <= k < |order| ==> LinkedAt(order, classes, k)
  }

  /** `n` is the seed or reaches it by following first bases at most `fuel` times. */
  ghost predicate ReachesBase(classes: map<string, ClassDef>, n: string, fuel: nat)
    decreases fuel
  {
    n == Seed ||
    (fuel > 0 && n in classes && |classes[n].bases| > 0 && ReachesBase(classes, classes[n].bases[0], fuel - 1))
  }

  lemma {:induction false} ReachesMore(classes: map<string, ClassDef>, n: string, fuel: nat, more: nat)
    requires ReachesBase(classes, n, fuel) && fuel <= more
    ensures ReachesBase(classes, n, more)
    decreases fuel
  {
    if n != Seed {
      ReachesMore(classes, classes[n].bases[0], fuel - 1, more - 1);
    }
  }

  /** Every name the fixpoint lists reaches BaseGrader through first bases. */
  lemma {:induction false} RootedReaches(order: seq<string>, classes: map<string, ClassDef>, k: nat)
    requires Rooted(order, classes) && k < |order|
    ensures ReachesBase(classes, order[k], k)
    decreases k
  {
    if k > 0 {
      assert LinkedAt(order, classes, k);
      var b := classes[order[k]].bases[0];
      var j :| 0 <= j < k && order[j] == b;
      RootedReaches(order, classes, j);
      ReachesMore(classes, b, j, k - 1);
    }
  }

  lemma LinkedAtAppend(order: seq<string>, classes: map<string, ClassDef>, d: ClassDef, k: nat)
    requires k < |order| && LinkedAt(order, classes, k) && order[k] != d.name
    ensures LinkedAt(order + [d.name], classes[d.name := d], k)
  {
    assert (order + [d.name])[..k] == order[..k];
  }

  lemma RootedAppend(order: seq<string>, classes: map<string, ClassDef>, d: ClassDef)
    requires Rooted(order, classes)
    requires d.name !in order && |d.bases| > 0 && d.bases[0] in order
    ensures Rooted(order + [d.name], classes[d.name := d])
  {
    var order' := order + [d.name];
    var classes' := classes[d.name := d];
    assert Elems(order') == Elems(order) + {d.name};
    forall k | 1 <= k < |order'| ensures LinkedAt(order', classes', k) {
      if k < |order| {
        LinkedAtAppend(order, classes, d, k);
      } else {
        assert order'[..k] == order;
      }
    }
  }

  /** One pass of the `while found_grader` loop over the remaining definitions:
      a definition whose name is known already is dropped, one whose first
      base is known is added and dropped, the rest stay for the next pass. */
  method Round(order: seq<string>, classes: map<string, ClassDef>, remaining: seq<ClassDef>)
    returns (order': seq<string>, classes': map<string, ClassDef>, kept: seq<ClassDef>, found: bool)
    requires Rooted(order, classes)
    requires forall d :: d in remaining ==> |d.bases| > 0
    ensures Rooted(order', classes')
    ensures order <= order'
    ensures forall n :: n in classes' ==> (n in classes && classes'[n] == classes[n]) || classes'[n] in remaining
    ensures found <==> |order'| > |order|
    ensures forall d :: d in kept ==> d in remaining
    ensures forall d :: d in remaining ==> d in kept || d.name in order'
    ensures |kept| + (|order'| - |order|) <= |remaining|
    ensures !found ==> forall d :: d in kept ==> d.bases[0] !in order'
  {
    order', classes', kept, found := order, classes, [], false;
    var i := 0;
    while i < |remaining|
      invariant 0 <= i <= |remaining|
      invariant Rooted(order', classes')
      invariant order <= order'
      invariant forall n :: n in classes' ==> (n in classes && classes'[n] == classes[n]) || classes'[n] in remaining
      invariant found <==> |order'| > |order|
      invariant forall d :: d in kept ==> d in remaining
      invariant forall k :: 0 <= k < i ==> remaining[k] in kept || remaining[k].name in order'
      invariant |kept| + (|order'| - |order|) <= i
      invariant !found ==> forall d :: d in kept ==> d.bases[0] !in order'
    {
      var d := remaining[i];
      if d.name in order' {
        // already processed: dropped
      } else if d.bases[0] in order' {
        RootedAppend(order', classes', d);
        order', classes' := order' + [d.name], classes'[d.name := d];
        found := true;
      } else {
        kept := kept + [d];
      }
      i := i + 1;
    }
  }

  /** `_get_grader_class_def`: passes until one adds nothing, then the seed
      is dropped.  The names found come back in the order they were found. */
  method GraderClassDefs(defs: seq<ClassDef>) returns (names: seq<string>, classes: map<string, ClassDef>)
    requires forall d :: d in defs ==> |d.bases| > 0
    ensures Rooted([Seed] + names, classes)
    ensures Seed !in names && Seed !in classes
    ensures forall n :: n in classes ==> classes[n] in defs
    ensures forall d :: d in defs && d.bases[0] in [Seed] + names ==> d.name in [Seed] + names
  {
    var order := [Seed];
    classes := map[];
    var remaining := defs;
    var found := true;
    while found
      invariant Rooted(order, classes)
      invariant forall n :: n in classes ==> classes[n] in defs
      invariant forall d :: d in remaining ==> d in defs
      invariant forall d :: d in defs ==> d in remaining || d.name in order
      invariant !found ==> forall d :: d in remaining ==> d.bases[0] !in order
      decreases |remaining| + (if found then 1 else 0)
    {
      order, classes, remaining, found := Round(order, classes, remaining);
    }
    names := order[1..];
    assert [Seed] + names == order;
  }

  // ---------------------------------------------------------------------
  // Signatures

  /** Parenthesis depth after reading `s`: "(" opens, ")" closes (it can go negative). */
  function Depth(s: string): int
    decreases |s|
  {
    if |s| == 0 then 0
    else
      var c := s[|s| - 1];
      Depth(s[..|s| - 1]) + (if c == '(' then 1 else if c == ')' then -1 else 0)
  }

  predicate TopColonAt(s: string, i: int) {
    0 <= i < |s| && s[i] == ':' && Depth(s[..i]) == 0
  }

  /** The first colon outside parentheses at or after `i`, or -1. */
  function TopColonFrom(s: string, i: nat): (r: int)
    decreases |s| - i
    ensures r == -1 || (i <= r < |s| && TopColonAt(s, r))
    ensures forall j :: i <= j < |s| && (r == -1 || j < r) ==> !TopColonAt(s, j)
  {
    if i >= |s| then -1
    else if TopColonAt(s, i) then i
    else TopColonFrom(s, i + 1)
  }

  /** The loop that finds where a signature ends: the index of the first
      colon at depth 0, -1 when there is none. */
  method SignatureEnd(segment: string) returns (idx: int)
    ensures idx == TopColonFrom(segment, 0)
  {
    var depth := 0;
    var i := 0;
    while i < |segment|
      invariant 0 <= i <= |segment|
      invariant depth == Depth(segment[..i])
      invariant TopColonFrom(segment, i) == TopColonFrom(segment, 0)
    {
      assert segment[..i + 1][..i] == segment[..i];
      var c := segment[i];
      if c == '(' {
        depth := depth + 1;
      } else if c == ')' {
        depth := depth - 1;
      } else if c == ':' && depth == 0 {
        return i;
      }
      i := i + 1;
    }
    return -1;
  }

  /** Length of the whitespace run starting at `i`. */
  function SpaceRun(s: string, i: nat): (n: nat)
    requires i <= |s|
    decreases |s| - i
    ensures i + n <= |s|
    ensures forall k :: i <= k < i + n ==> IsSpace(s[k])
    ensures i + n < |s| ==> !IsSpace(s[i + n])
  {
    if i == |s| || !IsSpace(s[i]) then 0 else 1 + SpaceRun(s, i + 1)
  }

  /** `re.sub(r"(\n|\s\s+)", " ", s)`.  At each position the first
      alternative that matches wins, so a newline is replaced on its own and
      the indentation after it becomes a second space. */
  function CollapseAsWritten(s: string): (r: string)
    decreases |s|
    ensures '\n' !in r
  {
    if |s| == 0 then ""
    else if s[0] == '\n' then " " + CollapseAsWritten(s[1..])
    else
      var n := SpaceRun(s, 0);
      if n >= 2 then " " + CollapseAsWritten(s[n..]) else [s[0]] + CollapseAsWritten(s[1..])
  }

  /** `re.sub(r"(\s\s+|\n)", " ", s)`: every whitespace run of two or more
      characters, and every lone newline, becomes a single space. */
  function Collapse(s: string): (r: string)
    decreases |s|
    ensures '\n' !in r
    ensures |s| == 0 <==> |r| == 0
    ensures |s| > 0 && !IsSpace(s[|s| - 1]) ==> r[|r| - 1] == s[|s| - 1]
  {
    if |s| == 0 then ""
    else
      var n := SpaceRun(s, 0);
      if n >= 2 || s[0] == '\n' then " " + Collapse(s[n..])
      else [s[0]] + Collapse(s[1..])
  }

  /** No two whitespace characters in a row. */
  predicate NoDoubleSpace(r: string) {
    forall i :: 0 <= i < |r| - 1 ==> !(IsSpace(r[i]) && IsSpace(r[i + 1]))
  }

  /** A character in front of a text without double spaces keeps it so,
      unless both are whitespace. */
  lemma ConsNoDoubleSpace(c: char, rest: string)
    requires NoDoubleSpace(rest)
    requires |rest| > 0 ==> !(IsSpace(c) && IsSpace(rest[0]))
    ensures NoDoubleSpace([c] + rest)
  {
    var r := [c] + rest;
    forall i | 0 <= i < |r| - 1 ensures !(IsSpace(r[i]) && IsSpace(r[i + 1])) {
      if i > 0 {
        assert r[i] == rest[i - 1] && r[i + 1] == rest[i];
      }
    }
  }

  /** The collapsed text starts like the original: with a space exactly
      where the original starts with whitespace, else with the same
      character. */
  lemma CollapseStart(s: string)
    requires |s| > 0
    ensures IsSpace(Collapse(s)[0]) <==> IsSpace(s[0])
    ensures !IsSpace(s[0]) ==> Collapse(s)[0] == s[0]
  {
  }

  /** The collapsed text never holds two whitespace characters in a row. */
  lemma {:induction false} CollapseSpaces(s: string)
    decreases |s|
    ensures NoDoubleSpace(Collapse(s))
  {
    if |s| > 0 {
      var n := SpaceRun(s, 0);
      if n >= 2 || s[0] == '\n' {
        CollapseSpaces(s[n..]);
        if n < |s| {
          assert !IsSpace(s[n..][0]);
          CollapseStart(s[n..]);
        }
        ConsNoDoubleSpace(' ', Collapse(s[n..]));
      } else {
        CollapseSpaces(s[1..]);
        if 1 < |s| {
          assert n == 1 ==> !IsSpace(s[1..][0]);
          CollapseStart(s[1..]);
        }
        ConsNoDoubleSpace(s[0], Collapse(s[1..]));
      }
    }
  }

  /** The discrepancy: after a line break, the indentation survives as a
      second space. */
  lemma CollapseAsWrittenKeepsDoubleSpace()
    ensures CollapseAsWritten("(\n  x") == "(  x"
    ensures Collapse("(\n  x") == "( x"
  {
    AsWrittenOnSample();
    CollapseOnSample();
  }

  lemma AsWrittenOnSample()
    ensures CollapseAsWritten("(\n  x") == "(  x"
  {
    var s := "(\n  x";
    assert SpaceRun(s, 0) == 0;
    assert s[1..] == "\n  x";
    assert s[1..][1..] == "  x";
    assert SpaceRun("  x", 0) == 2;
    assert "  x"[2..] == "x";
    assert SpaceRun("x", 0) == 0;
    assert "x"[1..] == "";
  }

  lemma CollapseOnSample()
    ensures Collapse("(\n  x") == "( x"
  {
    var s := "(\n  x";
    assert SpaceRun(s, 0) == 0;
    assert s[1..] == "\n  x";
    assert SpaceRun("\n  x", 0) == 3;
    assert "\n  x"[3..] == "x";
    assert SpaceRun("x", 0) == 0;
    assert "x"[1..] == "";
  }

  /** str.replace(" :", ":") keeps a final colon. */
  lemma {:induction false} ReplaceKeepsColonEnd(s: string)
    requires |s| > 0 && s[|s| - 1] == ':'
    ensures var r := ReplaceAll(s, " :", ":"); |r| > 0 && r[|r| - 1] == ':'
    decreases |s|
  {
    if |s| >= 2 {
      if s[..2] == " :" {
        if |s| > 2 { ReplaceKeepsColonEnd(s[2..]); }
      } else {
        ReplaceKeepsColonEnd(s[1..]);
      }
    }
  }

  /** str.replace(" :", ":") brings in no newline. */
  lemma {:induction false} ReplaceNoNewline(s: string)
    requires '\n' !in s
    ensures '\n' !in ReplaceAll(s, " :", ":")
    decreases |s|
  {
    if |s| >= 2 {
      if s[..2] == " :" {
        assert forall c :: c in s[2..] ==> c in s;
        ReplaceNoNewline(s[2..]);
      } else {
        assert forall c :: c in s[1..] ==> c in s;
        ReplaceNoNewline(s[1..]);
      }
    }
  }

  /** The signature cut at `idx`, the first colon at depth 0 (or -1): the
      stripped prefix through the colon with whitespace collapsed and " :"
      made ":", or the not-found marker when there is no such colon past 0. */
  function SignatureAt(segment: string, idx: int): (r: string)
    requires idx == -1 || TopColonAt(segment, idx)
    ensures |r| > 0
    ensures r == NotFound || (r[|r| - 1] == ':' && '\n' !in r)
  {
    if idx > 0 then
      var cut := segment[..idx + 1];
      var t := Trim(cut);
      assert !IsSpace(cut[|cut| - 1]);
      assert t == cut[LeadingSpace(cut)..][..|cut[LeadingSpace(cut)..]| - TrailingSpace(cut[LeadingSpace(cut)..])];
      var c := Collapse(t);
      ReplaceKeepsColonEnd(c);
      ReplaceNoNewline(c);
      ReplaceAll(c, " :", ":")
    else NotFound
  }

  /** The signature recorded for a method whose source segment is `segment`. */
  function Signature(segment: string): string {
    SignatureAt(segment, TopColonFrom(segment, 0))
  }

  // ---------------------------------------------------------------------
  // Class records

  /** The last function definition named `name` in the body, if any: a later
      definition overwrites what an earlier one recorded. */
  function LastDef(body: seq<BodyNode>, name: string): (r: Option<BodyNode>)
    decreases |body|
    ensures r.Some? ==> r.value.FunctionDef? && r.value.name == name && r.value in body
  {
    if |body| == 0 then None
    else
      var last := body[|body| - 1];
      if last.FunctionDef? && last.name == name then Some(last)
      else
        var r := LastDef(body[..|body| - 1], name);
        assert r.Some? ==> r.value in body[..|body| - 1];
        r
  }

  /** The record of one method: empty signature and docstring when the class
      does not define it. */
  function MethodOf(body: seq<BodyNode>, name: string): (m: MethodInfo)
    ensures LastDef(body, name).None? ==> m == MethodInfo("", Some(""))
    ensures LastDef(body, name).Some? ==> |m.signature| > 0 && m.docstring == LastDef(body, name).value.docstring
  {
    match LastDef(body, name)
    case None => MethodInfo("", Some(""))
    case Some(f) => MethodInfo(Signature(f.segment), f.docstring)
  }

  function ClassInfo(d: ClassDef): GraderInfoRecord {
    GraderInfoRecord("", d.name, d.bases, MethodOf(d.body, "__init__"), MethodOf(d.body, "aevaluate"))
  }

  /** `_parse_grader_class_def`: one pass over the body, recording the two
      target methods. */
  method ParseClassDef(d: ClassDef) returns (info: GraderInfoRecord)
    ensures info == ClassInfo(d)
  {
    var init := MethodInfo("", Some(""));
    var aeval := MethodInfo("", Some(""));
    var k := 0;
    while k < |d.body|
      invariant 0 <= k <= |d.body|
      invariant init == MethodOf(d.body[..k], "__init__")
      invariant aeval == MethodOf(d.body[..k], "aevaluate")
    {
      assert d.body[..k + 1][..k] == d.body[..k];
      var node := d.body[k];
      if node.FunctionDef? && (node.name == "__init__" || node.name == "aevaluate") {
        var idx := SignatureEnd(node.segment);
        var signature := SignatureAt(node.segment, idx);
        if node.name == "__init__" {
          init := MethodInfo(signature, node.docstring);
        } else {
          aeval := MethodInfo(signature, node.docstring);
        }
      }
      k := k + 1;
    }
    assert d.body[..k] == d.body;
    info := GraderInfoRecord("", d.name, d.bases, init, aeval);
  }

  /** The record is the one parsed from some definition of `defs`. */
  ghost predicate ParsedFrom(info: GraderInfoRecord, defs: seq<ClassDef>) {
    exists d :: d in defs && info == ClassInfo(d)
  }

  /** What the records say, given that each is parsed from the definition
      found under a distinct name other than the seed. */
  lemma RecordFacts(names: seq<string>, classes: map<string, ClassDef>, defs: seq<ClassDef>, infos: seq<GraderInfoRecord>)
    requires |infos| == |names| && Distinct(names) && Seed !in names
    requires forall i :: 0 <= i < |names| ==> names[i] in classes && infos[i] == ClassInfo(classes[names[i]])
    requires forall n :: n in classes ==> classes[n] in defs && classes[n].name == n && |classes[n].bases| > 0
    ensures forall k :: 0 <= k < |infos| ==>
      infos[k].filePath == "" && |infos[k].parentClassNames| > 0 && infos[k].className != Seed
    ensures forall k :: 0 <= k < |infos| ==> ParsedFrom(infos[k], defs)
    ensures forall i, j :: 0 <= i < j < |infos| ==> infos[i].className != infos[j].className
  {
    forall k | 0 <= k < |infos| ensures ParsedFrom(infos[k], defs) {
      var d := classes[names[k]];
      assert d in defs && infos[k] == ClassInfo(d);
    }
  }

  /** A class of that name is recorded. */
  predicate Recorded(infos: seq<GraderInfoRecord>, n: string) {
    exists k :: 0 <= k < |infos| && infos[k].className == n
  }

  /** Record k's first base is the seed or a class recorded before it. */
  predicate FirstBaseEarlier(infos: seq<GraderInfoRecord>, k: nat)
    requires k < |infos|
  {
    |infos[k].parentClassNames| > 0 &&
    (infos[k].parentClassNames[0] == Seed || Recorded(infos[..k], infos[k].parentClassNames[0]))
  }

  /** Every record hangs from the seed through first bases recorded before it. */
  lemma RecordsRooted(names: seq<string>, classes: map<string, ClassDef>, infos: seq<GraderInfoRecord>)
    requires Rooted([Seed] + names, classes)
    requires |infos| == |names|
    requires forall i :: 0 <= i < |names| ==> names[i] in classes && infos[i] == ClassInfo(classes[names[i]])
    ensures forall k :: 0 <= k < |infos| ==> FirstBaseEarlier(infos, k)
  {
    var order := [Seed] + names;
    FoundClassesNamed(order, classes);
    forall k | 0 <= k < |infos| ensures FirstBaseEarlier(infos, k) {
      assert order[k + 1] == names[k];
      assert LinkedAt(order, classes, k + 1);
      var b := infos[k].parentClassNames[0];
      var m :| 0 <= m < k + 1 && order[..k + 1][m] == b;
      if m > 0 {
        assert order[m] == names[m - 1];
        assert infos[..k][m - 1].className == b;
      }
    }
  }

  /** Record i is recorded under the i-th name found. */
  lemma RecordNames(names: seq<string>, classes: map<string, ClassDef>, infos: seq<GraderInfoRecord>)
    requires forall n :: n in classes ==> classes[n].name == n
    requires |infos| == |names|
    requires forall i :: 0 <= i < |names| ==> names[i] in classes && infos[i] == ClassInfo(classes[names[i]])
    ensures forall i :: 0 <= i < |infos| ==> infos[i].className == names[i]
  {
  }

  /** A definition whose first base is the seed or a recorded class is
      itself recorded, unless it is named like the seed. */
  lemma RecordsClosed(names: seq<string>, defs: seq<ClassDef>, infos: seq<GraderInfoRecord>)
    requires forall d :: d in defs ==> |d.bases| > 0
    requires forall d :: d in defs && d.bases[0] in [Seed] + names ==> d.name in [Seed] + names
    requires |infos| == |names|
    requires forall i :: 0 <= i < |infos| ==> infos[i].className == names[i]
    ensures forall d :: d in defs && (d.bases[0] == Seed || Recorded(infos, d.bases[0])) ==>
      d.name == Seed || Recorded(infos, d.name)
  {
    var order := [Seed] + names;
    forall d | d in defs && (d.bases[0] == Seed || Recorded(infos, d.bases[0]))
      ensures d.name == Seed || Recorded(infos, d.name)
    {
      if d.bases[0] != Seed {
        var k :| 0 <= k < |infos| && infos[k].className == d.bases[0];
        assert order[k + 1] == names[k];
      }
      assert d.bases[0] in order;
      var m :| 0 <= m < |order| && order[m] == d.name;
      if m > 0 {
        assert order[m] == names[m - 1];
      }
    }
  }

  /** The classes the fixpoint found are the collected definitions under
      their own names. */
  lemma FoundFacts(names: seq<string>, classes: map<string, ClassDef>, defs: seq<ClassDef>)
    requires Rooted([Seed] + names, classes)
    requires forall n :: n in classes ==> classes[n] in defs
    ensures Distinct(names)
    ensures forall i :: 0 <= i < |names| ==> names[i] in classes
    ensures forall n :: n in classes ==> classes[n] in defs && classes[n].name == n && |classes[n].bases| > 0
  {
    var order := [Seed] + names;
    DistinctTail(order);
    assert order[1..] == names;
    FoundNamesIn(order, classes);
    FoundClassesNamed(order, classes);
  }

  /** The names after the seed are distinct. */
  lemma DistinctTail(order: seq<string>)
    requires |order| > 0 && Distinct(order)
    ensures Distinct(order[1..])
  {
    assert forall i :: 0 <= i < |order| - 1 ==> order[1..][i] == order[i + 1];
  }

  /** Every name after the seed has its definition. */
  lemma FoundNamesIn(order: seq<string>, classes: map<string, ClassDef>)
    requires Rooted(order, classes)
    ensures forall i :: 0 <= i < |order| - 1 ==> order[1..][i] in classes
  {
    forall i | 0 <= i < |order| - 1 ensures order[1..][i] in classes {
      assert order[1..][i] == order[i + 1];
      assert LinkedAt(order, classes, i + 1);
    }
  }

  /** Each definition is found under its own name and has a base. */
  lemma FoundClassesNamed(order: seq<string>, classes: map<string, ClassDef>)
    requires Rooted(order, classes)
    ensures forall n :: n in classes ==> classes[n].name == n && |classes[n].bases| > 0
  {
    forall n | n in classes ensures classes[n].name == n && |classes[n].bases| > 0 {
      assert n in Elems(order);
      var k :| 0 <= k < |order| && order[k] == n;
      assert LinkedAt(order, classes, k);
    }
  }

  /** `get_all_grader_info`: collect, run the fixpoint, and record each class
      found, in the order found. */
  method AllGraderInfo(files: seq<SourceFile>) returns (infos: seq<GraderInfoRecord>)
    ensures forall k :: 0 <= k < |infos| ==>
      infos[k].filePath == "" && |infos[k].parentClassNames| > 0 && infos[k].className != Seed
    ensures forall k :: 0 <= k < |infos| ==> ParsedFrom(infos[k], Collected(files))
    ensures forall i, j :: 0 <= i < j < |infos| ==> infos[i].className != infos[j].className
    ensures forall k :: 0 <= k < |infos| ==> FirstBaseEarlier(infos, k)
    ensures forall d :: d in Collected(files) && |d.bases| > 0 && (d.bases[0] == Seed || Recorded(infos, d.bases[0])) ==>
      d.name == Seed || Recorded(infos, d.name)
  {
    var defs := CollectAll(files);
    CollectedMembers(files);
    var names, classes := GraderClassDefs(defs);
    FoundFacts(names, classes, defs);
    infos := [];
    var k := 0;
    while k < |names|
      invariant 0 <= k <= |names|
      invariant |infos| == k
      invariant forall i :: 0 <= i < k ==> infos[i] == ClassInfo(classes[names[i]])
    {
      var info := ParseClassDef(classes[names[k]]);
      infos := infos + [info];
      k := k + 1;
    }
    RecordFacts(names, classes, defs, infos);
    RecordsRooted(names, classes, infos);
    RecordNames(names, classes, infos);
    RecordsClosed(names, defs, infos);
  }
}
