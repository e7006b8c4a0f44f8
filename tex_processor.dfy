/** The TeX package processor of the paper-review cookbook: choosing the
    main .tex file, merging `\input{…}` and `\include{…}` recursively with
    a shared set of visited paths, the file cache, and process_package.

    Extracting the archive and walking the directory are left out: an
    extracted package is given as its base directory, the files on disk
    (path to text, or unreadable) and the relative paths the walk found,
    in walk order. A walked file's full path is the base, a slash and its
    relative path; os.path.relpath undoes that. */
module TexProcessor {
  import opened Common

  /** A file on disk: its text (decoded, undecodable bytes dropped), or a
      file that cannot be opened. */
  datatype FileState = Readable(text: string) | Unreadable

  type Disk = map<string, FileState>

  /** What _load_file reads: the text of a readable file, "" for a missing
      or unreadable one. */
  function ReadText(disk: Disk, path: string): string {
    if path in disk && disk[path].Readable? then disk[path].text else ""
  }

  // ---------------------------------------------------------------------
  // POSIX paths

  /** The last slash before position `e`. */
  function SlashBefore(p: string, e: nat): (i: Option<nat>)
    requires e <= |p|
    ensures i.Some? ==> i.value < e && p[i.value] == '/'
    ensures i.Some? ==> forall k :: i.value < k < e ==> p[k] != '/'
    ensures i.None? ==> forall k :: 0 <= k < e ==> p[k] != '/'
  {
    if e == 0 then None
    else if p[e - 1] == '/' then Some(e - 1)
    else SlashBefore(p, e - 1)
  }

  /** os.path.basename: what follows the last slash. */
  function BaseName(p: string): string {
    match SlashBefore(p, |p|)
    case None => p
    case Some(i) => p[i + 1..]
  }

  /** Number of slashes at the end of `h`. */
  function TrailingSlashes(h: string, e: nat): (n: nat)
    requires e <= |h|
    ensures n <= e
  {
    if e == 0 || h[e - 1] != '/' then 0 else 1 + TrailingSlashes(h, e - 1)
  }

  /** os.path.dirname: everything up to the last slash, with the trailing
      slashes removed unless it is made of slashes only. */
  function DirName(p: string): string {
    match SlashBefore(p, |p|)
    case None => ""
    case Some(i) =>
      var head := p[..i + 1];
      var n := TrailingSlashes(head, |head|);
      if n == |head| then head else head[..|head| - n]
  }

  /** os.path.join of two parts. */
  function PathJoin(a: string, b: string): string {
    if StartsWith(b, "/") then b
    else if a == "" || EndsWith(a, "/") then a + b
    else a + "/" + b
  }

  /** A path without a slash has an empty directory part, and a path
      with one has a non-empty one. */
  lemma DirNameEmpty(p: string)
    ensures DirName(p) == "" <==> '/' !in p
  {
    match SlashBefore(p, |p|)
    case None =>
    case Some(i) =>
      var head := p[..i + 1];
      var n := TrailingSlashes(head, |head|);
      if n < |head| {
        assert head[..|head| - n][0] == head[0];
      }
  }

  // ---------------------------------------------------------------------
  // Choosing the main file

  /** A walked file's full path. */
  function Full(base: string, rel: string): string {
    base + "/" + rel
  }

  /** os.path.relpath of a walked file. */
  function RelPath(p: string, base: string): string {
    if StartsWith(p, base + "/") then p[|base| + 1..] else p
  }

  lemma RelPathFull(base: string, rel: string)
    ensures RelPath(Full(base, rel), base) == rel
  {
    assert Full(base, rel)[..|base + "/"|] == base + "/";
  }

  const MainNames: set<string> := {"main.tex", "paper.tex", "manuscript.tex"}

  predicate HasDocumentClass(text: string) {
    Contains(text, "\\documentclass")
  }

  /** The score of a candidate: 10 for a conventional main-file name, 5
      for a file at the top of the package, less one per path component. */
  function Score(base: string, rel: string): int {
    (if Lower(BaseName(Full(base, rel))) in MainNames then 10 else 0)
    + (if DirName(rel) == "" then 5 else 0)
    - |Split(rel, '/')|
  }

  datatype Candidate = Candidate(score: int, path: string)

  /** Python's string order: lexicographic by character code. */
  predicate StrLess(a: string, b: string)
    decreases |a|
  {
    |b| > 0 && (|a| == 0 || a[0] < b[0] || (a[0] == b[0] && StrLess(a[1..], b[1..])))
  }

  lemma {:induction false} StrLessTransitive(a: string, b: string, c: string)
    requires StrLess(a, b) && StrLess(b, c)
    ensures StrLess(a, c)
    decreases |a|
  {
    if |a| > 0 && a[0] == b[0] && b[0] == c[0] {
      StrLessTransitive(a[1..], b[1..], c[1..]);
    }
  }

  lemma {:induction false} StrLessIrreflexive(a: string)
    ensures !StrLess(a, a)
    decreases |a|
  {
    if |a| > 0 {
      StrLessIrreflexive(a[1..]);
    }
  }

  /** The order of (score, path) tuples. */
  predicate CandLess(x: Candidate, y: Candidate) {
    x.score < y.score || (x.score == y.score && StrLess(x.path, y.path))
  }

  lemma CandLessTransitive(x: Candidate, y: Candidate, z: Candidate)
    requires CandLess(x, y) && CandLess(y, z)
    ensures CandLess(x, z)
  {
    if x.score == y.score == z.score {
      StrLessTransitive(x.path, y.path, z.path);
    }
  }

  /** The candidates of _find_main_tex: the files among `rels` whose text
      contains \documentclass, with their scores, in walk order. */
  function Candidates(base: string, disk: Disk, rels: seq<string>): (cs: seq<Candidate>)
    ensures |cs| <= |rels|
  {
    if |rels| == 0 then []
    else
      var rel := rels[|rels| - 1];
      Candidates(base, disk, rels[..|rels| - 1])
      + (if HasDocumentClass(ReadText(disk, Full(base, rel))) then [Candidate(Score(base, rel), Full(base, rel))] else [])
  }

  /** The first element after sorting in reverse: a greatest candidate. */
  function Greatest(cs: seq<Candidate>): (g: Candidate)
    requires |cs| > 0
    ensures g in cs
  {
    if |cs| == 1 then cs[0]
    else
      var g := Greatest(cs[..|cs| - 1]);
      if CandLess(g, cs[|cs| - 1]) then cs[|cs| - 1] else g
  }

  /** No candidate is above the one chosen. */
  lemma {:induction false} GreatestIsMax(cs: seq<Candidate>)
    requires |cs| > 0
    ensures forall c :: c in cs ==> !CandLess(Greatest(cs), c)
  {
    if |cs| == 1 {
      StrLessIrreflexive(cs[0].path);
    } else {
      var init := cs[..|cs| - 1];
      var last := cs[|cs| - 1];
      var g := Greatest(init);
      GreatestIsMax(init);
      StrLessIrreflexive(last.path);
      StrLessIrreflexive(g.path);
      assert cs == init + [last];
      if CandLess(g, last) {
        forall c | c in cs
          ensures !CandLess(last, c)
        {
          if c in init && CandLess(last, c) {
            CandLessTransitive(g, last, c);
          }
        }
      }
    }
  }

  /** _find_main_tex's answer. */
  function MainTex(base: string, disk: Disk, rels: seq<string>): Option<string> {
    var cs := Candidates(base, disk, rels);
    if |cs| == 0 then None else Some(Greatest(cs).path)
  }

  /** Each candidate is a walked file that declares a document class,
      with its score. */
  lemma {:induction false} CandidatesFrom(base: string, disk: Disk, rels: seq<string>, c: Candidate) returns (rel: string)
    requires c in Candidates(base, disk, rels)
    ensures rel in rels && c == Candidate(Score(base, rel), Full(base, rel))
    ensures HasDocumentClass(ReadText(disk, Full(base, rel)))
  {
    var init := rels[..|rels| - 1];
    var last := rels[|rels| - 1];
    if c in Candidates(base, disk, init) {
      rel := CandidatesFrom(base, disk, init, c);
    } else {
      rel := last;
    }
  }

  /** Every walked file that declares a document class is a candidate. */
  lemma {:induction false} CandidatesInclude(base: string, disk: Disk, rels: seq<string>, rel: string)
    requires rel in rels && HasDocumentClass(ReadText(disk, Full(base, rel)))
    ensures Candidate(Score(base, rel), Full(base, rel)) in Candidates(base, disk, rels)
  {
    var init := rels[..|rels| - 1];
    if rel != rels[|rels| - 1] {
      assert rel in init;
      CandidatesInclude(base, disk, init, rel);
    }
  }

  /** No main file exactly when no walked file declares a document class;
      otherwise the main file declares one and no candidate has a higher
      (score, path). */
  lemma MainTexFacts(base: string, disk: Disk, rels: seq<string>)
    ensures MainTex(base, disk, rels).None? <==>
      forall rel :: rel in rels ==> !HasDocumentClass(ReadText(disk, Full(base, rel)))
    ensures MainTex(base, disk, rels).Some? ==>
      (HasDocumentClass(ReadText(disk, MainTex(base, disk, rels).value))
      && forall rel :: rel in rels && HasDocumentClass(ReadText(disk, Full(base, rel))) ==>
        !CandLess(Candidate(Score(base, RelPath(MainTex(base, disk, rels).value, base)), MainTex(base, disk, rels).value),
                  Candidate(Score(base, rel), Full(base, rel))))
  {
    var cs := Candidates(base, disk, rels);
    forall rel | rel in rels && HasDocumentClass(ReadText(disk, Full(base, rel)))
      ensures Candidate(Score(base, rel), Full(base, rel)) in cs
    {
      CandidatesInclude(base, disk, rels, rel);
    }
    if |cs| > 0 {
      var g := Greatest(cs);
      var rel := CandidatesFrom(base, disk, rels, g);
      RelPathFull(base, rel);
      GreatestIsMax(cs);
    }
  }

  /** The main file exists: a file that cannot be read has no text to
      declare a document class in. */
  lemma MainTexOnDisk(base: string, disk: Disk, rels: seq<string>)
    ensures MainTex(base, disk, rels).Some? ==> MainTex(base, disk, rels).value in disk
  {
    MainTexFacts(base, disk, rels);
  }

  /** A path with a slash splits into at least two components, one
      without a single one. */
  lemma SplitComponents(rel: string)
    ensures '/' in rel ==> |Split(rel, '/')| >= 2
    ensures '/' !in rel ==> |Split(rel, '/')| == 1
  {
  }

  /** A conventionally named file at the top of the package always wins
      over every other candidate: the chosen one is then also a top-level
      file with a conventional name. */
  lemma TopLevelMainWins(base: string, disk: Disk, rels: seq<string>, top: string)
    requires top in rels && HasDocumentClass(ReadText(disk, Full(base, top)))
    requires '/' !in top && Lower(BaseName(Full(base, top))) in MainNames
    ensures MainTex(base, disk, rels).Some?
    ensures var rel := RelPath(MainTex(base, disk, rels).value, base);
      '/' !in rel && Lower(BaseName(Full(base, rel))) in MainNames
  {
    var cs := Candidates(base, disk, rels);
    CandidatesInclude(base, disk, rels, top);
    var g := Greatest(cs);
    GreatestIsMax(cs);
    var rel := CandidatesFrom(base, disk, rels, g);
    RelPathFull(base, rel);
    DirNameEmpty(top);
    DirNameEmpty(rel);
    SplitComponents(top);
    SplitComponents(rel);
    assert Score(base, top) == 14;
    assert g.score >= 14;
  }

  // ---------------------------------------------------------------------
  // Merging \input and \include

  const InputOpen: string := "\\input{"
  const IncludeOpen: string := "\\include{"

  /** The first '}' at or after `b`. */
  function BraceFrom(text: string, b: nat): (k: Option<nat>)
    requires b <= |text|
    ensures k.Some? ==> b <= k.value < |text| && text[k.value] == '}'
    decreases |text| - b
  {
    if b == |text| then None
    else if text[b] == '}' then Some(b)
    else BraceFrom(text, b + 1)
  }

  /** The group of a match runs up to the first '}', and there is no
      match when no '}' follows the opener. */
  lemma {:induction false} BraceFromFacts(text: string, b: nat)
    requires b <= |text|
    ensures BraceFrom(text, b).Some? ==> forall m :: b <= m < BraceFrom(text, b).value ==> text[m] != '}'
    ensures BraceFrom(text, b).None? ==> forall m :: b <= m < |text| ==> text[m] != '}'
    decreases |text| - b
  {
    if b < |text| && text[b] != '}' {
      BraceFromFacts(text, b + 1);
    }
  }

  /** The pattern `<opener>([^}]+)\}` matches at `j`: the opener, at
      least one character other than '}', then a '}'. */
  predicate MatchAt(text: string, opener: string, j: nat) {
    && OccursAt(text, opener, j)
    && j + |opener| < |text|
    && text[j + |opener|] != '}'
    && BraceFrom(text, j + |opener|).Some?
  }

  /** The leftmost match at or after `i`. */
  function FirstMatch(text: string, opener: string, i: nat): (j: Option<nat>)
    requires i <= |text|
    ensures j.Some? ==> i <= j.value && MatchAt(text, opener, j.value)
    decreases |text| - i
  {
    if i == |text| then None
    else if MatchAt(text, opener, i) then Some(i)
    else FirstMatch(text, opener, i + 1)
  }

  /** No match is skipped. */
  lemma {:induction false} FirstMatchFacts(text: string, opener: string, i: nat)
    requires i <= |text|
    ensures FirstMatch(text, opener, i).Some? ==>
      forall m :: i <= m < FirstMatch(text, opener, i).value ==> !MatchAt(text, opener, m)
    ensures FirstMatch(text, opener, i).None? ==> forall m :: i <= m <= |text| ==> !MatchAt(text, opener, m)
    decreases |text| - i
  {
    if i < |text| && !MatchAt(text, opener, i) {
      FirstMatchFacts(text, opener, i + 1);
    }
  }

  /** The first non-whitespace position at or after `i`. */
  function SpaceEnd(s: string, i: nat): (a: nat)
    requires i <= |s|
    ensures i <= a <= |s|
    decreases |s| - i
  {
    if i == |s| || !IsSpace(s[i]) then i else SpaceEnd(s, i + 1)
  }

  /** The end of `s[lo..e]` without its trailing whitespace. */
  function SpaceStart(s: string, lo: nat, e: nat): (b: nat)
    requires lo <= e <= |s|
    ensures lo <= b <= e
  {
    if e == lo || !IsSpace(s[e - 1]) then e else SpaceStart(s, lo, e - 1)
  }

  /** str.strip() by positions. It equals Trim (StripIsTrim) and keeps
      Trim's quantified facts out of the unfolding of the merge. */
  function Strip(s: string): string {
    var a := SpaceEnd(s, 0);
    s[a..SpaceStart(s, a, |s|)]
  }

  lemma {:induction false} SpaceEndLeading(s: string, i: nat)
    requires i <= |s|
    ensures SpaceEnd(s, i) == i + LeadingSpace(s[i..])
    decreases |s| - i
  {
    if i < |s| {
      assert s[i..][0] == s[i];
      if IsSpace(s[i]) {
        assert s[i..][1..] == s[i + 1..];
        SpaceEndLeading(s, i + 1);
      }
    }
  }

  lemma {:induction false} SpaceStartTrailing(s: string, lo: nat, e: nat)
    requires lo <= e <= |s|
    ensures SpaceStart(s, lo, e) == e - TrailingSpace(s[lo..e])
    decreases e
  {
    if e > lo {
      assert s[lo..e][e - lo - 1] == s[e - 1];
      if IsSpace(s[e - 1]) {
        assert s[lo..e][..e - lo - 1] == s[lo..e - 1];
        SpaceStartTrailing(s, lo, e - 1);
      }
    }
  }

  lemma StripIsTrim(s: string)
    ensures Strip(s) == Trim(s)
  {
    var a := SpaceEnd(s, 0);
    SpaceEndLeading(s, 0);
    assert s[0..] == s;
    SpaceStartTrailing(s, a, |s|);
    assert s[a..|s|] == s[a..];
  }

  /** The file name of an include: the group stripped, ".tex" added when
      it does not end so. */
  function IncludeName(group: string): string {
    var n := Strip(group);
    if EndsWith(n, ".tex") then n else n + ".tex"
  }

  lemma IncludeNameFacts(group: string)
    ensures EndsWith(IncludeName(group), ".tex")
    ensures IncludeName(group) == Trim(group) || IncludeName(group) == Trim(group) + ".tex"
    ensures EndsWith(Trim(group), ".tex") ==> IncludeName(group) == Trim(group)
  {
    StripIsTrim(group);
    var n := Trim(group);
    assert (n + ".tex")[|n + ".tex"| - 4..] == ".tex";
  }

  /** Where an include is looked for: the including file's directory
      first, then the package's base directory. */
  function SearchPath(disk: Disk, cur: string, base: string, name: string): (p: Option<string>)
    ensures p.Some? ==> p.value in disk
  {
    if PathJoin(cur, name) in disk then Some(PathJoin(cur, name))
    else if PathJoin(base, name) in disk then Some(PathJoin(base, name))
    else None
  }

  /** The including file's directory wins over the base directory, and a
      name found in neither is not found. */
  lemma SearchPathFacts(disk: Disk, cur: string, base: string, name: string)
    ensures PathJoin(cur, name) in disk ==> SearchPath(disk, cur, base, name) == Some(PathJoin(cur, name))
    ensures PathJoin(cur, name) !in disk && PathJoin(base, name) in disk ==>
      SearchPath(disk, cur, base, name) == Some(PathJoin(base, name))
    ensures SearchPath(disk, cur, base, name).None? <==> PathJoin(cur, name) !in disk && PathJoin(base, name) !in disk
  {
  }

  function CircularMarker(path: string): string {
    "% [Circular reference: " + path + "]\n"
  }

  function NotFoundMarker(name: string): string {
    "% [File not found: " + name + "]\n"
  }

  function Wrapped(name: string, included: string): string {
    "% === BEGIN: " + name + " ===\n" + included + "\n% === END: " + name + " ===\n"
  }

  /** What resolve_include works with: the files on disk, and how a
      file's directory, an include's file name and the file it names are
      found. PackageEnv gives the processor's own. */
  datatype Env = Env(
    disk: Disk,
    dirOf: string -> string,
    nameOf: string -> string,
    locate: (string, string) -> Option<string>)

  /** Every file located exists on disk. */
  ghost predicate Locates(env: Env) {
    forall cur: string, name: string :: env.locate(cur, name).Some? ==> env.locate(cur, name).value in env.disk
  }

  /** The processor's environment for a package extracted under `base`:
      os.path.dirname, the stripped name with ".tex", and the search of
      the current directory, then the base. */
  function PackageEnv(disk: Disk, base: string): (env: Env)
    ensures Locates(env) && env.disk == disk
  {
    Env(disk, (p: string) => DirName(p), (g: string) => IncludeName(g),
        (cur: string, name: string) => SearchPath(disk, cur, base, name))
  }

  /** _merge_tex_content(path, base, visited): the merged text and the
      visited set afterwards. A visited path gives the circular-reference
      marker; otherwise the path is marked visited and its text goes
      through the \input pass, then the \include pass. Every call on an
      unvisited path visits one more file of the disk, so the recursion
      ends. */
  function Merged(env: Env, path: string, visited: set<string>): (r: (string, set<string>))
    requires Locates(env) && path in env.disk
    ensures visited + {path} <= r.1 <= visited + env.disk.Keys
    ensures path in visited ==> r == (CircularMarker(path), visited)
    decreases env.disk.Keys - visited, 0, 0
  {
    if path in visited then (CircularMarker(path), visited)
    else
      var v1 := visited + {path};
      var cur := env.dirOf(path);
      var (c1, v2) := Substituted(env, cur, InputOpen, ReadText(env.disk, path), 0, v1);
      Substituted(env, cur, IncludeOpen, c1, 0, v2)
  }

  /** re.sub of one pattern over `text` from position `i`, each match
      replaced by resolve_include, the visited set threaded through the
      replacements in order. */
  function Substituted(env: Env, cur: string, opener: string, text: string, i: nat,
                       visited: set<string>): (r: (string, set<string>))
    requires Locates(env) && i <= |text|
    ensures visited <= r.1 <= visited + env.disk.Keys
    decreases env.disk.Keys - visited, 1, |text| - i
  {
    match FirstMatch(text, opener, i)
    case None => (text[i..], visited)
    case Some(j) =>
      var k := BraceFrom(text, j + |opener|).value;
      var (rep, v1) := Resolved(env, cur, env.nameOf(text[j + |opener|..k]), visited);
      var (rest, v2) := Substituted(env, cur, opener, text, k + 1, v1);
      (text[i..j] + rep + rest, v2)
  }

  /** resolve_include for one file name. */
  function Resolved(env: Env, cur: string, name: string, visited: set<string>): (r: (string, set<string>))
    requires Locates(env)
    ensures visited <= r.1 <= visited + env.disk.Keys
    decreases env.disk.Keys - visited, 0, 1
  {
    match env.locate(cur, name)
    case None => (NotFoundMarker(name), visited)
    case Some(p) =>
      var (included, v1) := Merged(env, p, visited);
      (Wrapped(name, included), v1)
  }

  /** One step of the substitution: the text before the leftmost match,
      its replacement, then the rest. */
  lemma SubstitutedStep(env: Env, cur: string, opener: string, text: string, i: nat, visited: set<string>,
                        j: nat, k: nat, name: string)
    requires Locates(env) && i <= |text|
    requires FirstMatch(text, opener, i) == Some(j) && BraceFrom(text, j + |opener|) == Some(k)
    requires name == env.nameOf(text[j + |opener|..k])
    ensures Substituted(env, cur, opener, text, i, visited) ==
      (text[i..j] + Resolved(env, cur, name, visited).0
         + Substituted(env, cur, opener, text, k + 1, Resolved(env, cur, name, visited).1).0,
       Substituted(env, cur, opener, text, k + 1, Resolved(env, cur, name, visited).1).1)
  {
  }

  /** Without a further match the rest of the text is kept as it is. */
  lemma SubstitutedDone(env: Env, cur: string, opener: string, text: string, i: nat, visited: set<string>)
    requires Locates(env) && i <= |text| && FirstMatch(text, opener, i).None?
    ensures Substituted(env, cur, opener, text, i, visited) == (text[i..], visited)
  {
  }

  /** A text without commands comes out unchanged. */
  lemma NoCommandsUnchanged(env: Env, path: string, visited: set<string>)
    requires Locates(env) && path in env.disk && path !in visited
    requires FirstMatch(ReadText(env.disk, path), InputOpen, 0).None?
    requires FirstMatch(ReadText(env.disk, path), IncludeOpen, 0).None?
    ensures Merged(env, path, visited).0 == ReadText(env.disk, path)
  {
    var text := ReadText(env.disk, path);
    assert text[0..] == text;
  }

  /** Because the visited set is shared, including the same file a
      second time, after its first inclusion, gives the circular-reference
      marker inside the wrapper instead of the file's text. */
  lemma SecondIncludeIsCircular(env: Env, cur: string, name: string, visited: set<string>)
    requires Locates(env) && env.locate(cur, name).Some?
    ensures var p := env.locate(cur, name).value;
      var first := Resolved(env, cur, name, visited);
      Resolved(env, cur, name, first.1) == (Wrapped(name, CircularMarker(p)), first.1)
  {
    var p := env.locate(cur, name).value;
    var first := Resolved(env, cur, name, visited);
    assert p in first.1;
  }

  // ---------------------------------------------------------------------
  // The package

  datatype TexFile = TexFile(path: string, content: string, isMain: bool)
  datatype BibFile = BibFile(path: string, content: string)
  datatype TexPackage = TexPackage(
    mainTex: string,
    mergedContent: string,
    files: seq<TexFile>,
    bibFiles: seq<BibFile>,
    figurePaths: seq<string>)

  /** An extracted package: its temporary directory, the files on disk,
      and the relative paths of its .tex, .bib/.bbl and figure files in
      walk order. */
  datatype Extracted = Extracted(
    base: string,
    disk: Disk,
    texFiles: seq<string>,
    bibFiles: seq<string>,
    figureFiles: seq<string>)

  const NoMainMessage: string := "Could not find main .tex file (no \\documentclass found)"

  function TexFilesOf(ex: Extracted, main: string): (fs: seq<TexFile>)
    ensures |fs| == |ex.texFiles|
  {
    seq(|ex.texFiles|, i requires 0 <= i < |ex.texFiles| =>
      TexFile(ex.texFiles[i], ReadText(ex.disk, Full(ex.base, ex.texFiles[i])), Full(ex.base, ex.texFiles[i]) == main))
  }

  function BibFilesOf(ex: Extracted): (bs: seq<BibFile>)
    ensures |bs| == |ex.bibFiles|
  {
    seq(|ex.bibFiles|, i requires 0 <= i < |ex.bibFiles| =>
      BibFile(ex.bibFiles[i], ReadText(ex.disk, Full(ex.base, ex.bibFiles[i]))))
  }

  /** process_package on an extracted package: the ValueError when no
      file declares a document class, the package otherwise. */
  function PackageOf(ex: Extracted): Result<TexPackage> {
    match MainTex(ex.base, ex.disk, ex.texFiles)
    case None => Err(NoMainMessage)
    case Some(main) =>
      MainTexOnDisk(ex.base, ex.disk, ex.texFiles);
      Ok(TexPackage(RelPath(main, ex.base), Merged(PackageEnv(ex.disk, ex.base), main, {}).0,
                    TexFilesOf(ex, main), BibFilesOf(ex), ex.figureFiles))
  }

  /** The package lists every walked file once, marks exactly the main
      file, keeps each file's text, and its merged text starts from the
      main file. */
  lemma PackageFacts(ex: Extracted)
    requires PackageOf(ex).Ok?
    ensures var pkg := PackageOf(ex).value;
      && |pkg.files| == |ex.texFiles| && |pkg.bibFiles| == |ex.bibFiles|
      && HasDocumentClass(ReadText(ex.disk, Full(ex.base, pkg.mainTex)))
      && (forall i :: 0 <= i < |pkg.files| ==>
            pkg.files[i].path == ex.texFiles[i] && pkg.files[i].content == ReadText(ex.disk, Full(ex.base, ex.texFiles[i]))
            && (pkg.files[i].isMain <==> ex.texFiles[i] == pkg.mainTex))
  {
    var main := MainTex(ex.base, ex.disk, ex.texFiles).value;
    var cs := Candidates(ex.base, ex.disk, ex.texFiles);
    var rel := CandidatesFrom(ex.base, ex.disk, ex.texFiles, Greatest(cs));
    RelPathFull(ex.base, rel);
    forall i | 0 <= i < |ex.texFiles|
      ensures Full(ex.base, ex.texFiles[i]) == main <==> ex.texFiles[i] == rel
    {
      if Full(ex.base, ex.texFiles[i]) == main {
        RelPathFull(ex.base, ex.texFiles[i]);
      }
    }
  }

  /** No main file means the ValueError. */
  lemma NoMainFails(ex: Extracted)
    requires forall rel :: rel in ex.texFiles ==> !HasDocumentClass(ReadText(ex.disk, Full(ex.base, rel)))
    ensures PackageOf(ex) == Err(NoMainMessage)
  {
    MainTexFacts(ex.base, ex.disk, ex.texFiles);
  }

  // ---------------------------------------------------------------------
  // The processor object

  class TexPackageProcessor {
    var tempDir: Option<string>
    var fileCache: map<string, string>

    /** Between packages: no temporary directory and an empty cache. */
    predicate Idle()
      reads this
    {
      tempDir.None? && fileCache == map[]
    }

    /** Every cached text is what the disk holds. */
    predicate CacheAgrees(disk: Disk)
      reads this
    {
      forall p :: p in fileCache ==> fileCache[p] == ReadText(disk, p)
    }

    constructor()
      ensures Idle()
    {
      tempDir := None;
      fileCache := map[];
    }

    /** _load_file: read once, then served from the cache; so it always
        returns what the disk holds. */
    method LoadFile(disk: Disk, path: string) returns (content: string)
      requires CacheAgrees(disk)
      modifies this
      ensures CacheAgrees(disk) && tempDir == old(tempDir)
      ensures content == ReadText(disk, path)
      ensures fileCache == old(fileCache)[path := content]
    {
      if path !in fileCache {
        fileCache := fileCache[path := ReadText(disk, path)];
      }
      content := fileCache[path];
    }

    /** _cleanup. */
    method Cleanup()
      modifies this
      ensures Idle()
    {
      tempDir := None;
      fileCache := map[];
    }

    /** The loop of _find_main_tex: collect the candidates, then take the
        first after a reverse sort. */
    method FindMainTex(ex: Extracted) returns (main: Option<string>)
      requires CacheAgrees(ex.disk)
      modifies this
      ensures CacheAgrees(ex.disk) && tempDir == old(tempDir)
      ensures main == MainTex(ex.base, ex.disk, ex.texFiles)
    {
      var candidates: seq<Candidate> := [];
      var k := 0;
      while k < |ex.texFiles|
        invariant k <= |ex.texFiles|
        invariant CacheAgrees(ex.disk) && tempDir == old(tempDir)
        invariant candidates == Candidates(ex.base, ex.disk, ex.texFiles[..k])
      {
        var rel := ex.texFiles[k];
        var path := Full(ex.base, rel);
        var content := LoadFile(ex.disk, path);
        assert ex.texFiles[..k + 1][..k] == ex.texFiles[..k];
        if HasDocumentClass(content) {
          candidates := candidates + [Candidate(Score(ex.base, rel), path)];
        }
        k := k + 1;
      }
      assert ex.texFiles[..k] == ex.texFiles;
      if |candidates| > 0 {
        main := Some(Greatest(candidates).path);
      } else {
        main := None;
      }
    }

    /** _merge_tex_content. */
    method MergeTex(env: Env, path: string, visited: set<string>)
      returns (text: string, visitedAfter: set<string>)
      requires Locates(env) && path in env.disk && CacheAgrees(env.disk)
      modifies this
      ensures CacheAgrees(env.disk) && tempDir == old(tempDir) && old(fileCache).Keys <= fileCache.Keys
      ensures (text, visitedAfter) == Merged(env, path, visited)
      decreases env.disk.Keys - visited, 0, 0
    {
      if path in visited {
        return CircularMarker(path), visited;
      }
      var v1 := visited + {path};
      var content := LoadFile(env.disk, path);
      var cur := env.dirOf(path);
      var c1, v2 := Substitute(env, cur, InputOpen, content, 0, v1);
      text, visitedAfter := Substitute(env, cur, IncludeOpen, c1, 0, v2);
    }

    /** re.sub(pattern, resolve_include, text) from position `i`: the
        text up to the leftmost match, its replacement, then the rest. */
    method Substitute(env: Env, cur: string, opener: string, text: string, i: nat, visited: set<string>)
      returns (out: string, visitedAfter: set<string>)
      requires Locates(env) && CacheAgrees(env.disk) && i <= |text|
      modifies this
      ensures CacheAgrees(env.disk) && tempDir == old(tempDir) && old(fileCache).Keys <= fileCache.Keys
      ensures (out, visitedAfter) == Substituted(env, cur, opener, text, i, visited)
      decreases env.disk.Keys - visited, 1, |text| - i
    {
      var m := FirstMatch(text, opener, i);
      if m.None? {
        SubstitutedDone(env, cur, opener, text, i, visited);
        return text[i..], visited;
      }
      var j := m.value;
      var k := BraceFrom(text, j + |opener|).value;
      var name := env.nameOf(text[j + |opener|..k]);
      SubstitutedStep(env, cur, opener, text, i, visited, j, k, name);
      var rep, v1 := ResolveInclude(env, cur, name, visited);
      var rest, v2 := Substitute(env, cur, opener, text, k + 1, v1);
      out, visitedAfter := text[i..j] + rep + rest, v2;
      assert Resolved(env, cur, name, visited) == (rep, v1);
      assert Substituted(env, cur, opener, text, k + 1, v1) == (rest, v2);
    }

    /** resolve_include. */
    method ResolveInclude(env: Env, cur: string, name: string, visited: set<string>)
      returns (rep: string, visitedAfter: set<string>)
      requires Locates(env) && CacheAgrees(env.disk)
      modifies this
      ensures CacheAgrees(env.disk) && tempDir == old(tempDir) && old(fileCache).Keys <= fileCache.Keys
      ensures (rep, visitedAfter) == Resolved(env, cur, name, visited)
      decreases env.disk.Keys - visited, 0, 1
    {
      var found := env.locate(cur, name);
      if found.None? {
        return NotFoundMarker(name), visited;
      }
      var included;
      included, visitedAfter := MergeTex(env, found.value, visited);
      rep := Wrapped(name, included);
    }

    /** The loop of process_package that loads every .tex file. */
    method LoadTexFiles(ex: Extracted)
      requires CacheAgrees(ex.disk)
      modifies this
      ensures CacheAgrees(ex.disk) && tempDir == old(tempDir)
      ensures forall rel :: rel in ex.texFiles ==> Full(ex.base, rel) in fileCache
    {
      var k := 0;
      while k < |ex.texFiles|
        invariant k <= |ex.texFiles| && CacheAgrees(ex.disk) && tempDir == old(tempDir)
        invariant forall m :: 0 <= m < k ==> Full(ex.base, ex.texFiles[m]) in fileCache
      {
        var _ := LoadFile(ex.disk, Full(ex.base, ex.texFiles[k]));
        k := k + 1;
      }
    }

    /** The TexFile list of process_package, each text taken from the
        cache. */
    method ListTexFiles(ex: Extracted, main: string) returns (files: seq<TexFile>)
      requires CacheAgrees(ex.disk)
      requires forall rel :: rel in ex.texFiles ==> Full(ex.base, rel) in fileCache
      ensures files == TexFilesOf(ex, main)
    {
      files := [];
      var k := 0;
      while k < |ex.texFiles|
        invariant k <= |ex.texFiles|
        invariant files == TexFilesOf(ex, main)[..k]
      {
        var p := Full(ex.base, ex.texFiles[k]);
        var content := if p in fileCache then fileCache[p] else "";
        files := files + [TexFile(ex.texFiles[k], content, p == main)];
        k := k + 1;
      }
    }

    /** The BibFile list of process_package, each text loaded through the
        cache. */
    method LoadBibFiles(ex: Extracted) returns (bibs: seq<BibFile>)
      requires CacheAgrees(ex.disk)
      modifies this
      ensures CacheAgrees(ex.disk) && tempDir == old(tempDir)
      ensures bibs == BibFilesOf(ex)
    {
      bibs := [];
      var k := 0;
      while k < |ex.bibFiles|
        invariant k <= |ex.bibFiles| && CacheAgrees(ex.disk) && tempDir == old(tempDir)
        invariant bibs == BibFilesOf(ex)[..k]
      {
        var content := LoadFile(ex.disk, Full(ex.base, ex.bibFiles[k]));
        bibs := bibs + [BibFile(ex.bibFiles[k], content)];
        k := k + 1;
      }
    }

    /** process_package on an extracted package; the temporary directory
        and the cache are cleaned up whatever the outcome. */
    method ProcessPackage(ex: Extracted) returns (r: Result<TexPackage>)
      requires Idle()
      modifies this
      ensures Idle()
      ensures r == PackageOf(ex)
    {
      tempDir := Some(ex.base);
      var main := FindMainTex(ex);
      MainTexOnDisk(ex.base, ex.disk, ex.texFiles);
      if main.None? {
        Cleanup();
        return Err(NoMainMessage);
      }
      LoadTexFiles(ex);
      var merged, _ := MergeTex(PackageEnv(ex.disk, ex.base), main.value, {});
      var files := ListTexFiles(ex, main.value);
      var bibs := LoadBibFiles(ex);
      Cleanup();
      r := Ok(TexPackage(RelPath(main.value, ex.base), merged, files, bibs, ex.figureFiles));
    }
  }
}
