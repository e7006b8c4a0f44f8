/** Studio's workspaces: one directory per workspace under a common
    "workspaces" directory, either named by a user or anonymous (one per
    browser), and the storage manager that keeps a workspace's history
    directories within limits by deleting the oldest entries.

    The file system is a value: the entries of the workspaces directory
    (sub-directories with their metadata file, or plain files), and for the
    storage manager the history sub-directories of each cleaned directory
    with their modification time and size. The directory listing order,
    the clock and the browser id are parameters. */
module Workspaces {
  import opened Common
  import opened JsonValue
  import opened Ordering

  const AnonymousPrefix := "_anonymous_"
  const MinNameLength := 3
  const MaxNameLength := 64

  const NameEmpty := "workspace.error.name_empty"
  const NameTooShort := "workspace.error.name_too_short"
  const NameTooLong := "workspace.error.name_too_long"
  const NameInvalidChars := "workspace.error.name_invalid_chars"
  const NameReserved := "workspace.error.name_reserved"
  const AlreadyExists := "workspace.error.already_exists"
  const CannotDeleteAnonymous := "workspace.error.cannot_delete_anonymous"
  const NotFound := "workspace.error.not_found"
  const DeleteFailed := "workspace.error.delete_failed"

  // ---------------------------------------------------------------------
  // Names and paths

  /** `validate_workspace_name` as written: the pattern is `re.match` with a
      `$` anchor, which also matches before a final newline. */
  function ValidateNameAsWritten(name: string): (r: (bool, string)) {
    if name == "" then (false, NameEmpty)
    else if |name| < MinNameLength then (false, NameTooShort)
    else if |name| > MaxNameLength then (false, NameTooLong)
    else if !NamePatternMatches(name) then (false, NameInvalidChars)
    else if StartsWith(name, AnonymousPrefix) then (false, NameReserved)
    else (true, "")
  }

  /** `validate_workspace_name` with the pattern read as intended (every
      character from [A-Za-z0-9_-]); the checks run in order: empty, too
      short, too long, a character outside the set, the reserved prefix. */
  function ValidateName(name: string): (r: (bool, string))
    ensures r.0 <==> IsSafeName(name) && MinNameLength <= |name| <= MaxNameLength && !StartsWith(name, AnonymousPrefix)
    ensures r.0 ==> r.1 == ""
    ensures name == "" ==> r.1 == NameEmpty
    ensures 0 < |name| < MinNameLength ==> r.1 == NameTooShort
    ensures |name| > MaxNameLength ==> r.1 == NameTooLong
    ensures MinNameLength <= |name| <= MaxNameLength && !IsSafeName(name) ==> r.1 == NameInvalidChars
    ensures MinNameLength <= |name| <= MaxNameLength && IsSafeName(name) && StartsWith(name, AnonymousPrefix) ==> r.1 == NameReserved
  {
    if name == "" then (false, NameEmpty)
    else if |name| < MinNameLength then (false, NameTooShort)
    else if |name| > MaxNameLength then (false, NameTooLong)
    else if !IsSafeName(name) then (false, NameInvalidChars)
    else if StartsWith(name, AnonymousPrefix) then (false, NameReserved)
    else (true, "")
  }

  /** On names without a trailing newline the two readings agree. */
  lemma ValidateNameAgrees(name: string)
    requires |name| == 0 || name[|name| - 1] != '\n'
    ensures ValidateNameAsWritten(name) == ValidateName(name)
  {
  }

  /** `get_workspace_path`'s sanitising: the name with every character
      outside [A-Za-z0-9_-] removed, so no separator or dot survives. */
  function Sanitize(name: string): (r: string)
    ensures |r| <= |name|
    ensures forall i :: 0 <= i < |r| ==> IsNameChar(r[i])
    ensures forall c :: c in r <==> c in name && IsNameChar(c)
    ensures (forall i :: 0 <= i < |name| ==> IsNameChar(name[i])) ==> r == name
  {
    if |name| == 0 then ""
    else (if IsNameChar(name[0]) then [name[0]] else []) + Sanitize(name[1..])
  }

  /** A name the validator accepts is its own directory name. */
  lemma ValidNameIsItsOwnPath(name: string)
    requires ValidateName(name).0
    ensures Sanitize(name) == name && Sanitize(name) != ""
  {
  }

  /** The validator as written accepts "ab\n": its length counts the
      newline. The corrected one rejects it, and rejects "ab", the
      directory name it leads to, as too short. */
  lemma AsWrittenAcceptsNewline()
    ensures ValidateNameAsWritten("ab\n") == (true, "")
    ensures !ValidateName("ab\n").0 && ValidateName("ab") == (false, NameTooShort)
  {
    assert "ab\n"[..2] == "ab";
    assert IsSafeName("ab");
    assert !IsNameChar("ab\n"[2]);
    assert !StartsWith("ab\n", AnonymousPrefix);
  }

  /** Sanitising drops the newline. */
  lemma SanitizeDropsNewline()
    ensures Sanitize("ab\n") == "ab"
  {
    assert "ab\n"[1..] == "b\n" && "b\n"[1..] == "\n" && "\n"[1..] == "";
    assert Sanitize("\n") == "";
    assert Sanitize("b\n") == "b";
  }

  /** `get_anonymous_workspace_name`. */
  function AnonymousName(browserId: string): (r: string)
    ensures StartsWith(r, AnonymousPrefix) && r[|AnonymousPrefix|..] == browserId
  {
    AnonymousPrefix + browserId
  }

  /** Anonymous names are reserved: no user can create one, and different
      browsers get different workspaces. */
  lemma AnonymousNamesReserved(b1: string, b2: string)
    ensures !ValidateName(AnonymousName(b1)).0 && !ValidateNameAsWritten(AnonymousName(b1)).0
    ensures AnonymousName(b1) == AnonymousName(b2) ==> b1 == b2
  {
  }

  /** The workspace `get_current_workspace_path` falls back on: the current
      one when set and non-empty, or the anonymous one of the browser
      ("default" when the browser id is unknown). */
  function CurrentWorkspaceName(current: Option<string>, browserId: Option<string>): (r: string)
    ensures current.Some? && current.value != "" ==> r == current.value
    ensures !(current.Some? && current.value != "") ==> StartsWith(r, AnonymousPrefix) && r[|AnonymousPrefix|..] == browserId.GetOr("default")
  {
    if current.Some? && current.value != "" then current.value else AnonymousName(browserId.GetOr("default"))
  }

  /** The fallback always leads to a directory of its own, never to the
      workspaces directory itself. */
  lemma FallbackHasOwnDirectory(browserId: Option<string>)
    ensures Sanitize(CurrentWorkspaceName(None, browserId)) != ""
  {
    var r := CurrentWorkspaceName(None, browserId);
    assert r[0] == '_' && IsNameChar(r[0]);
    assert r[0] in Sanitize(r);
  }

  // ---------------------------------------------------------------------
  // The workspaces directory

  /** An entry of the workspaces directory: a plain file, or a directory
      with the object its metadata file holds (None when that file is
      missing or cannot be read). */
  datatype Entry = FileEntry | DirEntry(meta: Option<map<string, Json>>)

  /** The workspaces directory: whether it exists, and its entries. */
  datatype Tree = Tree(present: bool, entries: map<string, Entry>)

  predicate TreeOk(t: Tree) {
    !t.present ==> t.entries == map[]
  }

  /** Whether `workspaces_dir / p` exists; the empty name is the
      workspaces directory itself. */
  predicate PathExists(t: Tree, p: string) {
    t.present && (p == "" || p in t.entries)
  }

  /** The metadata `create_workspace` writes. */
  function NewMeta(name: string, displayName: Option<string>, now: string): map<string, Json> {
    var shown := if displayName.Some? && displayName.value != "" then displayName.value else name;
    map["name" := JStr(name), "display_name" := JStr(shown), "created_at" := JStr(now), "is_anonymous" := JBool(false)]
  }

  /** `create_workspace` with a given validator: the (success, error key)
      pair and the directory afterwards. */
  function CreateWith(valid: (bool, string), t: Tree, name: string, displayName: Option<string>, now: string): ((bool, string), Tree) {
    if !valid.0 then ((false, valid.1), t)
    else if PathExists(t, Sanitize(name)) then ((false, AlreadyExists), t)
    else ((true, ""), Tree(true, t.entries[Sanitize(name) := DirEntry(Some(NewMeta(name, displayName, now)))]))
  }

  function CreateOutcomeAsWritten(t: Tree, name: string, displayName: Option<string>, now: string): ((bool, string), Tree) {
    CreateWith(ValidateNameAsWritten(name), t, name, displayName, now)
  }

  function CreateOutcome(t: Tree, name: string, displayName: Option<string>, now: string): ((bool, string), Tree) {
    CreateWith(ValidateName(name), t, name, displayName, now)
  }

  /** As written, "ab\n" creates the directory "ab", whose metadata still
      names "ab\n". */
  lemma AsWrittenCreatesOtherName(now: string)
    ensures var (res, t) := CreateOutcomeAsWritten(Tree(true, map[]), "ab\n", None, now);
      res == (true, "") && "ab" in t.entries && t.entries["ab"] == DirEntry(Some(NewMeta("ab\n", None, now)))
    ensures CreateOutcome(Tree(true, map[]), "ab\n", None, now).0.0 == false
  {
    AsWrittenAcceptsNewline();
    SanitizeDropsNewline();
  }

  /** `create_workspace` succeeds exactly for a valid name not on disk yet;
      then it adds exactly that directory, under the name itself, with its
      metadata; otherwise nothing changes. */
  lemma CreateFacts(t: Tree, name: string, displayName: Option<string>, now: string)
    requires TreeOk(t)
    ensures var (res, t2) := CreateOutcome(t, name, displayName, now);
      (res.0 <==> ValidateName(name).0 && !PathExists(t, name)) &&
      (!res.0 ==> t2 == t && res.1 != "") &&
      (!ValidateName(name).0 ==> res == ValidateName(name)) &&
      (ValidateName(name).0 && PathExists(t, name) ==> res == (false, AlreadyExists)) &&
      (res.0 ==> t2.present && t2.entries == t.entries[name := DirEntry(Some(NewMeta(name, displayName, now)))] && name !in t.entries)
  {
    var (res, t2) := CreateOutcome(t, name, displayName, now);
    if ValidateName(name).0 {
      ValidNameIsItsOwnPath(name);
    } else {
      assert name == "" ==> ValidateName(name).1 == NameEmpty;
    }
  }

  /** `delete_workspace` as written: a name with no allowed character at
      all leads to the workspaces directory itself, which is removed with
      everything in it. */
  function DeleteOutcomeAsWritten(t: Tree, name: string): ((bool, string), Tree) {
    if StartsWith(name, AnonymousPrefix) then ((false, CannotDeleteAnonymous), t)
    else
      var p := Sanitize(name);
      if !PathExists(t, p) then ((false, NotFound), t)
      else if p == "" then ((true, ""), Tree(false, map[]))
      else if t.entries[p].FileEntry? then ((false, DeleteFailed), t)
      else ((true, ""), t.(entries := t.entries - {p}))
  }

  /** `delete_workspace` as intended: a name that names no workspace
      directory is not found. Removing a plain file fails as `rmtree` does. */
  function DeleteOutcome(t: Tree, name: string): ((bool, string), Tree) {
    if StartsWith(name, AnonymousPrefix) then ((false, CannotDeleteAnonymous), t)
    else
      var p := Sanitize(name);
      if p == "" || !PathExists(t, p) then ((false, NotFound), t)
      else if t.entries[p].FileEntry? then ((false, DeleteFailed), t)
      else ((true, ""), t.(entries := t.entries - {p}))
  }

  /** As written, deleting ".." removes every workspace. */
  lemma AsWrittenDeletesEverything()
    ensures var t := Tree(true, map["team" := DirEntry(None)]);
      DeleteOutcomeAsWritten(t, "..") == ((true, ""), Tree(false, map[])) &&
      DeleteOutcome(t, "..") == ((false, NotFound), t)
  {
    assert Sanitize("..") == "";
    assert !StartsWith("..", AnonymousPrefix);
  }

  /** A delete succeeds exactly for a non-anonymous name whose directory
      exists, and then removes that one directory and nothing else. */
  lemma DeleteFacts(t: Tree, name: string)
    requires TreeOk(t)
    ensures var (res, t2) := DeleteOutcome(t, name);
      var p := Sanitize(name);
      (res.0 <==> !StartsWith(name, AnonymousPrefix) && p in t.entries && p != "" && t.entries[p].DirEntry?) &&
      (!res.0 ==> t2 == t && res.1 != "") &&
      (StartsWith(name, AnonymousPrefix) ==> res.1 == CannotDeleteAnonymous) &&
      (res.0 ==> t2.present == t.present && t2.entries == t.entries - {p}) &&
      (res.0 ==> forall k :: k != p ==> (k in t2.entries <==> k in t.entries) && (k in t2.entries ==> t2.entries[k] == t.entries[k]))
  {
  }

  /** Deleting a workspace just created restores the directory's entries. */
  lemma CreateThenDelete(t: Tree, name: string, displayName: Option<string>, now: string)
    requires TreeOk(t)
    requires CreateOutcome(t, name, displayName, now).0.0
    ensures var t2 := CreateOutcome(t, name, displayName, now).1;
      DeleteOutcome(t2, name) == ((true, ""), Tree(true, t.entries))
  {
    ValidNameIsItsOwnPath(name);
    var t2 := CreateOutcome(t, name, displayName, now).1;
    assert t2.entries - {name} == t.entries;
  }

  // ---------------------------------------------------------------------
  // Listing

  /** One entry of `list_workspaces`. */
  datatype WorkspaceInfo = WorkspaceInfo(
    name: string,
    path: string,
    isAnonymous: bool,
    createdAt: Json,
    displayName: Json)

  function InfoOf(dir: string, name: string, meta: Option<map<string, Json>>): WorkspaceInfo {
    var m := meta.GetOr(map[]);
    WorkspaceInfo(name, dir + "/" + name, StartsWith(name, AnonymousPrefix),
      if "created_at" in m then m["created_at"] else JStr(""),
      if "display_name" in m then m["display_name"] else JStr(name))
  }

  /** Whether the listing shows the entry `name`. */
  predicate Shown(name: string, e: Entry, includeAnonymous: bool) {
    e.DirEntry? && (includeAnonymous || !StartsWith(name, AnonymousPrefix))
  }

  /** The shown entries in directory order. */
  function Listed(dir: string, order: seq<string>, entries: map<string, Entry>, includeAnonymous: bool): seq<WorkspaceInfo>
    requires forall n :: n in order ==> n in entries
    decreases |order|
  {
    if |order| == 0 then []
    else
      var last := order[|order| - 1];
      Listed(dir, order[..|order| - 1], entries, includeAnonymous) +
        (if Shown(last, entries[last], includeAnonymous) then [InfoOf(dir, last, entries[last].meta)] else [])
  }

  lemma {:induction false} ListedMembers(dir: string, order: seq<string>, entries: map<string, Entry>, includeAnonymous: bool)
    requires forall n :: n in order ==> n in entries
    ensures forall w :: w in Listed(dir, order, entries, includeAnonymous) <==>
      exists n :: n in order && Shown(n, entries[n], includeAnonymous) && w == InfoOf(dir, n, entries[n].meta)
    decreases |order|
  {
    if |order| > 0 {
      var init := order[..|order| - 1];
      var last := order[|order| - 1];
      ListedMembers(dir, init, entries, includeAnonymous);
      assert order == init + [last];
      forall w ensures w in Listed(dir, order, entries, includeAnonymous) <==>
        exists n :: n in order && Shown(n, entries[n], includeAnonymous) && w == InfoOf(dir, n, entries[n].meta)
      {
        if w in Listed(dir, order, entries, includeAnonymous) && w !in Listed(dir, init, entries, includeAnonymous) {
          assert last in order;
        }
        if exists n :: n in order && Shown(n, entries[n], includeAnonymous) && w == InfoOf(dir, n, entries[n].meta) {
          var n :| n in order && Shown(n, entries[n], includeAnonymous) && w == InfoOf(dir, n, entries[n].meta);
          if n != last {
            assert n in init;
          }
        }
      }
    }
  }

  /** The sort key `(is_anonymous, name.lower())` as a comparison. */
  predicate WorkspaceLe(a: WorkspaceInfo, b: WorkspaceInfo) {
    (!a.isAnonymous && b.isAnonymous) || (a.isAnonymous == b.isAnonymous && StrLe(Lower(a.name), Lower(b.name)))
  }

  lemma WorkspaceLeTotalPreorder()
    ensures TotalPreorder(WorkspaceLe)
  {
    forall a, b ensures WorkspaceLe(a, b) || WorkspaceLe(b, a) {
      StrLeTotal(Lower(a.name), Lower(b.name));
    }
    forall a, b, c | WorkspaceLe(a, b) && WorkspaceLe(b, c) ensures WorkspaceLe(a, c) {
      if a.isAnonymous == b.isAnonymous && b.isAnonymous == c.isAnonymous {
        StrLeTrans(Lower(a.name), Lower(b.name), Lower(c.name));
      }
    }
  }

  /** `order` lists every entry of the directory once: `iterdir`'s order. */
  ghost predicate Enumerates(order: seq<string>, entries: map<string, Entry>) {
    Distinct(order) && forall n :: n in order <==> n in entries
  }

  /** `list_workspaces`: named workspaces first, then by lower-cased name;
      one entry for exactly the sub-directories, anonymous ones only when
      asked for. */
  lemma ListFacts(dir: string, order: seq<string>, entries: map<string, Entry>, includeAnonymous: bool)
    requires Enumerates(order, entries)
    ensures var r := SortBy(Listed(dir, order, entries, includeAnonymous), WorkspaceLe);
      SortedBy(r, WorkspaceLe) &&
      (forall i, j :: 0 <= i < j < |r| && !r[j].isAnonymous ==> !r[i].isAnonymous) &&
      (forall i, j :: 0 <= i < j < |r| && r[i].isAnonymous == r[j].isAnonymous ==> StrLe(Lower(r[i].name), Lower(r[j].name))) &&
      (!includeAnonymous ==> forall w :: w in r ==> !w.isAnonymous) &&
      (forall w :: w in r <==> exists n :: n in entries && Shown(n, entries[n], includeAnonymous) && w == InfoOf(dir, n, entries[n].meta))
  {
    var listed := Listed(dir, order, entries, includeAnonymous);
    WorkspaceLeTotalPreorder();
    SortBySorted(listed, WorkspaceLe);
    ListedMembers(dir, order, entries, includeAnonymous);
    SameElements(SortBy(listed, WorkspaceLe), listed);
  }

  /** A workspace just created is listed, with the display name given (or
      its name) and the creation time. */
  lemma CreatedIsListed(dir: string, t: Tree, name: string, displayName: Option<string>, now: string, order: seq<string>)
    requires CreateOutcome(t, name, displayName, now).0.0
    requires Enumerates(order, CreateOutcome(t, name, displayName, now).1.entries)
    ensures var shown := if displayName.Some? && displayName.value != "" then displayName.value else name;
      WorkspaceInfo(name, dir + "/" + name, false, JStr(now), JStr(shown)) in
        SortBy(Listed(dir, order, CreateOutcome(t, name, displayName, now).1.entries, false), WorkspaceLe)
  {
    var entries := CreateOutcome(t, name, displayName, now).1.entries;
    ValidNameIsItsOwnPath(name);
    var shown := if displayName.Some? && displayName.value != "" then displayName.value else name;
    var m := NewMeta(name, displayName, now);
    assert entries[name] == DirEntry(Some(m));
    assert "created_at" in m && m["created_at"] == JStr(now);
    assert "display_name" in m && m["display_name"] == JStr(shown);
    var w := WorkspaceInfo(name, dir + "/" + name, false, JStr(now), JStr(shown));
    assert InfoOf(dir, name, Some(m)) == w;
    assert Shown(name, entries[name], false);
    ListFacts(dir, order, entries, false);
  }

  class WorkspaceManager {
    const workspacesDir: string
    var present: bool
    var entries: map<string, Entry>

    function State(): Tree
      reads this
    {
      Tree(present, entries)
    }

    ghost predicate Valid()
      reads this
    {
      TreeOk(State())
    }

    /** The constructor creates the workspaces directory when missing. */
    constructor (workspacesDir: string, existing: map<string, Entry>)
      ensures this.workspacesDir == workspacesDir && present && entries == existing && Valid()
    {
      this.workspacesDir := workspacesDir;
      present := true;
      entries := existing;
    }

    /** `get_workspace_path`. */
    function WorkspacePath(name: string): (r: string)
      reads this
      ensures Sanitize(name) == "" ==> r == workspacesDir
      ensures Sanitize(name) != "" ==> r == workspacesDir + "/" + Sanitize(name)
    {
      var p := Sanitize(name);
      if p == "" then workspacesDir else workspacesDir + "/" + p
    }

    /** `workspace_exists`. */
    function WorkspaceExists(name: string): (r: bool)
      reads this
      ensures r <==> PathExists(State(), Sanitize(name))
    {
      present && (Sanitize(name) == "" || Sanitize(name) in entries)
    }

    /** `create_workspace`. */
    method CreateWorkspace(name: string, displayName: Option<string>, now: string) returns (ok: bool, error: string)
      requires Valid()
      modifies this
      ensures Valid()
      ensures ((ok, error), State()) == CreateOutcome(old(State()), name, displayName, now)
    {
      var (valid, message) := ValidateName(name);
      if !valid {
        return false, message;
      }
      if WorkspaceExists(name) {
        return false, AlreadyExists;
      }
      present := true;
      entries := entries[Sanitize(name) := DirEntry(Some(NewMeta(name, displayName, now)))];
      return true, "";
    }

    /** `delete_workspace`. */
    method DeleteWorkspace(name: string) returns (ok: bool, error: string)
      requires Valid()
      modifies this
      ensures Valid()
      ensures ((ok, error), State()) == DeleteOutcome(old(State()), name)
    {
      if StartsWith(name, AnonymousPrefix) {
        return false, CannotDeleteAnonymous;
      }
      var p := Sanitize(name);
      if p == "" || !WorkspaceExists(name) {
        return false, NotFound;
      }
      if entries[p].FileEntry? {
        return false, DeleteFailed;
      }
      entries := entries - {p};
      return true, "";
    }

    /** `list_workspaces`. */
    method ListWorkspaces(order: seq<string>, includeAnonymous: bool) returns (r: seq<WorkspaceInfo>)
      requires Enumerates(order, entries)
      ensures !present ==> r == []
      ensures present ==> r == SortBy(Listed(workspacesDir, order, entries, includeAnonymous), WorkspaceLe)
    {
      if !present {
        return [];
      }
      var found: seq<WorkspaceInfo> := [];
      var i := 0;
      while i < |order|
        invariant 0 <= i <= |order|
        invariant found == Listed(workspacesDir, order[..i], entries, includeAnonymous)
      {
        assert order[..i + 1][..i] == order[..i];
        var name := order[i];
        var e := entries[name];
        if e.DirEntry? && (includeAnonymous || !StartsWith(name, AnonymousPrefix)) {
          found := found + [InfoOf(workspacesDir, name, e.meta)];
        }
        i := i + 1;
      }
      assert order[..i] == order;
      r := SortBy(found, WorkspaceLe);
    }
  }

  // ---------------------------------------------------------------------
  // Storage limits and cleanup

  const DefaultMaxStorageMb := 500
  const DefaultMaxHistoryItems := 100
  const DefaultRetentionDays := 30
  /** However old, this many of the newest entries survive the age rule. */
  const KeepNewest := 10
  const SecondsPerDay := 86400
  const BytesPerMb := 1048576
  const CleanupDirs := ["evaluations", "batch_evaluations", "rubrics"]

  lemma CleanupDirsDistinct()
    ensures Distinct(CleanupDirs)
  {
    assert CleanupDirs[0][0] == 'e' && CleanupDirs[1][0] == 'b' && CleanupDirs[2][0] == 'r';
  }

  /** A history entry: a sub-directory of a cleaned directory, with its
      modification time (seconds) and the total size of its files. */
  datatype Subdir = Subdir(name: string, mtime: int, size: nat)

  /** `cleanup_old_data`'s statistics. */
  datatype Stats = Stats(deletedDirs: nat, deletedFiles: nat, freedBytes: nat, freedMb: real)

  /** `round(bytes / (1024 * 1024), 2)` counted in hundredths of a
      megabyte: the nearest whole number of hundredths, ties to the even
      one, as Python's `round` does. */
  function Hundredths(bytes: nat): nat {
    var q := bytes * 100 / BytesPerMb;
    var rem := bytes * 100 % BytesPerMb;
    if 2 * rem < BytesPerMb then q
    else if 2 * rem > BytesPerMb then q + 1
    else if q % 2 == 0 then q
    else q + 1
  }

  /** The rounded value is within half a hundredth of the exact one. */
  lemma HundredthsBounds(bytes: nat)
    ensures 2 * Hundredths(bytes) * BytesPerMb <= 200 * bytes + BytesPerMb
    ensures 200 * bytes <= 2 * Hundredths(bytes) * BytesPerMb + BytesPerMb
  {
  }

  /** A byte count in megabytes, rounded as the usage report rounds it. */
  function Megabytes(bytes: nat): real {
    Hundredths(bytes) as real / 100.0
  }

  /** Sorting newest first. */
  predicate NewerFirst(a: Subdir, b: Subdir) {
    a.mtime >= b.mtime
  }

  lemma NewerFirstTotalPreorder()
    ensures TotalPreorder(NewerFirst)
  {
  }

  /** The rule applied to the i-th entry of the newest-first list. */
  predicate ShouldDelete(i: nat, s: Subdir, cutoff: int, maxItems: int) {
    i >= maxItems || (s.mtime < cutoff && i >= KeepNewest)
  }

  /** The entries of the newest-first list `sorted` that are deleted. */
  function Victims(sorted: seq<Subdir>, cutoff: int, maxItems: int): (r: seq<Subdir>)
    decreases |sorted|
    ensures |r| <= |sorted|
    ensures forall x :: x in r ==> x in sorted
  {
    if |sorted| == 0 then []
    else
      var n := |sorted| - 1;
      Victims(sorted[..n], cutoff, maxItems) + (if ShouldDelete(n, sorted[n], cutoff, maxItems) then [sorted[n]] else [])
  }

  /** The entries that stay, newest first. */
  function Kept(sorted: seq<Subdir>, cutoff: int, maxItems: int): (r: seq<Subdir>)
    decreases |sorted|
    ensures |r| <= |sorted|
    ensures forall x :: x in r ==> x in sorted
  {
    if |sorted| == 0 then []
    else
      var n := |sorted| - 1;
      Kept(sorted[..n], cutoff, maxItems) + (if ShouldDelete(n, sorted[n], cutoff, maxItems) then [] else [sorted[n]])
  }

  /** The total size of some entries. */
  function Bytes(s: seq<Subdir>): nat
    decreases |s|
  {
    if |s| == 0 then 0 else Bytes(s[..|s| - 1]) + s[|s| - 1].size
  }

  lemma {:induction false} BytesAppend(a: seq<Subdir>, b: seq<Subdir>)
    ensures Bytes(a + b) == Bytes(a) + Bytes(b)
    decreases |b|
  {
    if |b| > 0 {
      var init := b[..|b| - 1];
      assert (a + b)[..|a + b| - 1] == a + init;
      assert (a + b)[|a + b| - 1] == b[|b| - 1];
      BytesAppend(a, init);
      assert Bytes(a + b) == Bytes(a + init) + b[|b| - 1].size;
      assert Bytes(b) == Bytes(init) + b[|b| - 1].size;
    } else {
      assert a + b == a;
    }
  }

  lemma {:induction false} BytesInsert(s: seq<Subdir>, x: Subdir, le: (Subdir, Subdir) -> bool)
    ensures Bytes(Insert(s, x, le)) == Bytes(s) + x.size
    decreases |s|
  {
    if |s| == 0 || le(s[|s| - 1], x) {
      assert Insert(s, x, le) == s + [x];
      BytesAppend(s, [x]);
      assert Bytes([x]) == x.size;
    } else {
      var init := s[..|s| - 1];
      var last := s[|s| - 1];
      assert Insert(s, x, le) == Insert(init, x, le) + [last];
      BytesInsert(init, x, le);
      BytesAppend(Insert(init, x, le), [last]);
      assert Bytes([last]) == last.size;
      assert Bytes(s) == Bytes(init) + last.size;
    }
  }

  /** Sorting does not change the total size. */
  lemma {:induction false} BytesSorted(s: seq<Subdir>, le: (Subdir, Subdir) -> bool)
    ensures Bytes(SortBy(s, le)) == Bytes(s)
    decreases |s|
  {
    if |s| > 0 {
      var init := s[..|s| - 1];
      BytesSorted(init, le);
      BytesInsert(SortBy(init, le), s[|s| - 1], le);
    }
  }

  /** Every entry is either deleted or kept: the sizes add up. */
  lemma {:induction false} VictimsKeptBytes(sorted: seq<Subdir>, cutoff: int, maxItems: int)
    ensures Bytes(Victims(sorted, cutoff, maxItems)) + Bytes(Kept(sorted, cutoff, maxItems)) == Bytes(sorted)
    decreases |sorted|
  {
    if |sorted| > 0 {
      var n := |sorted| - 1;
      var init := sorted[..n];
      VictimsKeptBytes(init, cutoff, maxItems);
      var v := Victims(init, cutoff, maxItems);
      var k := Kept(init, cutoff, maxItems);
      if ShouldDelete(n, sorted[n], cutoff, maxItems) {
        BytesAppend(v, [sorted[n]]);
        assert Victims(sorted, cutoff, maxItems) == v + [sorted[n]];
        assert Kept(sorted, cutoff, maxItems) == k + [];
        assert k + [] == k;
      } else {
        BytesAppend(k, [sorted[n]]);
        assert Kept(sorted, cutoff, maxItems) == k + [sorted[n]];
        assert Victims(sorted, cutoff, maxItems) == v + [];
        assert v + [] == v;
      }
      assert Bytes([sorted[n]]) == sorted[n].size;
    }
  }

  /** ... and the entries split in two. */
  lemma {:induction false} VictimsKeptSplit(sorted: seq<Subdir>, cutoff: int, maxItems: int)
    ensures multiset(Victims(sorted, cutoff, maxItems)) + multiset(Kept(sorted, cutoff, maxItems)) == multiset(sorted)
    decreases |sorted|
  {
    if |sorted| > 0 {
      var n := |sorted| - 1;
      var init := sorted[..n];
      VictimsKeptSplit(init, cutoff, maxItems);
      assert sorted == init + [sorted[n]];
    }
  }

  /** The i-th newest entry is deleted exactly when it is at or beyond the
      item limit, or older than the cutoff and beyond the ten newest. */
  lemma {:induction false} VictimRule(sorted: seq<Subdir>, cutoff: int, maxItems: int, i: nat)
    requires Distinct(sorted) && i < |sorted|
    ensures sorted[i] in Victims(sorted, cutoff, maxItems) <==> ShouldDelete(i, sorted[i], cutoff, maxItems)
    decreases |sorted|
  {
    var n := |sorted| - 1;
    var init := sorted[..n];
    assert Distinct(init);
    if i < n {
      VictimRule(init, cutoff, maxItems, i);
      assert init[i] == sorted[i];
      assert sorted[i] != sorted[n];
    } else {
      assert sorted[n] !in init;
    }
  }

  /** How many entries stay: never more than the item limit, and never
      fewer than the ten newest (or the item limit, when smaller). */
  lemma {:induction false} KeptBounds(sorted: seq<Subdir>, cutoff: int, maxItems: int)
    ensures |Kept(sorted, cutoff, maxItems)| <= MaxInt(maxItems, 0)
    ensures |Kept(sorted, cutoff, maxItems)| >= MinInt(|sorted|, MinInt(KeepNewest, maxItems))
    decreases |sorted|
  {
    if |sorted| > 0 {
      KeptBounds(sorted[..|sorted| - 1], cutoff, maxItems);
    }
  }

  /** What cleaning one directory's entries gives: (deleted, freed bytes,
      the entries left, newest first). */
  function CleanArea(subdirs: seq<Subdir>, cutoff: int, maxItems: int): (nat, nat, seq<Subdir>) {
    var sorted := SortBy(subdirs, NewerFirst);
    (|Victims(sorted, cutoff, maxItems)|, Bytes(Victims(sorted, cutoff, maxItems)), Kept(sorted, cutoff, maxItems))
  }

  /** Cleaning directory `d` after the counts and entries `acc` of the
      directories before it; a missing directory is skipped. */
  function CleanStep(acc: (nat, nat, map<string, seq<Subdir>>), d: string, cutoff: int, maxItems: int): (nat, nat, map<string, seq<Subdir>>) {
    if d in acc.2 then
      var c := CleanArea(acc.2[d], cutoff, maxItems);
      (acc.0 + c.0, acc.1 + c.1, acc.2[d := c.2])
    else acc
  }

  /** Cleaning the directories `names` in turn. */
  function CleanAll(areas: map<string, seq<Subdir>>, names: seq<string>, cutoff: int, maxItems: int): (nat, nat, map<string, seq<Subdir>>)
    decreases |names|
  {
    if |names| == 0 then (0, 0, areas)
    else
      var init := names[..|names| - 1];
      CleanStep(CleanAll(areas, init, cutoff, maxItems), names[|names| - 1], cutoff, maxItems)
  }

  /** Cleaning keeps the set of directories and touches only those in
      `names`. */
  lemma {:induction false} CleanAllFrame(areas: map<string, seq<Subdir>>, names: seq<string>, cutoff: int, maxItems: int)
    ensures var a := CleanAll(areas, names, cutoff, maxItems).2;
      a.Keys == areas.Keys && forall k :: k in areas && k !in names ==> a[k] == areas[k]
    decreases |names|
  {
    if |names| > 0 {
      var init := names[..|names| - 1];
      CleanAllFrame(areas, init, cutoff, maxItems);
      assert forall k :: k !in init && k != names[|names| - 1] ==> k !in names;
    }
  }

  /** Every cleaned directory keeps at most `maxItems` entries. */
  lemma {:induction false} CleanAllBounds(areas: map<string, seq<Subdir>>, names: seq<string>, cutoff: int, maxItems: int)
    ensures var a := CleanAll(areas, names, cutoff, maxItems).2;
      forall k :: k in a && k in names ==> |a[k]| <= MaxInt(maxItems, 0)
    decreases |names|
  {
    if |names| > 0 {
      var init := names[..|names| - 1];
      var d := names[|names| - 1];
      CleanAllBounds(areas, init, cutoff, maxItems);
      assert names == init + [d];
      CleanStepBounds(CleanAll(areas, init, cutoff, maxItems), init, d, cutoff, maxItems);
    }
  }

  /** One more cleaned directory keeps the bound on those cleaned before. */
  lemma CleanStepBounds(acc: (nat, nat, map<string, seq<Subdir>>), init: seq<string>, d: string, cutoff: int, maxItems: int)
    requires forall k :: k in acc.2 && k in init ==> |acc.2[k]| <= MaxInt(maxItems, 0)
    ensures var a := CleanStep(acc, d, cutoff, maxItems).2;
      forall k :: k in a && k in init + [d] ==> |a[k]| <= MaxInt(maxItems, 0)
  {
    if d in acc.2 {
      KeptBounds(SortBy(acc.2[d], NewerFirst), cutoff, maxItems);
    }
    assert forall k :: k in init + [d] ==> k in init || k == d;
  }

  /** The bytes held in the directories `names`. */
  function AreaBytes(areas: map<string, seq<Subdir>>, names: seq<string>): nat
    decreases |names|
  {
    if |names| == 0 then 0
    else
      var d := names[|names| - 1];
      AreaBytes(areas, names[..|names| - 1]) + (if d in areas then Bytes(areas[d]) else 0)
  }

  lemma {:induction false} AreaBytesFrame(areas: map<string, seq<Subdir>>, names: seq<string>, d: string, v: seq<Subdir>)
    requires d !in names
    ensures AreaBytes(areas[d := v], names) == AreaBytes(areas, names)
    decreases |names|
  {
    if |names| > 0 {
      AreaBytesFrame(areas, names[..|names| - 1], d, v);
    }
  }

  lemma {:induction false} AreaBytesSame(a: map<string, seq<Subdir>>, b: map<string, seq<Subdir>>, names: seq<string>)
    requires forall k :: k in names ==> (k in a <==> k in b) && (k in a ==> a[k] == b[k])
    ensures AreaBytes(a, names) == AreaBytes(b, names)
    decreases |names|
  {
    if |names| > 0 {
      AreaBytesSame(a, b, names[..|names| - 1]);
    }
  }

  /** The bytes freed are exactly the bytes the cleaned directories lose. */
  lemma {:induction false} CleanAllAccounting(areas: map<string, seq<Subdir>>, names: seq<string>, cutoff: int, maxItems: int)
    requires Distinct(names)
    ensures var (_, freed, a) := CleanAll(areas, names, cutoff, maxItems);
      AreaBytes(a, names) + freed == AreaBytes(areas, names)
    decreases |names|
  {
    if |names| > 0 {
      var init := names[..|names| - 1];
      var d := names[|names| - 1];
      assert Distinct(init);
      assert d !in init;
      CleanAllAccounting(areas, init, cutoff, maxItems);
      CleanAllFrame(areas, init, cutoff, maxItems);
      var (deleted, freed, a) := CleanAll(areas, init, cutoff, maxItems);
      if d in a {
        var sorted := SortBy(a[d], NewerFirst);
        VictimsKeptBytes(sorted, cutoff, maxItems);
        BytesSorted(a[d], NewerFirst);
        AreaBytesFrame(a, init, d, Kept(sorted, cutoff, maxItems));
      }
    }
  }

  /** The statistics of a run that deleted `deleted` entries of `freed`
      bytes in total. */
  function StatsOf(deleted: nat, freed: nat): (s: Stats)
    ensures s.deletedFiles == 0
  {
    Stats(deleted, 0, freed, Megabytes(freed))
  }

  /** The cutoff time of a retention period, `now` minus that many days. */
  function Cutoff(now: int, retentionDays: int): int {
    now - retentionDays * SecondsPerDay
  }

  /** `usage > max_mb`, the condition for an automatic cleanup, compared
      in hundredths of a megabyte. */
  predicate OverQuota(bytes: nat, maxMb: int) {
    Hundredths(bytes) > maxMb * 100
  }

  /** `auto_cleanup_if_needed` on the cleaned directories' entries, the
      other bytes of the workspace being `other`: nothing when within quota;
      otherwise a pass keeping 50 entries, then, when still over, a second
      pass with 7 days and 20 entries, the statistics adding up. */
  function AutoCleanup(other: nat, areas: map<string, seq<Subdir>>, maxMb: int, retentionDays: int, now: int): (r: (Option<Stats>, map<string, seq<Subdir>>))
    ensures r.0.None? <==> !OverQuota(other + AreaBytes(areas, CleanupDirs), maxMb)
    ensures r.0.None? ==> r.1 == areas
    ensures r.0.Some? ==> r.0.value.deletedFiles == 0
  {
    if !OverQuota(other + AreaBytes(areas, CleanupDirs), maxMb) then (None, areas)
    else AfterFirstPass(other, CleanAll(areas, CleanupDirs, Cutoff(now, retentionDays), 50), maxMb, now)
  }

  /** The rest of an automatic cleanup once the first pass gave `first`. */
  function AfterFirstPass(other: nat, first: (nat, nat, map<string, seq<Subdir>>), maxMb: int, now: int): (r: (Option<Stats>, map<string, seq<Subdir>>))
    ensures r.0.Some?
  {
    if !OverQuota(other + AreaBytes(first.2, CleanupDirs), maxMb) then (Some(StatsOf(first.0, first.1)), first.2)
    else
      var second := CleanAll(first.2, CleanupDirs, Cutoff(now, 7), 20);
      (Some(StatsOf(first.0 + second.0, first.1 + second.1)), second.2)
  }

  /** An automatic cleanup reports as freed exactly the bytes the
      workspace lost. */
  lemma AutoCleanupAccounting(other: nat, areas: map<string, seq<Subdir>>, maxMb: int, retentionDays: int, now: int)
    ensures var r := AutoCleanup(other, areas, maxMb, retentionDays, now);
      r.0.Some? ==> AreaBytes(r.1, CleanupDirs) + r.0.value.freedBytes == AreaBytes(areas, CleanupDirs)
  {
    CleanupDirsDistinct();
    CleanAllAccounting(areas, CleanupDirs, Cutoff(now, retentionDays), 50);
    var first := CleanAll(areas, CleanupDirs, Cutoff(now, retentionDays), 50);
    CleanAllAccounting(first.2, CleanupDirs, Cutoff(now, 7), 20);
  }

  /** After an automatic cleanup every cleaned directory holds at most 50
      entries, and at most 20 when the first pass was not enough. */
  lemma AutoCleanupBounds(other: nat, areas: map<string, seq<Subdir>>, maxMb: int, retentionDays: int, now: int)
    ensures var r := AutoCleanup(other, areas, maxMb, retentionDays, now);
      r.1.Keys == areas.Keys &&
      (r.0.Some? ==> forall d :: d in r.1 && d in CleanupDirs ==> |r.1[d]| <= 50)
  {
    CleanAllBounds(areas, CleanupDirs, Cutoff(now, retentionDays), 50);
    CleanAllFrame(areas, CleanupDirs, Cutoff(now, retentionDays), 50);
    var first := CleanAll(areas, CleanupDirs, Cutoff(now, retentionDays), 50);
    CleanAllBounds(first.2, CleanupDirs, Cutoff(now, 7), 20);
    CleanAllFrame(first.2, CleanupDirs, Cutoff(now, 7), 20);
  }

  class StorageManager {
    const workspacePath: string
    /** Bytes of the workspace outside the cleaned directories' entries. */
    var other: nat
    /** The entries of each cleaned directory that exists, in directory order. */
    var areas: map<string, seq<Subdir>>

    constructor (workspacePath: string, other: nat, areas: map<string, seq<Subdir>>)
      ensures this.workspacePath == workspacePath && this.other == other && this.areas == areas
    {
      this.workspacePath := workspacePath;
      this.other := other;
      this.areas := areas;
    }

    /** `get_storage_usage`'s total size in bytes. */
    function TotalBytes(): nat
      reads this
    {
      other + AreaBytes(areas, CleanupDirs)
    }

    /** `enforce_quota`: whether the workspace is within the quota, the
      opposite of the condition for an automatic cleanup. */
    function EnforceQuota(maxMb: int): (r: bool)
      reads this
      ensures r <==> !OverQuota(TotalBytes(), maxMb)
    {
      Hundredths(TotalBytes()) <= maxMb * 100
    }

    /** Cleaning one directory: the entries newest first, each deleted or
        kept by the rule, counting what is deleted. */
    static method CleanDirectory(subdirs: seq<Subdir>, cutoff: int, maxItems: int) returns (deleted: nat, freed: nat, kept: seq<Subdir>)
      ensures (deleted, freed, kept) == CleanArea(subdirs, cutoff, maxItems)
    {
      var sorted := SortBy(subdirs, NewerFirst);
      deleted, freed, kept := 0, 0, [];
      var i := 0;
      while i < |sorted|
        invariant 0 <= i <= |sorted|
        invariant deleted == |Victims(sorted[..i], cutoff, maxItems)|
        invariant freed == Bytes(Victims(sorted[..i], cutoff, maxItems))
        invariant kept == Kept(sorted[..i], cutoff, maxItems)
      {
        ghost var pre := sorted[..i];
        assert sorted[..i + 1][..i] == pre;
        assert sorted[..i + 1][i] == sorted[i];
        if ShouldDelete(i, sorted[i], cutoff, maxItems) {
          assert Victims(sorted[..i + 1], cutoff, maxItems) == Victims(pre, cutoff, maxItems) + [sorted[i]];
          assert Kept(sorted[..i + 1], cutoff, maxItems) == Kept(pre, cutoff, maxItems) + [];
          assert Kept(pre, cutoff, maxItems) + [] == Kept(pre, cutoff, maxItems);
          BytesAppend(Victims(pre, cutoff, maxItems), [sorted[i]]);
          assert Bytes([sorted[i]]) == sorted[i].size;
          deleted := deleted + 1;
          freed := freed + sorted[i].size;
        } else {
          assert Victims(sorted[..i + 1], cutoff, maxItems) == Victims(pre, cutoff, maxItems) + [];
          assert Victims(pre, cutoff, maxItems) + [] == Victims(pre, cutoff, maxItems);
          assert Kept(sorted[..i + 1], cutoff, maxItems) == Kept(pre, cutoff, maxItems) + [sorted[i]];
          kept := kept + [sorted[i]];
        }
        i := i + 1;
      }
      assert sorted[..i] == sorted;
    }

    /** The loop of `cleanup_old_data` over the cleaned directories. */
    static method CleanDirectories(areas: map<string, seq<Subdir>>, cutoff: int, maxItems: int)
      returns (deleted: nat, freed: nat, a: map<string, seq<Subdir>>)
      ensures (deleted, freed, a) == CleanAll(areas, CleanupDirs, cutoff, maxItems)
    {
      a := areas;
      deleted, freed := 0, 0;
      var k := 0;
      while k < |CleanupDirs|
        invariant 0 <= k <= |CleanupDirs|
        invariant deleted == CleanAll(areas, CleanupDirs[..k], cutoff, maxItems).0
        invariant freed == CleanAll(areas, CleanupDirs[..k], cutoff, maxItems).1
        invariant a == CleanAll(areas, CleanupDirs[..k], cutoff, maxItems).2
      {
        assert CleanupDirs[..k + 1][..k] == CleanupDirs[..k];
        var d := CleanupDirs[k];
        ghost var next := CleanStep((deleted, freed, a), d, cutoff, maxItems);
        assert CleanAll(areas, CleanupDirs[..k + 1], cutoff, maxItems) == next;
        if d in a {
          var dd, ff, kept := CleanDirectory(a[d], cutoff, maxItems);
          ghost var c := CleanArea(a[d], cutoff, maxItems);
          assert dd == c.0 && ff == c.1 && kept == c.2;
          assert next.0 == deleted + dd && next.1 == freed + ff && next.2 == a[d := kept];
          deleted, freed := deleted + dd, freed + ff;
          a := a[d := kept];
        } else {
          assert next.0 == deleted && next.1 == freed && next.2 == a;
        }
        k := k + 1;
      }
      assert CleanupDirs[..k] == CleanupDirs;
    }

    /** `cleanup_old_data`. */
    method CleanupOldData(retentionDays: int, maxItems: int, now: int) returns (stats: Stats)
      modifies this
      ensures other == old(other)
      ensures var r := CleanAll(old(areas), CleanupDirs, Cutoff(now, retentionDays), maxItems);
        stats == StatsOf(r.0, r.1) && areas == r.2
      ensures TotalBytes() + stats.freedBytes == old(TotalBytes())
    {
      var cutoff := Cutoff(now, retentionDays);
      var deleted, freed, a := CleanDirectories(areas, cutoff, maxItems);
      CleanupDirsDistinct();
      CleanAllAccounting(areas, CleanupDirs, cutoff, maxItems);
      areas := a;
      stats := StatsOf(deleted, freed);
    }

    /** `auto_cleanup_if_needed`. */
    method AutoCleanupIfNeeded(maxMb: int, retentionDays: int, now: int) returns (r: Option<Stats>)
      modifies this
      ensures other == old(other)
      ensures r == AutoCleanup(old(other), old(areas), maxMb, retentionDays, now).0
      ensures areas == AutoCleanup(old(other), old(areas), maxMb, retentionDays, now).1
    {
      r, areas := AutoCleanupOn(other, areas, maxMb, retentionDays, now);
    }

    /** The decisions of `auto_cleanup_if_needed` on the workspace's
        contents: measure, clean, measure again, clean harder. */
    static method AutoCleanupOn(other: nat, areas: map<string, seq<Subdir>>, maxMb: int, retentionDays: int, now: int)
      returns (r: Option<Stats>, a: map<string, seq<Subdir>>)
      ensures (r, a) == AutoCleanup(other, areas, maxMb, retentionDays, now)
    {
      if Hundredths(other + AreaBytes(areas, CleanupDirs)) <= maxMb * 100 {
        return None, areas;
      }
      var deleted, freed;
      deleted, freed, a := CleanDirectories(areas, Cutoff(now, retentionDays), 50);
      r, a := FinishCleanup(other, deleted, freed, a, maxMb, now);
    }

    static method FinishCleanup(other: nat, deleted: nat, freed: nat, a1: map<string, seq<Subdir>>, maxMb: int, now: int)
      returns (r: Option<Stats>, a: map<string, seq<Subdir>>)
      ensures (r, a) == AfterFirstPass(other, (deleted, freed, a1), maxMb, now)
    {
      if Hundredths(other + AreaBytes(a1, CleanupDirs)) <= maxMb * 100 {
        return Some(StatsOf(deleted, freed)), a1;
      }
      var moreDeleted, moreFreed;
      moreDeleted, moreFreed, a := CleanDirectories(a1, Cutoff(now, 7), 20);
      return Some(StatsOf(deleted + moreDeleted, freed + moreFreed)), a;
    }
  }
}
