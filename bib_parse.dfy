/** Reading references out of BibTeX text: the entry scan (`@kind{key,
    fields}`), the field lookup inside an entry (`name = {value}` or
    `name = "value"`, case-insensitive) and the arXiv identifier taken from
    a journal name. Regular-expression classes are taken on ASCII: `\w` is
    a letter, a digit or `_`, `\s` is the whitespace of `IsSpace`. */
module BibParse {
  import opened Common

  datatype Reference = Reference(
    key: string,
    title: string,
    authors: Option<string>,
    year: Option<string>,
    journal: Option<string>,
    doi: Option<string>,
    arxivId: Option<string>)

  /** A string that is present and not empty (truthy). */
  predicate Filled(x: Option<string>) {
    x.Some? && x.value != ""
  }

  /** A stripped string: no whitespace at either end. */
  predicate Unpadded(v: string) {
    v == [] || (!IsSpace(v[0]) && !IsSpace(v[|v| - 1]))
  }

  predicate IsWordChar(c: char) {
    IsAsciiAlnum(c) || c == '_'
  }

  // ---------------------------------------------------------------------
  // Scanning helpers

  /** Length of the run of word characters starting at `i`. */
  function WordRun(s: string, i: nat): (n: nat)
    requires i <= |s|
    ensures i + n <= |s|
    ensures forall k :: i <= k < i + n ==> IsWordChar(s[k])
    ensures i + n < |s| ==> !IsWordChar(s[i + n])
    decreases |s| - i
  {
    if i == |s| || !IsWordChar(s[i]) then 0 else 1 + WordRun(s, i + 1)
  }

  /** Length of the run of whitespace starting at `i`. */
  function SpaceRun(s: string, i: nat): (n: nat)
    requires i <= |s|
    ensures i + n <= |s|
    ensures forall k :: i <= k < i + n ==> IsSpace(s[k])
    ensures i + n < |s| ==> !IsSpace(s[i + n])
    decreases |s| - i
  {
    if i == |s| || !IsSpace(s[i]) then 0 else 1 + SpaceRun(s, i + 1)
  }

  /** The first index at or after `from` holding one of `cs`. */
  function NextOf(s: string, from: nat, cs: set<char>): (r: Option<nat>)
    ensures r.Some? ==> from <= r.value < |s| && s[r.value] in cs
    ensures r.Some? ==> forall k :: from <= k < r.value ==> s[k] !in cs
    ensures r.None? ==> forall k :: from <= k < |s| ==> s[k] !in cs
    decreases |s| - from
  {
    if from >= |s| then None
    else if s[from] in cs then Some(from)
    else NextOf(s, from + 1, cs)
  }

  /** The last index in `[from, to)` holding `c`. */
  function LastOf(s: string, from: nat, upto: nat, c: char): (r: Option<nat>)
    requires upto <= |s|
    ensures r.Some? ==> from <= r.value < upto && s[r.value] == c
    ensures r.Some? ==> forall k :: r.value < k < upto ==> s[k] != c
    ensures r.None? ==> forall k :: from <= k < upto ==> s[k] != c
    decreases upto
  {
    if upto <= from then None
    else if s[upto - 1] == c then Some(upto - 1)
    else LastOf(s, from, upto - 1, c)
  }

  /** A slice holds no `ch` when none of its indices does. */
  lemma SliceAvoids(s: string, from: nat, upto: nat, ch: char)
    requires from <= upto <= |s|
    requires forall k :: from <= k < upto ==> s[k] != ch
    ensures ch !in s[from..upto]
  {
  }

  /** Stripping a slice whose indices hold no `ch` leaves no `ch`. */
  lemma StrippedAvoids(s: string, ch: char)
    requires ch !in s
    ensures ch !in Trim(s)
  {
    TrimTwice(s);
  }

  // ---------------------------------------------------------------------
  // Entries: `@(\w+)\s*\{\s*([^,]+)\s*,([^@]*)}`

  /** One match of the entry pattern: the stripped key, the field text and
      the index just past the closing brace. */
  datatype RawEntry = RawEntry(key: string, fields: string, end: nat)

  /** What every match of the entry pattern from `from` satisfies: it ends
      after `from` with a closing brace, its key is stripped and holds no
      comma, and its field text holds no `@`. */
  predicate EntryShape(s: string, from: nat, e: RawEntry) {
    && from < e.end <= |s| && s[e.end - 1] == '}'
    && ',' !in e.key && '@' !in e.fields && Unpadded(e.key)
  }

  /** The entry pattern matched at `i`. The key runs to the first comma
      after the opening brace and needs at least one character; the field
      text runs to the last closing brace before the next `@`. */
  function EntryAt(s: string, i: nat): (r: Option<RawEntry>)
    ensures r.Some? ==> i < |s| && s[i] == '@' && EntryShape(s, i, r.value)
  {
    if !(i < |s| && s[i] == '@') then None
    else EntryAfterAt(s, i + 1)
  }

  /** `(\w+)\s*\{` and the rest of the entry, from `j`. */
  function EntryAfterAt(s: string, j: nat): (r: Option<RawEntry>)
    requires j <= |s|
    ensures r.Some? ==> EntryShape(s, j, r.value)
  {
    var w := WordRun(s, j);
    if w == 0 then None
    else
      var p := j + w + SpaceRun(s, j + w);
      if !(p < |s| && s[p] == '{') then None
      else EntryAfterBrace(s, p)
  }

  /** The key and the field text after the opening brace at `p`. */
  function EntryAfterBrace(s: string, p: nat): (r: Option<RawEntry>)
    requires p < |s|
    ensures r.Some? ==> EntryShape(s, p, r.value)
  {
    match NextOf(s, p + 1, {','})
    case None => None
    case Some(c) =>
      if c == p + 1 then None
      else
        match FieldsAfterComma(s, c)
        case None => None
        case Some(b) =>
          SliceAvoids(s, p + 1, c, ',');
          KeyAndFieldsShape(s, p, c, b);
          Some(RawEntry(Trim(s[p + 1..c]), s[c + 1..b], b + 1))
  }

  lemma KeyAndFieldsShape(s: string, p: nat, c: nat, b: nat)
    requires p < c < b < |s| && s[b] == '}' && '@' !in s[c + 1..b]
    requires ',' !in s[p + 1..c]
    ensures EntryShape(s, p, RawEntry(Trim(s[p + 1..c]), s[c + 1..b], b + 1))
  {
    StrippedAvoids(s[p + 1..c], ',');
  }

  /** The end of `([^@]*)}` after the comma at `c`: the last closing brace
      before the next `@`. */
  function FieldsAfterComma(s: string, c: nat): (r: Option<nat>)
    requires c < |s|
    ensures r.Some? ==> c < r.value < |s| && s[r.value] == '}' && '@' !in s[c + 1..r.value]
  {
    var stop := NextOf(s, c + 1, {'@'}).GetOr(|s|);
    match LastOf(s, c + 1, stop, '}')
    case None => None
    case Some(b) =>
      SliceAvoids(s, c + 1, b, '@');
      Some(b)
  }

  /** re.findall of the entry pattern from `from`: the next match is
      searched for where the previous one ended. */
  function Entries(s: string, from: nat): (es: seq<RawEntry>)
    ensures forall e :: e in es ==> e.end <= |s| && ',' !in e.key && '@' !in e.fields && Unpadded(e.key)
    decreases |s| - from
  {
    if from >= |s| then []
    else match EntryAt(s, from)
      case Some(e) => [e] + Entries(s, e.end)
      case None => Entries(s, from + 1)
  }

  // ---------------------------------------------------------------------
  // Fields: `name\s*=\s*[{"](.*?)[}"]`, ignoring case

  /** The field pattern matched at `i`: the value up to the first closing
      brace or double quote, stripped. */
  function FieldAt(fields: string, name: string, i: nat): (r: Option<string>)
    ensures r.Some? ==> CaselessAt(fields, name, i)
    ensures r.Some? ==> '}' !in r.value && '"' !in r.value && Unpadded(r.value)
  {
    if !CaselessAt(fields, name, i) then None
    else ValueAfterName(fields, i + |name|)
  }

  /** `\s*=` and the value, from `p`. */
  function ValueAfterName(fields: string, p: nat): (r: Option<string>)
    requires p <= |fields|
    ensures r.Some? ==> '}' !in r.value && '"' !in r.value && Unpadded(r.value)
  {
    var e := p + SpaceRun(fields, p);
    if !(e < |fields| && fields[e] == '=') then None
    else ValueAfterEquals(fields, e + 1)
  }

  /** `\s*[{"](.*?)[}"]` from `p`. */
  function ValueAfterEquals(fields: string, p: nat): (r: Option<string>)
    requires p <= |fields|
    ensures r.Some? ==> '}' !in r.value && '"' !in r.value && Unpadded(r.value)
  {
    var q := p + SpaceRun(fields, p);
    if !(q < |fields| && fields[q] in {'{', '"'}) then None
    else ValueFrom(fields, q + 1)
  }

  /** `(.*?)[}"]` from `q`, stripped. */
  function ValueFrom(fields: string, q: nat): (r: Option<string>)
    requires q <= |fields|
    ensures r.Some? ==> '}' !in r.value && '"' !in r.value && Unpadded(r.value)
  {
    match NextOf(fields, q, {'}', '"'})
    case None => None
    case Some(e) =>
      SliceAvoids(fields, q, e, '}');
      SliceAvoids(fields, q, e, '"');
      StrippedAvoids(fields[q..e], '}');
      StrippedAvoids(fields[q..e], '"');
      Some(Trim(fields[q..e]))
  }

  /** `i` is not in the middle of a word: it is at the start or follows a
      character that is not a word character. */
  predicate StartsName(fields: string, i: nat) {
    i == 0 || (i <= |fields| && !IsWordChar(fields[i - 1]))
  }

  /** The field pattern matches at `i`; when `whole` is set, only where a
      field name can start. */
  predicate MatchesAt(fields: string, name: string, i: nat, whole: bool) {
    (!whole || StartsName(fields, i)) && FieldAt(fields, name, i).Some?
  }

  /** The leftmost match of the field pattern at or after `from`. */
  function SearchField(fields: string, name: string, from: nat, whole: bool): (r: Option<string>)
    ensures r.Some? ==> '}' !in r.value && '"' !in r.value && Unpadded(r.value)
    decreases |fields| + 1 - from
  {
    if from > |fields| then None
    else if MatchesAt(fields, name, from, whole) then FieldAt(fields, name, from)
    else SearchField(fields, name, from + 1, whole)
  }

  /** extract_field as written: re.search finds `name` anywhere, so a
      field whose name merely ends with `name` (`booktitle` for `title`)
      can answer for it. */
  function ExtractFieldAsWritten(fields: string, name: string): Option<string> {
    SearchField(fields, name, 0, false)
  }

  /** extract_field with the field name matched as a whole word. */
  function ExtractField(fields: string, name: string): Option<string> {
    SearchField(fields, name, 0, true)
  }

  /** The value found is the one at the leftmost position that matches. */
  lemma {:induction false} SearchFieldWitness(fields: string, name: string, from: nat, whole: bool) returns (i: nat)
    requires SearchField(fields, name, from, whole).Some?
    ensures from <= i <= |fields| && FieldAt(fields, name, i) == SearchField(fields, name, from, whole)
    ensures whole ==> StartsName(fields, i)
    ensures forall k :: from <= k < i ==> !MatchesAt(fields, name, k, whole)
    decreases |fields| + 1 - from
  {
    if MatchesAt(fields, name, from, whole) {
      i := from;
    } else {
      i := SearchFieldWitness(fields, name, from + 1, whole);
      forall k | from <= k < i ensures !MatchesAt(fields, name, k, whole) {
        if k > from { }
      }
    }
  }

  /** No value is found exactly when no position matches. */
  lemma {:induction false} SearchFieldNone(fields: string, name: string, from: nat, whole: bool)
    requires forall k :: from <= k <= |fields| ==> !MatchesAt(fields, name, k, whole)
    ensures SearchField(fields, name, from, whole).None?
    decreases |fields| + 1 - from
  {
    if from <= |fields| {
      SearchFieldNone(fields, name, from + 1, whole);
    }
  }

  /** Positions that do not match are skipped. */
  lemma {:induction false} SearchFieldSkips(fields: string, name: string, from: nat, upto: nat, whole: bool)
    requires from <= upto <= |fields|
    requires forall k :: from <= k < upto ==> !MatchesAt(fields, name, k, whole)
    ensures SearchField(fields, name, from, whole) == SearchField(fields, name, upto, whole)
    decreases upto - from
  {
    if from < upto {
      SearchFieldSkips(fields, name, from + 1, upto, whole);
    }
  }

  /** Field text with a book title ahead of the title. */
  const ShadowedFields := "booktitle={P},title={T}"

  /** `name={v}` at `i` reads as `v` when `v` is stripped and holds no
      closing brace or quote. */
  lemma BracedField(fields: string, name: string, i: nat, v: string)
    requires CaselessAt(fields, name, i)
    requires i + |name| + |v| + 3 <= |fields|
    requires fields[i + |name|] == '=' && fields[i + |name| + 1] == '{'
    requires fields[i + |name| + 2..i + |name| + 2 + |v|] == v && fields[i + |name| + 2 + |v|] == '}'
    requires '}' !in v && '"' !in v && Unpadded(v)
    ensures FieldAt(fields, name, i) == Some(v)
  {
    var p := i + |name|;
    BracedValue(fields, p + 2, v);
    assert ValueAfterEquals(fields, p + 1) == Some(v) by {
      assert SpaceRun(fields, p + 1) == 0;
    }
    assert ValueAfterName(fields, p) == Some(v) by {
      assert SpaceRun(fields, p) == 0;
    }
  }

  /** `v}` at `q` reads as `v`. */
  lemma BracedValue(fields: string, q: nat, v: string)
    requires q + |v| < |fields|
    requires fields[q..q + |v|] == v && fields[q + |v|] == '}'
    requires '}' !in v && '"' !in v && Unpadded(v)
    ensures ValueFrom(fields, q) == Some(v)
  {
    var e := q + |v|;
    forall k | q <= k < e ensures fields[k] !in {'}', '"'} {
      assert fields[k] == v[k - q];
    }
    assert NextOf(fields, q, {'}', '"'}) == Some(e);
    if v != [] { TrimUnspaced(v); }
  }

  lemma BookTitleMatches()
    ensures FieldAt(ShadowedFields, "title", 4) == Some("P")
  {
    var f := ShadowedFields;
    assert Lower(f[4..9]) == "title";
    assert f[11..12] == "P";
    BracedField(f, "title", 4, "P");
  }

  lemma TitleStarts()
    ensures StartsName(ShadowedFields, 14)
  {
    var f := ShadowedFields;
    assert f[13] == ',';
  }

  lemma TitleMatches()
    ensures FieldAt(ShadowedFields, "title", 14) == Some("T")
  {
    var f := ShadowedFields;
    assert Lower(f[14..19]) == "title";
    assert f[21..22] == "T";
    BracedField(f, "title", 14, "T");
  }

  /** Inside `booktitle` and right after `P`, no field name can start. */
  lemma NotAStart(k: nat)
    requires 1 <= k <= 9 || k == 12
    ensures !StartsName(ShadowedFields, k)
  {
    var f := ShadowedFields;
    assert IsWordChar(f[k - 1]);
  }

  /** Where the first letter is not `t`, `title` does not match. */
  lemma NotTitleAt(k: nat)
    requires k <= 3 || k == 10 || k == 11 || k == 13
    ensures !CaselessAt(ShadowedFields, "title", k)
  {
    var f := ShadowedFields;
    var c := f[k];
    if k <= 3 {
      assert c in {'b', 'o', 'k'};
    } else {
      assert c in {'{', 'P', ','};
    }
    assert Lower(f[k..k + 5])[0] == LowerChar(c);
  }

  lemma NothingBefore(k: nat, whole: bool)
    requires k < 14 && (!whole ==> k < 4)
    ensures !MatchesAt(ShadowedFields, "title", k, whole)
  {
    if whole && (1 <= k <= 9 || k == 12) {
      NotAStart(k);
    } else {
      NotTitleAt(k);
    }
  }

  /** As written, the search for `title` stops inside `booktitle`. */
  lemma AsWrittenFindsBookTitle()
    ensures ExtractFieldAsWritten(ShadowedFields, "title") == Some("P")
  {
    forall k | 0 <= k < 4 ensures !MatchesAt(ShadowedFields, "title", k, false) {
      NothingBefore(k, false);
    }
    SearchFieldSkips(ShadowedFields, "title", 0, 4, false);
    BookTitleMatches();
    assert MatchesAt(ShadowedFields, "title", 4, false);
  }

  /** Matched as a whole word, the search for `title` finds the title. */
  lemma WholeWordFindsTitle()
    ensures ExtractField(ShadowedFields, "title") == Some("T")
  {
    forall k | 0 <= k < 14 ensures !MatchesAt(ShadowedFields, "title", k, true) {
      NothingBefore(k, true);
    }
    SearchFieldSkips(ShadowedFields, "title", 0, 14, true);
    TitleMatches();
    TitleStarts();
    assert MatchesAt(ShadowedFields, "title", 14, true);
  }

  // ---------------------------------------------------------------------
  // arXiv identifiers: `(\d{4}\.\d{4,5})`

  predicate DigitsIn(s: string, from: nat, to: nat)
    requires from <= to <= |s|
  {
    forall k :: from <= k < to ==> IsDigit(s[k])
  }

  /** The identifier pattern at `i`: four digits, a dot and four digits,
      with a fifth digit taken when there is one. */
  function ArxivAt(s: string, i: nat): (r: Option<string>)
    ensures r.Some? ==> |r.value| in {9, 10} && r.value[4] == '.'
    ensures r.Some? ==> forall k :: 0 <= k < |r.value| && k != 4 ==> IsDigit(r.value[k])
    ensures r.Some? ==> i + |r.value| <= |s| && s[i..i + |r.value|] == r.value
  {
    if i + 9 <= |s| && DigitsIn(s, i, i + 4) && s[i + 4] == '.' && DigitsIn(s, i + 5, i + 9) then
      Some(if i + 9 < |s| && IsDigit(s[i + 9]) then s[i..i + 10] else s[i..i + 9])
    else None
  }

  /** The leftmost identifier at or after `from`. */
  function ArxivSearch(s: string, from: nat): (r: Option<string>)
    ensures r.Some? ==> |r.value| in {9, 10} && r.value[4] == '.'
    ensures r.Some? ==> forall k :: 0 <= k < |r.value| && k != 4 ==> IsDigit(r.value[k])
    decreases |s| + 1 - from
  {
    if from > |s| then None
    else if ArxivAt(s, from).Some? then ArxivAt(s, from)
    else ArxivSearch(s, from + 1)
  }

  /** The identifier found occurs in the text, at the leftmost position
      where the pattern matches. */
  lemma {:induction false} ArxivSearchWitness(s: string, from: nat) returns (i: nat)
    requires ArxivSearch(s, from).Some?
    ensures from <= i && ArxivAt(s, i) == ArxivSearch(s, from)
    ensures forall k :: from <= k < i ==> ArxivAt(s, k).None?
    decreases |s| + 1 - from
  {
    if ArxivAt(s, from).Some? {
      i := from;
    } else {
      i := ArxivSearchWitness(s, from + 1);
    }
  }

  // ---------------------------------------------------------------------
  // Entries to references

  /** _parse_entry: no reference without a title; the journal falls back
      to the book title and then to the empty string; the arXiv
      identifier is the eprint field, or else one found in a journal
      naming arXiv. */
  function ParseEntry(key: string, fields: string): Option<Reference> {
    var title := ExtractField(fields, "title");
    if !Filled(title) then None
    else
      var j := ExtractField(fields, "journal");
      var b := ExtractField(fields, "booktitle");
      var journal := if Filled(j) then j.value else if Filled(b) then b.value else "";
      var eprint := ExtractField(fields, "eprint");
      var arxivId := if Filled(eprint) then eprint
                     else if Contains(Lower(journal), "arxiv") then ArxivSearch(journal, 0)
                     else None;
      Some(Reference(key, title.value, ExtractField(fields, "author"), ExtractField(fields, "year"),
                     Some(journal), ExtractField(fields, "doi"), arxivId))
  }

  /** What a parsed reference holds: an entry parses exactly when its
      title field is filled; the journal rule; the arXiv identifier is the
      eprint field when filled and otherwise has the identifier shape and
      occurs in a journal that names arXiv. */
  lemma ParseEntryFacts(key: string, fields: string)
    ensures ParseEntry(key, fields).Some? <==> Filled(ExtractField(fields, "title"))
    ensures ParseEntry(key, fields).Some? ==>
      var r := ParseEntry(key, fields).value;
      && r.key == key
      && r.title != "" && Unpadded(r.title)
      && Some(r.title) == ExtractField(fields, "title")
      && r.journal.Some?
      && (Filled(ExtractField(fields, "journal")) ==> r.journal == ExtractField(fields, "journal"))
      && (!Filled(ExtractField(fields, "journal")) && !Filled(ExtractField(fields, "booktitle")) ==> r.journal == Some(""))
      && (Filled(ExtractField(fields, "eprint")) ==> r.arxivId == ExtractField(fields, "eprint"))
      && (r.arxivId.Some? && !Filled(ExtractField(fields, "eprint")) ==>
            (&& Contains(Lower(r.journal.value), "arxiv")
             && |r.arxivId.value| in {9, 10}
             && exists i :: 0 <= i <= |r.journal.value| - |r.arxivId.value| && OccursAt(r.journal.value, r.arxivId.value, i)))
  {
    var r := ParseEntry(key, fields);
    if r.Some? && r.value.arxivId.Some? && !Filled(ExtractField(fields, "eprint")) {
      var journal := r.value.journal.value;
      var i := ArxivSearchWitness(journal, 0);
      assert OccursAt(journal, r.value.arxivId.value, i);
    }
  }

  /** parse_bib_file: the references of the entries that have a title, in
      the order of the text. */
  function ParseBib(content: string): (refs: seq<Reference>) {
    ParseEntries(Entries(content, 0))
  }

  function ParseEntries(es: seq<RawEntry>): (refs: seq<Reference>)
    ensures |refs| <= |es|
    ensures forall r :: r in refs ==> exists e :: e in es && ParseEntry(e.key, e.fields) == Some(r)
  {
    if |es| == 0 then []
    else
      var rest := ParseEntries(es[1..]);
      match ParseEntry(es[0].key, es[0].fields)
      case Some(r) => [r] + rest
      case None => rest
  }

  /** Every reference read from BibTeX text has a filled, stripped title
      and a stripped key without a comma. */
  lemma ParseBibFacts(content: string)
    ensures forall r :: r in ParseBib(content) ==>
      r.title != "" && Unpadded(r.title) && Unpadded(r.key) && ',' !in r.key
  {
    forall r | r in ParseBib(content)
      ensures r.title != "" && Unpadded(r.title) && Unpadded(r.key) && ',' !in r.key
    {
      var e :| e in Entries(content, 0) && ParseEntry(e.key, e.fields) == Some(r);
      ParseEntryFacts(e.key, e.fields);
    }
  }
}
