/** The Auto Rubric data-file parser: JSON, JSONL and CSV uploads turned
    into evaluation records, checked against the fields the evaluation mode
    needs. Decoding the upload as UTF-8 is a parameter (None when the bytes
    are not UTF-8), and so are the JSON parser, the float parser and the CSV
    reader (which yields the rows as header-keyed maps, or None when it
    raises). */
module RubricData {
  import opened Common
  import opened JsonValue
  import Helpers

  const MaxRecords := 500

  const PointwiseRequired: set<string> := {"query", "response", "label_score"}
  const ListwiseRequired: set<string> := {"query", "responses", "label_rank"}

  /** The required fields: pointwise mode has its own, every other mode
      the listwise ones. */
  function RequiredFields(mode: string): set<string> {
    if mode == "pointwise" then PointwiseRequired else ListwiseRequired
  }

  type Record = map<string, Json>

  datatype Warning =
    | MissingFields(record: nat, missing: set<string>)
    | EmptyValue(record: nat, field: string)

  datatype ParseError =
    | UnsupportedFormat(ext: string)
    | InvalidJson
    | NotAnArray
    | InvalidJsonLine(line: nat)
    | NoData
    | TooManyRecords(count: nat)
    | NoValidRecords
    | FailedFile   // an exception that reaches `parse_file`'s handler
    | FailedJsonl  // an exception inside `_parse_jsonl`
    | FailedCsv    // an exception inside `_parse_csv`

  datatype ParseResult =
    | Parsed(data: seq<Record>, totalCount: nat, warnings: seq<Warning>)
    | Failed(error: ParseError, warnings: seq<Warning>)

  // ----- Record validation -----

  /** A required value counts as given unless it is missing, None or "". */
  predicate Given(item: Record, field: string) {
    field in item && item[field] != JNull && item[field] != JStr("")
  }

  predicate Complete(item: Record, required: set<string>) {
    forall f :: f in required ==> Given(item, f)
  }

  /** `order` is the order in which iterating the required set visits it. */
  ghost predicate Enumerates(order: seq<string>, required: set<string>) {
    forall f :: f in order <==> f in required
  }

  /** The first field of `order` whose value is not given. */
  function FirstEmpty(item: Record, order: seq<string>): (r: Option<string>)
    ensures r.Some? ==> r.value in order && !Given(item, r.value)
    ensures r.None? <==> forall f :: f in order ==> Given(item, f)
    decreases |order|
  {
    if |order| == 0 then None
    else if !Given(item, order[0]) then Some(order[0])
    else
      assert forall f :: f in order ==> f == order[0] || f in order[1..];
      FirstEmpty(item, order[1..])
  }

  /** The warning record number `i` gets, or None when it is kept. */
  function Check(i: nat, item: Record, required: set<string>, order: seq<string>): Option<Warning> {
    var missing := required - item.Keys;
    if missing != {} then Some(MissingFields(i, missing))
    else
      match FirstEmpty(item, order)
      case Some(f) => Some(EmptyValue(i, f))
      case None => None
  }

  /** A record is kept exactly when every required field is given; otherwise
      its warning names its own number and either the missing fields or a
      required field that is empty. */
  lemma CheckKeeps(i: nat, item: Record, required: set<string>, order: seq<string>)
    requires Enumerates(order, required)
    ensures Check(i, item, required, order).None? <==> Complete(item, required)
    ensures Check(i, item, required, order).Some? ==> Check(i, item, required, order).value.record == i
    ensures var w := Check(i, item, required, order);
      w.Some? && w.value.MissingFields? ==> w.value.missing != {} && w.value.missing <= required && w.value.missing !! item.Keys
    ensures var w := Check(i, item, required, order);
      w.Some? && w.value.EmptyValue? ==> w.value.field in required && w.value.field in item && !Given(item, w.value.field)
  {
    var missing := required - item.Keys;
    if missing != {} {
      var f :| f in missing;
      assert !Given(item, f);
    } else {
      assert forall f :: f in required ==> f in item.Keys || f in missing;
    }
  }

  /** The records kept, in their original order (numbered from 1). */
  function Kept(items: seq<Record>, required: set<string>, order: seq<string>): (r: seq<Record>)
    ensures |r| <= |items|
    decreases |items|
  {
    if |items| == 0 then []
    else
      var before := Kept(items[..|items| - 1], required, order);
      if Check(|items|, items[|items| - 1], required, order).None? then before + [items[|items| - 1]] else before
  }

  /** The warnings, one per dropped record, in order. */
  function Warnings(items: seq<Record>, required: set<string>, order: seq<string>): seq<Warning>
    decreases |items|
  {
    if |items| == 0 then []
    else
      var before := Warnings(items[..|items| - 1], required, order);
      match Check(|items|, items[|items| - 1], required, order)
      case Some(w) => before + [w]
      case None => before
  }

  /** The complete records in order: the reference the check is held to. */
  function CompleteRecords(items: seq<Record>, required: set<string>): seq<Record>
    decreases |items|
  {
    if |items| == 0 then []
    else
      var before := CompleteRecords(items[..|items| - 1], required);
      if Complete(items[|items| - 1], required) then before + [items[|items| - 1]] else before
  }

  /** Kept records are exactly the complete ones, in order; every other
      record leaves one warning. */
  lemma {:induction false} KeptFacts(items: seq<Record>, required: set<string>, order: seq<string>)
    requires Enumerates(order, required)
    ensures Kept(items, required, order) == CompleteRecords(items, required)
    ensures |Kept(items, required, order)| + |Warnings(items, required, order)| == |items|
    decreases |items|
  {
    if |items| > 0 {
      KeptFacts(items[..|items| - 1], required, order);
      CheckKeeps(|items|, items[|items| - 1], required, order);
    }
  }

  /** A record is among the complete ones exactly when it is complete and
      one of the inputs. */
  lemma {:induction false} CompleteRecordsMembers(items: seq<Record>, required: set<string>, x: Record)
    ensures x in CompleteRecords(items, required) <==> x in items && Complete(x, required)
    decreases |items|
  {
    if |items| > 0 {
      var init := items[..|items| - 1];
      CompleteRecordsMembers(init, required, x);
      assert items == init + [items[|items| - 1]];
    }
  }

  predicate AllObjects(data: seq<Json>) {
    forall i :: 0 <= i < |data| ==> data[i].JObj?
  }

  function Objects(data: seq<Json>): (r: seq<Record>)
    requires AllObjects(data)
    ensures |r| == |data| && forall i :: 0 <= i < |data| ==> r[i] == data[i].fields
  {
    seq(|data|, i requires 0 <= i < |data| => data[i].fields)
  }

  /** `_validate_and_return`. A record that is not an object makes
      `item.keys()` raise, which the caller's handler reports as `raised`. */
  function Validate(data: seq<Json>, mode: string, order: seq<string>, raised: ParseError): (r: ParseResult)
    ensures r.Failed? && (r.error.InvalidJsonLine? || r.error.UnsupportedFormat?) ==> r.error == raised
  {
    if |data| == 0 then Failed(NoData, [])
    else if |data| > MaxRecords then Failed(TooManyRecords(|data|), [])
    else if !AllObjects(data) then Failed(raised, [])
    else
      var items := Objects(data);
      var required := RequiredFields(mode);
      var kept := Kept(items, required, order);
      var warnings := Warnings(items, required, order);
      if |kept| == 0 then Failed(NoValidRecords, warnings) else Parsed(kept, |kept|, warnings)
  }

  /** Validation succeeds with 1 to 500 records, each a complete input
      record, all complete inputs among them, and `totalCount` their number;
      the empty input, more than 500 records and no complete record fail. */
  lemma ValidateFacts(data: seq<Json>, mode: string, order: seq<string>, raised: ParseError)
    requires Enumerates(order, RequiredFields(mode))
    ensures var r := Validate(data, mode, order, raised);
      (|data| == 0 ==> r == Failed(NoData, [])) &&
      (|data| > MaxRecords ==> r == Failed(TooManyRecords(|data|), [])) &&
      (r.Parsed? ==>
        1 <= r.totalCount == |r.data| <= MaxRecords && AllObjects(data) &&
        r.data == CompleteRecords(Objects(data), RequiredFields(mode)) &&
        |r.data| + |r.warnings| == |data|) &&
      (0 < |data| <= MaxRecords && AllObjects(data) ==>
        (r.Failed? <==> CompleteRecords(Objects(data), RequiredFields(mode)) == []))
  {
    if 0 < |data| <= MaxRecords && AllObjects(data) {
      KeptFacts(Objects(data), RequiredFields(mode), order);
    }
  }

  /** One more object extends the objects read so far by its fields. */
  lemma ObjectsStep(data: seq<Json>, i: nat)
    requires i < |data| && AllObjects(data[..i]) && data[i].JObj?
    ensures AllObjects(data[..i + 1])
    ensures Objects(data[..i + 1]) == Objects(data[..i]) + [data[i].fields]
  {
    assert data[..i + 1] == data[..i] + [data[i]];
  }

  /** Checking one more record keeps it or adds its warning. */
  lemma KeptStep(items: seq<Record>, item: Record, required: set<string>, order: seq<string>)
    ensures var w := Check(|items| + 1, item, required, order);
      Kept(items + [item], required, order) == Kept(items, required, order) + (if w.None? then [item] else []) &&
      Warnings(items + [item], required, order) == Warnings(items, required, order) + (if w.Some? then [w.value] else [])
  {
    assert (items + [item])[..|items|] == items;
  }

  /** `_validate_and_return`. */
  method ValidateAndReturn(data: seq<Json>, mode: string, order: seq<string>, raised: ParseError) returns (r: ParseResult)
    ensures r == Validate(data, mode, order, raised)
  {
    if |data| == 0 {
      return Failed(NoData, []);
    }
    if |data| > MaxRecords {
      return Failed(TooManyRecords(|data|), []);
    }
    var required := if mode == "pointwise" then PointwiseRequired else ListwiseRequired;
    var warnings: seq<Warning> := [];
    var valid: seq<Record> := [];
    for i := 0 to |data|
      invariant AllObjects(data[..i])
      invariant valid == Kept(Objects(data[..i]), required, order)
      invariant warnings == Warnings(Objects(data[..i]), required, order)
    {
      if !data[i].JObj? {
        assert !AllObjects(data);
        return Failed(raised, []);
      }
      var item := data[i].fields;
      ObjectsStep(data, i);
      KeptStep(Objects(data[..i]), item, required, order);
      var w := CheckRecord(i + 1, item, required, order);
      if w.Some? {
        warnings := warnings + [w.value];
      } else {
        valid := valid + [item];
      }
    }
    assert data[..|data|] == data;
    if |valid| == 0 {
      return Failed(NoValidRecords, warnings);
    }
    return Parsed(valid, |valid|, warnings);
  }

  /** One record's check: the missing required fields, else the first
      empty one in iteration order. */
  method CheckRecord(i: nat, item: Record, required: set<string>, order: seq<string>) returns (w: Option<Warning>)
    ensures w == Check(i, item, required, order)
  {
    var missing := required - item.Keys;
    if missing != {} {
      return Some(MissingFields(i, missing));
    }
    w := None;
    var n := 0;
    while n < |order|
      invariant 0 <= n <= |order|
      invariant FirstEmpty(item, order) == FirstEmpty(item, order[n..])
    {
      var field := order[n];
      if !(field in item) || item[field] == JNull || item[field] == JStr("") {
        return Some(EmptyValue(i, field));
      }
      assert order[n..][1..] == order[n + 1..];
      n := n + 1;
    }
  }

  // ----- JSON -----

  /** `_parse_json`: `{"data": [...]}` is unwrapped; anything but an array
      fails. A decoding error reaches `parse_file`'s handler. */
  function ParseJson(text: Option<string>, mode: string, order: seq<string>, parse: string -> Option<Json>): (r: ParseResult)
    ensures text.None? ==> r == Failed(FailedFile, [])
    ensures !(r.Failed? && r.error.UnsupportedFormat?)
    ensures text.Some? && parse(text.value).None? ==> r == Failed(InvalidJson, [])
  {
    if text.None? then Failed(FailedFile, [])
    else
      match parse(text.value)
      case None => Failed(InvalidJson, [])
      case Some(d) =>
        var body := if d.JObj? && "data" in d.fields then d.fields["data"] else d;
        if !body.JArr? then Failed(NotAnArray, []) else Validate(body.items, mode, order, FailedFile)
  }

  /** A bare array and the same array under "data" parse alike; any other
      document fails with NotAnArray. */
  lemma ParseJsonShapes(text: string, mode: string, order: seq<string>, parse: string -> Option<Json>, items: seq<Json>)
    ensures parse(text) == Some(JArr(items)) ==> ParseJson(Some(text), mode, order, parse) == Validate(items, mode, order, FailedFile)
    ensures parse(text).Some? && parse(text).value.JObj? && "data" in parse(text).value.fields && parse(text).value.fields["data"] == JArr(items) ==>
      ParseJson(Some(text), mode, order, parse) == Validate(items, mode, order, FailedFile)
    ensures parse(text).Some? && !parse(text).value.JArr? && !(parse(text).value.JObj? && "data" in parse(text).value.fields) ==>
      ParseJson(Some(text), mode, order, parse) == Failed(NotAnArray, [])
  {
  }

  // ----- JSONL -----

  datatype Lines = Items(items: seq<Json>) | BadLine(line: nat)

  /** The JSONL loop over `lines`, numbered from 1: blank lines are skipped,
      the others parsed once stripped; the first one that does not parse
      stops the loop. */
  function ParseLines(lines: seq<string>, parse: string -> Option<Json>): (r: Lines)
    ensures r.BadLine? ==> 1 <= r.line <= |lines|
    decreases |lines|
  {
    if |lines| == 0 then Items([])
    else
      var before := ParseLines(lines[..|lines| - 1], parse);
      var line := Trim(lines[|lines| - 1]);
      if before.BadLine? || line == "" then before
      else
        match parse(line)
        case None => BadLine(|lines|)
        case Some(v) => Items(before.items + [v])
  }

  /** The line reported is the first non-blank line that does not parse. */
  lemma {:induction false} BadLineIsFirst(lines: seq<string>, parse: string -> Option<Json>)
    ensures var r := ParseLines(lines, parse);
      r.BadLine? ==>
        Trim(lines[r.line - 1]) != "" && parse(Trim(lines[r.line - 1])).None? &&
        forall j :: 0 <= j < r.line - 1 ==> Trim(lines[j]) == "" || parse(Trim(lines[j])).Some?
    ensures var r := ParseLines(lines, parse);
      r.Items? ==> forall j :: 0 <= j < |lines| ==> Trim(lines[j]) == "" || parse(Trim(lines[j])).Some?
    decreases |lines|
  {
    if |lines| > 0 {
      var init := lines[..|lines| - 1];
      BadLineIsFirst(init, parse);
      assert forall j :: 0 <= j < |init| ==> init[j] == lines[j];
    }
  }

  /** The JSONL loop. */
  method ParseJsonlLines(lines: seq<string>, parse: string -> Option<Json>) returns (r: Lines)
    ensures r == ParseLines(lines, parse)
  {
    var data: seq<Json> := [];
    for i := 0 to |lines|
      invariant ParseLines(lines[..i], parse) == Items(data)
    {
      assert lines[..i + 1][..i] == lines[..i];
      var line := Trim(lines[i]);
      if line == "" {
        continue;
      }
      var item := parse(line);
      if item.None? {
        BadLineStays(lines, parse, i + 1);
        return BadLine(i + 1);
      }
      data := data + [item.value];
    }
    assert lines[..|lines|] == lines;
    return Items(data);
  }

  /** Once a line is bad, later lines change nothing. */
  lemma {:induction false} BadLineStays(lines: seq<string>, parse: string -> Option<Json>, n: nat)
    requires 1 <= n <= |lines|
    requires ParseLines(lines[..n], parse).BadLine?
    ensures ParseLines(lines, parse) == ParseLines(lines[..n], parse)
    decreases |lines|
  {
    if n < |lines| {
      var init := lines[..|lines| - 1];
      assert init[..n] == lines[..n];
      BadLineStays(init, parse, n);
    } else {
      assert lines[..n] == lines;
    }
  }

  /** `_parse_jsonl` as written: the text is stripped before it is split
      into lines, so the number it reports counts from the first non-blank
      line rather than from the top of the file. */
  function ParseJsonlAsWritten(text: Option<string>, mode: string, order: seq<string>, parse: string -> Option<Json>): ParseResult {
    if text.None? then Failed(FailedJsonl, [])
    else
      match ParseLines(Split(Trim(text.value), '\n'), parse)
      case BadLine(n) => Failed(InvalidJsonLine(n), [])
      case Items(items) => Validate(items, mode, order, FailedJsonl)
  }

  /** `_parse_jsonl` splitting the text itself, so that line numbers are
      the file's; blank lines at either end are still skipped. */
  function ParseJsonl(text: Option<string>, mode: string, order: seq<string>, parse: string -> Option<Json>): (r: ParseResult)
    ensures text.None? ==> r == Failed(FailedJsonl, [])
    ensures !(r.Failed? && r.error.UnsupportedFormat?)
  {
    if text.None? then Failed(FailedJsonl, [])
    else
      match ParseLines(Split(text.value, '\n'), parse)
      case BadLine(n) => Failed(InvalidJsonLine(n), [])
      case Items(items) => Validate(items, mode, order, FailedJsonl)
  }

  /** A reported line is the file's line `n`: not blank, not parsing, and
      every line above it blank or parsing. */
  lemma JsonlReportsFileLine(text: string, mode: string, order: seq<string>, parse: string -> Option<Json>)
    ensures var r := ParseJsonl(Some(text), mode, order, parse);
      var lines := Split(text, '\n');
      r.Failed? && r.error.InvalidJsonLine? ==>
        1 <= r.error.line <= |lines| &&
        Trim(lines[r.error.line - 1]) != "" && parse(Trim(lines[r.error.line - 1])).None? &&
        forall j :: 0 <= j < r.error.line - 1 ==> Trim(lines[j]) == "" || parse(Trim(lines[j])).Some?
  {
    var lines := Split(text, '\n');
    BadLineIsFirst(lines, parse);
  }

  /** A file whose first line is empty and whose second line is bad: as
      written the bad line is reported as line 1; splitting the text
      itself reports line 2. */
  lemma AsWrittenMisnumbersLine(bad: string, mode: string, order: seq<string>, parse: string -> Option<Json>)
    requires |bad| > 0 && !IsSpace(bad[0]) && !IsSpace(bad[|bad| - 1]) && '\n' !in bad
    requires parse(bad).None?
    ensures ParseJsonlAsWritten(Some("\n" + bad), mode, order, parse) == Failed(InvalidJsonLine(1), [])
    ensures ParseJsonl(Some("\n" + bad), mode, order, parse) == Failed(InvalidJsonLine(2), [])
  {
    var text := "\n" + bad;
    assert LeadingSpace(text) == 1 by {
      assert text[1..] == bad;
    }
    assert text[1..] == bad;
    TrimUnspaced(bad);
    assert Trim(text) == bad by {
      assert TrailingSpace(bad) == 0;
    }
    assert Split(bad, '\n') == [bad];
    assert ParseLines([bad], parse) == BadLine(1) by {
      assert [bad][..0] == [];
    }
    assert IndexOfChar(text, '\n') == 0;
    assert text[..0] == "" && text[1..] == bad;
    assert Split(text, '\n') == ["", bad];
    var lines := ["", bad];
    assert lines[..1] == [""];
    assert [""][..0] == [];
    assert Trim("") == "";
    assert ParseLines(lines[..1], parse) == Items([]);
  }

  // ----- CSV -----

  /** One CSV row as `_parse_csv` builds it: empty cells become None; a
      non-empty label_score becomes a float when it parses; non-empty
      label_rank and responses cells become JSON when they parse. */
  function CsvItem(row: map<string, string>, parse: string -> Option<Json>, parseFloat: string -> Option<real>): (item: Record)
    ensures item.Keys == row.Keys
    ensures forall k :: k in row && row[k] == "" ==> item[k] == JNull
  {
    var base := map k | k in row :: if row[k] == "" then JNull else JStr(row[k]);
    var scored := if "label_score" in row && row["label_score"] != "" && parseFloat(row["label_score"]).Some?
      then base["label_score" := JNum(parseFloat(row["label_score"]).value)] else base;
    var ranked := if "label_rank" in row && row["label_rank"] != "" && parse(row["label_rank"]).Some?
      then scored["label_rank" := parse(row["label_rank"]).value] else scored;
    if "responses" in row && row["responses"] != "" && parse(row["responses"]).Some?
    then ranked["responses" := parse(row["responses"]).value] else ranked
  }

  /** A row with an empty cell for a required field is never kept. */
  lemma EmptyCellDropsRow(row: map<string, string>, parse: string -> Option<Json>, parseFloat: string -> Option<real>,
                          required: set<string>, field: string)
    requires field in required && field in row && row[field] == ""
    ensures !Complete(CsvItem(row, parse, parseFloat), required)
  {
    assert !Given(CsvItem(row, parse, parseFloat), field);
  }

  /** `_parse_csv`: every row becomes an object record. */
  function ParseCsv(text: Option<string>, mode: string, order: seq<string>, parse: string -> Option<Json>,
                    parseFloat: string -> Option<real>, readRows: string -> Option<seq<map<string, string>>>): (r: ParseResult)
    ensures text.None? || readRows(text.value).None? ==> r == Failed(FailedCsv, [])
    ensures !(r.Failed? && r.error.UnsupportedFormat?)
  {
    if text.None? then Failed(FailedCsv, [])
    else
      match readRows(text.value)
      case None => Failed(FailedCsv, [])
      case Some(rows) =>
        Validate(seq(|rows|, i requires 0 <= i < |rows| => JObj(CsvItem(rows[i], parse, parseFloat))), mode, order, FailedCsv)
  }

  // ----- Dispatch -----

  /** The lower-cased extension after the last dot, or "" without a dot. */
  function Extension(filename: string): string {
    if '.' in filename then Helpers.AfterLastDot(Lower(filename)) else ""
  }

  /** `parse_file`. */
  function ParseFile(content: Option<string>, filename: string, mode: string, order: seq<string>,
                     parse: string -> Option<Json>, parseFloat: string -> Option<real>,
                     readRows: string -> Option<seq<map<string, string>>>): (r: ParseResult)
    ensures r.Failed? && r.error.UnsupportedFormat? <==>
      Extension(filename) != "json" && Extension(filename) != "jsonl" && Extension(filename) != "csv"
    ensures r.Failed? && r.error.UnsupportedFormat? ==> r.error.ext == Extension(filename)
  {
    var ext := Extension(filename);
    if ext == "json" then ParseJson(content, mode, order, parse)
    else if ext == "jsonl" then ParseJsonl(content, mode, order, parse)
    else if ext == "csv" then ParseCsv(content, mode, order, parse, parseFloat, readRows)
    else Failed(UnsupportedFormat(ext), [])
  }

  /** A successful validation holds 1 to 500 records, each complete. */
  lemma ParsedFacts(data: seq<Json>, mode: string, order: seq<string>, raised: ParseError)
    requires Enumerates(order, RequiredFields(mode))
    ensures var r := Validate(data, mode, order, raised);
      r.Parsed? ==> 1 <= r.totalCount == |r.data| <= MaxRecords && forall x :: x in r.data ==> Complete(x, RequiredFields(mode))
  {
    var r := Validate(data, mode, order, raised);
    if r.Parsed? {
      ValidateFacts(data, mode, order, raised);
      forall x | x in r.data ensures Complete(x, RequiredFields(mode)) {
        CompleteRecordsMembers(Objects(data), RequiredFields(mode), x);
      }
    }
  }

  /** A successful parse holds 1 to 500 complete records. */
  lemma ParseFileFacts(content: Option<string>, filename: string, mode: string, order: seq<string>,
                       parse: string -> Option<Json>, parseFloat: string -> Option<real>,
                       readRows: string -> Option<seq<map<string, string>>>)
    requires Enumerates(order, RequiredFields(mode))
    ensures var r := ParseFile(content, filename, mode, order, parse, parseFloat, readRows);
      r.Parsed? ==> 1 <= r.totalCount == |r.data| <= MaxRecords && forall x :: x in r.data ==> Complete(x, RequiredFields(mode))
  {
    var ext := Extension(filename);
    if content.Some? {
      var text := content.value;
      if ext == "json" && parse(text).Some? {
        var d := parse(text).value;
        var body := if d.JObj? && "data" in d.fields then d.fields["data"] else d;
        if body.JArr? {
          ParsedFacts(body.items, mode, order, FailedFile);
        }
      } else if ext == "jsonl" {
        var l := ParseLines(Split(text, '\n'), parse);
        if l.Items? {
          ParsedFacts(l.items, mode, order, FailedJsonl);
        }
      } else if ext == "csv" && readRows(text).Some? {
        var rows := readRows(text).value;
        ParsedFacts(seq(|rows|, i requires 0 <= i < |rows| => JObj(CsvItem(rows[i], parse, parseFloat))), mode, order, FailedCsv);
      }
    }
  }

  // ----- Preview -----

  /** A value as the preview shows it: strings over 100 characters cut to
      100 plus "...", lists over 3 items cut to 3 plus "...". */
  function PreviewValue(v: Json): (p: Json)
    ensures v.JStr? && |v.s| > 100 ==> p == JStr(v.s[..100] + "...")
    ensures v.JArr? && |v.items| > 3 ==> p == JArr(v.items[..3] + [JStr("...")])
    ensures !(v.JStr? && |v.s| > 100) && !(v.JArr? && |v.items| > 3) ==> p == v
  {
    if v.JStr? && |v.s| > 100 then JStr(v.s[..100] + "...")
    else if v.JArr? && |v.items| > 3 then JArr(v.items[..3] + [JStr("...")])
    else v
  }

  function PreviewItem(item: Record): (p: Record)
    ensures p.Keys == item.Keys
  {
    map k | k in item :: PreviewValue(item[k])
  }

  /** Previewed strings have at most 103 characters and previewed lists at
      most 4 items, each cut value starting like the original. */
  lemma PreviewBounds(v: Json)
    ensures PreviewValue(v).JStr? ==> |PreviewValue(v).s| <= 103 || PreviewValue(v) == v
    ensures v.JStr? ==> PreviewValue(v).JStr? && |PreviewValue(v).s| <= MaxInt(|v.s|, 103)
    ensures v.JStr? ==> PreviewValue(v).s[..MinInt(|v.s|, 100)] == v.s[..MinInt(|v.s|, 100)]
    ensures v.JArr? ==> PreviewValue(v).JArr? && |PreviewValue(v).items| <= MaxInt(|v.items|, 4)
    ensures v.JArr? ==> PreviewValue(v).items[..MinInt(|v.items|, 3)] == v.items[..MinInt(|v.items|, 3)]
  {
  }

  /** `get_preview`: at most `maxItems` records from the front (a Python
      slice, so a negative count drops records from the end). */
  method GetPreview(data: seq<Record>, maxItems: int) returns (preview: seq<Record>)
    ensures |preview| == |Slice(data, 0, maxItems)|
    ensures forall i :: 0 <= i < |preview| ==> preview[i] == PreviewItem(Slice(data, 0, maxItems)[i])
    ensures maxItems >= 0 ==> |preview| == MinInt(|data|, maxItems)
  {
    var shown := Slice(data, 0, maxItems);
    preview := [];
    for i := 0 to |shown|
      invariant |preview| == i
      invariant forall j :: 0 <= j < i ==> preview[j] == PreviewItem(shown[j])
    {
      var item := shown[i];
      var p: Record := map[];
      ghost var done: set<string> := {};
      var keys := item.Keys;
      while keys != {}
        invariant keys !! done && keys + done == item.Keys
        invariant p == map k | k in done :: PreviewValue(item[k])
        decreases keys
      {
        var k :| k in keys;
        p := p[k := PreviewValue(item[k])];
        keys := keys - {k};
        done := done + {k};
      }
      assert done == item.Keys;
      preview := preview + [p];
    }
  }
}
