/** Studio's translation lookup. The UI language is kept in the session
    state under "_ui_language"; the first lookup of a session may take it
    from the page's "lang" query parameter, which is a parameter here
    (None when the URL has none). Translated texts may hold replacement
    fields "{name}" that are filled from keyword arguments, given here as
    already rendered strings. */
module I18n {
  import opened Common
  import opened JsonValue
  import opened SessionManager
  import opened Translations

  const LanguageKey := "_ui_language"
  const InitializedKey := "_ui_language_initialized"
  const DefaultLanguage := "zh"

  /** The codes of SUPPORTED_LANGUAGES. */
  predicate Supported(lang: string) {
    lang == "zh" || lang == "en"
  }

  /** `get_available_languages`: code to display name. */
  function AvailableLanguages(): (r: map<string, string>)
    ensures forall lang :: lang in r <==> Supported(lang)
  {
    map["zh" := "中文", "en" := "English"]
  }

  // ----- Formatting: str.format with keyword arguments only -----

  /** What formatting yields: the text, or the exception it raises. */
  datatype Formatted =
    | Text(s: string)
    | MissingKey(name: string)  // KeyError: a field names no argument
    | BadFormat                 // ValueError: an unmatched brace
    | BadIndex                  // IndexError: a positional field, with no positional arguments

  function Prepend(p: string, r: Formatted): (q: Formatted)
    ensures q.Text? <==> r.Text?
    ensures r.Text? ==> q.s == p + r.s
    ensures !r.Text? ==> q == r
  {
    if r.Text? then Text(p + r.s) else r
  }

  /** The index of the first brace of `s`, or |s| when it has none. */
  function BraceAt(s: string): (j: nat)
    ensures j <= |s|
    ensures forall i :: 0 <= i < j ==> s[i] != '{' && s[i] != '}'
    ensures j < |s| ==> s[j] == '{' || s[j] == '}'
  {
    if |s| == 0 || s[0] == '{' || s[0] == '}' then 0 else 1 + BraceAt(s[1..])
  }

  /** `text.format(**args)`, read left to right: "{{" and "}}" stand for
      single braces; "{name}" is replaced by the argument `name`; an empty
      or all-digit field is positional; any other brace is an error. */
  function Format(text: string, args: map<string, string>): Formatted
    decreases |text|
  {
    if |text| == 0 then Text("")
    else if text[0] == '{' then
      if |text| >= 2 && text[1] == '{' then Prepend("{", Format(text[2..], args))
      else
        var rest := text[1..];
        var j := BraceAt(rest);
        if j == |rest| || rest[j] == '{' then BadFormat
        else
          var name := rest[..j];
          if name == "" || AllDigits(name) then BadIndex
          else if name !in args then MissingKey(name)
          else Prepend(args[name], Format(rest[j + 1..], args))
    else if text[0] == '}' then
      if |text| >= 2 && text[1] == '}' then Prepend("}", Format(text[2..], args)) else BadFormat
    else Prepend(text[..1], Format(text[1..], args))
  }

  /** Doubles every brace, so that formatting gives the text back. */
  function Escape(s: string): (r: string)
    ensures |r| >= |s|
  {
    if |s| == 0 then ""
    else if s[0] == '{' || s[0] == '}' then [s[0], s[0]] + Escape(s[1..])
    else [s[0]] + Escape(s[1..])
  }

  /** Formatting reads an escaped text back as itself and goes on with
      what follows it. */
  lemma {:induction false} FormatEscaped(s: string, rest: string, args: map<string, string>)
    ensures Format(Escape(s) + rest, args) == Prepend(s, Format(rest, args))
    decreases |s|
  {
    if |s| > 0 {
      var t := Escape(s) + rest;
      var r := Format(rest, args);
      FormatEscaped(s[1..], rest, args);
      var tail := Format(Escape(s[1..]) + rest, args);
      assert tail == Prepend(s[1..], r);
      if s[0] == '{' || s[0] == '}' {
        assert Escape(s) == [s[0], s[0]] + Escape(s[1..]);
        assert t[0] == s[0] && t[1] == s[0];
        assert t[2..] == Escape(s[1..]) + rest;
        assert Format(t, args) == Prepend([s[0]], tail);
      } else {
        assert Escape(s) == [s[0]] + Escape(s[1..]);
        assert t[1..] == Escape(s[1..]) + rest;
        assert t[..1] == [s[0]];
        assert Format(t, args) == Prepend([s[0]], tail);
      }
      assert s == [s[0]] + s[1..];
      if r.Text? {
        assert [s[0]] + (s[1..] + r.s) == s + r.s;
      }
    } else {
      assert Escape(s) + rest == rest;
    }
  }

  /** A text without braces formats to itself, whatever the arguments. */
  lemma PlainFormatsToItself(s: string, args: map<string, string>)
    requires forall i :: 0 <= i < |s| ==> s[i] != '{' && s[i] != '}'
    ensures Format(s, args) == Text(s)
  {
    EscapePlain(s);
    FormatEscaped(s, "", args);
    assert s + "" == s;
  }

  lemma {:induction false} EscapePlain(s: string)
    requires forall i :: 0 <= i < |s| ==> s[i] != '{' && s[i] != '}'
    ensures Escape(s) == s
    decreases |s|
  {
    if |s| > 0 {
      EscapePlain(s[1..]);
      assert s == [s[0]] + s[1..];
    }
  }

  /** A field name that is neither positional nor holding a brace. */
  predicate KeywordField(name: string) {
    name != "" && !AllDigits(name) && forall i :: 0 <= i < |name| ==> name[i] != '{' && name[i] != '}'
  }

  /** A keyword field is replaced by its argument and formatting goes on
      after it; with the argument missing, formatting raises KeyError. */
  lemma FormatField(name: string, rest: string, args: map<string, string>)
    requires KeywordField(name)
    ensures name in args ==> Format("{" + name + "}" + rest, args) == Prepend(args[name], Format(rest, args))
    ensures name !in args ==> Format("{" + name + "}" + rest, args) == MissingKey(name)
  {
    var text := "{" + name + "}" + rest;
    var tail := text[1..];
    assert tail == name + "}" + rest;
    BraceAtField(name, rest);
    assert tail[..|name|] == name;
    assert tail[|name| + 1..] == rest;
  }

  lemma BraceAtField(name: string, rest: string)
    requires forall i :: 0 <= i < |name| ==> name[i] != '{' && name[i] != '}'
    ensures BraceAt(name + "}" + rest) == |name|
    decreases |name|
  {
    if |name| > 0 {
      assert (name + "}" + rest)[1..] == name[1..] + "}" + rest;
      BraceAtField(name[1..], rest);
    }
  }

  /** A field with nothing between its braces, or only digits, raises
      IndexError: `t` passes keyword arguments only. */
  lemma PositionalFieldRaises(name: string, rest: string, args: map<string, string>)
    requires name == "" || (AllDigits(name) && forall i :: 0 <= i < |name| ==> name[i] != '{' && name[i] != '}')
    ensures Format("{" + name + "}" + rest, args) == BadIndex
  {
    var text := "{" + name + "}" + rest;
    assert text[1..] == name + "}" + rest;
    BraceAtField(name, rest);
    assert text[1..][..|name|] == name;
  }

  /** A brace that is never closed raises ValueError. */
  lemma UnclosedFieldRaises(s: string, args: map<string, string>)
    requires forall i :: 0 <= i < |s| ==> s[i] != '{' && s[i] != '}'
    ensures Format("{" + s, args) == BadFormat
  {
    assert ("{" + s)[1..] == s;
  }

  // ----- Lookup -----

  /** `translations.get(lang, {})`. */
  function TableFor(translations: map<string, map<string, string>>, lang: Json): (table: map<string, string>)
    ensures lang.JStr? && lang.s in translations ==> table == translations[lang.s]
    ensures !(lang.JStr? && lang.s in translations) ==> table == map[]
  {
    if lang.JStr? && lang.s in translations then translations[lang.s] else map[]
  }

  /** The text `t` looks up for `key` before formatting: the current
      language's, else English's unless English is current, else the key. */
  function Lookup(translations: map<string, map<string, string>>, lang: Json, key: string): string {
    var current := TableFor(translations, lang);
    var english := TableFor(translations, JStr("en"));
    if key in current then current[key]
    else if lang != JStr("en") && key in english then english[key]
    else key
  }

  /** The fallback chain: the key comes back only when neither the current
      language nor English has it, and a text in another language is never
      shown. */
  lemma LookupFallback(translations: map<string, map<string, string>>, lang: string, key: string)
    ensures var r := Lookup(translations, JStr(lang), key);
      var current := if lang in translations then translations[lang] else map[];
      var english := if "en" in translations then translations["en"] else map[];
      (key in current ==> r == current[key]) &&
      (key !in current && key in english ==> r == english[key]) &&
      (key !in current && key !in english ==> r == key)
  {
  }

  /** `t(key, **args)` once the language is known: a KeyError or ValueError
      from formatting gives back the unformatted text; an IndexError is
      not caught. */
  function Translate(translations: map<string, map<string, string>>, lang: Json, key: string, args: map<string, string>): Result<string> {
    var text := Lookup(translations, lang, key);
    if args == map[] then Ok(text)
    else
      match Format(text, args)
      case Text(s) => Ok(s)
      case MissingKey(_) => Ok(text)
      case BadFormat => Ok(text)
      case BadIndex => Err("IndexError")
  }

  /** Without arguments `t` returns the looked-up text as it is. */
  lemma TranslateWithoutArgs(translations: map<string, map<string, string>>, lang: Json, key: string)
    ensures Translate(translations, lang, key, map[]) == Ok(Lookup(translations, lang, key))
  {
  }

  /** A field whose argument is missing leaves the text unformatted. */
  lemma TranslateMissingArgument(translations: map<string, map<string, string>>, lang: Json, key: string, args: map<string, string>,
                                 before: string, name: string, after: string)
    requires Lookup(translations, lang, key) == Escape(before) + "{" + name + "}" + after
    requires KeywordField(name) && name !in args && args != map[]
    ensures Translate(translations, lang, key, args) == Ok(Lookup(translations, lang, key))
  {
    var text := Lookup(translations, lang, key);
    var field := "{" + name + "}" + after;
    assert Escape(before) + field == text;
    FormatEscaped(before, field, args);
    FormatField(name, after, args);
    assert Format(text, args) == MissingKey(name);
  }

  /** A text with one keyword field formats to the text around the field
      with the argument in its place. */
  lemma FormatOneField(before: string, name: string, after: string, args: map<string, string>)
    requires KeywordField(name) && name in args
    ensures Format(Escape(before) + ("{" + name + "}" + Escape(after)), args) == Text(before + args[name] + after)
  {
    FormatEscaped(before, "{" + name + "}" + Escape(after), args);
    FieldThenText(name, after, args);
    assert before + (args[name] + after) == before + args[name] + after;
  }

  lemma FieldThenText(name: string, after: string, args: map<string, string>)
    requires KeywordField(name) && name in args
    ensures Format("{" + name + "}" + Escape(after), args) == Text(args[name] + after)
  {
    FormatField(name, Escape(after), args);
    FormatEscaped(after, "", args);
    assert Escape(after) + "" == Escape(after);
  }

  /** `t` fills in a keyword field whose argument is given. */
  lemma TranslateFillsField(translations: map<string, map<string, string>>, lang: Json, key: string, args: map<string, string>,
                            before: string, name: string, after: string)
    requires Lookup(translations, lang, key) == Escape(before) + ("{" + name + "}" + Escape(after))
    requires KeywordField(name) && name in args
    ensures Translate(translations, lang, key, args) == Ok(before + args[name] + after)
  {
    FormatOneField(before, name, after, args);
  }

  /** With the tables merged as written, an auto-rubric key shows as the
      key itself in either language; merged with the auto-rubric table, it
      shows that table's text. */
  lemma RubricKeyShown(en: Tables, zh: Tables, lang: string, key: string)
    requires Supported(lang)
    requires key !in en.common && key !in en.grader && key !in en.autoArena
    requires key !in zh.common && key !in zh.grader && key !in zh.autoArena
    requires key in en.autoRubric && key in zh.autoRubric
    ensures Lookup(AllTranslationsAsWritten(en, zh), JStr(lang), key) == key
    ensures Lookup(AllTranslations(en, zh), JStr(lang), key) == (if lang == "en" then en.autoRubric[key] else zh.autoRubric[key])
  {
    AsWrittenDropsRubricKeys(en, zh, key);
    AllTranslationsComplete(en, zh, key);
  }

  // ----- Session state -----

  /** The language stored in the session, or the default. */
  function LanguageOf(values: map<string, Json>): (lang: Json)
    ensures LanguageKey !in values ==> lang == JStr(DefaultLanguage)
  {
    if LanguageKey in values then values[LanguageKey] else JStr(DefaultLanguage)
  }

  /** The session stores only supported language codes. */
  ghost predicate LanguageOk(values: map<string, Json>) {
    LanguageKey in values ==> values[LanguageKey].JStr? && Supported(values[LanguageKey].s)
  }

  /** Under that invariant the current language is always a supported code. */
  lemma LanguageIsSupported(values: map<string, Json>)
    requires LanguageOk(values)
    ensures LanguageOf(values).JStr? && Supported(LanguageOf(values).s)
  {
  }

  /** `_init_language_from_storage` as a specification: only the first
      call of a session looks at the query parameter, and takes it only
      when it is supported. */
  function Initialized(values: map<string, Json>, query: Option<string>): (v: map<string, Json>)
    ensures InitializedKey in v
    ensures LanguageOk(values) ==> LanguageOk(v)
    ensures InitializedKey in values ==> v == values
  {
    if InitializedKey in values then values
    else
      var v := values[InitializedKey := JBool(true)];
      if query.Some? && Supported(query.value) then v[LanguageKey := JStr(query.value)] else v
  }

  /** Once initialised, later query parameters change nothing. */
  lemma InitializedOnce(values: map<string, Json>, q1: Option<string>, q2: Option<string>)
    ensures Initialized(Initialized(values, q1), q2) == Initialized(values, q1)
  {
  }

  /** The first call takes a supported query language and ignores any other. */
  lemma InitialLanguage(values: map<string, Json>, query: Option<string>)
    requires InitializedKey !in values
    ensures query.Some? && Supported(query.value) ==> LanguageOf(Initialized(values, query)) == JStr(query.value)
    ensures !(query.Some? && Supported(query.value)) ==> LanguageOf(Initialized(values, query)) == LanguageOf(values)
  {
  }

  method InitLanguageFromStorage(s: SessionState, query: Option<string>)
    modifies s
    ensures s.values == Initialized(old(s.values), query)
  {
    if InitializedKey !in s.values {
      s.values := s.values[InitializedKey := JBool(true)];
      if query.Some? {
        var lang := query.value;
        if Supported(lang) {
          s.values := s.values[LanguageKey := JStr(lang)];
        }
      }
    }
  }

  /** `get_ui_language`. */
  method GetUiLanguage(s: SessionState, query: Option<string>) returns (lang: Json)
    modifies s
    ensures s.values == Initialized(old(s.values), query)
    ensures lang == LanguageOf(s.values)
    ensures LanguageOk(old(s.values)) ==> lang.JStr? && Supported(lang.s)
  {
    InitLanguageFromStorage(s, query);
    lang := if LanguageKey in s.values then s.values[LanguageKey] else JStr(DefaultLanguage);
  }

  /** `set_ui_language`: an unsupported code is ignored. */
  method SetUiLanguage(s: SessionState, lang: string)
    modifies s
    ensures Supported(lang) ==> s.values == old(s.values)[LanguageKey := JStr(lang)]
    ensures !Supported(lang) ==> s.values == old(s.values)
    ensures LanguageOk(old(s.values)) ==> LanguageOk(s.values)
  {
    if Supported(lang) {
      s.values := s.values[LanguageKey := JStr(lang)];
    }
  }

  /** `t`. */
  method T(s: SessionState, query: Option<string>, translations: map<string, map<string, string>>,
           key: string, args: map<string, string>) returns (r: Result<string>)
    modifies s
    ensures s.values == Initialized(old(s.values), query)
    ensures r == Translate(translations, LanguageOf(s.values), key, args)
  {
    var lang := GetUiLanguage(s, query);
    var text: Option<string> := None;
    var current := TableFor(translations, lang);
    if key in current {
      text := Some(current[key]);
    }
    if text.None? && lang != JStr("en") {
      var english := TableFor(translations, JStr("en"));
      if key in english {
        text := Some(english[key]);
      }
    }
    var found := if text.Some? then text.value else key;
    if args != map[] {
      var f := Format(found, args);
      if f.BadIndex? {
        return Err("IndexError");
      } else if f.Text? {
        found := f.s;
      }
    }
    return Ok(found);
  }
}
