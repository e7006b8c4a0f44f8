/** Studio's translation tables: one dictionary per language, merged from
    the per-feature tables. The tables themselves are data and are
    parameters here. */
module Translations {
  /** `_merge_dicts` as a specification: the dictionaries merged left to
      right, each one's entries overriding those before it. */
  function Merged<V>(dicts: seq<map<string, V>>): map<string, V>
    decreases |dicts|
  {
    if |dicts| == 0 then map[] else Merged(dicts[..|dicts| - 1]) + dicts[|dicts| - 1]
  }

  /** The merged key set is the union of the inputs' key sets. */
  lemma {:induction false} MergedKeys<V>(dicts: seq<map<string, V>>, k: string)
    ensures k in Merged(dicts) <==> exists i :: 0 <= i < |dicts| && k in dicts[i]
    decreases |dicts|
  {
    if |dicts| > 0 {
      var init := dicts[..|dicts| - 1];
      MergedKeys(init, k);
      if exists i :: 0 <= i < |dicts| && k in dicts[i] {
        var i :| 0 <= i < |dicts| && k in dicts[i];
        if i < |dicts| - 1 {
          assert init[i] == dicts[i];
        }
      }
      if exists i :: 0 <= i < |init| && k in init[i] {
        var i :| 0 <= i < |init| && k in init[i];
        assert dicts[i] == init[i];
      }
    }
  }

  /** For a key several inputs hold, the last of them supplies the value. */
  lemma {:induction false} MergedLastWins<V>(dicts: seq<map<string, V>>, k: string, i: nat)
    requires i < |dicts| && k in dicts[i]
    requires forall j :: i < j < |dicts| ==> k !in dicts[j]
    ensures k in Merged(dicts) && Merged(dicts)[k] == dicts[i][k]
    decreases |dicts|
  {
    if i < |dicts| - 1 {
      var init := dicts[..|dicts| - 1];
      assert init[i] == dicts[i];
      MergedLastWins(init, k, i);
    }
  }

  /** `_merge_dicts`. */
  method MergeDicts<V>(dicts: seq<map<string, V>>) returns (result: map<string, V>)
    ensures result == Merged(dicts)
  {
    result := map[];
    for n := 0 to |dicts|
      invariant result == Merged(dicts[..n])
    {
      assert dicts[..n + 1][..n] == dicts[..n];
      result := result + dicts[n];
    }
    assert dicts[..|dicts|] == dicts;
  }

  /** The per-feature tables of one language. */
  datatype Tables = Tables(common: map<string, string>, grader: map<string, string>,
                           autoArena: map<string, string>, autoRubric: map<string, string>)

  /** `get_all_translations` as written: for each language, the common,
      grader and auto-arena tables merged in that order. The auto-rubric
      table is not among them. */
  function AllTranslationsAsWritten(en: Tables, zh: Tables): (r: map<string, map<string, string>>)
    ensures r.Keys == {"en", "zh"}
    ensures r["en"] == Merged([en.common, en.grader, en.autoArena])
    ensures r["zh"] == Merged([zh.common, zh.grader, zh.autoArena])
  {
    map["en" := Merged([en.common, en.grader, en.autoArena]), "zh" := Merged([zh.common, zh.grader, zh.autoArena])]
  }

  /** A key defined only by the auto-rubric tables is missing from both
      merged languages. */
  lemma AsWrittenDropsRubricKeys(en: Tables, zh: Tables, key: string)
    requires key !in en.common && key !in en.grader && key !in en.autoArena
    requires key !in zh.common && key !in zh.grader && key !in zh.autoArena
    requires key in en.autoRubric && key in zh.autoRubric
    ensures var r := AllTranslationsAsWritten(en, zh);
      key !in r["en"] && key !in r["zh"]
  {
    MergedKeys([en.common, en.grader, en.autoArena], key);
    MergedKeys([zh.common, zh.grader, zh.autoArena], key);
  }

  /** `get_all_translations` with the auto-rubric table merged last, as
      the feature's own table file is written to be used. */
  function AllTranslations(en: Tables, zh: Tables): (r: map<string, map<string, string>>)
    ensures r.Keys == {"en", "zh"}
    ensures r["en"] == Merged([en.common, en.grader, en.autoArena, en.autoRubric])
    ensures r["zh"] == Merged([zh.common, zh.grader, zh.autoArena, zh.autoRubric])
  {
    map["en" := Merged([en.common, en.grader, en.autoArena, en.autoRubric]),
        "zh" := Merged([zh.common, zh.grader, zh.autoArena, zh.autoRubric])]
  }

  /** Every key of every table is translated in its language, and an
      auto-rubric entry is the one shown. */
  lemma AllTranslationsComplete(en: Tables, zh: Tables, key: string)
    ensures var r := AllTranslations(en, zh);
      (key in r["en"] <==> key in en.common || key in en.grader || key in en.autoArena || key in en.autoRubric) &&
      (key in r["zh"] <==> key in zh.common || key in zh.grader || key in zh.autoArena || key in zh.autoRubric) &&
      (key in en.autoRubric ==> key in r["en"] && r["en"][key] == en.autoRubric[key]) &&
      (key in zh.autoRubric ==> key in r["zh"] && r["zh"][key] == zh.autoRubric[key])
  {
    var e := [en.common, en.grader, en.autoArena, en.autoRubric];
    var z := [zh.common, zh.grader, zh.autoArena, zh.autoRubric];
    MergedKeys(e, key);
    MergedKeys(z, key);
    assert (exists i :: 0 <= i < 4 && key in e[i]) <==> key in e[0] || key in e[1] || key in e[2] || key in e[3];
    assert (exists i :: 0 <= i < 4 && key in z[i]) <==> key in z[0] || key in z[1] || key in z[2] || key in z[3];
    if key in en.autoRubric {
      MergedLastWins(e, key, 3);
    }
    if key in zh.autoRubric {
      MergedLastWins(z, key, 3);
    }
  }
}
