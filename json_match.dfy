/** JsonMatchGrader and JsonValidatorGrader: deep comparison of a candidate
    JSON document against a reference, and a plain "does it parse" check. */
module JsonMatch {
  import opened Common
  import opened JsonValue
  import opened GraderSchema

  /** strict_order (default true) and ignore_extra_keys (default false). */
  datatype MatchOptions = MatchOptions(strictOrder: bool, ignoreExtraKeys: bool)

  const DefaultOptions := MatchOptions(true, false)

  // ---------------------------------------------------------------------
  // Comparison

  /** Python compares bools and numbers numerically (True == 1). */
  function AsNumber(j: Json): Option<real> {
    match j
    case JNum(n) => Some(n)
    case JBool(b) => Some(if b then 1.0 else 0.0)
    case _ => None
  }

  /** `sampled == correct` for a scalar `sampled`. */
  predicate ScalarEq(a: Json, b: Json) {
    if AsNumber(a).Some? && AsNumber(b).Some? then AsNumber(a).value == AsNumber(b).value
    else a == b
  }

  /** `d.get(key)`: a missing key reads as None, which is JSON null. */
  function Lookup(d: map<string, Json>, key: string): Json {
    if key in d then d[key] else JNull
  }

  /** The keys a dict comparison looks at. */
  function Keys(o: MatchOptions, sampled: map<string, Json>, correct: map<string, Json>): set<string> {
    if o.ignoreExtraKeys then correct.Keys else sampled.Keys + correct.Keys
  }

  function NoneUsed(n: nat): (u: seq<bool>)
    ensures |u| == n && forall i :: 0 <= i < n ==> !u[i]
  {
    seq(n, _ => false)
  }

  /** _json_match(sampled, correct). */
  function Match(o: MatchOptions, sampled: Json, correct: Json): bool
    decreases sampled, 0
  {
    if sampled.JNull? || correct.JNull? then sampled == correct
    else match sampled
      case JObj(sf) =>
        correct.JObj? &&
        forall k :: k in Keys(o, sf, correct.fields) ==>
          if k in sf && k in correct.fields then Match(o, sf[k], correct.fields[k])
          else Lookup(sf, k) == Lookup(correct.fields, k)
      case JArr(ss) =>
        correct.JArr? && |ss| == |correct.items| &&
        if o.strictOrder then forall i :: 0 <= i < |ss| ==> Match(o, ss[i], correct.items[i])
        else Greedy(o, ss, correct.items, NoneUsed(|correct.items|))
      case _ => ScalarEq(sampled, correct)
  }

  /** The first reference item from index i on that is unused and matches x. */
  function FirstFree(o: MatchOptions, x: Json, cs: seq<Json>, used: seq<bool>, i: nat): (r: Option<nat>)
    requires |used| == |cs| && i <= |cs|
    ensures r.Some? ==> i <= r.value < |cs| && !used[r.value] && Match(o, x, cs[r.value])
    ensures r.Some? ==> forall j :: i <= j < r.value ==> used[j] || !Match(o, x, cs[j])
    ensures r.None? ==> forall j :: i <= j < |cs| ==> used[j] || !Match(o, x, cs[j])
    decreases x, 1, |cs| - i
  {
    if i == |cs| then None
    else if !used[i] && Match(o, x, cs[i]) then Some(i)
    else FirstFree(o, x, cs, used, i + 1)
  }

  /** The unordered comparison: each candidate item takes the first unused
      reference item it matches; an item with none fails the comparison. */
  function Greedy(o: MatchOptions, ss: seq<Json>, cs: seq<Json>, used: seq<bool>): bool
    requires |used| == |cs|
    decreases ss, 0
  {
    if |ss| == 0 then true
    else match FirstFree(o, ss[0], cs, used, 0)
      case None => false
      case Some(j) => Greedy(o, ss[1..], cs, used[j := true])
  }

  /** The loops of the unordered comparison, over a `used` array. */
  method UnorderedMatch(o: MatchOptions, sampled: seq<Json>, correct: seq<Json>) returns (b: bool)
    ensures b == Greedy(o, sampled, correct, NoneUsed(|correct|))
  {
    if |sampled| == 0 {
      return true;
    }
    var used := new bool[|correct|](_ => false);
    assert used[..] == NoneUsed(|correct|);
    var k := 0;
    while k < |sampled|
      invariant 0 <= k <= |sampled|
      invariant Greedy(o, sampled, correct, NoneUsed(|correct|)) == Greedy(o, sampled[k..], correct, used[..])
    {
      ghost var before := used[..];
      assert sampled[k..][0] == sampled[k] && sampled[k..][1..] == sampled[k + 1..];
      var foundMatch := false;
      var i := 0;
      while i < |correct|
        invariant 0 <= i <= |correct| && used[..] == before && !foundMatch
        invariant FirstFree(o, sampled[k], correct, before, 0) == FirstFree(o, sampled[k], correct, before, i)
      {
        if !used[i] && Match(o, sampled[k], correct[i]) {
          used[i] := true;
          foundMatch := true;
          break;
        }
        i := i + 1;
      }
      if !foundMatch {
        return false;
      }
      k := k + 1;
    }
    assert sampled[k..] == [];
    return true;
  }

  // ---------------------------------------------------------------------
  // Properties of the comparison

  /** A null on either side matches only a null. */
  lemma MatchNull(o: MatchOptions, x: Json)
    ensures Match(o, JNull, x) <==> x == JNull
    ensures Match(o, x, JNull) <==> x == JNull
  {
  }

  /** A dict never matches a non-dict, a list never matches a non-list, and
      lists of different lengths never match. */
  lemma MatchShapes(o: MatchOptions, s: Json, c: Json)
    requires !c.JNull?
    ensures s.JObj? && !c.JObj? ==> !Match(o, s, c)
    ensures s.JArr? && !c.JArr? ==> !Match(o, s, c)
    ensures s.JArr? && c.JArr? && |s.items| != |c.items| ==> !Match(o, s, c)
    ensures !s.JObj? && !s.JArr? && (c.JObj? || c.JArr?) ==> !Match(o, s, c)
  {
  }

  /** By default a key that only one side has, with a non-null value,
      makes two dicts differ. */
  lemma MissingKeyFails(o: MatchOptions, sf: map<string, Json>, cf: map<string, Json>, k: string)
    requires !o.ignoreExtraKeys
    requires (k in sf && k !in cf && sf[k] != JNull) || (k in cf && k !in sf && cf[k] != JNull)
    ensures !Match(o, JObj(sf), JObj(cf))
  {
    assert k in Keys(o, sf, cf);
  }

  /** With ignore_extra_keys, keys the reference lacks do not matter. */
  lemma ExtraKeysIgnored(o: MatchOptions, sf: map<string, Json>, cf: map<string, Json>, extra: map<string, Json>)
    requires o.ignoreExtraKeys
    requires extra.Keys !! cf.Keys
    ensures Match(o, JObj(sf + extra), JObj(cf)) == Match(o, JObj(sf), JObj(cf))
  {
    var sf' := sf + extra;
    assert forall k :: k in cf.Keys ==> (k in sf' <==> k in sf) && (k in sf ==> sf'[k] == sf[k]);
  }

  /** Used flags marking exactly the indices below k. */
  function Marked(k: nat, n: nat): (u: seq<bool>)
    ensures |u| == n && forall i :: 0 <= i < n ==> (u[i] <==> i < k)
  {
    seq(n, i => i < k)
  }

  lemma {:induction false} GreedySelf(o: MatchOptions, xs: seq<Json>, k: nat)
    requires k <= |xs|
    requires forall i :: 0 <= i < |xs| ==> Match(o, xs[i], xs[i])
    ensures Greedy(o, xs[k..], xs, Marked(k, |xs|))
    decreases |xs| - k
  {
    if k < |xs| {
      var r := FirstFree(o, xs[k], xs, Marked(k, |xs|), 0);
      assert xs[k..][0] == xs[k] && xs[k..][1..] == xs[k + 1..];
      assert r == Some(k);
      assert Marked(k, |xs|)[k := true] == Marked(k + 1, |xs|);
      GreedySelf(o, xs, k + 1);
    }
  }

  /** Every document matches itself, whatever the options: identical JSON
      scores 1. */
  lemma {:induction false} MatchReflexive(o: MatchOptions, x: Json)
    ensures Match(o, x, x)
    decreases x
  {
    match x
    case JObj(f) =>
      forall k | k in f {
        MatchReflexive(o, f[k]);
      }
    case JArr(xs) =>
      forall i | 0 <= i < |xs| {
        MatchReflexive(o, xs[i]);
      }
      if !o.strictOrder {
        GreedySelf(o, xs, 0);
        assert xs[0..] == xs && Marked(0, |xs|) == NoneUsed(|xs|);
      }
    case _ =>
  }

  // ---------------------------------------------------------------------
  // What the unordered comparison guarantees

  /** p pairs each candidate item with its own unused reference item that
      it matches. */
  ghost predicate IsPairing(o: MatchOptions, ss: seq<Json>, cs: seq<Json>, used: seq<bool>, p: seq<nat>)
    requires |used| == |cs|
  {
    |p| == |ss| &&
    (forall i :: 0 <= i < |p| ==> p[i] < |cs| && !used[p[i]] && Match(o, ss[i], cs[p[i]])) &&
    (forall i, j :: 0 <= i < j < |p| ==> p[i] != p[j])
  }

  /** The pairing the greedy loop builds. */
  function GreedyPairing(o: MatchOptions, ss: seq<Json>, cs: seq<Json>, used: seq<bool>): seq<nat>
    requires |used| == |cs| && Greedy(o, ss, cs, used)
  {
    if |ss| == 0 then []
    else
      var j := FirstFree(o, ss[0], cs, used, 0).value;
      [j] + GreedyPairing(o, ss[1..], cs, used[j := true])
  }

  /** When the greedy comparison succeeds, the candidate items are paired
      one-to-one with matching reference items. */
  lemma {:induction false} GreedySound(o: MatchOptions, ss: seq<Json>, cs: seq<Json>, used: seq<bool>)
    requires |used| == |cs| && Greedy(o, ss, cs, used)
    ensures IsPairing(o, ss, cs, used, GreedyPairing(o, ss, cs, used))
  {
    if |ss| > 0 {
      var j := FirstFree(o, ss[0], cs, used, 0).value;
      var used' := used[j := true];
      GreedySound(o, ss[1..], cs, used');
      var rest := GreedyPairing(o, ss[1..], cs, used');
      var p := [j] + rest;
      assert forall i :: 1 <= i < |p| ==> p[i] == rest[i - 1] && ss[i] == ss[1..][i - 1];
      assert forall i :: 1 <= i < |p| ==> p[i] != j;
    }
  }

  /** The counterpart with backtracking: some one-to-one pairing exists. */
  function PairingExists(o: MatchOptions, ss: seq<Json>, cs: seq<Json>, used: seq<bool>): bool
    requires |used| == |cs|
    decreases |ss|
  {
    if |ss| == 0 then true
    else exists j | 0 <= j < |cs| :: !used[j] && Match(o, ss[0], cs[j]) && PairingExists(o, ss[1..], cs, used[j := true])
  }

  lemma {:induction false} PairingExistsSound(o: MatchOptions, ss: seq<Json>, cs: seq<Json>, used: seq<bool>)
    returns (p: seq<nat>)
    requires |used| == |cs| && PairingExists(o, ss, cs, used)
    ensures IsPairing(o, ss, cs, used, p)
    decreases |ss|
  {
    if |ss| == 0 {
      p := [];
    } else {
      var j :| 0 <= j < |cs| && !used[j] && Match(o, ss[0], cs[j]) && PairingExists(o, ss[1..], cs, used[j := true]);
      var rest := PairingExistsSound(o, ss[1..], cs, used[j := true]);
      p := [j] + rest;
      assert forall i :: 1 <= i < |p| ==> p[i] == rest[i - 1] && ss[i] == ss[1..][i - 1];
    }
  }

  lemma {:induction false} PairingExistsComplete(o: MatchOptions, ss: seq<Json>, cs: seq<Json>, used: seq<bool>, p: seq<nat>)
    requires |used| == |cs| && IsPairing(o, ss, cs, used, p)
    ensures PairingExists(o, ss, cs, used)
    decreases |ss|
  {
    if |ss| > 0 {
      var j := p[0];
      var used' := used[j := true];
      assert forall i :: 0 <= i < |p| - 1 ==> p[1..][i] == p[i + 1] && ss[1..][i] == ss[i + 1];
      assert forall i :: 1 <= i < |p| ==> p[i] != p[0];
      PairingExistsComplete(o, ss[1..], cs, used', p[1..]);
    }
  }

  /** The backtracking search succeeds exactly when a one-to-one pairing of
      matching items exists. */
  lemma PairingExistsIff(o: MatchOptions, ss: seq<Json>, cs: seq<Json>)
    ensures PairingExists(o, ss, cs, NoneUsed(|cs|)) <==> exists p :: IsPairing(o, ss, cs, NoneUsed(|cs|), p)
  {
    if PairingExists(o, ss, cs, NoneUsed(|cs|)) {
      var p := PairingExistsSound(o, ss, cs, NoneUsed(|cs|));
      assert IsPairing(o, ss, cs, NoneUsed(|cs|), p);
    }
    if p :| IsPairing(o, ss, cs, NoneUsed(|cs|), p) {
      PairingExistsComplete(o, ss, cs, NoneUsed(|cs|), p);
    }
  }

  /** With ignore_extra_keys the item comparison is not symmetric, and the
      greedy loop can spend a reference item that a later candidate item
      needed: these two lists pair up crosswise, yet they do not match. */
  lemma GreedyMissesPairing()
    ensures var o := MatchOptions(false, true);
            var small := JObj(map["a" := JNum(1.0)]);
            var big := JObj(map["a" := JNum(1.0), "b" := JNum(2.0)]);
            IsPairing(o, [big, small], [small, big], NoneUsed(2), [1, 0]) &&
            PairingExists(o, [big, small], [small, big], NoneUsed(2)) &&
            !Match(o, JArr([big, small]), JArr([small, big]))
  {
    var o := MatchOptions(false, true);
    var small := JObj(map["a" := JNum(1.0)]);
    var big := JObj(map["a" := JNum(1.0), "b" := JNum(2.0)]);
    assert Match(o, JNum(1.0), JNum(1.0));
    assert Match(o, big, small);
    assert Match(o, big, big);
    assert Match(o, small, small);
    assert !Match(o, small, big) by {
      assert "b" in Keys(o, small.fields, big.fields);
    }
    assert IsPairing(o, [big, small], [small, big], NoneUsed(2), [1, 0]);
    PairingExistsComplete(o, [big, small], [small, big], NoneUsed(2), [1, 0]);
    var used := NoneUsed(2)[0 := true];
    assert FirstFree(o, big, [small, big], NoneUsed(2), 0) == Some(0);
    assert FirstFree(o, small, [small, big], used, 0) == None;
    assert [big, small][1..] == [small];
    assert !Greedy(o, [small], [small, big], used);
    assert Greedy(o, [big, small], [small, big], NoneUsed(2)) == Greedy(o, [small], [small, big], used);
  }

  // ---------------------------------------------------------------------
  // The graders

  /** What json.loads produced: a value, or the exception it raised. */
  datatype Parsed = Parsed(value: Json) | DecodeError(msg: string) | TypeFailure(msg: string) | OtherFailure(msg: string)

  function ParseErrorDetails(error: string, msg: string): map<string, Json> {
    map["matched" := JBool(false), "error" := JStr(error), "error_message" := JStr(msg)]
  }

  /** JsonMatchGrader._compute: the candidate is parsed first; a decode or
      type error is reported, any other exception propagates (Err). */
  function Compute(o: MatchOptions, reference: Parsed, candidate: Parsed): (r: Result<(bool, map<string, Json>)>)
    ensures r.Err? <==> candidate.OtherFailure? || (candidate.Parsed? && reference.OtherFailure?)
    ensures r.Ok? && !candidate.Parsed? ==> r.value == (false, ParseErrorDetails("candidate_parse_error", candidate.msg))
    ensures r.Ok? && candidate.Parsed? && !reference.Parsed? ==>
              r.value == (false, ParseErrorDetails("reference_parse_error", reference.msg))
    ensures candidate.Parsed? && reference.Parsed? ==>
              r.Ok? && r.value.0 == Match(o, candidate.value, reference.value) && "error" !in r.value.1
  {
    match candidate
    case OtherFailure(msg) => Err(msg)
    case DecodeError(msg) => Ok((false, ParseErrorDetails("candidate_parse_error", msg)))
    case TypeFailure(msg) => Ok((false, ParseErrorDetails("candidate_parse_error", msg)))
    case Parsed(c) =>
      match reference
      case OtherFailure(msg) => Err(msg)
      case DecodeError(msg) => Ok((false, ParseErrorDetails("reference_parse_error", msg)))
      case TypeFailure(msg) => Ok((false, ParseErrorDetails("reference_parse_error", msg)))
      case Parsed(ref) =>
        var matched := Match(o, c, ref);
        Ok((matched, map["matched" := JBool(matched), "strict_order" := JBool(o.strictOrder),
                         "ignore_extra_keys" := JBool(o.ignoreExtraKeys)]))
  }

  /** JsonMatchGrader.aevaluate: 1.0 exactly when both documents parse and
      match; a parse error scores 0.0 with the error message as reason. */
  function EvaluateMatch(name: string, o: MatchOptions, reference: Parsed, candidate: Parsed): (r: Result<GraderResult>)
    ensures r.Ok? <==> Compute(o, reference, candidate).Ok?
    ensures r.Ok? ==> r.value.GraderScore? && r.value.name == name && (r.value.score == 0.0 || r.value.score == 1.0)
    ensures r.Ok? ==> (r.value.score == 1.0 <==> candidate.Parsed? && reference.Parsed? && Match(o, candidate.value, reference.value))
    ensures r.Ok? && !candidate.Parsed? ==> r.value.reason == candidate.msg
  {
    match Compute(o, reference, candidate)
    case Err(msg) => Err(msg)
    case Ok((matched, details)) =>
      if "error" in details then
        Ok(GraderScore(name, 0.0, if details["error_message"].JStr? then details["error_message"].s else "", details))
      else
        Ok(GraderScore(name, if matched then 1.0 else 0.0,
                       "JSON match: " + (if matched then "matched" else "not matched"), details))
  }

  /** A changed value scores 0. */
  lemma DifferentValueScoresZero()
    ensures var ref := JObj(map["name" := JStr("Alice"), "age" := JNum(30.0)]);
            var cand := JObj(map["name" := JStr("Alice"), "age" := JNum(31.0)]);
            EvaluateMatch("json_match", DefaultOptions, Parsed(ref), Parsed(cand)).value.score == 0.0
  {
    var ref := JObj(map["name" := JStr("Alice"), "age" := JNum(30.0)]);
    var cand := JObj(map["name" := JStr("Alice"), "age" := JNum(31.0)]);
    assert "age" in Keys(DefaultOptions, cand.fields, ref.fields);
    assert !Match(DefaultOptions, JNum(31.0), JNum(30.0));
  }

  /** JsonValidatorGrader: 1.0 exactly when the candidate parses. */
  function EvaluateValidator(name: string, candidate: string, parsed: Parsed): (r: GraderResult)
    ensures r.GraderScore? && r.name == name
    ensures r.score == 1.0 <==> parsed.Parsed?
    ensures r.score == 0.0 <==> !parsed.Parsed?
    ensures "is_valid" in r.metadata && r.metadata["is_valid"] == JBool(parsed.Parsed?)
    ensures "candidate_length" in r.metadata && r.metadata["candidate_length"] == JNum(|candidate| as real)
  {
    var length := JNum(|candidate| as real);
    match parsed
    case Parsed(_) => GraderScore(name, 1.0, "Valid JSON", map["is_valid" := JBool(true), "candidate_length" := length])
    case DecodeError(msg) =>
      var m := "JSON decode error: " + msg;
      GraderScore(name, 0.0, m, map["is_valid" := JBool(false), "error_message" := JStr(m), "candidate_length" := length])
    case TypeFailure(msg) =>
      var m := "Type error: " + msg;
      GraderScore(name, 0.0, m, map["is_valid" := JBool(false), "error_message" := JStr(m), "candidate_length" := length])
    case OtherFailure(msg) =>
      var m := "Unexpected error: " + msg;
      GraderScore(name, 0.0, m, map["is_valid" := JBool(false), "error_message" := JStr(m), "candidate_length" := length])
  }
}
