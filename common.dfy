/** Shared value types and text helpers used by every module of the model:
    optional values, results with an error message, and the handful of
    ASCII string operations (case folding, trimming, splitting, joining,
    substring search) that the modelled code performs on text. */
module Common {

  datatype Option<+T> = None | Some(value: T) {
    function GetOr(default: T): T {
      match this
      case Some(v) => v
      case None => default
    }
  }

  /** A computation that either produces a value or raises with a message. */
  datatype Result<+T> = Ok(value: T) | Err(msg: string)

  /** A file a service reads: absent, present but not decodable (reading
      it raises), or decoded. */
  datatype FileState<+T> = FileAbsent | FileUnreadable | FileRead(content: T)

  /** The decoded content of a file, if it was present and readable. */
  function Loaded<T>(f: FileState<T>): (r: Option<T>)
    ensures r.Some? <==> f.FileRead?
    ensures r.Some? ==> r.value == f.content
  {
    if f.FileRead? then Some(f.content) else None
  }

  // ---------------------------------------------------------------------
  // Characters

  predicate IsAsciiUpper(c: char) { 'A' <= c <= 'Z' }
  predicate IsAsciiLower(c: char) { 'a' <= c <= 'z' }
  predicate IsDigit(c: char) { '0' <= c <= '9' }
  predicate IsAsciiAlnum(c: char) { IsAsciiUpper(c) || IsAsciiLower(c) || IsDigit(c) }

  /** Whitespace as Python's str.strip() and str.split() see it (ASCII part). */
  predicate IsSpace(c: char) {
    c == ' ' || c == '\t' || c == '\n' || c == '\r' || c == '\U{000B}' || c == '\U{000C}'
  }

  function LowerChar(c: char): char {
    if IsAsciiUpper(c) then (c as int + 32) as char else c
  }

  function UpperChar(c: char): char {
    if IsAsciiLower(c) then (c as int - 32) as char else c
  }

  /** str.lower() on the ASCII range. */
  function Lower(s: string): (r: string)
    ensures |r| == |s|
    ensures forall i :: 0 <= i < |s| ==> r[i] == LowerChar(s[i])
  {
    seq(|s|, i requires 0 <= i < |s| => LowerChar(s[i]))
  }

  /** str.upper() on the ASCII range. */
  function Upper(s: string): (r: string)
    ensures |r| == |s|
    ensures forall i :: 0 <= i < |s| ==> r[i] == UpperChar(s[i])
  {
    seq(|s|, i requires 0 <= i < |s| => UpperChar(s[i]))
  }

  // ---------------------------------------------------------------------
  // Prefixes, suffixes, substrings

  predicate StartsWith(s: string, prefix: string) {
    |prefix| <= |s| && s[..|prefix|] == prefix
  }

  predicate EndsWith(s: string, suffix: string) {
    |suffix| <= |s| && s[|s| - |suffix|..] == suffix
  }

  /** `sub` occurs in `s` starting at index `i`. */
  predicate OccursAt(s: string, sub: string, i: int) {
    0 <= i && i + |sub| <= |s| && s[i..i + |sub|] == sub
  }

  /** `sub in s` for Python strings. */
  predicate Contains(s: string, sub: string) {
    exists i | 0 <= i <= |s| :: OccursAt(s, sub, i)
  }

  /** Index of the first occurrence of `sub` in `s`, if any (str.find). */
  function Find(s: string, sub: string): (r: Option<nat>)
    ensures r.Some? ==> OccursAt(s, sub, r.value)
    ensures r.Some? ==> forall k :: 0 <= k < r.value ==> !OccursAt(s, sub, k)
    ensures r.None? <==> !Contains(s, sub)
  {
    FindFrom(s, sub, 0)
  }

  function FindFrom(s: string, sub: string, from: nat): (r: Option<nat>)
    requires from <= |s| + 1
    ensures r.Some? ==> from <= r.value && OccursAt(s, sub, r.value)
    ensures r.Some? ==> forall k :: from <= k < r.value ==> !OccursAt(s, sub, k)
    ensures r.None? <==> forall k :: from <= k ==> !OccursAt(s, sub, k)
    decreases |s| + 1 - from
  {
    if from + |sub| > |s| then None
    else if s[from..from + |sub|] == sub then assert OccursAt(s, sub, from); Some(from)
    else FindFrom(s, sub, from + 1)
  }

  /** `word` occurs at `i` ignoring ASCII case (`word` is lower-case). */
  predicate CaselessAt(text: string, word: string, i: nat) {
    i + |word| <= |text| && Lower(text[i..i + |word|]) == word
  }

  // ---------------------------------------------------------------------
  // Trimming

  /** Length of the leading run of whitespace. */
  function LeadingSpace(s: string): (n: nat)
    ensures n <= |s|
    ensures forall i :: 0 <= i < n ==> IsSpace(s[i])
    ensures n < |s| ==> !IsSpace(s[n])
  {
    if |s| == 0 || !IsSpace(s[0]) then 0 else 1 + LeadingSpace(s[1..])
  }

  /** Length of the trailing run of whitespace. */
  function TrailingSpace(s: string): (n: nat)
    ensures n <= |s|
    ensures forall i :: |s| - n <= i < |s| ==> IsSpace(s[i])
    ensures n < |s| ==> !IsSpace(s[|s| - n - 1])
  {
    if |s| == 0 || !IsSpace(s[|s| - 1]) then 0 else 1 + TrailingSpace(s[..|s| - 1])
  }

  /** str.strip(). */
  function Trim(s: string): (r: string)
    ensures |r| <= |s|
    ensures r == [] || (!IsSpace(r[0]) && !IsSpace(r[|r| - 1]))
    ensures (forall i :: 0 <= i < |s| ==> IsSpace(s[i])) <==> r == []
  {
    var a := LeadingSpace(s);
    var t := s[a..];
    var b := TrailingSpace(t);
    assert a < |s| ==> t[0] == s[a];
    t[..|t| - b]
  }

  /** True when the string is empty after stripping whitespace. */
  predicate IsBlank(s: string) {
    forall i :: 0 <= i < |s| ==> IsSpace(s[i])
  }

  // ---------------------------------------------------------------------
  // Splitting and joining on one separator character

  /** str.split(sep) for a one-character separator: always at least one part. */
  function Split(s: string, sep: char): (parts: seq<string>)
    ensures |parts| >= 1
    ensures forall p :: p in parts ==> sep !in p
    decreases |s|
  {
    if sep !in s then [s]
    else
      var i := IndexOfChar(s, sep);
      [s[..i]] + Split(s[i + 1..], sep)
  }

  function IndexOfChar(s: string, c: char): (i: nat)
    requires c in s
    ensures i < |s| && s[i] == c && c !in s[..i]
  {
    if s[0] == c then 0 else 1 + IndexOfChar(s[1..], c)
  }

  /** sep.join(parts). */
  function Join(parts: seq<string>, sep: string): string {
    if |parts| == 0 then ""
    else if |parts| == 1 then parts[0]
    else parts[0] + sep + Join(parts[1..], sep)
  }

  /** Number of whitespace characters just before position `e`. */
  function SpaceBefore(s: string, e: nat): (n: nat)
    requires e <= |s|
    ensures n <= e
  {
    if e == 0 || !IsSpace(s[e - 1]) then 0 else 1 + SpaceBefore(s, e - 1)
  }

  /** Where the run of non-whitespace characters that ends at `e` starts. */
  function WordStart(s: string, e: nat): (k: nat)
    requires e <= |s|
    ensures k <= e
    ensures e > 0 && !IsSpace(s[e - 1]) ==> k < e
  {
    if e == 0 || IsSpace(s[e - 1]) then e else WordStart(s, e - 1)
  }

  /** The words of s[..e], the last one after the ones before it. */
  function WordsIn(s: string, e: nat): (ws: seq<string>)
    requires e <= |s|
    decreases e
  {
    var t := e - SpaceBefore(s, e);
    if t == 0 then []
    else
      var k := WordStart(s, t);
      WordsIn(s, k) + [s[k..t]]
  }

  /** str.split() with no argument: the maximal runs of non-whitespace. */
  function Words(s: string): seq<string> {
    WordsIn(s, |s|)
  }

  /** A non-empty run of non-whitespace characters. */
  predicate IsWord(w: string) {
    |w| > 0 && forall k :: 0 <= k < |w| ==> !IsSpace(w[k])
  }

  /** The words of a prefix depend only on that prefix. */
  lemma {:induction false} WordsInPrefix(s: string, u: string, e: nat)
    requires e <= |s| && e <= |u| && s[..e] == u[..e]
    ensures WordsIn(s, e) == WordsIn(u, e)
    decreases e
  {
    assert forall i :: 0 <= i < e ==> s[i] == s[..e][i] == u[..e][i] == u[i];
    SpaceBeforePrefix(s, u, e);
    var t := e - SpaceBefore(s, e);
    if t > 0 {
      WordStartPrefix(s, u, t);
      var k := WordStart(s, t);
      assert s[..k] == u[..k];
      WordsInPrefix(s, u, k);
      assert s[k..t] == u[k..t];
    }
  }

  lemma {:induction false} SpaceBeforePrefix(s: string, u: string, e: nat)
    requires e <= |s| && e <= |u| && forall i :: 0 <= i < e ==> s[i] == u[i]
    ensures SpaceBefore(s, e) == SpaceBefore(u, e)
    decreases e
  {
    if e > 0 { SpaceBeforePrefix(s, u, e - 1); }
  }

  lemma {:induction false} WordStartPrefix(s: string, u: string, e: nat)
    requires e <= |s| && e <= |u| && forall i :: 0 <= i < e ==> s[i] == u[i]
    ensures WordStart(s, e) == WordStart(u, e)
    decreases e
  {
    if e > 0 { WordStartPrefix(s, u, e - 1); }
  }

  /** A word appended after a space becomes the last word. */
  lemma WordsSnoc(x: string, w: string)
    requires IsWord(w)
    ensures Words(x + " " + w) == Words(x) + [w]
  {
    var s := x + " " + w;
    var e := |x| + 1;
    assert SpaceBefore(s, |s|) == 0;
    WordStartIs(s, e, |s|);
    assert WordsIn(s, e) == WordsIn(s, |x|);
    assert s[..|x|] == x[..|x|];
    WordsInPrefix(s, x, |x|);
    assert s[e..|s|] == w;
  }

  /** The run ending at `e` starts at `k` when it is all non-whitespace and
      preceded by whitespace. */
  lemma {:induction false} WordStartIs(s: string, k: nat, e: nat)
    requires k <= e <= |s| && (forall i :: k <= i < e ==> !IsSpace(s[i]))
    requires 0 < k ==> IsSpace(s[k - 1])
    ensures WordStart(s, e) == k
    decreases e
  {
    if e > k { WordStartIs(s, k, e - 1); }
  }

  /** str.replace(pat, rep): every non-overlapping occurrence, left to right. */
  function ReplaceAll(s: string, pat: string, rep: string): string
    requires |pat| > 0
    decreases |s|
  {
    if |s| < |pat| then s
    else if s[..|pat|] == pat then rep + ReplaceAll(s[|pat|..], pat, rep)
    else [s[0]] + ReplaceAll(s[1..], pat, rep)
  }

  // ---------------------------------------------------------------------
  // Small numeric helpers

  function DigitChar(d: nat): char
    requires d < 10
  {
    ('0' as int + d) as char
  }

  /** str(n) for a non-negative integer. */
  function NatToString(n: nat): (r: string)
    ensures |r| >= 1
    ensures forall i :: 0 <= i < |r| ==> IsDigit(r[i])
  {
    if n < 10 then [DigitChar(n)] else NatToString(n / 10) + [DigitChar(n % 10)]
  }

  /** str(i) for any integer. */
  function IntToString(i: int): string {
    if i < 0 then "-" + NatToString(-i) else NatToString(i)
  }

  function MinInt(a: int, b: int): int { if a <= b then a else b }
  function MaxInt(a: int, b: int): int { if a >= b then a else b }

  /** Python's `s[:n]` for a non-negative n. */
  function Prefix<T>(s: seq<T>, n: nat): (r: seq<T>)
    ensures |r| == MinInt(n, |s|)
    ensures r <= s
  {
    if n <= |s| then s[..n] else s
  }

  /** A count out of a positive total lies in [0, 1]. */
  lemma RatioBounds(a: nat, b: nat)
    requires 0 < b && a <= b
    ensures 0.0 <= a as real / b as real <= 1.0
  {
    assert a as real / b as real * b as real == a as real;
  }

  /** Concatenation of a list of lists, in order. */
  function Flatten<T>(ss: seq<seq<T>>): seq<T>
    decreases |ss|
  {
    if |ss| == 0 then [] else Flatten(ss[..|ss| - 1]) + ss[|ss| - 1]
  }

  // ---------------------------------------------------------------------
  // Integer literals

  predicate AllDigits(s: string) {
    |s| > 0 && forall i :: 0 <= i < |s| ==> IsDigit(s[i])
  }

  /** The value of a run of decimal digits. */
  function DigitsValue(s: string): nat
    requires forall i :: 0 <= i < |s| ==> IsDigit(s[i])
  {
    if |s| == 0 then 0
    else
      var c := s[|s| - 1];
      assert IsDigit(c);
      DigitsValue(s[..|s| - 1]) * 10 + (c as int - '0' as int)
  }

  /** int(s) for a decimal literal with an optional sign, ignoring
      surrounding whitespace; None where int() raises ValueError. */
  function PyInt(s: string): (r: Option<int>)
    ensures r.Some? ==> |Trim(s)| > 0
  {
    var t := Trim(s);
    if |t| > 0 && (t[0] == '-' || t[0] == '+') then
      if AllDigits(t[1..]) then
        var v: int := DigitsValue(t[1..]);
        Some(if t[0] == '-' then 0 - v else v)
      else None
    else if AllDigits(t) then Some(DigitsValue(t))
    else None
  }

  lemma {:induction false} DigitsOfNat(n: nat)
    ensures DigitsValue(NatToString(n)) == n
  {
    var r := NatToString(n);
    if n >= 10 {
      DigitsOfNat(n / 10);
      assert r[..|r| - 1] == NatToString(n / 10);
    }
  }

  lemma TrimUnspaced(s: string)
    requires |s| > 0 && !IsSpace(s[0]) && !IsSpace(s[|s| - 1])
    ensures Trim(s) == s
  {
    assert LeadingSpace(s) == 0;
    assert TrailingSpace(s) == 0;
  }

  /** Stripping is idempotent and keeps only characters of the input. */
  lemma TrimTwice(s: string)
    ensures Trim(Trim(s)) == Trim(s)
    ensures forall c :: c in Trim(s) ==> c in s
  {
    var r := Trim(s);
    if r != [] { TrimUnspaced(r); }
    var a := LeadingSpace(s);
    var t := s[a..];
    var b := TrailingSpace(t);
    assert r == s[a..a + |t| - b];
    forall c | c in r ensures c in s {
      var j :| 0 <= j < |r| && r[j] == c;
      assert s[a + j] == c;
    }
  }

  /** Reading back a printed integer gives the integer. */
  lemma PyIntRoundTrip(i: int)
    ensures PyInt(IntToString(i)) == Some(i)
  {
    if i < 0 {
      PyIntNegative(-i);
    } else {
      PyIntPlain(i);
    }
  }

  lemma PyIntPlain(n: nat)
    ensures PyInt(NatToString(n)) == Some(n)
  {
    var d := NatToString(n);
    DigitsOfNat(n);
    assert IsDigit(d[0]) && IsDigit(d[|d| - 1]);
    TrimUnspaced(d);
  }

  lemma PyIntNegative(n: nat)
    ensures PyInt("-" + NatToString(n)) == Some(0 - n)
  {
    var d := NatToString(n);
    var s := "-" + d;
    DigitsOfNat(n);
    assert s[|s| - 1] == d[|d| - 1];
    assert IsDigit(d[|d| - 1]);
    TrimUnspaced(s);
    assert s[1..] == d;
  }

  // ---------------------------------------------------------------------
  // Counting the elements that satisfy a predicate

  /** How many elements of `xs` satisfy `f`. */
  function CountWhere<T>(xs: seq<T>, f: T -> bool): (n: nat)
    ensures n <= |xs|
  {
    if |xs| == 0 then 0 else CountWhere(xs[..|xs| - 1], f) + (if f(xs[|xs| - 1]) then 1 else 0)
  }

  lemma {:induction false} CountWhereAppend<T>(a: seq<T>, b: seq<T>, f: T -> bool)
    ensures CountWhere(a + b, f) == CountWhere(a, f) + CountWhere(b, f)
    decreases |b|
  {
    if |b| == 0 {
      assert a + b == a;
    } else {
      var init := b[..|b| - 1];
      assert (a + b)[..|a + b| - 1] == a + init;
      CountWhereAppend(a, init, f);
    }
  }

  /** Taking one element out lowers the count by its contribution. */
  lemma CountWhereRemove<T>(b: seq<T>, j: nat, f: T -> bool)
    requires j < |b|
    ensures CountWhere(b, f) == CountWhere(b[..j] + b[j + 1..], f) + (if f(b[j]) then 1 else 0)
  {
    var pre, post := b[..j], b[j + 1..];
    assert pre + b[j..] == b;
    assert b[j..] == [b[j]] + post;
    CountWhereAppend(pre, b[j..], f);
    CountWhereAppend([b[j]], post, f);
    CountWhereAppend(pre, post, f);
    CountWhereOne(b[j], f);
  }

  lemma CountWhereOne<T>(x: T, f: T -> bool)
    ensures CountWhere([x], f) == if f(x) then 1 else 0
  {
    assert [x][..0] == [];
  }

  /** A count does not depend on the order of the elements. */
  lemma {:induction false} CountWherePermutation<T>(a: seq<T>, b: seq<T>, f: T -> bool)
    requires multiset(a) == multiset(b)
    ensures CountWhere(a, f) == CountWhere(b, f)
    decreases |a|
  {
    if |a| == 0 {
      assert |b| == |multiset(b)| == 0;
    } else {
      var x := a[|a| - 1];
      var init := a[..|a| - 1];
      assert a == init + [x];
      assert x in multiset(b);
      var j :| 0 <= j < |b| && b[j] == x;
      var rest := b[..j] + b[j + 1..];
      assert multiset(init) == multiset(rest) by {
        assert multiset(a) == multiset(init) + multiset{x};
        assert b == b[..j] + ([x] + b[j + 1..]);
        assert multiset(b) == multiset(b[..j]) + multiset{x} + multiset(b[j + 1..]);
        assert multiset(rest) == multiset(b[..j]) + multiset(b[j + 1..]);
        MultisetCancel(multiset(init), multiset(rest), x);
      }
      CountWherePermutation(init, rest, f);
      CountWhereRemove(b, j, f);
      CountWhereAppend(init, [x], f);
    }
  }

  lemma MultisetCancel<T>(p: multiset<T>, q: multiset<T>, x: T)
    requires p + multiset{x} == q + multiset{x}
    ensures p == q
  {
    forall y ensures p[y] == q[y] {
      assert (p + multiset{x})[y] == (q + multiset{x})[y];
    }
  }

  /** A predicate no element satisfies counts zero. */
  lemma {:induction false} CountWhereNone<T>(xs: seq<T>, f: T -> bool)
    requires forall i :: 0 <= i < |xs| ==> !f(xs[i])
    ensures CountWhere(xs, f) == 0
  {
    if |xs| > 0 {
      CountWhereNone(xs[..|xs| - 1], f);
    }
  }

  /** Every element satisfies exactly one of a predicate and its negation. */
  lemma {:induction false} CountWhereComplement<T>(xs: seq<T>, f: T -> bool, g: T -> bool)
    requires forall x :: g(x) <==> !f(x)
    ensures CountWhere(xs, f) + CountWhere(xs, g) == |xs|
  {
    if |xs| > 0 {
      CountWhereComplement(xs[..|xs| - 1], f, g);
    }
  }

  // ---------------------------------------------------------------------
  // File-safe names

  /** A character of `[a-zA-Z0-9_-]`. */
  predicate IsNameChar(c: char) {
    IsAsciiAlnum(c) || c == '_' || c == '-'
  }

  /** One or more characters, all of `[a-zA-Z0-9_-]`: what the name
      validators mean to accept. */
  predicate IsSafeName(s: string) {
    |s| > 0 && forall i :: 0 <= i < |s| ==> IsNameChar(s[i])
  }

  /** `re.match(r"^[a-zA-Z0-9_-]+$", s)` as Python evaluates it: without
      MULTILINE, `$` matches at the end and also just before a final "\n". */
  predicate NamePatternMatches(s: string) {
    IsSafeName(s) || (|s| >= 2 && s[|s| - 1] == '\n' && IsSafeName(s[..|s| - 1]))
  }

  /** The pattern as written lets a trailing newline through. */
  lemma NamePatternAdmitsNewline()
    ensures NamePatternMatches("demo\n") && !IsSafeName("demo\n")
  {
    assert "demo\n"[..4] == "demo";
    assert !IsNameChar("demo\n"[4]);
  }

  // ---------------------------------------------------------------------
  // Lines, character replacement and Python slices

  /** The first occurrence of `c` is where it sits when no earlier character is `c`. */
  lemma IndexOfCharIs(s: string, c: char, k: nat)
    requires k < |s| && s[k] == c && c !in s[..k]
    ensures IndexOfChar(s, c) == k
  {
  }

  /** Splitting a join on its separator recovers the parts when no part
      holds the separator: "\n".join(lines).split("\n") == lines. */
  lemma {:induction false} SplitJoin(parts: seq<string>, c: char)
    requires |parts| >= 1
    requires forall p :: p in parts ==> c !in p
    ensures Split(Join(parts, [c]), c) == parts
    decreases |parts|
  {
    if |parts| > 1 {
      var s := Join(parts, [c]);
      var rest := Join(parts[1..], [c]);
      var k := |parts[0]|;
      assert s == parts[0] + [c] + rest;
      assert s[..k] == parts[0];
      assert s[k + 1..] == rest;
      IndexOfCharIs(s, c, k);
      SplitJoin(parts[1..], c);
    }
  }

  /** str.replace(x, y) for one character replaced by another. */
  function ReplaceChar(s: string, x: char, y: char): (r: string)
    ensures |r| == |s|
    ensures forall i :: 0 <= i < |s| ==> r[i] == if s[i] == x then y else s[i]
  {
    if |s| == 0 then [] else ReplaceChar(s[..|s| - 1], x, y) + [if s[|s| - 1] == x then y else s[|s| - 1]]
  }

  /** After replacing every `x` by a different character, no `x` is left. */
  lemma ReplacedGone(s: string, x: char, y: char)
    requires x != y
    ensures x !in ReplaceChar(s, x, y)
  {
  }

  /** Where a Python slice bound `n` falls in a sequence of length `len`:
      a negative bound counts from the end, and both are clamped to [0, len]. */
  function SliceBound(n: int, len: nat): (b: nat)
    ensures b <= len
    ensures 0 <= n <= len ==> b == n
    ensures n > len ==> b == len
    ensures n < 0 ==> b == MaxInt(len + n, 0)
  {
    if n < 0 then (if len + n < 0 then 0 else len + n) else if n > len then len else n
  }

  /** Python's `s[a:b]` for any integers a and b. */
  function Slice<T>(s: seq<T>, a: int, b: int): (r: seq<T>)
    ensures |r| <= |s|
    ensures SliceBound(a, |s|) <= SliceBound(b, |s|) ==> r == s[SliceBound(a, |s|)..SliceBound(b, |s|)]
    ensures SliceBound(a, |s|) > SliceBound(b, |s|) ==> r == []
  {
    var i, j := SliceBound(a, |s|), SliceBound(b, |s|);
    if i <= j then s[i..j] else []
  }

  predicate Distinct<T(==)>(s: seq<T>) {
    forall i, j :: 0 <= i < j < |s| ==> s[i] != s[j]
  }

  /** `s` without `x`, the rest in order. */
  function Without<T(==,!new)>(s: seq<T>, x: T): (r: seq<T>)
    decreases |s|
    ensures forall y :: y in r <==> y in s && y != x
    ensures Distinct(s) ==> Distinct(r)
  {
    if |s| == 0 then []
    else
      var rest := Without(s[1..], x);
      assert forall y :: y in s[1..] ==> y in s;
      if s[0] == x then rest
      else
        assert Distinct(s) ==> s[0] !in rest;
        assert forall k :: 1 <= k <= |rest| ==> ([s[0]] + rest)[k] == rest[k - 1];
        [s[0]] + rest
  }

  lemma {:induction false} WithoutAbsent<T(!new)>(s: seq<T>, x: T)
    requires x !in s
    ensures Without(s, x) == s
    decreases |s|
  {
    if |s| > 0 {
      WithoutAbsent(s[1..], x);
    }
  }

  /** A sequence without repetitions has as many elements as its set. */
  lemma {:induction false} DistinctCard<T>(s: seq<T>)
    requires Distinct(s)
    ensures |set x | x in s| == |s|
    decreases |s|
  {
    if |s| > 0 {
      var rest := s[1..];
      assert Distinct(rest) by {
        forall i, j | 0 <= i < j < |rest| ensures rest[i] != rest[j] {
          assert rest[i] == s[i + 1] && rest[j] == s[j + 1];
        }
      }
      DistinctCard(rest);
      assert s[0] !in rest;
      assert (set x | x in s) == (set x | x in rest) + {s[0]};
    }
  }
}
