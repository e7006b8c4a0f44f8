/** The paper-review graders that read an XML-tagged LLM reply: the format
    checker (a 0/1 score, a reasoning text and a list of violations) and the
    jailbreaking detector (an abuse/ok answer). The model's reply is an
    input: the text it returned, or the message of the exception it raised.

    Each regular expression of the source is written out as the scan it
    performs: `re.search` tries start positions from left to right and
    returns the first position where the pattern matches. */
module ReviewResponses {
  import opened Common
  import opened JsonValue
  import opened GraderSchema

  // ---------------------------------------------------------------------
  // <tag>(.*?)</tag> with DOTALL

  /** The first index at or after `from` where `sub` occurs (str.find). */
  function Scan(s: string, sub: string, from: nat): (r: Option<nat>)
    ensures r.Some? ==> from <= r.value && r.value + |sub| <= |s|
    decreases |s| + 1 - from
  {
    if from + |sub| > |s| then None
    else if s[from..from + |sub|] == sub then Some(from)
    else Scan(s, sub, from + 1)
  }

  /** Scan finds the first occurrence, and reports none only when there is none. */
  lemma {:induction false} ScanFacts(s: string, sub: string, from: nat)
    ensures Scan(s, sub, from).Some? ==> var j := Scan(s, sub, from).value;
      from <= j && OccursAt(s, sub, j) && forall k :: from <= k < j ==> !OccursAt(s, sub, k)
    ensures Scan(s, sub, from).None? ==> forall k :: from <= k ==> !OccursAt(s, sub, k)
    decreases |s| + 1 - from
  {
    if from + |sub| <= |s| && s[from..from + |sub|] != sub { ScanFacts(s, sub, from + 1); }
  }

  /** A search that meets no character `sub` could start with stops at the
      first place `sub` occurs. */
  lemma {:induction false} ScanSkips(s: string, sub: string, from: nat, j: nat)
    requires |sub| > 0 && from <= j && OccursAt(s, sub, j)
    requires forall k :: from <= k < j ==> s[k] != sub[0]
    ensures Scan(s, sub, from) == Some(j)
    decreases j - from
  {
    if from < j {
      assert s[from..from + |sub|][0] == s[from];
      ScanSkips(s, sub, from + 1, j);
    }
  }

  /** `re.search(open + "(.*?)" + close, text, re.DOTALL)`, group 1: the text
      between the first `open` and the first `close` after it. */
  function TagInner(text: string, open: string, close: string): Option<string> {
    match Scan(text, open, 0)
    case None => None
    case Some(i) =>
      match Scan(text, close, i + |open|)
      case None => None
      case Some(j) => if j <= |text| && i + |open| <= j then Some(text[i + |open|..j]) else None
  }

  /** What TagInner finds sits right after an opening tag and right before
      a closing tag, and holds no closing tag itself. */
  lemma TagInnerFacts(text: string, open: string, close: string)
    requires |close| > 0
    ensures TagInner(text, open, close).Some? ==> exists i :: (OccursAt(text, open, i)
      && OccursAt(text, TagInner(text, open, close).value + close, i + |open|))
    ensures TagInner(text, open, close).Some? ==> !Contains(TagInner(text, open, close).value, close)
  {
    match Scan(text, open, 0)
    case None =>
    case Some(i) =>
      ScanFacts(text, open, 0);
      ScanFacts(text, close, i + |open|);
      match Scan(text, close, i + |open|)
      case None =>
      case Some(j) =>
        BetweenTags(text, close, i + |open|, j);
        assert TagInner(text, open, close) == Some(text[i + |open|..j]);
        assert OccursAt(text, open, i);
  }

  /** With no opening tag in the text there is no match. */
  lemma TagInnerNeedsOpen(text: string, open: string, close: string)
    ensures !Contains(text, open) ==> TagInner(text, open, close).None?
  {
    ScanFacts(text, open, 0);
    if Scan(text, open, 0).Some? {
      var i := Scan(text, open, 0).value;
      assert OccursAt(text, open, i);
    }
  }

  /** The text up to the first closing tag after `a` holds no closing tag. */
  lemma BetweenTags(text: string, close: string, a: nat, j: nat)
    requires |close| > 0 && a <= j && OccursAt(text, close, j)
    requires forall k :: a <= k < j ==> !OccursAt(text, close, k)
    ensures OccursAt(text, text[a..j] + close, a)
    ensures !Contains(text[a..j], close)
  {
    var v := text[a..j];
    assert text[a..j + |close|] == v + text[j..j + |close|];
    forall k | 0 <= k <= |v| && OccursAt(v, close, k) ensures false {
      assert k + |close| <= |v|;
      var t1 := text[a + k..a + k + |close|];
      var t2 := v[k..k + |close|];
      forall m | 0 <= m < |close| ensures t1[m] == t2[m] { assert v[k + m] == text[a + k + m]; }
      assert t1 == t2;
      assert OccursAt(text, close, a + k);
    }
  }

  /** The tags at `i` and `j` are the ones found when nothing before them
      starts like them. */
  lemma TagInnerAt(text: string, open: string, close: string, i: nat, j: nat)
    requires |open| > 0 && |close| > 0 && OccursAt(text, open, i) && OccursAt(text, close, j)
    requires i + |open| <= j
    requires forall k :: 0 <= k < i ==> text[k] != open[0]
    requires forall k :: i + |open| <= k < j ==> text[k] != close[0]
    ensures TagInner(text, open, close) == Some(text[i + |open|..j])
  {
    ScanSkips(text, open, 0, i);
    ScanSkips(text, close, i + |open|, j);
  }

  /** A reply written as `pre <open> x <close> post`, where neither `pre`
      nor `x` holds a '<', gives back `x`: the partner of TagInner. */
  lemma TagInnerWrapped(pre: string, open: string, x: string, close: string, post: string)
    requires |open| > 0 && open[0] == '<' && |close| > 0 && close[0] == '<'
    requires '<' !in pre && '<' !in x
    ensures TagInner(pre + open + x + close + post, open, close) == Some(x)
  {
    var text := pre + open + x + close + post;
    var p := |pre| + |open|;
    assert text[..p + |x|] == pre + open + x;
    assert text[p..p + |x|] == x;
    assert OccursAt(text, open, |pre|) by { assert text[|pre|..p] == open; }
    assert OccursAt(text, close, p + |x|) by { assert text[p + |x|..p + |x| + |close|] == close; }
    forall k | 0 <= k < |pre| ensures text[k] != open[0] { assert text[k] == pre[k]; }
    forall k | p <= k < p + |x| ensures text[k] != close[0] { assert text[k] == text[p..p + |x|][k - p]; }
    TagInnerAt(text, open, close, |pre|, p + |x|);
  }

  // ---------------------------------------------------------------------
  // <result>\s*(\d+)\s*</result>

  /** Length of the run of ASCII digits `s` starts with. */
  function DigitRun(s: string): (n: nat)
    ensures n <= |s|
    ensures forall k :: 0 <= k < n ==> IsDigit(s[k])
    ensures n < |s| ==> !IsDigit(s[n])
  {
    if |s| == 0 || !IsDigit(s[0]) then 0 else 1 + DigitRun(s[1..])
  }

  /** The integer the result pattern captures when it matches at index `i`.
      The runs of blanks and digits cannot trade characters, so the greedy
      reading is the only one. */
  function ResultAt(text: string, i: nat): Option<nat> {
    if !OccursAt(text, "<result>", i) then None
    else
      var p := i + 8;
      var a := LeadingSpace(text[p..]);
      var d := DigitRun(text[p + a..]);
      var q := p + a + d;
      var b := LeadingSpace(text[q..]);
      if d > 0 && OccursAt(text, "</result>", q + b) then Some(DigitsValue(text[p + a..q]))
      else None
  }

  /** The leftmost match of the result pattern at or after `from`. */
  function FirstResult(text: string, from: nat): Option<nat>
    decreases |text| + 1 - from
  {
    if from > |text| then None
    else if ResultAt(text, from).Some? then ResultAt(text, from)
    else FirstResult(text, from + 1)
  }

  /** FirstResult reports the match at the leftmost index where there is
      one, and none exactly when the pattern matches nowhere. */
  lemma {:induction false} FirstResultFacts(text: string, from: nat)
    ensures FirstResult(text, from).Some? ==> exists i :: (from <= i <= |text|
      && ResultAt(text, i) == FirstResult(text, from) && forall k :: from <= k < i ==> ResultAt(text, k).None?)
    ensures FirstResult(text, from).None? ==> forall k :: from <= k <= |text| ==> ResultAt(text, k).None?
    decreases |text| + 1 - from
  {
    if from > |text| {
    } else if ResultAt(text, from).Some? {
      assert FirstResult(text, from) == ResultAt(text, from);
    } else {
      assert FirstResult(text, from) == FirstResult(text, from + 1);
      FirstResultFacts(text, from + 1);
      if FirstResult(text, from + 1).Some? {
        var i :| from + 1 <= i <= |text| && ResultAt(text, i) == FirstResult(text, from + 1)
          && forall k :: from + 1 <= k < i ==> ResultAt(text, k).None?;
        assert forall k :: from <= k < i ==> ResultAt(text, k).None?;
      }
    }
  }

  /** The search returns the match at the first index where there is one. */
  lemma {:induction false} FirstResultAt(text: string, from: nat, j: nat)
    requires from <= j <= |text| && ResultAt(text, j).Some?
    requires forall k :: from <= k < j ==> ResultAt(text, k).None?
    ensures FirstResult(text, from) == ResultAt(text, j)
    decreases j - from
  {
    if from < j { FirstResultAt(text, from + 1, j); }
  }

  /** The digits between the two tags at `i` are what the pattern captures. */
  lemma ResultAtIndex(text: string, i: nat, q: nat)
    requires OccursAt(text, "<result>", i) && i + 8 < q && OccursAt(text, "</result>", q)
    requires forall k :: i + 8 <= k < q ==> IsDigit(text[k])
    ensures ResultAt(text, i) == Some(DigitsValue(text[i + 8..q]))
  {
    var p := i + 8;
    var t := text[p..];
    assert t[0] == text[p];
    assert LeadingSpace(t) == 0;
    assert t[q - p] == text[q..q + 9][0] == '<';
    DigitRunAt(t, q - p);
    var u := text[q..];
    assert u[0] == '<';
    assert LeadingSpace(u) == 0;
  }

  lemma {:induction false} DigitRunAt(s: string, n: nat)
    requires n < |s| && !IsDigit(s[n]) && forall k :: 0 <= k < n ==> IsDigit(s[k])
    ensures DigitRun(s) == n
    decreases n
  {
    if n > 0 { DigitRunAt(s[1..], n - 1); }
  }

  lemma ResultAtDigits(pre: string, n: nat, post: string)
    ensures ResultAt(pre + "<result>" + NatToString(n) + "</result>" + post, |pre|) == Some(n)
  {
    var digits := NatToString(n);
    var text := pre + "<result>" + digits + "</result>" + post;
    var p := |pre| + 8;
    var q := p + |digits|;
    assert text[..q] == pre + "<result>" + digits;
    assert text[p..q] == digits;
    assert OccursAt(text, "<result>", |pre|) by { assert text[|pre|..p] == "<result>"; }
    assert OccursAt(text, "</result>", q) by { assert text[q..q + 9] == "</result>"; }
    forall k | p <= k < q ensures IsDigit(text[k]) { assert text[k] == text[p..q][k - p]; }
    ResultAtIndex(text, |pre|, q);
    DigitsOfNat(n);
  }

  // ---------------------------------------------------------------------
  // Violations:\s*(.+?)(?:\n|$)

  /** Index of the first newline at or after `from`, or the end of `s`. */
  function LineEnd(s: string, from: nat): (k: nat)
    requires from <= |s|
    ensures from <= k <= |s|
    ensures forall m :: from <= m < k ==> s[m] != '\n'
    ensures k < |s| ==> s[k] == '\n'
    decreases |s| - from
  {
    if from == |s| || s[from] == '\n' then from else LineEnd(s, from + 1)
  }

  /** Index of the last character of `s` that is not a newline. */
  function LastNotNewline(s: string): (r: Option<nat>)
    ensures r.Some? ==> r.value < |s| && s[r.value] != '\n' && forall m :: r.value < m < |s| ==> s[m] == '\n'
    ensures r.None? ==> forall m :: 0 <= m < |s| ==> s[m] == '\n'
  {
    if |s| == 0 then None
    else if s[|s| - 1] != '\n' then Some(|s| - 1)
    else LastNotNewline(s[..|s| - 1])
  }

  const ViolationsLabel := "Violations:"

  /** Group 1 of the violations pattern. After the label the greedy `\s*`
      eats every blank, newlines included; the lazy group then runs to the
      end of that line. When only blanks follow the label the engine gives
      back blanks until the group can take one that is not a newline. */
  function ViolationsGroup(reasoning: string): (r: Option<string>)
    ensures r.Some? ==> |r.value| > 0 && '\n' !in r.value
  {
    match Scan(reasoning, ViolationsLabel, 0)
    case None => None
    case Some(i) =>
      var p := i + |ViolationsLabel|;
      var tail := reasoning[p..];
      var w := LeadingSpace(tail);
      if p + w < |reasoning| then
        var k := LineEnd(reasoning, p + w + 1);
        assert reasoning[p + w] == tail[w];
        OneLine(reasoning, p + w, k);
        Some(reasoning[p + w..k])
      else
        match LastNotNewline(tail)
        case None => None
        case Some(m) => Some([tail[m]])
  }

  /** A run that starts with a character other than a newline and holds
      no newline after it is a non-empty piece of one line. */
  lemma OneLine(s: string, a: nat, k: nat)
    requires a < k <= |s| && s[a] != '\n'
    requires forall m :: a + 1 <= m < k ==> s[m] != '\n'
    ensures |s[a..k]| > 0 && '\n' !in s[a..k]
  {
  }

  /** Without the label there is no group. */
  lemma ViolationsNeedLabel(reasoning: string)
    ensures !Contains(reasoning, ViolationsLabel) ==> ViolationsGroup(reasoning).None?
  {
    ScanFacts(reasoning, ViolationsLabel, 0);
    if Scan(reasoning, ViolationsLabel, 0).Some? {
      var i := Scan(reasoning, ViolationsLabel, 0).value;
      assert OccursAt(reasoning, ViolationsLabel, i);
    }
  }

  /** `[v.strip() for v in group.split(",")]`. */
  function TrimAll(parts: seq<string>): (r: seq<string>)
    ensures |r| == |parts|
    ensures forall k :: 0 <= k < |r| ==> r[k] == Trim(parts[k])
  {
    if |parts| == 0 then [] else [Trim(parts[0])] + TrimAll(parts[1..])
  }

  function Violations(reasoning: string): (vs: seq<string>)
    ensures vs == [] <==> ViolationsGroup(reasoning).None?
    ensures forall v :: v in vs ==> ',' !in v && '\n' !in v
    ensures forall k :: 0 <= k < |vs| ==> vs[k] == [] || (!IsSpace(vs[k][0]) && !IsSpace(vs[k][|vs[k]| - 1]))
  {
    match ViolationsGroup(reasoning)
    case None => []
    case Some(g) =>
      var parts := Split(g, ',');
      TrimmedPartsClean(g);
      TrimAll(parts)
  }

  /** The trimmed comma-separated parts of one line hold neither a comma
      nor a newline. */
  lemma TrimmedPartsClean(g: string)
    requires '\n' !in g
    ensures forall v :: v in TrimAll(Split(g, ',')) ==> ',' !in v && '\n' !in v
  {
    var parts := Split(g, ',');
    var vs := TrimAll(parts);
    SplitPartsOutOf(g, ',', '\n');
    forall k | 0 <= k < |vs| ensures ',' !in vs[k] && '\n' !in vs[k] {
      assert parts[k] in parts;
      TrimKeepsOut(parts[k], ',');
      TrimKeepsOut(parts[k], '\n');
    }
  }

  lemma TrimKeepsOut(s: string, c: char)
    requires c !in s
    ensures c !in Trim(s)
  {
    var a := LeadingSpace(s);
    var t := s[a..];
    var b := TrailingSpace(t);
    assert Trim(s) == t[..|t| - b];
    forall k | 0 <= k < |t| - b ensures Trim(s)[k] != c { assert Trim(s)[k] == t[k] == s[a + k]; }
  }

  /** Splitting a text free of `d` gives parts free of `d`. */
  lemma {:induction false} SplitPartsOutOf(s: string, sep: char, d: char)
    requires d !in s
    ensures forall p :: p in Split(s, sep) ==> d !in p
    decreases |s|
  {
    if sep in s {
      var i := IndexOfChar(s, sep);
      var head, tail := s[..i], s[i + 1..];
      assert d !in head by {
        forall k | 0 <= k < |head| ensures head[k] != d { assert head[k] == s[k]; }
      }
      assert d !in tail by {
        forall k | 0 <= k < |tail| ensures tail[k] != d { assert tail[k] == s[i + 1 + k]; }
      }
      SplitPartsOutOf(tail, sep, d);
      assert Split(s, sep) == [head] + Split(tail, sep);
    }
  }

  /** A reasoning whose only "Violations:" line lists trimmed, comma-free
      items separated by commas gives those items back. */
  lemma ViolationsListed(pre: string, items: seq<string>, post: string)
    requires 'V' !in pre && |items| > 0
    requires forall v :: v in items ==> ',' !in v && '\n' !in v
    requires forall v :: v in items ==> |v| > 0 && !IsSpace(v[0]) && !IsSpace(v[|v| - 1])
    ensures Violations(pre + ViolationsLabel + " " + Join(items, ",") + "\n" + post) == items
  {
    var body := Join(items, ",");
    assert items[0] in items;
    JoinStartsWith(items, ",");
    JoinOutOf(items, ",", '\n');
    LabelLineGroup(pre, body, post);
    ViolationsOf(pre + ViolationsLabel + " " + body + "\n" + post, body);
    SplitJoin(items, ',');
    TrimAllUnspaced(items);
  }

  /** Trimming items that neither start nor end with a blank keeps them. */
  lemma TrimAllUnspaced(items: seq<string>)
    requires forall v :: v in items ==> |v| > 0 && !IsSpace(v[0]) && !IsSpace(v[|v| - 1])
    ensures TrimAll(items) == items
  {
    forall k | 0 <= k < |items| ensures TrimAll(items)[k] == items[k] {
      assert items[k] in items;
      TrimUnspaced(items[k]);
    }
  }

  /** The group of a line "Violations: body" is the body, when nothing
      before it contains the label's first letter. */
  lemma LabelLineGroup(pre: string, body: string, post: string)
    requires 'V' !in pre && |body| > 0 && !IsSpace(body[0]) && '\n' !in body
    ensures ViolationsGroup(pre + ViolationsLabel + " " + body + "\n" + post) == Some(body)
  {
    var text := pre + ViolationsLabel + " " + body + "\n" + post;
    var n := |pre|;
    var e := n + 12 + |body|;
    LabelLineParts(pre, body, post);
    forall k | 0 <= k < n ensures text[k] != 'V' { assert text[k] == text[..n][k]; }
    assert text[n + 12] == text[n + 12..e][0];
    forall m | n + 12 <= m < e ensures text[m] != '\n' { assert text[m] == text[n + 12..e][m - n - 12]; }
    LabelLineGroupAt(text, n, e);
  }

  /** Index form: the label at `n` (with no 'V' before it), one blank, a
      non-blank start at `n + 12` and the line ending at `e`. */
  lemma LabelLineGroupAt(text: string, n: nat, e: nat)
    requires n + 12 < e < |text| && text[n..n + 11] == ViolationsLabel
    requires forall k :: 0 <= k < n ==> text[k] != 'V'
    requires text[n + 11] == ' ' && !IsSpace(text[n + 12]) && text[e] == '\n'
    requires forall m :: n + 12 <= m < e ==> text[m] != '\n'
    ensures ViolationsGroup(text) == Some(text[n + 12..e])
  {
    var p := n + 11;
    ScanSkips(text, ViolationsLabel, 0, n);
    assert LeadingSpace(text[p..]) == 1 by {
      assert text[p..][0] == ' ' && text[p..][1] == text[p + 1];
    }
    LineEndAt(text, p + 2, e);
    ViolationsGroupAt(text, n, 1, e);
  }

  /** Where the pieces of a labelled line sit in the text built from them. */
  lemma LabelLineParts(pre: string, body: string, post: string)
    ensures var text := pre + ViolationsLabel + " " + body + "\n" + post;
      && text[..|pre|] == pre && text[|pre|..|pre| + 11] == ViolationsLabel
      && text[|pre| + 11] == ' ' && text[|pre| + 12..|pre| + 12 + |body|] == body
      && text[|pre| + 12 + |body|] == '\n'
  {
  }

  lemma ViolationsGroupAt(text: string, i: nat, w: nat, k: nat)
    requires Scan(text, ViolationsLabel, 0) == Some(i) && i + 11 + w < |text|
    requires LeadingSpace(text[i + 11..]) == w && LineEnd(text, i + 11 + w + 1) == k
    ensures ViolationsGroup(text) == Some(text[i + 11 + w..k])
  {
    var p := i + |ViolationsLabel|;
    assert p == i + 11;
    assert p + w < |text|;
  }

  lemma ViolationsOf(text: string, g: string)
    requires ViolationsGroup(text) == Some(g)
    ensures Violations(text) == TrimAll(Split(g, ','))
  {
  }

  lemma JoinStartsWith(parts: seq<string>, sep: string)
    requires |parts| > 0 && |parts[0]| > 0
    ensures |Join(parts, sep)| > 0 && Join(parts, sep)[0] == parts[0][0]
  {
  }

  lemma {:induction false} JoinOutOf(parts: seq<string>, sep: string, d: char)
    requires d !in sep && forall p :: p in parts ==> d !in p
    ensures d !in Join(parts, sep)
    decreases |parts|
  {
    if |parts| > 1 {
      assert parts[0] in parts;
      forall p | p in parts[1..] ensures d !in p { assert p in parts; }
      JoinOutOf(parts[1..], sep, d);
    } else if |parts| == 1 {
      assert parts[0] in parts;
    }
  }

  lemma {:induction false} LineEndAt(s: string, from: nat, k: nat)
    requires from <= k < |s| && s[k] == '\n'
    requires forall m :: from <= m < k ==> s[m] != '\n'
    ensures LineEnd(s, from) == k
    decreases k - from
  {
    if from < k { LineEndAt(s, from + 1, k); }
  }

  // ---------------------------------------------------------------------
  // Format compliance

  datatype FormatParse = FormatParse(score: nat, reasoning: string, violations: seq<string>)

  /** parse_format_response: the trimmed <reasoning> text or the whole reply,
      the integer of the leftmost <result> match or 0, and the violations
      listed in the reasoning. */
  function ParseFormat(text: string): (r: FormatParse)
    ensures TagInner(text, "<reasoning>", "</reasoning>").None? ==> r.reasoning == text
    ensures TagInner(text, "<reasoning>", "</reasoning>").Some? ==> r.reasoning == Trim(TagInner(text, "<reasoning>", "</reasoning>").value)
    ensures r.score != 0 ==> exists i :: 0 <= i <= |text| && ResultAt(text, i) == Some(r.score)
    ensures (forall i :: 0 <= i <= |text| ==> ResultAt(text, i).None?) ==> r.score == 0
    ensures r.violations == [] <==> ViolationsGroup(r.reasoning).None?
  {
    var reasoning := match TagInner(text, "<reasoning>", "</reasoning>")
      case Some(inner) => Trim(inner)
      case None => text;
    FirstResultFacts(text, 0);
    var score := FirstResult(text, 0).GetOr(0);
    FormatParse(score, reasoning, Violations(reasoning))
  }

  /** One character that differs rules out an occurrence. */
  lemma NotAt(text: string, word: string, k: nat, m: nat)
    requires m < |word| && (k + m >= |text| || text[k + m] != word[m])
    ensures !OccursAt(text, word, k)
  {
    if k + |word| <= |text| { assert text[k..k + |word|][m] == text[k + m] != word[m]; }
  }

  /** A well-formed format reply parses back into its parts. */
  lemma FormatReplyParses(reasoning: string, n: nat)
    requires '<' !in reasoning
    ensures ParseFormat("<reasoning>" + reasoning + "</reasoning>" + "<result>" + NatToString(n) + "</result>")
      == FormatParse(n, Trim(reasoning), Violations(Trim(reasoning)))
  {
    var pre := "<reasoning>" + reasoning + "</reasoning>";
    var rest := "<result>" + NatToString(n) + "</result>";
    var text := pre + rest;
    assert "<reasoning>" + reasoning + "</reasoning>" + "<result>" + NatToString(n) + "</result>" == text;
    assert TagInner(text, "<reasoning>", "</reasoning>") == Some(reasoning) by {
      assert text == "" + "<reasoning>" + reasoning + "</reasoning>" + rest;
      TagInnerWrapped("", "<reasoning>", reasoning, "</reasoning>", rest);
    }
    assert FirstResult(text, 0) == Some(n) by {
      assert text == pre + "<result>" + NatToString(n) + "</result>" + "";
      ResultAtDigits(pre, n, "");
      NoResultInReasoning(reasoning, rest);
      FirstResultAt(text, 0, |pre|);
    }
    ParseFormatOf(text, reasoning, n);
  }

  /** No result tag starts inside a reasoning block free of '<'. */
  lemma NoResultInReasoning(reasoning: string, rest: string)
    requires '<' !in reasoning
    ensures var pre := "<reasoning>" + reasoning + "</reasoning>";
      forall k :: 0 <= k < |pre| ==> ResultAt(pre + rest, k).None?
  {
    var pre := "<reasoning>" + reasoning + "</reasoning>";
    var text := pre + rest;
    var e := 11 + |reasoning|;
    forall k | 0 <= k < |pre| ensures ResultAt(text, k).None? {
      assert text[k] == pre[k];
      if k == 0 {
        assert text[3] == pre[3] == 'a';
        NotAt(text, "<result>", 0, 3);
      } else if k < 11 {
        assert pre[k] == "<reasoning>"[k];
        NotAt(text, "<result>", k, 0);
      } else if k < e {
        assert pre[k] == reasoning[k - 11];
        assert reasoning[k - 11] in reasoning;
        NotAt(text, "<result>", k, 0);
      } else if k == e {
        assert text[k + 1] == pre[k + 1] == '/';
        NotAt(text, "<result>", k, 1);
      } else {
        assert pre[k] == "</reasoning>"[k - e];
        NotAt(text, "<result>", k, 0);
      }
    }
  }

  lemma ParseFormatOf(text: string, inner: string, n: nat)
    requires TagInner(text, "<reasoning>", "</reasoning>") == Some(inner) && FirstResult(text, 0) == Some(n)
    ensures ParseFormat(text) == FormatParse(n, Trim(inner), Violations(Trim(inner)))
  {
  }

  function ViolationsJson(vs: seq<string>): (j: Json)
    ensures j.JArr? && |j.items| == |vs|
    ensures forall k :: 0 <= k < |vs| ==> j.items[k] == JStr(vs[k])
  {
    JArr(seq(|vs|, k requires 0 <= k < |vs| => JStr(vs[k])))
  }

  const FormatGraderName := "format_compliance"

  /** FormatGrader.aevaluate: the model's reply becomes a GraderScore with
      the parsed score, reasoning and violations; an exception anywhere
      becomes a GraderError carrying its message. */
  function EvaluateFormat(reply: Result<string>): (r: GraderResult)
    ensures r.name == FormatGraderName
    ensures reply.Err? <==> r.GraderError?
    ensures reply.Err? ==> r.error == reply.msg && r.reason == ""
    ensures reply.Ok? ==> (r.GraderScore? && r.score == ParseFormat(reply.value).score as real
      && r.reason == ParseFormat(reply.value).reasoning
      && r.metadata == map["violations" := ViolationsJson(ParseFormat(reply.value).violations)])
  {
    match reply
    case Err(e) => GraderError(FormatGraderName, "", e, map[])
    case Ok(content) =>
      var parsed := ParseFormat(content);
      GraderScore(FormatGraderName, parsed.score as real, parsed.reasoning,
                  map["violations" := ViolationsJson(parsed.violations)])
  }

  // ---------------------------------------------------------------------
  // Jailbreaking detection


  /** The lower-cased answer `<answer>\s*(abuse|ok)\s*</answer>` captures at
      index `i` (case-insensitive). The two alternatives start with
      different letters, so at most one of them can match. */
  function AnswerAt(text: string, i: nat): (r: Option<string>)
    ensures r.Some? ==> r.value == "abuse" || r.value == "ok"
  {
    if !CaselessAt(text, "<answer>", i) then None else AnswerAfter(text, i + 8)
  }

  /** The rest of the answer pattern, from just after the opening tag at `p`. */
  function AnswerAfter(text: string, p: nat): (r: Option<string>)
    ensures r.Some? ==> r.value == "abuse" || r.value == "ok"
  {
    if p > |text| then None
    else
      var a := LeadingSpace(text[p..]);
      var word := if CaselessAt(text, "abuse", p + a) then "abuse"
                  else if CaselessAt(text, "ok", p + a) then "ok" else "";
      if word == "" then None
      else
        var q := p + a + |word|;
        var b := LeadingSpace(text[q..]);
        if CaselessAt(text, "</answer>", q + b) then Some(word) else None
  }

  function FirstAnswer(text: string, from: nat): (r: Option<string>)
    ensures r.Some? ==> r.value == "abuse" || r.value == "ok"
    decreases |text| + 1 - from
  {
    if from > |text| then None
    else if AnswerAt(text, from).Some? then AnswerAt(text, from)
    else FirstAnswer(text, from + 1)
  }

  /** The search finds the leftmost index with an answer tag, and finds
      nothing exactly when no index has one. */
  lemma FirstAnswerFacts(text: string, from: nat)
    ensures FirstAnswer(text, from).Some? ==> exists i :: (from <= i <= |text|
      && AnswerAt(text, i) == FirstAnswer(text, from) && forall k :: from <= k < i ==> AnswerAt(text, k).None?)
    ensures FirstAnswer(text, from).None? ==> forall k :: from <= k <= |text| ==> AnswerAt(text, k).None?
  {
    if FirstAnswer(text, from).Some? {
      var i := FirstAnswerIndex(text, from);
    } else {
      FirstAnswerNone(text, from);
    }
  }

  /** Where the search stops when it finds an answer. */
  lemma {:induction false} FirstAnswerIndex(text: string, from: nat) returns (i: nat)
    requires FirstAnswer(text, from).Some?
    ensures from <= i <= |text| && AnswerAt(text, i) == FirstAnswer(text, from)
    ensures forall k :: from <= k < i ==> AnswerAt(text, k).None?
    decreases |text| + 1 - from
  {
    assert from <= |text|;
    if AnswerAt(text, from).Some? {
      i := from;
    } else {
      assert FirstAnswer(text, from) == FirstAnswer(text, from + 1);
      var none := AnswerAt(text, from).None?;
      i := FirstAnswerIndex(text, from + 1);
      forall k | from <= k < i ensures AnswerAt(text, k).None? {
        if k == from { assert none; }
      }
    }
  }

  lemma {:induction false} FirstAnswerNone(text: string, from: nat)
    requires FirstAnswer(text, from).None?
    ensures forall k :: from <= k <= |text| ==> AnswerAt(text, k).None?
    decreases |text| + 1 - from
  {
    if from <= |text| {
      var none := AnswerAt(text, from).None?;
      FirstAnswerNone(text, from + 1);
      forall k | from <= k <= |text| ensures AnswerAt(text, k).None? {
        if k == from { assert none; }
      }
    }
  }

  datatype JailbreakParse = JailbreakParse(isAbuse: bool, reasoning: string)

  /** parse_jailbreaking_response: abuse iff the first answer tag says
      "abuse" in any case; no answer tag reads as "ok". */
  function ParseJailbreak(text: string): (r: JailbreakParse)
    ensures r.isAbuse <==> FirstAnswer(text, 0) == Some("abuse")
    ensures !r.isAbuse <==> FirstAnswer(text, 0).GetOr("ok") == "ok"
    ensures TagInner(text, "<reasoning>", "</reasoning>").None? ==> r.reasoning == text
  {
    var reasoning := match TagInner(text, "<reasoning>", "</reasoning>")
      case Some(inner) => Trim(inner)
      case None => text;
    var answer := FirstAnswer(text, 0).GetOr("ok");
    JailbreakParse(answer == "abuse", reasoning)
  }

  /** An answer tag written in any letter case is read the same: a reply
      whose first tag is an upper-case answer tag is judged abusive exactly
      when the lower-cased answer is "abuse". */
  lemma AnswerIgnoresCase(pre: string, word: string)
    requires '<' !in pre && (Lower(word) == "abuse" || Lower(word) == "ok")
    ensures ParseJailbreak(pre + "<ANSWER>" + word + "</Answer>").isAbuse <==> Lower(word) == "abuse"
  {
    var text := pre + "<ANSWER>" + word + "</Answer>";
    AnswerParts(pre, word);
    UpperAnswerAt(text, |pre|, word);
    NoAnswerBefore(pre, text);
    FirstAnswerAt(text, 0, |pre|);
  }

  /** No answer tag opens inside a prefix free of '<'. */
  lemma NoAnswerBefore(pre: string, text: string)
    requires '<' !in pre && pre <= text
    ensures forall k :: 0 <= k < |pre| ==> AnswerAt(text, k).None?
  {
    forall k | 0 <= k < |pre| ensures AnswerAt(text, k).None? {
      assert text[k] == pre[k];
      NotAnswerAt(text, k);
    }
  }

  /** No answer tag opens where the text has no '<'. */
  lemma NotAnswerAt(text: string, k: nat)
    requires k < |text| && text[k] != '<'
    ensures AnswerAt(text, k).None?
  {
    if k + 8 <= |text| { assert Lower(text[k..k + 8])[0] == LowerChar(text[k]) != '<'; }
  }

  lemma {:induction false} FirstAnswerAt(text: string, from: nat, j: nat)
    requires from <= j <= |text| && AnswerAt(text, j).Some?
    requires forall k :: from <= k < j ==> AnswerAt(text, k).None?
    ensures FirstAnswer(text, from) == AnswerAt(text, j)
    decreases j - from
  {
    if from < j { FirstAnswerAt(text, from + 1, j); }
  }

  lemma UpperAnswerAt(text: string, i: nat, word: string)
    requires Lower(word) == "abuse" || Lower(word) == "ok"
    requires i + 17 + |word| <= |text|
    requires text[i..i + 8] == "<ANSWER>" && text[i + 8..i + 8 + |word|] == word
    requires text[i + 8 + |word|..i + 17 + |word|] == "</Answer>"
    ensures AnswerAt(text, i) == Some(Lower(word))
  {
    var p := i + 8;
    var q := p + |word|;
    assert CaselessAt(text, "<answer>", i) by {
      LowerLiteral("<ANSWER>", "<answer>");
    }
    assert Lower(word)[0] == LowerChar(word[0]);
    assert LeadingSpace(text[p..]) == 0 by {
      assert text[p..][0] == text[p..q][0] == word[0];
    }
    assert LeadingSpace(text[q..]) == 0 by { assert text[q..][0] == text[q..q + 9][0]; }
    assert CaselessAt(text, "</answer>", q) by {
      LowerLiteral("</Answer>", "</answer>");
    }
    AnswerAtIndex(text, i, Lower(word), q);
  }

  /** Where the pieces of an upper-case answer tag sit in the text built from them. */
  lemma AnswerParts(pre: string, word: string)
    ensures var text := pre + "<ANSWER>" + word + "</Answer>";
      && text[|pre|..|pre| + 8] == "<ANSWER>" && text[|pre| + 8..|pre| + 8 + |word|] == word
      && text[|pre| + 8 + |word|..|pre| + 17 + |word|] == "</Answer>"
      && |text| == |pre| + 17 + |word|
  {
  }

  /** An answer tag opened at `i`, holding `w` right after the opening tag
      and closed right after `w` at `q`, captures `w`. */
  lemma AnswerAtIndex(text: string, i: nat, w: string, q: nat)
    requires w == "abuse" || w == "ok"
    requires CaselessAt(text, "<answer>", i) && LeadingSpace(text[i + 8..]) == 0
    requires q == i + 8 + |w| && CaselessAt(text, w, i + 8)
    requires LeadingSpace(text[q..]) == 0 && CaselessAt(text, "</answer>", q)
    ensures AnswerAt(text, i) == Some(w)
  {
    var p := i + 8;
    if w == "ok" {
      assert Lower(text[p..p + 2])[0] == LowerChar(text[p]) == 'o';
      assert !CaselessAt(text, "abuse", p) by {
        if p + 5 <= |text| { assert Lower(text[p..p + 5])[0] == LowerChar(text[p]); }
      }
    }
  }

  lemma LowerLiteral(s: string, t: string)
    requires |s| == |t| && forall k :: 0 <= k < |s| ==> LowerChar(s[k]) == t[k]
    ensures Lower(s) == t
  {
  }

  const JailbreakGraderName := "jailbreaking_detector"

  /** JailbreakingGrader.aevaluate: score 1 for abuse and 0 otherwise, with
      is_abuse in the metadata; an exception becomes a GraderError. */
  function EvaluateJailbreak(reply: Result<string>): (r: GraderResult)
    ensures r.name == JailbreakGraderName
    ensures reply.Err? <==> r.GraderError?
    ensures reply.Err? ==> r.error == reply.msg
    ensures reply.Ok? ==> (r.GraderScore? && (r.score == 1.0 <==> ParseJailbreak(reply.value).isAbuse)
      && (r.score == 0.0 <==> !ParseJailbreak(reply.value).isAbuse)
      && r.metadata == map["is_abuse" := JBool(ParseJailbreak(reply.value).isAbuse)]
      && r.reason == ParseJailbreak(reply.value).reasoning)
  {
    match reply
    case Err(e) => GraderError(JailbreakGraderName, "", e, map[])
    case Ok(content) =>
      var parsed := ParseJailbreak(content);
      GraderScore(JailbreakGraderName, if parsed.isAbuse then 1.0 else 0.0, parsed.reasoning,
                  map["is_abuse" := JBool(parsed.isAbuse)])
  }
}
