/** Verifying references against bibliographic sources: the title and
    author similarities, the overall match score, the per-source checks
    (a DOI lookup, the arXiv and DBLP searches that accept the first good
    hit, the Crossref title search that keeps the best hit), the cascade
    that tries them in order, and the summary of a whole BibTeX text. The
    sources' replies are inputs, already decoded into candidates. */
module BibChecker {
  import opened Common
  import opened ReviewSchema
  import opened BibParse

  // ---------------------------------------------------------------------
  // Sets and the Jaccard index

  lemma {:induction false} SubsetCard<T>(a: set<T>, b: set<T>)
    requires a <= b
    ensures |a| <= |b|
    decreases |b|
  {
    if b - a != {} {
      var x :| x in b - a;
      SubsetCard(a, b - {x});
    } else {
      assert a == b;
    }
  }

  lemma SubsetSameCard<T>(a: set<T>, b: set<T>)
    requires a <= b && |a| == |b|
    ensures a == b
  {
    if b - a != {} {
      var x :| x in b - a;
      SubsetCard(a, b - {x});
    }
  }

  /** |a ∩ b| / |a ∪ b|, and 0 when either set is empty. */
  function Jaccard<T>(a: set<T>, b: set<T>): (r: real)
    ensures 0.0 <= r <= 1.0
    ensures a == {} || b == {} ==> r == 0.0
  {
    if |a| == 0 || |b| == 0 then 0.0
    else
      SubsetCard(a * b, a + b);
      SubsetCard(a, a + b);
      RatioBounds(|a * b|, |a + b|);
      |a * b| as real / |a + b| as real
  }

  /** The index is symmetric, is 1 exactly for two equal non-empty sets,
      and is positive exactly when the sets share an element. */
  lemma JaccardFacts<T>(a: set<T>, b: set<T>)
    ensures Jaccard(a, b) == Jaccard(b, a)
    ensures Jaccard(a, b) == 1.0 <==> a == b && a != {}
    ensures Jaccard(a, b) > 0.0 <==> a * b != {}
  {
    assert a * b == b * a && a + b == b + a;
    if a != {} && b != {} {
      var i, u := |a * b|, |a + b|;
      SubsetCard(a, a + b);
      SubsetCard(a * b, a + b);
      if Jaccard(a, b) == 1.0 {
        assert i as real == u as real;
        SubsetSameCard(a * b, a + b);
        assert a == b by {
          forall x | x in a + b ensures x in a * b { }
        }
      }
      if a == b {
        assert a * b == a + b;
      }
      if a * b != {} {
        var x :| x in a * b;
        assert |a * b| >= 1 by { SubsetCard({x}, a * b); }
      }
    }
  }

  // ---------------------------------------------------------------------
  // Title similarity

  /** re.sub(r"[^\w\s]", "", s): only word characters and whitespace stay. */
  function StripPunct(s: string): (r: string)
    ensures |r| <= |s|
    ensures forall k :: 0 <= k < |r| ==> IsWordChar(r[k]) || IsSpace(r[k])
  {
    if |s| == 0 then ""
    else (if IsWordChar(s[0]) || IsSpace(s[0]) then [s[0]] else []) + StripPunct(s[1..])
  }

  /** The set of lower-cased words of a text, punctuation removed. */
  function WordSet(t: string): set<string> {
    set w | w in Words(StripPunct(Lower(t)))
  }

  /** _text_similarity: the Jaccard index of the two word sets. */
  function TextSimilarity(t1: string, t2: string): (r: real)
    ensures 0.0 <= r <= 1.0
  {
    Jaccard(WordSet(t1), WordSet(t2))
  }

  /** Title similarity is symmetric, a title is fully similar to itself
      exactly when it has a word, and two titles are fully similar exactly
      when they have the same non-empty word set. */
  lemma TextSimilarityFacts(t1: string, t2: string)
    ensures TextSimilarity(t1, t2) == TextSimilarity(t2, t1)
    ensures TextSimilarity(t1, t2) == 1.0 <==> WordSet(t1) == WordSet(t2) && WordSet(t1) != {}
    ensures TextSimilarity(t1, t1) == 1.0 <==> WordSet(t1) != {}
  {
    JaccardFacts(WordSet(t1), WordSet(t2));
    JaccardFacts(WordSet(t1), WordSet(t1));
  }

  // ---------------------------------------------------------------------
  // Author similarity

  /** `\s+and\s+` (any case) at `i`: the index just past the match. */
  function AndAt(s: string, i: nat): (r: Option<nat>)
    ensures r.Some? ==> i + 5 <= r.value <= |s|
  {
    if !(i < |s| && IsSpace(s[i])) then None
    else
      var a := SpaceRun(s, i);
      if !CaselessAt(s, "and", i + a) then None
      else
        var b := SpaceRun(s, i + a + 3);
        if b == 0 then None else Some(i + a + 3 + b)
  }

  /** The leftmost separator at or after `from`: its start and end. */
  function AndSearch(s: string, from: nat): (r: Option<(nat, nat)>)
    ensures r.Some? ==> from <= r.value.0 && r.value.0 + 5 <= r.value.1 <= |s|
    ensures r.Some? ==> AndAt(s, r.value.0) == Some(r.value.1)
    decreases |s| + 1 - from
  {
    if from > |s| then None
    else match AndAt(s, from)
      case Some(j) => Some((from, j))
      case None => AndSearch(s, from + 1)
  }

  /** re.split(r"\s+and\s+", s, flags=re.IGNORECASE). */
  function AndSplit(s: string): (parts: seq<string>)
    ensures |parts| >= 1
    decreases |s|
  {
    match AndSearch(s, 0)
    case None => [s]
    case Some((i, j)) => [s[..i]] + AndSplit(s[j..])
  }

  /** The last name of one BibTeX author: the text before a comma,
      stripped, or else the last word; lower-cased. */
  function LastName(part: string): string {
    if ',' in part then Lower(Trim(part[..IndexOfChar(part, ',')]))
    else
      var ws := Words(part);
      if |ws| == 0 then "" else Lower(ws[|ws| - 1])
  }

  /** The last names of the BibTeX author list, without empty ones and
      without `others`. */
  function BibNames(bibAuthors: string): (names: set<string>)
    ensures "" !in names && "others" !in names
  {
    set p | p in AndSplit(bibAuthors) && LastName(p) != "" && LastName(p) != "others" :: LastName(p)
  }

  /** The lower-cased last words of the matched authors' names. */
  function MatchedNames(names: seq<string>): set<string> {
    set n | n in names && |Words(n)| > 0 :: Lower(Words(n)[|Words(n)| - 1])
  }

  /** _author_similarity: the Jaccard index of the two sets of last names;
      0 when either side has no name. */
  function AuthorSimilarity(bibAuthors: string, matched: seq<string>): (r: real)
    ensures 0.0 <= r <= 1.0
    ensures bibAuthors == "" || |matched| == 0 ==> r == 0.0
  {
    if bibAuthors == "" || |matched| == 0 then 0.0
    else Jaccard(BibNames(bibAuthors), MatchedNames(matched))
  }

  /** A "Last, First" author gives the stripped text before the comma. */
  lemma LastNameWithComma(last: string, first: string)
    requires ',' !in last
    ensures LastName(last + "," + first) == Lower(Trim(last))
  {
    var part := last + "," + first;
    assert part[|last|] == ',';
    assert part[..|last|] == last;
    assert IndexOfChar(part, ',') == |last|;
  }

  /** A "First Last" author gives the last word. */
  lemma LastNameLastWord(first: string, last: string)
    requires ',' !in first && ',' !in last
    requires |last| > 0 && forall k :: 0 <= k < |last| ==> !IsSpace(last[k])
    ensures LastName(first + " " + last) == Lower(last)
  {
    WordsSnoc(first, last);
  }

  // ---------------------------------------------------------------------
  // Match details and the overall score

  /** What a source returned for one hit, after the source's own decoding. */
  datatype Candidate = Candidate(title: string, authors: seq<string>, year: string)

  datatype MatchDetail = MatchDetail(
    titleMatch: real,
    authorMatch: real,
    yearMatch: bool,
    matchedTitle: string,
    matchedAuthors: string,
    matchedYear: string)

  /** The first three author names, joined, with " et al." when there are more. */
  function AuthorsLine(names: seq<string>): string {
    Join(Prefix(names, 3), ", ") + (if |names| > 3 then " et al." else "")
  }

  /** The match detail of one hit: author similarity counts as full when
      the reference has no authors, and the years agree unless both are
      known and differ. */
  function ExtractDetail(ref: Reference, c: Candidate): (d: MatchDetail)
    ensures 0.0 <= d.titleMatch <= 1.0 && 0.0 <= d.authorMatch <= 1.0
    ensures !Filled(ref.authors) ==> d.authorMatch == 1.0
    ensures !d.yearMatch <==> Filled(ref.year) && c.year != "" && ref.year.value != c.year
    ensures d.matchedTitle == c.title && d.matchedYear == c.year
  {
    MatchDetail(
      TextSimilarity(ref.title, c.title),
      if Filled(ref.authors) then AuthorSimilarity(ref.authors.value, c.authors) else 1.0,
      if Filled(ref.year) && c.year != "" then ref.year.value == c.year else true,
      c.title,
      AuthorsLine(c.authors),
      c.year)
  }

  /** _compute_overall_score: title 50%, authors 30%, a year match 20%. */
  function OverallScore(d: MatchDetail): real {
    d.titleMatch * 0.5 + d.authorMatch * 0.3 + (if d.yearMatch then 0.2 else 0.0)
  }

  function Score(ref: Reference, c: Candidate): real {
    OverallScore(ExtractDetail(ref, c))
  }

  /** The score of a hit is between 0 and 1; reaching the verification
      threshold 0.7 takes a title similarity of at least 0.4, and at least
      0.8 when the years disagree; a hit that shares no title word scores
      at most 0.5. */
  lemma ScoreFacts(ref: Reference, c: Candidate)
    ensures 0.0 <= Score(ref, c) <= 1.0
    ensures Score(ref, c) >= 0.7 ==> ExtractDetail(ref, c).titleMatch >= 0.4
    ensures Score(ref, c) >= 0.7 && !ExtractDetail(ref, c).yearMatch ==> ExtractDetail(ref, c).titleMatch >= 0.8
    ensures WordSet(ref.title) * WordSet(c.title) == {} ==> Score(ref, c) <= 0.5
  {
    var d := ExtractDetail(ref, c);
    JaccardFacts(WordSet(ref.title), WordSet(c.title));
    if WordSet(ref.title) * WordSet(c.title) == {} {
      assert d.titleMatch == 0.0;
    }
  }

  /** A hit with the reference's own word set and year, and matching
      authors (or none to compare), scores exactly 1. */
  lemma PerfectScore(ref: Reference, c: Candidate)
    requires WordSet(ref.title) == WordSet(c.title) != {}
    requires ExtractDetail(ref, c).yearMatch
    requires !Filled(ref.authors) || AuthorSimilarity(ref.authors.value, c.authors) == 1.0
    ensures Score(ref, c) == 1.0
  {
    TextSimilarityFacts(ref.title, c.title);
  }

  // ---------------------------------------------------------------------
  // The match message

  /** round() to an integer as Python does it: the nearest integer, and
      the even one of two equally near. */
  function RoundHalfEven(x: real): (n: int)
    ensures -0.5 <= x - n as real <= 0.5
    ensures x - n as real == 0.5 || x - n as real == -0.5 ==> n % 2 == 0
    ensures x == x.Floor as real ==> n == x.Floor
  {
    var f := x.Floor;
    var d := x - f as real;
    if d < 0.5 then f
    else if d > 0.5 then f + 1
    else if f % 2 == 0 then f else f + 1
  }

  /** `{x:.0%}`: the ratio as a whole percentage followed by '%'. */
  function PercentText(x: real): (t: string)
    ensures |t| >= 2 && t[|t| - 1] == '%'
    ensures PyInt(t[..|t| - 1]) == Some(RoundHalfEven(x * 100.0))
  {
    var n := RoundHalfEven(x * 100.0);
    PyIntRoundTrip(n);
    var t := IntToString(n) + "%";
    assert t[..|t| - 1] == IntToString(n);
    t
  }

  /** A ratio between 0 and 1 prints as a percentage between 0 and 100. */
  lemma PercentTextRange(x: real)
    requires 0.0 <= x <= 1.0
    ensures 0 <= RoundHalfEven(x * 100.0) <= 100
  {
  }

  /** The mark after "Y:". */
  function YearMark(yearMatch: bool): char {
    if yearMatch then '\U{2713}' else '\U{2717}'
  }

  /** _format_match_message: the head, then the title and author
      percentages and the year mark in parentheses. */
  function MatchMessage(d: MatchDetail, head: string): (m: string)
    ensures |m| > |head| + 2 && m[..|head|] == head
    ensures m[|m| - 2] == YearMark(d.yearMatch) && m[|m| - 1] == ')'
  {
    var tail := " (T:" + PercentText(d.titleMatch) + ", A:" + PercentText(d.authorMatch)
      + ", Y:" + [YearMark(d.yearMatch), ')'];
    var m := head + tail;
    assert m[|m| - 2] == tail[|tail| - 2];
    m
  }

  /** The message tells a year match from a mismatch. */
  lemma MessageShowsYear(d: MatchDetail, e: MatchDetail, head: string)
    requires MatchMessage(d, head) == MatchMessage(e, head)
    ensures d.yearMatch == e.yearMatch
  {
    var m := MatchMessage(d, head);
    assert m[|m| - 2] == YearMark(d.yearMatch) == YearMark(e.yearMatch);
  }

  // ---------------------------------------------------------------------
  // Results of one check

  datatype VerificationResult = VerificationResult(
    reference: Reference,
    status: VerificationStatus,
    confidence: real,
    message: string,
    source: string,
    detail: Option<MatchDetail>)

  /** A suspect result with no match: confidence 0, no source, no detail. */
  function Unmatched(ref: Reference, message: string): VerificationResult {
    VerificationResult(ref, Suspect, 0.0, message, "", None)
  }

  /** A hit accepted as the reference: its score is the confidence. */
  function Accepted(ref: Reference, c: Candidate, head: string, source: string): VerificationResult {
    var d := ExtractDetail(ref, c);
    VerificationResult(ref, Verified, OverallScore(d), MatchMessage(d, head), source, Some(d))
  }

  /** What a search request returned: it raised (network or decoding
      failure), it answered with a status other than 200, or it answered
      with hits, already decoded. */
  datatype Reply = Raised(error: string) | BadStatus | Hits(items: seq<Candidate>)

  /** The arXiv query: by identifier when the reference has one, else by title. */
  datatype ArxivQuery = ById(id: string) | ByTitle(title: string)

  /** The sources as the checker sees them. A DOI lookup gives the work or
      nothing (a status other than 200, or a failure). */
  datatype Lookups = Lookups(
    doi: string -> Option<Candidate>,
    arxiv: ArxivQuery -> Reply,
    dblp: string -> Reply,
    crossref: string -> Reply)

  /** A search source that accepts its first good hit: its name in messages
      and its name as a result's source. */
  datatype Site = Site(name: string, source: string)

  const ArxivSite := Site("arXiv", "arxiv")
  const DblpSite := Site("DBLP", "dblp")

  // ---------------------------------------------------------------------
  // DOI

  /** _verify_crossref_doi: a resolved DOI verifies the reference with
      confidence 1, whatever the hit's similarity. */
  function DoiOutcome(ref: Reference, found: Option<Candidate>): (r: VerificationResult)
    ensures r.status == Verified <==> found.Some?
    ensures found.Some? ==> (r.confidence == 1.0 && r.source == "crossref"
      && r.detail == Some(ExtractDetail(ref, found.value))
      && r.message == MatchMessage(ExtractDetail(ref, found.value), "DOI verified"))
    ensures found.None? ==> r == Unmatched(ref, "DOI not found")
  {
    match found
    case Some(c) =>
      var d := ExtractDetail(ref, c);
      VerificationResult(ref, Verified, 1.0, MatchMessage(d, "DOI verified"), "crossref", Some(d))
    case None => Unmatched(ref, "DOI not found")
  }

  // ---------------------------------------------------------------------
  // Scores of the hits

  const Threshold: real := 0.7
  const PartialThreshold: real := 0.4

  /** The overall score of each hit, in order. */
  function Scores(ref: Reference, items: seq<Candidate>): (ss: seq<real>)
    ensures |ss| == |items|
  {
    seq(|items|, k requires 0 <= k < |items| => Score(ref, items[k]))
  }

  /** The first score at or after `from` that reaches `bar`. */
  function FirstAtLeast(ss: seq<real>, bar: real, from: nat): (i: Option<nat>)
    ensures i.Some? ==> from <= i.value < |ss| && ss[i.value] >= bar
    decreases |ss| - from
  {
    if from >= |ss| then None
    else if ss[from] >= bar then Some(from)
    else FirstAtLeast(ss, bar, from + 1)
  }

  /** The score found is the first one reaching the bar, and no score
      reaches it when none is found. */
  lemma {:induction false} FirstAtLeastFacts(ss: seq<real>, bar: real, from: nat)
    ensures FirstAtLeast(ss, bar, from).Some? ==>
      forall k :: from <= k < FirstAtLeast(ss, bar, from).value ==> ss[k] < bar
    ensures FirstAtLeast(ss, bar, from).None? ==> forall k :: from <= k < |ss| ==> ss[k] < bar
    decreases |ss| - from
  {
    if from < |ss| && ss[from] < bar {
      FirstAtLeastFacts(ss, bar, from + 1);
    }
  }

  /** The best of the first `n` scores and where it first occurs; only a
      score above the running best (starting at 0) replaces it. */
  function BestUpTo(ss: seq<real>, n: nat): (b: (real, Option<nat>))
    requires n <= |ss|
    ensures b.1.Some? ==> b.1.value < n && b.0 == ss[b.1.value]
    ensures b.1.None? ==> b.0 == 0.0
  {
    if n == 0 then (0.0, None)
    else
      var (best, at) := BestUpTo(ss, n - 1);
      if ss[n - 1] > best then (ss[n - 1], Some(n - 1)) else (best, at)
  }

  /** The running best bounds every score so far and is reached first at
      the index kept; it stays 0 with no index when no score is above 0. */
  lemma {:induction false} BestUpToFacts(ss: seq<real>, n: nat)
    requires n <= |ss|
    ensures forall k :: 0 <= k < n ==> ss[k] <= BestUpTo(ss, n).0
    ensures BestUpTo(ss, n).1.Some? ==> forall k :: 0 <= k < BestUpTo(ss, n).1.value ==> ss[k] < BestUpTo(ss, n).0
    ensures BestUpTo(ss, n).1.None? ==> forall k :: 0 <= k < n ==> ss[k] <= 0.0
  {
    if n > 0 {
      BestUpToFacts(ss, n - 1);
    }
  }

  // ---------------------------------------------------------------------
  // arXiv and DBLP: the first hit scoring at least 0.7

  /** _verify_arxiv and _verify_dblp on the source's reply. */
  function SearchOutcome(ref: Reference, reply: Reply, site: Site): (r: VerificationResult)
    ensures r.reference == ref && r.status != StatusError
    ensures r.status != Verified ==> r.detail.None? && r.confidence == 0.0
  {
    match reply
    case Raised(e) => Unmatched(ref, site.name + " error: " + e)
    case BadStatus => Unmatched(ref, site.name + " API error")
    case Hits(items) =>
      if |items| == 0 then Unmatched(ref, "Not found on " + site.name)
      else match FirstAtLeast(Scores(ref, items), Threshold, 0)
        case Some(i) => Accepted(ref, items[i], site.name, site.source)
        case None => Unmatched(ref, "Mismatch on " + site.name)
  }

  /** A search verifies exactly when some hit scores at least 0.7. */
  lemma SearchVerifiedIff(ref: Reference, reply: Reply, site: Site)
    ensures SearchOutcome(ref, reply, site).status == Verified <==>
      reply.Hits? && exists k :: 0 <= k < |reply.items| && Scores(ref, reply.items)[k] >= Threshold
  {
    if reply.Hits? {
      FirstAtLeastFacts(Scores(ref, reply.items), Threshold, 0);
    }
  }

  /** A search that verifies reports the first hit scoring at least 0.7,
      with that score as the confidence. */
  lemma SearchReportsFirst(ref: Reference, items: seq<Candidate>, site: Site) returns (k: nat)
    requires SearchOutcome(ref, Hits(items), site).status == Verified
    ensures k < |items| && Scores(ref, items)[k] >= Threshold
    ensures SearchOutcome(ref, Hits(items), site) == Accepted(ref, items[k], site.name, site.source)
    ensures forall j :: 0 <= j < k ==> Scores(ref, items)[j] < Threshold
  {
    var ss := Scores(ref, items);
    FirstAtLeastFacts(ss, Threshold, 0);
    k := FirstAtLeast(ss, Threshold, 0).value;
  }

  /** The loop of _verify_arxiv and _verify_dblp over the hits. */
  method VerifyBySearch(ref: Reference, reply: Reply, site: Site) returns (r: VerificationResult)
    ensures r == SearchOutcome(ref, reply, site)
  {
    match reply {
      case Raised(e) =>
        return Unmatched(ref, site.name + " error: " + e);
      case BadStatus =>
        return Unmatched(ref, site.name + " API error");
      case Hits(items) =>
        if |items| == 0 {
          return Unmatched(ref, "Not found on " + site.name);
        }
        ghost var ss := Scores(ref, items);
        var k := 0;
        while k < |items|
          invariant 0 <= k <= |items|
          invariant FirstAtLeast(ss, Threshold, 0) == FirstAtLeast(ss, Threshold, k)
        {
          var d := ExtractDetail(ref, items[k]);
          var score := OverallScore(d);
          assert score == ss[k];
          if score >= Threshold {
            return VerificationResult(ref, Verified, score, MatchMessage(d, site.name), site.source, Some(d));
          }
          k := k + 1;
        }
        return Unmatched(ref, "Mismatch on " + site.name);
    }
  }

  // ---------------------------------------------------------------------
  // Crossref title search: the best of the hits

  /** _verify_crossref_title on Crossref's reply. */
  function CrossrefOutcome(ref: Reference, reply: Reply): (r: VerificationResult)
    ensures r.reference == ref && r.status != StatusError
    ensures r.detail.Some? ==> r.source == "crossref" && PartialThreshold <= r.confidence
    ensures r.status == Suspect && r.detail.Some? ==> r.confidence < Threshold
    ensures r.detail.None? ==> r.status == Suspect && r.confidence == 0.0
  {
    match reply
    case Raised(e) => Unmatched(ref, "Crossref error: " + e)
    case BadStatus => Unmatched(ref, "Crossref API error")
    case Hits(items) =>
      if |items| == 0 then Unmatched(ref, "Not found in Crossref")
      else
        var (best, at) := BestUpTo(Scores(ref, items), |items|);
        if at.Some? && best >= Threshold then Accepted(ref, items[at.value], "Crossref", "crossref")
        else if at.Some? && best >= PartialThreshold then
          var d := ExtractDetail(ref, items[at.value]);
          VerificationResult(ref, Suspect, best, MatchMessage(d, "Partial"), "crossref", Some(d))
        else Unmatched(ref, "Low similarity")
  }

  /** The title search verifies exactly when some hit scores at least 0.7. */
  lemma CrossrefVerifiedIff(ref: Reference, reply: Reply)
    ensures CrossrefOutcome(ref, reply).status == Verified <==>
      reply.Hits? && exists k :: 0 <= k < |reply.items| && Scores(ref, reply.items)[k] >= Threshold
  {
    if reply.Hits? && |reply.items| > 0 {
      BestUpToFacts(Scores(ref, reply.items), |reply.items|);
    }
  }

  /** The hit a title search reports (verified or partial) is a best one:
      the first hit whose score no other hit beats, its score the
      confidence. */
  lemma CrossrefReportsBest(ref: Reference, items: seq<Candidate>) returns (k: nat)
    requires CrossrefOutcome(ref, Hits(items)).detail.Some?
    ensures k < |items| && CrossrefOutcome(ref, Hits(items)).detail == Some(ExtractDetail(ref, items[k]))
    ensures CrossrefOutcome(ref, Hits(items)).confidence == Scores(ref, items)[k]
    ensures forall j :: 0 <= j < |items| ==> Scores(ref, items)[j] <= Scores(ref, items)[k]
    ensures forall j :: 0 <= j < k ==> Scores(ref, items)[j] < Scores(ref, items)[k]
  {
    var ss := Scores(ref, items);
    BestUpToFacts(ss, |items|);
    k := BestUpTo(ss, |items|).1.value;
  }

  /** The loop of _verify_crossref_title over the hits: the best score and
      where it first occurs. */
  method BestHit(ref: Reference, items: seq<Candidate>) returns (bestScore: real, bestAt: Option<nat>)
    ensures (bestScore, bestAt) == BestUpTo(Scores(ref, items), |items|)
  {
    ghost var ss := Scores(ref, items);
    bestScore, bestAt := 0.0, None;
    var k := 0;
    while k < |items|
      invariant 0 <= k <= |items|
      invariant (bestScore, bestAt) == BestUpTo(ss, k)
    {
      var score := Score(ref, items[k]);
      assert score == ss[k];
      if score > bestScore {
        bestScore, bestAt := score, Some(k);
      }
      k := k + 1;
    }
  }

  /** _verify_crossref_title. */
  method VerifyCrossrefTitle(ref: Reference, reply: Reply) returns (r: VerificationResult)
    ensures r == CrossrefOutcome(ref, reply)
  {
    match reply {
      case Raised(e) =>
        return Unmatched(ref, "Crossref error: " + e);
      case BadStatus =>
        return Unmatched(ref, "Crossref API error");
      case Hits(items) =>
        if |items| == 0 {
          return Unmatched(ref, "Not found in Crossref");
        }
        var bestScore, bestAt := BestHit(ref, items);
        if bestAt.Some? {
          var d := ExtractDetail(ref, items[bestAt.value]);
          if bestScore >= Threshold {
            return VerificationResult(ref, Verified, bestScore, MatchMessage(d, "Crossref"), "crossref", Some(d));
          } else if bestScore >= PartialThreshold {
            return VerificationResult(ref, Suspect, bestScore, MatchMessage(d, "Partial"), "crossref", Some(d));
          }
        }
        return Unmatched(ref, "Low similarity");
    }
  }

  // ---------------------------------------------------------------------
  // The cascade for one reference

  /** Whether the arXiv check runs: the reference has an arXiv identifier,
      or its journal names arXiv. */
  predicate ArxivApplies(ref: Reference) {
    Filled(ref.arxivId) || (Filled(ref.journal) && Contains(Lower(ref.journal.value), "arxiv"))
  }

  function ArxivQueryOf(ref: Reference): ArxivQuery {
    if Filled(ref.arxivId) then ById(ref.arxivId.value) else ByTitle(ref.title)
  }

  /** verify_reference: the DOI when there is one, then arXiv when it
      applies, then DBLP, each returned as soon as it verifies; otherwise
      the Crossref title search decides. */
  function ReferenceOutcome(ref: Reference, lk: Lookups): VerificationResult {
    var doi := if Filled(ref.doi) then Some(DoiOutcome(ref, lk.doi(ref.doi.value))) else None;
    if doi.Some? && doi.value.status == Verified then doi.value
    else
      var arxiv := if ArxivApplies(ref) then Some(SearchOutcome(ref, lk.arxiv(ArxivQueryOf(ref)), ArxivSite)) else None;
      if arxiv.Some? && arxiv.value.status == Verified then arxiv.value
      else
        var dblp := SearchOutcome(ref, lk.dblp(ref.title), DblpSite);
        if dblp.status == Verified then dblp
        else CrossrefOutcome(ref, lk.crossref(ref.title))
  }

  /** No check lets an exception escape, so a reference is never reported
      as an error, and a suspect reference is whatever the Crossref title
      search said: the earlier sources' failures are not reported. */
  lemma NeverError(ref: Reference, lk: Lookups)
    ensures ReferenceOutcome(ref, lk).reference == ref
    ensures ReferenceOutcome(ref, lk).status != StatusError
    ensures ReferenceOutcome(ref, lk).status == Suspect ==>
      ReferenceOutcome(ref, lk) == CrossrefOutcome(ref, lk.crossref(ref.title))
  {
  }

  /** A verified reference carries a match detail, names one of the three
      sources and has a confidence between 0.7 and 1. */
  lemma VerifiedFacts(ref: Reference, lk: Lookups)
    requires ReferenceOutcome(ref, lk).status == Verified
    ensures var r := ReferenceOutcome(ref, lk);
      && r.detail.Some? && r.source in {"crossref", "arxiv", "dblp"}
      && Threshold <= r.confidence <= 1.0
  {
    var doiHit := Filled(ref.doi) && lk.doi(ref.doi.value).Some?;
    if !doiHit {
      var arxiv := ArxivApplies(ref) && SearchOutcome(ref, lk.arxiv(ArxivQueryOf(ref)), ArxivSite).status == Verified;
      if arxiv {
        SearchVerifiedFacts(ref, lk.arxiv(ArxivQueryOf(ref)), ArxivSite);
      } else if SearchOutcome(ref, lk.dblp(ref.title), DblpSite).status == Verified {
        SearchVerifiedFacts(ref, lk.dblp(ref.title), DblpSite);
      } else {
        CrossrefVerifiedFacts(ref, lk.crossref(ref.title));
      }
    }
  }

  /** A verified search names its site and scores between 0.7 and 1. */
  lemma SearchVerifiedFacts(ref: Reference, reply: Reply, site: Site)
    requires SearchOutcome(ref, reply, site).status == Verified
    ensures var r := SearchOutcome(ref, reply, site);
      r.detail.Some? && r.source == site.source && Threshold <= r.confidence <= 1.0
  {
    var k := SearchReportsFirst(ref, reply.items, site);
    ScoreFacts(ref, reply.items[k]);
  }

  /** A verified title search names Crossref and scores between 0.7 and 1. */
  lemma CrossrefVerifiedFacts(ref: Reference, reply: Reply)
    requires CrossrefOutcome(ref, reply).status == Verified
    ensures var r := CrossrefOutcome(ref, reply);
      r.detail.Some? && r.source == "crossref" && Threshold <= r.confidence <= 1.0
  {
    var k := CrossrefReportsBest(ref, reply.items);
    ScoreFacts(ref, reply.items[k]);
  }

  /** A DOI that resolves wins: the result is the DOI check's, with
      confidence 1. */
  lemma DoiWins(ref: Reference, lk: Lookups)
    requires Filled(ref.doi) && lk.doi(ref.doi.value).Some?
    ensures ReferenceOutcome(ref, lk) == DoiOutcome(ref, lk.doi(ref.doi.value))
    ensures ReferenceOutcome(ref, lk).confidence == 1.0
  {
  }

  /** An arXiv result is reported only when the arXiv check applies, no DOI
      resolved, and the arXiv search verified. */
  lemma ArxivOnlyWhenApplies(ref: Reference, lk: Lookups)
    requires ReferenceOutcome(ref, lk).source == "arxiv"
    ensures ArxivApplies(ref)
    ensures !(Filled(ref.doi) && lk.doi(ref.doi.value).Some?)
    ensures ReferenceOutcome(ref, lk) == SearchOutcome(ref, lk.arxiv(ArxivQueryOf(ref)), ArxivSite)
  {
  }

  /** verify_reference as the sequence of checks it runs. */
  method VerifyReference(ref: Reference, lk: Lookups) returns (r: VerificationResult)
    ensures r == ReferenceOutcome(ref, lk)
  {
    if Filled(ref.doi) {
      r := DoiOutcome(ref, lk.doi(ref.doi.value));
      if r.status == Verified {
        return;
      }
    }
    if ArxivApplies(ref) {
      r := VerifyBySearch(ref, lk.arxiv(ArxivQueryOf(ref)), ArxivSite);
      if r.status == Verified {
        return;
      }
    }
    r := VerifyBySearch(ref, lk.dblp(ref.title), DblpSite);
    if r.status == Verified {
      return;
    }
    r := VerifyCrossrefTitle(ref, lk.crossref(ref.title));
  }

  // ---- verify_all and check_bib_content ----

  /** The check of one reference, as a value. */
  function Checker(lk: Lookups): Reference -> VerificationResult {
    (ref: Reference) => ReferenceOutcome(ref, lk)
  }

  /** The results of checking each reference, in reference order. */
  function CheckAll(refs: seq<Reference>, check: Reference -> VerificationResult): (rs: seq<VerificationResult>)
    ensures |rs| == |refs|
  {
    if |refs| == 0 then [] else CheckAll(refs[..|refs| - 1], check) + [check(refs[|refs| - 1])]
  }

  /** Each reference's result sits at its own position. */
  lemma {:induction false} CheckAllAt(refs: seq<Reference>, check: Reference -> VerificationResult, i: nat)
    requires i < |refs|
    ensures CheckAll(refs, check)[i] == check(refs[i])
  {
    var init := refs[..|refs| - 1];
    if i < |init| {
      CheckAllAt(init, check, i);
    }
  }

  /** verify_all: every reference checked once. The source collects the
      results in completion order; the counts below do not depend on the
      order (CountWherePermutation, ReportOrderFree). */
  method VerifyAll(refs: seq<Reference>, lk: Lookups) returns (rs: seq<VerificationResult>)
    ensures rs == CheckAll(refs, Checker(lk))
  {
    rs := [];
    var k := 0;
    while k < |refs|
      invariant k <= |refs|
      invariant rs == CheckAll(refs[..k], Checker(lk))
    {
      var r := VerifyReference(refs[k], lk);
      assert refs[..k + 1][..k] == refs[..k];
      rs := rs + [r];
      k := k + 1;
    }
    assert refs[..k] == refs;
  }

  function HasStatus(st: VerificationStatus): VerificationResult -> bool {
    (r: VerificationResult) => r.status == st
  }

  /** A result that adds one to `src` in verified_by_source. */
  function Credits(src: string): VerificationResult -> bool {
    (r: VerificationResult) => r.status == Verified && r.source != "" && r.source == src
  }

  /** verified_by_source, as the loop over the results builds it. */
  function SourcesOf(rs: seq<VerificationResult>): map<string, nat> {
    if |rs| == 0 then map[]
    else
      var m := SourcesOf(rs[..|rs| - 1]);
      var r := rs[|rs| - 1];
      if r.status == Verified && r.source != "" then
        m[r.source := (if r.source in m then m[r.source] else 0) + 1]
      else m
  }

  datatype BibReport = BibReport(
    totalReferences: nat,
    verified: nat,
    suspect: nat,
    errors: nat,
    verificationRate: real,
    verifiedBySource: map<string, nat>,
    results: seq<VerificationResult>)

  function Report(total: nat, rs: seq<VerificationResult>): BibReport {
    var verified := CountWhere(rs, HasStatus(Verified));
    BibReport(
      total, verified, CountWhere(rs, HasStatus(Suspect)), CountWhere(rs, HasStatus(StatusError)),
      if total > 0 then verified as real / total as real else 0.0,
      SourcesOf(rs), rs)
  }

  /** check_bib_content: parse, check every reference, summarise. */
  function BibReportOf(content: string, lk: Lookups): BibReport {
    var refs := ParseBib(content);
    Report(|refs|, CheckAll(refs, Checker(lk)))
  }

  method CheckBibContent(content: string, lk: Lookups) returns (report: BibReport)
    ensures report == BibReportOf(content, lk)
  {
    var refs := ParseBib(content);
    var results := VerifyAll(refs, lk);
    var sources := TallySources(results);
    var verified := CountWhere(results, HasStatus(Verified));
    report := BibReport(
      |refs|, verified, CountWhere(results, HasStatus(Suspect)), CountWhere(results, HasStatus(StatusError)),
      if |refs| > 0 then verified as real / |refs| as real else 0.0,
      sources, results);
  }

  /** The loop of check_bib_content that fills verified_by_source. */
  method TallySources(results: seq<VerificationResult>) returns (sources: map<string, nat>)
    ensures sources == SourcesOf(results)
  {
    sources := map[];
    var k := 0;
    while k < |results|
      invariant k <= |results|
      invariant sources == SourcesOf(results[..k])
    {
      var r := results[k];
      assert results[..k + 1][..k] == results[..k];
      if r.status == Verified && r.source != "" {
        sources := sources[r.source := (if r.source in sources then sources[r.source] else 0) + 1];
      }
      k := k + 1;
    }
    assert results[..k] == results;
  }

  /** Every result has exactly one of the three statuses. */
  lemma {:induction false} StatusesPartition(rs: seq<VerificationResult>)
    ensures CountWhere(rs, HasStatus(Verified)) + CountWhere(rs, HasStatus(Suspect)) + CountWhere(rs, HasStatus(StatusError)) == |rs|
  {
    if |rs| > 0 {
      StatusesPartition(rs[..|rs| - 1]);
    }
  }

  /** A source appears in verified_by_source exactly when some result
      credits it, and then with the number of such results. */
  lemma {:induction false} SourcesCount(rs: seq<VerificationResult>, src: string)
    ensures src in SourcesOf(rs) <==> CountWhere(rs, Credits(src)) > 0
    ensures src in SourcesOf(rs) ==> SourcesOf(rs)[src] == CountWhere(rs, Credits(src))
  {
    if |rs| > 0 {
      SourcesCount(rs[..|rs| - 1], src);
    }
  }

  /** When every verified result names crossref, arxiv or dblp, the three
      per-source counts add up to the verified count. */
  lemma {:induction false} SourcesAddUp(rs: seq<VerificationResult>)
    requires forall i :: 0 <= i < |rs| && rs[i].status == Verified ==> rs[i].source in {"crossref", "arxiv", "dblp"}
    ensures CountWhere(rs, Credits("crossref")) + CountWhere(rs, Credits("arxiv")) + CountWhere(rs, Credits("dblp"))
      == CountWhere(rs, HasStatus(Verified))
  {
    if |rs| > 0 {
      SourcesAddUp(rs[..|rs| - 1]);
    }
  }

  /** The summary of check_bib_content: every reference is verified or
      suspect (never an error), the rate is a fraction, and
      verified_by_source splits the verified references among the three
      sources, one count per source that verified anything. */
  lemma ReportFacts(content: string, lk: Lookups)
    ensures var r := BibReportOf(content, lk);
      && r.verified + r.suspect == r.totalReferences
      && r.errors == 0
      && 0.0 <= r.verificationRate <= 1.0
      && r.verifiedBySource.Keys <= {"crossref", "arxiv", "dblp"}
      && (forall src :: src in r.verifiedBySource ==> r.verifiedBySource[src] == CountWhere(r.results, Credits(src)))
      && CountWhere(r.results, Credits("crossref")) + CountWhere(r.results, Credits("arxiv")) + CountWhere(r.results, Credits("dblp"))
        == r.verified
  {
    var refs := ParseBib(content);
    var rs := CheckAll(refs, Checker(lk));
    forall i | 0 <= i < |rs|
      ensures rs[i].status != StatusError
      ensures rs[i].status == Verified ==> rs[i].source in {"crossref", "arxiv", "dblp"}
    {
      CheckAllAt(refs, Checker(lk), i);
      NeverError(refs[i], lk);
      if rs[i].status == Verified {
        VerifiedFacts(refs[i], lk);
      }
    }
    SummaryFacts(rs);
  }

  /** The figures of a summary over results that are never errors and
      whose verified entries name one of the three sources. */
  lemma SummaryFacts(rs: seq<VerificationResult>)
    requires forall i :: 0 <= i < |rs| ==> rs[i].status != StatusError
    requires forall i :: 0 <= i < |rs| && rs[i].status == Verified ==> rs[i].source in {"crossref", "arxiv", "dblp"}
    ensures var r := Report(|rs|, rs);
      && r.verified + r.suspect == r.totalReferences
      && r.errors == 0
      && 0.0 <= r.verificationRate <= 1.0
      && r.verifiedBySource.Keys <= {"crossref", "arxiv", "dblp"}
      && (forall src :: src in r.verifiedBySource ==> r.verifiedBySource[src] == CountWhere(rs, Credits(src)))
      && CountWhere(rs, Credits("crossref")) + CountWhere(rs, Credits("arxiv")) + CountWhere(rs, Credits("dblp")) == r.verified
  {
    StatusesPartition(rs);
    CountWhereNone(rs, HasStatus(StatusError));
    if |rs| > 0 {
      RatioBounds(CountWhere(rs, HasStatus(Verified)), |rs|);
    }
    SourcesAddUp(rs);
    SourcesWithin(rs);
  }

  /** verified_by_source names only the three sources, each with its
      count. */
  lemma SourcesWithin(rs: seq<VerificationResult>)
    requires forall i :: 0 <= i < |rs| && rs[i].status == Verified ==> rs[i].source in {"crossref", "arxiv", "dblp"}
    ensures SourcesOf(rs).Keys <= {"crossref", "arxiv", "dblp"}
    ensures forall src :: src in SourcesOf(rs) ==> SourcesOf(rs)[src] == CountWhere(rs, Credits(src))
  {
    forall src | src in SourcesOf(rs)
      ensures src in {"crossref", "arxiv", "dblp"}
      ensures SourcesOf(rs)[src] == CountWhere(rs, Credits(src))
    {
      SourcesCount(rs, src);
      if src !in {"crossref", "arxiv", "dblp"} {
        CountWhereNone(rs, Credits(src));
      }
    }
  }

  /** Reordering the results (verify_all returns them as they complete)
      changes none of the summary figures. */
  lemma ReportOrderFree(total: nat, a: seq<VerificationResult>, b: seq<VerificationResult>)
    requires multiset(a) == multiset(b)
    ensures Report(total, a).verified == Report(total, b).verified
    ensures Report(total, a).suspect == Report(total, b).suspect
    ensures Report(total, a).errors == Report(total, b).errors
    ensures Report(total, a).verificationRate == Report(total, b).verificationRate
    ensures Report(total, a).verifiedBySource == Report(total, b).verifiedBySource
  {
    CountWherePermutation(a, b, HasStatus(Verified));
    CountWherePermutation(a, b, HasStatus(Suspect));
    CountWherePermutation(a, b, HasStatus(StatusError));
    forall src
      ensures src in SourcesOf(a) <==> src in SourcesOf(b)
      ensures src in SourcesOf(a) ==> SourcesOf(a)[src] == SourcesOf(b)[src]
    {
      SourcesCount(a, src);
      SourcesCount(b, src);
      CountWherePermutation(a, b, Credits(src));
    }
  }
}
