/** The end-to-end paper-review pipeline: which stages run and how they
    are counted, the safety rules, the findings handed to the criticality
    grader, the BibTeX fallbacks, and the progress the pipeline reports
    while it reviews one PDF.

    The jailbreaking and format graders are the ones modelled in
    ReviewResponses, fed with the model's replies; the BibTeX checker is
    the one modelled in BibChecker, fed with the lookup services' replies
    and the text of the .bib file; the correctness, review and criticality
    graders and the PDF loader are inputs (their results are given). The progress callback is modelled by
    the list of progress values it has received, in order. */
module ReviewPipeline {
  import opened Common
  import opened JsonValue
  import opened GraderSchema
  import opened ReviewSchema
  import opened ReviewResponses
  import BibChecker

  datatype PipelineConfig = PipelineConfig(
    modelName: string,
    apiKey: string,
    baseUrl: Option<string>,
    temperature: real,
    timeout: int,
    enableSafetyChecks: bool,
    enableCorrectness: bool,
    enableReview: bool,
    enableCriticality: bool,
    enableBibVerification: bool,
    crossrefMailto: Option<string>,
    hasCallback: bool)

  function DefaultConfig(): PipelineConfig {
    PipelineConfig("gpt-4o", "", None, 0.7, 7500, true, true, true, true, true, None, false)
  }

  // ---------------------------------------------------------------------
  // Stages

  /** The order in which review_paper runs its stages. */
  const StageOrder: seq<ReviewStage> := [LoadingPdf, SafetyCheck, Correctness, Review, Criticality, BibVerification]

  predicate Enabled(c: PipelineConfig, hasBib: bool, s: ReviewStage) {
    match s
    case LoadingPdf => true
    case SafetyCheck => c.enableSafetyChecks
    case Correctness => c.enableCorrectness
    case Review => c.enableReview
    case Criticality => c.enableCriticality
    case BibVerification => c.enableBibVerification && hasBib
    case _ => false
  }

  /** A stage that is announced only when its switch is on. */
  function Opt(on: bool, s: ReviewStage): seq<ReviewStage> {
    if on then [s] else []
  }

  /** The stages review_paper announces on a run that is not cut short. */
  function Stages(c: PipelineConfig, hasBib: bool): seq<ReviewStage> {
    [LoadingPdf] + Opt(c.enableSafetyChecks, SafetyCheck) + Opt(c.enableCorrectness, Correctness)
      + Opt(c.enableReview, Review) + Opt(c.enableCriticality, Criticality)
      + Opt(c.enableBibVerification && hasBib, BibVerification)
  }

  /** The stages announced up to and including stage `s`. */
  function StagesThrough(c: PipelineConfig, hasBib: bool, s: ReviewStage): seq<ReviewStage> {
    match s
    case LoadingPdf => [LoadingPdf]
    case SafetyCheck => [LoadingPdf] + Opt(c.enableSafetyChecks, SafetyCheck)
    case Correctness => [LoadingPdf] + Opt(c.enableSafetyChecks, SafetyCheck) + Opt(c.enableCorrectness, Correctness)
    case Review => [LoadingPdf] + Opt(c.enableSafetyChecks, SafetyCheck) + Opt(c.enableCorrectness, Correctness)
      + Opt(c.enableReview, Review)
    case Criticality => [LoadingPdf] + Opt(c.enableSafetyChecks, SafetyCheck) + Opt(c.enableCorrectness, Correctness)
      + Opt(c.enableReview, Review) + Opt(c.enableCriticality, Criticality)
    case _ => Stages(c, hasBib)
  }

  /** Each of them is a prefix of the stages. */
  lemma ThroughPrefix(c: PipelineConfig, hasBib: bool, s: ReviewStage)
    ensures StagesThrough(c, hasBib, s) <= Stages(c, hasBib)
  {
  }

  /** With the safety checks on, they are the second stage. */
  lemma SafetyStageSecond(c: PipelineConfig, hasBib: bool)
    requires c.enableSafetyChecks
    ensures |Stages(c, hasBib)| >= 2 && Stages(c, hasBib)[1] == SafetyCheck
    ensures StagesThrough(c, hasBib, SafetyCheck) == Stages(c, hasBib)[..2]
  {
    ThroughPrefix(c, hasBib, SafetyCheck);
    assert StagesThrough(c, hasBib, SafetyCheck) == [LoadingPdf, SafetyCheck];
  }

  /** _count_enabled_stages. */
  function CountEnabledStages(c: PipelineConfig, hasBib: bool): nat {
    var count := 1;
    var count := if c.enableSafetyChecks then count + 1 else count;
    var count := if c.enableCorrectness then count + 1 else count;
    var count := if c.enableReview then count + 1 else count;
    var count := if c.enableCriticality then count + 1 else count;
    if c.enableBibVerification && hasBib then count + 1 else count
  }

  /** The count is the number of stages announced, between 1 and 6; the
      PDF is always loaded first, and a stage is announced iff it is
      enabled, the criticality stage included. */
  lemma StagesCounted(c: PipelineConfig, hasBib: bool)
    ensures |Stages(c, hasBib)| == CountEnabledStages(c, hasBib)
    ensures 1 <= CountEnabledStages(c, hasBib) <= 6
    ensures Stages(c, hasBib)[0] == LoadingPdf
    ensures forall s :: s in Stages(c, hasBib) <==> s in StageOrder && Enabled(c, hasBib, s)
  {
  }

  /** STAGE_I18N_KEYS: the translation keys reported for a stage, ("", "")
      for a stage without keys. */
  function StageKeys(s: ReviewStage): (string, string) {
    var stem := match s
      case LoadingPdf => "loading_pdf"
      case SafetyCheck => "safety_check"
      case Correctness => "correctness"
      case Review => "review"
      case Criticality => "criticality"
      case BibVerification => "bib_verification"
      case Completed => "completed"
      case Failed => "failed"
      case NotStarted => "";
    if stem == "" then ("", "") else ("paper_review.progress." + stem, "paper_review.progress." + stem + "_desc")
  }

  /** What the callback sees when stage `s` starts with `done` stages done. */
  function StageView(s: ReviewStage, done: int, total: int): ProgressView {
    ProgressView(s, StageKeys(s).0, StageKeys(s).1, total, done, Percent(done, total), None)
  }

  /** The views of stages announced one after another, the i-th with i
      stages done. */
  function StageViews(ss: seq<ReviewStage>, total: int): (vs: seq<ProgressView>)
    ensures |vs| == |ss|
    ensures forall i :: 0 <= i < |ss| ==> vs[i] == StageView(ss[i], i, total)
  {
    seq(|ss|, i requires 0 <= i < |ss| => StageView(ss[i], i, total))
  }

  // ---------------------------------------------------------------------
  // Safety checks

  datatype SafetyOutcome = SafetyOutcome(isSafe: bool, formatOk: bool, issues: seq<string>)

  /** The strings of a decoded JSON list (the format grader's violations). */
  function JsonStrings(j: Json): seq<string> {
    if j.JArr? then Strings(j.items) else []
  }

  function Strings(items: seq<Json>): seq<string> {
    if |items| == 0 then []
    else (if items[0].JStr? then [items[0].s] else []) + Strings(items[1..])
  }

  /** The format grader's violations are read back from its metadata. */
  lemma {:induction false} ViolationsReadBack(vs: seq<string>)
    ensures JsonStrings(ViolationsJson(vs)) == vs
    decreases |vs|
  {
    var j := ViolationsJson(vs);
    if |vs| > 0 {
      ViolationsReadBack(vs[1..]);
      assert j.items[1..] == ViolationsJson(vs[1..]).items;
    }
  }

  /** The issues _run_safety_checks collects: one for a detected
      jailbreak, and one for a failed format check that lists violations;
      a grader error adds nothing. */
  function SafetyIssues(jb: GraderResult, fmt: GraderResult): seq<string> {
    var abuse := !jb.GraderError? && "is_abuse" in jb.metadata && Truthy(jb.metadata["is_abuse"]);
    var violations := if "violations" in fmt.metadata then JsonStrings(fmt.metadata["violations"]) else [];
    (if abuse then ["Jailbreaking detected: " + jb.reason] else [])
      + (if FormatFailed(fmt) && |violations| > 0 then ["Format violations: " + Join(violations, ", ")] else [])
  }

  predicate FormatFailed(fmt: GraderResult) {
    fmt.GraderScore? && fmt.score == 1.0
  }

  predicate AbuseDetected(jb: GraderResult) {
    !jb.GraderError? && "is_abuse" in jb.metadata && Truthy(jb.metadata["is_abuse"])
  }

  /** _run_safety_checks as written: the paper is unsafe when some issue's
      text mentions "Jailbreaking". */
  function SafetyChecksAsWritten(jb: GraderResult, fmt: GraderResult): (r: SafetyOutcome)
    ensures r.isSafe <==> forall i :: i in r.issues ==> !Contains(i, "Jailbreaking")
    ensures r.formatOk <==> !FormatFailed(fmt)
    ensures AbuseDetected(jb) ==> !r.isSafe
  {
    var issues := SafetyIssues(jb, fmt);
    assert AbuseDetected(jb) ==> Contains(issues[0], "Jailbreaking") by {
      if AbuseDetected(jb) { assert OccursAt(issues[0], "Jailbreaking", 0); }
    }
    SafetyOutcome(|issues| == 0 || !(exists i :: i in issues && Contains(i, "Jailbreaking")),
                  !FormatFailed(fmt), issues)
  }

  /** A failed format check whose violation text happens to mention
      "Jailbreaking" makes the paper unsafe although no jailbreak was
      detected. */
  lemma FormatViolationMarksUnsafe()
    ensures var jb := GraderError(JailbreakGraderName, "", "timeout", map[]);
      var fmt := GraderScore(FormatGraderName, 1.0, "", map["violations" := ViolationsJson(["Jailbreaking prompt in appendix"])]);
      !AbuseDetected(jb) && !SafetyChecksAsWritten(jb, fmt).isSafe
  {
    var jb := GraderError(JailbreakGraderName, "", "timeout", map[]);
    var fmt := GraderScore(FormatGraderName, 1.0, "", map["violations" := ViolationsJson(["Jailbreaking prompt in appendix"])]);
    var issue := "Format violations: " + "Jailbreaking prompt in appendix";
    AppendixIssue(jb, fmt);
    assert OccursAt(issue, "Jailbreaking", 19);
    assert issue in SafetyIssues(jb, fmt) && Contains(issue, "Jailbreaking");
  }

  /** The one issue reported for that format result. */
  lemma AppendixIssue(jb: GraderResult, fmt: GraderResult)
    requires jb.GraderError?
    requires fmt == GraderScore(FormatGraderName, 1.0, "", map["violations" := ViolationsJson(["Jailbreaking prompt in appendix"])])
    ensures SafetyIssues(jb, fmt) == ["Format violations: " + "Jailbreaking prompt in appendix"]
  {
    ViolationsReadBack(["Jailbreaking prompt in appendix"]);
    assert Join(["Jailbreaking prompt in appendix"], ", ") == "Jailbreaking prompt in appendix";
  }

  /** The safety outcome the pipeline uses: unsafe exactly when the
      jailbreaking grader reports abuse; format violations are reported
      but never make the paper unsafe. */
  function SafetyChecks(jb: GraderResult, fmt: GraderResult): (r: SafetyOutcome)
    ensures r.isSafe <==> !AbuseDetected(jb)
    ensures r.formatOk <==> !FormatFailed(fmt)
    ensures r.issues == SafetyIssues(jb, fmt)
    ensures !r.isSafe ==> |r.issues| > 0 && r.issues[0] == "Jailbreaking detected: " + jb.reason
  {
    SafetyOutcome(!AbuseDetected(jb), !FormatFailed(fmt), SafetyIssues(jb, fmt))
  }

  /** The two agree whenever no format violation mentions "Jailbreaking". */
  lemma SafetyChecksAgree(jb: GraderResult, fmt: GraderResult)
    requires !FormatFailed(fmt) || !("violations" in fmt.metadata)
    ensures SafetyChecks(jb, fmt) == SafetyChecksAsWritten(jb, fmt)
  {
    var issues := SafetyIssues(jb, fmt);
    if !AbuseDetected(jb) {
      assert issues == [];
    }
  }

  /** The safety stage on the model's replies: a jailbreak reply that
      answers "abuse" makes the paper unsafe; a reply the model call
      could not return (an exception) adds no issue. */
  lemma SafetyOnReplies(jbReply: Result<string>, fmtReply: Result<string>)
    ensures var r := SafetyChecks(EvaluateJailbreak(jbReply), EvaluateFormat(fmtReply));
      (!r.isSafe <==> jbReply.Ok? && ParseJailbreak(jbReply.value).isAbuse)
      && (!r.formatOk <==> fmtReply.Ok? && ParseFormat(fmtReply.value).score == 1)
      && (fmtReply.Ok? && ParseFormat(fmtReply.value).score == 1 && ParseFormat(fmtReply.value).violations != []
          ==> r.issues[|r.issues| - 1] == "Format violations: " + Join(ParseFormat(fmtReply.value).violations, ", "))
  {
    if fmtReply.Ok? {
      ViolationsReadBack(ParseFormat(fmtReply.value).violations);
    }
  }

  // ---------------------------------------------------------------------
  // Stage results

  const NotAList := "value is not a list of strings"
  const NoScore := "result has no score"
  const NotAMapping := "argument after ** must be a mapping"

  /** A decoded list of strings, as a `List[str]` field accepts it. */
  function StringList(j: Json): (r: Option<seq<string>>)
    ensures r.Some? ==> j.JArr? && |r.value| == |j.items|
  {
    if j.JArr? && forall k :: 0 <= k < |j.items| ==> j.items[k].JStr? then
      Some(seq(|j.items|, k requires 0 <= k < |j.items| && j.items[k].JStr? => j.items[k].s))
    else None
  }

  /** `metadata.get(key, [])` validated as a list of strings. */
  function ListField(m: map<string, Json>, key: string): Option<seq<string>> {
    if key in m then StringList(m[key]) else Some([])
  }

  /** CriticalityIssues(**d): each list defaults to empty, other keys are ignored. */
  function IssuesOf(j: Json): Result<CriticalityIssues> {
    if !j.JObj? then Err(NotAMapping)
    else
      match (ListField(j.fields, "major"), ListField(j.fields, "minor"), ListField(j.fields, "false_positives"))
      case (Some(ma), Some(mi), Some(fp)) => Ok(CriticalityIssues(ma, mi, fp))
      case _ => Err(NotAList)
  }

  /** The correctness stage's result: None for a grader error; an error
      for a score outside 1..3 or key issues that are not strings. */
  function CorrectnessOf(g: GraderResult): (r: Result<Option<CorrectnessResult>>)
    ensures g.GraderError? ==> r == Ok(None)
    ensures r.Ok? && r.value.Some? ==> (g.GraderScore? && 1 <= r.value.value.score <= 3
      && r.value.value.score as real == g.score && r.value.value.reasoning == g.reason)
  {
    match g
    case GraderError(_, _, _, _) => Ok(None)
    case GraderRank(_, _, _, _) => Err(NoScore)
    case GraderScore(_, score, reason, metadata) =>
      match ListField(metadata, "key_issues")
      case None => Err(NotAList)
      case Some(keyIssues) =>
        match MakeCorrectness(score, reason, keyIssues)
        case Ok(c) => Ok(Some(c))
        case Err(e) => Err(e)
  }

  /** The review stage's result: None for a grader error; an error for a
      score outside 1..6. */
  function ReviewOf(g: GraderResult): (r: Result<Option<ReviewResult>>)
    ensures g.GraderError? ==> r == Ok(None)
    ensures r.Ok? && r.value.Some? ==> (g.GraderScore? && 1 <= r.value.value.score <= 6
      && r.value.value.score as real == g.score && r.value.value.review == g.reason)
  {
    match g
    case GraderError(_, _, _, _) => Ok(None)
    case GraderRank(_, _, _, _) => Err(NoScore)
    case GraderScore(_, score, reason, _) =>
      match MakeReview(score, reason)
      case Ok(v) => Ok(Some(v))
      case Err(e) => Err(e)
  }

  /** The criticality stage's result: None for a grader error; an error
      for a score outside 1..3 or malformed issues. */
  function CriticalityOf(g: GraderResult): (r: Result<Option<CriticalityResult>>)
    ensures g.GraderError? ==> r == Ok(None)
    ensures r.Ok? && r.value.Some? ==> (g.GraderScore? && 1 <= r.value.value.score <= 3
      && r.value.value.score as real == g.score && r.value.value.reasoning == g.reason)
  {
    match g
    case GraderError(_, _, _, _) => Ok(None)
    case GraderRank(_, _, _, _) => Err(NoScore)
    case GraderScore(_, score, reason, metadata) =>
      match (if "issues" in metadata then IssuesOf(metadata["issues"]) else Ok(CriticalityIssues([], [], [])))
      case Err(e) => Err(e)
      case Ok(issues) =>
        match MakeCriticality(score, reason, issues)
        case Ok(v) => Ok(Some(v))
        case Err(e) => Err(e)
  }

  /** The lines of _format_findings. */
  function FindingLines(c: CorrectnessResult): (lines: seq<string>)
    ensures |lines| == 3 + |c.keyIssues|
    ensures forall k :: 0 <= k < |c.keyIssues| ==> lines[3 + k] == "- " + c.keyIssues[k]
  {
    ["Score: " + IntToString(c.score), "Reasoning: " + c.reasoning, "Key Issues:"]
      + seq(|c.keyIssues|, k requires 0 <= k < |c.keyIssues| => "- " + c.keyIssues[k])
  }

  /** _format_findings: the lines joined with newlines. */
  function FormatFindings(c: CorrectnessResult): string {
    Join(FindingLines(c), "\n")
  }

  /** When neither the reasoning nor an issue spans lines, the findings
      text splits back into its lines: the score, the reasoning, the
      heading and one "- " line per key issue, in order. */
  lemma FindingsLines(c: CorrectnessResult)
    requires '\n' !in c.reasoning && forall v :: v in c.keyIssues ==> '\n' !in v
    ensures Split(FormatFindings(c), '\n') == FindingLines(c)
    ensures PyInt(Split(FormatFindings(c), '\n')[0][7..]) == Some(c.score)
  {
    var lines := FindingLines(c);
    FindingLinesSingle(c);
    SplitJoin(lines, '\n');
    assert lines[0][7..] == IntToString(c.score);
    PyIntRoundTrip(c.score);
  }

  /** No line of the findings spans lines. */
  lemma FindingLinesSingle(c: CorrectnessResult)
    requires '\n' !in c.reasoning && forall v :: v in c.keyIssues ==> '\n' !in v
    ensures forall l :: l in FindingLines(c) ==> '\n' !in l
  {
    var lines := FindingLines(c);
    forall k | 0 <= k < |lines| ensures '\n' !in lines[k] {
      if k == 0 {
        IntToStringDigits(c.score);
        assert '\n' !in IntToString(c.score);
      } else if k >= 3 {
        assert c.keyIssues[k - 3] in c.keyIssues;
      }
    }
  }

  /** A printed integer has no newline: a sign and digits. */
  lemma IntToStringDigits(i: int)
    ensures forall m :: 0 <= m < |IntToString(i)| ==> IntToString(i)[m] != '\n'
  {
    if i < 0 {
      var d := NatToString(-i);
      assert IntToString(i) == "-" + d;
      assert forall m :: 1 <= m < |IntToString(i)| ==> IntToString(i)[m] == d[m - 1];
    }
  }

  // ---------------------------------------------------------------------
  // BibTeX verification

  /** The titles of the suspect references, in order. */
  function SuspectTitles(rs: seq<BibChecker.VerificationResult>): (ts: seq<string>)
    ensures |ts| <= |rs|
    ensures forall t :: t in ts ==> exists r :: r in rs && r.status == Suspect && r.reference.title == t
    ensures forall r :: r in rs && r.status == Suspect ==> r.reference.title in ts
  {
    if |rs| == 0 then []
    else
      var rest := SuspectTitles(rs[1..]);
      assert forall r :: r in rs[1..] ==> r in rs;
      assert forall r :: r in rs ==> r == rs[0] || r in rs[1..];
      (if rs[0].status == Suspect then [rs[0].reference.title] else []) + rest
  }

  /** The summary kept of a checker report: its figures and the titles of
      its suspect references. */
  function Summary(report: BibChecker.BibReport): (s: BibVerificationSummary)
    ensures s.totalReferences == report.totalReferences && s.verified == report.verified
    ensures s.suspect == report.suspect && s.errors == report.errors
    ensures s.verificationRate == report.verificationRate
    ensures forall t :: t in s.suspectReferences <==>
      exists r :: r in report.results && r.status == Suspect && r.reference.title == t
  {
    BibVerificationSummary(report.totalReferences, report.verified, report.suspect, report.errors,
                           report.verificationRate, SuspectTitles(report.results))
  }

  /** `bool(x)` of an optional string. */
  predicate Given(x: Option<string>) {
    x.Some? && x.value != ""
  }

  /** The inputs of one review: the loaded PDF (or the load error), the
      model's replies to the safety graders, the other graders' results,
      and the BibTeX checker for uploaded content and for a file path. */
  datatype ReviewInputs = ReviewInputs(
    pdf: Result<string>,
    jailbreakReply: Result<string>,
    formatReply: Result<string>,
    correctness: GraderResult,
    review: GraderResult,
    criticality: string -> GraderResult,
    bibLookups: BibChecker.Lookups,
    readBib: string -> Result<string>)

  /** The BibTeX stage: uploaded content wins over a path. The checker
      itself never raises, so only a file that cannot be read gives the
      empty map. */
  function BibStage(bibPath: Option<string>, bibContent: Option<string>, inputs: ReviewInputs): (r: Option<map<string, BibVerificationSummary>>)
    ensures r.Some? <==> Given(bibPath) || Given(bibContent)
    ensures Given(bibContent) ==> r.value.Keys == {"uploaded.bib"}
    ensures !Given(bibContent) && Given(bibPath) ==> (r.value.Keys <= {bibPath.value}
      && (r.value == map[] <==> inputs.readBib(bibPath.value).Err?))
  {
    if Given(bibContent) then
      Some(map["uploaded.bib" := Summary(BibChecker.BibReportOf(bibContent.value, inputs.bibLookups))])
    else if Given(bibPath) then
      Some(match inputs.readBib(bibPath.value)
        case Ok(content) =>
          var m := map[bibPath.value := Summary(BibChecker.BibReportOf(content, inputs.bibLookups))];
          assert bibPath.value in m;
          m
        case Err(_) => map[])
    else None
  }

  /** Every summary the stage reports adds up: each reference is verified
      or suspect, none is an error, and the rate is a fraction. */
  lemma BibStageFacts(bibPath: Option<string>, bibContent: Option<string>, inputs: ReviewInputs)
    requires BibStage(bibPath, bibContent, inputs).Some?
    ensures var m := BibStage(bibPath, bibContent, inputs).value;
      forall key :: key in m ==> (
        && m[key].verified + m[key].suspect == m[key].totalReferences
        && m[key].errors == 0
        && 0.0 <= m[key].verificationRate <= 1.0)
  {
    if Given(bibContent) {
      BibChecker.ReportFacts(bibContent.value, inputs.bibLookups);
    } else if inputs.readBib(bibPath.value).Ok? {
      BibChecker.ReportFacts(inputs.readBib(bibPath.value).value, inputs.bibLookups);
    }
  }

  // ---------------------------------------------------------------------
  // review_paper

  /** "Safety check failed: " followed by the issues joined with "; ". */
  function SafetyMessage(issues: seq<string>): string {
    "Safety check failed: " + Join(issues, "; ")
  }

  /** Whether the criticality grader runs: only after a correctness
      result that found a problem (a score above 1). */
  predicate RunsCriticality(c: PipelineConfig, correctness: Option<CorrectnessResult>) {
    c.enableCriticality && correctness.Some? && correctness.value.score > 1
  }

  /** The result review_paper returns, or the message of the exception it
      re-raises: the stages below, run in order until one stops the run. */
  function ReviewOutcome(c: PipelineConfig, bibPath: Option<string>, bibContent: Option<string>, inputs: ReviewInputs): Result<PaperReviewResult> {
    if inputs.pdf.Err? then Err(inputs.pdf.msg)
    else AfterLoading(c, bibPath, bibContent, inputs, SafetyOf(inputs))
  }

  /** The safety checks on the model's replies to the two safety graders. */
  function SafetyOf(inputs: ReviewInputs): SafetyOutcome {
    SafetyChecks(EvaluateJailbreak(inputs.jailbreakReply), EvaluateFormat(inputs.formatReply))
  }

  /** The safety stage: an unsafe paper ends the review with its issues. */
  function AfterLoading(c: PipelineConfig, bibPath: Option<string>, bibContent: Option<string>, inputs: ReviewInputs,
                        safety: SafetyOutcome): Result<PaperReviewResult> {
    if c.enableSafetyChecks then
      if !safety.isSafe then Ok(EmptyReviewResult().(isSafe := false, safetyIssues := safety.issues))
      else AfterSafety(c, bibPath, bibContent, inputs, EmptyReviewResult().(formatCompliant := Some(safety.formatOk)))
    else AfterSafety(c, bibPath, bibContent, inputs, EmptyReviewResult())
  }

  /** The grading stages after the safety gate, from stage `from` on
      (0 correctness, 1 review, 2 criticality, 3 BibTeX): each enabled stage
      either stops the run with its error or records its verdict and hands
      the result to the next. The criticality grader sees the correctness
      findings and runs only after a correctness score above 1. */
  function StagesFrom(c: PipelineConfig, bibPath: Option<string>, bibContent: Option<string>, inputs: ReviewInputs, result: PaperReviewResult, from: nat): Result<PaperReviewResult>
    requires from <= 3
    decreases 3 - from
  {
    if from == 0 then
      if c.enableCorrectness then
        match CorrectnessOf(inputs.correctness)
        case Err(e) => Err(e)
        case Ok(v) => StagesFrom(c, bibPath, bibContent, inputs, result.(correctness := v), 1)
      else StagesFrom(c, bibPath, bibContent, inputs, result, 1)
    else if from == 1 then
      if c.enableReview then
        match ReviewOf(inputs.review)
        case Err(e) => Err(e)
        case Ok(v) => StagesFrom(c, bibPath, bibContent, inputs, result.(review := v), 2)
      else StagesFrom(c, bibPath, bibContent, inputs, result, 2)
    else if from == 2 then
      if RunsCriticality(c, result.correctness) then
        match CriticalityOf(inputs.criticality(FormatFindings(result.correctness.value)))
        case Err(e) => Err(e)
        case Ok(v) => StagesFrom(c, bibPath, bibContent, inputs, result.(criticality := v), 3)
      else StagesFrom(c, bibPath, bibContent, inputs, result, 3)
    else if c.enableBibVerification && (Given(bibPath) || Given(bibContent)) then
      Ok(result.(bibVerification := BibStage(bibPath, bibContent, inputs)))
    else Ok(result)
  }

  /** The correctness stage and those after it. */
  function AfterSafety(c: PipelineConfig, bibPath: Option<string>, bibContent: Option<string>, inputs: ReviewInputs, result: PaperReviewResult): Result<PaperReviewResult> {
    StagesFrom(c, bibPath, bibContent, inputs, result, 0)
  }

  /** The review stage and those after it. */
  function AfterCorrectness(c: PipelineConfig, bibPath: Option<string>, bibContent: Option<string>, inputs: ReviewInputs, result: PaperReviewResult): Result<PaperReviewResult> {
    StagesFrom(c, bibPath, bibContent, inputs, result, 1)
  }

  /** The criticality stage and the BibTeX stage. */
  function AfterReview(c: PipelineConfig, bibPath: Option<string>, bibContent: Option<string>, inputs: ReviewInputs, result: PaperReviewResult): Result<PaperReviewResult> {
    StagesFrom(c, bibPath, bibContent, inputs, result, 2)
  }

  /** The BibTeX stage, the last one. */
  function AfterCriticality(c: PipelineConfig, bibPath: Option<string>, bibContent: Option<string>, result: PaperReviewResult, inputs: ReviewInputs): Result<PaperReviewResult> {
    StagesFrom(c, bibPath, bibContent, inputs, result, 3)
  }

  /** After the safety stage of a paper found safe, the run fails only
      in a grader stage; otherwise the safety fields are kept, a grader
      error leaves its field empty, a result comes only from an enabled
      grader that gave a score, the criticality result exists only when
      its grader ran after a correctness score above 1, and the BibTeX
      summary exists exactly when verification is enabled and a
      bibliography was given. */
  lemma GradedFacts(c: PipelineConfig, bibPath: Option<string>, bibContent: Option<string>, inputs: ReviewInputs, result: PaperReviewResult)
    requires result.isSafe && result.safetyIssues == []
    requires result.correctness.None? && result.review.None? && result.criticality.None? && result.bibVerification.None?
    ensures var o := AfterSafety(c, bibPath, bibContent, inputs, result);
      o.Ok? ==> (o.value.isSafe && o.value.safetyIssues == [] && o.value.formatCompliant == result.formatCompliant
        && (o.value.correctness.Some? ==> c.enableCorrectness && inputs.correctness.GraderScore?)
        && (c.enableCorrectness && inputs.correctness.GraderError? ==> o.value.correctness.None?)
        && (o.value.review.Some? ==> c.enableReview && inputs.review.GraderScore?)
        && (c.enableReview && inputs.review.GraderError? ==> o.value.review.None?)
        && (o.value.criticality.Some? ==> RunsCriticality(c, o.value.correctness))
        && (o.value.bibVerification.Some? <==> c.enableBibVerification && (Given(bibPath) || Given(bibContent))))
  {
    if c.enableCorrectness {
      match CorrectnessOf(inputs.correctness)
      case Err(_) =>
      case Ok(v) => ReviewStageFacts(c, bibPath, bibContent, inputs, result.(correctness := v));
    } else {
      ReviewStageFacts(c, bibPath, bibContent, inputs, result);
    }
  }

  /** The review stage and the ones after it change only their own fields. */
  lemma ReviewStageFacts(c: PipelineConfig, bibPath: Option<string>, bibContent: Option<string>, inputs: ReviewInputs, result: PaperReviewResult)
    requires result.review.None? && result.criticality.None? && result.bibVerification.None?
    ensures var o := AfterCorrectness(c, bibPath, bibContent, inputs, result);
      o.Ok? ==> (o.value.(review := None, criticality := None, bibVerification := None) == result
        && (o.value.review.Some? ==> c.enableReview && inputs.review.GraderScore?)
        && (c.enableReview && inputs.review.GraderError? ==> o.value.review.None?)
        && (o.value.criticality.Some? ==> RunsCriticality(c, result.correctness))
        && (o.value.bibVerification.Some? <==> c.enableBibVerification && (Given(bibPath) || Given(bibContent))))
  {
    if c.enableReview {
      match ReviewOf(inputs.review)
      case Err(_) =>
      case Ok(v) => CriticalityStageFacts(c, bibPath, bibContent, inputs, result.(review := v));
    } else {
      CriticalityStageFacts(c, bibPath, bibContent, inputs, result);
    }
  }

  /** The criticality stage and the BibTeX one change only their own fields. */
  lemma CriticalityStageFacts(c: PipelineConfig, bibPath: Option<string>, bibContent: Option<string>, inputs: ReviewInputs, result: PaperReviewResult)
    requires result.criticality.None? && result.bibVerification.None?
    ensures var o := AfterReview(c, bibPath, bibContent, inputs, result);
      o.Ok? ==> (o.value.(criticality := None, bibVerification := None) == result
        && (o.value.criticality.Some? ==> RunsCriticality(c, result.correctness))
        && (o.value.bibVerification.Some? <==> c.enableBibVerification && (Given(bibPath) || Given(bibContent))))
  {
  }

  /** What review_paper promises about its result: a PDF that does not
      load ends the run with its error; an unsafe paper (safety checks on,
      abuse detected) ends it with its issues and nothing else; a safe
      paper goes through the grading stages (GradedFacts), its format
      compliance recorded exactly when the safety checks ran. */
  lemma ReviewOutcomeFacts(c: PipelineConfig, bibPath: Option<string>, bibContent: Option<string>, inputs: ReviewInputs)
    ensures var o := ReviewOutcome(c, bibPath, bibContent, inputs);
      && (inputs.pdf.Err? ==> o == Err(inputs.pdf.msg))
      && (inputs.pdf.Ok? && c.enableSafetyChecks && !SafetyOf(inputs).isSafe ==>
            o == Ok(EmptyReviewResult().(isSafe := false, safetyIssues := SafetyOf(inputs).issues)))
      && (o.Ok? && !o.value.isSafe ==> (c.enableSafetyChecks && |o.value.safetyIssues| > 0
            && o.value.correctness.None? && o.value.review.None? && o.value.criticality.None?))
      && (o.Ok? && o.value.isSafe ==> (o.value.safetyIssues == []
            && (o.value.formatCompliant.Some? <==> c.enableSafetyChecks)))
  {
    if inputs.pdf.Ok? {
      var safety := SafetyOf(inputs);
      var r1 := if c.enableSafetyChecks then EmptyReviewResult().(formatCompliant := Some(safety.formatOk)) else EmptyReviewResult();
      GradedFacts(c, bibPath, bibContent, inputs, r1);
    }
  }

  /** The progress bookkeeping while review_paper runs, after the stages
      `passed` were announced: with a callback, the callback has seen one
      view per announced stage since `start` and the progress shows the
      last of them; without one, nothing was reported and the progress is
      still the reset one. */
  ghost predicate Tracks(callback: bool, view: ProgressView, reported: seq<ProgressView>,
                         start: seq<ProgressView>, passed: seq<ReviewStage>, total: int)
  {
    if !callback then reported == start && view == ResetView(total)
    else (reported == start + StageViews(passed, total)
      && view == (if |passed| == 0 then ResetView(total) else StageView(passed[|passed| - 1], |passed| - 1, total)))
  }

  /** Announcing stage `s` with as many stages done as were announced. */
  lemma AnnounceStep(callback: bool, v0: ProgressView, v1: ProgressView, r0: seq<ProgressView>, r1: seq<ProgressView>,
                     start: seq<ProgressView>, passed: seq<ReviewStage>, s: ReviewStage, total: int)
    requires Tracks(callback, v0, r0, start, passed, total)
    requires callback ==> v1 == UpdatedView(v0, s, StageKeys(s).0, StageKeys(s).1, |passed|, Some(total)) && r1 == r0 + [v1]
    requires !callback ==> v1 == v0 && r1 == r0
    ensures Tracks(callback, v1, r1, start, passed + [s], total)
  {
    if callback {
      var vs := StageViews(passed + [s], total);
      assert vs == StageViews(passed, total) + [StageView(s, |passed|, total)];
    }
  }

  /** Reporting a failure after the announced stages. */
  lemma FailStep(callback: bool, v0: ProgressView, v1: ProgressView, r0: seq<ProgressView>, r1: seq<ProgressView>,
                 start: seq<ProgressView>, passed: seq<ReviewStage>, msg: string, total: int)
    requires |passed| >= 1 && Tracks(callback, v0, r0, start, passed, total)
    requires callback ==> v1 == FailedView(v0, msg) && r1 == r0 + [v1]
    requires !callback ==> v1 == v0 && r1 == r0
    ensures callback ==> r1 == start + StageViews(passed, total) + [FailedView(StageView(passed[|passed| - 1], |passed| - 1, total), msg)]
    ensures !callback ==> r1 == start && v1 == ResetView(total)
  {
  }

  /** Reporting completion after the announced stages. */
  lemma CompleteStep(callback: bool, v0: ProgressView, v1: ProgressView, r0: seq<ProgressView>, r1: seq<ProgressView>,
                     start: seq<ProgressView>, passed: seq<ReviewStage>, total: int)
    requires |passed| >= 1 && Tracks(callback, v0, r0, start, passed, total)
    requires callback ==> v1 == CompletedView(v0) && r1 == r0 + [v1]
    requires !callback ==> v1 == v0 && r1 == r0
    ensures callback ==> r1 == start + StageViews(passed, total) + [CompletedView(StageView(passed[|passed| - 1], |passed| - 1, total))]
    ensures !callback ==> r1 == start && v1 == ResetView(total)
  {
  }

  /** A failure after the announced stages `passed`, a prefix of all the
      stages, reports them and then the failure of the last one. */
  lemma PrefixFailure(ss: seq<ReviewStage>, passed: seq<ReviewStage>, total: int,
                      start: seq<ProgressView>, reported: seq<ProgressView>, msg: string)
    requires 1 <= |passed| && passed <= ss
    requires reported == start + StageViews(passed, total) + [FailedView(StageView(passed[|passed| - 1], |passed| - 1, total), msg)]
    ensures exists m :: (1 <= m <= |ss|
      && reported == start + StageViews(ss[..m], total) + [FailedView(StageView(ss[m - 1], m - 1, total), msg)])
  {
    var m := |passed|;
    assert passed == ss[..m];
    assert ss[m - 1] == passed[m - 1];
  }

  /** What the callback has seen, since `start`, when the review of the
      stages `ss` ended with `r`: with a callback, each announced stage in
      order, the i-th with i stages done out of all of them, and then the
      completion on a normal run, the failure of the safety stage with the
      joined issues on an unsafe paper, or the failure of the stage that
      raised, with its message. Without a callback, nothing was reported
      and the progress is the reset one. */
  ghost predicate Reported(callback: bool, view: ProgressView, reported: seq<ProgressView>,
                           start: seq<ProgressView>, ss: seq<ReviewStage>, r: Result<PaperReviewResult>)
  {
    var total := |ss|;
    && (callback && r.Ok? && r.value.isSafe ==>
          total >= 1 && reported == start + StageViews(ss, total) + [CompletedView(StageView(ss[total - 1], total - 1, total))])
    && (callback && r.Ok? && !r.value.isSafe ==>
          (total >= 2 && ss[1] == SafetyCheck
           && reported == start + StageViews(ss[..2], total)
                + [FailedView(StageView(SafetyCheck, 1, total), SafetyMessage(r.value.safetyIssues))]))
    && (callback && r.Err? ==> exists m :: (1 <= m <= total
          && reported == start + StageViews(ss[..m], total) + [FailedView(StageView(ss[m - 1], m - 1, total), r.msg)]))
    && (!callback ==> reported == start && view == ResetView(total))
  }

  class PaperReviewPipeline {
    const config: PipelineConfig
    const progress: ReviewProgress
    /** The progress values the callback has received, oldest first. */
    var reported: seq<ProgressView>
    /** What had been reported when the current review started, and the
        stages it has announced so far. */
    ghost var runStart: seq<ProgressView>
    ghost var announced: seq<ReviewStage>

    constructor (config: PipelineConfig)
      ensures this.config == config && fresh(progress) && reported == []
      ensures progress.View() == ResetView(5)
    {
      this.config := config;
      progress := new ReviewProgress();
      reported := [];
      runStart, announced := [], [];
    }

    /** _notify_progress: only with a callback is the progress updated
        (with the stage's keys and the given counts) and reported. */
    method NotifyProgress(stage: ReviewStage, completed: int, total: int)
      modifies this, progress
      ensures config.hasCallback ==> (progress.View() == UpdatedView(old(progress.View()), stage, StageKeys(stage).0, StageKeys(stage).1, completed, Some(total))
        && reported == old(reported) + [progress.View()])
      ensures !config.hasCallback ==> progress.View() == old(progress.View()) && reported == old(reported)
      ensures runStart == old(runStart) && announced == old(announced)
    {
      if config.hasCallback {
        var keys := StageKeys(stage);
        progress.Update(stage, keys.0, keys.1, completed, Some(total));
        reported := reported + [progress.View()];
      }
    }

    /** _notify_completed. */
    method NotifyCompleted()
      modifies this, progress
      ensures config.hasCallback ==> progress.View() == CompletedView(old(progress.View())) && reported == old(reported) + [progress.View()]
      ensures !config.hasCallback ==> progress.View() == old(progress.View()) && reported == old(reported)
      ensures runStart == old(runStart) && announced == old(announced)
    {
      if config.hasCallback {
        progress.MarkCompleted();
        reported := reported + [progress.View()];
      }
    }

    /** _notify_failed. */
    method NotifyFailed(message: string)
      modifies this, progress
      ensures config.hasCallback ==> progress.View() == FailedView(old(progress.View()), message) && reported == old(reported) + [progress.View()]
      ensures !config.hasCallback ==> progress.View() == old(progress.View()) && reported == old(reported)
      ensures runStart == old(runStart) && announced == old(announced)
    {
      if config.hasCallback {
        progress.MarkFailed(message);
        reported := reported + [progress.View()];
      }
    }

    /** The bookkeeping of the current review (see Tracks). */
    ghost predicate Tracking(total: int)
      reads this, progress
    {
      Tracks(config.hasCallback, progress.View(), reported, runStart, announced, total)
    }

    /** What the callback has seen when the review of `ss` ended with `r`. */
    ghost predicate Finished(r: Result<PaperReviewResult>, ss: seq<ReviewStage>)
      reads this, progress
    {
      Reported(config.hasCallback, progress.View(), reported, runStart, ss, r)
    }

    /** Announces the next stage, with as many stages done as were announced. */
    method Announce(stage: ReviewStage, completed: int, total: int)
      requires Tracking(total) && completed == |announced|
      modifies this, progress
      ensures Tracking(total) && announced == old(announced) + [stage] && runStart == old(runStart)
    {
      ghost var v0, r0 := progress.View(), reported;
      NotifyProgress(stage, completed, total);
      AnnounceStep(config.hasCallback, v0, progress.View(), r0, reported, runStart, announced, stage, total);
      announced := announced + [stage];
    }

    /** Reports the failure of the last announced stage, a prefix of `ss`. */
    method Fail(message: string, ghost ss: seq<ReviewStage>)
      requires Tracking(|ss|) && 1 <= |announced| && announced <= ss
      modifies this, progress
      ensures runStart == old(runStart) && announced == old(announced)
      ensures Finished(Err(message), ss)
      ensures config.hasCallback ==> (reported == runStart + StageViews(announced, |ss|)
        + [FailedView(StageView(announced[|announced| - 1], |announced| - 1, |ss|), message)])
    {
      ghost var v0, r0 := progress.View(), reported;
      NotifyFailed(message);
      FailStep(config.hasCallback, v0, progress.View(), r0, reported, runStart, announced, message, |ss|);
      if config.hasCallback { PrefixFailure(ss, announced, |ss|, runStart, reported, message); }
    }

    /** Reports the failure of grader stage `stage`, the last announced. */
    method FailStage(stage: ReviewStage, message: string, ghost hasBib: bool)
      requires Tracking(|Stages(config, hasBib)|) && announced == StagesThrough(config, hasBib, stage)
      modifies this, progress
      ensures runStart == old(runStart)
      ensures Finished(Err(message), Stages(config, hasBib))
    {
      ThroughPrefix(config, hasBib, stage);
      Fail(message, Stages(config, hasBib));
    }

    /** Reports the failure of the safety stage, the second of `ss`. */
    method FailUnsafe(issues: seq<string>, ghost ss: seq<ReviewStage>)
      requires Tracking(|ss|) && |ss| >= 2 && ss[1] == SafetyCheck && announced == ss[..2]
      modifies this, progress
      ensures runStart == old(runStart)
      ensures Finished(Ok(EmptyReviewResult().(isSafe := false, safetyIssues := issues)), ss)
    {
      ghost var v0, r0 := progress.View(), reported;
      NotifyFailed(SafetyMessage(issues));
      FailStep(config.hasCallback, v0, progress.View(), r0, reported, runStart, announced, SafetyMessage(issues), |ss|);
    }

    /** review_paper: the result is ReviewOutcome, and the callback sees
        what Reported describes for the stages CountEnabledStages counts. */
    method ReviewPaper(bibPath: Option<string>, bibContent: Option<string>, inputs: ReviewInputs)
      returns (r: Result<PaperReviewResult>)
      modifies this, progress
      ensures r == ReviewOutcome(config, bibPath, bibContent, inputs)
      ensures Reported(config.hasCallback, progress.View(), reported, old(reported),
                       Stages(config, Given(bibPath) || Given(bibContent)), r)
    {
      var hasBib := Given(bibPath) || Given(bibContent);
      var total := CountEnabledStages(config, hasBib);
      ghost var ss := Stages(config, hasBib);
      StagesCounted(config, hasBib);
      ThroughPrefix(config, hasBib, LoadingPdf);
      progress.Reset(total);
      runStart, announced := reported, [];
      Announce(LoadingPdf, 0, total);
      if inputs.pdf.Err? {
        Fail(inputs.pdf.msg, ss);
        return Err(inputs.pdf.msg);
      }
      r := RunSafety(bibPath, bibContent, inputs, SafetyOf(inputs), 1, total);
    }

    /** The safety stage of review_paper and the stages after it. */
    method RunSafety(bibPath: Option<string>, bibContent: Option<string>, inputs: ReviewInputs, safety: SafetyOutcome,
                     completed: int, total: int)
      returns (r: Result<PaperReviewResult>)
      requires var hasBib := Given(bibPath) || Given(bibContent);
        total == |Stages(config, hasBib)| && Tracking(total)
        && announced == StagesThrough(config, hasBib, LoadingPdf) && completed == |announced|
      modifies this, progress
      ensures r == AfterLoading(config, bibPath, bibContent, inputs, safety)
      ensures Finished(r, Stages(config, Given(bibPath) || Given(bibContent))) && runStart == old(runStart)
    {
      ghost var hasBib := Given(bibPath) || Given(bibContent);
      var completed := completed;
      var result := EmptyReviewResult();
      if config.enableSafetyChecks {
        Announce(SafetyCheck, completed, total);
        completed := completed + 1;
        if !safety.isSafe {
          result := result.(isSafe := false, safetyIssues := safety.issues);
          SafetyStageSecond(config, hasBib);
          assert announced == StagesThrough(config, hasBib, SafetyCheck);
          FailUnsafe(safety.issues, Stages(config, hasBib));
          return Ok(result);
        }
        result := result.(formatCompliant := Some(safety.formatOk));
      }
      assert announced == StagesThrough(config, hasBib, SafetyCheck);
      r := RunCorrectness(bibPath, bibContent, inputs, result, completed, total);
    }

    /** The correctness stage and the stages after it. */
    method RunCorrectness(bibPath: Option<string>, bibContent: Option<string>, inputs: ReviewInputs,
                          result: PaperReviewResult, completed: int, total: int)
      returns (r: Result<PaperReviewResult>)
      requires var hasBib := Given(bibPath) || Given(bibContent);
        total == |Stages(config, hasBib)| && Tracking(total)
        && announced == StagesThrough(config, hasBib, SafetyCheck) && completed == |announced| && result.isSafe
      modifies this, progress
      ensures r == AfterSafety(config, bibPath, bibContent, inputs, result)
      ensures Finished(r, Stages(config, Given(bibPath) || Given(bibContent))) && runStart == old(runStart)
    {
      ghost var hasBib := Given(bibPath) || Given(bibContent);
      var completed := completed;
      var result := result;
      if config.enableCorrectness {
        Announce(Correctness, completed, total);
        var corr := CorrectnessOf(inputs.correctness);
        if corr.Err? {
          FailStage(Correctness, corr.msg, hasBib);
          return Err(corr.msg);
        }
        result := result.(correctness := corr.value);
        completed := completed + 1;
      }
      assert announced == StagesThrough(config, hasBib, Correctness);
      r := RunReview(bibPath, bibContent, inputs, result, completed, total);
    }

    /** The review stage and the stages after it. */
    method RunReview(bibPath: Option<string>, bibContent: Option<string>, inputs: ReviewInputs,
                     result: PaperReviewResult, completed: int, total: int)
      returns (r: Result<PaperReviewResult>)
      requires var hasBib := Given(bibPath) || Given(bibContent);
        total == |Stages(config, hasBib)| && Tracking(total)
        && announced == StagesThrough(config, hasBib, Correctness) && completed == |announced| && result.isSafe
      modifies this, progress
      ensures r == AfterCorrectness(config, bibPath, bibContent, inputs, result)
      ensures Finished(r, Stages(config, Given(bibPath) || Given(bibContent))) && runStart == old(runStart)
    {
      ghost var hasBib := Given(bibPath) || Given(bibContent);
      var completed := completed;
      var result := result;
      if config.enableReview {
        Announce(Review, completed, total);
        var rev := ReviewOf(inputs.review);
        if rev.Err? {
          FailStage(Review, rev.msg, hasBib);
          return Err(rev.msg);
        }
        result := result.(review := rev.value);
        completed := completed + 1;
      }
      assert announced == StagesThrough(config, hasBib, Review);
      r := RunCriticality(bibPath, bibContent, inputs, result, completed, total);
    }

    /** The criticality stage and the stages after it. The stage counts as
        done even when its grader does not run. */
    method RunCriticality(bibPath: Option<string>, bibContent: Option<string>, inputs: ReviewInputs,
                          result: PaperReviewResult, completed: int, total: int)
      returns (r: Result<PaperReviewResult>)
      requires var hasBib := Given(bibPath) || Given(bibContent);
        total == |Stages(config, hasBib)| && Tracking(total)
        && announced == StagesThrough(config, hasBib, Review) && completed == |announced| && result.isSafe
      modifies this, progress
      ensures r == AfterReview(config, bibPath, bibContent, inputs, result)
      ensures Finished(r, Stages(config, Given(bibPath) || Given(bibContent))) && runStart == old(runStart)
    {
      ghost var hasBib := Given(bibPath) || Given(bibContent);
      var completed := completed;
      var result := result;
      ghost var before := result;
      if config.enableCriticality {
        Announce(Criticality, completed, total);
        if result.correctness.Some? && result.correctness.value.score > 1 {
          var crit := CriticalityOf(inputs.criticality(FormatFindings(result.correctness.value)));
          if crit.Err? {
            assert AfterReview(config, bibPath, bibContent, inputs, result) == Err(crit.msg);
            FailStage(Criticality, crit.msg, hasBib);
            return Err(crit.msg);
          }
          result := result.(criticality := crit.value);
        }
        completed := completed + 1;
      }
      assert announced == StagesThrough(config, hasBib, Criticality);
      assert AfterReview(config, bibPath, bibContent, inputs, before) == AfterCriticality(config, bibPath, bibContent, result, inputs);
      r := RunBibVerification(bibPath, bibContent, inputs, result, completed, total);
    }

    /** The BibTeX stage, then the completion. */
    method RunBibVerification(bibPath: Option<string>, bibContent: Option<string>, inputs: ReviewInputs,
                              result: PaperReviewResult, completed: int, total: int)
      returns (r: Result<PaperReviewResult>)
      requires var hasBib := Given(bibPath) || Given(bibContent);
        total == |Stages(config, hasBib)| && Tracking(total)
        && announced == StagesThrough(config, hasBib, Criticality) && completed == |announced| && result.isSafe
      modifies this, progress
      ensures r == AfterCriticality(config, bibPath, bibContent, result, inputs)
      ensures Finished(r, Stages(config, Given(bibPath) || Given(bibContent))) && runStart == old(runStart)
    {
      ghost var hasBib := Given(bibPath) || Given(bibContent);
      var result := result;
      if config.enableBibVerification && (Given(bibPath) || Given(bibContent)) {
        Announce(BibVerification, completed, total);
        result := result.(bibVerification := BibStage(bibPath, bibContent, inputs));
      }
      assert announced == Stages(config, hasBib);
      ghost var v0, r0 := progress.View(), reported;
      NotifyCompleted();
      CompleteStep(config.hasCallback, v0, progress.View(), r0, reported, runStart, announced, total);
      r := Ok(result);
    }
  }
}
