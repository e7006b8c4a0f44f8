/** The records of the paper-review pipeline: the review stages, the
    progress object that the pipeline reports to its callback, and the
    score-bounded result records. A score field declared with bounds
    rejects, as the record library does in its lax mode, a number outside
    the bounds and a number with a fractional part. */
module ReviewSchema {
  import opened Common

  datatype VerificationStatus = Verified | Suspect | StatusError

  datatype ReviewStage =
    | NotStarted | LoadingPdf | SafetyCheck | Correctness | Review
    | Criticality | BibVerification | Completed | Failed

  /** The state of a ReviewProgress as the callback sees it. */
  datatype ProgressView = ProgressView(
    stage: ReviewStage,
    stageName: string,
    stageDescription: string,
    totalStages: int,
    completedStages: int,
    progressPercent: real,
    error: Option<string>)

  /** `completed / total * 100`, or 0 when the total is not positive. */
  function Percent(completed: int, total: int): (r: real)
    ensures total > 0 ==> r * total as real == completed as real * 100.0
    ensures total <= 0 ==> r == 0.0
  {
    if total > 0 then completed as real / total as real * 100.0 else 0.0
  }

  /** A count of stages between none and all of them is a percentage
      between 0 and 100, all of them is exactly 100, and the percentage
      grows with the count. */
  lemma PercentBounds(completed: int, total: int)
    requires 0 <= completed <= total
    ensures 0.0 <= Percent(completed, total) <= 100.0
    ensures total > 0 && completed == total ==> Percent(completed, total) == 100.0
    ensures completed < total ==> Percent(completed, total) < Percent(completed + 1, total)
  {
    if total > 0 {
      RatioBounds(completed, total);
      if completed < total { PercentGrows(completed, total); }
      if completed == total { PercentFull(total); }
    }
  }

  lemma PercentFull(total: int)
    requires total > 0
    ensures Percent(total, total) == 100.0
  {
    var r, t := Percent(total, total), total as real;
    assert r * t == t * 100.0;
    CancelPositive(r, 100.0, t);
  }

  lemma CancelPositive(a: real, b: real, t: real)
    requires t > 0.0 && a * t == t * b
    ensures a == b
  {
  }

  lemma PercentGrows(completed: int, total: int)
    requires 0 <= completed < total
    ensures Percent(completed, total) < Percent(completed + 1, total)
  {
    var t := total as real;
    assert Percent(completed + 1, total) * t - Percent(completed, total) * t == 100.0;
  }

  /** A view is consistent when its percentage is the one its counts give. */
  predicate Consistent(v: ProgressView) {
    v.progressPercent == Percent(v.completedStages, v.totalStages)
  }

  function ResetView(total: int): ProgressView {
    ProgressView(NotStarted, "", "", total, 0, 0.0, None)
  }

  function UpdatedView(v: ProgressView, stage: ReviewStage, name: string, description: string,
                       completed: int, total: Option<int>): ProgressView
  {
    var t := total.GetOr(v.totalStages);
    v.(stage := stage, stageName := name, stageDescription := description, totalStages := t,
       completedStages := completed, progressPercent := Percent(completed, t))
  }

  function CompletedView(v: ProgressView): ProgressView {
    v.(stage := Completed, completedStages := v.totalStages, progressPercent := 100.0, error := None)
  }

  function FailedView(v: ProgressView, error: string): ProgressView {
    v.(stage := Failed, error := Some(error))
  }

  /** A fresh or reset progress and every update are consistent; a failure
      keeps consistency; completion keeps it whenever there is at least
      one stage. With no stage at all, completion reports 100 percent of
      nothing, which the counts would give as 0. */
  lemma ViewsConsistent(v: ProgressView, stage: ReviewStage, name: string, description: string,
                        completed: int, total: Option<int>, error: string)
    ensures forall n :: Consistent(ResetView(n))
    ensures Consistent(UpdatedView(v, stage, name, description, completed, total))
    ensures Consistent(v) ==> Consistent(FailedView(v, error))
    ensures Consistent(CompletedView(v)) <==> v.totalStages > 0
  {
    if v.totalStages > 0 { PercentBounds(v.totalStages, v.totalStages); }
  }

  /** ReviewProgress: its methods overwrite the fields in place. */
  class ReviewProgress {
    var stage: ReviewStage
    var stageName: string
    var stageDescription: string
    var totalStages: int
    var completedStages: int
    var progressPercent: real
    var error: Option<string>

    function View(): ProgressView
      reads this
    {
      ProgressView(stage, stageName, stageDescription, totalStages, completedStages, progressPercent, error)
    }

    /** The field defaults: not started, five stages, nothing done. */
    constructor ()
      ensures View() == ResetView(5)
    {
      stage, stageName, stageDescription := NotStarted, "", "";
      totalStages, completedStages, progressPercent, error := 5, 0, 0.0, None;
    }

    /** reset: back to the defaults, with the given total. */
    method Reset(total: int)
      modifies this
      ensures View() == ResetView(total)
    {
      stage, stageName, stageDescription := NotStarted, "", "";
      totalStages, completedStages, progressPercent, error := total, 0, 0.0, None;
    }

    /** update: the total is replaced only when one is given; the
        percentage is computed against the resulting total; the error is
        left as it was. */
    method Update(newStage: ReviewStage, name: string, description: string, completed: int, total: Option<int>)
      modifies this
      ensures View() == UpdatedView(old(View()), newStage, name, description, completed, total)
      ensures total.None? ==> totalStages == old(totalStages)
    {
      if total.Some? {
        totalStages := total.value;
      }
      stage, stageName, stageDescription := newStage, name, description;
      completedStages := completed;
      progressPercent := if totalStages > 0 then completed as real / totalStages as real * 100.0 else 0.0;
    }

    /** mark_completed: every stage done, the stage's name and description
        kept from the last update. */
    method MarkCompleted()
      modifies this
      ensures View() == CompletedView(old(View()))
      ensures stageName == old(stageName) && stageDescription == old(stageDescription)
    {
      stage := Completed;
      completedStages := totalStages;
      progressPercent := 100.0;
      error := None;
    }

    /** mark_failed: only the stage and the error change. */
    method MarkFailed(message: string)
      modifies this
      ensures View() == FailedView(old(View()), message)
      ensures completedStages == old(completedStages) && progressPercent == old(progressPercent)
    {
      stage := Failed;
      error := Some(message);
    }
  }

  // ---------------------------------------------------------------------
  // Result records

  datatype CorrectnessResult = CorrectnessResult(score: int, reasoning: string, keyIssues: seq<string>)
  datatype ReviewResult = ReviewResult(score: int, review: string)
  datatype CriticalityIssues = CriticalityIssues(major: seq<string>, minor: seq<string>, falsePositives: seq<string>)
  datatype CriticalityResult = CriticalityResult(score: int, reasoning: string, issues: CriticalityIssues)

  datatype BibVerificationSummary = BibVerificationSummary(
    totalReferences: int,
    verified: int,
    suspect: int,
    errors: int,
    verificationRate: real,
    suspectReferences: seq<string>)

  datatype PaperReviewResult = PaperReviewResult(
    isSafe: bool,
    safetyIssues: seq<string>,
    correctness: Option<CorrectnessResult>,
    review: Option<ReviewResult>,
    criticality: Option<CriticalityResult>,
    formatCompliant: Option<bool>,
    bibVerification: Option<map<string, BibVerificationSummary>>)

  /** PaperReviewResult(): safe, no issues, no result yet. */
  function EmptyReviewResult(): PaperReviewResult {
    PaperReviewResult(true, [], None, None, None, None, None)
  }

  const ScoreRejected := "score out of bounds"

  /** An integer field with bounds `lo..hi` given a number: accepted when
      it is a whole number within the bounds. */
  function BoundedScore(x: real, lo: int, hi: int): (r: Result<int>)
    ensures r.Ok? <==> x == x.Floor as real && lo as real <= x <= hi as real
    ensures r.Ok? ==> r.value as real == x && lo <= r.value <= hi
  {
    if x == x.Floor as real && lo <= x.Floor <= hi then Ok(x.Floor) else Err(ScoreRejected)
  }

  /** CorrectnessResult(score=…): the score must be 1, 2 or 3. */
  function MakeCorrectness(score: real, reasoning: string, keyIssues: seq<string>): (r: Result<CorrectnessResult>)
    ensures r.Ok? <==> score in {1.0, 2.0, 3.0}
    ensures r.Ok? ==> r.value.score as real == score && r.value.reasoning == reasoning && r.value.keyIssues == keyIssues
  {
    match BoundedScore(score, 1, 3)
    case Ok(s) => Ok(CorrectnessResult(s, reasoning, keyIssues))
    case Err(e) => Err(e)
  }

  /** ReviewResult(score=…): the score must be a whole number from 1 to 6. */
  function MakeReview(score: real, review: string): (r: Result<ReviewResult>)
    ensures r.Ok? <==> score in {1.0, 2.0, 3.0, 4.0, 5.0, 6.0}
    ensures r.Ok? ==> r.value.score as real == score && r.value.review == review
  {
    match BoundedScore(score, 1, 6)
    case Ok(s) => Ok(ReviewResult(s, review))
    case Err(e) => Err(e)
  }

  /** CriticalityResult(score=…): the score must be 1, 2 or 3. */
  function MakeCriticality(score: real, reasoning: string, issues: CriticalityIssues): (r: Result<CriticalityResult>)
    ensures r.Ok? <==> score in {1.0, 2.0, 3.0}
    ensures r.Ok? ==> r.value.score as real == score && r.value.reasoning == reasoning && r.value.issues == issues
  {
    match BoundedScore(score, 1, 3)
    case Ok(s) => Ok(CriticalityResult(s, reasoning, issues))
    case Err(e) => Err(e)
  }
}
