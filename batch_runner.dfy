/** The studio's batch review of several papers: a progress record the UI
    polls, a runner that reviews the papers one after another with the
    shared task settings (each under its own paper name), a cancel switch
    that later papers observe, and the CSV summary of the results.

    Reviews run one at a time (the default concurrency of one); the clock
    and the per-paper progress callback are not modelled, and each paper
    carries the pipeline inputs and elapsed time of its own review. */
module BatchRunner {
  import opened Common
  import opened ReviewSchema
  import opened ReviewPipeline
  import opened ReviewRunner

  datatype BatchStatus = Pending | Running | Completed | Failed | Cancelled

  /** One paper of a batch: the pipeline inputs stand for its PDF bytes,
      and `elapsed` for the time its review takes. */
  datatype BatchPaperItem = BatchPaperItem(
    paperId: string,
    paperName: string,
    bibContent: Option<string>,
    inputs: ReviewInputs,
    elapsed: real)

  datatype BatchResult = BatchResult(
    success: bool,
    results: seq<ReviewTaskResult>,
    total: int,
    completed: int,
    failed: int)

  /** Python truthiness of an optional string: present and non-empty. */
  predicate Truthy(s: Option<string>) {
    s.Some? && s.value != ""
  }

  /** progress_percent: finished papers as a percentage of the batch, plus
      the running paper's own percentage spread over the batch. */
  function PercentOf(total: int, completed: int, current: Option<string>, currentProgress: real): real {
    if total == 0 then 0.0
    else
      var base := (completed as real / total as real) * 100.0;
      if Truthy(current) then base + currentProgress / total as real else base
  }

  lemma PercentStep(t: real, c: real, p: real)
    requires t >= 1.0 && 0.0 <= c && c + 1.0 <= t && 0.0 <= p <= 100.0
    ensures 0.0 <= (c / t) * 100.0 + p / t <= ((c + 1.0) / t) * 100.0 <= 100.0
  {
    assert (c / t) * 100.0 + p / t == (c * 100.0 + p) / t;
    assert ((c + 1.0) / t) * 100.0 == (c * 100.0 + 100.0) / t;
    assert (c * 100.0 + 100.0) / t <= 100.0 by {
      assert (c * 100.0 + 100.0) <= t * 100.0;
    }
  }

  /** With the papers in flight counted in the total and the running
      paper's percentage in [0, 100], the batch percentage lies in
      [0, 100]; it reaches 100 exactly when every paper completed. */
  lemma PercentBounds(total: int, completed: int, current: Option<string>, currentProgress: real)
    requires 0 <= completed && completed + (if Truthy(current) then 1 else 0) <= total
    requires 0.0 <= currentProgress <= 100.0
    ensures 0.0 <= PercentOf(total, completed, current, currentProgress) <= 100.0
    ensures !Truthy(current) && total > 0 ==> (PercentOf(total, completed, current, currentProgress) == 100.0 <==> completed == total)
  {
    if total > 0 {
      if Truthy(current) {
        PercentStep(total as real, completed as real, currentProgress);
      } else {
        RatioBounds(completed, total);
        if completed == total {
          assert completed as real / total as real == 1.0;
        } else {
          assert (completed as real / total as real) * 100.0 < 100.0 by {
            assert completed as real / total as real * total as real == completed as real;
          }
        }
      }
    }
  }

  /** Finishing the running paper successfully never moves the percentage
      back; finishing it with a failure drops that paper's share, since
      failed papers do not count as progress. */
  lemma FinishingPaper(total: int, completed: int, name: string, p: real)
    requires 0 <= completed && completed + 1 <= total && name != "" && 0.0 <= p <= 100.0
    ensures PercentOf(total, completed, Some(name), p) <= PercentOf(total, completed + 1, None, 0.0)
    ensures PercentOf(total, completed, None, 0.0) <= PercentOf(total, completed, Some(name), p)
    ensures p > 0.0 ==> PercentOf(total, completed, None, 0.0) < PercentOf(total, completed, Some(name), p)
  {
    PercentStep(total as real, completed as real, p);
  }

  /** The mutable progress record of a batch. */
  class BatchProgress {
    var total: int
    var completed: int
    var failed: int
    var currentPaper: Option<string>
    var currentPaperProgress: real
    var status: BatchStatus

    /** A progress record for `total` papers in the given status. */
    constructor (total: int, status: BatchStatus)
      ensures this.total == total && this.status == status
      ensures completed == 0 && failed == 0 && currentPaper == None && currentPaperProgress == 0.0
    {
      this.total := total;
      completed := 0;
      failed := 0;
      currentPaper := None;
      currentPaperProgress := 0.0;
      this.status := status;
    }

    function ProgressPercent(): real
      reads this
    {
      PercentOf(total, completed, currentPaper, currentPaperProgress)
    }
  }

  /** The settings a paper is reviewed with: the batch's, under the
      paper's own name. */
  function PaperConfig(c: ReviewTaskConfig, name: string): (pc: ReviewTaskConfig)
    ensures pc.paperName == name
    ensures pc.(paperName := c.paperName) == c
  {
    c.(paperName := name)
  }

  /** What a paper that sees the cancel switch returns, without a review. */
  function CancelledResult(name: string): ReviewTaskResult {
    ReviewTaskResult(false, None, None, Some("Cancelled"), name, 0.0)
  }

  /** The result for one paper: cancelled without running, or its review. */
  function PaperResult(c: ReviewTaskConfig, paper: BatchPaperItem, cancelled: bool,
                       reportOf: (PaperReviewResult, string) -> Result<string>): (r: ReviewTaskResult)
    ensures r.paperName == paper.paperName
    ensures cancelled ==> !r.success && r.error == Some("Cancelled")
  {
    if cancelled then CancelledResult(paper.paperName)
    else
      var pc := PaperConfig(c, paper.paperName);
      TaskResult(pc, Outcome(pc, paper.inputs, paper.bibContent), reportOf, paper.elapsed)
  }

  /** The results of a batch whose cancel arrives before paper
      `cancelBefore` starts (never, when it is at least the paper count). */
  function BatchResults(c: ReviewTaskConfig, papers: seq<BatchPaperItem>, cancelBefore: nat,
                        reportOf: (PaperReviewResult, string) -> Result<string>): (rs: seq<ReviewTaskResult>)
    ensures |rs| == |papers|
    ensures forall i :: 0 <= i < |papers| ==> rs[i] == PaperResult(c, papers[i], i >= cancelBefore, reportOf)
  {
    seq(|papers|, i requires 0 <= i < |papers| => PaperResult(c, papers[i], i >= cancelBefore, reportOf))
  }

  predicate Succeeded(r: ReviewTaskResult) { r.success }
  predicate NotSucceeded(r: ReviewTaskResult) { !r.success }

  /** How many papers a batch reviews before the cancel takes effect. */
  function Processed(n: nat, cancelBefore: nat): nat {
    MinInt(n, cancelBefore)
  }

  /** Every reviewed paper is counted once, as completed or as failed; the
      papers after the cancel are in neither count, and no cancelled
      result counts as completed. */
  lemma CountsPartition(c: ReviewTaskConfig, papers: seq<BatchPaperItem>, cancelBefore: nat,
                        reportOf: (PaperReviewResult, string) -> Result<string>)
    ensures var rs := BatchResults(c, papers, cancelBefore, reportOf);
      var p := Processed(|papers|, cancelBefore);
      CountWhere(rs[..p], Succeeded) + CountWhere(rs[..p], NotSucceeded) == p
      && CountWhere(rs[..p], Succeeded) == CountWhere(rs, Succeeded)
      && CountWhere(rs[..p], NotSucceeded) + (|papers| - p) == CountWhere(rs, NotSucceeded)
  {
    var rs := BatchResults(c, papers, cancelBefore, reportOf);
    var p := Processed(|papers|, cancelBefore);
    assert forall i :: p <= i < |rs| ==> NotSucceeded(rs[i]);
    CountsSplit(rs, p);
  }

  /** Counts over results whose tail from `p` on holds no success. */
  lemma CountsSplit(rs: seq<ReviewTaskResult>, p: nat)
    requires p <= |rs|
    requires forall i :: p <= i < |rs| ==> NotSucceeded(rs[i])
    ensures CountWhere(rs[..p], Succeeded) + CountWhere(rs[..p], NotSucceeded) == p
    ensures CountWhere(rs[..p], Succeeded) == CountWhere(rs, Succeeded)
    ensures CountWhere(rs[..p], NotSucceeded) + (|rs| - p) == CountWhere(rs, NotSucceeded)
  {
    CountWhereComplement(rs[..p], Succeeded, NotSucceeded);
    assert rs == rs[..p] + rs[p..];
    CountWhereAppend(rs[..p], rs[p..], Succeeded);
    CountWhereAppend(rs[..p], rs[p..], NotSucceeded);
    CountWhereNone(rs[p..], Succeeded);
    CountWhereComplement(rs[p..], Succeeded, NotSucceeded);
  }

  /** One more paper adds its own contribution to a count over the papers
      reviewed before the cancel, and nothing after it. */
  lemma ProcessedStep<T>(xs: seq<T>, i: nat, cancelBefore: nat, f: T -> bool)
    requires i < |xs|
    ensures CountWhere(xs[..Processed(i + 1, cancelBefore)], f)
      == CountWhere(xs[..Processed(i, cancelBefore)], f) + (if i < cancelBefore && f(xs[i]) then 1 else 0)
  {
    if i < cancelBefore {
      assert xs[..i + 1] == xs[..i] + [xs[i]];
      CountWhereAppend(xs[..i], [xs[i]], f);
    }
  }

  /** Appending a result updates the counts over the papers reviewed
      before the cancel by that result alone. */
  lemma CountsStep(rs: seq<ReviewTaskResult>, r: ReviewTaskResult, cancelBefore: nat)
    ensures CountWhere((rs + [r])[..Processed(|rs| + 1, cancelBefore)], Succeeded)
      == CountWhere(rs[..Processed(|rs|, cancelBefore)], Succeeded) + (if |rs| < cancelBefore && r.success then 1 else 0)
    ensures CountWhere((rs + [r])[..Processed(|rs| + 1, cancelBefore)], NotSucceeded)
      == CountWhere(rs[..Processed(|rs|, cancelBefore)], NotSucceeded) + (if |rs| < cancelBefore && !r.success then 1 else 0)
  {
    var xs := rs + [r];
    ProcessedStep(xs, |rs|, cancelBefore, Succeeded);
    ProcessedStep(xs, |rs|, cancelBefore, NotSucceeded);
    assert xs[..Processed(|rs|, cancelBefore)] == rs[..Processed(|rs|, cancelBefore)];
  }

  /** The results of the first `i` papers, one paper at a time. */
  function ResultsUpTo(c: ReviewTaskConfig, papers: seq<BatchPaperItem>, cancelBefore: nat,
                       reportOf: (PaperReviewResult, string) -> Result<string>, i: nat): (rs: seq<ReviewTaskResult>)
    requires i <= |papers|
    ensures |rs| == i
  {
    if i == 0 then []
    else ResultsUpTo(c, papers, cancelBefore, reportOf, i - 1) + [PaperResult(c, papers[i - 1], i - 1 >= cancelBefore, reportOf)]
  }

  /** Paper by paper, the results of the whole batch are BatchResults. */
  lemma {:induction false} ResultsUpToAgree(c: ReviewTaskConfig, papers: seq<BatchPaperItem>, cancelBefore: nat,
                                            reportOf: (PaperReviewResult, string) -> Result<string>, i: nat)
    requires i <= |papers|
    ensures ResultsUpTo(c, papers, cancelBefore, reportOf, i) == BatchResults(c, papers, cancelBefore, reportOf)[..i]
  {
    if i > 0 {
      ResultsUpToAgree(c, papers, cancelBefore, reportOf, i - 1);
      var all := BatchResults(c, papers, cancelBefore, reportOf);
      assert all[..i] == all[..i - 1] + [all[i - 1]];
    }
  }

  lemma ResultsUpToAll(c: ReviewTaskConfig, papers: seq<BatchPaperItem>, cancelBefore: nat,
                       reportOf: (PaperReviewResult, string) -> Result<string>)
    ensures ResultsUpTo(c, papers, cancelBefore, reportOf, |papers|) == BatchResults(c, papers, cancelBefore, reportOf)
  {
    ResultsUpToAgree(c, papers, cancelBefore, reportOf, |papers|);
    assert BatchResults(c, papers, cancelBefore, reportOf)[..|papers|] == BatchResults(c, papers, cancelBefore, reportOf);
  }

  class BatchRunner {
    const config: ReviewTaskConfig
    var progress: BatchProgress
    var cancelled: bool

    constructor (config: ReviewTaskConfig)
      ensures this.config == config && !cancelled
      ensures fresh(progress) && progress.total == 0 && progress.status == Pending
    {
      this.config := config;
      progress := new BatchProgress(0, Pending);
      cancelled := false;
    }

    /** cancel: later papers see the switch, and the status shows it. */
    method Cancel()
      modifies this, progress
      ensures cancelled && progress.status == BatchStatus.Cancelled
      ensures progress == old(progress)
      ensures progress.total == old(progress.total) && progress.completed == old(progress.completed)
      ensures progress.failed == old(progress.failed) && progress.currentPaper == old(progress.currentPaper)
      ensures progress.currentPaperProgress == old(progress.currentPaperProgress)
    {
      cancelled := true;
      progress.status := BatchStatus.Cancelled;
    }

    /** process_paper: "Cancelled" without a review once the switch is
        set; otherwise the paper's review under its own name, counted as
        completed or failed. */
    method ProcessPaper(paper: BatchPaperItem, reportOf: (PaperReviewResult, string) -> Result<string>)
      returns (result: ReviewTaskResult)
      requires progress.currentPaper == None && progress.currentPaperProgress == 0.0
      modifies progress
      ensures result == PaperResult(config, paper, cancelled, reportOf)
      ensures progress.completed == old(progress.completed) + (if !cancelled && result.success then 1 else 0)
      ensures progress.failed == old(progress.failed) + (if !cancelled && !result.success then 1 else 0)
      ensures progress.total == old(progress.total) && progress.status == old(progress.status)
      ensures progress.currentPaper == None && progress.currentPaperProgress == 0.0
    {
      if cancelled {
        return CancelledResult(paper.paperName);
      }
      progress.currentPaper := Some(paper.paperName);
      progress.currentPaperProgress := 0.0;
      result := Review(paper, reportOf);
      if result.success {
        progress.completed := progress.completed + 1;
      } else {
        progress.failed := progress.failed + 1;
      }
      progress.currentPaper := None;
      progress.currentPaperProgress := 0.0;
    }

    /** The review of one paper by a pipeline runner of its own, with the
        batch's settings under the paper's name. */
    method Review(paper: BatchPaperItem, reportOf: (PaperReviewResult, string) -> Result<string>)
      returns (result: ReviewTaskResult)
      ensures result == PaperResult(config, paper, false, reportOf)
    {
      var paperConfig := PaperConfig(config, paper.paperName);
      var runner := new PipelineRunner(paperConfig);
      result := runner.RunAsync(paper.inputs, paper.bibContent, reportOf, paper.elapsed);
    }

    /** One turn of run_async's loop: the cancel switch is set when paper
        `i` is the first one after the cancel, then the paper is processed. */
    method Next(paper: BatchPaperItem, i: nat, cancelBefore: nat, reportOf: (PaperReviewResult, string) -> Result<string>)
      returns (result: ReviewTaskResult)
      requires cancelled <==> cancelBefore < i
      requires progress.currentPaper == None && progress.currentPaperProgress == 0.0
      modifies this, progress
      ensures progress == old(progress)
      ensures cancelled <==> cancelBefore < i + 1
      ensures result == PaperResult(config, paper, i >= cancelBefore, reportOf)
      ensures progress.completed == old(progress.completed) + (if i < cancelBefore && result.success then 1 else 0)
      ensures progress.failed == old(progress.failed) + (if i < cancelBefore && !result.success then 1 else 0)
      ensures progress.total == old(progress.total)
      ensures progress.currentPaper == None && progress.currentPaperProgress == 0.0
    {
      if i == cancelBefore {
        Cancel();
      }
      result := ProcessPaper(paper, reportOf);
    }

    /** run_async's loop over the papers, on a progress record with no
        paper counted yet. */
    method ReviewAll(papers: seq<BatchPaperItem>, cancelBefore: nat,
                     reportOf: (PaperReviewResult, string) -> Result<string>)
      returns (results: seq<ReviewTaskResult>)
      requires !cancelled && progress.completed == 0 && progress.failed == 0
      requires progress.currentPaper == None && progress.currentPaperProgress == 0.0
      modifies this, progress
      ensures progress == old(progress) && progress.total == old(progress.total)
      ensures results == ResultsUpTo(config, papers, cancelBefore, reportOf, |papers|)
      ensures progress.completed == CountWhere(results[..Processed(|papers|, cancelBefore)], Succeeded)
      ensures progress.failed == CountWhere(results[..Processed(|papers|, cancelBefore)], NotSucceeded)
      ensures progress.currentPaper == None && progress.currentPaperProgress == 0.0
      ensures cancelled <==> cancelBefore < |papers|
    {
      results := [];
      var i := 0;
      while i < |papers|
        invariant 0 <= i <= |papers|
        invariant progress == old(progress) && progress.total == old(progress.total)
        invariant results == ResultsUpTo(config, papers, cancelBefore, reportOf, i)
        invariant cancelled <==> cancelBefore < i
        invariant progress.currentPaper == None && progress.currentPaperProgress == 0.0
        invariant progress.completed == CountWhere(results[..Processed(i, cancelBefore)], Succeeded)
        invariant progress.failed == CountWhere(results[..Processed(i, cancelBefore)], NotSucceeded)
      {
        results := Step(papers, i, cancelBefore, reportOf, results);
        i := i + 1;
      }
    }

    /** One turn of the loop: paper `i`'s result joins the results, and
        the counts follow it. */
    method Step(papers: seq<BatchPaperItem>, i: nat, cancelBefore: nat,
                reportOf: (PaperReviewResult, string) -> Result<string>, results: seq<ReviewTaskResult>)
      returns (results': seq<ReviewTaskResult>)
      requires i < |papers| && results == ResultsUpTo(config, papers, cancelBefore, reportOf, i)
      requires cancelled <==> cancelBefore < i
      requires progress.currentPaper == None && progress.currentPaperProgress == 0.0
      requires progress.completed == CountWhere(results[..Processed(i, cancelBefore)], Succeeded)
      requires progress.failed == CountWhere(results[..Processed(i, cancelBefore)], NotSucceeded)
      modifies this, progress
      ensures progress == old(progress) && progress.total == old(progress.total)
      ensures results' == ResultsUpTo(config, papers, cancelBefore, reportOf, i + 1)
      ensures cancelled <==> cancelBefore < i + 1
      ensures progress.currentPaper == None && progress.currentPaperProgress == 0.0
      ensures progress.completed == CountWhere(results'[..Processed(i + 1, cancelBefore)], Succeeded)
      ensures progress.failed == CountWhere(results'[..Processed(i + 1, cancelBefore)], NotSucceeded)
    {
      var result := Next(papers[i], i, cancelBefore, reportOf);
      results' := results + [result];
      CountsStep(results, result, cancelBefore);
    }

    /** run_async: a fresh progress record, every paper reviewed in order
        (those after the cancel return "Cancelled" without a review), each
        reviewed paper counted as completed or failed, and a successful
        batch result holding the results in paper order. */
    method RunAsync(papers: seq<BatchPaperItem>, cancelBefore: nat,
                    reportOf: (PaperReviewResult, string) -> Result<string>)
      returns (r: BatchResult)
      modifies this
      ensures fresh(progress)
      ensures r.success && r.total == |papers| && |r.results| == |papers|
      ensures r.results == BatchResults(config, papers, cancelBefore, reportOf)
      ensures r.completed == progress.completed == CountWhere(r.results[..Processed(|papers|, cancelBefore)], Succeeded)
      ensures r.failed == progress.failed == CountWhere(r.results[..Processed(|papers|, cancelBefore)], NotSucceeded)
      ensures progress.total == |papers| && progress.status == BatchStatus.Completed
      ensures progress.currentPaper == None && progress.currentPaperProgress == 0.0
      ensures cancelled <==> cancelBefore < |papers|
    {
      cancelled := false;
      progress := new BatchProgress(|papers|, Running);
      var results := ReviewAll(papers, cancelBefore, reportOf);
      ResultsUpToAll(config, papers, cancelBefore, reportOf);
      progress.status := BatchStatus.Completed;
      r := BatchResult(true, results, |papers|, progress.completed, progress.failed);
    }
  }

  // ---------------------------------------------------------------------
  // The CSV summary

  const CsvHeader: string := "Paper Name,Status," + "Review Score," + "Correctness Score," + "Elapsed Time,Error"

  /** One CSV line: name and error quoted, commas in the error turned into
      semicolons, correctness shown inverted (4 - score), empty cells where
      the review produced no score. */
  function CsvRow(r: ReviewTaskResult, display: real -> string): string {
    var status := if r.success then "Success" else "Failed";
    var review := if r.result.Some? && r.result.value.review.Some? then IntToString(r.result.value.review.value.score) else "";
    var correctness := if r.result.Some? && r.result.value.correctness.Some? then IntToString(4 - r.result.value.correctness.value.score) else "";
    var error := if r.error.Some? && r.error.value != "" then ReplaceChar(r.error.value, ',', ';') else "";
    "\"" + r.paperName + "\"," + status + "," + review + "," + correctness + "," + display(r.elapsedSeconds) + ",\"" + error + "\""
  }

  function CsvRows(rs: seq<ReviewTaskResult>, display: real -> string): (rows: seq<string>)
    ensures |rows| == |rs|
    ensures forall i :: 0 <= i < |rs| ==> rows[i] == CsvRow(rs[i], display)
  {
    seq(|rs|, i requires 0 <= i < |rs| => CsvRow(rs[i], display))
  }

  /** The error cell never holds a comma, so it cannot shift the columns. */
  lemma ErrorCellCommaFree(r: ReviewTaskResult)
    requires r.error.Some?
    ensures ',' !in ReplaceChar(r.error.value, ',', ';')
  {
    ReplacedGone(r.error.value, ',', ';');
  }

  /** generate_batch_csv_report: the header line, then one line per result. */
  method GenerateBatchCsvReport(results: seq<ReviewTaskResult>, display: real -> string) returns (csv: string)
    ensures csv == Join([CsvHeader] + CsvRows(results, display), "\n")
  {
    var lines := [CsvHeader];
    var i := 0;
    while i < |results|
      invariant 0 <= i <= |results|
      invariant lines == [CsvHeader] + CsvRows(results[..i], display)
    {
      assert CsvRows(results[..i + 1], display) == CsvRows(results[..i], display) + [CsvRow(results[i], display)];
      lines := lines + [CsvRow(results[i], display)];
      i := i + 1;
    }
    assert results[..i] == results;
    csv := Join(lines, "\n");
  }

  /** When no name, error or elapsed-time text holds a line break, the
      report reads back as the header and exactly one line per result. */
  lemma CsvLines(results: seq<ReviewTaskResult>, display: real -> string)
    requires forall r :: r in results ==> '\n' !in r.paperName && '\n' !in display(r.elapsedSeconds)
    requires forall r :: r in results && r.error.Some? ==> '\n' !in r.error.value
    ensures Split(Join([CsvHeader] + CsvRows(results, display), "\n"), '\n') == [CsvHeader] + CsvRows(results, display)
    ensures |Split(Join([CsvHeader] + CsvRows(results, display), "\n"), '\n')| == |results| + 1
  {
    var lines := [CsvHeader] + CsvRows(results, display);
    assert '\n' !in CsvHeader;
    RowsNoBreak(results, display);
    assert forall p :: p in lines ==> '\n' !in p;
    SplitJoin(lines, '\n');
  }

  lemma RowsNoBreak(results: seq<ReviewTaskResult>, display: real -> string)
    requires forall r :: r in results ==> '\n' !in r.paperName && '\n' !in display(r.elapsedSeconds)
    requires forall r :: r in results && r.error.Some? ==> '\n' !in r.error.value
    ensures forall p :: p in CsvRows(results, display) ==> '\n' !in p
  {
    var rows := CsvRows(results, display);
    forall k | 0 <= k < |rows| ensures '\n' !in rows[k] {
      assert results[k] in results;
      NoBreakInRow(results[k], display);
    }
  }

  lemma NoBreakInRow(r: ReviewTaskResult, display: real -> string)
    requires '\n' !in r.paperName && '\n' !in display(r.elapsedSeconds)
    requires r.error.Some? ==> '\n' !in r.error.value
    ensures '\n' !in CsvRow(r, display)
  {
    if r.result.Some? && r.result.value.review.Some? {
      IntDigitsNoBreak(r.result.value.review.value.score);
    }
    if r.result.Some? && r.result.value.correctness.Some? {
      IntDigitsNoBreak(4 - r.result.value.correctness.value.score);
    }
    if r.error.Some? && r.error.value != "" {
      var e := ReplaceChar(r.error.value, ',', ';');
      assert forall k :: 0 <= k < |e| ==> e[k] != '\n';
    }
  }

  lemma IntDigitsNoBreak(i: int)
    ensures '\n' !in IntToString(i)
  {
    var d := NatToString(if i < 0 then -i else i);
    assert forall k :: 0 <= k < |d| ==> IsDigit(d[k]);
  }
}
