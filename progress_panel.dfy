/** The Auto Arena progress panel's reading of the runner's stage: each of
    the five displayed evaluation stages is shown completed, running or
    pending according to the stage the runner reports. */
module ProgressPanel {

  datatype StageStatus = StageCompleted | StageRunning | StagePending

  /** The ids of the displayed stages, in pipeline order. */
  const StageIds: seq<string> := ["queries", "responses", "rubrics", "evaluation", "analysis"]

  /** The position of `id` in `StageIds`, or -1. */
  function StageIndex(id: string): (i: int)
    ensures -1 <= i < |StageIds|
    ensures i >= 0 ==> StageIds[i] == id
    ensures i == -1 <==> id !in StageIds
  {
    if id == "queries" then 0
    else if id == "responses" then 1
    else if id == "rubrics" then 2
    else if id == "evaluation" then 3
    else if id == "analysis" then 4
    else -1
  }

  /** `_get_stage_status`: the status of the stage at `index` while the
      runner reports `current`. */
  function Status(current: string, index: int): StageStatus {
    if current == "completed" || current == "analysis" then
      if current == "completed" then StageCompleted
      else if index < |StageIds| - 1 then StageCompleted
      else StageRunning
    else if current == "failed" || current == "paused" then StagePending
    else
      var ci := StageIndex(current);
      if ci < 0 then StagePending
      else if index < ci then StageCompleted
      else if index == ci then StageRunning
      else StagePending
  }

  /** The four regimes of the panel (at "analysis" every index from the
      last stage on shows running). */
  lemma StatusCases(current: string, index: int)
    ensures current == "completed" ==> Status(current, index) == StageCompleted
    ensures current == "analysis" ==> (Status(current, index) == StageRunning <==> index >= 4)
    ensures current == "analysis" ==> (Status(current, index) == StageCompleted <==> index < 4)
    ensures current !in StageIds && current != "completed" ==> Status(current, index) == StagePending
    ensures current in StageIds && 0 <= index < |StageIds| ==>
      (Status(current, index) == StageCompleted <==> index < StageIndex(current)) &&
      (Status(current, index) == StageRunning <==> index == StageIndex(current)) &&
      (Status(current, index) == StagePending <==> index > StageIndex(current))
  {
  }

  /** While a displayed stage runs, exactly one of the five shows running,
      every stage before it shows completed and every one after it pending. */
  lemma {:induction false} OneRunning(current: string)
    requires current in StageIds
    ensures exists k :: 0 <= k < |StageIds| && Status(current, k) == StageRunning
    ensures forall j, k :: 0 <= j < |StageIds| && 0 <= k < |StageIds| && Status(current, j) == StageRunning && Status(current, k) == StageRunning ==> j == k
    ensures forall j, k :: 0 <= j <= k < |StageIds| && Status(current, k) == StageCompleted ==> Status(current, j) == StageCompleted
  {
    StatusCases(current, StageIndex(current));
    assert Status(current, StageIndex(current)) == StageRunning;
    forall j, k | 0 <= j < |StageIds| && 0 <= k < |StageIds| && Status(current, j) == StageRunning && Status(current, k) == StageRunning
      ensures j == k
    {
      StatusCases(current, j);
      StatusCases(current, k);
    }
    forall j, k | 0 <= j <= k < |StageIds| && Status(current, k) == StageCompleted
      ensures Status(current, j) == StageCompleted
    {
      StatusCases(current, j);
      StatusCases(current, k);
    }
  }
}
