# OpenJudge core, modelled in Dafny

OpenJudge is a toolkit for judging the answers of language models. Graders
score or rank answers, runners apply the graders to datasets, and metrics
and strategies reduce the results. Two cookbooks (zero-shot pairwise
evaluation and paper review) build pipelines on them, and a Streamlit
studio wraps those pipelines in feature pages with task, history,
workspace and preset stores. Most of the system is prompts and screens.
This project models the deterministic logic around them and proves what
that logic promises.

The model has one module per source file; `Common`, `JsonValue` and
`Ordering` hold the value types and text, JSON and ordering helpers they
share. The modules fall into five groups.

- **Pairwise comparison and result reduction.**
  - `ZeroShotPipeline`: stage order, the checkpoint manager, the pairwise dataset in both presentation orders, and resuming a run.
  - `GradingRunner`: results aligned with the dataset by index, an exception becoming a `GraderError` for that item, and the aggregators.
  - `GraderSchema`: the rank validator.
  - `VotingStrategy` and `AverageStrategy`: rank averaging returns a permutation.
  - `ConflictDetector`: an antisymmetric comparison matrix and its argmax.
  - `ConflictGraph` and `ConflictMetric`: Tarjan's strongly connected components and the preference-cycle test.
  - `AccuracyMetric` and `EvaluationSchema`.
- **Deterministic graders and registries.**
  - `JsonMatch`: JSON comparison (RFC 8259 values).
  - `AgenticGrader`: the bounded ReAct loop, with the chat model and the tools as oracles.
  - `Registry`: the gallery's grader registry.
  - `GraderInfo`: the class-hierarchy fixpoint and signature extraction.
- **Paper review.**
  - `ReviewPipeline`: stage counting, stage sequencing and the safety rules.
  - `ReviewSchema`: the `ReviewProgress` state machine and the score bounds.
  - `BibParse` and `BibChecker`: BibTeX parsing, similarity and the source cascade.
  - `TexProcessor`: main-file choice and `\input`/`\include` merging.
  - `ReviewResponses`: the format and jailbreaking reply parsers.
  - `ReviewRunner`, `BatchRunner` and `ReviewHistory`: the studio's review services.
- **Studio state machines and stores.** Files and session state are in-memory maps.
  - Auto Arena: `ArenaRunner`, `ProgressPanel`, `PresetManager`, `ArenaHistory` and `FeatureConfig`.
  - Grader page: `BatchHistory`, `GraderFactory` and `GraderRegistry`.
  - Core: `TaskManager`, `FeatureRegistry`, `SessionManager` and `Navigation`.
  - Shared: `Workspaces`, `I18n`, `Translations` and `Helpers`.
  - Auto Rubric: `RubricData`, `RubricHistory` and `RubricConfig`.
- **Oracle boundaries.** Language models, tools, HTTP services, parsers of
  JSON and YAML, clocks and random ids are parameters of the functions that
  use them.

Code that changes state step by step is modelled by methods and classes.
Each method's `ensures` ties its result or new state to a specification
function, and lemmas prove what the source promises about that function.

## Model

| member | source | states |
|---|---|---|
| ZeroShotPipeline.Stages | cookbooks/zero_shot_evaluation/zero_shot_pipeline.py:52-70 | the five stages, listed once each in pipeline order |
| ZeroShotPipeline.StageComparisons | cookbooks/zero_shot_evaluation/zero_shot_pipeline.py:61-87 | `<` on stages follows pipeline order (NOT_STARTED first, EVALUATION_COMPLETE last); the order index identifies a stage; `>=`, `>`, `<=` and `<` agree with each other |
| ZeroShotPipeline.StageOrderIsNotStringOrder | cookbooks/zero_shot_evaluation/zero_shot_pipeline.py:61-87 | EVALUATION_COMPLETE is above NOT_STARTED although its value sorts first as text; it is at or above every stage |
| ZeroShotPipeline.ApplyUpdatesKeepsStage | cookbooks/zero_shot_evaluation/zero_shot_pipeline.py:253-257 | keyword arguments never change the stage, and names the checkpoint lacks change nothing |
| ZeroShotPipeline.ApplyTwoUpdates | cookbooks/zero_shot_evaluation/zero_shot_pipeline.py:255-257 | keyword arguments are applied one after another, in order |
| ZeroShotPipeline.ApplyUpdatesFrame | cookbooks/zero_shot_evaluation/zero_shot_pipeline.py:255-257 | a field no keyword argument names keeps its value |
| ZeroShotPipeline.CheckpointManager.constructor | cookbooks/zero_shot_evaluation/zero_shot_pipeline.py:118-127 | a new manager holds no checkpoint in memory and sees the files already on disk |
| ZeroShotPipeline.CheckpointManager.Load | cookbooks/zero_shot_evaluation/zero_shot_pipeline.py:132-146 | a saved checkpoint is loaded and kept in memory; a missing or unparsable one gives None and changes nothing |
| ZeroShotPipeline.CheckpointManager.Save | cookbooks/zero_shot_evaluation/zero_shot_pipeline.py:148-156 | the checkpoint becomes both the file and the one in memory; the data files are untouched |
| ZeroShotPipeline.CheckpointManager.SaveQueries | cookbooks/zero_shot_evaluation/zero_shot_pipeline.py:158-166 | the queries file holds the queries and its path is returned; nothing else changes |
| ZeroShotPipeline.CheckpointManager.SaveResponses | cookbooks/zero_shot_evaluation/zero_shot_pipeline.py:182-190 | the responses file holds the responses and its path is returned; nothing else changes |
| ZeroShotPipeline.CheckpointManager.SaveRubrics | cookbooks/zero_shot_evaluation/zero_shot_pipeline.py:205-213 | the rubrics file holds the rubrics and its path is returned; nothing else changes |
| ZeroShotPipeline.CheckpointManager.SaveComparisonDetails | cookbooks/zero_shot_evaluation/zero_shot_pipeline.py:228-234 | the details file holds the details; nothing else changes |
| ZeroShotPipeline.CheckpointManager.UpdateStage | cookbooks/zero_shot_evaluation/zero_shot_pipeline.py:245-259 | creates a default checkpoint if none is held, sets the stage, applies the keyword arguments the record has, and saves it |
| ZeroShotPipeline.CheckpointManager.Clear | cookbooks/zero_shot_evaluation/zero_shot_pipeline.py:261-276 | every checkpoint file is removed and nothing is held in memory |
| ZeroShotPipeline.PairsCount | cookbooks/zero_shot_evaluation/zero_shot_pipeline.py:490-491 | k endpoint names give k(k-1)/2 pairs |
| ZeroShotPipeline.PairsComplete | cookbooks/zero_shot_evaluation/zero_shot_pipeline.py:490-491 | every (names[i], names[j]) with i < j is a pair |
| ZeroShotPipeline.PairsSound | cookbooks/zero_shot_evaluation/zero_shot_pipeline.py:490-491 | every pair is some (names[i], names[j]) with i < j |
| ZeroShotPipeline.PairsDistinct | cookbooks/zero_shot_evaluation/zero_shot_pipeline.py:490-491 | with distinct endpoint names no pair appears twice |
| ZeroShotPipeline.OriginalThenSwappedConcat | cookbooks/zero_shot_evaluation/zero_shot_pipeline.py:508-534 | the alternation "original item, then its swapped twin" survives concatenation |
| ZeroShotPipeline.ItemsForShape | cookbooks/zero_shot_evaluation/zero_shot_pipeline.py:494-534 | one record yields two items per pair both endpoints answered, each original followed by its swap |
| ZeroShotPipeline.DatasetShape | cookbooks/zero_shot_evaluation/zero_shot_pipeline.py:494-534 | dataset length is twice the number of (query, pair) combinations with both responses, alternating original and swapped |
| ZeroShotPipeline.UnansweredContributesNothing | cookbooks/zero_shot_evaluation/zero_shot_pipeline.py:500-506 | an endpoint without a response in a record appears in none of that record's items |
| ZeroShotPipeline.ItemsForStep | cookbooks/zero_shot_evaluation/zero_shot_pipeline.py:499-534 | the items of a record are the current pair's items followed by the remaining pairs' items |
| ZeroShotPipeline.DatasetStep | cookbooks/zero_shot_evaluation/zero_shot_pipeline.py:494-534 | the dataset is the current record's items followed by the remaining records' items |
| ZeroShotPipeline.AppendRecordItems | cookbooks/zero_shot_evaluation/zero_shot_pipeline.py:499-534 | the inner loop appends exactly the record's items |
| ZeroShotPipeline.PreparePairwiseData | cookbooks/zero_shot_evaluation/zero_shot_pipeline.py:475-536 | returns the endpoint names and the dataset built over all C(k,2) pairs |
| ZeroShotPipeline.DetailsFacts | cookbooks/zero_shot_evaluation/zero_shot_pipeline.py:601-621 | one detail per scored, non-error result; winner is model_a iff score >= 0.5, else model_b; each detail comes from the item at its index |
| ZeroShotPipeline.CollectDetails | cookbooks/zero_shot_evaluation/zero_shot_pipeline.py:601-621 | the detail loop produces exactly the specified details |
| ZeroShotPipeline.Pipeline.constructor | cookbooks/zero_shot_evaluation/zero_shot_pipeline.py:356-403 | a new pipeline holds no queries, responses, rubrics or details |
| ZeroShotPipeline.Pipeline.ObtainQueries | cookbooks/zero_shot_evaluation/zero_shot_pipeline.py:658-672 | provided queries win; a checkpoint at QUERIES_GENERATED or later reloads them without generating; generation happens only otherwise, and is checkpointed |
| ZeroShotPipeline.Pipeline.ObtainResponses | cookbooks/zero_shot_evaluation/zero_shot_pipeline.py:674-686 | a checkpoint at RESPONSES_COLLECTED or later reloads responses without collecting; collection happens only otherwise, and is checkpointed |
| ZeroShotPipeline.Pipeline.ObtainRubrics | cookbooks/zero_shot_evaluation/zero_shot_pipeline.py:688-701 | provided rubrics win; a checkpoint at RUBRICS_GENERATED or later reloads them; generation happens only otherwise, and is checkpointed |
| ZeroShotPipeline.Pipeline.Evaluate | cookbooks/zero_shot_evaluation/zero_shot_pipeline.py:639-738 | resume skips checkpointed work; an empty dataset raises before grading; a successful run ends at EVALUATION_COMPLETE with total_pairs = dataset length and evaluated_pairs = result count |
| ZeroShotPipeline.Pipeline.JudgeAll | cookbooks/zero_shot_evaluation/zero_shot_pipeline.py:709-726 | one grader result per item, in order; details saved; the checkpoint records completion and the pair counts |
| GradingRunner.RunOne | openjudge/runner/grading_runner.py:132-146 | a returned result is passed through; an exception becomes a GraderError with this grader's name, the error text ending in the exception's message, and empty metadata |
| GradingRunner.SinglePlainCallableBreaksArun | openjudge/runner/grading_runner.py:94-99 | as written, a single aggregator that is a plain callable is kept bare, and iterating it in `arun` fails |
| GradingRunner.NormalizeAggregators | openjudge/runner/grading_runner.py:94-99 | None or empty gives [], a single aggregator a one-element list, a list is kept as it is |
| GradingRunner.NormalizeAggregatorsAgrees | openjudge/runner/grading_runner.py:94-99 | the corrected normalisation agrees with the code everywhere except for a single plain callable, and a single aggregator always gives one entry |
| GradingRunner.ScheduleIndex | openjudge/runner/grading_runner.py:228-238 | exactly len(graders) × len(dataset) evaluations are scheduled, one per (grader, sample) pair, at a known slot |
| GradingRunner.Runner.constructor | openjudge/runner/grading_runner.py:66-99 | keeps the graders in their order, normalises the aggregators and the progress flag |
| GradingRunner.Runner.ScheduleAll | openjudge/runner/grading_runner.py:228-247 | schedules every (grader, sample) pair in grader-then-sample order and runs each with `_arun` |
| GradingRunner.Runner.InitSlots | openjudge/runner/grading_runner.py:249-251 | one list of len(dataset) empty slots per grader |
| GradingRunner.Runner.PlaceResults | openjudge/runner/grading_runner.py:253-255 | every grader's list holds, at index i, that grader's result on dataset[i], whatever the completion order |
| GradingRunner.Runner.AllScheduled | openjudge/runner/grading_runner.py:228-238 | every (grader, sample) pair is scheduled, so every slot is filled |
| GradingRunner.Runner.GradeAll | openjudge/runner/grading_runner.py:218-255 | one key per grader, each list holding that grader's results on the dataset in order |
| GradingRunner.Runner.Arun | openjudge/runner/grading_runner.py:148-267 | one aligned list per grader; with aggregator names distinct from grader names, success iff every aggregator succeeds, each aggregator key computed per index from that index's grader results |
| GradingRunner.Runner.ApplyAggregator | openjudge/runner/grading_runner.py:258-265 | an aggregator adds one key of len(dataset) entries, entry i computed from the row at index i, leaving the other keys unchanged |
| GradingRunner.Runner.RowsAreExpected | openjudge/runner/grading_runner.py:262-264 | the row an aggregator sees at index i holds exactly the graders' results for dataset[i] |
| GradingRunner.Runner.AggregatedStep | openjudge/runner/grading_runner.py:258-265 | each aggregation step keeps all earlier aggregator keys correct |
| GradingRunner.Runner.RunAggregators | openjudge/runner/grading_runner.py:257-266 | the aggregation loop fails exactly when an aggregator fails and otherwise yields the specified result |
| GradingRunner.Runner.ArunMultipleDatasets | openjudge/runner/grading_runner.py:269-381 | one result per dataset in input order; `show_progress` is restored whatever happens |
| GraderSchema.Iota | openjudge/graders/schema.py:183 | the identity ranking [1..n] has n entries, entry i equal to i + 1 |
| GraderSchema.ValidateRank | openjudge/graders/schema.py:143-186 | an accepted rank list is returned unchanged |
| GraderSchema.ValidateRankIsPermutationCheck | openjudge/graders/schema.py:143-186 | the validator accepts a list exactly when it is a permutation of 1..n with n >= 1 |
| GraderSchema.ValidateRankErrors | openjudge/graders/schema.py:177-185 | the error raised is the first failing check in source order: empty, non-positive, duplicate, then not a permutation |
| GraderSchema.ValidateRankExamples | openjudge/graders/schema.py:164-175 | the five documented examples give the documented outcomes |
| GraderSchema.MakeGraderRank | openjudge/graders/schema.py:189-211 | constructing a GraderRank succeeds exactly for a proper ranking, and keeps its fields |
| GraderSchema.MakeRankCallback | openjudge/graders/schema.py:214-240 | constructing a GraderRankCallback succeeds exactly for a proper ranking |
| VotingStrategy.NewVotingStrategy | openjudge/evaluation_strategy/voting_evaluation_strategy.py:36-46 | construction succeeds iff num_votes >= 2, with the documented error message otherwise |
| VotingStrategy.Scores | openjudge/evaluation_strategy/voting_evaluation_strategy.py:69-74 | the scores are exactly those of the answers that carry one; none iff no answer has a score |
| VotingStrategy.BestOfPrefix | openjudge/evaluation_strategy/voting_evaluation_strategy.py:76-91 | the chosen value occurs most often, and is the least among the values that occur as often |
| VotingStrategy.Vote | openjudge/evaluation_strategy/voting_evaluation_strategy.py:76-91 | the voted value is the most frequent score, ties going to the lowest |
| VotingStrategy.VoteWinnerUnique | openjudge/evaluation_strategy/voting_evaluation_strategy.py:76-91 | the most-frequent-then-lowest winner is unique |
| VotingStrategy.Execute | openjudge/evaluation_strategy/voting_evaluation_strategy.py:48-111 | calls the function num_votes times; fails iff no answer has a score; otherwise the voted score, the first answer's name and the "Vote from n evaluations." reason |
| VotingStrategy.VoteMajorityExample | openjudge/evaluation_strategy/voting_evaluation_strategy.py:76-91 | [0.8, 0.8, 0.6] votes 0.8 |
| VotingStrategy.VoteTieExample | openjudge/evaluation_strategy/voting_evaluation_strategy.py:87-95 | the tie [1, 3, 5, 5, 3] named in the source goes to 3 |
| AverageStrategy.NewAverageStrategy | openjudge/evaluation_strategy/average_evaluation_strategy.py:32-41 | construction succeeds iff num_evaluations >= 2, with the documented error message otherwise |
| AverageStrategy.MeanScoreBetween | openjudge/evaluation_strategy/average_evaluation_strategy.py:67-69 | the averaged score lies between the lowest and highest score (a missing score counting as 0) |
| AverageStrategy.Ranks | openjudge/evaluation_strategy/average_evaluation_strategy.py:85-90 | the rank lists collected from the answers, the first answer's list first |
| AverageStrategy.AverageRanks | openjudge/evaluation_strategy/average_evaluation_strategy.py:92-94 | one mean rank per position |
| AverageStrategy.SortedPositions | openjudge/evaluation_strategy/average_evaluation_strategy.py:97-100 | the positions 0..k-1, each once, stably sorted by mean rank |
| AverageStrategy.RankByAverage | openjudge/evaluation_strategy/average_evaluation_strategy.py:97-106 | the new ranking is a permutation of 1..n that orders positions by mean rank, ties by position |
| AverageStrategy.AverageRankResults | openjudge/evaluation_strategy/average_evaluation_strategy.py:81-126 | succeeds iff all rank lists have the first one's non-zero length; the result keeps the first answer's name and the averaged ranking |
| AverageStrategy.Execute | openjudge/evaluation_strategy/average_evaluation_strategy.py:43-128 | calls the function num_evaluations times; scores are averaged with the first answer's name and reason; ranks are re-ranked by mean; anything else raises |
| AverageStrategy.MeanScoreExample | openjudge/evaluation_strategy/average_evaluation_strategy.py:67-69 | 0.5, 0.7 and 0.9 average to 0.7 |
| AverageStrategy.ExampleColumnSums | openjudge/evaluation_strategy/average_evaluation_strategy.py:92-94 | the column sums of three sample rankings |
| AverageStrategy.RankAverageExample | openjudge/evaluation_strategy/average_evaluation_strategy.py:92-106 | the rankings [1,2,3], [2,1,3] and [1,3,2] average to [1,2,3] |
| StrategyCalls.CollectCalls | openjudge/evaluation_strategy/voting_evaluation_strategy.py:63-67 | exactly count calls are made and their answers kept in call order |
| StrategyCalls.FirstName | openjudge/evaluation_strategy/voting_evaluation_strategy.py:99-103 | the name of the first answer that has one, or "" when none does |
| ConflictGraph.MutualReachCycle | rm_gallery/core/runner/evaluation/metric/conflict.py:107-112 | two distinct answers that each beat the other through a chain lie on a cycle |
| ConflictGraph.ComponentsDecideCycles | rm_gallery/core/runner/evaluation/metric/conflict.py:107-112 | given Tarjan's components, a component with more than one vertex exists iff the graph has a cycle |
| ConflictGraph.SingletonsAcyclic | rm_gallery/core/runner/evaluation/metric/conflict.py:107-112 | with singleton components only, closed in reverse topological order, no cycle exists |
| ConflictGraph.AllVisited | rm_gallery/core/runner/evaluation/metric/conflict.py:77-81 | once every vertex is numbered and the stack is empty, the components partition the vertices, are strongly connected and are emitted sinks first |
| ConflictGraph.Tarjan.constructor | rm_gallery/core/runner/evaluation/metric/conflict.py:44-50 | index 0, an empty stack, indices and lowlinks -1, no vertex on the stack, no component |
| ConflictGraph.Tarjan.StrongConnect | rm_gallery/core/runner/evaluation/metric/conflict.py:52-75 | visiting an unnumbered vertex numbers everything it reaches, emits only complete components and keeps Tarjan's invariant |
| ConflictGraph.Tarjan.OpenVisit | rm_gallery/core/runner/evaluation/metric/conflict.py:54-58 | the vertex gets the next index as index and lowlink and is pushed |
| ConflictGraph.Tarjan.ScanEdge | rm_gallery/core/runner/evaluation/metric/conflict.py:60-65 | one edge handled: an unnumbered target is visited and its lowlink taken, a stacked target's index taken, an emitted one ignored |
| ConflictGraph.Tarjan.Descend | rm_gallery/core/runner/evaluation/metric/conflict.py:61-63 | the recursive visit of an unnumbered successor followed by the lowlink minimum |
| ConflictGraph.Tarjan.CloseVisit | rm_gallery/core/runner/evaluation/metric/conflict.py:67-75 | a root (lowlink equal to index) pops its component; otherwise the vertex stays stacked |
| ConflictGraph.Tarjan.PopComponent | rm_gallery/core/runner/evaluation/metric/conflict.py:68-75 | pops down to the root, in pop order, clears their on-stack flags and appends them as one component |
| ConflictGraph.Tarjan.Run | rm_gallery/core/runner/evaluation/metric/conflict.py:77-81 | the outer loop returns components that partition the vertices, are strongly connected and close in order |
| ConflictGraph.TarjanScc | rm_gallery/core/runner/evaluation/metric/conflict.py:34-81 | the strongly connected components: a partition of the vertices, each strongly connected, every edge leading to the same or an earlier component |
| ConflictMetric.GraphOfEdges | rm_gallery/core/runner/evaluation/metric/conflict.py:97-102 | the graph has an edge i -> j exactly when i != j and matrix[i][j] > 0 |
| ConflictMetric.BuildGraph | rm_gallery/core/runner/evaluation/metric/conflict.py:97-102 | the double loop builds that graph, and fails exactly when an entry cannot be compared |
| ConflictMetric.SmallGraphAcyclic | rm_gallery/core/runner/evaluation/metric/conflict.py:93-95 | fewer than two answers never conflict |
| ConflictMetric.HasConflict | rm_gallery/core/runner/evaluation/metric/conflict.py:83-112 | reports a conflict exactly when the comparison graph has a cycle; false for fewer than two answers |
| ConflictMetric.WithMatrix | rm_gallery/core/runner/evaluation/metric/conflict.py:136-138 | keeps exactly the valid results that carry a matrix |
| ConflictMetric.ConflictingOk | rm_gallery/core/runner/evaluation/metric/conflict.py:156-170 | the scan succeeds iff every sample's matrix can be checked |
| ConflictMetric.ConflictingKeeps | rm_gallery/core/runner/evaluation/metric/conflict.py:156-170 | the conflicting samples are exactly those whose graph has a cycle |
| ConflictMetric.CheckSample | rm_gallery/core/runner/evaluation/metric/conflict.py:158-161 | one sample's matrix converted and checked |
| ConflictMetric.ScanSamples | rm_gallery/core/runner/evaluation/metric/conflict.py:153-170 | the loop counts the conflicting samples and records their details in order |
| ConflictMetric.ScanStepErr | rm_gallery/core/runner/evaluation/metric/conflict.py:156-161 | a sample whose check raises makes compute raise |
| ConflictMetric.Compute | rm_gallery/core/runner/evaluation/metric/conflict.py:114-185 | the empty and no-matrix cases give 0.0 with their details; otherwise the rate is conflicting / valid, within [0, 1], with at most 10 details |
| ConflictMetric.TwoCycleConflicts | rm_gallery/core/runner/evaluation/metric/conflict.py:83-112 | two answers that beat each other conflict |
| AccuracyMetric.ValidResults | rm_gallery/core/runner/evaluation/metric/accuracy.py:53 | exactly the results without an error |
| AccuracyMetric.CountCorrect | rm_gallery/core/runner/evaluation/metric/accuracy.py:67 | at most the number of valid results; raises iff some valid result's check raises |
| AccuracyMetric.Compute | rm_gallery/core/runner/evaluation/metric/accuracy.py:30-80 | the empty and all-invalid cases give 0.0 with their details; otherwise correct / valid within [0, 1] and the error count |
| AccuracyMetric.CountCorrectExtremes | rm_gallery/core/runner/evaluation/metric/accuracy.py:67-69 | all valid results correct gives accuracy 1, none gives 0 |
| AccuracyMetric.AccuracyExample | rm_gallery/core/runner/evaluation/metric/accuracy.py:67-69 | two of three correct predictions give 2/3 |
| EvaluationSchema.MaxOf | rm_gallery/core/runner/evaluation/schema.py:67 | `max` of a non-empty list is one of its entries and no entry is larger |
| EvaluationSchema.PyIndex | rm_gallery/core/runner/evaluation/schema.py:68 | Python indexing: in range from either end, and an IndexError otherwise |
| EvaluationSchema.IsCorrect | rm_gallery/core/runner/evaluation/schema.py:50-70 | an invalid result is incorrect; with both indices the indices are compared; it raises only on the score path |
| EvaluationSchema.ScoreBasedCorrectness | rm_gallery/core/runner/evaluation/schema.py:66-70 | on the score path, correct iff the ground-truth answer's score is the maximum |
| EvaluationSchema.ErrorRate | rm_gallery/core/runner/evaluation/schema.py:116-122 | 0 without samples, otherwise within [0, 1] |
| EvaluationSchema.SuccessRate | rm_gallery/core/runner/evaluation/schema.py:124-129 | 0 without samples, otherwise within [0, 1] |
| EvaluationSchema.RatesComplement | rm_gallery/core/runner/evaluation/schema.py:116-129 | the two rates add up to 1 whenever there is a sample |
| EvaluationSchema.GetMetricValue | rm_gallery/core/runner/evaluation/schema.py:131-145 | a valid metric's value, the default otherwise |
| EvaluationSchema.Summarize | rm_gallery/core/runner/evaluation/schema.py:147-164 | the counts, both rates, and the values of exactly the valid metrics |
| ConflictDetector.ResponseText | rm_gallery/gallery/evaluation/conflict_detector.py:63-66 | only "text" blocks contribute; a single text block is read as it is |
| ConflictDetector.ResponseTextAppend | rm_gallery/gallery/evaluation/conflict_detector.py:63-66 | the text of a split response is the concatenation of the parts' texts |
| ConflictDetector.Verdict | rm_gallery/gallery/evaluation/conflict_detector.py:68-73 | 1 iff the upper-cased reply holds "[[BEST: A]]"; -1 iff it holds only "[[BEST: B]]"; 0 iff neither |
| ConflictDetector.ComparePair | rm_gallery/gallery/evaluation/conflict_detector.py:48-77 | the result lies in -1..1, and a judge call that raised gives 0 |
| ConflictDetector.VerdictExamples | rm_gallery/gallery/evaluation/conflict_detector.py:68-73 | the verdict markers are read case-insensitively; "[[TIE]]" gives 0 |
| ConflictDetector.PairIndex | rm_gallery/gallery/evaluation/conflict_detector.py:107-109 | the position of pair (i, j) falls inside row i's block of the enumeration |
| ConflictDetector.IndexPairs | rm_gallery/gallery/evaluation/conflict_detector.py:107-109 | the enumeration has one entry per pair i < j < n |
| ConflictDetector.PairsIndexed | rm_gallery/gallery/evaluation/conflict_detector.py:107-109 | every pair i < j < n is listed once, at its PairIndex, and nothing else is |
| ConflictDetector.PairsExactly | rm_gallery/gallery/evaluation/conflict_detector.py:107-109 | a pair is compared exactly when its first index is below its second |
| ConflictDetector.PairsDistinct | rm_gallery/gallery/evaluation/conflict_detector.py:107-109 | no pair is compared twice |
| ConflictDetector.PairsCount | rm_gallery/gallery/evaluation/conflict_detector.py:107-109 | n answers give n(n-1)/2 comparisons |
| ConflictDetector.MatrixOf | rm_gallery/gallery/evaluation/conflict_detector.py:79-89 | the comparison matrix is n × n |
| ConflictDetector.MatrixAntisymmetric | rm_gallery/gallery/evaluation/conflict_detector.py:84-89 | the matrix is antisymmetric with a zero diagonal, and entry (i, j), i < j, is that pair's verdict |
| ConflictDetector.BuildMatrix | rm_gallery/gallery/evaluation/conflict_detector.py:79-89 | the loop over the verdicts builds that matrix |
| ConflictDetector.Answers | rm_gallery/gallery/evaluation/conflict_detector.py:98 | one answer per sample |
| ConflictDetector.Verdicts | rm_gallery/gallery/evaluation/conflict_detector.py:110-114 | one verdict per compared pair |
| ConflictDetector.Stored | rm_gallery/gallery/evaluation/conflict_detector.py:89 | the numeric matrix stored entry for entry |
| ConflictDetector.FirstChosen | rm_gallery/gallery/evaluation/conflict_detector.py:123-127 | the first sample marked "chosen", or none when no sample is |
| ConflictDetector.FirstBestRow | rm_gallery/gallery/evaluation/conflict_detector.py:130-131 | the first row whose sum is the largest |
| ConflictDetector.EvaluateSample | rm_gallery/gallery/evaluation/conflict_detector.py:91-149 | fewer than two answers give the "Insufficient answers" error; otherwise the matrix of the pairs' verdicts, the first chosen answer as ground truth, the first best row as prediction, and the two counts |
| ConflictDetector.DetectorMatricesCheckable | rm_gallery/gallery/evaluation/conflict_detector.py:79-89 | every matrix this runner stores can be checked by the conflict metric |
| JsonMatch.FirstFree | rm_gallery/gallery/grader/format/json_match.py:86-91 | the first unused reference item that matches, or none when no unused one does |
| JsonMatch.UnorderedMatch | rm_gallery/gallery/grader/format/json_match.py:81-94 | the loops over the `used` flags compute the greedy first-fit pairing |
| JsonMatch.MatchNull | rm_gallery/gallery/grader/format/json_match.py:52-53 | a null on either side matches only a null |
| JsonMatch.MatchShapes | rm_gallery/gallery/grader/format/json_match.py:55-76 | an object never matches a non-object, a list never matches a non-list or a list of another length |
| JsonMatch.MissingKeyFails | rm_gallery/gallery/grader/format/json_match.py:64-69 | without ignore_extra_keys, a non-null value under a key the other side lacks fails the match |
| JsonMatch.ExtraKeysIgnored | rm_gallery/gallery/grader/format/json_match.py:59-63 | with ignore_extra_keys, keys only the candidate has do not matter |
| JsonMatch.MatchReflexive | rm_gallery/gallery/grader/format/json_match.py:50-96 | every JSON value matches itself under any options |
| JsonMatch.GreedySound | rm_gallery/gallery/grader/format/json_match.py:81-94 | a greedy success gives a valid pairing |
| JsonMatch.PairingExistsIff | rm_gallery/gallery/grader/format/json_match.py:81-94 | the corrected unordered comparison succeeds iff a matching pairing exists |
| JsonMatch.GreedyMissesPairing | rm_gallery/gallery/grader/format/json_match.py:81-94 | as written, the greedy loop rejects lists that can be paired when a loose match takes a reference item first |
| JsonMatch.Compute | rm_gallery/gallery/grader/format/json_match.py:98-133 | a candidate that does not parse is reported first, then a reference that does not parse; otherwise the match and the options |
| JsonMatch.EvaluateMatch | rm_gallery/gallery/grader/format/json_match.py:135-157 | score 1.0 iff both parse and match, 0.0 otherwise, with the parse error as reason |
| JsonMatch.DifferentValueScoresZero | rm_gallery/gallery/grader/format/json_match.py:135-157 | a changed value scores 0 |
| JsonMatch.EvaluateValidator | rm_gallery/gallery/grader/format/json_match.py:189-240 | 1.0 iff the candidate parses; the metadata records validity and the candidate length |
| AgenticGrader.ResolveLanguage | openjudge/graders/agentic_grader.py:180-189 | a language value is kept; a known name maps to its language; an unknown name gives EN; no language falls back to the LANGUAGE variable, then EN |
| AgenticGrader.ToolKeys | openjudge/graders/agentic_grader.py:236 | the tool dict holds exactly the names of the tools given |
| AgenticGrader.ToolLastWins | openjudge/graders/agentic_grader.py:236 | each name is bound to the last tool carrying it |
| AgenticGrader.ToolOrderKeys | openjudge/graders/agentic_grader.py:236 | the insertion order lists each registered name once, and each tool sits under its own name |
| AgenticGrader.Schemas | openjudge/graders/agentic_grader.py:252-254 | one schema per registered tool, in insertion order |
| AgenticGrader.SerializeAll | openjudge/graders/agentic_grader.py:344-368 | one serialised call per tool call, keeping each id the call carries |
| AgenticGrader.OutcomeText | openjudge/graders/agentic_grader.py:284-293 | a raised tool gives "Execution error: ..."; otherwise the output when it is non-empty, else "Success (no output)" or "Error: <error>" |
| AgenticGrader.Arguments | openjudge/graders/agentic_grader.py:276-280 | string arguments are decoded, undecodable text becomes {}; other values are kept |
| AgenticGrader.ToolContent | openjudge/graders/agentic_grader.py:260-299 | an unknown tool gives the "not found" message; non-object arguments raise inside the call; otherwise the outcome text of running the tool |
| AgenticGrader.ToolMessages | openjudge/graders/agentic_grader.py:379-381 | one tool message per call |
| AgenticGrader.Executor | openjudge/graders/agentic_grader.py:260-299 | executing a call yields that call's tool content |
| AgenticGrader.ToolMessagesAnswer | openjudge/graders/agentic_grader.py:379-381 | message i answers call i |
| AgenticGrader.ToolMessagesCounts | openjudge/graders/agentic_grader.py:379-381 | tool replies add no assistant message and no call, one reply per call |
| AgenticGrader.RoundCounts | openjudge/graders/agentic_grader.py:317-381 | a round adds one assistant message, its calls and one reply per call |
| AgenticGrader.LoopStep | openjudge/graders/agentic_grader.py:371-381 | a reply with tool calls appends the round and moves to the next iteration |
| AgenticGrader.LoopStop | openjudge/graders/agentic_grader.py:373-376 | a reply without tool calls ends the loop with its content |
| AgenticGrader.LoopShape | openjudge/graders/agentic_grader.py:317-390 | a returning loop extends the messages by whole rounds, at most max_iterations of them, and returns the last content |
| AgenticGrader.NoIterationsFails | openjudge/graders/agentic_grader.py:317-390 | with max_iterations <= 0 the final `return content` reads an unbound variable |
| AgenticGrader.FirstVerdict | openjudge/graders/agentic_grader.py:450-458 | the first decoded object holding "score" or "rank", or none |
| AgenticGrader.FirstSome | openjudge/graders/agentic_grader.py:471-475 | the first score pattern that matched, or none |
| AgenticGrader.ParseInts | openjudge/graders/agentic_grader.py:486-491 | every part converts with int(), or the pattern is skipped |
| AgenticGrader.RankCandidates | openjudge/graders/agentic_grader.py:483-491 | one candidate per rank pattern, read from its group |
| AgenticGrader.IntsRoundTrip | openjudge/graders/agentic_grader.py:488 | a rank stored as JSON numbers reads back as the same ranks |
| AgenticGrader.PyFloat | openjudge/graders/agentic_grader.py:501 | float() of a number is that number and of a boolean 1 or 0; a text converts exactly when `float()` reads it, to that value; a list, object or null raises |
| AgenticGrader.ReasonOf | openjudge/graders/agentic_grader.py:498-506 | the output when there is no "reason"; otherwise valid exactly when the reason is a string |
| AgenticGrader.Without | openjudge/graders/agentic_grader.py:499-507 | the data without the two named keys, other entries unchanged |
| AgenticGrader.ParseResultProperties | openjudge/graders/agentic_grader.py:494-509 | pointwise gives a score and listwise a rank, with this grader's name; with nothing extracted, score 3 or rank [1] with the whole output as reason |
| AgenticGrader.StringScore | openjudge/graders/agentic_grader.py:494-501 | a pointwise score given as a JSON text gives a result exactly when `float()` reads the text and the reason is valid, and the score is the value read |
| AgenticGrader.BuildPatternRank | openjudge/graders/agentic_grader.py:503-509 | a rank found by pattern gives a GraderRank iff it is a proper ranking |
| AgenticGrader.PatternRankKept | openjudge/graders/agentic_grader.py:481-509 | without a JSON verdict, the first parsed rank pattern decides the result |
| AgenticGrader.RunMetadata | openjudge/graders/agentic_grader.py:559-569 | the tool-call and iteration counts come from the history; other parsed keys are kept |
| AgenticGrader.WithRunMetadata | openjudge/graders/agentic_grader.py:559-571 | the parsed result with the run's metadata merged in; errors pass through |
| AgenticGrader.HistoryCounts | openjudge/graders/agentic_grader.py:317-390 | a returning loop makes 1..max_iterations assistant messages, one reply per call, and keeps the prompt messages as a prefix |
| AgenticGrader.EvaluateCounts | openjudge/graders/agentic_grader.py:548-571 | the recorded iterations lie in 1..max_iterations and the recorded tool calls equal the tool replies |
| AgenticGrader.FromConfig | openjudge/graders/agentic_grader.py:603-645 | the documented defaults for missing keys, and every other key passed on as a keyword argument |
| AgenticGrader.ExecuteToolCalls | openjudge/graders/agentic_grader.py:379-381 | the loop over the calls yields their tool messages in order |
| AgenticGrader.FindVerdict | openjudge/graders/agentic_grader.py:450-458 | the scan stops at the first decoded object holding a verdict |
| AgenticGrader.FindScore | openjudge/graders/agentic_grader.py:471-475 | the scan stops at the first score pattern that matched |
| AgenticGrader.FindRank | openjudge/graders/agentic_grader.py:483-491 | the scan stops at the first rank pattern whose group parses |
| AgenticGrader.ExtractData | openjudge/graders/agentic_grader.py:444-491 | the JSON strategy first, then the pattern strategy of this grader's mode |
| AgenticGrader.AskModel | openjudge/graders/agentic_grader.py:321-339 | one model round: raise on failure, content and calls otherwise |
| AgenticGrader.RunLoop | openjudge/graders/agentic_grader.py:301-390 | the while loop computes the specified ReAct loop |
| AgenticGrader.Grader.constructor | openjudge/graders/agentic_grader.py:146-238 | keeps name, mode and max_iterations, resolves the language, and keys the tools by name |
| AgenticGrader.Grader.RegisterTool | openjudge/graders/agentic_grader.py:244-246 | a new name is appended, an existing one replaced in place; nothing else changes |
| AgenticGrader.Grader.GetTool | openjudge/graders/agentic_grader.py:248-250 | the tool under that name, None exactly when none is registered |
| AgenticGrader.Grader.ToolsSchema | openjudge/graders/agentic_grader.py:252-254 | one schema per registered tool, in registration order |
| AgenticGrader.Grader.ReactLoop | openjudge/graders/agentic_grader.py:301-390 | the ReAct loop over the registered tools |
| AgenticGrader.Grader.ParseResult | openjudge/graders/agentic_grader.py:428-509 | the extracted data turned into the mode's record |
| AgenticGrader.Grader.Evaluate | openjudge/graders/agentic_grader.py:511-571 | the loop, the parse and the run metadata, as specified |
| Registry.CategoryOf | rm_gallery/gallery/grader/registry.py:174-187 | the first category word contained in the module path, in the source's order, else "other"; a class without a module is "other" |
| Registry.Remove | rm_gallery/gallery/grader/registry.py:77-97 | the name list without the removed name, order kept |
| Registry.InCategory | rm_gallery/gallery/grader/registry.py:173-192 | every name listed under a category has a class of that category |
| Registry.GroupedIsPartition | rm_gallery/gallery/grader/registry.py:171-194 | the categories present are exactly those of the registered classes, each listing its names in insertion order |
| Registry.InCategoryHas | rm_gallery/gallery/grader/registry.py:189-192 | each name is listed under its own class's category |
| Registry.EachNameOnce | rm_gallery/gallery/grader/registry.py:171-194 | each registered name appears under exactly one category |
| Registry.GraderRegistry.constructor | rm_gallery/gallery/grader/registry.py:38-43 | a new registry holds no grader |
| Registry.GraderRegistry.Register | rm_gallery/gallery/grader/registry.py:45-75 | a taken name without override changes nothing; a new name is added at the end; an override replaces the class in place |
| Registry.GraderRegistry.Unregister | rm_gallery/gallery/grader/registry.py:77-97 | true iff the name was registered; it is gone afterwards and the rest keep their order |
| Registry.GraderRegistry.Get | rm_gallery/gallery/grader/registry.py:99-117 | the registered class, None exactly when the name is absent |
| Registry.GraderRegistry.GetInstance | rm_gallery/gallery/grader/registry.py:119-141 | an instance iff the name is registered and construction succeeds |
| Registry.GraderRegistry.ListGraders | rm_gallery/gallery/grader/registry.py:143-154 | every registered name once, in ascending order |
| Registry.GraderRegistry.Items | rm_gallery/gallery/grader/registry.py:173 | the registered (name, class) pairs in insertion order |
| Registry.GraderRegistry.ListByCategory | rm_gallery/gallery/grader/registry.py:156-194 | the loop builds the category grouping of the items |
| Registry.GraderRegistry.Clear | rm_gallery/gallery/grader/registry.py:208-217 | nothing stays registered |
| Registry.GraderRegistry.Len | rm_gallery/gallery/grader/registry.py:219-221 | the number of registered names |
| Registry.Runtime.constructor | rm_gallery/gallery/grader/registry.py:35 | no registry exists yet |
| Registry.Runtime.NewRegistry | rm_gallery/gallery/grader/registry.py:38-43 | the first call creates an empty registry, every later call returns that same one |
| GraderInfo.HavingParentIn | openjudge/utils/grader_info.py:91-95 | exactly the class definitions with a parent other than a lone ABC |
| GraderInfo.CollectedMembers | openjudge/utils/grader_info.py:65-95 | exactly the definitions having such a parent, in files other than `__init__` |
| GraderInfo.CollectFile | openjudge/utils/grader_info.py:84-95 | one file's walk adds its definitions having a parent |
| GraderInfo.CollectAll | openjudge/utils/grader_info.py:62-67 | the walk over all files collects them all |
| GraderInfo.RootedReaches | openjudge/utils/grader_info.py:98-131 | every class the fixpoint lists reaches BaseGrader through first bases |
| GraderInfo.Round | openjudge/utils/grader_info.py:105-125 | one round adds the classes whose first base is already known, keeps the listing rooted, and reports whether it found any |
| GraderInfo.GraderClassDefs | openjudge/utils/grader_info.py:98-131 | the fixpoint: everything listed is rooted at BaseGrader, the seed is removed, and no definition whose first base is listed is left out |
| GraderInfo.TopColonFrom | openjudge/utils/grader_info.py:159-168 | the first colon outside parentheses at or after i, or -1 |
| GraderInfo.SignatureEnd | openjudge/utils/grader_info.py:157-168 | the scan finds that first top-level colon |
| GraderInfo.CollapseAsWritten | openjudge/utils/grader_info.py:141-173 | as written, the result holds no newline |
| GraderInfo.Collapse | openjudge/utils/grader_info.py:141-173 | the corrected collapse: no newline remains, only the empty text collapses to the empty text, and a final non-space character is kept |
| GraderInfo.CollapseStart | openjudge/utils/grader_info.py:141-173 | the collapsed text starts with whitespace exactly when the original does, and otherwise with the same character |
| GraderInfo.CollapseSpaces | openjudge/utils/grader_info.py:141-173 | the corrected collapse never leaves two whitespace characters in a row |
| GraderInfo.CollapseAsWrittenKeepsDoubleSpace | openjudge/utils/grader_info.py:141-173 | as written, a line break followed by indentation leaves two spaces; corrected, one |
| GraderInfo.ReplaceKeepsColonEnd | openjudge/utils/grader_info.py:174 | replacing " :" by ":" keeps the final colon |
| GraderInfo.SignatureAt | openjudge/utils/grader_info.py:170-176 | the signature ends in a colon on one line, or is the not-found marker |
| GraderInfo.LastDef | openjudge/utils/grader_info.py:151-185 | the definition recorded is the last one of that name in the body |
| GraderInfo.MethodOf | openjudge/utils/grader_info.py:147-185 | an empty record when the method is missing, otherwise a non-empty signature and its docstring |
| GraderInfo.ParseClassDef | openjudge/utils/grader_info.py:144-193 | the pass over the body records the two target methods as specified |
| GraderInfo.FoundFacts | openjudge/utils/grader_info.py:98-131 | the listed names are distinct, each has a definition, found under its own name |
| GraderInfo.RecordsRooted | openjudge/utils/grader_info.py:98-131 | every recorded class has a first base that is BaseGrader or a class recorded before it |
| GraderInfo.RecordNames | openjudge/utils/grader_info.py:184-192 | each record carries the name of the class it was parsed from |
| GraderInfo.RecordsClosed | openjudge/utils/grader_info.py:98-131 | a collected definition whose first base is BaseGrader or a recorded class is itself recorded |
| GraderInfo.AllGraderInfo | openjudge/utils/grader_info.py:56-81 | one record per grader class, no class twice, the seed excluded: each is parsed from a collected definition, hangs from BaseGrader through first bases recorded before it, and every collected definition whose first base is BaseGrader or a recorded class is recorded |
| ReviewPipeline.ThroughPrefix | cookbooks/paper_review/pipeline.py:164-249 | the stages announced up to any stage are a prefix of all the stages |
| ReviewPipeline.SafetyStageSecond | cookbooks/paper_review/pipeline.py:164-181 | with safety checks on, they are announced second, right after loading |
| ReviewPipeline.StagesCounted | cookbooks/paper_review/pipeline.py:93-249 | the count of enabled stages equals the number of stages review_paper announces, lies in 1..6, and loading comes first |
| ReviewPipeline.StageViews | cookbooks/paper_review/pipeline.py:108-125 | one progress view per announced stage, stage i with i stages done |
| ReviewPipeline.ViolationsReadBack | cookbooks/paper_review/pipeline.py:279 | the format grader's violations are read back from its metadata unchanged |
| ReviewPipeline.SafetyChecksAsWritten | cookbooks/paper_review/pipeline.py:261-287 | as written, safe iff no issue mentions "Jailbreaking"; format not ok iff the format grader scored 1 |
| ReviewPipeline.FormatViolationMarksUnsafe | cookbooks/paper_review/pipeline.py:279-284 | as written, a format violation mentioning "Jailbreaking" marks a paper unsafe with no abuse detected |
| ReviewPipeline.SafetyChecks | cookbooks/paper_review/pipeline.py:261-287 | corrected: unsafe iff the jailbreak grader detected abuse, and then its issue comes first |
| ReviewPipeline.SafetyChecksAgree | cookbooks/paper_review/pipeline.py:261-287 | the corrected check agrees with the code whenever no format violation is reported |
| ReviewPipeline.SafetyOnReplies | cookbooks/paper_review/pipeline.py:261-287 | on the graders' replies: unsafe iff the jailbreak reply says abuse; format not ok iff the format reply scores 1 |
| ReviewPipeline.StringList | cookbooks/paper_review/pipeline.py:203 | a list of strings keeps the list's length |
| ReviewPipeline.CorrectnessOf | cookbooks/paper_review/pipeline.py:195-204 | a grader error leaves correctness unset; otherwise the score (1..3) and reason are taken over |
| ReviewPipeline.ReviewOf | cookbooks/paper_review/pipeline.py:211-216 | a grader error leaves the review unset; otherwise the score (1..6) and text are taken over |
| ReviewPipeline.CriticalityOf | cookbooks/paper_review/pipeline.py:225-236 | a grader error leaves criticality unset; otherwise the score (1..3) and reason are taken over |
| ReviewPipeline.FindingLines | cookbooks/paper_review/pipeline.py:289-298 | three header lines, then one "- " line per key issue |
| ReviewPipeline.FindingsLines | cookbooks/paper_review/pipeline.py:289-298 | splitting the findings text at newlines gives back its lines, and the score reads back from the first |
| ReviewPipeline.SuspectTitles | cookbooks/paper_review/pipeline.py:306-328 | exactly the titles of the suspect references |
| ReviewPipeline.Summary | cookbooks/paper_review/pipeline.py:308-339 | the report's counts and rate, and its suspect titles |
| ReviewPipeline.BibStage | cookbooks/paper_review/pipeline.py:242-342 | uploaded content wins and is keyed "uploaded.bib"; otherwise the path's file, with {} when it cannot be read |
| ReviewPipeline.BibStageFacts | cookbooks/paper_review/pipeline.py:300-342 | every summary's verified and suspect add up to the total, with no errors and a rate in [0, 1] |
| ReviewPipeline.GradedFacts | cookbooks/paper_review/pipeline.py:191-249 | past the safety stage, each stage sets only its own field, and only when enabled |
| ReviewPipeline.ReviewStageFacts | cookbooks/paper_review/pipeline.py:207-249 | the review stage and those after it change only their own fields |
| ReviewPipeline.CriticalityStageFacts | cookbooks/paper_review/pipeline.py:219-249 | criticality runs only when enabled and the correctness score exceeds 1 |
| ReviewPipeline.ReviewOutcomeFacts | cookbooks/paper_review/pipeline.py:139-259 | a PDF that fails to load raises; an unsafe paper returns an empty result with the issues; otherwise the graded result |
| ReviewPipeline.PrefixFailure | cookbooks/paper_review/pipeline.py:256-259 | a failure is reported after a non-empty prefix of the stages |
| ReviewPipeline.PaperReviewPipeline.constructor | cookbooks/paper_review/pipeline.py:68-83 | keeps the configuration; the progress starts at its defaults |
| ReviewPipeline.PaperReviewPipeline.NotifyProgress | cookbooks/paper_review/pipeline.py:108-125 | with a callback, the progress is updated for the stage and reported; without one nothing changes |
| ReviewPipeline.PaperReviewPipeline.NotifyCompleted | cookbooks/paper_review/pipeline.py:127-131 | with a callback, the progress is marked completed and reported |
| ReviewPipeline.PaperReviewPipeline.NotifyFailed | cookbooks/paper_review/pipeline.py:133-137 | with a callback, the progress is marked failed with the message and reported |
| ReviewPipeline.PaperReviewPipeline.Announce | cookbooks/paper_review/pipeline.py:164-243 | announces the next stage with the stages done so far |
| ReviewPipeline.PaperReviewPipeline.Fail | cookbooks/paper_review/pipeline.py:256-259 | reports the failure of the last announced stage |
| ReviewPipeline.PaperReviewPipeline.FailStage | cookbooks/paper_review/pipeline.py:256-259 | a grader stage that raises ends the run with the failure reported |
| ReviewPipeline.PaperReviewPipeline.FailUnsafe | cookbooks/paper_review/pipeline.py:183-188 | an unsafe paper ends the run with the empty result and the joined issues reported as failure |
| ReviewPipeline.PaperReviewPipeline.ReviewPaper | cookbooks/paper_review/pipeline.py:139-259 | returns the specified outcome, and the progress reports are the enabled stages in order followed by completion or failure |
| ReviewPipeline.PaperReviewPipeline.RunSafety | cookbooks/paper_review/pipeline.py:176-189 | the safety stage and those after it, as specified |
| ReviewPipeline.PaperReviewPipeline.RunCorrectness | cookbooks/paper_review/pipeline.py:191-205 | the correctness stage and those after it, as specified |
| ReviewPipeline.PaperReviewPipeline.RunReview | cookbooks/paper_review/pipeline.py:207-217 | the review stage and those after it, as specified |
| ReviewPipeline.PaperReviewPipeline.RunCriticality | cookbooks/paper_review/pipeline.py:219-239 | the criticality stage and those after it, as specified |
| ReviewPipeline.PaperReviewPipeline.RunBibVerification | cookbooks/paper_review/pipeline.py:241-254 | the BibTeX stage, then completion |
| ReviewSchema.Percent | cookbooks/paper_review/schema.py:76 | completed / total × 100, or 0 when the total is not positive |
| ReviewSchema.PercentBounds | cookbooks/paper_review/schema.py:76 | within [0, 100], 100 when all are done, strictly growing with each completed stage |
| ReviewSchema.PercentFull | cookbooks/paper_review/schema.py:76 | all stages done is 100 |
| ReviewSchema.PercentGrows | cookbooks/paper_review/schema.py:76 | one more completed stage raises the percentage |
| ReviewSchema.ViewsConsistent | cookbooks/paper_review/schema.py:43-101 | reset, update and mark_failed keep the percentage consistent with the counts; mark_completed does iff there is a stage |
| ReviewSchema.ReviewProgress.constructor | cookbooks/paper_review/schema.py:32-41 | the field defaults: not started, five stages, nothing done |
| ReviewSchema.ReviewProgress.Reset | cookbooks/paper_review/schema.py:43-51 | back to the defaults with the given total |
| ReviewSchema.ReviewProgress.Update | cookbooks/paper_review/schema.py:53-76 | sets stage, names and counts and recomputes the percentage; no total keeps the old one |
| ReviewSchema.ReviewProgress.MarkCompleted | cookbooks/paper_review/schema.py:78-88 | completed stage, all stages done, 100 percent; names unchanged |
| ReviewSchema.ReviewProgress.MarkFailed | cookbooks/paper_review/schema.py:90-101 | only the stage and the error change |
| ReviewSchema.BoundedScore | cookbooks/paper_review/schema.py:111-134 | a score is accepted iff it is a whole number within the bounds |
| ReviewSchema.MakeCorrectness | cookbooks/paper_review/schema.py:108-113 | accepted iff the score is 1, 2 or 3 |
| ReviewSchema.MakeReview | cookbooks/paper_review/schema.py:116-120 | accepted iff the score is a whole number from 1 to 6 |
| ReviewSchema.MakeCriticality | cookbooks/paper_review/schema.py:131-136 | accepted iff the score is 1, 2 or 3 |
| BibParse.Entries | cookbooks/paper_review/processors/bib_checker.py:71-78 | every entry the entry pattern reads lies inside the text and has a stripped key without a comma and field text without an '@' |
| BibParse.SearchField | cookbooks/paper_review/processors/bib_checker.py:83-86 | a value found by the field pattern holds no closing brace or quote and is stripped |
| BibParse.SearchFieldWitness | cookbooks/paper_review/processors/bib_checker.py:83-86 | the value found is the one at the leftmost position where the field pattern matches, and no earlier position matches |
| BibParse.SearchFieldNone | cookbooks/paper_review/processors/bib_checker.py:83-86 | no value is found when no position matches |
| BibParse.AsWrittenFindsBookTitle | cookbooks/paper_review/processors/bib_checker.py:83-88 | the field pattern without a word boundary, asked for the title, returns the value of a preceding booktitle field |
| BibParse.WholeWordFindsTitle | cookbooks/paper_review/processors/bib_checker.py:83-88 | the field pattern anchored at the start of a field name finds the title itself in the same text |
| BibParse.ArxivSearch | cookbooks/paper_review/processors/bib_checker.py:96-101 | an arXiv identifier found is four digits, a dot and four or five digits |
| BibParse.ArxivSearchWitness | cookbooks/paper_review/processors/bib_checker.py:96-101 | the identifier found occurs at the leftmost position where one occurs |
| BibParse.ParseEntryFacts | cookbooks/paper_review/processors/bib_checker.py:80-111 | an entry parses exactly when its title is filled; the reference keeps the key and the stripped title; the journal is the journal field, else the booktitle, else empty; the arXiv id is the eprint field, or an identifier occurring in a journal that names arXiv |
| BibParse.ParseEntries | cookbooks/paper_review/processors/bib_checker.py:74-78 | each reference comes from one entry whose parse succeeded, and there are no more references than entries |
| BibParse.ParseBibFacts | cookbooks/paper_review/processors/bib_checker.py:68-78 | every reference read from BibTeX text has a filled, stripped title and a stripped key without a comma |
| BibChecker.Jaccard | cookbooks/paper_review/processors/bib_checker.py:390-429 | the Jaccard index lies in [0, 1] and is 0 when either set is empty |
| BibChecker.JaccardFacts | cookbooks/paper_review/processors/bib_checker.py:390-429 | the index is symmetric, is 1 exactly for two equal non-empty sets and is positive exactly when the sets share an element |
| BibChecker.StripPunct | cookbooks/paper_review/processors/bib_checker.py:392-393 | removing punctuation leaves only word characters and whitespace and never lengthens the text |
| BibChecker.TextSimilarity | cookbooks/paper_review/processors/bib_checker.py:390-396 | title similarity lies in [0, 1] |
| BibChecker.TextSimilarityFacts | cookbooks/paper_review/processors/bib_checker.py:390-396 | title similarity is symmetric and is 1 exactly when both titles have the same non-empty set of words |
| BibChecker.AndSearch | cookbooks/paper_review/processors/bib_checker.py:405 | the separator found is the case-insensitive word "and" between runs of whitespace |
| BibChecker.AndSplit | cookbooks/paper_review/processors/bib_checker.py:405 | splitting the author list always yields at least one part |
| BibChecker.BibNames | cookbooks/paper_review/processors/bib_checker.py:403-414 | the last names taken from the BibTeX authors never include the empty name or "others" |
| BibChecker.LastNameWithComma | cookbooks/paper_review/processors/bib_checker.py:407-408 | a "Last, First" author contributes the lower-cased, stripped text before the comma |
| BibChecker.LastNameLastWord | cookbooks/paper_review/processors/bib_checker.py:409-412 | a "First Last" author contributes the lower-cased last word |
| BibChecker.AuthorSimilarity | cookbooks/paper_review/processors/bib_checker.py:398-429 | author similarity lies in [0, 1] and is 0 when either author list is empty |
| BibChecker.ExtractDetail | cookbooks/paper_review/processors/bib_checker.py:230-388 | title and author matches lie in [0, 1]; with no BibTeX authors the author match is 1; the year fails to match exactly when both years are given and differ |
| BibChecker.ScoreFacts | cookbooks/paper_review/processors/bib_checker.py:431-437 | the overall score lies in [0, 1]; a score of at least 0.7 needs a title match of at least 0.4, or 0.8 without the year; titles sharing no word score at most 0.5 |
| BibChecker.PerfectScore | cookbooks/paper_review/processors/bib_checker.py:431-437 | the same title words, a matching year and matching authors score exactly 1 |
| BibChecker.RoundHalfEven | cookbooks/paper_review/processors/bib_checker.py:441 | rounding to a whole number moves by at most one half, sends halves to the even neighbour and keeps whole numbers |
| BibChecker.PercentText | cookbooks/paper_review/processors/bib_checker.py:441 | a percentage prints as the rounded whole percentage followed by '%' |
| BibChecker.PercentTextRange | cookbooks/paper_review/processors/bib_checker.py:441 | a ratio in [0, 1] prints as a percentage in 0..100 |
| BibChecker.MatchMessage | cookbooks/paper_review/processors/bib_checker.py:439-446 | the message starts with the source's name and ends with the year mark and a closing parenthesis |
| BibChecker.MessageShowsYear | cookbooks/paper_review/processors/bib_checker.py:442-445 | two messages with the same head and text agree on whether the year matched |
| BibChecker.DoiOutcome | cookbooks/paper_review/processors/bib_checker.py:149-172 | a DOI lookup verifies exactly when Crossref knows the DOI, with confidence 1, source crossref and the match detail; otherwise the result is suspect with "DOI not found" |
| BibChecker.FirstAtLeastFacts | cookbooks/paper_review/processors/bib_checker.py:283-353 | the first hit reaching the bar is preceded only by hits below it, and no hit reaches it when none is found |
| BibChecker.BestUpToFacts | cookbooks/paper_review/processors/bib_checker.py:195-203 | the best score kept is at least every score seen, the first hit with that score is kept, and nothing is kept when every score is at most 0 |
| BibChecker.SearchOutcome | cookbooks/paper_review/processors/bib_checker.py:262-359 | an arXiv or DBLP search never gives an error status, and a result that is not verified carries no detail and confidence 0 |
| BibChecker.SearchVerifiedIff | cookbooks/paper_review/processors/bib_checker.py:262-359 | a search verifies exactly when some hit scores at least 0.7 |
| BibChecker.SearchReportsFirst | cookbooks/paper_review/processors/bib_checker.py:283-355 | a verified search reports the first hit that scores at least 0.7 |
| BibChecker.SearchVerifiedFacts | cookbooks/paper_review/processors/bib_checker.py:283-355 | a verified search names its site and scores between 0.7 and 1 |
| BibChecker.VerifyBySearch | cookbooks/paper_review/processors/bib_checker.py:262-359 | the loop over the hits returns the search outcome of the reply |
| BibChecker.CrossrefOutcome | cookbooks/paper_review/processors/bib_checker.py:174-228 | a title search never gives an error status; a result with detail names Crossref and scores at least 0.4, a suspect one below 0.7; a result without detail is suspect with confidence 0 |
| BibChecker.CrossrefVerifiedIff | cookbooks/paper_review/processors/bib_checker.py:174-228 | the title search verifies exactly when some hit scores at least 0.7 |
| BibChecker.CrossrefReportsBest | cookbooks/paper_review/processors/bib_checker.py:195-224 | the title search reports the first hit with the highest score, and its confidence is that score |
| BibChecker.CrossrefVerifiedFacts | cookbooks/paper_review/processors/bib_checker.py:204-214 | a verified title search names Crossref and scores between 0.7 and 1 |
| BibChecker.BestHit | cookbooks/paper_review/processors/bib_checker.py:195-203 | the loop over the hits keeps the highest score and the first hit that has it |
| BibChecker.VerifyCrossrefTitle | cookbooks/paper_review/processors/bib_checker.py:174-228 | the method returns the title-search outcome of Crossref's reply |
| BibChecker.NeverError | cookbooks/paper_review/processors/bib_checker.py:113-147 | verifying a reference never gives an error status, and a suspect result is the Crossref title search's |
| BibChecker.VerifiedFacts | cookbooks/paper_review/processors/bib_checker.py:113-147 | a verified reference has detail, a source among crossref, arxiv and dblp, and confidence between 0.7 and 1 |
| BibChecker.DoiWins | cookbooks/paper_review/processors/bib_checker.py:117-121 | a reference whose DOI Crossref knows is verified by the DOI lookup with confidence 1 |
| BibChecker.ArxivOnlyWhenApplies | cookbooks/paper_review/processors/bib_checker.py:123-127 | arXiv verifies a reference only when it has an arXiv id or an arXiv journal and its DOI did not verify |
| BibChecker.VerifyReference | cookbooks/paper_review/processors/bib_checker.py:113-147 | the method runs the DOI, arXiv, DBLP and Crossref checks in that order and returns the reference outcome |
| BibChecker.CheckAll | cookbooks/paper_review/processors/bib_checker.py:448-455 | one result per reference |
| BibChecker.CheckAllAt | cookbooks/paper_review/processors/bib_checker.py:448-455 | each reference's result sits at its own position |
| BibChecker.VerifyAll | cookbooks/paper_review/processors/bib_checker.py:448-455 | the method returns the result of checking each reference |
| BibChecker.CheckBibContent | cookbooks/paper_review/processors/bib_checker.py:462-484 | the method returns the report of the references parsed from the content |
| BibChecker.TallySources | cookbooks/paper_review/processors/bib_checker.py:471-474 | the loop counts, per source, the verified results it credited |
| BibChecker.StatusesPartition | cookbooks/paper_review/processors/bib_checker.py:467-469 | the verified, suspect and error counts add up to the number of results |
| BibChecker.SourcesCount | cookbooks/paper_review/processors/bib_checker.py:471-474 | a source appears in the tally exactly when it verified some result, with that many results |
| BibChecker.SourcesAddUp | cookbooks/paper_review/processors/bib_checker.py:467-474 | when every verified result names a known source, the per-source counts add up to the verified count |
| BibChecker.SourcesWithin | cookbooks/paper_review/processors/bib_checker.py:471-474 | the tally names only crossref, arxiv and dblp, each with its count of results |
| BibChecker.SummaryFacts | cookbooks/paper_review/processors/bib_checker.py:476-484 | for results without errors whose sources are known: verified plus suspect is the total, no errors, a rate in [0, 1] and a per-source tally that adds up to the verified count |
| BibChecker.ReportFacts | cookbooks/paper_review/processors/bib_checker.py:462-484 | the report of any BibTeX text has verified plus suspect equal to the number of references, no errors, a rate in [0, 1] and per-source counts adding up to the verified count |
| BibChecker.ReportOrderFree | cookbooks/paper_review/processors/bib_checker.py:448-484 | the report's counts, rate and per-source tally do not depend on the order in which the concurrent checks finish |
| TexProcessor.Greatest | cookbooks/paper_review/processors/tex_processor.py:176-178 | the chosen candidate is one of the candidates |
| TexProcessor.GreatestIsMax | cookbooks/paper_review/processors/tex_processor.py:176-178 | no candidate sorts above the one chosen |
| TexProcessor.CandidatesFrom | cookbooks/paper_review/processors/tex_processor.py:159-174 | every candidate is a walked file that declares a document class, with its score |
| TexProcessor.CandidatesInclude | cookbooks/paper_review/processors/tex_processor.py:161-174 | every walked file that declares a document class is a candidate |
| TexProcessor.MainTexFacts | cookbooks/paper_review/processors/tex_processor.py:157-179 | no main file is found exactly when no file declares a document class; a main file found declares one and no such file sorts above it |
| TexProcessor.MainTexOnDisk | cookbooks/paper_review/processors/tex_processor.py:157-179 | the main file found exists in the package |
| TexProcessor.SplitComponents | cookbooks/paper_review/processors/tex_processor.py:172 | a path with a slash has at least two components and one without has one |
| TexProcessor.TopLevelMainWins | cookbooks/paper_review/processors/tex_processor.py:164-178 | when a top-level main.tex, paper.tex or manuscript.tex declares a document class, the chosen main file is such a top-level file |
| TexProcessor.BraceFromFacts | cookbooks/paper_review/processors/tex_processor.py:50-52 | the closing brace found is the first one after the opening |
| TexProcessor.FirstMatchFacts | cookbooks/paper_review/processors/tex_processor.py:50-224 | the substitution finds every command, leftmost first |
| TexProcessor.IncludeNameFacts | cookbooks/paper_review/processors/tex_processor.py:209-211 | the included name ends in .tex: the stripped argument, with .tex added when missing |
| TexProcessor.SearchPathFacts | cookbooks/paper_review/processors/tex_processor.py:213-221 | the included file is looked up in the current directory first and then in the package root, and is not found exactly when neither holds it |
| TexProcessor.Merged | cookbooks/paper_review/processors/tex_processor.py:191-226 | merging visits the file and only files of the package, and a file already visited becomes the circular-reference marker |
| TexProcessor.Substituted | cookbooks/paper_review/processors/tex_processor.py:223-224 | substitution only adds package files to the visited set |
| TexProcessor.Resolved | cookbooks/paper_review/processors/tex_processor.py:208-221 | resolving an include only adds package files to the visited set |
| TexProcessor.SubstitutedStep | cookbooks/paper_review/processors/tex_processor.py:208-224 | substitution keeps the text before a command, replaces the command by its resolution and continues after it |
| TexProcessor.SubstitutedDone | cookbooks/paper_review/processors/tex_processor.py:223-224 | without a further command the rest of the text is kept as it is |
| TexProcessor.NoCommandsUnchanged | cookbooks/paper_review/processors/tex_processor.py:191-226 | a file without input or include commands merges to its own text |
| TexProcessor.SecondIncludeIsCircular | cookbooks/paper_review/processors/tex_processor.py:201-219 | including the same file a second time inserts the circular-reference marker |
| TexProcessor.PackageFacts | cookbooks/paper_review/processors/tex_processor.py:62-118 | a processed package has one file per .tex file with its path, content and main flag, one bib file per .bib file, and a main file that declares a document class |
| TexProcessor.NoMainFails | cookbooks/paper_review/processors/tex_processor.py:83-85 | a package where no file declares a document class fails with the ValueError |
| TexProcessor.TexPackageProcessor.constructor | cookbooks/paper_review/processors/tex_processor.py:58-60 | a new processor has no temporary directory and an empty cache |
| TexProcessor.TexPackageProcessor.LoadFile | cookbooks/paper_review/processors/tex_processor.py:181-189 | loading returns the file's text, or "" when it cannot be read, and caches it |
| TexProcessor.TexPackageProcessor.Cleanup | cookbooks/paper_review/processors/tex_processor.py:228-233 | cleanup forgets the temporary directory and empties the cache |
| TexProcessor.TexPackageProcessor.FindMainTex | cookbooks/paper_review/processors/tex_processor.py:157-179 | the method returns the main file the candidate ranking chooses |
| TexProcessor.TexPackageProcessor.MergeTex | cookbooks/paper_review/processors/tex_processor.py:191-226 | the method returns the merged text and the visited set |
| TexProcessor.TexPackageProcessor.Substitute | cookbooks/paper_review/processors/tex_processor.py:223-224 | the method returns the substituted text and the visited set |
| TexProcessor.TexPackageProcessor.ResolveInclude | cookbooks/paper_review/processors/tex_processor.py:208-221 | the method returns the replacement for one include and the visited set |
| TexProcessor.TexPackageProcessor.LoadTexFiles | cookbooks/paper_review/processors/tex_processor.py:87-88 | after the loop every .tex file of the package is cached |
| TexProcessor.TexPackageProcessor.ListTexFiles | cookbooks/paper_review/processors/tex_processor.py:92-99 | the method builds the list of .tex files with their paths, cached contents and main flags |
| TexProcessor.TexPackageProcessor.LoadBibFiles | cookbooks/paper_review/processors/tex_processor.py:102-108 | the method builds the list of .bib files with their paths and contents |
| TexProcessor.TexPackageProcessor.ProcessPackage | cookbooks/paper_review/processors/tex_processor.py:62-118 | processing returns the package or the ValueError, and leaves the processor with no temporary directory and an empty cache |
| ReviewResponses.Scan | cookbooks/paper_review/graders/format.py:19 | an occurrence found lies at or after the start and inside the text |
| ReviewResponses.ScanFacts | cookbooks/paper_review/graders/format.py:19 | the search finds the first occurrence and reports none only when there is none |
| ReviewResponses.TagInnerFacts | cookbooks/paper_review/graders/format.py:19 | the reasoning found sits between an opening tag and the first closing tag after it, and holds no closing tag |
| ReviewResponses.TagInnerNeedsOpen | cookbooks/paper_review/graders/format.py:19 | with no opening tag in the text no reasoning is found |
| ReviewResponses.TagInnerWrapped | cookbooks/paper_review/graders/format.py:19 | a reasoning block free of '<' is read back from text that wraps it in the tags |
| ReviewResponses.DigitRun | cookbooks/paper_review/graders/format.py:20 | the digit run is the longest prefix of ASCII digits |
| ReviewResponses.FirstResultFacts | cookbooks/paper_review/graders/format.py:20 | the result read is the match at the first position where the result pattern matches, and none is read when it matches nowhere |
| ReviewResponses.FirstResultAt | cookbooks/paper_review/graders/format.py:20 | the search returns the match at the first position where there is one |
| ReviewResponses.ResultAtIndex | cookbooks/paper_review/graders/format.py:20-23 | the digits between the two result tags are read as their number |
| ReviewResponses.ResultAtDigits | cookbooks/paper_review/graders/format.py:20-23 | a number written between the result tags reads back as itself |
| ReviewResponses.LineEnd | cookbooks/paper_review/graders/format.py:26 | the line end is the first newline at or after the start, or the end of the text |
| ReviewResponses.ViolationsGroup | cookbooks/paper_review/graders/format.py:26 | the violations group is non-empty and on one line |
| ReviewResponses.ViolationsNeedLabel | cookbooks/paper_review/graders/format.py:26 | without the "Violations:" label there is no group |
| ReviewResponses.TrimAll | cookbooks/paper_review/graders/format.py:28 | each listed violation is its comma-separated part, stripped |
| ReviewResponses.Violations | cookbooks/paper_review/graders/format.py:25-28 | the list is empty exactly when there is no violations group; no violation holds a comma or newline, and each is stripped |
| ReviewResponses.ViolationsListed | cookbooks/paper_review/graders/format.py:25-28 | stripped violations written after the label, comma-separated, read back as the same list |
| ReviewResponses.LabelLineGroup | cookbooks/paper_review/graders/format.py:26 | the group is the text after the label up to the end of its line |
| ReviewResponses.ViolationsOf | cookbooks/paper_review/graders/format.py:26-28 | the violations are the stripped comma-separated parts of the group |
| ReviewResponses.ParseFormat | cookbooks/paper_review/graders/format.py:17-30 | the reasoning is the stripped tagged block, or the whole text without one; a non-zero score is a number some result tag holds, and the score is 0 when no result tag matches |
| ReviewResponses.FormatReplyParses | cookbooks/paper_review/graders/format.py:17-30 | a well-formed format reply parses back into its score, its stripped reasoning and that reasoning's violations |
| ReviewResponses.NoResultInReasoning | cookbooks/paper_review/graders/format.py:20 | no result tag starts inside a reasoning block free of '<' |
| ReviewResponses.ParseFormatOf | cookbooks/paper_review/graders/format.py:17-30 | with a reasoning block and a result tag, the parse is the score, the stripped reasoning and its violations |
| ReviewResponses.ViolationsJson | cookbooks/paper_review/graders/format.py:83 | the violations metadata is a JSON array of the violation strings, in order |
| ReviewResponses.EvaluateFormat | cookbooks/paper_review/graders/format.py:64-86 | the format grader gives an error exactly when the model call fails, with its message; otherwise a score with the parsed score, the reasoning as reason and the violations as metadata |
| ReviewResponses.AnswerAt | cookbooks/paper_review/graders/jailbreaking.py:20-23 | an answer read is "abuse" or "ok" |
| ReviewResponses.FirstAnswer | cookbooks/paper_review/graders/jailbreaking.py:20-23 | the first answer read is "abuse" or "ok" |
| ReviewResponses.FirstAnswerFacts | cookbooks/paper_review/graders/jailbreaking.py:20 | the answer read is the match at the first position where the answer pattern matches, and none is read when it matches nowhere |
| ReviewResponses.FirstAnswerIndex | cookbooks/paper_review/graders/jailbreaking.py:20 | the search stops at the first position where the answer pattern matches |
| ReviewResponses.FirstAnswerNone | cookbooks/paper_review/graders/jailbreaking.py:20 | no answer is read only when the pattern matches nowhere |
| ReviewResponses.ParseJailbreak | cookbooks/paper_review/graders/jailbreaking.py:17-25 | a reply is abuse exactly when the first answer tag says abuse, and ok otherwise, including when there is no answer; the reasoning is the whole text without a reasoning block |
| ReviewResponses.AnswerIgnoresCase | cookbooks/paper_review/graders/jailbreaking.py:20-23 | an answer tag in any case, with the answer in any case, decides abuse exactly when the answer is abuse |
| ReviewResponses.FirstAnswerAt | cookbooks/paper_review/graders/jailbreaking.py:20 | the search returns the match at the first position where there is one |
| ReviewResponses.UpperAnswerAt | cookbooks/paper_review/graders/jailbreaking.py:20-23 | an upper-case answer tag is read, and its answer lower-cased |
| ReviewResponses.AnswerAtIndex | cookbooks/paper_review/graders/jailbreaking.py:20 | a case-insensitive answer between tags is read as that answer |
| ReviewResponses.EvaluateJailbreak | cookbooks/paper_review/graders/jailbreaking.py:59-81 | the detector gives an error exactly when the model call fails; otherwise score 1 exactly for abuse and 0 for ok, the flag as metadata and the reasoning as reason |
| ReviewRunner.ToPipelineConfig | ui/features/paper_review/services/pipeline_runner.py:44-61 | the pipeline configuration carries every task setting unchanged, the pipeline's default timeout and the callback when one is given |
| ReviewRunner.DefaultsAgree | ui/features/paper_review/services/pipeline_runner.py:24-61 | a task with default settings converts to the pipeline's default configuration |
| ReviewRunner.FromSidebar | ui/features/paper_review/services/pipeline_runner.py:207-227 | a task built from the sidebar is always named "Paper" |
| ReviewRunner.SidebarDefaults | ui/features/paper_review/services/pipeline_runner.py:207-227 | an empty sidebar gives the default task, and a sidebar holding a task's settings gives that task back |
| ReviewRunner.TaskResult | ui/features/paper_review/services/pipeline_runner.py:128-181 | the task succeeds exactly when the pipeline returns a safe result and the report is generated, and then has the report and no error; an unsafe paper keeps its result and fails with the joined safety issues; an exception fails with its message and keeps no result |
| ReviewRunner.ReportedAfter | ui/features/paper_review/services/pipeline_runner.py:108-112 | progress seen by the runner is what the pipeline reported, appended to what it had seen before |
| ReviewRunner.PipelineRunner.constructor | ui/features/paper_review/services/pipeline_runner.py:93-106 | a new runner holds its configuration and has seen no progress |
| ReviewRunner.PipelineRunner.RunAsync | ui/features/paper_review/services/pipeline_runner.py:114-181 | run_async returns the task result of the pipeline's outcome, has seen the progress the pipeline reports, and holds the pipeline's progress object |
| ReviewRunner.PipelineRunner.ReviewWithCallback | ui/features/paper_review/services/pipeline_runner.py:130-139 | a fresh pipeline with the runner's callback gives review_paper's outcome, and the runner has seen what that pipeline reported after what it had seen before |
| BatchRunner.PercentStep | ui/features/paper_review/services/batch_runner.py:55-63 | a paper's own progress never moves the overall percentage past the next completed paper's |
| BatchRunner.PercentBounds | ui/features/paper_review/services/batch_runner.py:55-63 | the overall percentage lies in 0..100, and with no paper running it is 100 exactly when every paper is completed |
| BatchRunner.FinishingPaper | ui/features/paper_review/services/batch_runner.py:55-203 | starting a paper and finishing it successfully never lower the percentage; a failure returns it to the finished papers' share, lower than before whenever the paper had made progress |
| BatchRunner.BatchProgress.constructor | ui/features/paper_review/services/batch_runner.py:44-52 | a new progress record has nothing completed or failed and no current paper |
| BatchRunner.PaperConfig | ui/features/paper_review/services/batch_runner.py:173-185 | a paper's configuration is the shared configuration under the paper's own name |
| BatchRunner.PaperResult | ui/features/paper_review/services/batch_runner.py:158-206 | each result carries its paper's name, and a cancelled paper fails with "Cancelled" |
| BatchRunner.BatchResults | ui/features/paper_review/services/batch_runner.py:209-210 | one result per paper, in paper order, the papers after the cancel being cancelled |
| BatchRunner.CountsPartition | ui/features/paper_review/services/batch_runner.py:196-224 | the completed and failed counts add up to the papers processed before the cancel; completed counts every success, and failed plus the cancelled papers counts every failure |
| BatchRunner.ProcessedStep | ui/features/paper_review/services/batch_runner.py:196-200 | each processed paper adds one to exactly the count its outcome belongs to |
| BatchRunner.BatchRunner.constructor | ui/features/paper_review/services/batch_runner.py:107-121 | a new runner is not cancelled and has an empty pending progress record |
| BatchRunner.BatchRunner.Cancel | ui/features/paper_review/services/batch_runner.py:267-271 | cancel sets the switch and the cancelled status and changes nothing else |
| BatchRunner.BatchRunner.ProcessPaper | ui/features/paper_review/services/batch_runner.py:158-206 | process_paper returns the paper's result, counts a reviewed paper as completed or failed, and clears the current paper |
| BatchRunner.BatchRunner.RunAsync | ui/features/paper_review/services/batch_runner.py:128-228 | run_async returns a successful batch result with one result per paper in order and the completed and failed counts of the papers processed |
| BatchRunner.CsvRows | ui/features/paper_review/services/batch_runner.py:290-305 | one CSV line per result, in order |
| BatchRunner.ErrorCellCommaFree | ui/features/paper_review/services/batch_runner.py:302 | the error cell never holds a comma |
| BatchRunner.GenerateBatchCsvReport | ui/features/paper_review/services/batch_runner.py:279-307 | the report is the header line followed by one line per result, joined by newlines |
| BatchRunner.CsvLines | ui/features/paper_review/services/batch_runner.py:279-307 | when no name, time or error holds a newline, the report splits back into the header and one line per result |
| BatchRunner.RowsNoBreak | ui/features/paper_review/services/batch_runner.py:290-305 | no result line holds a newline when its fields do not |
| ReviewHistory.FromTaskResult | ui/features/paper_review/services/history_service.py:54-88 | the record takes the given id or a fresh one, the task's name, success, time, report and error, and a review score exactly when the result has a review |
| ReviewHistory.CorrectnessInverted | ui/features/paper_review/services/history_service.py:74-76 | a correctness score in 1..3 is stored inverted, still in 1..3 |
| ReviewHistory.ToDict | ui/features/paper_review/services/history_service.py:90-92 | the dictionary has one key per field |
| ReviewHistory.FromDict | ui/features/paper_review/services/history_service.py:94-97 | a record read back comes from a dictionary with every required key and no unknown key; every refusal is a TypeError |
| ReviewHistory.DictRoundTrip | ui/features/paper_review/services/history_service.py:90-97 | reading back a record's dictionary gives the record |
| ReviewHistory.WithoutId | ui/features/paper_review/services/history_service.py:279-281 | dropping an id keeps every other item in order and shortens the index exactly when the id was listed |
| ReviewHistory.Present | ui/features/paper_review/services/history_service.py:248-256 | the loop raises exactly when some listed item's file holds JSON that is not a record, and then with TypeError; otherwise each record listed is the record of an index item, and there are no more records than items |
| ReviewHistory.PresentStep | ui/features/paper_review/services/history_service.py:250-253 | one more index item appends its record, appends nothing for a missing or unreadable file, or raises that file's TypeError |
| ReviewHistory.PresentRaises | ui/features/paper_review/services/history_service.py:250-253 | one index item whose file is not a record makes the listing raise TypeError |
| ReviewHistory.SavedReadsBack | ui/features/paper_review/services/history_service.py:90-97 | the file save writes for a record reads back as that very record |
| ReviewHistory.MeanBounds | ui/features/paper_review/services/history_service.py:336-337 | an average of values in [lo, hi] lies in [lo, hi] |
| ReviewHistory.ReviewScoresOf | ui/features/paper_review/services/history_service.py:329 | the review scores are those records have, and there are none exactly when no record has one |
| ReviewHistory.StatsFacts | ui/features/paper_review/services/history_service.py:309-338 | successes and failures add up to the records listed; the average review score exists exactly when some record has one and lies within the bounds every score keeps |
| ReviewHistory.HistoryService.constructor | ui/features/paper_review/services/history_service.py:127-137 | a new service has no record files and no index |
| ReviewHistory.HistoryService.LoadIndex | ui/features/paper_review/services/history_service.py:151-162 | an absent or unreadable index reads as empty |
| ReviewHistory.HistoryService.Get | ui/features/paper_review/services/history_service.py:218-237 | a missing file or one that cannot be read or parsed gives None; a parsed file gives its record, or raises from_dict's TypeError when its JSON is not one |
| ReviewHistory.HistoryService.Delete | ui/features/paper_review/services/history_service.py:258-286 | delete removes the record's file, and reports and rewrites the index exactly when the id was listed |
| ReviewHistory.HistoryService.Save | ui/features/paper_review/services/history_service.py:173-216 | save writes the record's dictionary under the fresh id, puts it first in the index, keeps the newest 100 and deletes the files of the items dropped |
| ReviewHistory.HistoryService.ListAll | ui/features/paper_review/services/history_service.py:239-256 | the records listed are the readable records of the first items of the index, at most the limit, or the TypeError of a file that is not a record |
| ReviewHistory.HistoryService.ClearAll | ui/features/paper_review/services/history_service.py:288-307 | clear_all removes every listed record's file, empties the index and returns how many items it listed |
| ReviewHistory.HistoryService.GetSummaryStats | ui/features/paper_review/services/history_service.py:309-338 | the statistics are those of the newest 100 listed records, and successes plus failures is the total, at most 100; the listing's TypeError propagates |
| ArenaRunner.StageValue | ui/features/auto_arena/services/pipeline_runner.py:16-26 | only the not-started stage has the value "not_started" |
| ArenaRunner.TotalProgressCases | ui/features/auto_arena/services/pipeline_runner.py:63-107 | the completed stage counts as 1, failed and paused keep the current total, not started counts as 0, and a working stage interpolates between its start and end weights by its own progress |
| ArenaRunner.WithinBand | ui/features/auto_arena/services/pipeline_runner.py:69-107 | a working stage's progress in [0, 1] keeps the total inside that stage's band, which lies within [0, 1] |
| ArenaRunner.MonotoneInStageOrder | ui/features/auto_arena/services/pipeline_runner.py:69-107 | a later working stage never shows a smaller total than an earlier one |
| ArenaRunner.WithStageSane | ui/features/auto_arena/services/pipeline_runner.py:49-61 | updating a stage with progress in [0, 1] keeps the total and every recorded stage progress in [0, 1], and a working stage lands in its band at exactly that progress |
| ArenaRunner.PipelineProgress.constructor | ui/features/auto_arena/services/pipeline_runner.py:30-42 | a new progress record is not started, at 0, with no stage progress, logs, error or result |
| ArenaRunner.PipelineProgress.AddLog | ui/features/auto_arena/services/pipeline_runner.py:44-47 | add_log appends exactly one timestamped line and changes nothing else |
| ArenaRunner.PipelineProgress.UpdateStage | ui/features/auto_arena/services/pipeline_runner.py:49-61 | update_stage sets the stage, records its progress and message and recomputes the total |
| ArenaRunner.PipelineProgress.UpdateTotalProgress | ui/features/auto_arena/services/pipeline_runner.py:63-107 | the total becomes the stage-weighted progress and nothing else changes |
| ArenaRunner.EndpointProblem | ui/features/auto_arena/services/pipeline_runner.py:324-328 | no problem exactly when every target model has an API key and a model name; otherwise the message names the first target lacking one, the key checked first |
| ArenaRunner.Validation | ui/features/auto_arena/services/pipeline_runner.py:309-336 | the configuration passes exactly when it has a task description, at least two target models each with key and model, and a judge key and model; each failure gives its own message in the source's order |
| ArenaRunner.KeptTargetsFacts | ui/features/auto_arena/services/pipeline_runner.py:251-260 | the arena keeps exactly the target models that have an API key and a model name |
| ArenaRunner.EmptyConfigDefaults | ui/features/auto_arena/services/pipeline_runner.py:232-307 | an empty UI configuration gets the source's defaults: 20 queries, temperature 0.9, similarity 0.85, concurrency 10, every output saved under ./evaluation_results, report and chart on |
| ArenaRunner.ValidKeepsAllTargets | ui/features/auto_arena/services/pipeline_runner.py:251-328 | a configuration that passes the check keeps every target model |
| ArenaRunner.CountStageConsistent | ui/features/auto_arena/services/pipeline_runner.py:369-406 | each counting stage keeps the progress consistent, and either moves on in its own stage or stops failed or paused |
| ArenaRunner.EvaluationStageConsistent | ui/features/auto_arena/services/pipeline_runner.py:408-453 | the evaluation stage keeps the progress consistent, and a result comes with the completed stage at total 1 holding that result |
| ArenaRunner.RunFacts | ui/features/auto_arena/services/pipeline_runner.py:338-453 | a configuration that fails the check stops with its error and no result; any run leaves the progress consistent; a result comes only with the completed stage at total 1 |
| ArenaRunner.ResumeStage | ui/features/auto_arena/services/pipeline_runner.py:196-204 | only "evaluation_complete" resumes as completed, an unknown checkpoint as not started, and every checkpoint maps to a stage the map names |
| ArenaRunner.PipelineRunner.constructor | ui/features/auto_arena/services/pipeline_runner.py:120-139 | a new runner holds its configuration, is neither paused nor cancelled, and has a fresh initial progress |
| ArenaRunner.PipelineRunner.Resume | ui/features/auto_arena/services/pipeline_runner.py:143-207 | resuming fails exactly when the loaded configuration dict has no key (a dict holding only nulls, an empty `target_endpoints` or unknown keys still resumes); otherwise the runner holds it with the output directory and starts at the checkpoint's stage with one log line |
| ArenaRunner.PipelineRunner.Pause | ui/features/auto_arena/services/pipeline_runner.py:455-459 | pause sets the flag and adds one log line |
| ArenaRunner.PipelineRunner.Cancel | ui/features/auto_arena/services/pipeline_runner.py:461-465 | cancel sets the flag and adds one log line |
| ArenaRunner.PipelineRunner.ValidateConfig | ui/features/auto_arena/services/pipeline_runner.py:309-336 | the method accepts exactly the configurations that pass the check, with an empty message, and otherwise returns the check's message |
| ArenaRunner.PipelineRunner.BuildArenaConfig | ui/features/auto_arena/services/pipeline_runner.py:232-307 | the method returns the arena configuration of the UI configuration and records its output directory |
| ArenaRunner.PipelineRunner.RunCountStage | ui/features/auto_arena/services/pipeline_runner.py:369-406 | one counting stage of run moves the progress as the stage outcome says and goes on only when not cancelled |
| ArenaRunner.PipelineRunner.RunEvaluationStage | ui/features/auto_arena/services/pipeline_runner.py:408-439 | the evaluation stage of run moves the progress and returns the result as the evaluation outcome says |
| ArenaRunner.PipelineRunner.Complete | ui/features/auto_arena/services/pipeline_runner.py:426-439 | after a returned evaluation the progress records the analysis step and completion with the result; a failing save turns the record to failed and nothing is returned |
| ArenaRunner.PipelineRunner.Run | ui/features/auto_arena/services/pipeline_runner.py:338-453 | run leaves a fresh progress record and returns what the run outcome says |
| ProgressPanel.StageIndex | ui/features/auto_arena/components/progress_panel.py:86-91 | the index is the position of the stage among the five displayed stages, or -1 exactly when it is not one of them |
| ProgressPanel.StatusCases | ui/features/auto_arena/components/progress_panel.py:57-102 | completed shows every stage completed; analysis shows the last stage running and the rest completed; an unknown, failed or paused stage shows all pending; otherwise stages before the current one are completed, it is running and later ones pending |
| ProgressPanel.OneRunning | ui/features/auto_arena/components/progress_panel.py:86-102 | while a displayed stage runs exactly one stage shows running, and completed stages form a prefix |
| PresetManager.AsWrittenAcceptsNewline | ui/features/auto_arena/services/preset_manager.py:24-141 | the name pattern as written accepts "demo\n", which the corrected check rejects |
| PresetManager.ValidateName | ui/features/auto_arena/services/preset_manager.py:126-147 | a name is accepted exactly when it is non-empty, at most 64 characters of letters, digits, '_' and '-', and does not start with "_builtin_"; each rejection gives its own message in the source's order |
| PresetManager.ValidateNameAgrees | ui/features/auto_arena/services/preset_manager.py:24-147 | on names without a trailing newline the pattern as written and the corrected check agree |
| PresetManager.BuiltinDemo | ui/features/auto_arena/services/preset_manager.py:54-123 | the built-in translation demo is marked built-in |
| PresetManager.PresetLeTotalPreorder | ui/features/auto_arena/services/preset_manager.py:177 | the listing order is a total preorder |
| PresetManager.InfosMembers | ui/features/auto_arena/services/preset_manager.py:157-174 | the listing holds exactly the readable preset files, each described by its name and metadata |
| PresetManager.ListFacts | ui/features/auto_arena/services/preset_manager.py:149-178 | the presets are listed built-in first, then by lower-cased name, and the list holds exactly the readable files |
| PresetManager.SaveFacts | ui/features/auto_arena/services/preset_manager.py:195-238 | saving succeeds exactly when the name is valid and the preset is new, or is overwritten on request and is not built-in; a failure changes nothing; a success stores the config under the name with its metadata stamped |
| PresetManager.SavedIsDeletable | ui/features/auto_arena/services/preset_manager.py:195-260 | a preset just saved can be deleted, which restores the directory without it |
| PresetManager.BuiltinProtected | ui/features/auto_arena/services/preset_manager.py:217-257 | the built-in preset can be neither overwritten nor deleted |
| PresetManager.Import | ui/features/auto_arena/services/preset_manager.py:262-295 | an import succeeds exactly when the document is a mapping with task and target_endpoints sections, and returns that config; each failure has its own message and no config |
| PresetManager.Export | ui/features/auto_arena/services/preset_manager.py:297-317 | the export keeps the config and drops the UI metadata unless asked to include it |
| PresetManager.ExportImport | ui/features/auto_arena/services/preset_manager.py:262-317 | an exported config with task and targets imports back as itself, and exporting twice without metadata changes nothing more |
| PresetManager.RoundTrip | ui/features/auto_arena/services/preset_manager.py:339-473 | UI state turned into a preset config and back gives the same settings, with the source's defaults for what was left empty |
| PresetManager.EmptyConfigReadsDefaults | ui/features/auto_arena/services/preset_manager.py:413-473 | a config with no sections reads as the UI defaults |
| PresetManager.WithBuiltin | ui/features/auto_arena/services/preset_manager.py:47-52 | after start-up the built-in demo exists and every existing preset is kept unchanged |
| PresetManager.PresetStore.constructor | ui/features/auto_arena/services/preset_manager.py:30-45 | a new store holds the existing presets plus the built-in demo |
| PresetManager.PresetStore.ListPresets | ui/features/auto_arena/services/preset_manager.py:149-178 | list_presets returns the readable presets sorted by the listing order |
| PresetManager.PresetStore.LoadPreset | ui/features/auto_arena/services/preset_manager.py:180-193 | a missing preset loads as None, an unreadable one raises, and a readable one loads as its config |
| PresetManager.PresetStore.SavePreset | ui/features/auto_arena/services/preset_manager.py:195-238 | save_preset changes the directory and the caller's config as the save outcome says |
| PresetManager.PresetStore.DeletePreset | ui/features/auto_arena/services/preset_manager.py:240-260 | delete_preset changes the directory as the delete outcome says |
| ArenaHistory.InferredStatus | ui/features/auto_arena/services/history_manager.py:125-155 | with neither checkpoint nor results the task is in progress, and a results file naming a best model makes it completed |
| ArenaHistory.CompletedIff | ui/features/auto_arena/services/history_manager.py:134-155 | a task is completed exactly when its results name a best model or its checkpoint stage is evaluation_complete or completed |
| ArenaHistory.Describe | ui/features/auto_arena/services/history_manager.py:161 | an empty description shows as "Unknown task", and a longer one is cut to its first 100 characters |
| ArenaHistory.LoadTaskSummary | ui/features/auto_arena/services/history_manager.py:105-171 | the summary carries the directory's name as id, and a directory with neither file is in progress since its modification time |
| ArenaHistory.NewerFirstTotalPreorder | ui/features/auto_arena/services/history_manager.py:101 | newest first is a total preorder |
| ArenaHistory.SummariesMembers | ui/features/auto_arena/services/history_manager.py:88-98 | the summaries are exactly those of the task directories that load |
| ArenaHistory.ListFacts | ui/features/auto_arena/services/history_manager.py:78-103 | the tasks are listed newest first, at most the limit of them, the first of all summaries |
| ArenaHistory.CsvRows | ui/features/auto_arena/services/history_manager.py:291-297 | the CSV export has a header row and one row per ranking with its rank, model and win rate |
| ArenaHistory.CsvRanksReadBack | ui/features/auto_arena/services/history_manager.py:295-297 | each ranking row's rank reads back as its position and names its model |
| ArenaHistory.ArenaHistory.constructor | ui/features/auto_arena/services/history_manager.py:66-76 | a new manager holds its base directory and its tasks |
| ArenaHistory.ArenaHistory.ListTasks | ui/features/auto_arena/services/history_manager.py:78-103 | list_tasks returns the newest tasks up to the limit |
| ArenaHistory.ArenaHistory.GetTaskDetails | ui/features/auto_arena/services/history_manager.py:173-213 | details exist exactly for a task directory; an unreadable JSON file raises; the details carry the id, the files read and whether report and chart exist |
| ArenaHistory.ArenaHistory.GetReportContent | ui/features/auto_arena/services/history_manager.py:215-228 | the report is returned exactly when the task has one |
| ArenaHistory.ArenaHistory.GetChartPath | ui/features/auto_arena/services/history_manager.py:230-242 | the chart path is returned exactly when the task has a chart, and points into the task's directory |
| ArenaHistory.ArenaHistory.ExportTask | ui/features/auto_arena/services/history_manager.py:267-301 | no export for an unknown task; JSON exports the details; CSV exports the rankings rows |
| ArenaHistory.ArenaHistory.DeleteTask | ui/features/auto_arena/services/history_manager.py:244-265 | deletion succeeds exactly when the task exists and its removal does not fail, and only then removes it |
| FeatureConfig.Configured | ui/features/auto_arena/feature.py:257-258 | no more target models are complete than there are target models |
| FeatureConfig.ProblemOf | ui/features/auto_arena/feature.py:245-270 | the settings pass exactly when there is a task description, at least two complete target models and a judge API key; the missing description is reported first, then too few models with their counts, then the judge key |
| FeatureConfig.RunnerValidPassesPage | ui/features/auto_arena/feature.py:245-270 | settings the runner's own check accepts also pass the page's check |
| FeatureConfig.IncompleteTolerated | ui/features/auto_arena/feature.py:257-259 | the page accepts two complete target models beside an incomplete one, which the runner's check rejects |
| FeatureConfig.ArenaValidate | ui/features/auto_arena/feature.py:245-270 | the Auto Arena page accepts exactly the settings without a problem, with an empty message, and otherwise shows the translated message for the problem with the configured and total counts |
| FeatureConfig.ZeroShotValidate | ui/features/zero_shot/feature.py:238-264 | the Zero-Shot page accepts exactly the settings without a problem, and otherwise shows the bilingual message for the problem with the configured and total counts |
| FeatureConfig.SamePagesVerdict | ui/features/auto_arena/feature.py:245-270 | the Auto Arena and Zero-Shot pages accept and reject exactly the same settings |
| GraderRegistry.RegistryInvariants | ui/config/grader_registry.py:10-302 | every grader entry is well formed and the names of the graders are distinct |
| GraderRegistry.ByCategory | ui/config/grader_registry.py:305-318 | the graders of a category are exactly the entries with that category |
| GraderRegistry.ByCategoryInOrder | ui/config/grader_registry.py:314-318 | the graders of a category keep the table's order |
| GraderRegistry.AllNames | ui/config/grader_registry.py:321-323 | every grader name, in table order |
| GraderRegistry.Lookup | ui/config/grader_registry.py:326-328 | the lookup fails exactly when no entry has the name, and otherwise returns an entry under that name |
| GraderRegistry.LookupFinds | ui/config/grader_registry.py:326-328 | with distinct names the lookup finds each entry under its own name |
| GraderRegistry.GetGradersByCategory | ui/config/grader_registry.py:305-318 | the graders of a category are exactly the registry's entries with that category |
| GraderRegistry.GetAllGraderNames | ui/config/grader_registry.py:321-323 | the names are the registry's keys in order |
| GraderRegistry.GetGraderConfig | ui/config/grader_registry.py:326-328 | a grader's configuration is found exactly for a registered name, and is well formed |
| BatchHistory.ShownStatus | ui/features/grader/services/batch_history_manager.py:191-198 | a recorded status is shown as is; "unknown" becomes "completed" exactly when every one of a positive number of items is done, "paused" exactly when some but not all are, and "pending" exactly when none are |
| BatchHistory.SummaryOf | ui/features/grader/services/batch_history_manager.py:131-217 | a loaded summary carries the name of the directory it was read from |
| BatchHistory.LoadTaskSummary | ui/features/grader/services/batch_history_manager.py:131-217 | reading the config, checkpoint and summary files in turn gives the summary the specification function describes, named after its directory |
| BatchHistory.SummaryOverrides | ui/features/grader/services/batch_history_manager.py:177-189 | when the summary file records a status and counts, those win over the checkpoint's |
| BatchHistory.UnknownStatusRules | ui/features/grader/services/batch_history_manager.py:191-198 | when no file records a status, the status shown follows from the final completed and total counts by the three rules |
| BatchHistory.NewerFirstTotalPreorder | ui/features/grader/services/batch_history_manager.py:127 | newest-first by creation time is a total preorder, so the sort is well defined |
| BatchHistory.SummariesMembers | ui/features/grader/services/batch_history_manager.py:116-124 | the summaries gathered are exactly those of the batch directories whose summary loads |
| BatchHistory.ListOrder | ui/features/grader/services/batch_history_manager.py:102-129 | the task list is sorted newest first and is the first `limit` of all loadable tasks |
| BatchHistory.ListMembers | ui/features/grader/services/batch_history_manager.py:116-127 | sorting keeps exactly the loadable tasks |
| BatchHistory.ListedAreBatches | ui/features/grader/services/batch_history_manager.py:116-124 | every listed task was loaded from a directory whose name starts with "batch_" |
| BatchHistory.Incomplete | ui/features/grader/services/batch_history_manager.py:598-602 | the incomplete tasks are exactly the running or paused ones with fewer completed than total items, and there are no more of them than tasks |
| BatchHistory.LastIndexOfChar | ui/features/grader/services/batch_history_manager.py:461 | `rfind` gives the last position of the character, or none when it does not occur |
| BatchHistory.JoinSnoc | ui/features/grader/services/batch_history_manager.py:463-466 | joining one more element adds the separator and that element at the end |
| BatchHistory.AppendExtends | ui/features/grader/services/batch_history_manager.py:453-467 | replacing the closing bracket of a results array with a comma, the new record and a bracket gives the array with that record appended |
| BatchHistory.AppendAll | ui/features/grader/services/batch_history_manager.py:431-472 | appending records one by one to a missing file builds the JSON array of all of them |
| BatchHistory.ResultsPage | ui/features/grader/services/batch_history_manager.py:277-296 | results are returned exactly when the file exists and holds a JSON array, and then are its slice from `offset` up to `offset + limit`, clipped to its length |
| BatchHistory.PagesTile | ui/features/grader/services/batch_history_manager.py:290-292 | two consecutive pages of one size are the page of twice that size |
| BatchHistory.FieldNamesAsWritten | ui/features/grader/services/batch_history_manager.py:553-564 | the CSV header starts with the five standard fields |
| BatchHistory.FieldNames | ui/features/grader/services/batch_history_manager.py:553-564 | the header holds the standard fields and an `input_` column for every input key, and nothing else |
| BatchHistory.PrefixedInjective | ui/features/grader/services/batch_history_manager.py:564 | distinct input keys get distinct column names |
| BatchHistory.Clip | ui/features/grader/services/batch_history_manager.py:575 | a clipped text is a prefix of at most 500 characters, and text within 500 characters is kept |
| BatchHistory.ReasonCell | ui/features/grader/services/batch_history_manager.py:575 | a string reason is clipped to 500 characters, and a missing reason gives an empty cell |
| BatchHistory.RowOf | ui/features/grader/services/batch_history_manager.py:569-585 | a row is written exactly when its reason cell can be, carries that reason cell, and has one input column per input key |
| BatchHistory.InputKeys | ui/features/grader/services/batch_history_manager.py:556-560 | every key of every object-valued input is collected |
| BatchHistory.Rows | ui/features/grader/services/batch_history_manager.py:569-585 | on success there is one row per result, in order, each that result's row |
| BatchHistory.AsWrittenRejectsReasonInput | ui/features/grader/services/batch_history_manager.py:553-585 | an input key named "reason" gets no `input_reason` column, so writing its row raises, while the corrected header writes it |
| BatchHistory.CsvColumnsComplete | ui/features/grader/services/batch_history_manager.py:545-587 | with the corrected header, the export fails only when a row itself cannot be written |
| BatchHistory.ReasonClipped | ui/features/grader/services/batch_history_manager.py:575 | a string reason is written as its first 500 characters |
| BatchHistory.DoomedMembers | ui/features/grader/services/batch_history_manager.py:621-622 | the tasks picked for deletion are exactly the completed ones created before the cutoff |
| BatchHistory.DeleteAllFacts | ui/features/grader/services/batch_history_manager.py:620-629 | deleting the picked tasks removes exactly those whose removal does not fail, keeps every other directory unchanged, and counts each removal |
| BatchHistory.BatchStore.constructor | ui/features/grader/services/batch_history_manager.py:58-65 | the store starts over the given task directories |
| BatchHistory.BatchStore.ListTasks | ui/features/grader/services/batch_history_manager.py:102-129 | walking the directories and sorting gives the specified task list |
| BatchHistory.BatchStore.GetTaskDetails | ui/features/grader/services/batch_history_manager.py:219-259 | a missing task gives nothing, an unreadable file raises, and otherwise the details carry the task id and the config, checkpoint and summary that were read |
| BatchHistory.BatchStore.GetTaskResults | ui/features/grader/services/batch_history_manager.py:261-296 | a missing task has no results; otherwise the results are the requested page of its results file |
| BatchHistory.BatchStore.AppendResult | ui/features/grader/services/batch_history_manager.py:431-472 | appending succeeds exactly for an existing task directory, whose results text gains the record and nothing else changes |
| BatchHistory.BatchStore.DeleteTask | ui/features/grader/services/batch_history_manager.py:495-514 | deletion succeeds exactly for an existing task whose removal does not fail, and removes just that task |
| BatchHistory.BatchStore.ExportResults | ui/features/grader/services/batch_history_manager.py:516-589 | no results or an unknown format export nothing; a JSON export carries the task id and all results; a CSV export is the CSV of all results |
| BatchHistory.BatchStore.IncompleteTasks | ui/features/grader/services/batch_history_manager.py:591-602 | the resumable tasks among the 100 newest, each running or paused with items left |
| BatchHistory.BatchStore.CleanupOldTasks | ui/features/grader/services/batch_history_manager.py:604-629 | of the 1000 newest tasks, those after the first `keepCount` that are completed and older than `keepDays` days are deleted, and the count returned is the number removed |
| BatchHistory.CleanupFacts | ui/features/grader/services/batch_history_manager.py:614-629 | every removed directory belongs to an expired completed task beyond the kept ones, and removals plus remaining directories add up to the directories before |
| BatchHistory.SweepDeletesDoomed | ui/features/grader/services/batch_history_manager.py:618-624 | deleting while walking the candidates removes the same tasks as picking them first and deleting them afterwards |
| GraderFactory.LastValue | ui/features/grader/services/grader_factory.py:91-93 | the last value given for a keyword, or none when the keyword is not given |
| GraderFactory.OverlayLastWins | ui/features/grader/services/grader_factory.py:147 | after `update`, a keyword given among the extras has its last value and every other keyword keeps its earlier value or stays absent |
| GraderFactory.Accepted | ui/features/grader/services/grader_factory.py:90-93 | exactly the extra parameters whose name the constructor accepts are kept, in order |
| GraderFactory.AcceptedLastValue | ui/features/grader/services/grader_factory.py:90-93 | for an accepted name, filtering does not change which value wins |
| GraderFactory.Truncate | ui/features/grader/services/grader_factory.py:82 | `int()` truncates toward zero |
| GraderFactory.AcceptedStep | ui/features/grader/services/grader_factory.py:91-93 | one more extra parameter sets its key exactly when the constructor accepts it and leaves the arguments unchanged otherwise |
| GraderFactory.AddAccepted | ui/features/grader/services/grader_factory.py:90-93 | after the loop every accepted extra parameter carries the last value given for it and every other argument is untouched |
| GraderFactory.CreateGrader | ui/features/grader/services/grader_factory.py:34-95 | building the keyword arguments step by step gives the outcome the specification function describes |
| GraderFactory.CreateErrors | ui/features/grader/services/grader_factory.py:57-75 | an unknown grader, a failed import and a missing model for a model-based grader are errors, checked in that order |
| GraderFactory.CreateOnlyAccepted | ui/features/grader/services/grader_factory.py:63-95 | the constructor is called only with keywords it accepts |
| GraderFactory.CreateArguments | ui/features/grader/services/grader_factory.py:72-93 | an accepted extra parameter wins; otherwise the model and language are passed exactly to model-based graders that accept them, and the threshold exactly to graders that accept it, truncated for graders scored 1 to 5 |
| GraderFactory.EvaluationFields | ui/features/grader/services/grader_factory.py:136-145 | each of query, response, reference response and context is passed exactly when it is non-empty, with its own text |
| GraderFactory.Update | ui/features/grader/services/grader_factory.py:147 | updating pair by pair gives the overlay of the extras on the arguments |
| GraderFactory.RunEvaluation | ui/features/grader/services/grader_factory.py:114-149 | this grader is evaluated with the non-empty text fields overlaid by the extra arguments |
| GraderFactory.ExtrasReach | ui/features/grader/services/grader_factory.py:147 | after `update`, every extra argument is present with the last value given for it |
| GraderFactory.EvaluationFieldRule | ui/features/grader/services/grader_factory.py:114-147 | since Python keeps parameter names out of the extra keywords, each of query, response, reference response and context is passed exactly when non-empty, with its own text, and every extra with its last value |
| GraderFactory.RunMultimodalEvaluation | ui/features/grader/services/grader_factory.py:152-176 | this grader is evaluated with the response content, the query when non-empty, overlaid by the extras |
| GraderFactory.RunAgentEvaluation | ui/features/grader/services/grader_factory.py:179-211 | this grader is evaluated with the query, tool definitions and tool calls, the reference calls when non-empty, overlaid by the extras |
| GraderFactory.AgentKwargs | ui/features/grader/services/grader_factory.py:200-207 | the arguments hold the query, tool definitions and tool calls as given, and the reference tool calls exactly when a non-empty list is given, and nothing else |
| GraderFactory.AgentFields | ui/features/grader/services/grader_factory.py:179-209 | since Python keeps parameter names out of the extra keywords, the query, tool definitions and tool calls are always passed as given, the reference calls exactly when given non-empty, and every extra with its last value |
| TaskManager.ParseStatus | ui/core/task_manager.py:23-31 | a status read from JSON is the string value of that status |
| TaskManager.StatusRoundTrip | ui/core/task_manager.py:23-31 | every status reads back from its own string value |
| TaskManager.ParseType | ui/core/task_manager.py:34-40 | a task type read from JSON is the string value of that type |
| TaskManager.TypeRoundTrip | ui/core/task_manager.py:34-40 | every task type reads back from its own string value |
| TaskManager.KeepLast | ui/core/task_manager.py:93 | the last hundred log entries, or all of them when there are fewer |
| TaskManager.StrItems | ui/core/task_manager.py:93 | a list of strings is written as a JSON array of those strings, in order |
| TaskManager.Strings | ui/core/task_manager.py:109 | a JSON array reads back as strings exactly when every item is a string, item for item |
| TaskManager.StringsRoundTrip | ui/core/task_manager.py:93-109 | a list of strings written as JSON reads back unchanged |
| TaskManager.Field | ui/core/task_manager.py:103-123 | `get` gives the stored value for a present key and the default otherwise |
| TaskManager.FromDict | ui/core/task_manager.py:101-124 | a task is read only from an object holding the id, type, status, creation and update fields |
| TaskManager.ProgressRoundTrip | ui/core/task_manager.py:88-110 | progress written and read back is unchanged except that only the last hundred log entries remain |
| TaskManager.HeaderReadsBack | ui/core/task_manager.py:80-117 | the id, type, status and both timestamps read back as written, given that ISO formatting and parsing are inverse |
| TaskManager.OptionalReadsBack | ui/core/task_manager.py:86-123 | the progress, configuration, output directory, start and end times and error message read back as written |
| TaskManager.DictRoundTrip | ui/core/task_manager.py:78-124 | reading back a written task gives the task with its logs cut to the last hundred |
| TaskManager.ShortLogRoundTrip | ui/core/task_manager.py:78-124 | a task with at most a hundred log entries reads back unchanged |
| TaskManager.UpdateRules | ui/core/task_manager.py:274-296 | an update keeps the id and creation time, stamps the update time, sets a given status, sets the start time on the first move to running, sets the end time on a move to a terminal status, and replaces progress and error message only when given |
| TaskManager.AppendLog | ui/core/task_manager.py:329-334 | a non-empty log line is appended with its timestamp and the list is cut to its last hundred entries; no log leaves the list as it is |
| TaskManager.AppendLogBounded | ui/core/task_manager.py:329-334 | a log list of at most a hundred entries stays within a hundred after appending |
| TaskManager.Transitions | ui/core/task_manager.py:341-400 | pausing succeeds exactly for a running task, resuming exactly for a paused one, cancelling exactly for one neither completed nor cancelled, each setting the new status and update time, cancelling also the end time |
| TaskManager.PauseResume | ui/core/task_manager.py:341-379 | pausing a running task and then resuming it gives the task back with a new update time |
| TaskManager.NewerFirstTotalPreorder | ui/core/task_manager.py:252 | most recently updated first is a total preorder, so the sort is well defined |
| TaskManager.ListedMembers | ui/core/task_manager.py:234-249 | the tasks gathered are exactly the readable task files that match the type and status filters |
| TaskManager.ListFacts | ui/core/task_manager.py:216-254 | the list is sorted most recently updated first, holds the first `limit` of all matching tasks, and every matching readable task is among them |
| TaskManager.ActiveOnly | ui/core/task_manager.py:428 | filtering never lengthens the list |
| TaskManager.ActiveOnlyMembers | ui/core/task_manager.py:428 | the tasks kept are exactly the running or paused ones |
| TaskManager.RunningWithinLimit | ui/core/task_manager.py:418-428 | the running tasks are the running or paused ones among the fifty most recent, so there are at most fifty |
| TaskManager.TaskStore.constructor | ui/core/task_manager.py:138-146 | the store starts over the given directory and task files |
| TaskManager.TaskStore.GetTask | ui/core/task_manager.py:195-214 | a task is returned only when its file exists and reads as a task, and a missing file gives none |
| TaskManager.TaskStore.Save | ui/core/task_manager.py:430-434 | saving writes the task's dictionary to its own file and changes nothing else |
| TaskManager.TaskStore.CreateTask | ui/core/task_manager.py:152-193 | a new task is pending, created and updated now, carries the configuration, an empty progress and no times or error, and its output directory defaults to `outputs/<type>_<id>` under the tasks directory |
| TaskManager.TaskStore.UpdateTask | ui/core/task_manager.py:256-296 | a missing task gives none and changes nothing; otherwise the updated task is returned and saved |
| TaskManager.TaskStore.UpdateProgress | ui/core/task_manager.py:298-339 | a missing task gives none and changes nothing; otherwise the task with the new progress and log is returned and saved |
| TaskManager.TaskStore.PauseTask | ui/core/task_manager.py:341-359 | succeeds exactly when the task exists and is running, and then saves it paused; otherwise nothing changes |
| TaskManager.TaskStore.ResumeTask | ui/core/task_manager.py:361-379 | succeeds exactly when the task exists and is paused, and then saves it running; otherwise nothing changes |
| TaskManager.TaskStore.CancelTask | ui/core/task_manager.py:381-400 | succeeds exactly when the task exists and is neither completed nor cancelled, and then saves it cancelled; otherwise nothing changes |
| TaskManager.TaskStore.DeleteTask | ui/core/task_manager.py:402-416 | succeeds exactly when the task file exists, readable or not, and removes it |
| TaskManager.TaskStore.ListTasks | ui/core/task_manager.py:216-254 | walking the files gives the specified filtered, sorted and limited list |
| TaskManager.TaskStore.GetRunningTasks | ui/core/task_manager.py:418-428 | the running or paused tasks among the listed ones of the type |
| TaskManager.FilterActive | ui/core/task_manager.py:428 | the comprehension keeps the running or paused tasks in order |
| TaskManager.CreatedReadsBack | ui/core/task_manager.py:152-193 | a freshly created task reads back from its file as created |
| FeatureRegistry.ByOrderTotalPreorder | ui/core/feature_registry.py:132 | ordering feature classes by their `order` attribute is a total preorder, so the sort is well defined |
| FeatureRegistry.ClassesOf | ui/core/feature_registry.py:132 | the registered classes are taken id by id, one class per id |
| FeatureRegistry.Registry.constructor | ui/core/feature_registry.py:14-32 | the registry starts empty and consistent |
| FeatureRegistry.Registry.Register | ui/core/feature_registry.py:34-70 | a class that is not a feature is refused; registering the same class again changes nothing; a different class under a taken id is refused unless `replace` is set, in which case it replaces the old one and drops its cached instance; a new id is added |
| FeatureRegistry.Registry.Unregister | ui/core/feature_registry.py:72-86 | succeeds exactly for a registered id, and removes the id, its class and its cached instance and nothing else |
| FeatureRegistry.Registry.Get | ui/core/feature_registry.py:89-98 | the class registered under the id, or none |
| FeatureRegistry.Registry.GetInstance | ui/core/feature_registry.py:101-123 | a cached instance is returned as is; otherwise a registered class is instantiated once and cached; an unknown id gives none and changes nothing |
| FeatureRegistry.Registry.GetAllIds | ui/core/feature_registry.py:135-141 | the ids of the classes `get_all` returns, in its order |
| FeatureRegistry.Registry.GetDefaultFeatureId | ui/core/feature_registry.py:144-153 | none exactly when nothing is registered, and otherwise the id of the first class by order |
| FeatureRegistry.Registry.DefaultIsFirstId | ui/core/feature_registry.py:135-153 | the default id is the first of the listed ids |
| FeatureRegistry.Registry.IsRegistered | ui/core/feature_registry.py:156-165 | an id is registered exactly when it has a class |
| FeatureRegistry.Registry.Count | ui/core/feature_registry.py:177-183 | the count is the number of registered ids |
| FeatureRegistry.Registry.Clear | ui/core/feature_registry.py:168-175 | clearing removes every class and instance |
| FeatureRegistry.GetAllFacts | ui/core/feature_registry.py:126-132 | `get_all` gives every registered class exactly once, sorted by order |
| FeatureRegistry.CountMatchesIds | ui/core/feature_registry.py:177-183 | the number of registered classes equals the number of registered ids |
| SessionManager.NsPrefix | ui/core/session_manager.py:91 | a namespace's prefix starts with the global prefix and adds the namespace and an underscore |
| SessionManager.BuildKey | ui/core/session_manager.py:113-125 | a key in a non-empty namespace is the namespace prefix followed by the key; without one it is the global prefix followed by the key |
| SessionManager.BuildKeyInjective | ui/core/session_manager.py:113-125 | within one namespace, distinct keys get distinct full keys |
| SessionManager.NamespacesOverlap | ui/core/session_manager.py:113-125 | key "b_k" of namespace "a" and key "k" of namespace "a_b" share one full key |
| SessionManager.SessionState.constructor | ui/core/session_manager.py:13-22 | the session starts with the given values |
| SessionManager.Get | ui/core/session_manager.py:24-36 | the stored value under the full key, or the default when there is none |
| SessionManager.Exists | ui/core/session_manager.py:68-79 | a key exists exactly when its full key is stored |
| SessionManager.Set | ui/core/session_manager.py:39-48 | setting stores the value under the full key, so getting it gives the value back |
| SessionManager.SetKeepsOthers | ui/core/session_manager.py:39-48 | setting one key leaves every other key of the namespace as it was |
| SessionManager.Delete | ui/core/session_manager.py:51-65 | deleting reports whether the key was there, removes only it, and afterwards it does not exist |
| SessionManager.Prefixed | ui/core/session_manager.py:93-95 | the keys picked are exactly the listed keys with the prefix, without repeats |
| SessionManager.ClearNamespace | ui/core/session_manager.py:82-97 | every key with the namespace prefix is removed, the others are kept, and the count of removed keys is returned |
| SessionManager.ClearCount | ui/core/session_manager.py:82-97 | the returned count is the number of keys removed |
| SessionManager.ClearReachesLongerNamespace | ui/core/session_manager.py:82-97 | clearing namespace "a" also removes the keys of namespace "a_b" |
| SessionManager.NamespaceKeys | ui/core/session_manager.py:100-110 | there are no more namespace keys than session keys |
| SessionManager.NamespaceKeysMembers | ui/core/session_manager.py:100-125 | a key is listed for a namespace exactly when its full key is stored |
| SessionManager.GetOrInit | ui/core/session_manager.py:128-142 | a stored value is returned unchanged; otherwise the initial value is stored and returned |
| SessionManager.Update | ui/core/session_manager.py:145-160 | the updater is applied to the current value (none when missing) and its result is stored and returned |
| Navigation.Lookup | ui/core/navigation.py:87 | the stored value, or null when the key is absent |
| Navigation.Selection | ui/core/navigation.py:27-78 | the selected id is always one of the feature ids |
| Navigation.Widget | ui/core/navigation.py:51-57 | the settled widget value is one of the feature ids, and a stored value that names a feature is kept |
| Navigation.SettleWidget | ui/core/navigation.py:51-57 | the widget state is seeded with the default when missing and reset to it when it names no feature; nothing else changes |
| Navigation.Choose | ui/core/navigation.py:59-78 | on a settled widget the picked (or kept) id is selected, a change away from a recorded current id records it as previous, and the current id becomes the selection |
| Navigation.SelectionFacts | ui/core/navigation.py:47-78 | the current id becomes the selection; an invalid or missing widget value falls back to the default; a change away from a recorded current id records it as the previous one and is visible as a change; otherwise the previous id is kept |
| Navigation.RenderFeatureSelector | ui/core/navigation.py:27-78 | no features gives "" and changes nothing; otherwise the selection and session are as specified |
| Navigation.SetCurrentFeature | ui/core/navigation.py:113-128 | succeeds exactly for a registered id; switching to a different id records the old current id as previous; otherwise the session is unchanged |
| Navigation.SwitchIsChange | ui/core/navigation.py:113-139 | after switching to a different id, a change is reported exactly when a current id was recorded before |
| Navigation.HasFeatureChanged | ui/core/navigation.py:131-139 | a change is reported exactly when a previous id is recorded and differs from the current one |
| Navigation.ClearFeatureChange | ui/core/navigation.py:142-148 | the previous id is removed and no change is reported afterwards |
| Navigation.GetCurrentFeature | ui/core/navigation.py:101-110 | no current id gives none and creates nothing; a cached instance is returned; an unregistered id gives none; an instance returned belongs to the current id's class |
| Workspaces.ValidateName | ui/shared/services/workspace_manager.py:78-102 | a name passes exactly when it is 2 to 50 letters, digits, `_` or `-` and does not start with the anonymous prefix; the empty, too short, too long, badly formed and reserved names each get their own message, checked in that order |
| Workspaces.ValidateNameAgrees | ui/shared/services/workspace_manager.py:78-102 | the validator as written and the corrected one agree on every name that does not end in a newline |
| Workspaces.Sanitize | ui/shared/services/workspace_manager.py:115-126 | the directory name keeps exactly the name's letters, digits, `_` and `-`, in order, and leaves a name made only of them as it is |
| Workspaces.ValidNameIsItsOwnPath | ui/shared/services/workspace_manager.py:96-126 | a name the corrected validator accepts is its own, non-empty, directory name |
| Workspaces.AsWrittenAcceptsNewline | ui/shared/services/workspace_manager.py:96 | the validator as written accepts "ab\n" because `$` matches before a final newline; the corrected validator rejects it |
| Workspaces.SanitizeDropsNewline | ui/shared/services/workspace_manager.py:115-126 | sanitising "ab\n" gives "ab" |
| Workspaces.AnonymousName | ui/shared/services/workspace_manager.py:104-113 | an anonymous workspace name is the anonymous prefix followed by the browser id |
| Workspaces.AnonymousNamesReserved | ui/shared/services/workspace_manager.py:78-113 | no anonymous workspace name passes either validator, and different browser ids get different names |
| Workspaces.CurrentWorkspaceName | ui/shared/services/workspace_manager.py:282-305 | the current workspace is the stored name when non-empty, and otherwise the anonymous workspace of the stored browser id, "default" when none |
| Workspaces.FallbackHasOwnDirectory | ui/shared/services/workspace_manager.py:291-305 | the fallback anonymous workspace has a non-empty directory name |
| Workspaces.AsWrittenCreatesOtherName | ui/shared/services/workspace_manager.py:96-241 | as written, creating "ab\n" reports success but makes the directory "ab" with metadata naming "ab\n"; the corrected creation refuses it |
| Workspaces.CreateFacts | ui/shared/services/workspace_manager.py:205-241 | creation succeeds exactly for a valid name that does not exist yet, adding its directory with its metadata; otherwise nothing changes and the validator's message or "already exists" is returned |
| Workspaces.AsWrittenDeletesEverything | ui/shared/services/workspace_manager.py:125-268 | as written, deleting ".." sanitises to the workspaces directory itself and removes every workspace; the corrected deletion reports it as not found |
| Workspaces.DeleteFacts | ui/shared/services/workspace_manager.py:243-268 | deletion succeeds exactly for a non-anonymous name whose non-empty directory exists, removing only it; anonymous names are refused with their own message |
| Workspaces.CreateThenDelete | ui/shared/services/workspace_manager.py:205-268 | deleting a workspace just created restores the entries as they were |
| Workspaces.ListedMembers | ui/shared/services/workspace_manager.py:169-199 | the listed workspaces are exactly the directories shown (anonymous ones only on request), each with its metadata |
| Workspaces.WorkspaceLeTotalPreorder | ui/shared/services/workspace_manager.py:202 | named-first then case-insensitive name order is a total preorder, so the sort is well defined |
| Workspaces.ListFacts | ui/shared/services/workspace_manager.py:155-203 | the list puts named workspaces before anonymous ones, orders each group by lower-cased name, and leaves anonymous ones out unless asked |
| Workspaces.CreatedIsListed | ui/shared/services/workspace_manager.py:155-241 | a workspace just created is listed with its path, creation time and display name, which defaults to its name |
| Workspaces.WorkspaceManager.constructor | ui/shared/services/workspace_manager.py:51-60 | the manager starts over the workspaces directory, which exists afterwards |
| Workspaces.WorkspaceManager.WorkspacePath | ui/shared/services/workspace_manager.py:115-126 | the path is the workspaces directory joined with the sanitised name, or the directory itself when nothing is left |
| Workspaces.WorkspaceManager.WorkspaceExists | ui/shared/services/workspace_manager.py:270-280 | a workspace exists exactly when its sanitised path does |
| Workspaces.WorkspaceManager.CreateWorkspace | ui/shared/services/workspace_manager.py:205-241 | the result and new directory state are those of the corrected creation |
| Workspaces.WorkspaceManager.DeleteWorkspace | ui/shared/services/workspace_manager.py:243-268 | the result and new directory state are those of the corrected deletion |
| Workspaces.WorkspaceManager.ListWorkspaces | ui/shared/services/workspace_manager.py:155-203 | a missing directory lists nothing; otherwise the shown workspaces, sorted |
| Workspaces.CleanupDirsDistinct | ui/shared/services/workspace_manager.py:399 | the three cleaned directories are distinct |
| Workspaces.HundredthsBounds | ui/shared/services/workspace_manager.py:373-441 | sizes in megabytes are rounded to within half a hundredth |
| Workspaces.NewerFirstTotalPreorder | ui/shared/services/workspace_manager.py:418 | newest first by modification time is a total preorder, so the sort is well defined |
| Workspaces.Victims | ui/shared/services/workspace_manager.py:421-431 | the deleted entries are among the sorted entries |
| Workspaces.Kept | ui/shared/services/workspace_manager.py:421-431 | the kept entries are among the sorted entries |
| Workspaces.BytesAppend | ui/shared/services/workspace_manager.py:412 | sizes of concatenated lists add up |
| Workspaces.BytesInsert | ui/shared/services/workspace_manager.py:418 | inserting an entry adds its size |
| Workspaces.BytesSorted | ui/shared/services/workspace_manager.py:418 | sorting does not change the total size |
| Workspaces.VictimsKeptBytes | ui/shared/services/workspace_manager.py:421-436 | the sizes of the deleted and kept entries add up to the total |
| Workspaces.VictimsKeptSplit | ui/shared/services/workspace_manager.py:421-431 | every entry is either deleted or kept, never both |
| Workspaces.VictimRule | ui/shared/services/workspace_manager.py:421-431 | an entry is deleted exactly when its position is at least `max_items`, or it is older than the cutoff and at position 10 or later |
| Workspaces.KeptBounds | ui/shared/services/workspace_manager.py:421-431 | at most `max_items` entries are kept, and at least the newest ten or `max_items`, whichever is fewer |
| Workspaces.CleanAllFrame | ui/shared/services/workspace_manager.py:399-404 | cleaning touches only the three cleanup directories |
| Workspaces.CleanAllBounds | ui/shared/services/workspace_manager.py:399-436 | every cleaned directory keeps at most `max_items` entries |
| Workspaces.AreaBytesFrame | ui/shared/services/workspace_manager.py:399-404 | a directory outside the cleaned ones does not count toward their size |
| Workspaces.AreaBytesSame | ui/shared/services/workspace_manager.py:399-404 | the size of the cleaned directories depends only on them |
| Workspaces.CleanAllAccounting | ui/shared/services/workspace_manager.py:396-442 | the freed bytes reported are exactly the bytes the cleaned directories lose |
| Workspaces.StatsOf | ui/shared/services/workspace_manager.py:396 | the `deleted_files` count stays 0, since the cleanup never increments it |
| Workspaces.AutoCleanup | ui/shared/services/workspace_manager.py:456-491 | nothing happens and nothing is reported when the workspace is within its quota; otherwise a cleanup is reported |
| Workspaces.AfterFirstPass | ui/shared/services/workspace_manager.py:481-489 | after the first pass, stats are always reported |
| Workspaces.AutoCleanupAccounting | ui/shared/services/workspace_manager.py:456-491 | the bytes reported freed by an automatic cleanup are exactly the bytes the cleaned directories lose over both passes |
| Workspaces.AutoCleanupBounds | ui/shared/services/workspace_manager.py:456-491 | an automatic cleanup keeps every directory and leaves at most fifty entries in each cleaned one |
| Workspaces.StorageManager.constructor | ui/shared/services/workspace_manager.py:331-337 | the manager starts over the workspace's sizes |
| Workspaces.StorageManager.EnforceQuota | ui/shared/services/workspace_manager.py:444-454 | the workspace is within quota exactly when its rounded size in megabytes does not exceed the limit |
| Workspaces.StorageManager.CleanDirectory | ui/shared/services/workspace_manager.py:406-439 | cleaning one directory walks its sorted entries and deletes and counts exactly the specified ones |
| Workspaces.StorageManager.CleanDirectories | ui/shared/services/workspace_manager.py:399-439 | the loop over the cleanup directories gives the specified counts and directory state |
| Workspaces.StorageManager.CleanupOldData | ui/shared/services/workspace_manager.py:378-442 | the stats and new directory state are the specified ones, other files are untouched, and the total size drops by the freed bytes |
| Workspaces.StorageManager.AutoCleanupIfNeeded | ui/shared/services/workspace_manager.py:456-491 | the stats and directory state are those of the specified automatic cleanup |
| Workspaces.StorageManager.AutoCleanupOn | ui/shared/services/workspace_manager.py:470-491 | the quota check and first pass give the specified automatic cleanup |
| Workspaces.StorageManager.FinishCleanup | ui/shared/services/workspace_manager.py:481-489 | the second, stricter pass runs only when still over quota and adds its counts |
| I18n.AvailableLanguages | ui/shared/i18n/core.py:16-32 | the available languages are exactly the supported codes, "zh" and "en" |
| I18n.Prepend | ui/shared/i18n/core.py:103-107 | text before a formatted remainder is kept in front of it, and an error in the remainder stays that error |
| I18n.BraceAt | ui/shared/i18n/core.py:103-107 | the position of the first brace, with no brace before it, or the end when there is none |
| I18n.Escape | ui/shared/i18n/core.py:103-107 | doubling braces never shortens a text |
| I18n.FormatEscaped | ui/shared/i18n/core.py:103-107 | a text with its braces doubled formats back to itself in front of the formatted rest |
| I18n.PlainFormatsToItself | ui/shared/i18n/core.py:103-107 | a text without braces formats to itself whatever the arguments |
| I18n.EscapePlain | ui/shared/i18n/core.py:103-107 | a text without braces needs no escaping |
| I18n.FormatField | ui/shared/i18n/core.py:103-107 | a keyword field is replaced by its argument when given, and raises KeyError when not |
| I18n.BraceAtField | ui/shared/i18n/core.py:103-107 | the first brace after a field name without braces is the closing one |
| I18n.PositionalFieldRaises | ui/shared/i18n/core.py:103-107 | an empty or numeric field raises, since `t` passes keyword arguments only |
| I18n.UnclosedFieldRaises | ui/shared/i18n/core.py:103-107 | a brace that is never closed raises ValueError |
| I18n.TableFor | ui/shared/i18n/core.py:90 | the table of a known language, and an empty one otherwise |
| I18n.LookupFallback | ui/shared/i18n/core.py:86-100 | the current language's text wins, then English, then the key itself |
| I18n.TranslateWithoutArgs | ui/shared/i18n/core.py:102-109 | without arguments the looked-up text is returned as it is |
| I18n.TranslateMissingArgument | ui/shared/i18n/core.py:102-109 | when a field's argument is missing, the text is returned unformatted |
| I18n.FormatOneField | ui/shared/i18n/core.py:103-107 | a text with one keyword field between plain parts formats to the parts around the argument |
| I18n.FieldThenText | ui/shared/i18n/core.py:103-107 | a keyword field followed by plain text formats to the argument followed by that text |
| I18n.TranslateFillsField | ui/shared/i18n/core.py:102-109 | `t` fills in a keyword field whose argument is given |
| I18n.RubricKeyShown | ui/shared/i18n/core.py:86-100 | a key only the rubric translations hold is shown as the raw key by the aggregation as written, and as its translation by the corrected one |
| I18n.LanguageOf | ui/shared/i18n/core.py:54 | without a stored language the default "zh" is used |
| I18n.LanguageIsSupported | ui/shared/i18n/core.py:47-64 | as long as only supported codes are stored, the current language is a supported code |
| I18n.Initialized | ui/shared/i18n/core.py:35-44 | initialising marks the session initialised, stores only a supported language, and does nothing once initialised |
| I18n.InitializedOnce | ui/shared/i18n/core.py:35-44 | initialisation happens once; later query parameters change nothing |
| I18n.InitialLanguage | ui/shared/i18n/core.py:35-44 | the first initialisation takes a supported query language and ignores any other |
| I18n.InitLanguageFromStorage | ui/shared/i18n/core.py:35-44 | the session becomes the initialised one |
| I18n.GetUiLanguage | ui/shared/i18n/core.py:47-54 | after initialising, the stored language or the default is returned, a supported code whenever only such codes were stored |
| I18n.SetUiLanguage | ui/shared/i18n/core.py:57-64 | a supported code is stored and an unsupported one ignored, so only supported codes are ever stored |
| I18n.T | ui/shared/i18n/core.py:67-109 | `t` initialises the language and returns the looked-up text, formatted when arguments are given and formatting succeeds |
| Translations.MergedKeys | ui/shared/i18n/translations/__init__.py:30-44 | the merged dictionary holds exactly the keys of its inputs |
| Translations.MergedLastWins | ui/shared/i18n/translations/__init__.py:30-44 | for a key held by several inputs, the last of them supplies the value |
| Translations.MergeDicts | ui/shared/i18n/translations/__init__.py:30-44 | updating with each dictionary in turn gives the merge |
| Translations.AllTranslationsAsWritten | ui/shared/i18n/translations/__init__.py:47-57 | as written, each language merges the common, grader and auto arena tables only |
| Translations.AsWrittenDropsRubricKeys | ui/shared/i18n/translations/__init__.py:47-57 | as written, a key only the rubric tables hold is missing from both languages |
| Translations.AllTranslations | ui/shared/i18n/translations/__init__.py:47-57 | corrected, each language also merges its rubric table, last |
| Translations.AllTranslationsComplete | ui/shared/i18n/translations/__init__.py:47-57 | corrected, every key of every table is present, and rubric keys carry the rubric translation |
| Helpers.TruncateText | ui/shared/utils/helpers.py:128-140 | text within the limit is kept; longer text keeps its first `max_length - 3` characters, a negative bound counting from the end, followed by "..." |
| Helpers.TruncateFits | ui/shared/utils/helpers.py:128-140 | for a limit of at least 3 the result fits the limit, a cut text is exactly that long and starts like the original |
| Helpers.TruncateSmallLimit | ui/shared/utils/helpers.py:128-140 | below 3 the cut text overshoots the limit: "abcde" cut to 2 becomes "abcd..." |
| Helpers.ExtensionStart | ui/shared/utils/helpers.py:117 | the position after the last dot before the end, with no dot from there on |
| Helpers.AfterLastDot | ui/shared/utils/helpers.py:117 | the part after the last dot, which holds no dot, or the whole name when it has none |
| Helpers.ExtensionStartIs | ui/shared/utils/helpers.py:117 | the extension starts right after the last dot |
| Helpers.AfterLastDotOf | ui/shared/utils/helpers.py:117 | a name "stem.ext" with a dot-free extension gives that extension, and a name without a dot gives itself |
| Helpers.FormatOfExtension | ui/shared/utils/helpers.py:118-125 | known extensions map to their format, "jpg" to "jpeg", and anything else to "jpeg" |
| Helpers.GetImageFormat | ui/shared/utils/helpers.py:108-125 | the image format is always one of jpeg, png, gif and webp |
| Helpers.ImageFormatOfName | ui/shared/utils/helpers.py:108-125 | the format comes from the lower-cased extension after the last dot, whatever the case of the name |
| Helpers.ValidateApiKey | ui/shared/utils/helpers.py:143-155 | a key is accepted exactly when it has at least 10 characters, so the empty key never is |
| Helpers.ParseJsonSafely | ui/shared/utils/helpers.py:35-50 | blank text and text the parser rejects give the default; otherwise the parsed value |
| RubricData.FirstEmpty | ui/features/auto_rubric/services/data_parser.py:230-234 | the first required field, in iteration order, whose value is missing or empty, or none when every field is given |
| RubricData.CheckKeeps | ui/features/auto_rubric/services/data_parser.py:220-237 | a record is kept exactly when every required field is present and non-empty; otherwise its warning carries its own number and either the non-empty set of missing fields or an empty required field |
| RubricData.Kept | ui/features/auto_rubric/services/data_parser.py:216-237 | no more records are kept than there were |
| RubricData.KeptFacts | ui/features/auto_rubric/services/data_parser.py:216-237 | the kept records are exactly the complete ones, in order, and each record is either kept or warned about |
| RubricData.CompleteRecordsMembers | ui/features/auto_rubric/services/data_parser.py:216-237 | a record is among the complete ones exactly when it is an input record with every required field given |
| RubricData.Objects | ui/features/auto_rubric/services/data_parser.py:220-221 | the fields of each object record, one per record |
| RubricData.Validate | ui/features/auto_rubric/services/data_parser.py:195-251 | the only line-number or format errors validation reports are the caller's own exception |
| RubricData.ValidateFacts | ui/features/auto_rubric/services/data_parser.py:195-251 | no data and more than 500 records fail with their own errors; a success holds 1 to 500 records, exactly the complete ones, with one warning per dropped record; it fails exactly when no record is complete |
| RubricData.ObjectsStep | ui/features/auto_rubric/services/data_parser.py:220-221 | one more object extends the objects read so far by its fields |
| RubricData.KeptStep | ui/features/auto_rubric/services/data_parser.py:220-237 | checking one more record either keeps it or adds its warning |
| RubricData.ValidateAndReturn | ui/features/auto_rubric/services/data_parser.py:195-251 | the loop gives the specified validation result |
| RubricData.CheckRecord | ui/features/auto_rubric/services/data_parser.py:221-234 | checking one record gives its specified warning or none |
| RubricData.ParseJson | ui/features/auto_rubric/services/data_parser.py:101-123 | unreadable content and invalid JSON fail with their own errors, and the unsupported-format error never comes from here |
| RubricData.ParseJsonShapes | ui/features/auto_rubric/services/data_parser.py:105-117 | a bare array and the same array under "data" are validated alike; any other document fails as not an array |
| RubricData.ParseLines | ui/features/auto_rubric/services/data_parser.py:132-143 | a bad line reported is a line of the file |
| RubricData.BadLineIsFirst | ui/features/auto_rubric/services/data_parser.py:132-143 | the line reported is the first non-blank line that does not parse, and on success every non-blank line parses |
| RubricData.ParseJsonlLines | ui/features/auto_rubric/services/data_parser.py:132-143 | the loop over the lines gives the specified outcome |
| RubricData.BadLineStays | ui/features/auto_rubric/services/data_parser.py:132-143 | once a line is bad, later lines change nothing |
| RubricData.ParseJsonl | ui/features/auto_rubric/services/data_parser.py:125-151 | unreadable content fails with its own error, and the unsupported-format error never comes from here |
| RubricData.JsonlReportsFileLine | ui/features/auto_rubric/services/data_parser.py:125-145 | corrected, the line number reported is the file's own line: the first non-blank line that does not parse |
| RubricData.AsWrittenMisnumbersLine | ui/features/auto_rubric/services/data_parser.py:129 | as written, a bad second line after a blank first line is reported as line 1, because leading blank lines are stripped before numbering |
| RubricData.CsvItem | ui/features/auto_rubric/services/data_parser.py:160-185 | a CSV record has the row's columns, and empty cells become null |
| RubricData.EmptyCellDropsRow | ui/features/auto_rubric/services/data_parser.py:162-234 | a row with an empty cell for a required field is never kept |
| RubricData.ParseCsv | ui/features/auto_rubric/services/data_parser.py:153-193 | unreadable content or rows fail with their own error, and the unsupported-format error never comes from here |
| RubricData.ParseFile | ui/features/auto_rubric/services/data_parser.py:62-99 | the format error is reported exactly for a lower-cased extension other than json, jsonl and csv, and names that extension |
| RubricData.ParsedFacts | ui/features/auto_rubric/services/data_parser.py:195-251 | a successful validation holds 1 to 500 records, each complete |
| RubricData.ParseFileFacts | ui/features/auto_rubric/services/data_parser.py:62-251 | a successful parse of any format holds 1 to 500 complete records |
| RubricData.PreviewValue | ui/features/auto_rubric/services/data_parser.py:271-276 | strings over 100 characters are cut to 100 followed by "...", lists over 3 items to 3 followed by "...", and anything else is kept |
| RubricData.PreviewItem | ui/features/auto_rubric/services/data_parser.py:269-277 | a preview record has the record's fields |
| RubricData.PreviewBounds | ui/features/auto_rubric/services/data_parser.py:271-276 | a previewed string keeps the first 100 characters and is at most 103 long, a previewed list keeps the first three items and has at most four |
| RubricData.GetPreview | ui/features/auto_rubric/services/data_parser.py:253-278 | the preview has one record per record among the first `max_items`, each previewed |
| RubricHistory.TwoDigits | ui/features/auto_rubric/services/history_manager.py:53 | a date or time field below 100 is written as two digits |
| RubricHistory.TwoDigitsInjective | ui/features/auto_rubric/services/history_manager.py:53 | different fields give different digits |
| RubricHistory.TaskId | ui/features/auto_rubric/services/history_manager.py:47-54 | a task id starts with "rubric_" |
| RubricHistory.TaskIdShape | ui/features/auto_rubric/services/history_manager.py:47-54 | for a four-digit year the id is "rubric_", eight digits, "_" and six digits |
| RubricHistory.TaskIdFields | ui/features/auto_rubric/services/history_manager.py:47-54 | for a four-digit year the year, month, day, hour, minute and second sit at fixed places of the id |
| RubricHistory.TaskIdInjective | ui/features/auto_rubric/services/history_manager.py:47-54 | different timestamps to the second give different task ids |
| RubricHistory.Setting | ui/features/auto_rubric/services/history_manager.py:86-94 | `get` gives the stored setting for a present key and the default otherwise |
| RubricHistory.ConfigData | ui/features/auto_rubric/services/history_manager.py:83-95 | the saved configuration holds exactly the eleven listed fields, with the task id, mode and creation time as given, the data count or null, and each setting or its default |
| RubricHistory.SummaryOf | ui/features/auto_rubric/services/history_manager.py:127-152 | a summary is listed exactly for a directory whose config file reads as an object, and carries the directory's name and path |
| RubricHistory.SavedSummary | ui/features/auto_rubric/services/history_manager.py:56-152 | a task just saved is listed with the name, mode, grader mode, data count and creation time it was saved with |
| RubricHistory.NewerFirstTotalPreorder | ui/features/auto_rubric/services/history_manager.py:155 | newest first by creation time is a total preorder, so the sort is well defined |
| RubricHistory.SummariesMembers | ui/features/auto_rubric/services/history_manager.py:127-152 | the summaries gathered are exactly those of the directories whose config reads |
| RubricHistory.ListFacts | ui/features/auto_rubric/services/history_manager.py:115-157 | the list is sorted newest first, holds the first `limit` of all readable tasks, and every readable task is among them |
| RubricHistory.DetailsOf | ui/features/auto_rubric/services/history_manager.py:163-205 | details are missing exactly for an unknown task or one with an unreadable file; otherwise they carry the task id and path and the config, rubrics and grader configuration read |
| RubricHistory.DigitsFrom | ui/features/auto_rubric/services/history_manager.py:245 | the end of the run of digits from a position |
| RubricHistory.NumberAtIff | ui/features/auto_rubric/services/history_manager.py:245 | a number followed by the mark starts at a position exactly when digits run from there up to the mark |
| RubricHistory.DigitsFromIs | ui/features/auto_rubric/services/history_manager.py:245 | the run of digits ends at the first non-digit |
| RubricHistory.RubricsCount | ui/features/auto_rubric/services/history_manager.py:229-247 | the empty text counts 0, and the count never exceeds the number of lines |
| RubricHistory.RubricsCountOfLines | ui/features/auto_rubric/services/history_manager.py:229-247 | a non-empty text counts the lines that open a rubric ("N." or "Rubric N:"), and at least 1 |
| RubricHistory.RubricsCountAppend | ui/features/auto_rubric/services/history_manager.py:229-247 | appending a line adds one exactly when that line opens a rubric |
| RubricHistory.RubricStore.constructor | ui/features/auto_rubric/services/history_manager.py:32-45 | the store starts over the given directory and tasks |
| RubricHistory.RubricStore.SaveGrader | ui/features/auto_rubric/services/history_manager.py:56-113 | saving succeeds exactly when the writes succeed and the task path is free or a directory, and then stores the task's three files |
| RubricHistory.RubricStore.ListTasks | ui/features/auto_rubric/services/history_manager.py:115-161 | walking the directories and sorting gives the specified task list |
| RubricHistory.RubricStore.GetTaskDetails | ui/features/auto_rubric/services/history_manager.py:163-205 | the specified details |
| RubricHistory.RubricStore.DeleteTask | ui/features/auto_rubric/services/history_manager.py:207-227 | deletion succeeds exactly for an existing task whose removal does not fail, and removes just it |
| RubricHistory.SavedDetails | ui/features/auto_rubric/services/history_manager.py:56-205 | a task just saved reads back with its configuration data, rubrics and grader configuration |
| RubricConfig.Queries | ui/features/auto_rubric/components/simple_config_panel.py:71 | the stripped non-blank lines, in order |
| RubricConfig.SampleQueries | ui/features/auto_rubric/components/simple_config_panel.py:68-71 | blank text gives no queries; otherwise each query is stripped, non-blank and a single line |
| RubricConfig.QueriesAvoid | ui/features/auto_rubric/components/simple_config_panel.py:71 | a character no line holds is in no query |
| RubricConfig.SampleQueriesRoundTrip | ui/features/auto_rubric/components/simple_config_panel.py:68-71 | stripped queries written one per line read back as themselves |
| RubricConfig.JoinEnds | ui/features/auto_rubric/components/simple_config_panel.py:71 | queries joined by newlines start with the first query and end with the last |
| RubricConfig.QueriesOfTrimmed | ui/features/auto_rubric/components/simple_config_panel.py:71 | lines already stripped and non-blank are all kept |
| RubricConfig.SimpleConfig | ui/features/auto_rubric/components/simple_config_panel.py:17-78 | the configuration is the sidebar's settings with the name, task description, scenario (null when empty) and sample queries set |
| RubricConfig.CategoriesNumber | ui/features/auto_rubric/components/iterative_config_panel.py:76-86 | the slider's value with categorisation on, 5 with it off |
| RubricConfig.Setting | ui/features/auto_rubric/components/iterative_config_panel.py:98-100 | `get` gives the stored value for a present key and the default otherwise |
| RubricConfig.IterativeConfig | ui/features/auto_rubric/components/iterative_config_panel.py:18-106 | the configuration is the sidebar's settings with the name, dataset, data count (0 by default), validity (false by default), task description, categorisation and generation numbers set |
| RubricConfig.TextOf | ui/features/auto_rubric/components/simple_config_panel.py:91-101 | a setting counts as given exactly when it is a non-blank text; a missing one is blank |
| RubricConfig.Require | ui/features/auto_rubric/components/simple_config_panel.py:91-101 | a given text passes on to the next check, a blank one gives its message, and a non-text raises |
| RubricConfig.ValidateSimple | ui/features/auto_rubric/components/simple_config_panel.py:81-103 | the configuration passes exactly when name, task description, API key and model name are all given, and otherwise reports the first missing one in that order |
| RubricConfig.TooFewRecords | ui/features/auto_rubric/components/iterative_config_panel.py:130-133 | a missing data count counts as 0, which is too few; a numeric one is too few below 10 |
| RubricConfig.ValidateIterative | ui/features/auto_rubric/components/iterative_config_panel.py:109-135 | the configuration passes exactly when the name is given, the data is valid, API key and model name are given and there are at least 10 records, and otherwise reports the first failing check in that order |
| RubricConfig.SimplePanelValid | ui/features/auto_rubric/components/simple_config_panel.py:17-103 | the panel's configuration passes exactly when name and description are non-blank and the sidebar holds an API key and model name |
| RubricConfig.NamedTexts | ui/features/auto_rubric/components/simple_config_panel.py:73-95 | a name or description set from a text counts as given exactly when that text is non-blank |
| RubricConfig.IterativeNeedsTenRecords | ui/features/auto_rubric/components/iterative_config_panel.py:97-135 | with a named grader, valid data and credentials, the iterative configuration passes exactly when there are at least 10 records |

## Left out

- Streamlit rendering: every `render_*` function, the page bodies other than `_validate_config`, the `components/*` widgets, the sidebar, theme and logo, and the batch result histogram. So are `render_language_selector`, `inject_language_loader`, `inject_browser_id_loader` and `initialize_workspace_from_url`. They draw widgets. Their values enter the model as parameters.
- LLM-, tool- and network-backed calls are oracles: chat models, tool executions, the correctness, review and criticality graders, the PDF loader, the bibliographic lookup services and the arena pipeline. Each is a function or an outcome the caller supplies. Their prompt texts are not modelled.
- Concurrency: `asyncio.gather`, semaphores, `max_concurrency` and thread pools become sequential loops in scheduling order. Only the placement of results is specified. A batch cancellation is modelled by the index of the first paper that observes it.
- File, archive and process I/O: files and directories are in-memory maps. JSON, YAML and CSV parsing, UTF-8 decoding and float parsing are partial-function parameters. Tar and zip extraction and `os.walk` are left out: an extracted package is given as a value.
- Floating point and time: elapsed-time, date and score formatting are not modelled. Clocks, `datetime`, `uuid4`, random task ids and browser ids are parameters. Ratios are exact `real`s. The storage size in megabytes is kept as integer hundredths.
- Components whose code is not part of this model are oracles: the query generator, the response collector, `PairwiseAnalyzer`, the rubric generator and the resource executor.
- A corrupt or unreadable checkpoint is treated as absent, as the zero-shot pipeline does.
- Metadata entries holding Python objects (`original_results`) are not modelled. The strategies return those results as a separate value.
- `review_tex_package` and `review_and_report` (cookbooks/paper_review/pipeline.py:344-421) only chain the modelled stages with file I/O. The synchronous `run` wrapper of the paper-review runner is left out too.
- The paper-review progress callback into the UI is not modelled. The pipeline's progress reports are kept as the list of values the callback received.
- The module-level helper functions of the gallery registry (rm_gallery/gallery/grader/registry.py:236-291) only forward to the singleton. `is_registered` and `__contains__` are the predicate `Registry.GraderRegistry.IsRegistered`.
- `conflict_detector`'s `load_data_samples`, `evaluate_async` and `main` are left out. They are file I/O and a command-line driver.
- AgenticGrader.NoIterationsFails: with no iteration allowed, the source reads a variable that was never bound. The model reports that as a failed run, not as Python's `UnboundLocalError`.
- The Auto Arena runner's `save_config` writes a YAML file and is left out. So is the batch progress record's `to_dict`.
- `config/grader_registry.py` of the UI's Grader page is not part of this model. The factory takes its registry as a parameter. Importing a grader class and reading its signature is an oracle (`ClassInfo`).
- TaskManager.FromDict: a field of the wrong JSON type is read as a failure: an `id`, `stage`, `message`, `output_dir` or `error_message` that is not a string (or null where allowed), a `config_snapshot` that is not an object, a `stage_progress` or `total_progress` that is not a number, or `logs` that is not a list of strings. Python would keep the odd value or fail only when it is used. The `get_task_manager` singleton is left out.
- Workspaces: `ensure_workspace_exists` (it creates directories), `get_current_workspace_path`, `set_current_workspace`, `generate_browser_id` and the `get_instance` singleton are left out. So are the file count and the per-directory breakdown of `get_storage_usage`. Of the ways `rmtree` can fail, only a path that is a plain file is modelled.
- SessionManager: the `FeatureState` convenience wrapper only forwards to the modelled operations and is left out.
- BatchHistory: `generate_task_id`, `get_task_dir`, `create_task_dir`, `get_task_input_data` and the `save_*`/`load_checkpoint` writers and readers are file I/O and are left out. `append_result`'s seek ten bytes back from the end of the file is modelled as an edit of the file's text.
- I18n.Format: only `{name}` keyword fields and the `{{`/`}}` escapes of `str.format` are modelled. Conversions, format specifications and attribute access are not.
- Helpers: case folding and whitespace are ASCII only. So is every regular-expression class in the model (`\w`, `\s`, `\d`).
- RubricData: the texts of the exceptions caught while parsing are not modelled. A failure names only where the exception was caught (`FailedFile`, `FailedJsonl` or `FailedCsv`).
- RubricHistory.RubricStore.ListTasks: a `created_at` that is not a string sorts as the empty text. Python would compare by the value's own type or fail.
- RubricHistory.RubricStore.SaveGrader: a save that fails leaves the store unchanged. Partially written files are not modelled. Neither is a failure of the directory listing.
- RubricHistory.RubricStore.GetTaskDetails: `get_task_details` returns whatever JSON `config.json` holds. The model keeps it as a JSON value and does not check its shape.
- GradingRunner.Runner.constructor: follows the corrected behaviour of the Findings row for openjudge/runner/grading_runner.py:94-99 (a single plain callable is wrapped in a list). On the input that row names, the code as written behaves differently, and this member does not model that behaviour.
- GraderInfo.SignatureAt: follows the corrected behaviour of the Findings row for openjudge/utils/grader_info.py:141-173 (every run of whitespace, a newline included, becomes one space). On the input that row names, the code as written behaves differently, and this member does not model that behaviour.
- GraderInfo.ParseClassDef: follows the corrected behaviour of the Findings row for openjudge/utils/grader_info.py:141-173 (every run of whitespace, a newline included, becomes one space). On the input that row names, the code as written behaves differently, and this member does not model that behaviour.
- GraderInfo.AllGraderInfo: follows the corrected behaviour of the Findings row for openjudge/utils/grader_info.py:141-173 (every run of whitespace, a newline included, becomes one space). On the input that row names, the code as written behaves differently, and this member does not model that behaviour.
- ReviewPipeline.ReviewOutcomeFacts: follows the corrected behaviour of the Findings row for cookbooks/paper_review/pipeline.py:284 (only the jailbreaking grader's verdict marks a paper unsafe). On the input that row names, the code as written behaves differently, and this member does not model that behaviour.
- ReviewPipeline.PaperReviewPipeline.ReviewPaper: follows the corrected behaviour of the Findings row for cookbooks/paper_review/pipeline.py:284 (only the jailbreaking grader's verdict marks a paper unsafe). On the input that row names, the code as written behaves differently, and this member does not model that behaviour.
- ReviewPipeline.PaperReviewPipeline.ReviewPaper: its `bib_verification` summaries come from ReviewPipeline.BibStage and so also follow the corrected behaviour of the Findings row for cookbooks/paper_review/processors/bib_checker.py:83-86 (a field is found by its whole name, so `title` never matches inside `booktitle`). For an entry with `booktitle` before `title`, the code as written reads the booktitle as the title, and this member does not model that behaviour.
- ReviewRunner.PipelineRunner.RunAsync: follows the corrected behaviour of the Findings row for cookbooks/paper_review/pipeline.py:284 (only the jailbreaking grader's verdict marks a paper unsafe). On the input that row names, the code as written behaves differently, and this member does not model that behaviour.
- ReviewRunner.PipelineRunner.RunAsync: its `bib_verification` summaries come from ReviewPipeline.BibStage and so also follow the corrected behaviour of the Findings row for cookbooks/paper_review/processors/bib_checker.py:83-86 (a field is found by its whole name, so `title` never matches inside `booktitle`). For an entry with `booktitle` before `title`, the code as written reads the booktitle as the title, and this member does not model that behaviour.
- ReviewRunner.PipelineRunner.ReviewWithCallback: follows the corrected behaviour of the Findings row for cookbooks/paper_review/pipeline.py:284 (only the jailbreaking grader's verdict marks a paper unsafe). On the input that row names, the code as written behaves differently, and this member does not model that behaviour.
- ReviewRunner.PipelineRunner.ReviewWithCallback: its `bib_verification` summaries come from ReviewPipeline.BibStage and so also follow the corrected behaviour of the Findings row for cookbooks/paper_review/processors/bib_checker.py:83-86 (a field is found by its whole name, so `title` never matches inside `booktitle`). For an entry with `booktitle` before `title`, the code as written reads the booktitle as the title, and this member does not model that behaviour.
- BatchRunner.PaperResult: follows the corrected behaviour of the Findings row for cookbooks/paper_review/pipeline.py:284 (only the jailbreaking grader's verdict marks a paper unsafe). On the input that row names, the code as written behaves differently, and this member does not model that behaviour.
- BatchRunner.PaperResult: its `bib_verification` summaries come from ReviewPipeline.BibStage and so also follow the corrected behaviour of the Findings row for cookbooks/paper_review/processors/bib_checker.py:83-86 (a field is found by its whole name, so `title` never matches inside `booktitle`). For an entry with `booktitle` before `title`, the code as written reads the booktitle as the title, and this member does not model that behaviour.
- BatchRunner.BatchResults: follows the corrected behaviour of the Findings row for cookbooks/paper_review/pipeline.py:284 (only the jailbreaking grader's verdict marks a paper unsafe). On the input that row names, the code as written behaves differently, and this member does not model that behaviour.
- BatchRunner.BatchResults: its `bib_verification` summaries come from ReviewPipeline.BibStage and so also follow the corrected behaviour of the Findings row for cookbooks/paper_review/processors/bib_checker.py:83-86 (a field is found by its whole name, so `title` never matches inside `booktitle`). For an entry with `booktitle` before `title`, the code as written reads the booktitle as the title, and this member does not model that behaviour.
- BatchRunner.BatchRunner.ProcessPaper: follows the corrected behaviour of the Findings row for cookbooks/paper_review/pipeline.py:284 (only the jailbreaking grader's verdict marks a paper unsafe). On the input that row names, the code as written behaves differently, and this member does not model that behaviour.
- BatchRunner.BatchRunner.ProcessPaper: its `bib_verification` summaries come from ReviewPipeline.BibStage and so also follow the corrected behaviour of the Findings row for cookbooks/paper_review/processors/bib_checker.py:83-86 (a field is found by its whole name, so `title` never matches inside `booktitle`). For an entry with `booktitle` before `title`, the code as written reads the booktitle as the title, and this member does not model that behaviour.
- BatchRunner.BatchRunner.RunAsync: follows the corrected behaviour of the Findings row for cookbooks/paper_review/pipeline.py:284 (only the jailbreaking grader's verdict marks a paper unsafe). On the input that row names, the code as written behaves differently, and this member does not model that behaviour.
- BatchRunner.BatchRunner.RunAsync: its `bib_verification` summaries come from ReviewPipeline.BibStage and so also follow the corrected behaviour of the Findings row for cookbooks/paper_review/processors/bib_checker.py:83-86 (a field is found by its whole name, so `title` never matches inside `booktitle`). For an entry with `booktitle` before `title`, the code as written reads the booktitle as the title, and this member does not model that behaviour.
- BibParse.ParseEntryFacts: follows the corrected behaviour of the Findings row for cookbooks/paper_review/processors/bib_checker.py:83-86 (a field is found by its whole name, so `title` never matches inside `booktitle`). On the input that row names, the code as written behaves differently, and this member does not model that behaviour.
- BibParse.ParseEntries: follows the corrected behaviour of the Findings row for cookbooks/paper_review/processors/bib_checker.py:83-86 (a field is found by its whole name, so `title` never matches inside `booktitle`). On the input that row names, the code as written behaves differently, and this member does not model that behaviour.
- BibParse.ParseBibFacts: follows the corrected behaviour of the Findings row for cookbooks/paper_review/processors/bib_checker.py:83-86 (a field is found by its whole name, so `title` never matches inside `booktitle`). On the input that row names, the code as written behaves differently, and this member does not model that behaviour.
- BibChecker.CheckBibContent: follows the corrected behaviour of the Findings row for cookbooks/paper_review/processors/bib_checker.py:83-86 (a field is found by its whole name, so `title` never matches inside `booktitle`). On the input that row names, the code as written behaves differently, and this member does not model that behaviour.
- ReviewPipeline.BibStage: follows the corrected behaviour of the Findings row for cookbooks/paper_review/processors/bib_checker.py:83-86 (a field is found by its whole name, so `title` never matches inside `booktitle`). On the input that row names, the code as written behaves differently, and this member does not model that behaviour.
- ReviewPipeline.PaperReviewPipeline.RunBibVerification: follows the corrected behaviour of the Findings row for cookbooks/paper_review/processors/bib_checker.py:83-86 (a field is found by its whole name, so `title` never matches inside `booktitle`). On the input that row names, the code as written behaves differently, and this member does not model that behaviour.
- PresetManager.SaveFacts: follows the corrected behaviour of the Findings row for ui/features/auto_arena/services/preset_manager.py:141 (a preset name ending in a newline is refused). On the input that row names, the code as written behaves differently, and this member does not model that behaviour.
- PresetManager.SavedIsDeletable: follows the corrected behaviour of the Findings row for ui/features/auto_arena/services/preset_manager.py:141 (a preset name ending in a newline is refused). On the input that row names, the code as written behaves differently, and this member does not model that behaviour.
- PresetManager.PresetStore.SavePreset: follows the corrected behaviour of the Findings row for ui/features/auto_arena/services/preset_manager.py:141 (a preset name ending in a newline is refused). On the input that row names, the code as written behaves differently, and this member does not model that behaviour.
- Workspaces.CreateFacts: follows the corrected behaviour of the Findings row for ui/shared/services/workspace_manager.py:87-125 (a workspace name ending in a newline is refused). On the input that row names, the code as written behaves differently, and this member does not model that behaviour.
- Workspaces.CreateThenDelete: follows the corrected behaviour of the Findings row for ui/shared/services/workspace_manager.py:87-125 (a workspace name ending in a newline is refused). On the input that row names, the code as written behaves differently, and this member does not model that behaviour.
- Workspaces.CreatedIsListed: follows the corrected behaviour of the Findings row for ui/shared/services/workspace_manager.py:87-125 (a workspace name ending in a newline is refused). On the input that row names, the code as written behaves differently, and this member does not model that behaviour.
- Workspaces.WorkspaceManager.CreateWorkspace: follows the corrected behaviour of the Findings row for ui/shared/services/workspace_manager.py:87-125 (a workspace name ending in a newline is refused). On the input that row names, the code as written behaves differently, and this member does not model that behaviour.
- Workspaces.DeleteFacts: follows the corrected behaviour of the Findings row for ui/shared/services/workspace_manager.py:115-263 (a name that is not a valid workspace name removes nothing). On the input that row names, the code as written behaves differently, and this member does not model that behaviour.
- Workspaces.WorkspaceManager.DeleteWorkspace: follows the corrected behaviour of the Findings row for ui/shared/services/workspace_manager.py:115-263 (a name that is not a valid workspace name removes nothing). On the input that row names, the code as written behaves differently, and this member does not model that behaviour.
- BatchHistory.BatchStore.ExportResults: follows the corrected behaviour of the Findings row for ui/features/grader/services/batch_history_manager.py:553-585 (every input key gets its `input_<key>` column). On the input that row names, the code as written behaves differently, and this member does not model that behaviour.
- RubricData.ParseFile: follows the corrected behaviour of the Findings row for ui/features/auto_rubric/services/data_parser.py:129 (a JSONL error names the line of the file, blank leading lines counted). On the input that row names, the code as written behaves differently, and this member does not model that behaviour.
- RubricData.ParseFileFacts: follows the corrected behaviour of the Findings row for ui/features/auto_rubric/services/data_parser.py:129 (a JSONL error names the line of the file, blank leading lines counted). On the input that row names, the code as written behaves differently, and this member does not model that behaviour.
- GraderInfo.AllGraderInfo: a base class is a plain name. A base written as an attribute (`mod.Base`) makes the source read `.id` of a node that has none and raise AttributeError (openjudge/utils/grader_info.py:94, 116 and 188). The model neither raises nor records such a class.
- JsonMatch.MatchReflexive: the JSON values of the model hold no NaN or Infinity. `json.loads` accepts them, and NaN does not equal itself at json_match.py:96, so a document holding NaN does not match itself in the source.
- ReviewHistory.FromDict: a field of the wrong JSON type (a `task_id` that is not a string, a `success` that is not a boolean, a `metadata` that is not an object) is refused as a TypeError. `cls(**data)` does not check types and would build the record.
- AgenticGrader.JsonInts: only JSON whole numbers are ranks. Values that pydantic's lax mode coerces to ints, such as the strings "2" and "1", are refused.
- PresetManager.IsBuiltin: the `builtin` flag is a boolean or absent. A YAML value of another type that Python's truthiness counts as true (a non-empty string, a non-zero number) is not modelled.
- FeatureRegistry.Registry.Register: classes are values, so two class objects with the same name, id and order are the same class. The source compares with `is` and would treat them as different classes.
- ArenaHistory.ArenaHistory.DeleteTask: the id names an entry of the evaluations directory. An id that is a path of its own ("", ".", "..", or one holding "/") is not modelled. For such an id the source removes the evaluations directory itself, its parent or a directory inside a task, and returns True.
- ArenaHistory.ArenaHistory.GetTaskDetails: as for DeleteTask, an id that is a path of its own ("", ".", "..", or one holding "/") is not modelled. The source then reads the files of that other directory.
- RubricHistory.RubricStore.DeleteTask: the id names an entry of the rubric history directory. An id that is a path of its own ("", ".", "..", or one holding "/") is not modelled. For such an id the source removes that directory itself, its parent or a directory inside a task, and returns True.
- RubricHistory.RubricStore.GetTaskDetails: as for DeleteTask, an id that is a path of its own is not modelled. The source then reads the files of that other directory.

## Findings

| source | as written | input that shows it | evidently intended | confidence | as-written member | corrected member |
|---|---|---|---|---|---|---|
| openjudge/runner/grading_runner.py:94-99 | a single aggregator that is a plain callable, not a `BaseAggregator`, is stored bare, and `arun` then iterates over it | `aggregators=f` for a plain function `f` | every single aggregator is wrapped in a one-element list | high; not executed | GradingRunner.NormalizeAggregatorsAsWritten, GradingRunner.SinglePlainCallableBreaksArun | GradingRunner.NormalizeAggregators, GradingRunner.NormalizeAggregatorsAgrees |
| rm_gallery/gallery/grader/format/json_match.py:81-94 | with `strict_order` off and `ignore_extra_keys` on, each candidate item is paired greedily with the first unused reference item it matches | reference `[{"a":1}, {"a":1,"b":2}]`, candidate `[{"a":1,"b":2}, {"a":1}]` | a match whenever some one-to-one pairing exists | medium; not executed | JsonMatch.GreedyMissesPairing | JsonMatch.PairingExists, JsonMatch.PairingExistsIff |
| cookbooks/paper_review/pipeline.py:284 | the paper is marked unsafe when any issue contains "Jailbreaking", format violations included | a format violation whose text mentions "Jailbreaking" | only the jailbreaking grader's verdict marks the paper unsafe | medium; not executed | ReviewPipeline.SafetyChecksAsWritten, ReviewPipeline.FormatViolationMarksUnsafe | ReviewPipeline.SafetyChecks, ReviewPipeline.SafetyChecksAgree |
| cookbooks/paper_review/processors/bib_checker.py:83-86 | the field pattern has no word boundary, so `title` matches inside `booktitle` | an entry with `booktitle` before `title` | the field named exactly `title` | high; not executed | BibParse.ExtractFieldAsWritten, BibParse.AsWrittenFindsBookTitle | BibParse.ExtractField, BibParse.WholeWordFindsTitle |
| ui/features/auto_arena/services/preset_manager.py:141 | `re.match` with `^[a-zA-Z0-9_-]+$` lets a name end with a newline | the preset name "ab\n" | names of letters, digits, `_` and `-` only | high; not executed | PresetManager.ValidateNameAsWritten, PresetManager.AsWrittenAcceptsNewline | PresetManager.ValidateName, PresetManager.ValidateNameAgrees |
| ui/shared/services/workspace_manager.py:87-125 | the same pattern admits "ab\n", and the sanitised path then creates the workspace "ab" | create_workspace("ab\n") | the validated name is the directory's name | high; not executed | Workspaces.ValidateNameAsWritten, Workspaces.CreateOutcomeAsWritten, Workspaces.AsWrittenAcceptsNewline, Workspaces.AsWrittenCreatesOtherName | Workspaces.ValidateName, Workspaces.ValidNameIsItsOwnPath |
| ui/shared/services/workspace_manager.py:115-263 | deletion sanitises the name without validating it; ".." sanitises to "", so the path is the workspaces directory itself, which is removed | delete_workspace("..") | only an existing workspace's own directory is removed | low (the page passes listed names only); not executed | Workspaces.DeleteOutcomeAsWritten, Workspaces.AsWrittenDeletesEverything | Workspaces.DeleteOutcome, Workspaces.DeleteFacts |
| ui/features/grader/services/batch_history_manager.py:553-585 | an input key is tested against the column names before its `input_` prefix is added, so a key named like a standard column gets no column and the CSV writer rejects the row | a result whose input has the key "reason" | every input key gets its `input_<key>` column | high; not executed | BatchHistory.CsvAsWritten, BatchHistory.AsWrittenRejectsReasonInput | BatchHistory.Csv, BatchHistory.CsvColumnsComplete |
| ui/shared/i18n/translations/__init__.py:47-57 | the merged tables hold the common, grader and Auto Arena tables only, so Auto Rubric keys are shown untranslated | t("rubric.…") for a key only the Auto Rubric table defines | every feature table is merged | medium (the common table is not part of this model and could hold the keys); not executed | Translations.AllTranslationsAsWritten, Translations.AsWrittenDropsRubricKeys, I18n.RubricKeyShown | Translations.AllTranslations, Translations.AllTranslationsComplete |
| ui/features/auto_rubric/services/data_parser.py:129 | the text is stripped before it is split, so JSONL line numbers count from the first non-blank line | a file starting with a blank line and then an invalid line | the error names the line of the file | high; not executed | RubricData.ParseJsonlAsWritten, RubricData.AsWrittenMisnumbersLine | RubricData.ParseJsonl, RubricData.JsonlReportsFileLine |
| openjudge/utils/grader_info.py:141-173 | the pattern "a newline, or else two or more whitespace characters" replaces a newline on its own before it tries a run of whitespace, so a newline followed by spaces leaves two spaces | the signature text "(\n  x" | runs of whitespace collapse to one space | medium; not executed | GraderInfo.CollapseAsWritten, GraderInfo.CollapseAsWrittenKeepsDoubleSpace | GraderInfo.Collapse, GraderInfo.CollapseSpaces |
