# Verified model of the agent optimization service

The service takes jobs, runs an agent against a benchmark, asks an optimizer for a better agent, and repeats. This
project models the parts of it that carry state or decide what is kept, and proves what a whole run guarantees.

- **A run of the processor** (`RunSpec`, `JobProcessor`, `RunTheorems`, `RunAccount`, `AccountUniqueness`,
  `RunPrefixes`, `RunLog`, `RunResults`, `OfflineRun`). `RunSpec`
  says what a run is meant to do as functions of the sequence of benchmark results and proposals, with no counters and
  no best-so-far variables. The class `JobProcessor.OptimizationRun` has the variables and rows of the real loop, each
  updated where the loop updates it, and is proved to compute what `RunSpec` says for every sequence of results,
  proposals, exceptions and cancellations. The theorems about numbering, the version tree, the evidence shown to the
  optimizer and the length of a run are statements about `RunSpec` and therefore about the loop. `RunAccount` tells the
  same run a second time, as a relation between the turns met and the rows left, with none of the functions of
  `RunSpec` that compute them: when the run goes on, which of the five stop reasons the job gets and when, and what
  every iteration, version, optimizer call and log entry says. `AccountUniqueness.AccountIsTheRun` proves that this
  account is true of the record of `RunSpec` and of no other record.
- **Stored jobs under interleaving** (`JobProtocol`, `ProtocolTheorems`, `ProtocolRuns`, `RunsInProtocol`,
  `ProtocolWitnesses`). A transition system with submits, cancel requests that read and commit separately, the two
  steps of a claim, and every step of the processor between two accesses to the store, the questions of a running
  benchmark included. The processor works on its own copy of the row and a commit writes changed fields only. Its jobs
  carry the results and proposals they meet, and the stop tests on them are those of `RunSpec`. The two models
  agree in both directions. Every finished job of every interleaving has gone through a run of `RunSpec` on the turns
  it met, of which the whole account is true, with as many calls and rows and the same saved results and final row
  (`ProtocolRuns.FinishedJobsAreRuns`).
  And every run of `RunSpec` is one of the protocol, which meets turns on which `RunSpec` gives the very same iteration
  rows, versions and optimizer calls (`RunsInProtocol.RunIsProtocolRun`).
- **Bounded texts** (`Text`, `LearningHistory`, `JsonText`, `EvidenceWindows`). The truncated learning log against
  the log nobody cut, and the greedy packing of traces and records under a budget measured on `json.dumps` text
  (RFC 8259 sections 3, 4, 5 and 7, Python's default separators, ASCII output).
- **Heuristic edits and executors** (`Substrings`, `HeuristicEdits`, `SimulatedExecutor`, `HarborExecutor`,
  `ExecutorContract`, `LiveProgress`, `RecentAttempts`, `ExecutedAttempts`, `OptimizerInput`,
  `JobViews`).

Results of benchmarks, answers of the optimizer, exceptions and the moments at which a cancel is seen are inputs, so
each theorem holds for all of them. A run that outlasts the given list of turns finds its job cancelled.

## What the proofs brought out

- Finished states are not final, although the repository's own README draws them so (`README.md:46-50`). Exactly two
  things change the status of a finished job (`ProtocolTheorems.FinishedStatusChangesIff`). A cancel request that read
  the job while it was unfinished, and commits now, makes a completed or failed job cancelled. And the commit that ends
  the processing, the one behind a normal return (`app/worker/processor.py:51-55`) as well as the one of the exception
  handler (`app/worker/processor.py:56-61`), makes a cancelled job completed or failed when the processor has not read
  the cancel. `ProtocolWitnesses.CompletedCanBecomeCancelled` and `ProtocolWitnesses.CancelledCanBecomeFailed` are
  runs in which it happens.
- A committed cancel outlives the commit that ends the processing, of either kind, exactly when the processor has read
  it (`ProtocolTheorems.CancelOutlivesRunIff`).
- A completed job can carry the stop reason "cancelled". When a proposal changes nothing, the stop reason is
  committed before the status (`app/worker/processor.py:306-315`), and a cancel committed in between is then
  overwritten in its status only. `ProtocolTheorems.RowsDisagreeIff` gives the exact condition,
  `ProtocolWitnesses.RowsCanDisagree` a run that ends so.
- The claim is what keeps a finished job from running again: without it a cancel that commits between load and start is
  undone (`ProtocolWitnesses.CancelIsUndoneWithoutClaim`).
- The heuristic edit is idempotent exactly for agents that contain "verify your solution before finishing": the line
  it adds says "verify your solution with a concrete check before finishing" and does not satisfy its own guard, so
  otherwise each edit adds that line again (`HeuristicEdits.EditIsIdempotentIff`).
- With all rewards present, the per-task deltas shown for an attempt average to its score delta exactly when looking
  every task id up in the parent's results, where a later result hides an earlier one under the same id, adds up to the parent's total
  (`RecentAttempts.ConservesIff`). Lists without repetitions always meet this. The API also accepts lists with
  repetitions: results of the sandbox executor meet it on those too, because rewards are looked up by id
  (`ExecutedAttempts.SandboxDeltasConserve`); simulated results meet it unless two copies of an unlucky id lie on the
  two sides of the boost boundary (`ExecutedAttempts.SimulatedDeltasConserveIff`).
  `ExecutedAttempts.UnexplainedDeltaIsShown` is a simulated run whose optimizer is shown such deltas.
- With fractional rewards a benchmark that passes everything can lose to an earlier one and even be reported as
  "no improvement": `RunTheorems.FractionalRewardsCanLose` is such a run, and the sandbox executor can produce it
  (`ExecutedAttempts.FractionalTurnsAreSandboxed`). If passed tasks earn between lo and hi and others at most f, a full
  pass over n tasks always wins exactly when n * lo > (n - 1) * hi + f (`Benchmark.FullPassAlwaysBeatsIff`), which
  rewards zero and one meet for every n and rewards up to one with the pass mark at one half for a single task at most.
- The service's offline configuration ends where its settings say, and when the template carries the verification
  phrase and its edit gains, it ends in iteration 1 (`OfflineRun.OfflineEndIs`).
- `_clip_tail` exceeds its limit exactly when it cuts with a limit not above the length of its notice, where Python's
  `text[-0:]` is the whole text (`Text.ClipTailMeetsLimit`).
- The statement behind the loop (`app/worker/processor.py:358`) is never reached: the last iteration always stops by
  itself (`JobProcessor.OptimizationRun.RunLoop`).

## Model

| member | source | states |
|---|---|---|
| RunSpec.BestIsEarliestMaximum | app/worker/processor.py:87-93 | the best version is the earliest one with the highest score among all iterations judged so far |
| RunSpec.AcceptedIffRecord | app/worker/processor.py:195-217 | an iteration is accepted exactly when it beats every iteration before it |
| RunSpec.EndFrom | app/worker/processor.py:95-358 | every run ends, at an iteration numbered at most `max_iterations` that it reaches and that has a reason to stop |
| RunSpec.EndIs | app/worker/processor.py:95-358 | the iteration in which a run ends is unique: the one it reaches and does not survive |
| JobProcessor.OptimizationRun.Judge | app/worker/processor.py:181-217 | the separate updates of best version, best score, best failures, best results, the two job columns and the patience counter in each branch keep all of them those of the earliest maximum, the counter being the distance from it |
| JobProcessor.OptimizationRun.JudgeIteration | app/worker/processor.py:160-238 | the judged row has score, results and acceptance of its own benchmark, and the attempt record compares it with the best before it |
| JobProcessor.OptimizationRun.StopTests | app/worker/processor.py:240-250 | the reason is "no improvement" exactly when patience is used up, else "all tasks passed" exactly when there are results and each has passed, else "max iterations" exactly at the limit, and no other |
| JobProcessor.OptimizationRun.BenchmarkPhase | app/worker/processor.py:96-250 | two cancellation checks around the benchmark; a benchmark found cancelled or raised changes neither best version nor score |
| JobProcessor.OptimizationRun.CallOptimizer | app/worker/processor.py:252-268 | the optimizer is shown text, failures, results and score of the best version, and the learning log of all proposals so far |
| JobProcessor.OptimizationRun.ConcludeProposal | app/worker/processor.py:279-329 | the proposal is recorded in row and log; an unchanged one stops the run, any other becomes the next version, child of the best one |
| JobProcessor.OptimizationRun.AddVersion | app/services/agent_versions.py:15-37 | the new row continues the gapless numbering and names the best version as its parent |
| JobProcessor.OptimizationRun.RunIteration | app/worker/processor.py:95-329 | one pass of the loop either ends the run for the first applicable reason or establishes the loop's state for the next iteration |
| JobProcessor.OptimizationRun.RunLoop | app/worker/processor.py:64-358 | the loop with its running variables ends where the specification says, with the same versions, iteration rows, optimizer calls, learning log and best version, and never by exhausting its range |
| JobProcessor.OptimizationRun.Process | app/worker/processor.py:32-62 | of a queued or running job the whole account is true: why it ended completed, failed with the exception's message, or cancelled, and what all its rows, versions, calls and log entries say; a job found cancelled gets its stop reason filled in, and any other job is left alone |
| RunAccount.EndIsTold | app/worker/processor.py:240-250 | status, stop reason and error against the last turn: "all tasks passed" iff patience is not used up and every one of some results passed, "max iterations" iff patience is not used up, not all passed and the limit is reached, "no improvement" iff patience is used up or the recorded answer has the text of the leading version, "cancelled" and "error" iff a check saw a cancel or a call raised |
| RunAccount.RunIsTold | app/worker/processor.py:64-358 | every run goes on exactly behind answers with a new text, ends as told, and each row, version, call, log entry and the best version say what the turns they belong to say |
| AccountUniqueness.AccountIsComplete | app/worker/processor.py:64-358 | the account leaves nothing open: two records of which it is true, on the same turns, are equal |
| AccountUniqueness.AccountIsTheRun | app/worker/processor.py:64-358 | the account is true of a record if and only if it is the one the run leaves |
| RunTheorems.RowsAreGapless | app/worker/processor.py:102-116 | iteration rows are numbered from zero without gaps, each runs the version of its own number, and acceptance marks exactly the strict records |
| RunTheorems.VersionsAreGapless | app/worker/processor.py:317-327 | versions are numbered without gaps, and iteration k is the creator of version k + 1 and of no other |
| RunTheorems.AcceptedAreLineageOfBest | app/worker/processor.py:195-217 | up to any iteration the accepted versions are the best one and its ancestors, no more and no fewer |
| RunTheorems.ScoresFallAlongLineage | app/worker/processor.py:306-327 | from an accepted version along the stored parent numbers, numbers and scores strictly fall until the baseline |
| RunTheorems.VersionsDifferFromParents | app/worker/processor.py:306-325 | every version's text differs from that of its parent, whose number is lower |
| RunTheorems.EvidenceIsCoherent | app/worker/processor.py:252-268 | every optimizer call of a run shows the stored text of one version with the results and score stored in the very row that accepted it, the failures among them, and a log with one entry for each earlier call; it is the earliest version with the highest score |
| RunTheorems.AttemptIsCoherent | app/worker/processor.py:195-236 | the attempt a call of a run shows pairs the stored row just judged with the row that accepted the version its candidate was made from: scores, verdict and results are those of the two rows, the diff that of the version row, and each delta tells id, status and reward after from the candidate's row and before from the last of the parent's results under that id |
| RunTheorems.ShownDeltasExplainScoreIff | app/worker/processor.py:365-405 | with all rewards present the deltas a call shows average to the score delta it shows exactly when looking the ids up in the parent's stored results adds up to their total |
| RunTheorems.BestComesEarly | app/worker/processor.py:197-250 | with rewards zero and one, each benchmark task gained buys at most `patience` iterations |
| RunTheorems.RunIsShort | app/worker/processor.py:95-250 | with rewards zero and one over n tasks a run has at most 1 + min(max_iterations, n * patience) iterations |
| RunTheorems.AllPassedWinsIff | app/worker/processor.py:197-246 | a run whose last judged benchmark passes everything reports that version as best exactly when its score beats all earlier ones, and then stops for that reason |
| RunTheorems.GradedAllPassedWins | app/worker/processor.py:197-246 | with rewards in bands that separate a full pass is accepted and patience never masks it |
| RunTheorems.BinaryAllPassedWins | app/worker/processor.py:197-246 | with rewards zero and one this is always so: a full pass is accepted with score one and patience never masks it |
| RunTheorems.FractionalRewardsCanLose | app/executor/harbor.py:206-226 | a run with fractional rewards in which the full pass loses to the baseline and patience one masks it |
| ExecutedAttempts.FractionalTurnsAreSandboxed | app/executor/harbor.py:196-227 | the sandbox executor can report the two results of that run |
| RunLog.LogTextEvolves | app/worker/processor.py:297-304 | the stored log text changes by one append for each recorded proposal, and its prompt window is that of the uncut log |
| RunResults.SavedResultsAreComplete | app/services/agent_versions.py:57-80 | when each benchmark was run by either executor and the store keeps cancels, every row with a score has one result per task id, in order, and a row without a score has none |
| OfflineRun.OfflineRunIsShort | app/worker/processor.py:95-329 | with heuristic optimizer and simulated benchmark only the first proposal can be accepted, and the run ends within patience + 1 iterations |
| OfflineRun.OfflineEndIs | app/worker/processor.py:95-329 | an uncancelled offline run ends at 0 when the template passes everything or the edit adds nothing; otherwise at min(max_iterations, patience) when the edit does not gain, at 1 when it gains and passes everything or the phrase is present, and at min(max_iterations, patience + 1) when not |
| OfflineRun.OfflineRunsExist | app/optimizer.py:274-296 | for every setting, template and list of tasks there is a run of this kind |
| OfflineRun.OfflineRunsAreExecuted | app/executor/simulated.py:21-92 | the benchmarks of such a run meet the executor's contract with no check answering yes |
| OfflineRun.PhraseEndsRunAtOne | app/optimizer.py:290-296 | offline, a template that contains the verification phrase and gains from the first edit leaves nothing to propose in iteration 1 |
| OfflineRun.PhraseRunExists | app/optimizer.py:639-660 | a run that the phrase ends in iteration 1 for any limits: four unlucky tasks and a template with one HarnessAgent class, its two methods and the phrase in its docstring |
| JobProtocol.NextKeepsInv | app/worker/worker.py:57-70 | every step of submits, cancels, claims and the processor keeps the invariant that ties each row to the worker's position and copy |
| ProtocolTheorems.StatusNeverGoesBack | app/worker/processor.py:33-62 | under every interleaving a finished job is never queued or running again, and a running one never queued |
| ProtocolTheorems.ClaimsFollowSubmission | app/worker/worker.py:57-70 | no job is claimed twice, and jobs stored in the order of their creation times are claimed in that order |
| ProtocolTheorems.ClaimsTakeOldest | app/worker/worker.py:57-70 | at every claim, in whatever order the rows are stored, no waiting job is older than the one taken, and so none that is there then and taken later |
| ProtocolTheorems.CancelledOnlyOnRequest | app/api/jobs.py:168-181 | a job is cancelled only behind a request that found it queued or running and committed later |
| ProtocolTheorems.CancelBoundsReaction | app/worker/processor.py:96-277 | after a committed cancel at most one further benchmark or optimizer call begins and at most one iteration or version row is added |
| ProtocolTheorems.SeenCancelIsFinal | app/worker/processor.py:147-157 | once the processor has read the cancel the row says cancelled by the user in every later state |
| ProtocolTheorems.IdleRowsAreSettled | app/worker/processor.py:48-62 | a job nobody works on is untouched or finished, and status and reason of cancelled and failed rows agree |
| ProtocolTheorems.FinishedStatusChangesIff | app/worker/processor.py:50-62 | a finished job's status changes exactly by a late cancel, which makes it cancelled, or by a last commit over an unread cancel, which makes it completed or failed |
| ProtocolTheorems.CancelOutlivesRunIff | app/worker/processor.py:50-62 | at the commit that ends the processing, normal or failing, a committed cancel stays exactly when the processor has read it |
| ProtocolTheorems.RowsDisagreeIff | app/worker/processor.py:306-315 | the last commit yields a completed row with reason cancelled exactly behind an unchanged proposal with a cancel in between |
| ProtocolTheorems.LateCancelOverwrites | app/api/jobs.py:168-181 | a cancel request that found its job unfinished makes it cancelled whatever has been stored since |
| ProtocolTheorems.ExecutorsMayReport | app/worker/processor.py:135-146 | whatever either executor reports under its contract, with answers that came from the store, is a step of the protocol |
| ProtocolTheorems.SavedResultsAreComplete | app/worker/processor.py:147-160 | in every reachable state every saved result has one result per task id of its job, in order, and a benchmark told to stop was found cancelled |
| ProtocolTheorems.CutBenchmarkIsNotSaved | app/worker/processor.py:135-157 | no call, row or saved result follows a benchmark that was cut short: the check behind it sees the cancel, unless an exception ends the run |
| ProtocolRuns.FinishedJobsAreRuns | app/worker/processor.py:32-358 | every finished job of every interleaving has ended where the specification ends on the turns it met, after as many calls and with as many rows, with its saved results and its final row, and the whole account of that run is true; a row differs only by a cancel that went unread, which took it or left its reason in a row completed behind an unchanged proposal; the store had not failed |
| ProtocolRuns.CancelsStickInEveryRun | app/worker/processor.py:135-157 | in every job of every interleaving a cancel that a check inside the benchmark has seen is seen by the check behind it |
| ProtocolRuns.StoredRowsAreComplete | app/services/agent_versions.py:57-80 | in every reachable state every saved result, that of the turn in progress included, has one result per task id, in order; each row with a score holds the saved result of its iteration, the others none |
| RunsInProtocol.RunIsProtocolRun | app/worker/processor.py:32-358 | each run of the specification whose benchmarks keep the executors' contract is a run of the protocol with the same final row and saved results and as many calls and added rows, and on the turns it meets the specification gives the same iteration rows, versions and optimizer calls |
| ProtocolWitnesses.RowsCanDisagree | app/worker/processor.py:306-315 | a run that ends with a completed job whose reason says cancelled |
| ProtocolWitnesses.CompletedCanBecomeCancelled | app/api/jobs.py:168-181 | a run that completes a job which the next action makes cancelled |
| ProtocolWitnesses.CancelledCanBecomeFailed | app/worker/processor.py:56-61 | a run in which a job is cancelled and the next action makes it failed |
| ProtocolWitnesses.CancelIsUndoneWithoutClaim | app/worker/worker.py:66-69 | with a worker that does not claim, a run in which a cancelled job is running again |
| Text.SpacesListed | app/worker/processor.py:418-419 | the whitespace that is stripped is exactly these 29 characters |
| Text.StripDropsOnlySpace | app/worker/processor.py:416-420 | stripping takes whitespace off the two ends and nothing else, and leaves nothing exactly of a blank text |
| LearningHistory.EntryReads | app/worker/processor.py:416-420 | an entry shows, behind their own labels, two numbers that read back as iteration and source version, and rationale and learnings without outer whitespace, or "(none)" exactly for a blank one |
| LearningHistory.FullSplits | app/worker/processor.py:421-425 | behind any entry the uncut log splits into two logs a blank line apart |
| LearningHistory.StoredIsWindowOnFull | app/worker/processor.py:408-425 | after any run of appends the stored log is the uncut log, or the marker and exactly its last characters that have room; never more than 16000 |
| LearningHistory.PromptWindowIsLossless | app/optimizer.py:632-636 | clipping the stored log for the prompt equals clipping the uncut log |
| Text.ClipTailKeepsEnd | app/optimizer.py:632-636 | an over-long text shows behind the notice as much of its end as fills the limit, any other text itself |
| Text.ClipTailMeetsLimit | app/optimizer.py:632-636 | the clipped tail meets its limit exactly when nothing is cut or the limit is above the length of the notice |
| LearningHistory.NewestEntrySurvives | app/worker/processor.py:421-425 | the newest entry is the end of the stored log whenever it has room beside the marker |
| JsonText.EscapeReadsBack | app/optimizer.py:499-500 | the JSON text of a string, in the grammar of section 7 of RFC 8259 with ASCII output and surrogate pairs, reads back as the string |
| EvidenceWindows.PackSteps | app/optimizer.py:496-510 | the greedy loop that stops at the first misfit yields the longest window that fits, with the note when that still fits |
| EvidenceWindows.PackedPacksWell | app/optimizer.py:496-510 | read by its ends, the packed list has the kept steps of the preferred end and, at the other, at most one remark that counts the missing ones, there exactly when steps are missing and the longer list still fits |
| EvidenceWindows.StepIsTold | app/optimizer.py:475-494 | a step has role, content, at most eight tool calls and the call it answers, each text its whole source or a prefix cut to 200, 300, 400 or 600 characters, and nothing the message lacks |
| EvidenceWindows.FormattedTells | app/optimizer.py:449-510 | a list of messages, bare or under the first of two keys that holds anything, becomes the most of its steps that fit and the remark; anything else a cut of its JSON; no trace the empty text |
| EvidenceWindows.FormatTrace | app/optimizer.py:449-510 | absent, unpackable and packable traces, and the steps of each message |
| EvidenceWindows.PackingIsOptimal | app/optimizer.py:496-510 | the packed trace is within the limit exactly when the limit is at least 2, is whole exactly when everything fits, and a window fits exactly when it is no longer than the one kept |
| EvidenceWindows.FormattedMeetsLimit | app/optimizer.py:461-510 | whatever the trace, the text or the JSON of the list meets every limit from 2 on |
| EvidenceWindows.FitContextBudget | app/optimizer.py:371-397 | the section loop with its counter of omitted records: kept and omitted make up the input |
| EvidenceWindows.FittedKeepsAt | app/optimizer.py:376-390 | each kept record entered behind the ones before it as it is or, when its JSON exceeded the room, with its trace as JSON text, whole or a prefix and an ellipsis of max(80, room - 160) characters; every other record found no more than 80 characters of room or did not fit in that form |
| EvidenceWindows.SectionIsKeptAndNote | app/optimizer.py:392-396 | the section is what is kept and, when records are missing and it fits, the remark that counts them |
| EvidenceWindows.SectionIsWithinBudget | app/optimizer.py:371-397 | with its note the section is within any budget above 2 |
| EvidenceWindows.FittedSelects | app/optimizer.py:376-390 | the kept records are a selection of the input in order, changed at most in their traces |
| EvidenceWindows.KeepsEverythingIff | app/optimizer.py:376-390 | the kept records are the input exactly when the whole fits and every proper prefix leaves more than 80 characters |
| EvidenceWindows.SectionPassesUntouchedIff | app/optimizer.py:371-397 | the returned section is the input exactly when the whole fits and every proper prefix leaves more than 80 characters, or all but the last do and the last record is the very note that replaces it |
| HeuristicEdits.InjectInserts | app/optimizer.py:328-336 | replacing the first marker, rejoining the split parts and appending all insert one piece at one point |
| HeuristicEdits.ProposeEdits | app/optimizer.py:274-296 | the guarded edits, all guards on the agent as it came in; the rationale names the changes and is empty exactly when nothing changed |
| HeuristicEdits.EditIsTold | app/optimizer.py:274-336 | the edited agent is the one text made by inserting the three sentences, each if the incoming agent lacks its phrases, in front of the first closing sentence, else in front of the second triple quotes, else at the end on a new line |
| HeuristicEdits.EditOnlyInserts | app/optimizer.py:274-296 | taking out three pieces gives the agent back, and nothing changes exactly when no guard asks for an edit |
| HeuristicEdits.EditKeeps | app/optimizer.py:274-296 | no phrase without the letters that begin marker and quotes is broken by the edit |
| HeuristicEdits.EditSettlesPlanAndMode | app/optimizer.py:277-288 | after the edit the planning and mode guards ask for nothing more |
| HeuristicEdits.EditIsIdempotentIff | app/optimizer.py:274-296 | editing twice is editing once exactly for agents that contain the verification phrase |
| HeuristicEdits.EditsLandBeforeMarker | app/optimizer.py:328-331 | with the closing marker present the needed lines land in order right in front of it |
| SimulatedExecutor.RunBenchmark | app/executor/simulated.py:21-92 | the results in front of the first positive cancellation check, all of them without one, scored by their mean |
| SimulatedExecutor.TaskPassesIff | app/executor/simulated.py:29-50 | a reported task passes if and only if its id is lucky or it is the first, second or third task and the agent has phrases of one, two or all three kinds; reward one or zero accordingly |
| SimulatedExecutor.ReportsAllUnlessTold | app/executor/simulated.py:41-44 | the report is complete exactly when no check that was made answered yes |
| SimulatedExecutor.EditEarnsEveryBoost | app/executor/simulated.py:29-36 | one heuristic edit earns all three boosts, whatever the agent was |
| SimulatedExecutor.EditNeverLowersScore | app/executor/simulated.py:41-82 | an edited agent passes every benchmark task any agent passes and scores no less |
| SimulatedExecutor.ResultIsBinary | app/executor/simulated.py:52-82 | an uncut simulated run has one result per id, in order, rewards zero and one and their mean as score |
| HarborExecutor.Watch | app/executor/harbor.py:140-157 | the polling loop ends for the reason given by its first decisive round, an exit before a cancel before the deadline |
| HarborExecutor.RunSync | app/executor/harbor.py:73-227 | nothing is reported exactly when a check cut the run short; otherwise one result per id in order, classified when the subprocess left results, infrastructure errors when not |
| HarborExecutor.VerdictIsTold | app/executor/harbor.py:73-227 | given the first decisive round, a report is possible if and only if it is empty for a run that was stopped and otherwise gives each task, in order, its reward from a scored run or none, infrastructure error iff none, passed iff at least one half |
| HarborExecutor.ReportsAllUnlessTold | app/executor/harbor.py:90-224 | without a yes from a check that was made the report is complete, and after one it is empty unless the output could not be collected |
| ExecutorContract.ReportsAllUnlessTold | app/executor/base.py:33-41 | what the processor may rely on with any executor: one result per task id, in order, unless a check answered yes |
| HarborExecutor.InfraFailureScoresItsMean | app/executor/harbor.py:243-262 | the zero score of a failed run is the mean of its rewards |
| LiveProgress.ReadProgress | app/executor/harbor.py:320-350 | pending and running lists from the directories; nothing is reported before some directory shows work |
| LiveProgress.OneMoreId | app/executor/harbor.py:346-350 | a filtered list keeps the ids in their order, with repetitions |
| LiveProgress.CompletedMeansFinished | app/services/jobs.py:109-112 | the API recovers exactly the finished tasks, in order, from the two published lists |
| JobViews.ProposedVersions | app/services/jobs.py:71-85 | for rows in any order, the highest version each iteration created, and no other iteration |
| JobViews.RunProposesNext | app/services/jobs.py:71-85 | for the versions of a run this is k + 1 for iteration k, and nothing for the last one |
| JobViews.OutcomeIdsByIteration | app/services/jobs.py:54-68 | for result rows in any mixture, the three lists of ids by outcome, in order, for each wanted iteration that has results and no other |
| JobViews.OutcomesFollowRows | app/services/jobs.py:54-68 | one more row of a wanted iteration appends its task to the list of its status, any other row changes nothing, and an iteration is shown exactly when it is wanted and has a row |
| JobViews.LiveSummaryIsProgress | app/services/jobs.py:88-120 | while no result is stored the summary shows the published lists and the finished tasks as completed |
| JobViews.SummaryAccountsForEveryTask | app/services/jobs.py:88-120 | once results are stored, completed lists each id as often as the job does and is made of the three outcome lists |
| OptimizerInput.BothCallsAgree | app/optimizer.py:100-107 | sorting all results and sorting the processor's list of failures give the same evidence |
| OptimizerInput.PartitionSorts | app/optimizer.py:100-103 | with all results at hand each result goes into the list of its status as often as it is there, and into no other |
| OptimizerInput.HeuristicFindsTheFailures | app/optimizer.py:249 | from the joined list the heuristic picks exactly the failures again |
| RecentAttempts.BuildRecentAttempt | app/worker/processor.py:365-405 | the record of an attempt, parents looked up by id with later results replacing earlier ones |
| RecentAttempts.DeltasTellChanges | app/worker/processor.py:376-393 | one delta per candidate, with its id, its status and reward as those after, those of the last parent result under the id as those before, none when there is none, and the difference of two present rewards |
| RecentAttempts.ConservesIff | app/worker/processor.py:376-402 | the deltas of a call average to its score delta exactly when looking the ids up in the parent's results adds up to the parent's total |
| RecentAttempts.DeltasConserveScoreIff | app/worker/processor.py:376-402 | the lists of ids on which they do so whatever the rewards are those without a repetition |
| ExecutedAttempts.SandboxDeltasConserve | app/executor/harbor.py:196-226 | against results of the sandbox they do so on every list, with or without repetitions |
| ExecutedAttempts.SimulatedDeltasConserveIff | app/executor/simulated.py:41-82 | against simulated results they do so exactly when no two copies of an unlucky id lie on the two sides of the boost boundary |
| ExecutedAttempts.UnexplainedDeltaIsShown | app/worker/processor.py:226-268 | a simulated run over copies of one id whose second optimizer call shows deltas that do not explain its score delta |
| Benchmark.EachPassedMeans | app/executor/base.py:28-30 | all passed means that every single result has the status passed |
| Benchmark.OneMoreTask | app/worker/processor.py:186 | the lists of tasks with and without a status keep the order: one more task extends exactly one of them |
| Benchmark.ScoreIsMean | app/executor/simulated.py:82 | the score times the number of tasks is the sum of the rewards, a missing one counting as zero, and zero without tasks |
| Benchmark.FullPassAlwaysBeatsIff | app/executor/base.py:28-30 | with rewards in bands a full pass beats every other result exactly when n * lo > (n - 1) * hi + f |
| Benchmark.BinaryAllPassed | app/executor/base.py:28-30 | with rewards zero and one everything passed exactly when the score is one |

## Left out

- ProtocolTheorems.ClaimsFollowSubmission: the order of claims is stated for jobs stored in the order of their creation times, since a creation time can be taken before another request's commit; `ClaimsTakeOldest` holds without this.
- HarborExecutor.RunSync: exceptions outside its own handlers (repository checkout, writing the agent, an answer of the cancellation check that times out, unreadable artifacts) leave the function and count as a benchmark that raised in `RunSpec`.
- RunTheorems.RunIsShort: patience of at least one, which is what the API admits; without any task the bound is patience alone.
- JobProcessor.OptimizationRun.Process: starts from a job without rows of an earlier run; recovery of jobs left running is not implemented in the service either.
- Database errors at the processor's first and last commit; elsewhere they end the run and mark the job as failed by the store, and such jobs match no run of `RunSpec`. Several workers, and the worker's stop flag and waiting between polls.
- A submit is one step of the protocol; the row appears with its creation time.
- Floating point: scores and rewards are real numbers.
- Lower-casing maps ASCII letters and leaves all other characters alone.
- A unified diff is represented by the two texts it compares; hashes, identifiers and timestamps other than the creation time are absent.
- The failure summaries, traces and verifier payloads of task results, logs and progress callbacks during a run.
- JSON numbers carry their printed text; values that are not JSON and reach `default=str` are absent. Python's `str` is a parameter.
- The job's learnings column is a list of entries in `RunSpec` and `JobProcessor`; `RunLog` ties it to the text.
- The iteration in progress is a field of its own in `OptimizationRun`; calls of the optimizer are a ghost field.
- Validation of proposed agents, the choice between language model and heuristic, and the repair of answers: a proposal is any text, or an exception.
- Assembly of the prompt, `build_task_context`, `summarize_verifier` and `fit_recent_attempt`: the code bounds these only by a final size check that raises.
- Subprocess handling, signals, the workspace on disk, git and the sandbox provider.
- FastAPI routing, schemas, authentication, roles and organizations.
