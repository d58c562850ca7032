/** The text of a run's learning log. */
module RunLog {
  import opened Text
  import opened RunSpec
  import LearningHistory

  function LogText(w: World, n: nat): string {
    LearningHistory.Stored(LearningHistory.Entries(LessonsAfter(w, n)))
  }

  /** The job's learnings column evolves by one append for each recorded proposal, and what the optimizer sees
      of it in call `n` is what it would see of the log with nothing ever cut. */
  lemma LogTextEvolves(w: World, n: nat)
    ensures LogText(w, 0) == ""
    ensures LogText(w, n + 1) == LearningHistory.Append(LogText(w, n), LessonAt(w, n))
    ensures ClipTail(LogText(w, n), LearningHistory.PROMPT_CHARS)
         == ClipTail(LearningHistory.Full(LearningHistory.Entries(LessonsAfter(w, n))), LearningHistory.PROMPT_CHARS)
  {
    hide LearningHistory.Append, LessonAt;
    LearningHistory.StoredGrowsByAppend(LessonsAfter(w, n), LessonAt(w, n));
    LearningHistory.PromptWindowIsLossless(LessonsAfter(w, n));
  }
}

/** What is saved of a run's benchmarks. */
module RunResults {
  import opened Benchmark
  import opened RunSpec
  import ExecutorContract

  /** Every benchmark that returned was run by one of the executors. */
  predicate ExecutedBy(w: World, taskIds: seq<string>, executions: seq<ExecutorContract.Execution>) {
    && |executions| == |w|
    && forall i | 0 <= i < |w| && w[i].bench.Returned? ::
         ExecutorContract.Reports(executions[i], taskIds, w[i].bench.value)
  }

  /** The store keeps a cancel: when a check inside a benchmark has seen it, so does the check behind the benchmark.
      `ProtocolRuns.CancelsStickInEveryRun` derives this for every job of every interleaving. */
  predicate CancelsStick(w: World, taskIds: seq<string>, executions: seq<ExecutorContract.Execution>)
    requires ExecutedBy(w, taskIds, executions)
  {
    forall i | 0 <= i < |w| && w[i].bench.Returned? ::
      ExecutorContract.Told(executions[i], taskIds, w[i].bench.value) ==> w[i].cancelledAfterBench
  }

  /** Only a benchmark that is then found cancelled misses a result. */
  predicate ShortOnlyWhenCancelled(w: World, taskIds: seq<string>) {
    forall i | 0 <= i < |w| ::
      w[i].bench.Returned? && !Complete(w[i].bench.value, taskIds) ==> w[i].cancelledAfterBench
  }

  lemma ExecutorsKeepWord(w: World, taskIds: seq<string>, executions: seq<ExecutorContract.Execution>)
    requires ExecutedBy(w, taskIds, executions) && CancelsStick(w, taskIds, executions)
    ensures ShortOnlyWhenCancelled(w, taskIds)
  {
    forall i | 0 <= i < |w| && w[i].bench.Returned?
      ensures !Complete(w[i].bench.value, taskIds) ==> w[i].cancelledAfterBench
    {
      ExecutorContract.ReportsAllUnlessTold(executions[i], taskIds, w[i].bench.value);
    }
  }

  /** Every row with a score then carries one result per task id, in the order of the job's list, and every row
      without a score carries none. */
  lemma CompleteRows(c: Config, w: World, taskIds: seq<string>, k: nat)
    requires ShortOnlyWhenCancelled(w, taskIds) && k < |IterationRows(c, w)|
    ensures var row := IterationRows(c, w)[k];
            if row.valScore.Some? then Complete(BenchmarkResult(row.results, row.valScore.value), taskIds)
            else row.results == []
  {
    hide AttemptAt, Best;
    if k < End(c, w) {
      ReachesSurvives(c, w, End(c, w), k);
      ProposedRowsAt(c, w, End(c, w), k);
    }
  }

  /** Main result: whichever executors run the benchmarks, in one job or in turns, every row with a score carries
      one result per task id, in order, and a benchmark that was cut short leaves none. */
  lemma SavedResultsAreComplete(c: Config, w: World, taskIds: seq<string>,
                                executions: seq<ExecutorContract.Execution>, k: nat)
    requires ExecutedBy(w, taskIds, executions) && CancelsStick(w, taskIds, executions)
    requires k < |IterationRows(c, w)|
    ensures var row := IterationRows(c, w)[k];
            if row.valScore.Some? then Complete(BenchmarkResult(row.results, row.valScore.value), taskIds)
            else row.results == []
  {
    ExecutorsKeepWord(w, taskIds, executions);
    CompleteRows(c, w, taskIds, k);
  }
}
