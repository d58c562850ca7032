/** What a run does, told of its turns and of the rows it leaves, with none of the functions of RunSpec that compute
    them: when it goes on, why it ends, and what every row, version, call and log entry says. */
module RunAccount {
  import opened Wrappers
  import opened Benchmark
  import opened RecentAttempts
  import opened RunSpec
  import opened RunTheorems
  import opened Lessons

  // ---- What happens in a turn ----

  /** The benchmark of turn `i` was run and kept. */
  predicate Measured(w: World, i: nat) {
    i < |w| && !w[i].cancelledBefore && w[i].bench.Returned? && !w[i].cancelledAfterBench
  }

  function ScoreIn(w: World, i: nat): real { if Measured(w, i) then w[i].bench.value.valScore else 0.0 }

  function TasksIn(w: World, i: nat): seq<TaskExecution> { if Measured(w, i) then w[i].bench.value.tasks else [] }

  /** Version `b` is the first with the highest score among the versions 0..i. */
  predicate Leads(w: World, i: nat, b: nat) {
    && b <= i
    && (forall j | 0 <= j <= i :: ScoreIn(w, j) <= ScoreIn(w, b))
    && (forall j | 0 <= j < b :: ScoreIn(w, j) < ScoreIn(w, b))
  }

  /** None of the last `patience` iterations has brought a new leader. */
  predicate Exhausted(c: Config, i: nat, b: nat) { i > 0 && i >= b + c.patience }

  predicate FullPass(w: World, i: nat) {
    TasksIn(w, i) != [] && forall t | t in TasksIn(w, i) :: t.status == Passed
  }

  /** Turn `i` gets as far as the optimizer. */
  predicate Asks(c: Config, w: World, i: nat, b: nat) {
    Measured(w, i) && !Exhausted(c, i, b) && !FullPass(w, i) && i < c.maxIterations
  }

  /** The optimizer's answer is recorded. */
  predicate Answered(c: Config, w: World, i: nat, b: nat) {
    Asks(c, w, i, b) && w[i].propose.Returned? && !w[i].cancelledAfterProposal
  }

  /** The text of a version: the template, or what the optimizer proposed in the turn before. */
  function TextOf(c: Config, w: World, v: nat): string {
    if 0 < v <= |w| && w[v - 1].propose.Returned? then w[v - 1].propose.value.content else c.template
  }

  predicate CutInBenchmark(w: World, i: nat) {
    i < |w| && !w[i].cancelledBefore && w[i].bench.Returned? && w[i].cancelledAfterBench
  }

  predicate CutInProposal(c: Config, w: World, i: nat, b: nat) {
    Asks(c, w, i, b) && w[i].propose.Returned? && w[i].cancelledAfterProposal
  }

  predicate BenchmarkFails(w: World, i: nat) { i < |w| && !w[i].cancelledBefore && w[i].bench.Raised? }

  predicate ProposalFails(c: Config, w: World, i: nat, b: nat) { Asks(c, w, i, b) && w[i].propose.Raised? }

  // ---- When a run goes on, and how it ends ----

  /** The run goes on behind turn `i`: the answer is a new text. */
  predicate GoesOn(c: Config, w: World, i: nat, b: nat) {
    Leads(w, i, b) && Answered(c, w, i, b) && w[i].propose.value.content != TextOf(c, w, b)
  }

  /** How a job ends whose run ends in turn `n`; version `b` leads there, if the turn was measured. */
  predicate Ends(c: Config, w: World, n: nat, b: nat, status: JobStatus, reason: StopReason, error: Option<string>) {
    && (Measured(w, n) ==> Leads(w, n, b))
    && (status == Completed || status == JobFailed || status == JobCancelled)
    && (status == JobCancelled <==>
          n >= |w| || w[n].cancelledBefore || CutInBenchmark(w, n) || CutInProposal(c, w, n, b))
    && (status == JobFailed <==> BenchmarkFails(w, n) || ProposalFails(c, w, n, b))
    && (reason == Cancelled <==> status == JobCancelled) && (reason == Error <==> status == JobFailed)
    && (reason == AllTasksPassed <==> Measured(w, n) && !Exhausted(c, n, b) && FullPass(w, n))
    && (reason == MaxIterations <==>
          Measured(w, n) && !Exhausted(c, n, b) && !FullPass(w, n) && n == c.maxIterations)
    && (reason == NoImprovement <==>
          || (Measured(w, n) && Exhausted(c, n, b))
          || (Answered(c, w, n, b) && w[n].propose.value.content == TextOf(c, w, b)))
    && (BenchmarkFails(w, n) ==> error == Some(w[n].bench.message))
    && (ProposalFails(c, w, n, b) ==> error == Some(w[n].propose.message))
    && (status != JobFailed ==> error == None)
  }

  /** Every turn in front of the last one goes on, and the last one ends the run like this. */
  predicate CourseTold(c: Config, w: World, n: nat, leads: seq<nat>, status: JobStatus, reason: Option<StopReason>,
                       error: Option<string>) {
    && n <= c.maxIterations && |leads| == n + 1
    && (forall i | 0 <= i < n :: GoesOn(c, w, i, leads[i]))
    && reason.Some? && Ends(c, w, n, leads[n], status, reason.value, error)
  }

  // ---- What it leaves ----

  /** What the benchmark of turn `k` puts into its row: score, results, and whether it beats all before it. */
  predicate ResultTold(w: World, k: nat, valScore: Option<real>, results: seq<TaskExecution>, accepted: Option<bool>) {
    if Measured(w, k) then
      && valScore == Some(ScoreIn(w, k)) && results == TasksIn(w, k)
      && accepted == Some(forall j | 0 <= j < k :: ScoreIn(w, j) < ScoreIn(w, k))
    else valScore == None && results == [] && accepted == if k == 0 then Some(true) else None
  }

  /** The row of iteration `k`. */
  predicate RowTold(c: Config, w: World, k: nat, lead: nat, row: Iteration) {
    && row.iterationNo == k && row.versionNo == k
    && ResultTold(w, k, row.valScore, row.results, row.accepted)
    && (row.phase == RunningBenchmark <==> BenchmarkFails(w, k))
    && (row.phase == Proposing <==> ProposalFails(c, w, k, lead))
    && (row.phase == PhaseFailed <==> row.error.Some?)
    && (row.error == Some(CancelledDuringBenchmark) <==> CutInBenchmark(w, k))
    && (row.error == Some(CancelledDuringProposal) <==> CutInProposal(c, w, k, lead))
    && (row.context.Some? <==> Answered(c, w, k, lead))
    && (row.context.Some? ==> row.context.value.0 == lead && (row.context.value.1.None? <==> k == 0))
  }

  /** One row for each turn that was not cancelled before its benchmark. */
  predicate RowsTold(c: Config, w: World, n: nat, leads: seq<nat>, rows: seq<Iteration>)
    requires |leads| == n + 1
  {
    && |rows| == (if n < |w| && !w[n].cancelledBefore then n + 1 else n)
    && forall k | 0 <= k < |rows| :: RowTold(c, w, k, leads[k], rows[k])
  }

  /** The template, and one version for each turn in front of the last one, made from the version that led there. */
  predicate VersionsTold(c: Config, w: World, n: nat, leads: seq<nat>, versions: seq<AgentVersion>)
    requires |leads| == n + 1
  {
    && |versions| == n + 1 && versions[0] == AgentVersion(0, None, c.template, NoDiff, None)
    && forall v | 0 < v <= n ::
         versions[v] == AgentVersion(v, Some(leads[v - 1]), TextOf(c, w, v),
                                     Between(TextOf(c, w, leads[v - 1]), TextOf(c, w, v)), Some(v - 1))
  }

  /** One call for each turn that asks: about the leading version, with the log as it stood. */
  predicate CallTold(c: Config, w: World, k: nat, lead: nat, learnings: seq<Lesson>, call: ProposeCall) {
    && call.iterationNo == k && call.sourceVersionNo == lead && call.agent == TextOf(c, w, lead)
    && call.allTasks == TasksIn(w, lead) && call.failing == Without(TasksIn(w, lead), Passed)
    && call.valScore == ScoreIn(w, lead)
    && k <= |learnings| && call.learnings == learnings[..k] && (call.attempt.None? <==> k == 0)
  }

  predicate CallsTold(c: Config, w: World, n: nat, leads: seq<nat>, learnings: seq<Lesson>, calls: seq<ProposeCall>)
    requires |leads| == n + 1
  {
    && |calls| == (if Asks(c, w, n, leads[n]) then n + 1 else n)
    && forall k | 0 <= k < |calls| :: CallTold(c, w, k, leads[k], learnings, calls[k])
  }

  /** One log entry for each answer recorded. */
  predicate LogTold(c: Config, w: World, n: nat, leads: seq<nat>, learnings: seq<Lesson>)
    requires |leads| == n + 1
  {
    && |learnings| == (if Answered(c, w, n, leads[n]) then n + 1 else n)
    && forall k | 0 <= k < |learnings| ::
         && k < |w| && w[k].propose.Returned?
         && learnings[k] == Lesson(k, leads[k], w[k].propose.value.rationale, w[k].propose.value.learnings)
  }

  /** The attempt that call `k` shows, and its row records, pairs the row just judged with the row of its parent. */
  predicate AttemptTold(k: nat, parent: nat, rows: seq<Iteration>, versions: seq<AgentVersion>, call: ProposeCall)
    requires k < |rows| && k < |versions|
  {
    && parent < k && call.attempt.Some? && Pairs(call.attempt.value, rows[parent], rows[k], versions[k])
    && (rows[k].context.Some? ==> rows[k].context.value.1 == call.attempt)
  }

  predicate AttemptsTold(n: nat, leads: seq<nat>, rows: seq<Iteration>, versions: seq<AgentVersion>,
                         calls: seq<ProposeCall>)
    requires |leads| == n + 1
  {
    && |calls| <= |rows| && |calls| <= |versions| && |calls| <= n + 1
    && forall k | 0 < k < |calls| :: AttemptTold(k, leads[k - 1], rows, versions, calls[k])
  }

  /** The version that led when a benchmark was last measured. */
  predicate BestTold(w: World, n: nat, leads: seq<nat>, best: Option<nat>, bestScore: Option<real>)
    requires |leads| == n + 1
  {
    if Measured(w, n) then best == Some(leads[n]) && bestScore == Some(ScoreIn(w, leads[n]))
    else if n == 0 then best == None && bestScore == None
    else best == Some(leads[n - 1]) && bestScore == Some(ScoreIn(w, leads[n - 1]))
  }

  /** The job row and all that hangs on it when a run is over. */
  datatype Record = Record(
    status: JobStatus, reason: Option<StopReason>, error: Option<string>, best: Option<nat>, bestScore: Option<real>,
    rows: seq<Iteration>, versions: seq<AgentVersion>, calls: seq<ProposeCall>, learnings: seq<Lesson>)

  predicate ToldAt(c: Config, w: World, n: nat, leads: seq<nat>, r: Record) {
    && CourseTold(c, w, n, leads, r.status, r.reason, r.error)
    && BestTold(w, n, leads, r.best, r.bestScore)
    && RowsTold(c, w, n, leads, r.rows) && VersionsTold(c, w, n, leads, r.versions)
    && LogTold(c, w, n, leads, r.learnings) && CallsTold(c, w, n, leads, r.learnings, r.calls)
    && AttemptsTold(n, leads, r.rows, r.versions, r.calls)
  }

  /** The whole account: some turn is the last one, and some versions lead. */
  ghost predicate Told(c: Config, w: World, r: Record) {
    exists n: nat, leads: seq<nat> :: ToldAt(c, w, n, leads, r)
  }

  // ---- RunSpec gives this account ----

  lemma MeasuredIsResult(w: World, i: nat)
    ensures Measured(w, i) ==> Score(w, i) == ScoreIn(w, i) && Result(w, i).tasks == TasksIn(w, i)
  {
  }

  lemma FullPassIff(w: World, i: nat)
    requires Measured(w, i)
    ensures FullPass(w, i) <==> Result(w, i).AllPassed()
  {
    EachPassedMeans(TasksIn(w, i));
  }

  lemma SurvivorIsMeasured(c: Config, w: World, i: nat)
    requires ExitAt(c, w, i).None?
    ensures Measured(w, i) && w[i].propose.Returned? && !w[i].cancelledAfterProposal
  {
  }

  lemma LeadsBy(w: World, i: nat, b: nat)
    requires b <= i && (forall j | 0 <= j <= i :: ScoreIn(w, j) == Score(w, j) <= Score(w, b))
    requires forall j | 0 <= j < b :: Score(w, j) < Score(w, b)
    ensures Leads(w, i, b)
  {
    hide ScoreIn, Score;
  }

  /** The version with the highest score leads. */
  lemma BestLeads(c: Config, w: World, i: nat)
    requires Reaches(c, w, i) && Measured(w, i)
    ensures Leads(w, i, Best(w, i))
  {
    hide *;
    BestIsEarliestMaximum(w, i);
    forall j | 0 <= j <= i ensures ScoreIn(w, j) == Score(w, j) {
      if j < i {
        ReachesSurvives(c, w, i, j);
        SurvivorIsMeasured(c, w, j);
      }
      MeasuredIsResult(w, j);
    }
    LeadsBy(w, i, Best(w, i));
  }

  lemma TextIsContent(c: Config, w: World, v: nat)
    requires v > 0 ==> v <= |w| && w[v - 1].propose.Returned?
    ensures TextOf(c, w, v) == Content(c, w, v)
  {
  }

  lemma BestText(c: Config, w: World, i: nat)
    requires Reaches(c, w, i)
    ensures TextOf(c, w, Best(w, i)) == Content(c, w, Best(w, i))
  {
    hide *;
    var b := Best(w, i);
    if b > 0 {
      ReachesSurvives(c, w, i, b - 1);
      SurvivorIsMeasured(c, w, b - 1);
    }
    TextIsContent(c, w, b);
  }

  /** What the tests behind a benchmark mean. */
  lemma BenchmarkExitMeans(c: Config, w: World, i: nat)
    requires i <= c.maxIterations
    ensures var exit, b := BenchmarkExit(c, w, i), Best(w, i);
      && (Measured(w, i) <==> exit.None? || Judged(exit.value))
      && (Asks(c, w, i, b) <==> exit.None?)
      && (exit == Some(CancelledBefore) <==> i >= |w| || w[i].cancelledBefore)
      && (exit == Some(CancelledAfterBench) <==> CutInBenchmark(w, i))
      && (BenchmarkFails(w, i) <==> exit.Some? && exit.value.BenchmarkRaised?)
      && (BenchmarkFails(w, i) ==> exit == Some(BenchmarkRaised(w[i].bench.message)))
      && (exit == Some(OutOfPatience) <==> Measured(w, i) && Exhausted(c, i, b))
      && (exit == Some(EverythingPassed) <==> Measured(w, i) && !Exhausted(c, i, b) && FullPass(w, i))
      && (exit == Some(OutOfIterations) <==>
            Measured(w, i) && !Exhausted(c, i, b) && !FullPass(w, i) && i == c.maxIterations)
      && (exit.Some? ==> !exit.value.ProposalRaised? && !exit.value.CancelledAfterProposal?
                         && !exit.value.ProposalUnchanged?)
  {
    hide FullPass, Best, Result, TasksIn;
    if Measured(w, i) {
      FullPassIff(w, i);
    }
  }

  /** What the tests behind an answer mean. */
  lemma OptimizerExitMeans(c: Config, w: World, i: nat)
    requires Reaches(c, w, i) && Asks(c, w, i, Best(w, i))
    ensures var exit, b := OptimizerExit(c, w, i), Best(w, i);
      && (ProposalFails(c, w, i, b) <==> exit.Some? && exit.value.ProposalRaised?)
      && (ProposalFails(c, w, i, b) ==> exit == Some(ProposalRaised(w[i].propose.message)))
      && (CutInProposal(c, w, i, b) <==> exit == Some(CancelledAfterProposal))
      && (Answered(c, w, i, b) <==> exit.None? || exit.value.ProposalUnchanged?)
      && (exit == Some(ProposalUnchanged) <==>
            Answered(c, w, i, b) && w[i].propose.value.content == TextOf(c, w, b))
      && (exit.Some? ==> exit.value.ProposalRaised? || exit.value.CancelledAfterProposal?
                         || exit.value.ProposalUnchanged?)
  {
    BestText(c, w, i);
    hide Best, Content, TextOf, Reaches, FullPass, Exhausted;
  }

  lemma SurvivorGoesOn(c: Config, w: World, i: nat)
    requires Reaches(c, w, i) && ExitAt(c, w, i).None? && i <= c.maxIterations
    ensures GoesOn(c, w, i, Best(w, i))
  {
    SurvivorIsMeasured(c, w, i);
    BestLeads(c, w, i);
    BenchmarkExitMeans(c, w, i);
    OptimizerExitMeans(c, w, i);
    hide Leads, Answered, BenchmarkExit, OptimizerExit, TextOf;
  }

  lemma GoesOnAnswered(c: Config, w: World, i: nat, b: nat)
    requires GoesOn(c, w, i, b)
    ensures Answered(c, w, i, b) && Measured(w, i)
  {
  }

  lemma BenchmarkEndIsTold(c: Config, w: World, n: nat)
    requires Reaches(c, w, n) && BenchmarkExit(c, w, n).Some? && n <= c.maxIterations
    ensures var exit := BenchmarkExit(c, w, n).value;
            Ends(c, w, n, Best(w, n), FinalStatus(exit), ReasonOf(exit), FinalError(exit))
  {
    BenchmarkExitMeans(c, w, n);
    if Measured(w, n) {
      BestLeads(c, w, n);
    }
    hide Leads, BenchmarkExit, TextOf, Best, Measured, Exhausted, FullPass, Asks, CutInBenchmark, BenchmarkFails,
         Reaches;
  }

  lemma OptimizerEndIsTold(c: Config, w: World, n: nat)
    requires Reaches(c, w, n) && BenchmarkExit(c, w, n).None? && OptimizerExit(c, w, n).Some? && n <= c.maxIterations
    ensures var exit := OptimizerExit(c, w, n).value;
            Ends(c, w, n, Best(w, n), FinalStatus(exit), ReasonOf(exit), FinalError(exit))
  {
    BenchmarkExitMeans(c, w, n);
    BestLeads(c, w, n);
    OptimizerExitMeans(c, w, n);
    hide Leads, BenchmarkExit, OptimizerExit, TextOf, Best, Measured, Exhausted, FullPass, Asks, Answered,
         CutInProposal, ProposalFails, Reaches;
  }

  /** How the run ends, in one place: status, reason and error of the job against what happened in the last turn. */
  lemma EndIsTold(c: Config, w: World, n: nat, exit: Exit)
    requires Reaches(c, w, n) && ExitAt(c, w, n) == Some(exit) && n <= c.maxIterations
    ensures Ends(c, w, n, Best(w, n), FinalStatus(exit), ReasonOf(exit), FinalError(exit))
  {
    hide Ends, BenchmarkExit, OptimizerExit, Reaches, FinalStatus, ReasonOf, FinalError;
    if BenchmarkExit(c, w, n).Some? {
      BenchmarkEndIsTold(c, w, n);
    } else {
      OptimizerEndIsTold(c, w, n);
    }
  }

  /** The leading versions of a run. */
  function Leaders(w: World, n: nat): (leads: seq<nat>)
    ensures |leads| == n + 1 && forall i | 0 <= i <= n :: leads[i] == Best(w, i)
  {
    seq(n + 1, i requires 0 <= i <= n => Best(w, i))
  }

  lemma CourseIsTold(c: Config, w: World)
    ensures var exit := FinalExit(c, w);
            CourseTold(c, w, End(c, w), Leaders(w, End(c, w)),
                       FinalStatus(exit), Some(ReasonOf(exit)), FinalError(exit))
  {
    hide Ends, GoesOn, ExitAt, Reaches, FinalStatus, ReasonOf, FinalError, Leaders, Best;
    var n := End(c, w);
    EndIsTold(c, w, n, FinalExit(c, w));
    forall i | 0 <= i < n ensures GoesOn(c, w, i, Best(w, i)) {
      ReachesSurvives(c, w, n, i);
      SurvivorGoesOn(c, w, i);
    }
  }

  lemma LeadsItself(w: World, k: nat, b: nat)
    requires Leads(w, k, b)
    ensures b == k <==> forall j | 0 <= j < k :: ScoreIn(w, j) < ScoreIn(w, k)
  {
    hide ScoreIn;
    assert ScoreIn(w, k) <= ScoreIn(w, b);
  }

  lemma JudgedIsTold(c: Config, w: World, k: nat)
    requires Reaches(c, w, k) && Measured(w, k)
    ensures ResultTold(w, k, Some(Score(w, k)), Result(w, k).tasks, Some(Accepted(w, k)))
  {
    MeasuredIsResult(w, k);
    BestLeads(c, w, k);
    LeadsItself(w, k, Best(w, k));
    hide Score, Result, ScoreIn, TasksIn, Leads, Best, Reaches;
  }

  lemma SurvivedRowIsTold(c: Config, w: World, k: nat)
    requires Reaches(c, w, k) && Answered(c, w, k, Best(w, k))
    ensures RowTold(c, w, k, Best(w, k), ProposedRow(c, w, k))
  {
    JudgedIsTold(c, w, k);
    assert AttemptAt(c, w, k).None? <==> k == 0;
    hide ResultTold, Best, Score, Result, AttemptAt, Reaches, Exhausted, FullPass, Accepted;
  }

  lemma StoppedRowIsTold(c: Config, w: World, k: nat, exit: Exit)
    requires Reaches(c, w, k) && BenchmarkExit(c, w, k) == Some(exit) && !exit.CancelledBefore?
    requires k <= c.maxIterations
    ensures LastRow(c, w, k, exit).Some? && RowTold(c, w, k, Best(w, k), LastRow(c, w, k, exit).value)
  {
    BenchmarkExitMeans(c, w, k);
    if Measured(w, k) {
      JudgedIsTold(c, w, k);
    }
    assert !Measured(w, k) ==> ResultTold(w, k, None, [], if k == 0 then Some(true) else None);
    hide ResultTold, Best, Score, Result, AttemptAt, Reaches, Exhausted, FullPass, BenchmarkExit, Accepted, Asks,
         Measured, CutInBenchmark, BenchmarkFails, ProposedRow;
  }

  lemma RefusedRowIsTold(c: Config, w: World, k: nat, exit: Exit)
    requires Reaches(c, w, k) && Asks(c, w, k, Best(w, k)) && RequestExit(w, k) == Some(exit)
    ensures LastRow(c, w, k, exit).Some? && RowTold(c, w, k, Best(w, k), LastRow(c, w, k, exit).value)
  {
    JudgedIsTold(c, w, k);
    hide ResultTold, Best, Score, Result, AttemptAt, Reaches, Exhausted, FullPass, Accepted, ProposedRow;
  }

  lemma LastRowIsTold(c: Config, w: World, n: nat, exit: Exit)
    requires Reaches(c, w, n) && ExitAt(c, w, n) == Some(exit) && n <= c.maxIterations
    ensures LastRow(c, w, n, exit).Some? <==> n < |w| && !w[n].cancelledBefore
    ensures LastRow(c, w, n, exit).Some? ==> RowTold(c, w, n, Best(w, n), LastRow(c, w, n, exit).value)
  {
    hide RowTold, BenchmarkExit, RequestExit, Reaches, ProposedRow, JudgedRow, StartedRow, Answered, Content, Best,
         Asks, Measured;
    BenchmarkExitMeans(c, w, n);
    if BenchmarkExit(c, w, n).Some? {
      if !exit.CancelledBefore? {
        StoppedRowIsTold(c, w, n, exit);
      }
    } else if RequestExit(w, n).Some? {
      RefusedRowIsTold(c, w, n, exit);
    } else {
      OptimizerExitMeans(c, w, n);
      SurvivedRowIsTold(c, w, n);
    }
  }

  lemma RowsAreTold(c: Config, w: World)
    ensures RowsTold(c, w, End(c, w), Leaders(w, End(c, w)), IterationRows(c, w))
  {
    hide RowTold, ExitAt, Reaches, LastRow, ProposedRow, Best, Leaders, GoesOn;
    var n := End(c, w);
    LastRowIsTold(c, w, n, FinalExit(c, w));
    forall k | 0 <= k < n ensures RowTold(c, w, k, Best(w, k), IterationRows(c, w)[k]) {
      ReachesSurvives(c, w, n, k);
      SurvivorGoesOn(c, w, k);
      ProposedRowsAt(c, w, n, k);
      assert Answered(c, w, k, Best(w, k)) by {
        GoesOnAnswered(c, w, k, Best(w, k));
      }
      SurvivedRowIsTold(c, w, k);
    }
  }

  lemma SurvivedText(c: Config, w: World, n: nat, v: nat)
    requires Reaches(c, w, n) && v <= n
    ensures TextOf(c, w, v) == Content(c, w, v)
  {
    hide ExitAt, TextOf, Content;
    if v > 0 {
      ReachesSurvives(c, w, n, v - 1);
      SurvivorIsMeasured(c, w, v - 1);
    }
    TextIsContent(c, w, v);
  }

  lemma VersionsAreTold(c: Config, w: World)
    ensures VersionsTold(c, w, End(c, w), Leaders(w, End(c, w)), VersionRows(c, w, End(c, w) + 1))
  {
    hide ExitAt, Reaches, VersionRows, Best, Leaders, TextOf, Content;
    var n := End(c, w);
    VersionRowsAt(c, w, n + 1, 0);
    forall v | 0 < v <= n
      ensures VersionRows(c, w, n + 1)[v]
           == AgentVersion(v, Some(Best(w, v - 1)), TextOf(c, w, v),
                           Between(TextOf(c, w, Best(w, v - 1)), TextOf(c, w, v)), Some(v - 1))
    {
      VersionRowsAt(c, w, n + 1, v);
      SurvivedText(c, w, n, v);
      SurvivedText(c, w, n, Best(w, v - 1));
    }
  }

  lemma {:induction false} LessonsAt(w: World, n: nat, k: nat)
    requires k <= n
    ensures LessonsAfter(w, n)[..k] == LessonsAfter(w, k)
    ensures k < n ==> LessonsAfter(w, n)[k] == LessonAt(w, k)
  {
    hide LessonAt;
    if k < n {
      LessonsAt(w, n - 1, k);
    }
  }

  lemma AnsweredAsks(c: Config, w: World, i: nat, b: nat)
    ensures Answered(c, w, i, b) ==> Asks(c, w, i, b) && Measured(w, i) && w[i].propose.Returned?
  {
  }

  /** How many calls and log entries the last turn adds. */
  lemma LastTurnAdds(c: Config, w: World, n: nat, exit: Exit)
    requires Reaches(c, w, n) && ExitAt(c, w, n) == Some(exit) && n <= c.maxIterations
    ensures LastCalls(exit) == (if Asks(c, w, n, Best(w, n)) then 1 else 0)
    ensures LastLessons(exit) == (if Answered(c, w, n, Best(w, n)) then 1 else 0)
  {
    hide BenchmarkExit, RequestExit, Reaches, Answered, Content, Best, Asks, Measured;
    BenchmarkExitMeans(c, w, n);
    if BenchmarkExit(c, w, n).Some? {
      AnsweredAsks(c, w, n, Best(w, n));
    } else {
      OptimizerExitMeans(c, w, n);
    }
  }

  /** Turns in front of the last one are answered; the last one may be. */
  lemma SurvivedIsAnswered(c: Config, w: World, k: nat)
    requires k < End(c, w)
    ensures Answered(c, w, k, Best(w, k)) && Measured(w, k) && w[k].propose.Returned?
  {
    hide Reaches, ExitAt, Answered, Measured, Best, GoesOn;
    ReachesSurvives(c, w, End(c, w), k);
    LimitEndsRun(c, w, k);
    SurvivorGoesOn(c, w, k);
    GoesOnAnswered(c, w, k, Best(w, k));
    AnsweredAsks(c, w, k, Best(w, k));
  }

  /** What the log of the run holds. */
  function FinalLessons(c: Config, w: World): (log: seq<Lesson>)
    ensures |log| == End(c, w) + LastLessons(FinalExit(c, w))
  {
    LessonsAfter(w, End(c, w) + LastLessons(FinalExit(c, w)))
  }

  lemma MeasuredIsThere(w: World, i: nat)
    ensures Measured(w, i) ==> i < |w| && w[i].bench.Returned?
  {
  }

  lemma LogIsTold(c: Config, w: World)
    ensures LogTold(c, w, End(c, w), Leaders(w, End(c, w)), FinalLessons(c, w))
  {
    hide ExitAt, Reaches, Best, Leaders, LessonsAfter, Answered, Measured;
    var n := End(c, w);
    LastTurnAdds(c, w, n, FinalExit(c, w));
    forall k | 0 <= k < |FinalLessons(c, w)|
      ensures k < |w| && w[k].propose.Returned?
      ensures FinalLessons(c, w)[k]
           == Lesson(k, Best(w, k), w[k].propose.value.rationale, w[k].propose.value.learnings)
    {
      LessonsAt(w, |FinalLessons(c, w)|, k);
      if k < n {
        SurvivedIsAnswered(c, w, k);
      }
      AnsweredAsks(c, w, k, Best(w, k));
      MeasuredIsThere(w, k);
    }
  }

  lemma CallIsTold(c: Config, w: World, k: nat, log: seq<Lesson>)
    requires Reaches(c, w, k) && Measured(w, k) && k <= |log| && log == LessonsAfter(w, |log|)
    ensures CallTold(c, w, k, Best(w, k), log, CallAt(c, w, k))
  {
    var b := Best(w, k);
    SurvivedText(c, w, k, b);
    if b < k {
      ReachesSurvives(c, w, k, b);
      SurvivorIsMeasured(c, w, b);
    }
    MeasuredIsResult(w, b);
    LessonsAt(w, |log|, k);
    assert AttemptAt(c, w, k).None? <==> k == 0;
    hide Best, Score, ScoreIn, TasksIn, Result, AttemptAt, Reaches, Content, TextOf, LessonsAfter, ExitAt;
  }

  lemma AsksMeasured(c: Config, w: World, i: nat, b: nat)
    ensures Asks(c, w, i, b) ==> Measured(w, i)
  {
  }

  lemma CallsAreTold(c: Config, w: World)
    ensures CallsTold(c, w, End(c, w), Leaders(w, End(c, w)), FinalLessons(c, w), Calls(c, w, CallCount(c, w)))
  {
    hide ExitAt, Reaches, Best, Leaders, LessonsAfter, Answered, Measured, Asks, CallTold, Calls;
    var n := End(c, w);
    LastTurnAdds(c, w, n, FinalExit(c, w));
    forall k | 0 <= k < CallCount(c, w)
      ensures CallTold(c, w, k, Best(w, k), FinalLessons(c, w), Calls(c, w, CallCount(c, w))[k])
    {
      CallsAt(c, w, CallCount(c, w), k);
      if k < n {
        SurvivedIsAnswered(c, w, k);
        ReachesSurvives(c, w, n, k);
      }
      AsksMeasured(c, w, k, Best(w, k));
      CallIsTold(c, w, k, FinalLessons(c, w));
    }
  }

  lemma RecordedAttempt(c: Config, w: World, k: nat)
    requires k < |IterationRows(c, w)|
    ensures IterationRows(c, w)[k].context.Some? ==> IterationRows(c, w)[k].context.value.1 == AttemptAt(c, w, k)
  {
    hide AttemptAt, Best, Result, Score, ExitAt;
    if k < End(c, w) {
      ProposedRowsAt(c, w, End(c, w), k);
    }
  }

  lemma AttemptPairs(k: nat, parent: nat, rows: seq<Iteration>, versions: seq<AgentVersion>, call: ProposeCall)
    requires k < |rows| && k < |versions| && parent < k
    requires call.attempt.Some? && Pairs(call.attempt.value, rows[parent], rows[k], versions[k])
    requires rows[k].context.Some? ==> rows[k].context.value.1 == call.attempt
    ensures AttemptTold(k, parent, rows, versions, call)
  {
    hide Pairs;
  }

  lemma AttemptsAreTold(c: Config, w: World)
    ensures AttemptsTold(End(c, w), Leaders(w, End(c, w)), IterationRows(c, w), VersionRows(c, w, End(c, w) + 1),
                         Calls(c, w, CallCount(c, w)))
  {
    hide IterationRows, VersionRows, Calls, Leaders, Best, Pairs, AttemptTold, ExitAt, AttemptAt, Reaches, ParentNo;
    var n := End(c, w);
    assert CallCount(c, w) <= |IterationRows(c, w)| by {
      if CallCount(c, w) > 0 {
        CalledRowIsJudged(c, w, CallCount(c, w) - 1);
      }
    }
    forall k | 0 < k < CallCount(c, w)
      ensures AttemptTold(k, Best(w, k - 1), IterationRows(c, w), VersionRows(c, w, n + 1),
                          Calls(c, w, CallCount(c, w))[k])
    {
      var attempt := AttemptIsCoherent(c, w, k);
      ParentIsBest(c, w, k);
      CallShows(c, w, k);
      RecordedAttempt(c, w, k);
      AttemptPairs(k, Best(w, k - 1), IterationRows(c, w), VersionRows(c, w, n + 1), Calls(c, w, CallCount(c, w))[k]);
    }
  }

  lemma BestIsTold(c: Config, w: World)
    ensures var best := FinalBest(c, w);
            BestTold(w, End(c, w), Leaders(w, End(c, w)), best, if best.Some? then Some(Score(w, best.value)) else None)
  {
    hide BenchmarkExit, RequestExit, Content, Reaches, Leaders, Best, Score, ScoreIn, Measured;
    var n := End(c, w);
    BenchmarkExitMeans(c, w, n);
    if FinalBest(c, w).Some? {
      var b := FinalBest(c, w).value;
      if b < n {
        SurvivedIsAnswered(c, w, b);
      }
      MeasuredIsResult(w, b);
    }
  }

  /** What RunSpec says a run leaves. */
  function RecordOf(c: Config, w: World): Record {
    var exit, best := FinalExit(c, w), FinalBest(c, w);
    Record(FinalStatus(exit), Some(ReasonOf(exit)), FinalError(exit),
           best, if best.Some? then Some(Score(w, best.value)) else None,
           IterationRows(c, w), VersionRows(c, w, End(c, w) + 1), Calls(c, w, CallCount(c, w)), FinalLessons(c, w))
  }

  /** Main result: the whole account is true of every run. */
  lemma RunIsTold(c: Config, w: World)
    ensures Told(c, w, RecordOf(c, w))
  {
    hide CourseTold, BestTold, RowsTold, VersionsTold, LogTold, CallsTold, AttemptsTold, FinalExit, End, FinalBest,
         Score, IterationRows, VersionRows, Calls, FinalLessons, ReasonOf, FinalStatus, FinalError, Leaders, CallCount;
    CourseIsTold(c, w);
    BestIsTold(c, w);
    RowsAreTold(c, w);
    VersionsAreTold(c, w);
    LogIsTold(c, w);
    CallsAreTold(c, w);
    AttemptsAreTold(c, w);
    assert ToldAt(c, w, End(c, w), Leaders(w, End(c, w)), RecordOf(c, w));
  }
}
