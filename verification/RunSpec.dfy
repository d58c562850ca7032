/** What one optimization run is meant to do, stated over the sequence of benchmark results and proposals:
    no counters, no "best so far" variables, every quantity a function of the iteration number. */
module RunSpec {
  import opened Wrappers
  import opened Benchmark
  import opened RecentAttempts
  import opened Lessons

  /** A call into foreign code returns a value or raises. */
  datatype Reply<+T> = Returned(value: T) | Raised(message: string)

  datatype Proposal = Proposal(content: string, rationale: string, learnings: string)

  /** What the run meets in one iteration: the benchmark's reply, the optimizer's reply, and whether the stored
      job is found cancelled at each of the three points where the run looks. */
  datatype Turn = Turn(
    cancelledBefore: bool, bench: Reply<BenchmarkResult>, cancelledAfterBench: bool,
    propose: Reply<Proposal>, cancelledAfterProposal: bool)

  // The turns of a run that ends early, with the parts it never gets to filled in.

  const CANCELLED_EARLY := Turn(true, Raised(""), true, Raised(""), true)

  function BenchmarkTurn(bench: Reply<BenchmarkResult>, cancelled: bool): Turn {
    Turn(false, bench, cancelled, Raised(""), true)
  }

  function FullTurn(result: BenchmarkResult, propose: Reply<Proposal>, cancelled: bool): Turn {
    Turn(false, Returned(result), false, propose, cancelled)
  }

  /** The turns of a run, from the baseline on; a run that outlasts the list finds the job cancelled. */
  type World = seq<Turn>

  function TurnAt(w: World, i: nat): Turn {
    if i < |w| then w[i] else CANCELLED_EARLY
  }

  /** The job's fixed settings. */
  datatype Config = Config(template: string, maxIterations: nat, patience: nat)

  datatype JobStatus = Queued | Running | Completed | JobFailed | JobCancelled

  datatype StopReason = MaxIterations | NoImprovement | AllTasksPassed | Cancelled | Error

  // ---- Scores, and the best version so far ----

  function Result(w: World, i: nat): BenchmarkResult {
    match TurnAt(w, i).bench
    case Returned(r) => r
    case Raised(_) => BenchmarkResult([], 0.0)
  }

  function Score(w: World, i: nat): real { Result(w, i).valScore }

  function ProposalAfter(w: World, i: nat): Proposal {
    match TurnAt(w, i).propose
    case Returned(p) => p
    case Raised(_) => Proposal("", "", "")
  }

  /** The earliest iteration among 0..i with the highest score. */
  function Best(w: World, i: nat): (b: nat)
    ensures b <= i
  {
    if i == 0 then 0
    else if Score(w, i) > Score(w, Best(w, i - 1)) then i
    else Best(w, i - 1)
  }

  lemma {:induction false} BestIsEarliestMaximum(w: World, i: nat)
    ensures forall j | 0 <= j <= i :: Score(w, j) <= Score(w, Best(w, i))
    ensures forall j | 0 <= j < Best(w, i) :: Score(w, j) < Score(w, Best(w, i))
  {
    if i > 0 {
      BestIsEarliestMaximum(w, i - 1);
    }
  }

  /** An iteration is accepted when it is the best one so far. */
  predicate Accepted(w: World, i: nat) {
    Best(w, i) == i
  }

  /** That is to say, when it beats every iteration before it. */
  lemma AcceptedIffRecord(w: World, i: nat)
    ensures Accepted(w, i) <==> forall j | 0 <= j < i :: Score(w, j) < Score(w, i)
  {
    BestIsEarliestMaximum(w, i);
  }

  // ---- Where the run ends ----

  datatype Exit =
    | CancelledBefore | BenchmarkRaised(message: string) | CancelledAfterBench
    | OutOfPatience | EverythingPassed | OutOfIterations
    | ProposalRaised(message: string) | CancelledAfterProposal | ProposalUnchanged

  function Content(c: Config, w: World, version: nat): string {
    if version == 0 then c.template else ProposalAfter(w, version - 1).content
  }

  /** Whether the iteration that ended this way had been judged: result saved, acceptance decided. */
  predicate Judged(exit: Exit) {
    !exit.CancelledBefore? && !exit.BenchmarkRaised? && !exit.CancelledAfterBench?
  }

  predicate IsCancelled(exit: Exit) {
    exit.CancelledBefore? || exit.CancelledAfterBench? || exit.CancelledAfterProposal?
  }

  predicate IsRaised(exit: Exit) {
    exit.BenchmarkRaised? || exit.ProposalRaised?
  }

  function NotPassed(tasks: seq<TaskExecution>): seq<TaskExecution> { Without(tasks, Passed) }

  /** How many optimizer calls, and how many log entries, the iteration that ended this way adds. */
  function LastCalls(exit: Exit): nat {
    if exit.ProposalRaised? || exit.CancelledAfterProposal? || exit.ProposalUnchanged? then 1 else 0
  }

  function LastLessons(exit: Exit): nat {
    if exit.ProposalUnchanged? then 1 else 0
  }

  /** How iteration `i` ends the run before an optimizer call, the reasons in the order they are considered. */
  function BenchmarkExit(c: Config, w: World, i: nat): (exit: Option<Exit>)
    ensures exit.Some? ==> LastCalls(exit.value) == 0 && LastLessons(exit.value) == 0
  {
    if TurnAt(w, i).cancelledBefore then Some(CancelledBefore)
    else if TurnAt(w, i).bench.Raised? then Some(BenchmarkRaised(TurnAt(w, i).bench.message))
    else if TurnAt(w, i).cancelledAfterBench then Some(CancelledAfterBench)
    else if i > 0 && i - Best(w, i) >= c.patience then Some(OutOfPatience)
    else if Result(w, i).AllPassed() then Some(EverythingPassed)
    else if i >= c.maxIterations then Some(OutOfIterations)
    else None
  }

  /** How it ends the run at the optimizer call. */
  function RequestExit(w: World, i: nat): (exit: Option<Exit>)
    ensures exit.Some? ==> LastCalls(exit.value) == 1 && LastLessons(exit.value) == 0 && Judged(exit.value)
  {
    if TurnAt(w, i).propose.Raised? then Some(ProposalRaised(TurnAt(w, i).propose.message))
    else if TurnAt(w, i).cancelledAfterProposal then Some(CancelledAfterProposal)
    else None
  }

  /** How it ends the run at the optimizer call or with its answer. */
  function OptimizerExit(c: Config, w: World, i: nat): Option<Exit> {
    if RequestExit(w, i).Some? then RequestExit(w, i)
    else if ProposalAfter(w, i).content == Content(c, w, Best(w, i)) then Some(ProposalUnchanged)
    else None
  }

  function ExitAt(c: Config, w: World, i: nat): Option<Exit> {
    if BenchmarkExit(c, w, i).Some? then BenchmarkExit(c, w, i) else OptimizerExit(c, w, i)
  }

  lemma LimitEndsRun(c: Config, w: World, i: nat)
    ensures ExitAt(c, w, i).None? ==> i < c.maxIterations
  {
  }

  /** The run gets as far as iteration `i`: nothing ends it before. */
  predicate Reaches(c: Config, w: World, i: nat) {
    i == 0 || (Reaches(c, w, i - 1) && ExitAt(c, w, i - 1).None?)
  }

  /** The first iteration from `i` on that ends the run. */
  function EndFrom(c: Config, w: World, i: nat): (n: nat)
    requires i <= c.maxIterations && Reaches(c, w, i)
    ensures i <= n <= c.maxIterations
    ensures ExitAt(c, w, n).Some? && Reaches(c, w, n)
    decreases c.maxIterations - i
  {
    if ExitAt(c, w, i).Some? then i else EndFrom(c, w, i + 1)
  }

  function End(c: Config, w: World): nat { EndFrom(c, w, 0) }

  /** Reaching an iteration means surviving all those before it. */
  lemma {:induction false} ReachesSurvives(c: Config, w: World, i: nat, j: nat)
    requires Reaches(c, w, i) && j < i
    ensures Reaches(c, w, j) && ExitAt(c, w, j).None?
  {
    if j < i - 1 {
      ReachesSurvives(c, w, i - 1, j);
    }
  }

  /** The end of a run is the one iteration that it reaches and does not survive. */
  lemma EndIs(c: Config, w: World, n: nat)
    requires Reaches(c, w, n) && ExitAt(c, w, n).Some?
    ensures End(c, w) == n
  {
    if End(c, w) < n {
      ReachesSurvives(c, w, n, End(c, w));
    } else if n < End(c, w) {
      ReachesSurvives(c, w, End(c, w), n);
    }
  }

  function FinalExit(c: Config, w: World): Exit { ExitAt(c, w, End(c, w)).value }

  // ---- The rows a run leaves behind ----

  datatype AgentVersion = AgentVersion(
    versionNo: nat, parentVersionNo: Option<nat>, content: string, diff: Diff, createdBy: Option<nat>)

  function VersionRow(c: Config, w: World, v: nat): AgentVersion {
    if v == 0 then AgentVersion(0, None, c.template, NoDiff, None)
    else
      var parent := Best(w, v - 1);
      AgentVersion(v, Some(parent), Content(c, w, v), Between(Content(c, w, parent), Content(c, w, v)), Some(v - 1))
  }

  function VersionRows(c: Config, w: World, n: nat): (rows: seq<AgentVersion>)
    ensures |rows| == n
  {
    if n == 0 then [] else VersionRows(c, w, n - 1) + [VersionRow(c, w, n - 1)]
  }

  lemma FirstVersion(c: Config, w: World)
    ensures VersionRows(c, w, 1) == [AgentVersion(0, None, c.template, NoDiff, None)]
  {
    assert VersionRows(c, w, 0) == [];
  }

  datatype Phase = RunningBenchmark | Done | Proposing | PhaseFailed

  lemma {:induction false} VersionRowsAt(c: Config, w: World, n: nat, v: nat)
    requires v < n
    ensures VersionRows(c, w, n)[v] == VersionRow(c, w, v)
  {
    hide VersionRow;
    if v < n - 1 {
      VersionRowsAt(c, w, n - 1, v);
    }
  }

  /** The two remarks an interrupted iteration can carry. */
  datatype Interruption = CancelledDuringBenchmark | CancelledDuringProposal

  datatype Iteration = Iteration(
    iterationNo: nat, versionNo: nat, phase: Phase, valScore: Option<real>, accepted: Option<bool>,
    results: seq<TaskExecution>, error: Option<Interruption>, context: Option<(nat, Option<RecentAttempt>)>)

  /** The row of iteration `i` when its benchmark starts; only the baseline is accepted in advance. */
  function StartedRow(i: nat): Iteration {
    Iteration(i, i, RunningBenchmark, None, if i == 0 then Some(true) else None, [], None, None)
  }

  /** The row once judged. */
  function JudgedRow(w: World, i: nat): Iteration {
    StartedRow(i).(phase := Done, valScore := Some(Score(w, i)), accepted := Some(Accepted(w, i)),
                   results := Result(w, i).tasks)
  }

  /** What the optimizer learns about the attempt judged in iteration `i`: the candidate against the version
      it was made from, each with its own score and task results. */
  function AttemptAt(c: Config, w: World, i: nat): Option<RecentAttempt> {
    if i == 0 then None
    else
      var parent := Best(w, i - 1);
      Some(Attempt(Some(parent), i, VersionRow(c, w, i).diff, Some(Score(w, parent)), Score(w, i), Accepted(w, i),
                   Result(w, parent).tasks, Result(w, i).tasks))
  }

  /** The row once a proposal has been recorded in it. */
  function ProposedRow(c: Config, w: World, i: nat): Iteration {
    JudgedRow(w, i).(context := Some((Best(w, i), AttemptAt(c, w, i))))
  }

  function ProposedRows(c: Config, w: World, n: nat): (rows: seq<Iteration>)
    ensures |rows| == n
  {
    if n == 0 then [] else ProposedRows(c, w, n - 1) + [ProposedRow(c, w, n - 1)]
  }

  lemma {:induction false} ProposedRowsAt(c: Config, w: World, n: nat, i: nat)
    requires i < n
    ensures ProposedRows(c, w, n)[i] == ProposedRow(c, w, i)
  {
    hide ProposedRow;
    if i < n - 1 {
      ProposedRowsAt(c, w, n - 1, i);
    }
  }

  /** The row of the final iteration, if it got one at all. */
  function LastRow(c: Config, w: World, i: nat, exit: Exit): Option<Iteration> {
    match exit
    case CancelledBefore => None
    case BenchmarkRaised(_) => Some(StartedRow(i))
    case CancelledAfterBench => Some(StartedRow(i).(phase := PhaseFailed, error := Some(CancelledDuringBenchmark)))
    case OutOfPatience => Some(JudgedRow(w, i))
    case EverythingPassed => Some(JudgedRow(w, i))
    case OutOfIterations => Some(JudgedRow(w, i))
    case ProposalRaised(_) => Some(JudgedRow(w, i).(phase := Proposing))
    case CancelledAfterProposal => Some(JudgedRow(w, i).(phase := PhaseFailed, error := Some(CancelledDuringProposal)))
    case ProposalUnchanged => Some(ProposedRow(c, w, i))
  }

  /** All iteration rows of the run. */
  function IterationRows(c: Config, w: World): seq<Iteration> {
    var last := LastRow(c, w, End(c, w), FinalExit(c, w));
    ProposedRows(c, w, End(c, w)) + if last.Some? then [last.value] else []
  }

  /** One call of the optimizer, with what it is shown. */
  datatype ProposeCall = ProposeCall(
    iterationNo: nat, agent: string, failing: seq<TaskExecution>, allTasks: seq<TaskExecution>, valScore: real,
    sourceVersionNo: nat, learnings: seq<Lesson>, attempt: Option<RecentAttempt>)

  function LessonAt(w: World, i: nat): Lesson {
    Lesson(i, Best(w, i), ProposalAfter(w, i).rationale, ProposalAfter(w, i).learnings)
  }

  /** What the first `n` recorded proposals have put into the job's learning log. */
  function LessonsAfter(w: World, n: nat): (log: seq<Lesson>)
    ensures |log| == n
  {
    if n == 0 then [] else LessonsAfter(w, n - 1) + [LessonAt(w, n - 1)]
  }

  function CallAt(c: Config, w: World, i: nat): ProposeCall {
    var best := Best(w, i);
    ProposeCall(i, Content(c, w, best), NotPassed(Result(w, best).tasks), Result(w, best).tasks, Score(w, best),
                best, LessonsAfter(w, i), AttemptAt(c, w, i))
  }

  function Calls(c: Config, w: World, n: nat): (calls: seq<ProposeCall>)
    ensures |calls| == n
  {
    if n == 0 then [] else Calls(c, w, n - 1) + [CallAt(c, w, n - 1)]
  }

  lemma {:induction false} CallsAt(c: Config, w: World, n: nat, i: nat)
    requires i < n
    ensures Calls(c, w, n)[i] == CallAt(c, w, i)
  {
    hide CallAt;
    if i < n - 1 {
      CallsAt(c, w, n - 1, i);
    }
  }

  function ReasonOf(exit: Exit): StopReason {
    match exit
    case OutOfPatience => NoImprovement
    case ProposalUnchanged => NoImprovement
    case EverythingPassed => AllTasksPassed
    case OutOfIterations => MaxIterations
    case BenchmarkRaised(_) => Error
    case ProposalRaised(_) => Error
    case CancelledBefore => Cancelled
    case CancelledAfterBench => Cancelled
    case CancelledAfterProposal => Cancelled
  }

  /** How the job ends when the run ends so. */
  function FinalStatus(exit: Exit): JobStatus {
    if IsCancelled(exit) then JobCancelled else if IsRaised(exit) then JobFailed else Completed
  }

  function FinalError(exit: Exit): Option<string> { if IsRaised(exit) then Some(exit.message) else None }

  /** The best version over the judged iterations; none before the baseline is judged. */
  function FinalBest(c: Config, w: World): Option<nat> {
    if Judged(FinalExit(c, w)) then Some(Best(w, End(c, w)))
    else if End(c, w) == 0 then None
    else Some(Best(w, End(c, w) - 1))
  }
}
