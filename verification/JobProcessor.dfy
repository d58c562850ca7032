/** The job processor: the loop with its running variables and the rows it writes, proved against RunSpec. */
module JobProcessor {
  import opened Wrappers
  import opened Benchmark
  import opened RecentAttempts
  import opened RunSpec
  import opened Lessons
  import RunAccount
  import RunTheorems

  /** The job row's status and stop reason when the loop is left; an exception is dealt with further out. */
  function StatusAfter(exit: Exit): JobStatus { if IsCancelled(exit) then JobCancelled else Running }

  function ReasonAfter(exit: Exit): Option<StopReason> { if IsRaised(exit) then None else Some(ReasonOf(exit)) }

  /** One run: the job row as the processor holds it, the rows it adds, and the variables of its loop. */
  class OptimizationRun {
    const config: Config

    // The job row.
    var status: JobStatus
    var stopReason: Option<StopReason>
    var error: Option<string>
    var learnings: seq<Lesson>
    var bestValScore: Option<real>
    var bestAgentVersion: Option<nat>

    // Rows added by this run: versions, finished iterations, and the iteration in progress.
    var versions: seq<AgentVersion>
    var iterations: seq<Iteration>
    var iteration: Option<Iteration>

    // Variables of the loop.
    var bestVersionNo: nat
    var bestScore: Option<real>
    var bestFailures: seq<TaskExecution>
    var bestTaskResults: seq<TaskExecution>
    var noImprove: nat
    var nextVersionNo: nat
    var candidateVersionNo: Option<nat>

    /** Every call of the optimizer so far. */
    ghost var calls: seq<ProposeCall>

    constructor (config: Config, status: JobStatus, stopReason: Option<StopReason>)
      ensures this.config == config && this.status == status && this.stopReason == stopReason
      ensures error == None && Fresh()
    {
      this.config, this.status, this.stopReason, this.error := config, status, stopReason, None;
      learnings, bestValScore, bestAgentVersion := [], None, None;
      versions, iterations, iteration, calls := [], [], None, [];
      bestVersionNo, bestScore, bestFailures, bestTaskResults := 0, None, [], [];
      noImprove, nextVersionNo, candidateVersionNo := 0, 1, None;
    }

    /** Nothing has been written for this job yet. */
    ghost predicate Fresh()
      reads this
    {
      && versions == [] && iterations == [] && iteration == None && calls == [] && learnings == []
      && bestValScore == None && bestAgentVersion == None
    }

    /** The best-so-far variables describe the iterations 0..i. */
    ghost predicate BestIs(w: World, i: nat)
      reads this`bestVersionNo, this`bestScore, this`bestFailures, this`bestTaskResults, this`noImprove,
            this`bestValScore, this`bestAgentVersion
    {
      && bestVersionNo == Best(w, i) && bestScore == Some(Score(w, Best(w, i)))
      && bestTaskResults == Result(w, Best(w, i)).tasks && bestFailures == NotPassed(Result(w, Best(w, i)).tasks)
      && noImprove == i - Best(w, i)
      && bestValScore == Some(Score(w, Best(w, i))) && bestAgentVersion == Some(Best(w, i))
    }

    /** The best-so-far variables before iteration `i` is judged. */
    ghost predicate BestBefore(w: World, i: nat)
      reads this`bestVersionNo, this`bestScore, this`bestFailures, this`bestTaskResults, this`noImprove,
            this`bestValScore, this`bestAgentVersion
    {
      if i > 0 then BestIs(w, i - 1)
      else
        && bestVersionNo == 0 && bestScore == None && bestTaskResults == [] && bestFailures == []
        && noImprove == 0 && bestValScore == None && bestAgentVersion == None
    }

    /** The numbering of versions during iteration `i`, before its proposal is recorded. */
    ghost predicate Numbered(w: World, i: nat)
      reads this`versions, this`nextVersionNo, this`candidateVersionNo
    {
      && versions == VersionRows(config, w, i + 1)
      && nextVersionNo == i + 1 && (i > 0 ==> candidateVersionNo == Some(i))
    }

    // ---- The steps of one iteration ----

    method StartIteration(i: nat)
      requires i > 0 ==> candidateVersionNo == Some(i)
      modifies this`iteration
      ensures iteration == Some(StartedRow(i))
    {
      var runVersionNo := if i == 0 then 0 else candidateVersionNo.value;
      iteration := Some(Iteration(i, runVersionNo, RunningBenchmark, None,
                                  if i > 0 then None else Some(true), [], None, None));
    }

    /** Decides whether the judged iteration becomes the new best. */
    method Judge(ghost w: World, i: nat, runVersionNo: nat, result: BenchmarkResult) returns (accepted: bool)
      requires BestBefore(w, i) && TurnAt(w, i).bench == Returned(result) && runVersionNo == i
      modifies this`bestVersionNo, this`bestScore, this`bestFailures, this`bestTaskResults, this`noImprove,
               this`bestValScore, this`bestAgentVersion
      ensures BestIs(w, i) && accepted == Accepted(w, i)
    {
      if i == 0 {
        bestScore := Some(result.valScore);
        bestValScore := bestScore;
        bestAgentVersion := Some(0);
        bestTaskResults := result.tasks;
        bestFailures := NotPassed(bestTaskResults);
        accepted := true;
      } else if bestScore == None || result.valScore > bestScore.value {
        bestScore := Some(result.valScore);
        bestVersionNo := runVersionNo;
        bestValScore := bestScore;
        bestAgentVersion := Some(bestVersionNo);
        accepted := true;
        noImprove := 0;
        bestTaskResults := result.tasks;
        bestFailures := NotPassed(bestTaskResults);
      } else {
        noImprove := noImprove + 1;
        accepted := false;
      }
    }

    /** Describes the judged attempt: the version it was made from against the candidate. */
    method DescribeAttempt(ghost w: World, i: nat, runVersionNo: nat, parentScore: Option<real>,
                           parentTasks: seq<TaskExecution>, result: BenchmarkResult, accepted: bool)
      returns (recent: Option<RecentAttempt>)
      requires i > 0 && Numbered(w, i) && TurnAt(w, i).bench == Returned(result) && runVersionNo == i
      requires accepted == Accepted(w, i)
      requires parentScore == Some(Score(w, Best(w, i - 1))) && parentTasks == Result(w, Best(w, i - 1)).tasks
      ensures recent == AttemptAt(config, w, i)
    {
      VersionRowsAt(config, w, i + 1, i);
      var version := versions[runVersionNo];
      var attempt := BuildRecentAttempt(version.parentVersionNo, runVersionNo, version.diff, parentScore,
                                        result.valScore, accepted, parentTasks, result.tasks);
      recent := Some(attempt);
    }

    /** Judges the benchmark of iteration `i` and completes its row. */
    method JudgeIteration(ghost w: World, i: nat, runVersionNo: nat, result: BenchmarkResult)
      returns (recent: Option<RecentAttempt>)
      requires Numbered(w, i) && BestBefore(w, i) && TurnAt(w, i).bench == Returned(result) && runVersionNo == i
      requires iteration == Some(StartedRow(i))
      modifies this`iteration, this`bestVersionNo, this`bestScore, this`bestFailures, this`bestTaskResults,
               this`noImprove, this`bestValScore, this`bestAgentVersion
      ensures iteration == Some(JudgedRow(w, i)) && BestIs(w, i)
      ensures recent == AttemptAt(config, w, i)
    {
      var row, parentScore, parentTasks := iteration.value, bestScore, bestTaskResults;
      var accepted := Judge(w, i, runVersionNo, result);
      iteration := Some(row.(valScore := Some(result.valScore), results := result.tasks, phase := Done,
                             accepted := Some(accepted)));
      if i == 0 {
        recent := None;
      } else {
        recent := DescribeAttempt(w, i, runVersionNo, parentScore, parentTasks, result, accepted);
      }
    }

    /** The stop tests behind the judgement, in their order of priority. */
    method StopTests(ghost w: World, i: nat, result: BenchmarkResult) returns (exit: Option<Exit>)
      requires BestIs(w, i) && TurnAt(w, i).bench == Returned(result)
      requires !TurnAt(w, i).cancelledBefore && !TurnAt(w, i).cancelledAfterBench
      requires stopReason == None
      modifies this`stopReason
      ensures exit == BenchmarkExit(config, w, i)
      ensures exit.Some? ==> Judged(exit.value) && !IsCancelled(exit.value) && !IsRaised(exit.value)
      ensures exit.Some? ==> forall c :: LastRow(c, w, i, exit.value) == Some(JudgedRow(w, i))
      ensures stopReason == if exit.None? then None else Some(ReasonOf(exit.value))
      ensures var impatient := i > 0 && noImprove >= config.patience;
              var passed := result.tasks != [] && forall t | t in result.tasks :: t.status == Passed;
        && stopReason != Some(Cancelled) && stopReason != Some(Error)
        && (stopReason == Some(NoImprovement) <==> impatient)
        && (stopReason == Some(AllTasksPassed) <==> !impatient && passed)
        && (stopReason == Some(MaxIterations) <==> !impatient && !passed && i >= config.maxIterations)
    {
      EachPassedMeans(result.tasks);
      if i > 0 && noImprove >= config.patience {
        stopReason := Some(NoImprovement);
        return Some(OutOfPatience);
      }
      if result.AllPassed() {
        stopReason := Some(AllTasksPassed);
        return Some(EverythingPassed);
      }
      if i >= config.maxIterations {
        stopReason := Some(MaxIterations);
        return Some(OutOfIterations);
      }
      exit := None;
    }

    /** The first half of an iteration: cancellation check, benchmark, second check, judgement, stop tests. */
    method BenchmarkPhase(w: World, i: nat) returns (exit: Option<Exit>, recent: Option<RecentAttempt>)
      requires Numbered(w, i) && BestBefore(w, i) && status == Running && stopReason == None
      requires iteration == None
      modifies this`status, this`stopReason, this`iteration, this`bestVersionNo, this`bestScore, this`bestFailures,
               this`bestTaskResults, this`noImprove, this`bestValScore,
               this`bestAgentVersion
      ensures exit == BenchmarkExit(config, w, i)
      ensures exit.Some? ==> iteration == LastRow(config, w, i, exit.value)
      ensures exit.None? ==> iteration == Some(JudgedRow(w, i)) && recent == AttemptAt(config, w, i)
      ensures if exit.Some? && !Judged(exit.value) then BestBefore(w, i) else BestIs(w, i)
      ensures status == if exit.None? then Running else StatusAfter(exit.value)
      ensures stopReason == if exit.None? then None else ReasonAfter(exit.value)
    {
      hide VersionRows, BestIs, BestBefore, AttemptAt, Best, Score, Accepted;
      recent := None;
      if TurnAt(w, i).cancelledBefore {
        status, stopReason := JobCancelled, Some(Cancelled);
        return Some(CancelledBefore), None;
      }
      var runVersionNo := if i == 0 then 0 else candidateVersionNo.value;
      StartIteration(i);
      if TurnAt(w, i).bench.Raised? {
        return Some(BenchmarkRaised(TurnAt(w, i).bench.message)), None;
      }
      var result := TurnAt(w, i).bench.value;
      if TurnAt(w, i).cancelledAfterBench {
        iteration := Some(iteration.value.(phase := PhaseFailed, error := Some(CancelledDuringBenchmark)));
        status, stopReason := JobCancelled, Some(Cancelled);
        return Some(CancelledAfterBench), None;
      }
      recent := JudgeIteration(w, i, runVersionNo, result);
      exit := StopTests(w, i, result);
    }

    /** What the optimizer is shown. */
    method CallOptimizer(ghost w: World, i: nat, recent: Option<RecentAttempt>) returns (agent: string)
      requires Numbered(w, i) && BestIs(w, i) && recent == AttemptAt(config, w, i)
      requires calls == Calls(config, w, i) && learnings == LessonsAfter(w, i)
      modifies this`calls
      ensures calls == Calls(config, w, i + 1)
      ensures agent == Content(config, w, Best(w, i))
    {
      VersionRowsAt(config, w, i + 1, Best(w, i));
      agent := versions[bestVersionNo].content;
      calls := calls + [ProposeCall(i, agent, bestFailures, bestTaskResults, bestScore.value,
                                    bestVersionNo, learnings, recent)];
    }

    method AddVersion(ghost w: World, i: nat, current: string, proposal: Proposal)
      requires Numbered(w, i) && BestIs(w, i) && TurnAt(w, i).propose == Returned(proposal)
      requires current == Content(config, w, Best(w, i))
      modifies this`versions, this`candidateVersionNo, this`nextVersionNo
      ensures Numbered(w, i + 1)
    {
      versions := versions + [AgentVersion(nextVersionNo, Some(bestVersionNo), proposal.content,
                                           Between(current, proposal.content), Some(i))];
      candidateVersionNo := Some(nextVersionNo);
      nextVersionNo := nextVersionNo + 1;
    }

    /** Writes the proposal into the row and into the job's learning log. */
    method RecordProposal(ghost w: World, i: nat, recent: Option<RecentAttempt>, proposal: Proposal)
      requires BestIs(w, i) && TurnAt(w, i).propose == Returned(proposal) && recent == AttemptAt(config, w, i)
      requires iteration == Some(JudgedRow(w, i).(phase := Proposing))
      requires learnings == LessonsAfter(w, i)
      modifies this`iteration, this`learnings
      ensures iteration == Some(ProposedRow(config, w, i))
      ensures learnings == LessonsAfter(w, i + 1)
    {
      iteration := Some(iteration.value.(context := Some((bestVersionNo, recent)), phase := Done));
      learnings := learnings + [Lesson(i, bestVersionNo, proposal.rationale, proposal.learnings)];
    }

    /** Records the proposal and, unless it changes nothing, turns it into the next version. */
    method ConcludeProposal(ghost w: World, i: nat, recent: Option<RecentAttempt>, agent: string, proposal: Proposal)
      returns (exit: Option<Exit>)
      requires Numbered(w, i) && BestIs(w, i) && stopReason == None
      requires TurnAt(w, i).propose == Returned(proposal) && recent == AttemptAt(config, w, i)
      requires iteration == Some(JudgedRow(w, i).(phase := Proposing))
      requires agent == Content(config, w, Best(w, i)) && learnings == LessonsAfter(w, i)
      modifies this`stopReason, this`iteration, this`versions, this`nextVersionNo,
               this`candidateVersionNo, this`learnings
      ensures exit == if proposal.content == agent then Some(ProposalUnchanged) else None
      ensures Numbered(w, if exit.None? then i + 1 else i)
      ensures learnings == LessonsAfter(w, i + 1)
      ensures iteration == Some(ProposedRow(config, w, i))
      ensures stopReason == if exit.None? then None else Some(NoImprovement)
    {
      RecordProposal(w, i, recent, proposal);
      if proposal.content == agent {
        stopReason := Some(NoImprovement);
        return Some(ProposalUnchanged);
      }
      AddVersion(w, i, agent, proposal);
      exit := None;
    }

    /** The optimizer call with the check behind it. */
    method RequestProposal(w: World, i: nat, recent: Option<RecentAttempt>) returns (exit: Option<Exit>, agent: string)
      requires Numbered(w, i) && BestIs(w, i) && status == Running && stopReason == None
      requires iteration == Some(JudgedRow(w, i)) && recent == AttemptAt(config, w, i)
      requires calls == Calls(config, w, i) && learnings == LessonsAfter(w, i)
      modifies this`status, this`stopReason, this`iteration, this`calls
      ensures exit == RequestExit(w, i)
      ensures calls == Calls(config, w, i + 1)
      ensures agent == Content(config, w, Best(w, i))
      ensures exit.None? ==> iteration == Some(JudgedRow(w, i).(phase := Proposing))
      ensures exit.Some? ==> iteration == LastRow(config, w, i, exit.value)
      ensures status == if exit.None? then Running else StatusAfter(exit.value)
      ensures stopReason == if exit.None? then None else ReasonAfter(exit.value)
    {
      hide Numbered, BestIs, Calls, CallAt, AttemptAt, LessonsAfter, Best, Content;
      iteration := Some(iteration.value.(phase := Proposing));
      agent := CallOptimizer(w, i, recent);
      if TurnAt(w, i).propose.Raised? {
        return Some(ProposalRaised(TurnAt(w, i).propose.message)), agent;
      }
      if TurnAt(w, i).cancelledAfterProposal {
        iteration := Some(iteration.value.(phase := PhaseFailed, error := Some(CancelledDuringProposal)));
        status, stopReason := JobCancelled, Some(Cancelled);
        return Some(CancelledAfterProposal), agent;
      }
      exit := None;
    }

    // ---- The loop ----

    /** The state in front of iteration `i`. */
    ghost predicate AtTop(w: World, i: nat)
      reads this
    {
      && Numbered(w, i) && BestBefore(w, i) && status == Running && stopReason == None
      && iterations == ProposedRows(config, w, i) && iteration == None
      && calls == Calls(config, w, i) && learnings == LessonsAfter(w, i)
    }

    /** The rows and variables that iteration `i` leaves behind when it ends the run. */
    ghost predicate LeftBehind(w: World, i: nat, exit: Exit)
      reads this`versions, this`nextVersionNo, this`candidateVersionNo, this`bestVersionNo, this`bestScore,
            this`bestFailures, this`bestTaskResults, this`noImprove, this`bestValScore,
            this`bestAgentVersion, this`iterations, this`iteration, this`calls, this`learnings
    {
      && Numbered(w, i)
      && (if Judged(exit) then BestIs(w, i) else BestBefore(w, i))
      && iterations == ProposedRows(config, w, i) && iteration == LastRow(config, w, i, exit)
      && calls == Calls(config, w, i + LastCalls(exit)) && learnings == LessonsAfter(w, i + LastLessons(exit))
    }

    /** The state in which iteration `i` leaves the run when it ends it. */
    ghost predicate EndedAt(w: World, i: nat, exit: Exit)
      reads this
    {
      LeftBehind(w, i, exit) && status == StatusAfter(exit) && stopReason == ReasonAfter(exit)
    }

    method OptimizerPhase(w: World, i: nat, recent: Option<RecentAttempt>) returns (exit: Option<Exit>)
      requires Numbered(w, i) && BestIs(w, i) && status == Running && stopReason == None
      requires iterations == ProposedRows(config, w, i) && iteration == Some(JudgedRow(w, i))
      requires recent == AttemptAt(config, w, i)
      requires calls == Calls(config, w, i) && learnings == LessonsAfter(w, i)
      modifies this`status, this`stopReason, this`iteration, this`iterations, this`versions, this`nextVersionNo,
               this`candidateVersionNo, this`learnings, this`calls
      ensures exit == OptimizerExit(config, w, i) && calls == Calls(config, w, i + 1)
      ensures exit.None? ==> Numbered(w, i + 1) && learnings == LessonsAfter(w, i + 1)
                             && iterations == ProposedRows(config, w, i + 1) && iteration == None
                             && status == Running && stopReason == None
      ensures exit.Some? ==> Numbered(w, i) && learnings == LessonsAfter(w, i + LastLessons(exit.value))
                             && iterations == old(iterations) && iteration == LastRow(config, w, i, exit.value)
                             && status == StatusAfter(exit.value) && stopReason == ReasonAfter(exit.value)
      ensures exit.Some? ==> Judged(exit.value) && LastCalls(exit.value) == 1
    {
      hide ProposedRow, JudgedRow, AttemptAt, VersionRow, Numbered, BestIs, Calls, CallAt, LessonsAfter, LessonAt, Best;
      var agent;
      exit, agent := RequestProposal(w, i, recent);
      if exit.Some? {
        return;
      }
      exit := ConcludeProposal(w, i, recent, agent, TurnAt(w, i).propose.value);
      if exit.None? {
        iterations := iterations + [iteration.value];
        iteration := None;
      }
    }

    method RunIteration(w: World, i: nat) returns (exit: Option<Exit>)
      requires AtTop(w, i)
      modifies this
      ensures error == old(error)
      ensures exit == ExitAt(config, w, i)
      ensures if exit.None? then AtTop(w, i + 1) else EndedAt(w, i, exit.value)
    {
      hide ProposedRows, ProposedRow, JudgedRow, LastRow, VersionRow, Numbered, BestIs, BenchmarkExit, OptimizerExit,
           StatusAfter, ReasonAfter, Calls, CallAt, LessonsAfter, LessonAt, Best, TurnAt;
      var recent;
      exit, recent := BenchmarkPhase(w, i);
      if exit.None? {
        exit := OptimizerPhase(w, i, recent);
      }
    }

    method StoreTemplate()
      requires versions == []
      modifies this`versions
      ensures versions == [AgentVersion(0, None, config.template, NoDiff, None)]
    {
      versions := versions + [AgentVersion(0, None, config.template, NoDiff, None)];
    }

    method InitializeVariables()
      modifies this`bestVersionNo, this`bestScore, this`bestFailures, this`bestTaskResults, this`noImprove,
               this`nextVersionNo, this`candidateVersionNo
      ensures bestVersionNo == 0 && bestScore == None && bestFailures == [] && bestTaskResults == []
      ensures noImprove == 0 && nextVersionNo == 1 && candidateVersionNo == None
    {
      bestVersionNo, bestScore, bestFailures, bestTaskResults := 0, None, [], [];
      noImprove, nextVersionNo, candidateVersionNo := 0, 1, None;
    }

    /** Stores the template as version 0 and sets up the variables of the loop. */
    method CreateBaseline(ghost w: World)
      requires Fresh() && status == Running && stopReason == None
      modifies this`versions, this`bestVersionNo, this`bestScore, this`bestFailures, this`bestTaskResults,
               this`noImprove, this`nextVersionNo, this`candidateVersionNo
      ensures AtTop(w, 0)
    {
      FirstVersion(config, w);
      hide BestIs, VersionRows, CallAt, LessonAt, ProposedRow;
      StoreTemplate();
      InitializeVariables();
    }

    /** `_run_loop`. The bound of the loop is never what ends it: the last iteration stops by itself. */
    method RunLoop(w: World) returns (exit: Exit)
      requires Fresh() && status == Running && stopReason == None && error == None
      modifies this
      ensures error == None
      ensures exit == FinalExit(config, w) && EndedAt(w, End(config, w), exit)
    {
      hide AtTop, EndedAt, ExitAt;
      CreateBaseline(w);
      var i := 0;
      var ended := RunIteration(w, 0);
      while ended.None?
        invariant i <= config.maxIterations && Reaches(config, w, i) && error == None
        invariant ended == ExitAt(config, w, i)
        invariant if ended.None? then AtTop(w, i + 1) else EndedAt(w, i, ended.value)
        decreases config.maxIterations - i
      {
        LimitEndsRun(config, w, i);
        i := i + 1;
        ended := RunIteration(w, i);
      }
      EndIs(config, w, i);
      exit := ended.value;
    }

    /** The job row and all that hangs on it, as they stand. */
    ghost function Account(): RunAccount.Record
      reads this
    {
      RunAccount.Record(status, stopReason, error, bestAgentVersion, bestValScore,
                        iterations + (if iteration.Some? then [iteration.value] else []), versions, calls, learnings)
    }

    lemma AccountOfRun(w: World)
      requires var exit := FinalExit(config, w);
        && LeftBehind(w, End(config, w), exit)
        && status == FinalStatus(exit) && stopReason == Some(ReasonOf(exit)) && error == FinalError(exit)
      ensures RunAccount.Told(config, w, Account())
    {
      hide VersionRows, ProposedRows, Calls, LessonsAfter, Best, Score, LastRow, ExitAt, ReasonOf, FinalStatus,
           FinalError, RunAccount.Told, NotPassed, Result;
      RunAccount.RunIsTold(config, w);
      assert Account() == RunAccount.RecordOf(config, w);
    }

    /** `process`, from the loaded job row on. */
    method Process(w: World)
      requires status == Queued || status == Running ==> Fresh() && stopReason == None && error == None
      modifies this
      ensures old(status) == Queued || old(status) == Running ==>
                var exit := FinalExit(config, w);
                && LeftBehind(w, End(config, w), exit)
                && status == FinalStatus(exit) && stopReason == Some(ReasonOf(exit)) && error == FinalError(exit)
      ensures old(status) == Queued || old(status) == Running ==> RunAccount.Told(config, w, Account())
      ensures old(status) == JobCancelled ==>
                && status == JobCancelled
                && stopReason == if old(stopReason) == None then Some(Cancelled) else old(stopReason)
      ensures old(status) == Completed || old(status) == JobFailed ==>
                status == old(status) && stopReason == old(stopReason)
      ensures old(status) != Queued && old(status) != Running ==>
                error == old(error) && versions == old(versions) && iterations == old(iterations)
                && iteration == old(iteration) && learnings == old(learnings) && calls == old(calls)
                && bestValScore == old(bestValScore) && bestAgentVersion == old(bestAgentVersion)
    {
      hide LeftBehind, FinalExit, End, Account, RunAccount.Told;
      if status == JobCancelled {
        if stopReason == None {
          stopReason := Some(Cancelled);
        }
        return;
      }
      if status != Queued && status != Running {
        return;
      }
      status := Running;
      var exit := RunLoop(w);
      if IsRaised(exit) {
        status, stopReason, error := JobFailed, Some(Error), Some(exit.message);
      } else if status == Running {
        status := Completed;
      }
      AccountOfRun(w);
    }
  }
}
