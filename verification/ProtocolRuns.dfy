/** Whatever the interleaving, the course of each job is a run of RunSpec. */
module ProtocolRuns {
  import opened Wrappers
  import opened Benchmark
  import opened RunSpec
  import opened RunPrefixes
  import opened JobProtocol
  import ExecutorContract
  import ProtocolTheorems
  import RunAccount
  import RunResults
  import RunTheorems

  /** The row of a job whose run ended in this way. */
  function FinalRow(exit: Exit): Fields { Fields(FinalStatus(exit), Some(ReasonOf(exit))) }

  /** The benchmark calls of the iteration that ended this way: one, once it has its row. */
  function LastBenchmarks(exit: Exit): nat { if exit.CancelledBefore? then 0 else 1 }

  function Results(w: World, n: nat): (results: seq<BenchmarkResult>)
    ensures |results| == n
  {
    seq(n, i requires 0 <= i < n => Result(w, i))
  }

  /** Nothing has happened to the job but that it was stored, and perhaps claimed. */
  predicate Fresh(job: Job) {
    job.course.turns == [] && job.course.saved == [] && job.work == Work(0, 0) && !job.course.storeFailed
  }

  /** The calls begun and the rows added in the current turn. */
  function CallsIn(pc: Pc): nat {
    if pc.InBenchmark? || pc.AfterBenchmark? || pc.BeforeSave? || pc.BeforeProposal? then 1
    else if pc.InProposal? || pc.AfterProposal? || pc.BeforeConclusion? then 2
    else 0
  }

  function RowsIn(pc: Pc): nat { if pc.AtTop? || pc.BeforeInsert? then 0 else 1 }

  predicate IsSaved(pc: Pc) { pc.BeforeProposal? || pc.InProposal? || pc.AfterProposal? || pc.BeforeConclusion? }

  /** Behind the stop tests none of them has applied. */
  predicate TurnOk(course: Course, pc: Pc) {
    IsSaved(pc) ==>
      BenchmarkExit(course.config, Extended(course, BenchmarkTurn(Returned(pc.result), false)), |course.turns|).None?
  }

  /** The run has survived its turns and stands in the next one. */
  predicate Underway(job: Job, pc: Pc) {
    var course := job.course; var n := |course.turns|;
    && !course.storeFailed && Reaches(course.config, course.turns, n)
    && job.work == Work(2 * n + CallsIn(pc), 2 * n + 1 + RowsIn(pc))
    && course.saved == Results(course.turns, n) + (if IsSaved(pc) then [pc.result] else [])
    && TurnOk(course, pc)
  }

  /** The last turn has ended the run in this way. */
  predicate Over(job: Job, exit: Exit) {
    var course := job.course; var n := |course.turns| - 1;
    && n >= 0 && !course.storeFailed && Reaches(course.config, course.turns, n)
    && ExitAt(course.config, course.turns, n) == Some(exit)
    && job.work == Work(2 * n + LastBenchmarks(exit) + LastCalls(exit), 2 * n + 1 + LastBenchmarks(exit))
    && course.saved == Results(course.turns, if Judged(exit) then n + 1 else n)
  }

  /** The store has failed the run in the turn behind those it survived. */
  predicate Broken(job: Job) {
    var course := job.course; var n := |course.turns|;
    && course.storeFailed && Reaches(course.config, course.turns, n)
    && Results(course.turns, n) <= course.saved && |course.saved| <= n + 1
  }

  /** How the last turn has ended the run. */
  function LastExit(course: Course): Option<Exit> {
    if course.turns == [] then None else ExitAt(course.config, course.turns, |course.turns| - 1)
  }

  /** A cancel that was committed and never read: it has taken the row, or it has left its reason in a row that the
      processor completed behind an unchanged proposal. */
  predicate CancelUnread(job: Job, sameText: bool) {
    && job.mark.Some? && !job.seen
    && (job.row == GONE || (sameText && job.row == Fields(Completed, Some(Cancelled))))
  }

  predicate Finished(job: Job) {
    var exit := LastExit(job.course);
    && exit.Some? && Over(job, exit.value)
    && (job.row == FinalRow(exit.value) || CancelUnread(job, exit.value.ProposalUnchanged?))
    && (job.seen ==> IsCancelled(exit.value))
  }

  /** About to conclude: only a cancellation that was read, or a regular stop. */
  predicate Concluding(job: Job, s: Session) {
    var exit := LastExit(job.course);
    && exit.Some? && Over(job, exit.value)
    && !IsRaised(exit.value) && (IsCancelled(exit.value) <==> job.seen)
    && s.cur.reason == Some(ReasonOf(exit.value)) && (s == Read(UNCHANGED) ==> exit.value.ProposalUnchanged?)
  }

  predicate CourseOk(job: Job, role: Role) {
    && (job.row.status == JobCancelled ==> job.mark.Some?)
    && match role
       case Free => Fresh(job) || (job.claimed && (Broken(job) || Finished(job)))
       case IsSelected => Fresh(job)
       case IsClaimed => Fresh(job)
       case At(pc, s) =>
         if pc.AtStart? || pc.BeforeBaseline? then Fresh(job)
         else if pc.AtFinish? then Concluding(job, s)
         else Underway(job, pc)
  }

  // ---- One more turn ----

  lemma TurnExtends(course: Course, turn: Turn)
    ensures var w, n := Extended(course, turn), |course.turns|;
      && TurnAt(w, n) == turn && course.turns <= w
      && Reaches(course.config, w, n) == Reaches(course.config, course.turns, n)
      && Results(w, n) == Results(course.turns, n)
      && (turn.bench.Returned? ==> Results(w, n + 1) == Results(course.turns, n) + [turn.bench.value])
  {
    ReachesOfPrefix(course.config, course.turns, Extended(course, turn), |course.turns|);
    hide Reaches;
  }

  /** How the first half of a turn ends a run. */
  lemma ShortTurnExits(course: Course, bench: Reply<BenchmarkResult>, cancelled: bool)
    ensures ExitAt(course.config, Extended(course, CANCELLED_EARLY), |course.turns|) == Some(CancelledBefore)
    ensures var w := Extended(course, BenchmarkTurn(bench, cancelled));
            var stop := BenchmarkExit(course.config, w, |course.turns|);
            ExitAt(course.config, w, |course.turns|)
            == if bench.Raised? then Some(BenchmarkRaised(bench.message))
               else if cancelled then Some(CancelledAfterBench)
               else if stop.Some? then stop
               else Some(ProposalRaised(""))
  {
  }

  /** How the second half does, when the first has not. */
  lemma FullTurnExits(course: Course, result: BenchmarkResult, propose: Reply<Proposal>, cancelled: bool)
    requires var turn := BenchmarkTurn(Returned(result), false);
             BenchmarkExit(course.config, Extended(course, turn), |course.turns|).None?
    ensures ExitAt(course.config, Extended(course, FullTurn(result, propose, cancelled)), |course.turns|)
         == if propose.Raised? then Some(ProposalRaised(propose.message))
            else if cancelled then Some(CancelledAfterProposal)
            else if Changes(course, FullTurn(result, propose, cancelled), propose.value) then None
            else Some(ProposalUnchanged)
  {
    var v := Extended(course, BenchmarkTurn(Returned(result), false));
    var w := Extended(course, FullTurn(result, propose, cancelled));
    BenchmarkExitOfPrefix(course.config, v, w, |course.turns|);
  }

  /** A turn that ends the run in this way leaves it over. */
  lemma TurnEndsRun(job: Job, turn: Turn, exit: Exit, after: Job)
    requires !job.course.storeFailed && Reaches(job.course.config, job.course.turns, |job.course.turns|)
    requires ExitAt(job.course.config, Extended(job.course, turn), |job.course.turns|) == Some(exit)
    requires Judged(exit) ==> turn.bench.Returned?
    requires after.course.config == job.course.config && after.course.turns == Extended(job.course, turn)
    requires !after.course.storeFailed
    requires after.course.saved == Results(job.course.turns, |job.course.turns|)
                                   + (if Judged(exit) then [turn.bench.value] else [])
    requires after.work == Work(2 * |job.course.turns| + LastBenchmarks(exit) + LastCalls(exit),
                                2 * |job.course.turns| + 1 + LastBenchmarks(exit))
    ensures LastExit(after.course) == Some(exit) && Over(after, exit)
  {
    TurnExtends(job.course, turn);
    hide Reaches, ExitAt, Results;
  }

  // ---- Each step of the processor keeps the course in order ----

  lemma StartKeepsCourse(job: Job, pc: Pc, s: Session)
    requires JobOk(job, At(pc, s)) && CourseOk(job, At(pc, s)) && (pc.AtStart? || pc.BeforeBaseline?)
    ensures var o := GoStep(job, pc, s).value; CourseOk(o.job, RoleAfter(o.next))
  {
    hide BenchmarkExit, ExitAt, ReportOk, WithinMark, SeenOk, Complete;
  }

  lemma StoreFailureKeepsCourse(job: Job, pc: Pc, s: Session, message: string)
    requires JobOk(job, At(pc, s)) && CourseOk(job, At(pc, s))
    requires !pc.InBenchmark? && !pc.InProposal? && !pc.AtFinish?
    ensures CourseOk(FailStep(job, pc, s, message).job, Free)
  {
    assert Results(job.course.turns, |job.course.turns|) <= job.course.saved;
    hide BenchmarkExit, ExitAt, ReportOk, WithinMark, SeenOk, Complete, Concluding, Finished;
  }

  lemma QuietStepKeepsCourse(job: Job, pc: Pc, s: Session, move: Move)
    requires JobOk(job, At(pc, s)) && CourseOk(job, At(pc, s)) && ProcessorStep(job, pc, s, move).Some?
    requires !move.Raise?
    requires pc.BeforeInsert? || pc.BeforeBenchmark? || pc.BeforeProposal? || pc.InBenchmark? || pc.InProposal?
    ensures var o := ProcessorStep(job, pc, s, move).value; CourseOk(o.job, RoleAfter(o.next))
  {
    hide BenchmarkExit, ExitAt, Reaches, Results, JobOk, MayReport, SaveStep, ConcludeStep, FailStep, StartStep,
         FinishStep, Check, Concluding, Finished, Broken;
  }

  /** A turn that ends with a cancel that was just read. */
  lemma CancelEndsRun(job: Job, turn: Turn, told: bool, exit: Exit, after: Job)
    requires job.row.status == JobCancelled && job.mark.Some?
    requires !job.course.storeFailed && Reaches(job.course.config, job.course.turns, |job.course.turns|)
    requires ExitAt(job.course.config, Extended(job.course, turn), |job.course.turns|) == Some(exit)
    requires IsCancelled(exit) && (Judged(exit) ==> turn.bench.Returned?)
    requires job.course.saved == Results(job.course.turns, |job.course.turns|)
                                 + (if Judged(exit) then [turn.bench.value] else [])
    requires job.work == Work(2 * |job.course.turns| + LastBenchmarks(exit) + LastCalls(exit),
                              2 * |job.course.turns| + 1 + LastBenchmarks(exit))
    requires after == Met(job.(row := after.row, seen := true), turn, told)
    ensures CourseOk(after, At(AtFinish, Read(GONE)))
  {
    TurnEndsRun(job, turn, exit, after);
    hide ExitAt, Reaches, Results, Extended, Over, LastExit;
  }

  lemma TopKeepsCourse(job: Job, s: Session)
    requires JobOk(job, At(AtTop, s)) && CourseOk(job, At(AtTop, s))
    ensures var o := Check(job, CANCELLED_EARLY, false, BeforeInsert).value; CourseOk(o.job, RoleAfter(o.next))
  {
    hide BenchmarkExit, ReportOk, WithinMark, SeenOk, Reaches, Results;
    if job.row.status == JobCancelled {
      ShortTurnExits(job.course, Raised(""), false);
      hide ExitAt;
      CancelEndsRun(job, CANCELLED_EARLY, false, CancelledBefore,
                    Check(job, CANCELLED_EARLY, false, BeforeInsert).value.job);
    }
  }

  lemma BenchmarkCheckKeepsCourse(job: Job, told: bool, r: BenchmarkResult, s: Session)
    requires JobOk(job, At(AfterBenchmark(told, r), s)) && CourseOk(job, At(AfterBenchmark(told, r), s))
    ensures var o := Check(job, BenchmarkTurn(Returned(r), true), told, BeforeSave(told, r)).value;
            CourseOk(o.job, RoleAfter(o.next))
  {
    hide BenchmarkExit, ReportOk, WithinMark, SeenOk, Reaches, Results;
    if job.row.status == JobCancelled {
      var turn := BenchmarkTurn(Returned(r), true);
      ShortTurnExits(job.course, Returned(r), true);
      hide ExitAt;
      CancelEndsRun(job, turn, told, CancelledAfterBench, Check(job, turn, told, BeforeSave(told, r)).value.job);
    }
  }

  lemma ProposalCheckKeepsCourse(job: Job, told: bool, r: BenchmarkResult, p: Proposal, s: Session)
    requires JobOk(job, At(AfterProposal(told, r, p), s)) && CourseOk(job, At(AfterProposal(told, r, p), s))
    ensures var o := Check(job, FullTurn(r, Returned(p), true), told, BeforeConclusion(told, r, p)).value;
            CourseOk(o.job, RoleAfter(o.next))
  {
    hide BenchmarkExit, ReportOk, WithinMark, SeenOk, Reaches, Results;
    if job.row.status == JobCancelled {
      var turn := FullTurn(r, Returned(p), true);
      FullTurnExits(job.course, r, Returned(p), true);
      hide ExitAt;
      CancelEndsRun(job, turn, told, CancelledAfterProposal,
                    Check(job, turn, told, BeforeConclusion(told, r, p)).value.job);
    }
  }

  lemma SaveKeepsCourse(job: Job, told: bool, r: BenchmarkResult, s: Session)
    requires JobOk(job, At(BeforeSave(told, r), s)) && CourseOk(job, At(BeforeSave(told, r), s))
    ensures var o := SaveStep(job, told, r, s).value; CourseOk(o.job, RoleAfter(o.next))
  {
    hide BenchmarkExit, ReportOk, WithinMark, Reaches, Results, ReasonOf;
    var o, turn := SaveStep(job, told, r, s).value, BenchmarkTurn(Returned(r), false);
    var exit := BenchmarkExit(job.course.config, Extended(job.course, turn), |job.course.turns|);
    if exit.Some? {
      CourseStops(job.course, r);
      ShortTurnExits(job.course, Returned(r), false);
      hide ExitAt;
      TurnEndsRun(job, turn, exit.value, o.job);
      hide Over, LastExit;
    }
  }

  /** A survived turn is one more turn of the run. */
  lemma TurnGoesOn(job: Job, turn: Turn, after: Job)
    requires !job.course.storeFailed && Reaches(job.course.config, job.course.turns, |job.course.turns|)
    requires ExitAt(job.course.config, Extended(job.course, turn), |job.course.turns|).None?
    requires turn.bench.Returned?
    requires job.course.saved == Results(job.course.turns, |job.course.turns|) + [turn.bench.value]
    requires after.course == job.course.(turns := Extended(job.course, turn), told := after.course.told)
    requires after.work == Work(2 * |job.course.turns| + 2, 2 * |job.course.turns| + 3)
    ensures Underway(after, AtTop)
  {
    TurnExtends(job.course, turn);
    hide ExitAt, Results;
  }

  lemma ConclusionKeepsCourse(job: Job, told: bool, r: BenchmarkResult, p: Proposal, s: Session)
    requires JobOk(job, At(BeforeConclusion(told, r, p), s)) && CourseOk(job, At(BeforeConclusion(told, r, p), s))
    ensures var o := ConcludeStep(job, told, r, p, s).value; CourseOk(o.job, RoleAfter(o.next))
  {
    hide BenchmarkExit, ReportOk, WithinMark, Reaches, Results, Changes;
    var o, turn := ConcludeStep(job, told, r, p, s).value, FullTurn(r, Returned(p), false);
    FullTurnExits(job.course, r, Returned(p), false);
    hide ExitAt;
    if Changes(job.course, turn, p) {
      TurnGoesOn(job, turn, o.job);
      hide Underway;
    } else {
      TurnEndsRun(job, turn, ProposalUnchanged, o.job);
      hide Over, LastExit;
    }
  }

  lemma BenchmarkFailureKeepsCourse(job: Job, told: bool, s: Session, message: string)
    requires JobOk(job, At(InBenchmark(told), s)) && CourseOk(job, At(InBenchmark(told), s))
    ensures CourseOk(FailStep(job, InBenchmark(told), s, message).job, Free)
  {
    hide BenchmarkExit, ReportOk, WithinMark, Reaches, Results;
    var after := FailStep(job, InBenchmark(told), s, message).job;
    ShortTurnExits(job.course, Raised(message), false);
    hide ExitAt;
    TurnEndsRun(job, BenchmarkTurn(Raised(message), false), BenchmarkRaised(message), after);
    hide Over, LastExit;
  }

  lemma ProposalFailureKeepsCourse(job: Job, told: bool, r: BenchmarkResult, s: Session, message: string)
    requires JobOk(job, At(InProposal(told, r), s)) && CourseOk(job, At(InProposal(told, r), s))
    ensures CourseOk(FailStep(job, InProposal(told, r), s, message).job, Free)
  {
    hide BenchmarkExit, ReportOk, WithinMark, Reaches, Results;
    var after := FailStep(job, InProposal(told, r), s, message).job;
    FullTurnExits(job.course, r, Raised(message), false);
    hide ExitAt;
    TurnEndsRun(job, FullTurn(r, Raised(message), false), ProposalRaised(message), after);
    hide Over, LastExit;
  }

  lemma FinishKeepsCourse(job: Job, s: Session)
    requires JobOk(job, At(AtFinish, s)) && CourseOk(job, At(AtFinish, s))
    ensures CourseOk(FinishStep(job, s).job, Free)
  {
    hide BenchmarkExit, ExitAt, ReportOk, WithinMark, Reaches, Results;
  }

  lemma ProcessorKeepsCourse(job: Job, pc: Pc, s: Session, move: Move)
    requires JobOk(job, At(pc, s)) && CourseOk(job, At(pc, s)) && ProcessorStep(job, pc, s, move).Some?
    ensures var o := ProcessorStep(job, pc, s, move).value; CourseOk(o.job, RoleAfter(o.next))
  {
    hide JobOk, CourseOk, SaveStep, StartStep;
    if move.Raise? && pc.InBenchmark? {
      BenchmarkFailureKeepsCourse(job, pc.told, s, move.message);
    } else if move.Raise? && pc.InProposal? {
      ProposalFailureKeepsCourse(job, pc.told, pc.result, s, move.message);
    } else if move.Raise? {
      StoreFailureKeepsCourse(job, pc, s, move.message);
    } else if pc.AtStart? || pc.BeforeBaseline? {
      StartKeepsCourse(job, pc, s);
    } else if move.Go? && pc.AtTop? {
      TopKeepsCourse(job, s);
    } else if move.Go? && pc.AfterBenchmark? {
      BenchmarkCheckKeepsCourse(job, pc.told, pc.result, s);
    } else if move.Go? && pc.AfterProposal? {
      ProposalCheckKeepsCourse(job, pc.told, pc.result, pc.proposal, s);
    } else if move.Go? && pc.BeforeSave? {
      SaveKeepsCourse(job, pc.told, pc.result, s);
    } else if move.Go? && pc.BeforeConclusion? {
      ConclusionKeepsCourse(job, pc.told, pc.result, pc.proposal, s);
    } else if pc.AtFinish? {
      FinishKeepsCourse(job, s);
    } else {
      QuietStepKeepsCourse(job, pc, s, move);
    }
  }

  // ---- Each step of the system does ----

  predicate CoursesOk(s: State) {
    forall id | 0 <= id < |s.jobs| :: CourseOk(s.jobs[id], RoleOf(s.worker, id))
  }

  lemma WorkKeepsCourses(s: State, t: State, id: nat)
    requires CoursesOk(s) && id < |s.jobs| == |t.jobs| && CourseOk(t.jobs[id], RoleOf(t.worker, id))
    requires forall j | 0 <= j < |s.jobs| && j != id ::
               t.jobs[j] == s.jobs[j] && RoleOf(t.worker, j) == RoleOf(s.worker, j)
    ensures CoursesOk(t)
  {
  }

  lemma GoneKeepsCourse(job: Job, role: Role, mark: Option<Work>)
    requires CourseOk(job, role) && mark.Some?
    ensures CourseOk(job.(row := GONE, mark := mark), role)
  {
    hide ExitAt, Reaches, Results, TurnOk;
  }

  lemma CancelKeepsCourse(job: Job, role: Role, s: Session)
    requires JobOk(job, role) && CourseOk(job, role) && PendingOk(s)
    ensures CourseOk(CancelledJob(job, s), role)
  {
    CancelKeepsJobOk(job, role, s);
    hide CourseOk, JobOk, PendingOk, Commit;
    GoneKeepsCourse(job, role, CancelledJob(job, s).mark);
    assert CancelledJob(job, s) == job.(row := GONE, mark := CancelledJob(job, s).mark);
  }

  lemma NewJobIsFresh(createdAt: int, config: Config, taskIds: seq<string>)
    ensures CourseOk(NewJob(createdAt, config, taskIds), Free)
  {
  }

  lemma SubmitKeepsCourses(s: State, createdAt: int, config: Config, taskIds: seq<string>)
    requires Inv(s) && CoursesOk(s)
    ensures CoursesOk(Next(s, Submit(createdAt, config, taskIds)).value)
  {
    var t := Next(s, Submit(createdAt, config, taskIds)).value;
    NewJobIsFresh(createdAt, config, taskIds);
    assert RoleOf(s.worker, |s.jobs|) == Free;
    hide Inv, CourseOk, NewJob;
    assert forall j | 0 <= j < |s.jobs| :: t.jobs[j] == s.jobs[j];
  }

  lemma ReadKeepsCourses(s: State, id: nat)
    requires CoursesOk(s) && Next(s, ReadForCancel(id)).Some?
    ensures CoursesOk(Next(s, ReadForCancel(id)).value)
  {
    hide CourseOk;
  }

  lemma SelectKeepsCourses(s: State, id: nat)
    requires Inv(s) && CoursesOk(s) && Next(s, SelectJob(id)).Some?
    ensures CoursesOk(Next(s, SelectJob(id)).value)
  {
    assert JobOk(s.jobs[id], Free) && CourseOk(s.jobs[id], Free);
    hide Inv, WithinMark, SeenOk, ReportOk, Finished, Underway, Concluding;
    WorkKeepsCourses(s, Next(s, SelectJob(id)).value, id);
  }

  lemma ClaimKeepsCourses(s: State, a: Action)
    requires Inv(s) && CoursesOk(s) && (a.ClaimJob? || a.LoadJob?) && Next(s, a).Some?
    ensures CoursesOk(Next(s, a).value)
  {
    assert JobOk(s.jobs[s.worker.id], RoleOf(s.worker, s.worker.id));
    assert CourseOk(s.jobs[s.worker.id], RoleOf(s.worker, s.worker.id));
    hide Inv, WithinMark, SeenOk, ReportOk, Finished, Underway, Concluding;
    WorkKeepsCourses(s, Next(s, a).value, s.worker.id);
  }

  lemma CommitCancelKeepsCourses(s: State, k: nat)
    requires Inv(s) && CoursesOk(s) && Next(s, CommitCancel(k)).Some?
    ensures CoursesOk(Next(s, CommitCancel(k)).value)
  {
    var id := s.cancels[k].id;
    CancelKeepsCourse(s.jobs[id], RoleOf(s.worker, id), s.cancels[k].session);
    hide Inv, CourseOk, JobOk;
    WorkKeepsCourses(s, Next(s, CommitCancel(k)).value, id);
  }

  lemma ProcessFrame(s: State, move: Move)
    requires Next(s, Process(move)).Some?
    ensures var id, t := s.worker.id, Next(s, Process(move)).value;
      && id < |s.jobs| == |t.jobs| && ProcessorStep(s.jobs[id], s.worker.pc, s.worker.session, move).Some?
      && var o := ProcessorStep(s.jobs[id], s.worker.pc, s.worker.session, move).value;
      && t.jobs[id] == o.job && RoleOf(t.worker, id) == RoleAfter(o.next)
      && RoleOf(s.worker, id) == At(s.worker.pc, s.worker.session)
      && forall j | 0 <= j < |s.jobs| && j != id ::
           t.jobs[j] == s.jobs[j] && RoleOf(t.worker, j) == RoleOf(s.worker, j)
  {
    hide ProcessorStep;
  }

  lemma ProcessKeepsCourses(s: State, move: Move)
    requires Inv(s) && CoursesOk(s) && Next(s, Process(move)).Some?
    ensures CoursesOk(Next(s, Process(move)).value)
  {
    var id := s.worker.id;
    ProcessFrame(s, move);
    assert JobOk(s.jobs[id], RoleOf(s.worker, id)) && CourseOk(s.jobs[id], RoleOf(s.worker, id));
    hide *;
    ProcessorKeepsCourse(s.jobs[id], s.worker.pc, s.worker.session, move);
    WorkKeepsCourses(s, Next(s, Process(move)).value, id);
  }

  lemma NextKeepsCourses(s: State, a: Action)
    requires Inv(s) && CoursesOk(s) && Next(s, a).Some?
    ensures CoursesOk(Next(s, a).value)
  {
    hide Inv, CoursesOk, Next;
    match a
    case Submit(createdAt, config, taskIds) => SubmitKeepsCourses(s, createdAt, config, taskIds);
    case ReadForCancel(id) => ReadKeepsCourses(s, id);
    case CommitCancel(k) => CommitCancelKeepsCourses(s, k);
    case SelectJob(id) => SelectKeepsCourses(s, id);
    case ClaimJob => ClaimKeepsCourses(s, a);
    case LoadJob => ClaimKeepsCourses(s, a);
    case Process(move) => ProcessKeepsCourses(s, move);
  }

  lemma {:induction false} RunKeepsCourses(actions: seq<Action>)
    requires Run(actions).Some?
    ensures CoursesOk(Run(actions).value)
  {
    if actions != [] {
      RunKeepsInv(actions[..|actions| - 1]);
      RunKeepsCourses(actions[..|actions| - 1]);
      NextKeepsCourses(Run(actions[..|actions| - 1]).value, actions[|actions| - 1]);
    }
  }

  // ---- What follows ----

  lemma RowCount(c: Config, w: World)
    ensures |IterationRows(c, w)| == End(c, w) + LastBenchmarks(FinalExit(c, w))
  {
  }

  /** Which rows have a score, and what they hold. */
  lemma ScoredRow(c: Config, w: World, k: nat)
    requires k < |IterationRows(c, w)|
    ensures var row := IterationRows(c, w)[k];
      && (row.valScore.Some? <==> k < End(c, w) || (k == End(c, w) && Judged(FinalExit(c, w))))
      && (row.valScore.Some? ==> row.valScore == Some(Score(w, k)) && row.results == Result(w, k).tasks)
      && (row.valScore.None? ==> row.results == [])
  {
    hide AttemptAt, Best, Result, Score, ExitAt;
    if k < End(c, w) {
      ProposedRowsAt(c, w, End(c, w), k);
    }
  }

  /** The saved results are those of the rows with a score. */
  predicate SavedAre(saved: seq<BenchmarkResult>, rows: seq<Iteration>) {
    && |saved| <= |rows|
    && (forall k | 0 <= k < |rows| :: rows[k].valScore.Some? <==> k < |saved|)
    && (forall k | 0 <= k < |saved| :: rows[k].valScore == Some(saved[k].valScore) && rows[k].results == saved[k].tasks)
  }

  lemma SavedAreResults(c: Config, w: World, saved: seq<BenchmarkResult>)
    requires saved == Results(w, if Judged(FinalExit(c, w)) then End(c, w) + 1 else End(c, w))
    ensures SavedAre(saved, IterationRows(c, w))
  {
    var rows := IterationRows(c, w);
    RowCount(c, w);
    forall k | 0 <= k < |rows|
      ensures rows[k].valScore.Some? <==> k < |saved|
      ensures k < |saved| ==> rows[k].valScore == Some(saved[k].valScore) && rows[k].results == saved[k].tasks
    {
      ScoredRow(c, w, k);
    }
  }

  /** The job has gone through this run on the turns it has met: as many calls and as many rows, the results of the rows
      with a score saved, and its final row, unless a cancel was committed and never read. */
  predicate MatchesRun(job: Job, run: RunAccount.Record) {
    && |job.course.turns| == |run.versions|
    && job.work.calls == |run.rows| + |run.calls|
    && job.work.rows == |run.rows| + |run.versions|
    && SavedAre(job.course.saved, run.rows)
    && (job.row == Fields(run.status, run.reason) || CancelUnread(job, |run.learnings| == |run.versions|))
    && (job.seen ==> job.row == Fields(run.status, run.reason) == GONE)
  }

  lemma FinishedMatchesRun(job: Job)
    requires Finished(job) && SeenOk(job, Free)
    ensures MatchesRun(job, RunAccount.RecordOf(job.course.config, job.course.turns))
  {
    var c, w := job.course.config, job.course.turns;
    EndIs(c, w, |w| - 1);
    RowCount(c, w);
    hide ExitAt, Reaches, Results, IterationRows, SavedAre;
    SavedAreResults(c, w, job.course.saved);
  }

  /** Main result: every finished job, unless the store has failed it, matches a run, the whole of which is told: why it
      ended and what its rows say, and hence why a completed job was completed. */
  lemma FinishedJobsAreRuns(actions: seq<Action>, id: nat)
    requires Run(actions).Some? && id < |Run(actions).value.jobs|
    requires RoleOf(Run(actions).value.worker, id) == Free
    requires Run(actions).value.jobs[id].work.rows > 0 && !Run(actions).value.jobs[id].course.storeFailed
    ensures var job := Run(actions).value.jobs[id]; var c, w := job.course.config, job.course.turns;
      && RunAccount.Told(c, w, RunAccount.RecordOf(c, w)) && MatchesRun(job, RunAccount.RecordOf(c, w))
  {
    RunKeepsCourses(actions);
    ProtocolTheorems.JobHolds(actions, id);
    hide Run, Finished, MatchesRun, RunAccount.Told;
    var job := Run(actions).value.jobs[id];
    FinishedMatchesRun(job);
    RunAccount.RunIsTold(job.course.config, job.course.turns);
  }

  /** The store keeps a cancel that an executor has been told of: whichever executors ran the benchmarks of a job,
      as long as the answers they got came from the store. */
  lemma CancelsStickInEveryRun(actions: seq<Action>, id: nat, executions: seq<ExecutorContract.Execution>)
    requires Run(actions).Some? && id < |Run(actions).value.jobs|
    requires var course := Run(actions).value.jobs[id].course;
      && RunResults.ExecutedBy(course.turns, course.taskIds, executions)
      && |course.told| == |course.turns|
      && forall i | 0 <= i < |course.turns| && course.turns[i].bench.Returned? ::
           ExecutorContract.Told(executions[i], course.taskIds, course.turns[i].bench.value) ==> course.told[i]
    ensures var course := Run(actions).value.jobs[id].course;
            RunResults.CancelsStick(course.turns, course.taskIds, executions)
  {
    ProtocolTheorems.SavedResultsAreComplete(actions, id);
    hide Run, ExecutorContract.Told, ExecutorContract.Reports, Complete;
  }

  /** The results of all iterations with a score are among those saved, at their place. */
  predicate HoldsResults(job: Job) {
    var c, w := job.course.config, job.course.turns;
    && |job.course.saved| <= |w| + 1
    && forall k | 0 <= k < End(c, w) + (if Judged(FinalExit(c, w)) then 1 else 0) ::
         k < |job.course.saved| && job.course.saved[k] == Result(w, k)
  }

  lemma SurvivedHoldsResults(job: Job)
    requires var course := job.course; var n := |course.turns|;
      && Reaches(course.config, course.turns, n) && Results(course.turns, n) <= job.course.saved
      && |course.saved| <= n + 1
    ensures HoldsResults(job)
  {
    var c, w, n := job.course.config, job.course.turns, |job.course.turns|;
    assert TurnAt(w, n).cancelledBefore && ExitAt(c, w, n) == Some(CancelledBefore);
    EndIs(c, w, n);
    hide ExitAt, Reaches, Result, End;
    forall k | 0 <= k < n ensures k < |job.course.saved| && job.course.saved[k] == Result(w, k) {
      assert Results(w, n)[k] == Result(w, k);
    }
  }

  lemma OverHoldsResults(job: Job, exit: Exit)
    requires Over(job, exit)
    ensures HoldsResults(job)
  {
    var w, n := job.course.turns, |job.course.turns| - 1;
    EndIs(job.course.config, w, n);
    hide ExitAt, Reaches, Result, End;
    forall k | 0 <= k < n + (if Judged(exit) then 1 else 0)
      ensures k < |job.course.saved| && job.course.saved[k] == Result(w, k)
    {
      assert job.course.saved[k] == Results(w, if Judged(exit) then n + 1 else n)[k];
    }
    assert FinalExit(job.course.config, w) == exit;
    assert |job.course.saved| <= |w| + 1;
  }

  lemma CourseHoldsResults(job: Job, role: Role)
    requires CourseOk(job, role)
    ensures HoldsResults(job)
  {
    hide HoldsResults, ExitAt, TurnOk;
    if Fresh(job) {
      assert Results([], 0) == [];
      SurvivedHoldsResults(job);
    } else if Broken(job) || (role.At? && !role.pc.AtFinish?) {
      SurvivedHoldsResults(job);
    } else {
      OverHoldsResults(job, LastExit(job.course).value);
    }
  }

  /** Main result: in every reachable state every saved result of every job, that of the turn in progress included, has
      one result per task id of the job, in order; every row with a score holds exactly the saved result of its
      iteration, and a row without a score holds none. */
  lemma StoredRowsAreComplete(actions: seq<Action>, id: nat, k: nat)
    requires Run(actions).Some? && id < |Run(actions).value.jobs|
    ensures var course := Run(actions).value.jobs[id].course;
      && (forall r | r in course.saved :: Complete(r, course.taskIds))
      && |course.saved| <= |course.turns| + 1
      && (k < |IterationRows(course.config, course.turns)| ==>
            var row := IterationRows(course.config, course.turns)[k];
            if row.valScore.None? then row.results == []
            else k < |course.saved| && row.results == course.saved[k].tasks
                 && row.valScore == Some(course.saved[k].valScore))
  {
    var job := Run(actions).value.jobs[id];
    var c, w := job.course.config, job.course.turns;
    ProtocolTheorems.SavedResultsAreComplete(actions, id);
    RunKeepsCourses(actions);
    hide Run, Complete, IterationRows, CourseOk;
    CourseHoldsResults(job, RoleOf(Run(actions).value.worker, id));
    if k < |IterationRows(c, w)| {
      ScoredRow(c, w, k);
    }
  }
}
