/** The life of stored job rows under one worker and any number of API requests, interleaved at every point
    where the code waits for the database. Each session works on its own copy of a row, and a commit writes
    only the fields that the session has changed since it last read or wrote them. */
module JobProtocol {
  import opened Wrappers
  import opened Benchmark
  import opened RunSpec

  /** The fields of a job row on which sessions compete. */
  datatype Fields = Fields(status: JobStatus, reason: Option<StopReason>)

  const WAITING := Fields(Queued, None)
  const ACTIVE := Fields(Running, None)
  const UNCHANGED := Fields(Running, Some(NoImprovement))
  const GONE := Fields(JobCancelled, Some(Cancelled))
  const BROKEN := Fields(JobFailed, Some(Error))

  /** A session's copy of a row, beside what it last read or wrote. */
  datatype Session = Session(base: Fields, cur: Fields)

  function Read(row: Fields): Session { Session(row, row) }

  function Merge<T(==)>(base: T, cur: T, stored: T): T { if cur != base then cur else stored }

  /** Committing a session: only changed fields reach the row. */
  function Commit(row: Fields, s: Session): Fields {
    Fields(Merge(s.base.status, s.cur.status, row.status), Merge(s.base.reason, s.cur.reason, row.reason))
  }

  predicate Terminal(s: JobStatus) { s == Completed || s == JobFailed || s == JobCancelled }

  predicate StopsNormally(r: StopReason) { r == MaxIterations || r == NoImprovement || r == AllTasksPassed }

  // ---- Jobs ----

  /** How many benchmark and optimizer calls a job's run has begun, and how many iteration and version rows
      it has added. */
  datatype Work = Work(calls: nat, rows: nat)

  /** The course of a job's run: its settings, the turns it has met, for each of them whether a check inside the
      benchmark has seen a cancel, the results it has saved, and whether the store has failed it. */
  datatype Course = Course(config: Config, taskIds: seq<string>, turns: World, told: seq<bool>,
                           saved: seq<BenchmarkResult>, storeFailed: bool)

  /** A stored job, with its course and what an observer remembers of it: whether it was claimed, the work done when
      a cancel was first committed, and whether the processor has read the job as cancelled. */
  datatype Job = Job(row: Fields, createdAt: int, work: Work, claimed: bool, mark: Option<Work>, seen: bool,
                     course: Course)

  // ---- The processor ----

  /** Where the processor stands; each step between two of these contains at most one access to the store. */
  datatype Pc =
    | AtStart | BeforeBaseline | AtTop | BeforeInsert | BeforeBenchmark
    | InBenchmark(told: bool) | AfterBenchmark(told: bool, result: BenchmarkResult)
    | BeforeSave(told: bool, result: BenchmarkResult)
    | BeforeProposal(told: bool, result: BenchmarkResult) | InProposal(told: bool, result: BenchmarkResult)
    | AfterProposal(told: bool, result: BenchmarkResult, proposal: Proposal)
    | BeforeConclusion(told: bool, result: BenchmarkResult, proposal: Proposal) | AtFinish

  /** What the processor may do: go on by itself, which inside a benchmark means to ask the store for a cancel, have
      the executor or the optimizer return, or raise. */
  datatype Move = Go | Report(result: BenchmarkResult) | Answer(proposal: Proposal) | Raise(message: string)

  /** The job after a step of its processor, and where the processor then stands; nowhere when it is done. */
  datatype Outcome = Outcome(job: Job, next: Option<(Pc, Session)>)

  function GoTo(job: Job, pc: Pc, s: Session): Option<Outcome> { Some(Outcome(job, Some((pc, s)))) }

  function Called(job: Job): Job { job.(work := job.work.(calls := job.work.calls + 1)) }

  function Added(job: Job): Job { job.(work := job.work.(rows := job.work.rows + 1)) }

  function Committed(job: Job, s: Session): Job { job.(row := Commit(job.row, s)) }

  function Saved(job: Job, result: BenchmarkResult): Job {
    job.(course := job.course.(saved := job.course.saved + [result]))
  }

  /** The turns with the current one as far as it is known. */
  function Extended(course: Course, turn: Turn): World { course.turns + [turn] }

  /** The current turn is over. */
  function Met(job: Job, turn: Turn, told: bool): Job {
    job.(course := job.course.(turns := Extended(job.course, turn), told := job.course.told + [told]))
  }

  /** Re-reading the row at a cancellation check; a cancel ends the run in the given turn. */
  function Check(job: Job, turn: Turn, told: bool, otherwise: Pc): Option<Outcome> {
    var s := Read(job.row);
    if s.cur.status == JobCancelled then
      var marked := s.(cur := s.cur.(reason := Some(Cancelled)));
      GoTo(Met(Committed(job, marked).(seen := true), turn, told), AtFinish, Read(marked.cur))
    else GoTo(job, otherwise, s)
  }

  /** The first transaction of `process`. */
  function StartStep(job: Job, s: Session): Option<Outcome> {
    if s.cur.status == JobCancelled then
      var filled := if s.cur.reason == None then s.(cur := s.cur.(reason := Some(Cancelled))) else s;
      Some(Outcome(Committed(job, filled).(seen := true), None))
    else if s.cur.status != Queued && s.cur.status != Running then Some(Outcome(job, None))
    else
      var started := s.(cur := s.cur.(status := Running));
      GoTo(Committed(job, started), BeforeBaseline, Read(started.cur))
  }

  /** The last transaction of `process`. */
  function FinishStep(job: Job, s: Session): Outcome {
    var finished := if s.cur.status == Running then s.(cur := s.cur.(status := Completed)) else s;
    Outcome(Committed(job, finished), None)
  }

  /** The transaction of the exception handler; outside the two foreign calls it is the store that failed. */
  function FailStep(job: Job, pc: Pc, s: Session, message: string): Outcome {
    var failed := Committed(job, s.(cur := BROKEN));
    Outcome(
      match pc
      case InBenchmark(told) => Met(failed, BenchmarkTurn(Raised(message), false), told)
      case InProposal(told, result) => Met(failed, FullTurn(result, Raised(message), false), told)
      case _ => failed.(course := failed.course.(storeFailed := true)),
      None)
  }

  /** Saving and judging a benchmark, and the stop tests. */
  function SaveStep(job: Job, told: bool, result: BenchmarkResult, s: Session): Option<Outcome> {
    var turn := BenchmarkTurn(Returned(result), false);
    var exit := BenchmarkExit(job.course.config, Extended(job.course, turn), |job.course.turns|);
    if exit.Some?
    then GoTo(Met(Saved(job, result), turn, told), AtFinish, s.(cur := s.cur.(reason := Some(ReasonOf(exit.value)))))
    else GoTo(Saved(job, result), BeforeProposal(told, result), s)
  }

  /** Whether a proposal differs from the best version so far. */
  predicate Changes(course: Course, turn: Turn, proposal: Proposal) {
    var w := Extended(course, turn);
    proposal.content != Content(course.config, w, Best(w, |course.turns|))
  }

  /** Adding the proposed version, or stopping because there is nothing to add. */
  function ConcludeStep(job: Job, told: bool, result: BenchmarkResult, proposal: Proposal, s: Session)
    : Option<Outcome>
  {
    var turn := FullTurn(result, Returned(proposal), false);
    if Changes(job.course, turn, proposal) then GoTo(Met(Added(job), turn, told), AtTop, s)
    else
      var stopped := s.(cur := s.cur.(reason := Some(NoImprovement)));
      GoTo(Met(Committed(job, stopped), turn, told), AtFinish, Read(stopped.cur))
  }

  /** What the executor may report: one result per task, in order, or anything once a check has answered yes. */
  predicate MayReport(taskIds: seq<string>, told: bool, result: BenchmarkResult) {
    Complete(result, taskIds) || told
  }

  function GoStep(job: Job, pc: Pc, s: Session): Option<Outcome> {
    match pc
    case AtStart => StartStep(job, s)
    case BeforeBaseline => GoTo(Added(job), AtTop, s)
    case AtTop => Check(job, CANCELLED_EARLY, false, BeforeInsert)
    case BeforeInsert => GoTo(Added(job), BeforeBenchmark, s)
    case BeforeBenchmark => GoTo(Called(job), InBenchmark(false), s)
    case InBenchmark(told) => GoTo(job, InBenchmark(told || job.row.status == JobCancelled), s)
    case AfterBenchmark(told, r) => Check(job, BenchmarkTurn(Returned(r), true), told, BeforeSave(told, r))
    case BeforeSave(told, r) => SaveStep(job, told, r, s)
    case BeforeProposal(told, r) => GoTo(Called(job), InProposal(told, r), s)
    case InProposal(_, _) => None
    case AfterProposal(told, r, p) => Check(job, FullTurn(r, Returned(p), true), told, BeforeConclusion(told, r, p))
    case BeforeConclusion(told, r, p) => ConcludeStep(job, told, r, p, s)
    case AtFinish => Some(FinishStep(job, s))
  }

  /** One step of the processor; `None` when the move is not possible there. */
  function ProcessorStep(job: Job, pc: Pc, s: Session, move: Move): Option<Outcome> {
    match move
    case Go => GoStep(job, pc, s)
    case Report(result) =>
      if pc.InBenchmark? && MayReport(job.course.taskIds, pc.told, result)
      then GoTo(job, AfterBenchmark(pc.told, result), s) else None
    case Answer(proposal) =>
      if pc.InProposal? then GoTo(job, AfterProposal(pc.told, pc.result, proposal), s) else None
    case Raise(message) => if pc.AtStart? || pc.AtFinish? then None else Some(FailStep(job, pc, s, message))
  }

  // ---- The whole system ----

  datatype Worker = Idle | Selected(id: nat) | Claimed(id: nat) | Processing(id: nat, pc: Pc, session: Session)

  /** A cancel request that has read its row and not yet committed. */
  datatype Pending = Pending(id: nat, session: Session)

  datatype State = State(jobs: seq<Job>, worker: Worker, cancels: seq<Pending>, claims: seq<nat>)

  datatype Action =
    | Submit(createdAt: int, config: Config, taskIds: seq<string>)
    | ReadForCancel(id: nat)
    | CommitCancel(k: nat)
    | SelectJob(id: nat)
    | ClaimJob
    | LoadJob
    | Process(move: Move)

  const INITIAL := State([], Idle, [], [])

  function NewJob(createdAt: int, config: Config, taskIds: seq<string>): Job {
    Job(WAITING, createdAt, Work(0, 0), false, None, false, Course(config, taskIds, [], [], [], false))
  }

  predicate OldestQueued(jobs: seq<Job>, id: nat) {
    && id < |jobs| && jobs[id].row.status == Queued
    && forall j | 0 <= j < |jobs| && jobs[j].row.status == Queued :: jobs[id].createdAt <= jobs[j].createdAt
  }

  function CancelledJob(job: Job, s: Session): Job {
    Committed(job, s).(mark := if job.mark.None? then Some(job.work) else job.mark)
  }

  /** The conditional update: a job that is no longer queued keeps its row, and is handed on all the same. */
  function ClaimedJob(job: Job): Job {
    if job.row.status == Queued then job.(row := job.row.(status := Running)) else job
  }

  function WorkerAt(id: nat, next: Option<(Pc, Session)>): Worker {
    if next.Some? then Processing(id, next.value.0, next.value.1) else Idle
  }

  function Next(s: State, a: Action): Option<State> {
    match a
    case Submit(t, config, taskIds) => Some(s.(jobs := s.jobs + [NewJob(t, config, taskIds)]))
    case ReadForCancel(id) =>
      if id < |s.jobs| && !Terminal(s.jobs[id].row.status)
      then Some(s.(cancels := s.cancels + [Pending(id, Session(s.jobs[id].row, GONE))])) else None
    case CommitCancel(k) =>
      if k < |s.cancels| && s.cancels[k].id < |s.jobs| then
        var p := s.cancels[k];
        Some(s.(jobs := s.jobs[p.id := CancelledJob(s.jobs[p.id], p.session)],
                cancels := s.cancels[..k] + s.cancels[k + 1..]))
      else None
    case SelectJob(id) =>
      if s.worker.Idle? && OldestQueued(s.jobs, id)
      then Some(s.(jobs := s.jobs[id := s.jobs[id].(claimed := true)], worker := Selected(id),
                   claims := s.claims + [id]))
      else None
    case ClaimJob =>
      if s.worker.Selected? && s.worker.id < |s.jobs|
      then Some(s.(jobs := s.jobs[s.worker.id := ClaimedJob(s.jobs[s.worker.id])], worker := Claimed(s.worker.id)))
      else None
    case LoadJob =>
      if s.worker.Claimed? && s.worker.id < |s.jobs|
      then Some(s.(worker := Processing(s.worker.id, AtStart, Read(s.jobs[s.worker.id].row)))) else None
    case Process(move) =>
      if s.worker.Processing? && s.worker.id < |s.jobs| then
        var id := s.worker.id;
        var outcome := ProcessorStep(s.jobs[id], s.worker.pc, s.worker.session, move);
        if outcome.Some?
        then Some(s.(jobs := s.jobs[id := outcome.value.job], worker := WorkerAt(id, outcome.value.next))) else None
      else None
  }

  /** The state after a list of actions, if each of them is possible in its turn. */
  function Run(actions: seq<Action>): Option<State> {
    if actions == [] then Some(INITIAL)
    else
      var before := Run(actions[..|actions| - 1]);
      if before.Some? then Next(before.value, actions[|actions| - 1]) else None
  }

  // ---- What holds of each job ----

  /** What the worker is doing with one job. */
  datatype Role = Free | IsSelected | IsClaimed | At(pc: Pc, session: Session)

  function RoleOf(worker: Worker, id: nat): Role {
    match worker
    case Idle => Free
    case Selected(j) => if j == id then IsSelected else Free
    case Claimed(j) => if j == id then IsClaimed else Free
    case Processing(j, pc, session) => if j == id then At(pc, session) else Free
  }

  /** The rows a job can have while nobody works on it. */
  predicate Settled(row: Fields) {
    || row == WAITING || row == GONE || row == BROKEN
    || (row.status == Completed && row.reason.Some? && row.reason.value != Error)
  }

  predicate SessionOk(row: Fields, pc: Pc, s: Session) {
    if pc.AtStart? then
      s == Read(s.base) && (row == GONE || (row == ACTIVE && s.base == ACTIVE)) && (s.base == ACTIVE || s.base == GONE)
    else if pc.AtFinish? then
      || (s == Read(GONE) && row == GONE)
      || (s.base == ACTIVE && s.cur.status == Running && s.cur.reason.Some? && StopsNormally(s.cur.reason.value)
          && (row == ACTIVE || row == GONE))
      || (s == Read(UNCHANGED) && (row == UNCHANGED || row == Fields(JobCancelled, Some(NoImprovement)) || row == GONE))
    else s == Read(ACTIVE) && (row == GONE || row == ACTIVE)
  }

  predicate RowOk(job: Job, role: Role) {
    match role
    case Free => Settled(job.row) && (job.claimed ==> job.row.status != Queued)
    case IsSelected => job.claimed && (job.row == WAITING || job.row == GONE)
    case IsClaimed => job.claimed && (job.row == ACTIVE || job.row == GONE)
    case At(pc, s) => job.claimed && SessionOk(job.row, pc, s)
  }

  /** Calls and rows the processor can still get to before it next checks for cancellation. */
  function CallsAhead(role: Role): nat {
    if !role.At? then 0
    else if role.pc.BeforeInsert? || role.pc.BeforeBenchmark? || role.pc.BeforeSave? || role.pc.BeforeProposal? then 1
    else 0
  }

  function RowsAhead(role: Role): nat {
    match role
    case Free => 0
    case IsSelected => 1
    case IsClaimed => 1
    case At(pc, _) =>
      if pc.AtStart? || pc.BeforeBaseline? || pc.BeforeInsert? || pc.BeforeConclusion? then 1 else 0
  }

  predicate WithinMark(job: Job, role: Role) {
    job.mark.Some? ==>
      && job.mark.value.calls <= job.work.calls && job.mark.value.rows <= job.work.rows
      && job.work.calls + CallsAhead(role) <= job.mark.value.calls + 1
      && job.work.rows + RowsAhead(role) <= job.mark.value.rows + 1
      && (if role.Free? then Terminal(job.row.status) else job.row.status == JobCancelled)
  }

  predicate SeenOk(job: Job, role: Role) {
    && (job.seen ==> job.row == GONE && (role.Free? || (role.At? && role.pc.AtFinish? && role.session == Read(GONE))))
    && (role.At? && role.pc.AtFinish? && role.session == Read(GONE) ==> job.seen)
  }

  /** A benchmark that returned after one of its checks had seen a cancel is found cancelled behind it. */
  predicate ToldIsSeen(turns: World, told: seq<bool>, taskIds: seq<string>) {
    && |told| == |turns|
    && forall i | 0 <= i < |turns| && turns[i].bench.Returned? ::
         (told[i] ==> turns[i].cancelledAfterBench) && (Complete(turns[i].bench.value, taskIds) || told[i])
  }

  predicate AllComplete(results: seq<BenchmarkResult>, taskIds: seq<string>) {
    forall r | r in results :: Complete(r, taskIds)
  }

  /** A yes given to the executor is still in the store, and nothing but complete results gets past the check
      behind the benchmark. */
  predicate ReportOk(job: Job, role: Role) {
    && (role.At? ==>
          match role.pc
          case InBenchmark(told) => told ==> job.row == GONE
          case AfterBenchmark(told, r) => (told ==> job.row == GONE) && (Complete(r, job.course.taskIds) || told)
          case BeforeSave(told, r) => !told && Complete(r, job.course.taskIds)
          case BeforeProposal(told, r) => !told && Complete(r, job.course.taskIds)
          case InProposal(told, r) => !told && Complete(r, job.course.taskIds)
          case AfterProposal(told, r, _) => !told && Complete(r, job.course.taskIds)
          case BeforeConclusion(told, r, _) => !told && Complete(r, job.course.taskIds)
          case _ => true)
    && AllComplete(job.course.saved, job.course.taskIds)
    && ToldIsSeen(job.course.turns, job.course.told, job.course.taskIds)
  }

  predicate JobOk(job: Job, role: Role) {
    RowOk(job, role) && WithinMark(job, role) && SeenOk(job, role) && ReportOk(job, role)
  }

  predicate PendingOk(s: Session) {
    s.cur == GONE && !Terminal(s.base.status) && s.base.reason != Some(Cancelled)
  }

  // ---- Each step keeps it ----

  function RoleAfter(next: Option<(Pc, Session)>): Role {
    if next.Some? then At(next.value.0, next.value.1) else Free
  }

  /** What stops a run behind a saved benchmark. */
  lemma StopsAreNormal(c: Config, w: World, i: nat)
    requires !TurnAt(w, i).cancelledBefore && TurnAt(w, i).bench.Returned? && !TurnAt(w, i).cancelledAfterBench
    ensures BenchmarkExit(c, w, i).Some? ==>
              var exit := BenchmarkExit(c, w, i).value;
              StopsNormally(ReasonOf(exit)) && Judged(exit) && LastCalls(exit) == 0
  {
  }

  lemma CourseStops(course: Course, result: BenchmarkResult)
    ensures var turn := BenchmarkTurn(Returned(result), false);
            var exit := BenchmarkExit(course.config, Extended(course, turn), |course.turns|);
            exit.Some? ==> StopsNormally(ReasonOf(exit.value)) && Judged(exit.value) && LastCalls(exit.value) == 0
  {
    StopsAreNormal(course.config, Extended(course, BenchmarkTurn(Returned(result), false)), |course.turns|);
  }

  lemma ProcessorKeepsRow(job: Job, pc: Pc, s: Session, move: Move)
    requires RowOk(job, At(pc, s)) && ProcessorStep(job, pc, s, move).Some?
    ensures var o := ProcessorStep(job, pc, s, move).value; RowOk(o.job, RoleAfter(o.next))
  {
    hide BenchmarkExit, ReasonOf, Extended, Changes, MayReport;
    if pc.BeforeSave? {
      CourseStops(job.course, pc.result);
    }
  }

  lemma ProcessorKeepsMark(job: Job, pc: Pc, s: Session, move: Move)
    requires JobOk(job, At(pc, s)) && ProcessorStep(job, pc, s, move).Some?
    ensures var o := ProcessorStep(job, pc, s, move).value; WithinMark(o.job, RoleAfter(o.next))
  {
    hide BenchmarkExit, ReasonOf, Extended, Changes, MayReport, ReportOk, SeenOk;
  }

  lemma ProcessorKeepsSight(job: Job, pc: Pc, s: Session, move: Move)
    requires JobOk(job, At(pc, s)) && ProcessorStep(job, pc, s, move).Some?
    ensures var o := ProcessorStep(job, pc, s, move).value; SeenOk(o.job, RoleAfter(o.next))
  {
    hide BenchmarkExit, ReasonOf, Extended, Changes, MayReport, ReportOk, WithinMark;
  }

  lemma OneMoreTurn(turns: World, told: seq<bool>, taskIds: seq<string>, turn: Turn, last: bool)
    requires ToldIsSeen(turns, told, taskIds)
    requires turn.bench.Returned? ==>
               (last ==> turn.cancelledAfterBench) && (Complete(turn.bench.value, taskIds) || last)
    ensures ToldIsSeen(turns + [turn], told + [last], taskIds)
  {
    hide Complete;
  }

  /** The turn a step ends, if it ends one, with what the executor was told. */
  function TurnEnded(job: Job, pc: Pc, move: Move): Turn {
    match pc
    case InBenchmark(_) => BenchmarkTurn(Raised(if move.Raise? then move.message else ""), false)
    case AfterBenchmark(_, r) => BenchmarkTurn(Returned(r), true)
    case BeforeSave(_, r) => BenchmarkTurn(Returned(r), false)
    case InProposal(_, r) => FullTurn(r, Raised(if move.Raise? then move.message else ""), false)
    case AfterProposal(_, r, p) => FullTurn(r, Returned(p), true)
    case BeforeConclusion(_, r, p) => FullTurn(r, Returned(p), false)
    case _ => CANCELLED_EARLY
  }

  function ToldIn(pc: Pc): bool {
    (pc.InBenchmark? || pc.AfterBenchmark? || pc.BeforeSave? || pc.BeforeProposal? || pc.InProposal?
     || pc.AfterProposal? || pc.BeforeConclusion?) && pc.told
  }

  lemma ProcessorKeepsReports(job: Job, pc: Pc, s: Session, move: Move)
    requires JobOk(job, At(pc, s)) && ProcessorStep(job, pc, s, move).Some?
    ensures var o := ProcessorStep(job, pc, s, move).value; ReportOk(o.job, RoleAfter(o.next))
  {
    var o := ProcessorStep(job, pc, s, move).value;
    var turn := TurnEnded(job, pc, move);
    hide BenchmarkExit, ReasonOf, Changes, Complete, WithinMark, SeenOk, ToldIsSeen, Commit;
    if turn.bench.Returned? ==>
         (ToldIn(pc) ==> turn.cancelledAfterBench) && (Complete(turn.bench.value, job.course.taskIds) || ToldIn(pc))
    {
      OneMoreTurn(job.course.turns, job.course.told, job.course.taskIds, turn, ToldIn(pc));
    }
  }

  lemma CancelKeepsJobOk(job: Job, role: Role, s: Session)
    requires JobOk(job, role) && PendingOk(s)
    ensures JobOk(CancelledJob(job, s), role) && CancelledJob(job, s).row == GONE
  {
  }

  // ---- What holds of the whole state ----

  predicate ClaimsOk(s: State) {
    && (forall i | 0 <= i < |s.claims| :: s.claims[i] < |s.jobs| && s.jobs[s.claims[i]].claimed)
    && (forall i, j | 0 <= i < j < |s.claims| :: s.claims[i] != s.claims[j])
  }

  predicate WorkerOk(s: State) {
    !s.worker.Idle? ==> s.worker.id < |s.jobs|
  }

  /** The jobs carry creation times in the order in which they were stored. */
  predicate SubmittedInOrder(jobs: seq<Job>) {
    forall i, j | 0 <= i < j < |jobs| :: jobs[i].createdAt <= jobs[j].createdAt
  }

  predicate ClaimedInOrder(s: State)
    requires ClaimsOk(s)
  {
    forall i, j | 0 <= i < j < |s.claims| :: s.jobs[s.claims[i]].createdAt <= s.jobs[s.claims[j]].createdAt
  }

  /** No unclaimed queued job is older than a claimed one. */
  predicate NobodyOvertaken(s: State)
    requires ClaimsOk(s)
  {
    forall i, q | 0 <= i < |s.claims| && 0 <= q < |s.jobs| && s.jobs[q].row.status == Queued && !s.jobs[q].claimed ::
      s.jobs[s.claims[i]].createdAt <= s.jobs[q].createdAt
  }

  predicate PendingsOk(s: State) {
    forall k | 0 <= k < |s.cancels| :: s.cancels[k].id < |s.jobs| && PendingOk(s.cancels[k].session)
  }

  predicate Inv(s: State) {
    && (forall id | 0 <= id < |s.jobs| :: JobOk(s.jobs[id], RoleOf(s.worker, id)))
    && PendingsOk(s) && WorkerOk(s) && ClaimsOk(s)
    && (SubmittedInOrder(s.jobs) ==> ClaimedInOrder(s) && NobodyOvertaken(s))
  }

  // ---- Each step of the system keeps it ----

  /** A step that changes at most one job, neither its creation time nor the fact that it was claimed, and
      puts no job back into the queue. */
  predicate ChangesOneRow(s: State, t: State, id: nat) {
    && id < |s.jobs| == |t.jobs| && t.claims == s.claims
    && (forall j | 0 <= j < |s.jobs| && j != id :: t.jobs[j] == s.jobs[j])
    && t.jobs[id].createdAt == s.jobs[id].createdAt && t.jobs[id].claimed == s.jobs[id].claimed
    && (t.jobs[id].row.status == Queued ==> s.jobs[id].row.status == Queued)
  }

  lemma OneRowKeepsClaims(s: State, t: State, id: nat)
    requires Inv(s) && ChangesOneRow(s, t, id)
    ensures ClaimsOk(t) && (SubmittedInOrder(t.jobs) ==> ClaimedInOrder(t) && NobodyOvertaken(t))
  {
    hide JobOk, PendingOk;
    forall j | 0 <= j < |s.jobs|
      ensures t.jobs[j].createdAt == s.jobs[j].createdAt && t.jobs[j].claimed == s.jobs[j].claimed
      ensures t.jobs[j].row.status == Queued ==> s.jobs[j].row.status == Queued
    {
    }
    if SubmittedInOrder(t.jobs) {
      assert SubmittedInOrder(s.jobs);
    }
  }

  lemma NewJobIsOk(createdAt: int, config: Config, taskIds: seq<string>)
    ensures JobOk(NewJob(createdAt, config, taskIds), Free)
  {
  }

  /** A state that keeps all jobs and claims, or adds an unclaimed job at the end, keeps the order of claims. */
  lemma LongerKeepsClaims(s: State, t: State)
    requires ClaimsOk(s) && s.jobs <= t.jobs && t.claims == s.claims
    requires SubmittedInOrder(s.jobs) ==> ClaimedInOrder(s) && NobodyOvertaken(s)
    ensures ClaimsOk(t) && (SubmittedInOrder(t.jobs) ==> ClaimedInOrder(t) && NobodyOvertaken(t))
  {
    assert forall j | 0 <= j < |s.jobs| :: t.jobs[j] == s.jobs[j];
    if SubmittedInOrder(t.jobs) {
      assert SubmittedInOrder(s.jobs);
    }
  }

  lemma SubmitKeepsInv(s: State, createdAt: int, config: Config, taskIds: seq<string>)
    requires Inv(s)
    ensures Inv(Next(s, Submit(createdAt, config, taskIds)).value)
  {
    var t := Next(s, Submit(createdAt, config, taskIds)).value;
    NewJobIsOk(createdAt, config, taskIds);
    LongerKeepsClaims(s, t);
    hide JobOk, PendingOk, ClaimsOk, SubmittedInOrder, ClaimedInOrder, NobodyOvertaken, NewJob;
    assert RoleOf(t.worker, |s.jobs|) == Free;
    forall id | 0 <= id < |t.jobs| ensures JobOk(t.jobs[id], RoleOf(t.worker, id)) {
      if id < |s.jobs| {
        assert JobOk(s.jobs[id], RoleOf(s.worker, id));
      }
    }
  }

  /** The jobs are the same but that one more is claimed, and it is the last one claimed. */
  predicate ClaimsOneMore(s: State, t: State, id: nat) {
    && id < |s.jobs| == |t.jobs| && t.claims == s.claims + [id]
    && forall j | 0 <= j < |s.jobs| ::
         && t.jobs[j].createdAt == s.jobs[j].createdAt && t.jobs[j].row == s.jobs[j].row
         && (t.jobs[j].claimed <==> s.jobs[j].claimed || j == id)
  }

  lemma SelectKeepsClaimsOk(s: State, t: State, id: nat)
    requires ClaimsOk(s) && ClaimsOneMore(s, t, id) && !s.jobs[id].claimed
    ensures ClaimsOk(t)
  {
  }

  /** Selecting the oldest queued job keeps the order of claims. */
  lemma SelectKeepsOrder(s: State, t: State, id: nat)
    requires ClaimsOk(s) && ClaimsOk(t) && ClaimsOneMore(s, t, id) && !s.jobs[id].claimed && OldestQueued(s.jobs, id)
    requires SubmittedInOrder(s.jobs) ==> ClaimedInOrder(s) && NobodyOvertaken(s)
    ensures SubmittedInOrder(t.jobs) ==> ClaimedInOrder(t) && NobodyOvertaken(t)
  {
    if SubmittedInOrder(t.jobs) {
      assert SubmittedInOrder(s.jobs);
      forall i, j | 0 <= i < j < |t.claims| ensures t.jobs[t.claims[i]].createdAt <= t.jobs[t.claims[j]].createdAt {
        assert s.jobs[id].row.status == Queued;
      }
    }
  }

  lemma SelectKeepsJob(job: Job)
    requires JobOk(job, Free) && job.row.status == Queued
    ensures !job.claimed && JobOk(job.(claimed := true), IsSelected)
  {
    hide AllComplete, ToldIsSeen;
  }

  lemma SelectKeepsInv(s: State, id: nat)
    requires Inv(s) && Next(s, SelectJob(id)).Some?
    ensures Inv(Next(s, SelectJob(id)).value)
  {
    var t := Next(s, SelectJob(id)).value;
    assert JobOk(s.jobs[id], RoleOf(s.worker, id)) && RoleOf(s.worker, id) == Free;
    SelectKeepsJob(s.jobs[id]);
    assert ClaimsOneMore(s, t, id);
    SelectKeepsClaimsOk(s, t, id);
    SelectKeepsOrder(s, t, id);
    hide JobOk, PendingOk, ClaimsOk, SubmittedInOrder, ClaimedInOrder, NobodyOvertaken, OldestQueued, ClaimsOneMore;
    forall j | 0 <= j < |t.jobs| ensures JobOk(t.jobs[j], RoleOf(t.worker, j)) {
      if j != id {
        assert JobOk(s.jobs[j], RoleOf(s.worker, j));
      }
    }
  }

  lemma CancelChangesOneRow(s: State, t: State, k: nat)
    requires Next(s, CommitCancel(k)) == Some(t)
    requires CancelledJob(s.jobs[s.cancels[k].id], s.cancels[k].session).row == GONE
    ensures ChangesOneRow(s, t, s.cancels[k].id)
  {
    hide Commit;
  }

  /** A step that changes one job, and at most that job's place in the worker's hands. */
  lemma OneRowKeepsInv(s: State, t: State, id: nat)
    requires Inv(s) && ChangesOneRow(s, t, id) && WorkerOk(t) && PendingsOk(t)
    requires JobOk(t.jobs[id], RoleOf(t.worker, id))
    requires forall j | 0 <= j < |s.jobs| && j != id :: RoleOf(t.worker, j) == RoleOf(s.worker, j)
    ensures Inv(t)
  {
    OneRowKeepsClaims(s, t, id);
    hide JobOk, RoleOf, ClaimsOk, SubmittedInOrder, ClaimedInOrder, NobodyOvertaken, PendingOk;
    forall j | 0 <= j < |t.jobs| ensures JobOk(t.jobs[j], RoleOf(t.worker, j)) {
      assert JobOk(s.jobs[j], RoleOf(s.worker, j));
    }
  }

  lemma PendingsRemain(s: State, t: State, k: nat)
    requires Inv(s) && Next(s, CommitCancel(k)) == Some(t)
    ensures PendingsOk(t) && WorkerOk(t) && t.worker == s.worker
  {
    hide JobOk, PendingOk, CancelledJob, ClaimsOk, SubmittedInOrder, ClaimedInOrder, NobodyOvertaken;
  }

  lemma CommitCancelKeepsInv(s: State, k: nat)
    requires Inv(s) && Next(s, CommitCancel(k)).Some?
    ensures Inv(Next(s, CommitCancel(k)).value)
  {
    var p, t := s.cancels[k], Next(s, CommitCancel(k)).value;
    assert JobOk(s.jobs[p.id], RoleOf(s.worker, p.id)) && PendingOk(p.session);
    PendingsRemain(s, t, k);
    assert t.jobs[p.id] == CancelledJob(s.jobs[p.id], p.session);
    hide Inv, JobOk, PendingOk, CancelledJob;
    CancelKeepsJobOk(s.jobs[p.id], RoleOf(s.worker, p.id), p.session);
    CancelChangesOneRow(s, t, k);
    hide Next, ChangesOneRow, PendingsOk, WorkerOk;
    OneRowKeepsInv(s, t, p.id);
  }

  lemma ReadKeepsInv(s: State, id: nat)
    requires Inv(s) && Next(s, ReadForCancel(id)).Some?
    ensures Inv(Next(s, ReadForCancel(id)).value)
  {
    var t := Next(s, ReadForCancel(id)).value;
    assert JobOk(s.jobs[id], RoleOf(s.worker, id));
    assert PendingOk(t.cancels[|s.cancels|].session);
    LongerKeepsClaims(s, t);
    hide JobOk, PendingOk, ClaimsOk, SubmittedInOrder, ClaimedInOrder, NobodyOvertaken;
  }

  /** The worker's steps change the one job it works on, and its own position. */
  lemma WorkKeepsInv(s: State, t: State, id: nat)
    requires Inv(s) && ChangesOneRow(s, t, id) && !s.worker.Idle? && s.worker.id == id && t.cancels == s.cancels
    requires JobOk(t.jobs[id], RoleOf(t.worker, id)) && (t.worker.Idle? || t.worker.id == id)
    ensures Inv(t)
  {
    hide JobOk, ClaimsOk, SubmittedInOrder, ClaimedInOrder, NobodyOvertaken, PendingOk;
    OneRowKeepsInv(s, t, id);
  }

  lemma ProcessorFrame(job: Job, pc: Pc, s: Session, move: Move)
    requires RowOk(job, At(pc, s)) && ProcessorStep(job, pc, s, move).Some?
    ensures var o := ProcessorStep(job, pc, s, move).value.job;
            o.createdAt == job.createdAt && o.claimed == job.claimed && o.row.status != Queued && o.mark == job.mark
  {
    hide BenchmarkExit, ReasonOf, Changes, MayReport;
  }

  lemma ProcessKeepsInv(s: State, move: Move)
    requires Inv(s) && Next(s, Process(move)).Some?
    ensures Inv(Next(s, Process(move)).value)
  {
    var id, pc, session := s.worker.id, s.worker.pc, s.worker.session;
    var job, t := s.jobs[id], Next(s, Process(move)).value;
    assert JobOk(job, At(pc, session)) by {
      assert JobOk(s.jobs[id], RoleOf(s.worker, id));
    }
    ProcessorFrame(job, pc, session, move);
    ProcessorKeepsRow(job, pc, session, move);
    ProcessorKeepsMark(job, pc, session, move);
    ProcessorKeepsSight(job, pc, session, move);
    ProcessorKeepsReports(job, pc, session, move);
    hide Inv, ProcessorStep, RowOk, WithinMark, SeenOk, ReportOk;
    WorkKeepsInv(s, t, id);
  }

  lemma ClaimKeepsInv(s: State)
    requires Inv(s) && Next(s, ClaimJob).Some?
    ensures Inv(Next(s, ClaimJob).value)
  {
    assert JobOk(s.jobs[s.worker.id], RoleOf(s.worker, s.worker.id));
    hide Inv;
    WorkKeepsInv(s, Next(s, ClaimJob).value, s.worker.id);
  }

  lemma LoadKeepsInv(s: State)
    requires Inv(s) && Next(s, LoadJob).Some?
    ensures Inv(Next(s, LoadJob).value)
  {
    assert JobOk(s.jobs[s.worker.id], RoleOf(s.worker, s.worker.id));
    hide Inv;
    WorkKeepsInv(s, Next(s, LoadJob).value, s.worker.id);
  }

  lemma NextKeepsInv(s: State, a: Action)
    requires Inv(s) && Next(s, a).Some?
    ensures Inv(Next(s, a).value)
  {
    hide Inv, Next;
    match a
    case Submit(createdAt, config, taskIds) => SubmitKeepsInv(s, createdAt, config, taskIds);
    case ReadForCancel(id) => ReadKeepsInv(s, id);
    case CommitCancel(k) => CommitCancelKeepsInv(s, k);
    case SelectJob(id) => SelectKeepsInv(s, id);
    case ClaimJob => ClaimKeepsInv(s);
    case LoadJob => LoadKeepsInv(s);
    case Process(move) => ProcessKeepsInv(s, move);
  }

  lemma {:induction false} RunKeepsInv(actions: seq<Action>)
    requires Run(actions).Some?
    ensures Inv(Run(actions).value)
  {
    if actions != [] {
      RunKeepsInv(actions[..|actions| - 1]);
      NextKeepsInv(Run(actions[..|actions| - 1]).value, actions[|actions| - 1]);
    }
  }
}
