/** Runs of the protocol that show what it does not guarantee. */
module ProtocolWitnesses {
  import opened Wrappers
  import opened Benchmark
  import opened RunSpec
  import opened JobProtocol
  import opened RunsInProtocol

  const SETTINGS := Config("", 1, 1)
  const NOTHING := BenchmarkResult([], 0.0)
  const SAME := Proposal("", "", "")
  const UNCHANGED_TURN := FullTurn(NOTHING, Returned(SAME), false)

  /** The job row of the only job after a run. */
  predicate OnlyRow(actions: seq<Action>, row: Fields) {
    Run(actions).Some? && |Run(actions).value.jobs| == 1 && Run(actions).value.jobs[0].row == row
  }

  lemma NothingStops(w: World)
    requires |w| == 1 && w[0] == BenchmarkTurn(Returned(NOTHING), false)
    ensures BenchmarkExit(SETTINGS, w, 0).None?
  {
    assert Best(w, 0) == 0;
  }

  /** A run that stands in front of the conclusion of an unchanged proposal, with a cancel request that has read its
      row. */
  lemma ConcludesUnderRequest() returns (actions: seq<Action>)
    ensures Run(actions)
         == Some(Solo(Standing(SETTINGS, [UNCHANGED_TURN], [], 0, BeforeConclusion(false, NOTHING, SAME)),
                      BeforeConclusion(false, NOTHING, SAME), Read(ACTIVE), [CANCEL]))
  {
    var w, ids: seq<string> := [UNCHANGED_TURN], [];
    assert Complete(NOTHING, ids);
    assert w[..0] + [BenchmarkTurn(Returned(NOTHING), false)] == [BenchmarkTurn(Returned(NOTHING), false)];
    NothingStops([BenchmarkTurn(Returned(NOTHING), false)]);
    hide Run, BenchmarkExit, Complete, SaveStep, ConcludeStep, FailStep, StartStep, FinishStep;
    actions := Starts(SETTINGS, w, ids);
    actions := ToBenchmark(actions, SETTINGS, w, ids, 0);
    actions := ToSave(actions, SETTINGS, w, ids, 0, NOTHING);
    actions := ToProposal(actions, SETTINGS, w, ids, 0, NOTHING);
    actions := ToAnswer(actions, SETTINGS, w, ids, 0, NOTHING, SAME);
    actions := Advances(actions, SETTINGS, w, ids, 0, AfterProposal(false, NOTHING, SAME),
                        BeforeConclusion(false, NOTHING, SAME));
    var job := Standing(SETTINGS, w, ids, 0, BeforeConclusion(false, NOTHING, SAME));
    actions := SoloRequest(actions, job, BeforeConclusion(false, NOTHING, SAME), Read(ACTIVE));
  }

  lemma NothingChanges(job: Job)
    requires job.course.turns == [] && job.course.config == SETTINGS
    ensures !Changes(job.course, UNCHANGED_TURN, SAME)
  {
    assert Best(Extended(job.course, UNCHANGED_TURN), 0) == 0;
  }

  /** The same run, with the stop reason committed and the status still to come. */
  lemma StopsUnderRequest() returns (actions: seq<Action>, job: Job)
    ensures job.row == UNCHANGED && !job.seen
    ensures Run(actions) == Some(Solo(job, AtFinish, Read(UNCHANGED), [CANCEL]))
  {
    hide Run;
    actions := ConcludesUnderRequest();
    var pc := BeforeConclusion(false, NOTHING, SAME);
    var before := Standing(SETTINGS, [UNCHANGED_TURN], [], 0, pc);
    NothingChanges(before);
    hide Changes;
    job := ConcludeStep(before, false, NOTHING, SAME, Read(ACTIVE)).value.job;
    actions := SoloStep(actions, before, pc, Read(ACTIVE), [CANCEL], Go, job, AtFinish, Read(UNCHANGED));
  }

  /** Some run ends in a completed job whose reason says cancelled. */
  lemma RowsCanDisagree() returns (actions: seq<Action>)
    ensures Run(actions).Some? && Run(actions).value.worker.Idle?
    ensures OnlyRow(actions, Fields(Completed, Some(Cancelled)))
  {
    hide Run;
    var job;
    actions, job := StopsUnderRequest();
    actions := SoloCommit(actions, job, Processing(0, AtFinish, Read(UNCHANGED)));
    var gone := CancelledJob(job, CANCEL.session);
    actions := SoloEnds(actions, gone, AtFinish, Read(UNCHANGED), [], Go, FinishStep(gone, Read(UNCHANGED)).job);
  }

  /** Some run completes a job, and one more action makes the job cancelled. */
  lemma CompletedCanBecomeCancelled() returns (before: seq<Action>, a: Action)
    ensures OnlyRow(before, Fields(Completed, Some(NoImprovement))) && OnlyRow(before + [a], GONE)
  {
    hide Run;
    var job;
    before, job := StopsUnderRequest();
    var done := FinishStep(job, Read(UNCHANGED)).job;
    before := SoloEnds(before, job, AtFinish, Read(UNCHANGED), [CANCEL], Go, done);
    var _ := SoloCommit(before, done, Idle);
    a := CommitCancel(0);
  }

  lemma FailsOverCancel(gone: Job, message: string)
    requires gone.row == GONE
    ensures FailStep(gone, InBenchmark(false), Read(ACTIVE), message).job.row == BROKEN
    ensures FailStep(gone, InBenchmark(false), Read(ACTIVE), message).next.None?
  {
  }

  /** A run in which a cancel has committed inside a benchmark, not seen by any check so far. */
  lemma IsCancelledInBenchmark() returns (actions: seq<Action>, gone: Job)
    ensures gone.row == GONE && Run(actions) == Some(Solo(gone, InBenchmark(false), Read(ACTIVE), []))
  {
    var ids: seq<string>, w: World, pc := [], [], InBenchmark(false);
    var job := Standing(SETTINGS, w, ids, 0, pc);
    gone := CancelledJob(job, CANCEL.session);
    assert job.row == ACTIVE && gone.row == GONE;
    hide Run, Standing, CancelledJob;
    actions := Starts(SETTINGS, w, ids);
    actions := ToBenchmark(actions, SETTINGS, w, ids, 0);
    actions := SoloRequest(actions, job, pc, Read(ACTIVE));
    actions := SoloCommit(actions, job, Processing(0, pc, Read(ACTIVE)));
  }

  /** In some run a job is cancelled, and one more action makes the job failed. */
  lemma CancelledCanBecomeFailed() returns (before: seq<Action>, a: Action)
    ensures OnlyRow(before, GONE) && OnlyRow(before + [a], BROKEN)
  {
    hide Run;
    var gone;
    before, gone := IsCancelledInBenchmark();
    FailsOverCancel(gone, "");
    hide FailStep;
    a := Process(Raise(""));
    var _ := SoloEnds(before, gone, InBenchmark(false), Read(ACTIVE), [], Raise(""),
                      FailStep(gone, InBenchmark(false), Read(ACTIVE), "").job);
  }

  // ---- The claim ----

  /** The system with a worker that hands on the job it selected without claiming it. */
  function NextWithoutClaim(s: State, a: Action): Option<State> {
    if !a.ClaimJob? then Next(s, a)
    else if s.worker.Selected? then Some(s.(worker := Claimed(s.worker.id)))
    else None
  }

  function RunWithoutClaim(actions: seq<Action>): Option<State> {
    if actions == [] then Some(INITIAL)
    else
      var before := RunWithoutClaim(actions[..|actions| - 1]);
      if before.Some? then NextWithoutClaim(before.value, actions[|actions| - 1]) else None
  }

  lemma DoWithoutClaim(actions: seq<Action>, a: Action, t: State) returns (longer: seq<Action>)
    requires RunWithoutClaim(actions).Some? && NextWithoutClaim(RunWithoutClaim(actions).value, a) == Some(t)
    ensures longer == actions + [a] && RunWithoutClaim(longer) == Some(t)
  {
    longer := actions + [a];
    assert longer[..|actions|] == actions;
  }

  lemma LoadsWithoutClaim() returns (actions: seq<Action>)
    ensures RunWithoutClaim(actions)
         == Some(State([NewJob(0, SETTINGS, []).(claimed := true)], Processing(0, AtStart, Read(WAITING)), [], [0]))
  {
    var waiting := NewJob(0, SETTINGS, []);
    var selected := waiting.(claimed := true);
    assert RunWithoutClaim([]) == Some(INITIAL);
    hide RunWithoutClaim, ProcessorStep;
    assert [] + [waiting] == [waiting] && [waiting][0 := selected] == [selected] && [] + [0 as nat] == [0];
    actions := DoWithoutClaim([], Submit(0, SETTINGS, []), State([waiting], Idle, [], []));
    assert OldestQueued([waiting], 0);
    actions := DoWithoutClaim(actions, SelectJob(0), State([selected], Selected(0), [], [0]));
    actions := DoWithoutClaim(actions, ClaimJob, State([selected], Claimed(0), [], [0]));
    actions := DoWithoutClaim(actions, LoadJob, State([selected], Processing(0, AtStart, Read(WAITING)), [], [0]));
  }

  lemma UndoneFrom(actions: seq<Action>, job: Job, request: Pending) returns (longer: seq<Action>)
    requires job.row == WAITING && request == Pending(0, Session(WAITING, GONE))
    requires RunWithoutClaim(actions) == Some(State([job], Processing(0, AtStart, Read(WAITING)), [], [0]))
    ensures RunWithoutClaim(longer)
         == Some(State([CancelledJob(job, request.session)], Processing(0, AtStart, Read(WAITING)), [], [0]))
  {
    hide RunWithoutClaim;
    var worker, gone := Processing(0, AtStart, Read(WAITING)), CancelledJob(job, request.session);
    assert [] + [request] == [request] && [request][..0] + [request][1..] == [] && [job][0 := gone] == [gone];
    longer := DoWithoutClaim(actions, ReadForCancel(0), State([job], worker, [request], [0]));
    longer := DoWithoutClaim(longer, CommitCancel(0), State([gone], worker, [], [0]));
  }

  /** A processor that has read a queued row writes it back to running over a cancel committed since. */
  lemma StartRevives(gone: Job) returns (t: State)
    requires gone.row == GONE
    ensures NextWithoutClaim(State([gone], Processing(0, AtStart, Read(WAITING)), [], [0]), Process(Go)) == Some(t)
    ensures |t.jobs| == 1 && t.jobs[0].row.status == Running
  {
    hide CancelledJob, SaveStep, ConcludeStep, FailStep, FinishStep, Check;
    var revived := StartStep(gone, Read(WAITING)).value;
    assert [gone][0 := revived.job] == [revived.job];
    t := State([revived.job], WorkerAt(0, revived.next), [], [0]);
  }

  /** Without the claim a finished job can run again: the processor has read it as queued, a cancel commits, and the
      processor's first commit makes it running. With the claim this is impossible
      (`ProtocolTheorems.StatusNeverGoesBack`). */
  lemma CancelIsUndoneWithoutClaim() returns (before: seq<Action>, a: Action)
    ensures RunWithoutClaim(before).Some? && |RunWithoutClaim(before).value.jobs| == 1
    ensures RunWithoutClaim(before).value.jobs[0].row == GONE
    ensures RunWithoutClaim(before + [a]).Some? && |RunWithoutClaim(before + [a]).value.jobs| == 1
    ensures RunWithoutClaim(before + [a]).value.jobs[0].row.status == Running
  {
    var job, request := NewJob(0, SETTINGS, []).(claimed := true), Pending(0, Session(WAITING, GONE));
    var gone := CancelledJob(job, request.session);
    hide RunWithoutClaim, NextWithoutClaim;
    before := LoadsWithoutClaim();
    before := UndoneFrom(before, job, request);
    a := Process(Go);
    var t := StartRevives(gone);
    var _ := DoWithoutClaim(before, a, t);
  }
}
