/** The converse of ProtocolRuns: whatever RunSpec says a run does, the interleaved protocol can do with one job. */
module RunsInProtocol {
  import opened Wrappers
  import opened Benchmark
  import opened RunSpec
  import opened RunPrefixes
  import opened JobProtocol
  import opened ProtocolRuns
  import opened ProtocolTheorems
  import opened RunResults

  // ---- One job alone in the system ----

  lemma Do(actions: seq<Action>, a: Action, t: State) returns (longer: seq<Action>)
    requires Run(actions).Some? && Next(Run(actions).value, a) == Some(t)
    ensures longer == actions + [a] && Run(longer) == Some(t)
  {
    longer := actions + [a];
    RunExtends(actions, a);
  }

  /** The state in which the only job of the system is being processed. */
  function Solo(job: Job, pc: Pc, s: Session, cancels: seq<Pending>): State {
    State([job], Processing(0, pc, s), cancels, [0])
  }

  lemma SoloStep(actions: seq<Action>, before: Job, pc: Pc, s: Session, cancels: seq<Pending>, move: Move,
                 after: Job, pc': Pc, s': Session)
    returns (longer: seq<Action>)
    requires Run(actions) == Some(Solo(before, pc, s, cancels))
    requires ProcessorStep(before, pc, s, move) == GoTo(after, pc', s')
    ensures Run(longer) == Some(Solo(after, pc', s', cancels))
  {
    hide Run, ProcessorStep;
    assert [before][0 := after] == [after];
    longer := Do(actions, Process(move), Solo(after, pc', s', cancels));
  }

  lemma SoloEnds(actions: seq<Action>, before: Job, pc: Pc, s: Session, cancels: seq<Pending>, move: Move, after: Job)
    returns (longer: seq<Action>)
    requires Run(actions) == Some(Solo(before, pc, s, cancels))
    requires ProcessorStep(before, pc, s, move) == Some(Outcome(after, None))
    ensures longer == actions + [Process(move)] && Run(longer) == Some(State([after], Idle, cancels, [0]))
  {
    hide Run, ProcessorStep;
    assert [before][0 := after] == [after];
    longer := Do(actions, Process(move), State([after], Idle, cancels, [0]));
  }

  const CANCEL := Pending(0, Session(ACTIVE, GONE))

  lemma SoloRequest(actions: seq<Action>, job: Job, pc: Pc, s: Session) returns (longer: seq<Action>)
    requires job.row == ACTIVE && Run(actions) == Some(Solo(job, pc, s, []))
    ensures Run(longer) == Some(Solo(job, pc, s, [CANCEL]))
  {
    hide Run, ProcessorStep;
    assert [] + [CANCEL] == [CANCEL];
    longer := Do(actions, ReadForCancel(0), Solo(job, pc, s, [CANCEL]));
  }

  lemma SoloCommit(actions: seq<Action>, job: Job, worker: Worker) returns (longer: seq<Action>)
    requires Run(actions) == Some(State([job], worker, [CANCEL], [0]))
    ensures longer == actions + [CommitCancel(0)]
    ensures Run(longer) == Some(State([CancelledJob(job, CANCEL.session)], worker, [], [0]))
  {
    hide Run, ProcessorStep;
    var gone := CancelledJob(job, CANCEL.session);
    assert [CANCEL][..0] + [CANCEL][1..] == [] && [job][0 := gone] == [gone];
    longer := Do(actions, CommitCancel(0), State([gone], worker, [], [0]));
  }

  // ---- A run in progress ----

  /** The only job after `i` survived turns of `w`, with the processor at `pc`. */
  function Standing(c: Config, w: World, taskIds: seq<string>, i: nat, pc: Pc): Job
    requires i <= |w|
  {
    Job(ACTIVE, 0, Work(2 * i + CallsIn(pc), 2 * i + 1 + RowsIn(pc)), true, None, false,
        Course(c, taskIds, w[..i], seq(i, _ => false),
               Results(w, i) + (if IsSaved(pc) then [pc.result] else []), false))
  }

  predicate StandsAt(actions: seq<Action>, c: Config, w: World, taskIds: seq<string>, i: nat, pc: Pc) {
    i <= |w| && Run(actions) == Some(Solo(Standing(c, w, taskIds, i, pc), pc, Read(ACTIVE), []))
  }

  /** The only job has been dealt with. */
  predicate EndsWith(actions: seq<Action>, c: Config, taskIds: seq<string>, turns: World, row: Fields, calls: nat,
                     rows: nat, saved: seq<BenchmarkResult>) {
    var s := Run(actions);
    && s.Some? && s.value.worker.Idle? && |s.value.jobs| == 1
    && s.value.jobs[0].row == row && s.value.jobs[0].work == Work(calls, rows)
    && s.value.jobs[0].course.config == c && s.value.jobs[0].course.taskIds == taskIds
    && s.value.jobs[0].course.turns == turns && s.value.jobs[0].course.saved == saved
  }

  lemma IsClaimedAndLoaded(c: Config, taskIds: seq<string>) returns (actions: seq<Action>)
    ensures Run(actions)
         == Some(Solo(NewJob(0, c, taskIds).(row := ACTIVE, claimed := true), AtStart, Read(ACTIVE), []))
  {
    var waiting := NewJob(0, c, taskIds);
    var selected := waiting.(claimed := true);
    var claimed := selected.(row := ACTIVE);
    assert Run([]) == Some(INITIAL);
    hide Run, ProcessorStep;
    assert [] + [waiting] == [waiting] && [waiting][0 := selected] == [selected];
    assert [selected][0 := claimed] == [claimed];
    actions := Do([], Submit(0, c, taskIds), State([waiting], Idle, [], []));
    assert OldestQueued([waiting], 0) && [] + [0 as nat] == [0];
    actions := Do(actions, SelectJob(0), State([selected], Selected(0), [], [0]));
    actions := Do(actions, ClaimJob, State([claimed], Claimed(0), [], [0]));
    actions := Do(actions, LoadJob, Solo(claimed, AtStart, Read(ACTIVE), []));
  }

  lemma Starts(c: Config, w: World, taskIds: seq<string>) returns (actions: seq<Action>)
    ensures StandsAt(actions, c, w, taskIds, 0, AtTop)
  {
    hide Run, Next, SaveStep, ConcludeStep, FailStep, FinishStep;
    var claimed, s := NewJob(0, c, taskIds).(row := ACTIVE, claimed := true), Read(ACTIVE);
    var first := Standing(c, w, taskIds, 0, AtTop);
    assert Added(claimed) == first;
    actions := IsClaimedAndLoaded(c, taskIds);
    actions := SoloStep(actions, claimed, AtStart, s, [], Go, claimed, BeforeBaseline, s);
    actions := SoloStep(actions, claimed, BeforeBaseline, s, [], Go, first, AtTop, s);
  }

  lemma Goes(actions: seq<Action>, c: Config, w: World, taskIds: seq<string>, i: nat, pc: Pc, move: Move, pc': Pc)
    returns (longer: seq<Action>)
    requires StandsAt(actions, c, w, taskIds, i, pc)
    requires ProcessorStep(Standing(c, w, taskIds, i, pc), pc, Read(ACTIVE), move)
          == GoTo(Standing(c, w, taskIds, i, pc'), pc', Read(ACTIVE))
    ensures StandsAt(longer, c, w, taskIds, i, pc')
  {
    hide Run, ProcessorStep, Standing;
    longer := SoloStep(actions, Standing(c, w, taskIds, i, pc), pc, Read(ACTIVE), [], move,
                       Standing(c, w, taskIds, i, pc'), pc', Read(ACTIVE));
  }

  /** The steps that only move the processor on, as long as nobody cancels. */
  predicate Follows(pc: Pc, pc': Pc) {
    match pc
    case AtTop => pc' == BeforeInsert
    case BeforeInsert => pc' == BeforeBenchmark
    case BeforeBenchmark => pc' == InBenchmark(false)
    case AfterBenchmark(told, r) => pc' == BeforeSave(told, r)
    case BeforeProposal(told, r) => pc' == InProposal(told, r)
    case AfterProposal(told, r, p) => pc' == BeforeConclusion(told, r, p)
    case _ => false
  }

  lemma FollowingStep(c: Config, w: World, taskIds: seq<string>, i: nat, pc: Pc, pc': Pc)
    requires i <= |w| && Follows(pc, pc')
    ensures ProcessorStep(Standing(c, w, taskIds, i, pc), pc, Read(ACTIVE), Go)
         == GoTo(Standing(c, w, taskIds, i, pc'), pc', Read(ACTIVE))
  {
    hide Results, SaveStep, ConcludeStep, FailStep, StartStep, FinishStep;
  }

  lemma Advances(actions: seq<Action>, c: Config, w: World, taskIds: seq<string>, i: nat, pc: Pc, pc': Pc)
    returns (longer: seq<Action>)
    requires StandsAt(actions, c, w, taskIds, i, pc) && Follows(pc, pc')
    ensures StandsAt(longer, c, w, taskIds, i, pc')
  {
    assert i <= |w|;
    hide *;
    FollowingStep(c, w, taskIds, i, pc, pc');
    longer := Goes(actions, c, w, taskIds, i, pc, Go, pc');
  }

  lemma ToBenchmark(actions: seq<Action>, c: Config, w: World, taskIds: seq<string>, i: nat)
    returns (longer: seq<Action>)
    requires StandsAt(actions, c, w, taskIds, i, AtTop)
    ensures StandsAt(longer, c, w, taskIds, i, InBenchmark(false))
  {
    hide StandsAt;
    longer := Advances(actions, c, w, taskIds, i, AtTop, BeforeInsert);
    longer := Advances(longer, c, w, taskIds, i, BeforeInsert, BeforeBenchmark);
    longer := Advances(longer, c, w, taskIds, i, BeforeBenchmark, InBenchmark(false));
  }

  lemma ReportStep(c: Config, w: World, taskIds: seq<string>, i: nat, r: BenchmarkResult)
    requires i <= |w| && Complete(r, taskIds)
    ensures ProcessorStep(Standing(c, w, taskIds, i, InBenchmark(false)), InBenchmark(false), Read(ACTIVE), Report(r))
         == GoTo(Standing(c, w, taskIds, i, AfterBenchmark(false, r)), AfterBenchmark(false, r), Read(ACTIVE))
  {
    hide Results, Complete;
  }

  lemma ToSave(actions: seq<Action>, c: Config, w: World, taskIds: seq<string>, i: nat, r: BenchmarkResult)
    returns (longer: seq<Action>)
    requires StandsAt(actions, c, w, taskIds, i, InBenchmark(false)) && Complete(r, taskIds)
    ensures StandsAt(longer, c, w, taskIds, i, BeforeSave(false, r))
  {
    assert i <= |w|;
    hide StandsAt, Standing, ProcessorStep, Complete;
    ReportStep(c, w, taskIds, i, r);
    longer := Goes(actions, c, w, taskIds, i, InBenchmark(false), Report(r), AfterBenchmark(false, r));
    longer := Advances(longer, c, w, taskIds, i, AfterBenchmark(false, r), BeforeSave(false, r));
  }

  lemma SaveGoesOn(c: Config, w: World, taskIds: seq<string>, i: nat, r: BenchmarkResult)
    requires i <= |w| && BenchmarkExit(c, w[..i] + [BenchmarkTurn(Returned(r), false)], i).None?
    ensures ProcessorStep(Standing(c, w, taskIds, i, BeforeSave(false, r)), BeforeSave(false, r), Read(ACTIVE), Go)
         == GoTo(Standing(c, w, taskIds, i, BeforeProposal(false, r)), BeforeProposal(false, r), Read(ACTIVE))
  {
    hide Results, BenchmarkExit;
    assert Results(w, i) + [] == Results(w, i);
  }

  lemma ToProposal(actions: seq<Action>, c: Config, w: World, taskIds: seq<string>, i: nat, r: BenchmarkResult)
    returns (longer: seq<Action>)
    requires StandsAt(actions, c, w, taskIds, i, BeforeSave(false, r))
    requires BenchmarkExit(c, w[..i] + [BenchmarkTurn(Returned(r), false)], i).None?
    ensures StandsAt(longer, c, w, taskIds, i, InProposal(false, r))
  {
    assert i <= |w|;
    hide StandsAt, Standing, ProcessorStep, BenchmarkExit;
    SaveGoesOn(c, w, taskIds, i, r);
    longer := Goes(actions, c, w, taskIds, i, BeforeSave(false, r), Go, BeforeProposal(false, r));
    longer := Advances(longer, c, w, taskIds, i, BeforeProposal(false, r), InProposal(false, r));
  }

  lemma AnswerStep(c: Config, w: World, taskIds: seq<string>, i: nat, r: BenchmarkResult, p: Proposal)
    requires i <= |w|
    ensures ProcessorStep(Standing(c, w, taskIds, i, InProposal(false, r)), InProposal(false, r), Read(ACTIVE),
                          Answer(p))
         == GoTo(Standing(c, w, taskIds, i, AfterProposal(false, r, p)), AfterProposal(false, r, p), Read(ACTIVE))
  {
    hide Results;
  }

  lemma ToAnswer(actions: seq<Action>, c: Config, w: World, taskIds: seq<string>, i: nat, r: BenchmarkResult,
                 p: Proposal)
    returns (longer: seq<Action>)
    requires StandsAt(actions, c, w, taskIds, i, InProposal(false, r))
    ensures StandsAt(longer, c, w, taskIds, i, AfterProposal(false, r, p))
  {
    assert i <= |w|;
    hide StandsAt, Standing, ProcessorStep;
    AnswerStep(c, w, taskIds, i, r, p);
    longer := Goes(actions, c, w, taskIds, i, InProposal(false, r), Answer(p), AfterProposal(false, r, p));
  }

  // ---- Ways to end ----

  lemma CheckEnds(actions: seq<Action>, gone: Job, pc: Pc) returns (longer: seq<Action>)
    requires gone.row == GONE && (pc.AtTop? || pc.AfterBenchmark? || pc.AfterProposal?)
    requires Run(actions) == Some(Solo(gone, pc, Read(ACTIVE), []))
    ensures EndsWith(longer, gone.course.config, gone.course.taskIds,
                     gone.course.turns + [TurnEnded(gone, pc, Go)], GONE, gone.work.calls, gone.work.rows,
                     gone.course.saved)
  {
    hide Run, SaveStep, ConcludeStep, FailStep, StartStep;
    var o := GoStep(gone, pc, Read(ACTIVE)).value;
    longer := SoloStep(actions, gone, pc, Read(ACTIVE), [], Go, o.job, AtFinish, Read(GONE));
    longer := SoloEnds(longer, o.job, AtFinish, Read(GONE), [], Go, o.job);
  }

  /** A cancel that commits in front of a check. */
  lemma EndsByCancel(actions: seq<Action>, c: Config, w: World, taskIds: seq<string>, i: nat, pc: Pc)
    returns (longer: seq<Action>)
    requires StandsAt(actions, c, w, taskIds, i, pc) && (pc.AtTop? || pc.AfterProposal?)
    ensures i <= |w|
    ensures EndsWith(longer, c, taskIds, w[..i] + [TurnEnded(Standing(c, w, taskIds, i, pc), pc, Go)], GONE,
                     2 * i + CallsIn(pc), 2 * i + 1 + RowsIn(pc), Standing(c, w, taskIds, i, pc).course.saved)
  {
    hide Run, Results, SaveStep, ConcludeStep, FailStep, StartStep;
    var job := Standing(c, w, taskIds, i, pc);
    longer := SoloRequest(actions, job, pc, Read(ACTIVE));
    longer := SoloCommit(longer, job, Processing(0, pc, Read(ACTIVE)));
    longer := CheckEnds(longer, CancelledJob(job, CANCEL.session), pc);
  }

  /** A cancel that commits inside a benchmark, is seen there, and lets it report what it likes. */
  lemma EndsInBenchmark(actions: seq<Action>, c: Config, w: World, taskIds: seq<string>, i: nat, r: BenchmarkResult)
    returns (longer: seq<Action>)
    requires StandsAt(actions, c, w, taskIds, i, InBenchmark(false))
    ensures EndsWith(longer, c, taskIds, w[..i] + [BenchmarkTurn(Returned(r), true)], GONE, 2 * i + 1, 2 * i + 2,
                     Results(w, i))
  {
    hide Run, Results, SaveStep, ConcludeStep, FailStep, StartStep, FinishStep;
    var job, s := Standing(c, w, taskIds, i, InBenchmark(false)), Read(ACTIVE);
    assert Results(w, i) + [] == Results(w, i);
    longer := SoloRequest(actions, job, InBenchmark(false), s);
    longer := SoloCommit(longer, job, Processing(0, InBenchmark(false), s));
    var gone := CancelledJob(job, CANCEL.session);
    longer := SoloStep(longer, gone, InBenchmark(false), s, [], Go, gone, InBenchmark(true), s);
    longer := SoloStep(longer, gone, InBenchmark(true), s, [], Report(r), gone, AfterBenchmark(true, r), s);
    longer := CheckEnds(longer, gone, AfterBenchmark(true, r));
  }

  lemma EndsByError(actions: seq<Action>, c: Config, w: World, taskIds: seq<string>, i: nat, pc: Pc, message: string)
    returns (longer: seq<Action>)
    requires StandsAt(actions, c, w, taskIds, i, pc) && (pc.InBenchmark? || pc.InProposal?)
    ensures i <= |w|
    ensures EndsWith(longer, c, taskIds, w[..i] + [TurnEnded(Standing(c, w, taskIds, i, pc), pc, Raise(message))],
                     BROKEN, 2 * i + CallsIn(pc), 2 * i + 1 + RowsIn(pc),
                     Standing(c, w, taskIds, i, pc).course.saved)
  {
    hide Run, Results;
    var job := Standing(c, w, taskIds, i, pc);
    longer := SoloEnds(actions, job, pc, Read(ACTIVE), [], Raise(message),
                       FailStep(job, pc, Read(ACTIVE), message).job);
  }

  lemma EndsByStop(actions: seq<Action>, c: Config, w: World, taskIds: seq<string>, i: nat, r: BenchmarkResult)
    returns (longer: seq<Action>)
    requires StandsAt(actions, c, w, taskIds, i, BeforeSave(false, r))
    requires BenchmarkExit(c, w[..i] + [BenchmarkTurn(Returned(r), false)], i).Some?
    ensures var v := w[..i] + [BenchmarkTurn(Returned(r), false)];
            EndsWith(longer, c, taskIds, v, Fields(Completed, Some(ReasonOf(BenchmarkExit(c, v, i).value))),
                     2 * i + 1, 2 * i + 2, Results(w, i) + [r])
  {
    hide Run, Results, BenchmarkExit, ReasonOf;
    var job, s := Standing(c, w, taskIds, i, BeforeSave(false, r)), Read(ACTIVE);
    assert Results(w, i) + [] == Results(w, i);
    var o := SaveStep(job, false, r, s).value;
    longer := SoloStep(actions, job, BeforeSave(false, r), s, [], Go, o.job, AtFinish, o.next.value.1);
    longer := SoloEnds(longer, o.job, AtFinish, o.next.value.1, [], Go, FinishStep(o.job, o.next.value.1).job);
  }

  lemma EndsUnchanged(actions: seq<Action>, c: Config, w: World, taskIds: seq<string>, i: nat, r: BenchmarkResult,
                      p: Proposal)
    returns (longer: seq<Action>)
    requires StandsAt(actions, c, w, taskIds, i, BeforeConclusion(false, r, p))
    requires !Changes(Standing(c, w, taskIds, i, AtTop).course, FullTurn(r, Returned(p), false), p)
    ensures EndsWith(longer, c, taskIds, w[..i] + [FullTurn(r, Returned(p), false)],
                     Fields(Completed, Some(NoImprovement)), 2 * i + 2, 2 * i + 2, Results(w, i) + [r])
  {
    hide Run, Results;
    var job, s := Standing(c, w, taskIds, i, BeforeConclusion(false, r, p)), Read(ACTIVE);
    var o := ConcludeStep(job, false, r, p, s).value;
    longer := SoloStep(actions, job, BeforeConclusion(false, r, p), s, [], Go, o.job, AtFinish, Read(UNCHANGED));
    longer := SoloEnds(longer, o.job, AtFinish, Read(UNCHANGED), [], Go, FinishStep(o.job, Read(UNCHANGED)).job);
  }

  /** A survived turn. */
  lemma GoesOn(actions: seq<Action>, c: Config, w: World, taskIds: seq<string>, i: nat, r: BenchmarkResult, p: Proposal)
    returns (longer: seq<Action>)
    requires StandsAt(actions, c, w, taskIds, i, BeforeConclusion(false, r, p))
    requires i < |w| && w[i] == FullTurn(r, Returned(p), false)
    requires Changes(Standing(c, w, taskIds, i, AtTop).course, FullTurn(r, Returned(p), false), p)
    ensures StandsAt(longer, c, w, taskIds, i + 1, AtTop)
  {
    hide Run;
    var job, s := Standing(c, w, taskIds, i, BeforeConclusion(false, r, p)), Read(ACTIVE);
    var next := Standing(c, w, taskIds, i + 1, AtTop);
    assert w[..i] + [w[i]] == w[..i + 1] && seq(i, _ => false) + [false] == seq(i + 1, _ => false);
    assert Results(w, i) + [r] == Results(w, i + 1) + [];
    longer := SoloStep(actions, job, BeforeConclusion(false, r, p), s, [], Go, next, AtTop, s);
  }

  // ---- A whole run ----

  lemma SameStop(c: Config, w: World, i: nat, r: BenchmarkResult)
    requires i < |w| && !w[i].cancelledBefore && w[i].bench == Returned(r) && !w[i].cancelledAfterBench
    ensures BenchmarkExit(c, w[..i] + [BenchmarkTurn(Returned(r), false)], i) == BenchmarkExit(c, w, i)
  {
    BenchmarkExitOfPrefix(c, w[..i] + [BenchmarkTurn(Returned(r), false)], w, i);
  }

  lemma SameChange(c: Config, w: World, taskIds: seq<string>, i: nat, r: BenchmarkResult, p: Proposal)
    requires i < |w| && w[i].bench == Returned(r)
    ensures Changes(Standing(c, w, taskIds, i, AtTop).course, FullTurn(r, Returned(p), false), p)
       <==> p.content != Content(c, w, Best(w, i))
  {
    var v := w[..i] + [FullTurn(r, Returned(p), false)];
    BestOfPrefix(v, w, i);
    var best := Best(w, i);
    assert Content(c, v, best) == Content(c, w, best) by {
      if best > 0 {
        assert TurnAt(v, best - 1) == TurnAt(w, best - 1);
      }
    }
  }

  /** The results saved when the iteration ends the run in this way. */
  function SavedBy(w: World, i: nat, exit: Exit): seq<BenchmarkResult> {
    Results(w, if Judged(exit) then i + 1 else i)
  }

  lemma OneMoreResult(w: World, i: nat, r: BenchmarkResult)
    requires i < |w| && w[i].bench == Returned(r)
    ensures Results(w, i) + [r] == Results(w, i + 1) && Results(w, i) + [] == Results(w, i)
  {
  }

  /** The turn of iteration `i` as far as the run has met it. */
  function TurnMet(w: World, i: nat, exit: Exit): Turn {
    match exit
    case CancelledBefore => CANCELLED_EARLY
    case CancelledAfterBench => BenchmarkTurn(TurnAt(w, i).bench, true)
    case CancelledAfterProposal => FullTurn(Result(w, i), TurnAt(w, i).propose, true)
    case ProposalRaised(_) => FullTurn(Result(w, i), TurnAt(w, i).propose, false)
    case ProposalUnchanged => FullTurn(Result(w, i), TurnAt(w, i).propose, false)
    case _ => BenchmarkTurn(TurnAt(w, i).bench, false)
  }

  /** The turns the run meets when iteration `i` ends it. */
  function TurnsMet(w: World, i: nat, exit: Exit): World
    requires i <= |w|
  {
    w[..i] + [TurnMet(w, i, exit)]
  }

  predicate EndsAs(actions: seq<Action>, c: Config, w: World, taskIds: seq<string>, i: nat, exit: Exit) {
    i <= |w| && EndsWith(actions, c, taskIds, TurnsMet(w, i, exit), FinalRow(exit),
                         2 * i + LastBenchmarks(exit) + LastCalls(exit), 2 * i + 1 + LastBenchmarks(exit),
                         SavedBy(w, i, exit))
  }

  lemma PlayStops(c: Config, w: World, taskIds: seq<string>, i: nat, actions: seq<Action>)
    returns (longer: seq<Action>)
    requires StandsAt(actions, c, w, taskIds, i, BeforeSave(false, Result(w, i)))
    requires i < |w| && !w[i].cancelledBefore && w[i].bench.Returned? && !w[i].cancelledAfterBench
    ensures var exit := BenchmarkExit(c, w, i);
            if exit.None? then longer == actions else EndsAs(longer, c, w, taskIds, i, exit.value)
  {
    var r, exit := Result(w, i), BenchmarkExit(c, w, i);
    StopsAreNormal(c, w, i);
    SameStop(c, w, i, r);
    OneMoreResult(w, i, r);
    hide StandsAt, EndsWith, Results, BenchmarkExit, Result;
    longer := actions;
    if exit.Some? {
      longer := EndsByStop(actions, c, w, taskIds, i, r);
    }
  }

  lemma PlayBenchmark(c: Config, w: World, taskIds: seq<string>, i: nat, actions: seq<Action>)
    returns (longer: seq<Action>)
    requires ShortOnlyWhenCancelled(w, taskIds) && StandsAt(actions, c, w, taskIds, i, AtTop)
    ensures var exit := BenchmarkExit(c, w, i);
            if exit.None? then StandsAt(longer, c, w, taskIds, i, BeforeSave(false, Result(w, i)))
            else EndsAs(longer, c, w, taskIds, i, exit.value)
  {
    assert i <= |w|;
    assert Results(w, i) + [] == Results(w, i);
    if TurnAt(w, i).cancelledBefore {
      hide StandsAt, EndsWith, Results;
      longer := EndsByCancel(actions, c, w, taskIds, i, AtTop);
      return;
    }
    assert w[i] == TurnAt(w, i);
    var r := Result(w, i);
    hide StandsAt, EndsWith, Results, Complete;
    longer := ToBenchmark(actions, c, w, taskIds, i);
    if w[i].bench.Raised? {
      longer := EndsByError(longer, c, w, taskIds, i, InBenchmark(false), w[i].bench.message);
    } else if w[i].cancelledAfterBench {
      longer := EndsInBenchmark(longer, c, w, taskIds, i, r);
    } else {
      longer := ToSave(longer, c, w, taskIds, i, r);
      longer := PlayStops(c, w, taskIds, i, longer);
    }
  }

  lemma AnswerExits(c: Config, w: World, i: nat, p: Proposal)
    requires i < |w| && w[i].propose == Returned(p)
    ensures OptimizerExit(c, w, i)
         == if w[i].cancelledAfterProposal then Some(CancelledAfterProposal)
            else if p.content == Content(c, w, Best(w, i)) then Some(ProposalUnchanged)
            else None
  {
    hide Content, Best;
  }

  lemma EndsCancelledAfterProposal(actions: seq<Action>, c: Config, w: World, taskIds: seq<string>, i: nat,
                                   r: BenchmarkResult, p: Proposal)
    returns (longer: seq<Action>)
    requires StandsAt(actions, c, w, taskIds, i, AfterProposal(false, r, p))
    requires i < |w| && w[i].bench == Returned(r) && w[i].propose == Returned(p)
    ensures EndsAs(longer, c, w, taskIds, i, CancelledAfterProposal)
  {
    OneMoreResult(w, i, r);
    hide StandsAt, EndsWith, Results;
    longer := EndsByCancel(actions, c, w, taskIds, i, AfterProposal(false, r, p));
  }

  lemma EndsWithNothingToAdd(actions: seq<Action>, c: Config, w: World, taskIds: seq<string>, i: nat,
                             r: BenchmarkResult, p: Proposal)
    returns (longer: seq<Action>)
    requires StandsAt(actions, c, w, taskIds, i, BeforeConclusion(false, r, p))
    requires i < |w| && w[i].bench == Returned(r) && w[i].propose == Returned(p)
    requires p.content == Content(c, w, Best(w, i))
    ensures EndsAs(longer, c, w, taskIds, i, ProposalUnchanged)
  {
    SameChange(c, w, taskIds, i, r, p);
    OneMoreResult(w, i, r);
    hide StandsAt, EndsWith, Results, Changes, Standing;
    longer := EndsUnchanged(actions, c, w, taskIds, i, r, p);
  }

  lemma PlayAnswer(c: Config, w: World, taskIds: seq<string>, i: nat, r: BenchmarkResult, p: Proposal,
                   actions: seq<Action>)
    returns (longer: seq<Action>)
    requires StandsAt(actions, c, w, taskIds, i, InProposal(false, r))
    requires i < |w| && !w[i].cancelledBefore && w[i].bench == Returned(r) && !w[i].cancelledAfterBench
    requires w[i].propose == Returned(p)
    ensures var exit := OptimizerExit(c, w, i);
            if exit.None? then StandsAt(longer, c, w, taskIds, i + 1, AtTop)
            else EndsAs(longer, c, w, taskIds, i, exit.value)
  {
    AnswerExits(c, w, i, p);
    SameChange(c, w, taskIds, i, r, p);
    hide StandsAt, EndsAs, Changes, Content, Best, OptimizerExit, Standing;
    longer := ToAnswer(actions, c, w, taskIds, i, r, p);
    if w[i].cancelledAfterProposal {
      longer := EndsCancelledAfterProposal(longer, c, w, taskIds, i, r, p);
      return;
    }
    longer := Advances(longer, c, w, taskIds, i, AfterProposal(false, r, p), BeforeConclusion(false, r, p));
    if OptimizerExit(c, w, i).Some? {
      longer := EndsWithNothingToAdd(longer, c, w, taskIds, i, r, p);
    } else {
      longer := GoesOn(longer, c, w, taskIds, i, r, p);
    }
  }

  lemma PlayProposal(c: Config, w: World, taskIds: seq<string>, i: nat, actions: seq<Action>)
    returns (longer: seq<Action>)
    requires StandsAt(actions, c, w, taskIds, i, BeforeSave(false, Result(w, i))) && BenchmarkExit(c, w, i).None?
    ensures var exit := OptimizerExit(c, w, i);
            if exit.None? then StandsAt(longer, c, w, taskIds, i + 1, AtTop)
            else EndsAs(longer, c, w, taskIds, i, exit.value)
  {
    assert i < |w| && w[i].bench == Returned(Result(w, i));
    var r := Result(w, i);
    SameStop(c, w, i, r);
    OneMoreResult(w, i, r);
    var turn := w[i];
    hide StandsAt, EndsWith, Results, BenchmarkExit, Result;
    longer := ToProposal(actions, c, w, taskIds, i, r);
    if turn.propose.Raised? {
      longer := EndsByError(longer, c, w, taskIds, i, InProposal(false, r), turn.propose.message);
      return;
    }
    longer := PlayAnswer(c, w, taskIds, i, r, turn.propose.value, longer);
  }

  lemma {:induction false} PlayFrom(c: Config, w: World, taskIds: seq<string>, i: nat, actions: seq<Action>)
    returns (longer: seq<Action>)
    requires ShortOnlyWhenCancelled(w, taskIds)
    requires i <= End(c, w) && Reaches(c, w, i) && StandsAt(actions, c, w, taskIds, i, AtTop)
    ensures EndsAs(longer, c, w, taskIds, End(c, w), FinalExit(c, w))
    decreases End(c, w) - i
  {
    hide StandsAt, EndsAs, BenchmarkExit, OptimizerExit, ShortOnlyWhenCancelled;
    longer := PlayBenchmark(c, w, taskIds, i, actions);
    if BenchmarkExit(c, w, i).None? {
      longer := PlayProposal(c, w, taskIds, i, longer);
    }
    if ExitAt(c, w, i).Some? {
      EndIs(c, w, i);
    } else {
      assert i != End(c, w);
      longer := PlayFrom(c, w, taskIds, i + 1, longer);
    }
  }

  // ---- The same rows and calls ----

  /** On the turns it meets the run decides, writes and shows what it does on all of them. */
  lemma MetTurnsAgree(c: Config, w: World, i: nat, exit: Exit, k: nat)
    requires i <= |w| && ExitAt(c, w, i) == Some(exit) && k <= i
    ensures var v := TurnsMet(w, i, exit);
      && (k < i ==> TurnAt(v, k) == TurnAt(w, k))
      && Content(c, v, k) == Content(c, w, k)
      && (k < i || Judged(exit) ==> TurnAt(v, k).bench == TurnAt(w, k).bench)
      && (k < i || exit.ProposalUnchanged? ==> TurnAt(v, k).propose == TurnAt(w, k).propose)
  {
    hide Best;
  }

  lemma MetTurnsSameBest(c: Config, w: World, i: nat, exit: Exit, k: nat)
    requires i <= |w| && ExitAt(c, w, i) == Some(exit) && k <= i && (k < i || Judged(exit))
    ensures var v := TurnsMet(w, i, exit);
      && Best(v, k) == Best(w, k) && Result(v, k) == Result(w, k) && Score(v, k) == Score(w, k)
      && Score(v, Best(v, k)) == Score(w, Best(w, k)) && Result(v, Best(v, k)) == Result(w, Best(w, k))
      && Content(c, v, Best(v, k)) == Content(c, w, Best(w, k))
  {
    var v := TurnsMet(w, i, exit);
    forall j | 0 <= j <= k ensures TurnAt(v, j).bench == TurnAt(w, j).bench {
      MetTurnsAgree(c, w, i, exit, j);
    }
    hide ExitAt, TurnsMet, Content;
    BestOfPrefix(v, w, k);
    MetTurnsAgree(c, w, i, exit, Best(w, k));
  }

  lemma MetTurnsExit(c: Config, w: World, i: nat, exit: Exit)
    requires i <= |w| && ExitAt(c, w, i) == Some(exit)
    ensures ExitAt(c, TurnsMet(w, i, exit), i) == Some(exit)
  {
    var v := TurnsMet(w, i, exit);
    if Judged(exit) {
      forall j | 0 <= j <= i ensures TurnAt(v, j).bench == TurnAt(w, j).bench {
        MetTurnsAgree(c, w, i, exit, j);
      }
      BenchmarkExitOfPrefix(c, v, w, i);
      MetTurnsSameBest(c, w, i, exit, i);
      hide Best, Content;
    }
  }

  lemma MetTurnsEnd(c: Config, w: World, i: nat, exit: Exit)
    requires i <= |w| && Reaches(c, w, i) && ExitAt(c, w, i) == Some(exit)
    ensures End(c, TurnsMet(w, i, exit)) == i && FinalExit(c, TurnsMet(w, i, exit)) == exit
  {
    var v := TurnsMet(w, i, exit);
    MetTurnsExit(c, w, i, exit);
    assert w[..i] <= v;
    ReachesOfPrefix(c, w[..i], w, i);
    ReachesOfPrefix(c, w[..i], v, i);
    hide ExitAt, TurnsMet;
    EndIs(c, v, i);
  }

  /** A version row is decided by the turns before it. */
  lemma MetTurnsVersion(c: Config, w: World, i: nat, exit: Exit, k: nat)
    requires i <= |w| && ExitAt(c, w, i) == Some(exit) && k <= i
    ensures VersionRow(c, TurnsMet(w, i, exit), k) == VersionRow(c, w, k)
  {
    hide ExitAt, TurnsMet, Content;
    MetTurnsAgree(c, w, i, exit, k);
    if k > 0 {
      MetTurnsSameBest(c, w, i, exit, k - 1);
    }
  }

  lemma {:induction false} MetTurnsVersions(c: Config, w: World, i: nat, exit: Exit, n: nat)
    requires i <= |w| && ExitAt(c, w, i) == Some(exit) && n <= i + 1
    ensures VersionRows(c, TurnsMet(w, i, exit), n) == VersionRows(c, w, n)
  {
    hide ExitAt, TurnsMet, VersionRow;
    if n > 0 {
      MetTurnsVersions(c, w, i, exit, n - 1);
      MetTurnsVersion(c, w, i, exit, n - 1);
    }
  }

  /** So are a judged row and the attempt it completes. */
  lemma MetTurnsJudged(c: Config, w: World, i: nat, exit: Exit, k: nat)
    requires i <= |w| && ExitAt(c, w, i) == Some(exit) && k <= i && (k < i || Judged(exit))
    ensures var v := TurnsMet(w, i, exit);
            JudgedRow(v, k) == JudgedRow(w, k) && AttemptAt(c, v, k) == AttemptAt(c, w, k)
  {
    hide ExitAt, TurnsMet, Content, VersionRow;
    MetTurnsSameBest(c, w, i, exit, k);
    if k > 0 {
      MetTurnsSameBest(c, w, i, exit, k - 1);
      MetTurnsVersion(c, w, i, exit, k);
    }
  }

  lemma {:induction false} MetTurnsLessons(c: Config, w: World, i: nat, exit: Exit, n: nat)
    requires i <= |w| && ExitAt(c, w, i) == Some(exit) && n <= i
    ensures LessonsAfter(TurnsMet(w, i, exit), n) == LessonsAfter(w, n)
  {
    hide ExitAt, TurnsMet, Content, Best;
    if n > 0 {
      MetTurnsLessons(c, w, i, exit, n - 1);
      MetTurnsAgree(c, w, i, exit, n - 1);
      MetTurnsSameBest(c, w, i, exit, n - 1);
    }
  }

  lemma MetTurnsCall(c: Config, w: World, i: nat, exit: Exit, k: nat)
    requires i <= |w| && ExitAt(c, w, i) == Some(exit) && k <= i && (k < i || Judged(exit))
    ensures CallAt(c, TurnsMet(w, i, exit), k) == CallAt(c, w, k)
  {
    hide ExitAt, TurnsMet, Content, AttemptAt, LessonsAfter, Best, JudgedRow;
    MetTurnsSameBest(c, w, i, exit, k);
    MetTurnsLessons(c, w, i, exit, k);
    MetTurnsJudged(c, w, i, exit, k);
  }

  lemma {:induction false} MetTurnsCalls(c: Config, w: World, i: nat, exit: Exit, n: nat)
    requires i <= |w| && ExitAt(c, w, i) == Some(exit) && n <= i + LastCalls(exit)
    ensures Calls(c, TurnsMet(w, i, exit), n) == Calls(c, w, n)
  {
    hide ExitAt, TurnsMet, CallAt;
    if n > 0 {
      MetTurnsCalls(c, w, i, exit, n - 1);
      MetTurnsCall(c, w, i, exit, n - 1);
    }
  }

  lemma MetTurnsProposedRow(c: Config, w: World, i: nat, exit: Exit, k: nat)
    requires i <= |w| && ExitAt(c, w, i) == Some(exit) && k <= i && (k < i || Judged(exit))
    ensures ProposedRow(c, TurnsMet(w, i, exit), k) == ProposedRow(c, w, k)
  {
    hide ExitAt, TurnsMet, JudgedRow, AttemptAt, Best;
    MetTurnsJudged(c, w, i, exit, k);
    MetTurnsSameBest(c, w, i, exit, k);
  }

  lemma {:induction false} MetTurnsProposed(c: Config, w: World, i: nat, exit: Exit, n: nat)
    requires i <= |w| && ExitAt(c, w, i) == Some(exit) && n <= i
    ensures ProposedRows(c, TurnsMet(w, i, exit), n) == ProposedRows(c, w, n)
  {
    hide ExitAt, TurnsMet, ProposedRow;
    if n > 0 {
      MetTurnsProposed(c, w, i, exit, n - 1);
      MetTurnsProposedRow(c, w, i, exit, n - 1);
    }
  }

  lemma MetTurnsLastRow(c: Config, w: World, i: nat, exit: Exit)
    requires i <= |w| && ExitAt(c, w, i) == Some(exit)
    ensures LastRow(c, TurnsMet(w, i, exit), i, exit) == LastRow(c, w, i, exit)
  {
    hide ExitAt, TurnsMet, JudgedRow, ProposedRow;
    if Judged(exit) {
      MetTurnsJudged(c, w, i, exit, i);
      MetTurnsProposedRow(c, w, i, exit, i);
    }
  }

  lemma MetTurnsRows(c: Config, w: World, i: nat, exit: Exit)
    requires i <= |w| && Reaches(c, w, i) && ExitAt(c, w, i) == Some(exit)
    ensures IterationRows(c, TurnsMet(w, i, exit)) == IterationRows(c, w)
  {
    hide ExitAt, TurnsMet, LastRow, ProposedRows, End, Reaches;
    MetTurnsEnd(c, w, i, exit);
    EndIs(c, w, i);
    MetTurnsProposed(c, w, i, exit, i);
    MetTurnsLastRow(c, w, i, exit);
  }

  /** A run on other turns with the same rows, the same versions and the same optimizer calls. */
  predicate SameRun(c: Config, v: World, w: World) {
    && End(c, v) == End(c, w) && FinalExit(c, v) == FinalExit(c, w)
    && IterationRows(c, v) == IterationRows(c, w)
    && VersionRows(c, v, End(c, v) + 1) == VersionRows(c, w, End(c, w) + 1)
    && Calls(c, v, End(c, v) + LastCalls(FinalExit(c, v))) == Calls(c, w, End(c, w) + LastCalls(FinalExit(c, w)))
  }

  lemma MetTurnsSameRun(c: Config, w: World)
    requires End(c, w) <= |w|
    ensures SameRun(c, TurnsMet(w, End(c, w), FinalExit(c, w)), w)
  {
    hide ExitAt, TurnsMet, IterationRows, VersionRows, Calls, Reaches, EndFrom;
    var n, exit := End(c, w), FinalExit(c, w);
    MetTurnsEnd(c, w, n, exit);
    MetTurnsRows(c, w, n, exit);
    MetTurnsVersions(c, w, n, exit, n + 1);
    MetTurnsCalls(c, w, n, exit, n + LastCalls(exit));
  }

  /** Main result: every run of RunSpec whose benchmarks keep the executors' word, cancelled, failed or neither, is a
      run of the protocol. It ends in the same row, begins one benchmark for each iteration row and as many optimizer
      calls, adds as many iteration rows and versions, and saves the same results; and on the turns the job has met
      RunSpec gives the very same iteration rows, versions and optimizer calls. */
  lemma RunIsProtocolRun(c: Config, w: World, taskIds: seq<string>) returns (actions: seq<Action>, met: World)
    requires ShortOnlyWhenCancelled(w, taskIds)
    ensures EndsWith(actions, c, taskIds, met, FinalRow(FinalExit(c, w)),
                     |IterationRows(c, w)| + |Calls(c, w, End(c, w) + LastCalls(FinalExit(c, w)))|,
                     |IterationRows(c, w)| + |VersionRows(c, w, End(c, w) + 1)|,
                     SavedBy(w, End(c, w), FinalExit(c, w)))
    ensures SameRun(c, met, w)
  {
    hide EndsWith, FinalRow, StandsAt, ShortOnlyWhenCancelled, SavedBy, TurnsMet, SameRun;
    actions := Starts(c, w, taskIds);
    actions := PlayFrom(c, w, taskIds, 0, actions);
    met := TurnsMet(w, End(c, w), FinalExit(c, w));
    MetTurnsSameRun(c, w);
    RowCount(c, w);
  }
}
