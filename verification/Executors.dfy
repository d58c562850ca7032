/** The offline executor: a task passes by its own nature or because the agent's text earned a boost. */
module SimulatedExecutor {
  import opened Wrappers
  import opened Benchmark
  import opened Substrings
  import HeuristicEdits

  predicate PlanBoost(lower: string) { Contains(lower, "todo") || Contains(lower, "plan") }

  predicate ModeBoost(lower: string) { Contains(lower, "non-interactive") || Contains(lower, "do not ask") }

  predicate VerifyBoost(lower: string) { Contains(lower, "verify") && Contains(lower, "before finishing") }

  function Boosts(agent: string): nat {
    var lower := Lower(agent);
    (if PlanBoost(lower) then 1 else 0) + (if ModeBoost(lower) then 1 else 0) + (if VerifyBoost(lower) then 1 else 0)
  }

  /** Task `i` passes when its identifier is lucky (`stable`) or when it is among the boosted first few. */
  function Outcome(stable: string -> bool, boosts: nat, i: nat, taskId: string): TaskExecution {
    if stable(taskId) || i < boosts then TaskExecution(taskId, Some(1.0), Passed)
    else TaskExecution(taskId, Some(0.0), Failed)
  }

  function Outcomes(stable: string -> bool, boosts: nat, taskIds: seq<string>): seq<TaskExecution> {
    seq(|taskIds|, i requires 0 <= i < |taskIds| => Outcome(stable, boosts, i, taskIds[i]))
  }

  method CountBoosts(agent: string) returns (boosts: nat)
    ensures boosts == Boosts(agent)
  {
    boosts := 0;
    var lower := Lower(agent);
    if Contains(lower, "todo") || Contains(lower, "plan") {
      boosts := boosts + 1;
    }
    if Contains(lower, "non-interactive") || Contains(lower, "do not ask") {
      boosts := boosts + 1;
    }
    if Contains(lower, "verify") && Contains(lower, "before finishing") {
      boosts := boosts + 1;
    }
  }

  /** The result of a run nobody cancels. */
  function Result(stable: string -> bool, taskIds: seq<string>, agent: string): BenchmarkResult {
    var tasks := Outcomes(stable, Boosts(agent), taskIds);
    BenchmarkResult(tasks, MeanReward(tasks))
  }

  /** The loop over the benchmark tasks; `cancelled(i)` is the answer to the cancellation check in front of task `i`. */
  method RunTasks(stable: string -> bool, taskIds: seq<string>, boosts: nat, cancelled: nat -> bool)
    returns (tasks: seq<TaskExecution>)
    ensures |tasks| <= |taskIds| && tasks == Outcomes(stable, boosts, taskIds)[..|tasks|]
    ensures forall i | 0 <= i < |tasks| :: !cancelled(i)
    ensures |tasks| < |taskIds| ==> cancelled(|tasks|)
  {
    tasks := [];
    var i := 0;
    while i < |taskIds|
      invariant i == |tasks| <= |taskIds|
      invariant tasks == Outcomes(stable, boosts, taskIds)[..i]
      invariant forall j | 0 <= j < i :: !cancelled(j)
    {
      if cancelled(i) {
        break;
      }
      if stable(taskIds[i]) || i < boosts {
        tasks := tasks + [TaskExecution(taskIds[i], Some(1.0), Passed)];
      } else {
        tasks := tasks + [TaskExecution(taskIds[i], Some(0.0), Failed)];
      }
      i := i + 1;
    }
  }

  /** What a run may report: the tasks in front of the first positive cancellation check, and all of them if there
      is none, scored by the mean. */
  predicate Reports(stable: string -> bool, taskIds: seq<string>, agent: string, cancelled: nat -> bool,
                    result: BenchmarkResult) {
    var n := |result.tasks|;
    && n <= |taskIds| && result.tasks == Result(stable, taskIds, agent).tasks[..n]
    && (forall i | 0 <= i < n :: !cancelled(i)) && (n < |taskIds| ==> cancelled(n))
    && result.valScore == MeanReward(result.tasks)
  }

  /** Whether some check that was made answered yes. */
  predicate Told(taskIds: seq<string>, cancelled: nat -> bool, result: BenchmarkResult) {
    exists i | 0 <= i <= |result.tasks| && i < |taskIds| :: cancelled(i)
  }

  /** `run_benchmark`. */
  method RunBenchmark(stable: string -> bool, taskIds: seq<string>, agent: string, cancelled: nat -> bool)
    returns (result: BenchmarkResult)
    ensures Reports(stable, taskIds, agent, cancelled, result)
    ensures |result.tasks| <= |taskIds| && (forall i | 0 <= i < |result.tasks| :: !cancelled(i))
    ensures |result.tasks| < |taskIds| ==> cancelled(|result.tasks|)
  {
    var boosts := CountBoosts(agent);
    var tasks := RunTasks(stable, taskIds, boosts, cancelled);
    result := BenchmarkResult(tasks, MeanReward(tasks));
  }

  lemma ResultIsBinary(stable: string -> bool, taskIds: seq<string>, agent: string)
    ensures BinaryResult(Result(stable, taskIds, agent), |taskIds|)
    ensures Complete(Result(stable, taskIds, agent), taskIds)
  {
  }

  /** A run that does not report every task was told to stop. */
  lemma ReportsAllUnlessTold(stable: string -> bool, taskIds: seq<string>, agent: string, cancelled: nat -> bool,
                             result: BenchmarkResult)
    requires Reports(stable, taskIds, agent, cancelled, result)
    ensures Complete(result, taskIds) || Told(taskIds, cancelled, result)
    ensures Told(taskIds, cancelled, result) <==> |result.tasks| < |taskIds|
  {
    var n := |result.tasks|;
    if n < |taskIds| {
      assert cancelled(n);
    }
  }

  /** Which tasks pass: the lucky ones, the first for any one of the three kinds of advice, the second for two of them,
      the third for all three, and none behind it for any advice. */
  lemma TaskPassesIff(stable: string -> bool, taskIds: seq<string>, agent: string, cancelled: nat -> bool,
                      result: BenchmarkResult, i: nat)
    requires Reports(stable, taskIds, agent, cancelled, result) && i < |result.tasks|
    ensures var task, lower := result.tasks[i], Lower(agent);
            var plans := Contains(lower, "todo") || Contains(lower, "plan");
            var keepsGoing := Contains(lower, "non-interactive") || Contains(lower, "do not ask");
            var verifies := Contains(lower, "verify") && Contains(lower, "before finishing");
      && i < |taskIds| && task.taskId == taskIds[i]
      && (task.status == Passed <==>
            || stable(taskIds[i])
            || (i == 0 && (plans || keepsGoing || verifies))
            || (i == 1 && ((plans && keepsGoing) || (plans && verifies) || (keepsGoing && verifies)))
            || (i == 2 && plans && keepsGoing && verifies))
      && task.status != InfraError && task.reward == Some(if task.status == Passed then 1.0 else 0.0)
  {
    hide Contains, Lower;
  }

  // ---- The heuristic edits against this benchmark ----

  lemma PlanBoostAfterEdit(agent: string)
    ensures PlanBoost(Lower(HeuristicEdits.Edited(agent)))
  {
    HeuristicEdits.EditSettlesPlanAndMode(agent);
    var edited := HeuristicEdits.Edited(agent);
    if !Contains(Lower(edited), "plan") {
      LowerKeepsPattern(edited, "TODO");
      assert Lower("TODO") == "todo";
    }
  }

  lemma PhraseEarnsBoost(text: string, first: string, gap: string, last: string)
    requires Contains(text, first + gap + last)
    ensures Contains(text, first) && Contains(text, last)
  {
    var phrase := first + gap + last;
    var i :| 0 <= i <= |text| && OccursAt(text, phrase, i);
    forall k | 0 <= k < |first| ensures text[i + k] == first[k] {
      assert text[i + k] == phrase[k];
    }
    assert OccursAt(text, first, i);
    var shift := |first| + |gap|;
    forall k | 0 <= k < |last| ensures text[i + shift + k] == last[k] {
      assert text[i + (shift + k)] == phrase[shift + k];
    }
    assert OccursAt(text, last, i + shift);
  }

  lemma VerifyBoostAfterEdit(agent: string)
    ensures VerifyBoost(Lower(HeuristicEdits.Edited(agent)))
  {
    if HeuristicEdits.NeedsVerify(agent) {
      var before := HeuristicEdits.InjectIf(HeuristicEdits.NeedsMode(agent),
                      HeuristicEdits.InjectIf(HeuristicEdits.NeedsPlan(agent), agent, HeuristicEdits.PLAN_BODY),
                      HeuristicEdits.MODE_BODY);
      HeuristicEdits.VerifyBodyContainsVerify();
      HeuristicEdits.VerifyIsLower();
      HeuristicEdits.VerifyBodyContainsFinish();
      HeuristicEdits.FinishIsLower();
      HeuristicEdits.InjectBrings(before, HeuristicEdits.VERIFY_BODY, "verify");
      HeuristicEdits.InjectBrings(before, HeuristicEdits.VERIFY_BODY, "before finishing");
    } else {
      HeuristicEdits.EditKeepsVerifyGuard(agent);
      PhraseEarnsBoost(Lower(HeuristicEdits.Edited(agent)), "verify", " your solution ", "before finishing");
    }
  }

  /** One heuristic edit earns every boost there is, whatever the agent looked like. */
  lemma EditEarnsEveryBoost(agent: string)
    ensures Boosts(HeuristicEdits.Edited(agent)) == 3
  {
    PlanBoostAfterEdit(agent);
    HeuristicEdits.EditSettlesPlanAndMode(agent);
    VerifyBoostAfterEdit(agent);
  }

  lemma {:induction false} OutcomesGrow(stable: string -> bool, few: nat, many: nat, taskIds: seq<string>, n: nat)
    requires few <= many && n <= |taskIds|
    ensures TotalReward(Outcomes(stable, few, taskIds)[..n]) <= TotalReward(Outcomes(stable, many, taskIds)[..n])
  {
    if n > 0 {
      OutcomesGrow(stable, few, many, taskIds, n - 1);
      assert Outcomes(stable, few, taskIds)[..n][..n - 1] == Outcomes(stable, few, taskIds)[..n - 1];
      assert Outcomes(stable, many, taskIds)[..n][..n - 1] == Outcomes(stable, many, taskIds)[..n - 1];
    }
  }

  /** Main result: on every task list an edited agent passes whatever any agent passes, so its score is
      never lower than that of any agent, the one it was edited from in particular. */
  lemma EditNeverLowersScore(stable: string -> bool, taskIds: seq<string>, agent: string, other: string)
    ensures var edited := Result(stable, taskIds, HeuristicEdits.Edited(agent));
            && Result(stable, taskIds, other).valScore <= edited.valScore
            && forall i | 0 <= i < |taskIds| ::
                 Result(stable, taskIds, other).tasks[i].status.Passed? ==> edited.tasks[i].status.Passed?
  {
    EditEarnsEveryBoost(agent);
    var few, many := Outcomes(stable, Boosts(other), taskIds), Outcomes(stable, 3, taskIds);
    OutcomesGrow(stable, Boosts(other), 3, taskIds, |taskIds|);
    assert few[..|taskIds|] == few && many[..|taskIds|] == many;
    QuotientOrder(TotalReward(many), TotalReward(few), Max(|taskIds|, 1) as real);
  }

  /** All edited agents get the same result. */
  lemma EditsScoreAlike(stable: string -> bool, taskIds: seq<string>, a: string, b: string)
    ensures Result(stable, taskIds, HeuristicEdits.Edited(a)) == Result(stable, taskIds, HeuristicEdits.Edited(b))
  {
    hide Boosts, HeuristicEdits.Edited;
    EditEarnsEveryBoost(a);
    EditEarnsEveryBoost(b);
  }
}

/** The sandbox executor, seen through what its subprocess reports. */
module HarborExecutor {
  import opened Wrappers
  import opened Benchmark

  /** What one round of the polling loop finds; `Broken` stands for an exception inside it. */
  datatype Poll = Poll(exited: bool, cancelRequested: bool, pastDeadline: bool) | Broken

  predicate EndsLoop(p: Poll) {
    p.Broken? || p.exited || p.cancelRequested || p.pastDeadline
  }

  /** What the run meets: everything the executor cannot decide by itself. */
  datatype Surroundings = Surroundings(
    preflightFails: bool, cancelledBeforeStart: bool, startFails: bool, polls: seq<Poll>,
    collectingOutputFails: bool, exitCode: int, results: Option<map<string, Option<real>>>)

  function StatusOf(reward: Option<real>): TaskStatus {
    if reward.None? then InfraError else if reward.value >= 0.5 then Passed else Failed
  }

  function InfraFailure(taskIds: seq<string>): BenchmarkResult {
    BenchmarkResult(seq(|taskIds|, i requires 0 <= i < |taskIds| => TaskExecution(taskIds[i], None, InfraError)), 0.0)
  }

  lemma {:induction false} NoRewardTotal(tasks: seq<TaskExecution>)
    requires forall t | t in tasks :: t.reward.None?
    ensures TotalReward(tasks) == 0.0
  {
    if tasks != [] {
      NoRewardTotal(tasks[..|tasks| - 1]);
    }
  }

  lemma {:induction false} InfraFailureScoresItsMean(taskIds: seq<string>)
    ensures InfraFailure(taskIds).valScore == MeanReward(InfraFailure(taskIds).tasks)
  {
    NoRewardTotal(InfraFailure(taskIds).tasks);
  }

  /** Some round ends the loop; the deadline sees to that. */
  predicate Ends(polls: seq<Poll>) {
    polls != [] && (EndsLoop(polls[0]) || Ends(polls[1..]))
  }

  /** The round that ends the loop. */
  function LastPoll(polls: seq<Poll>): (p: Poll)
    requires Ends(polls)
    ensures p in polls && EndsLoop(p)
  {
    if EndsLoop(polls[0]) then polls[0] else LastPoll(polls[1..])
  }

  /** The run was started, and its output could be collected. */
  predicate Collected(s: Surroundings) {
    !s.preflightFails && !s.cancelledBeforeStart && !s.startFails && !s.collectingOutputFails
  }

  /** A cancellation check put an end to the run: the one in front of it, or one in a round in which the
      subprocess had not already exited. */
  predicate CutShort(s: Surroundings)
    requires Ends(s.polls)
  {
    var last := LastPoll(s.polls);
    || (!s.preflightFails && s.cancelledBeforeStart)
    || (Collected(s) && last.Poll? && !last.exited && last.cancelRequested)
  }

  /** The subprocess exited by itself and left something to classify. */
  predicate Scored(s: Surroundings)
    requires Ends(s.polls)
  {
    var last := LastPoll(s.polls);
    Collected(s) && last.Poll? && last.exited && s.results.Some? && (s.exitCode == 0 || s.results.value != map[])
  }

  function RewardOf(s: Surroundings, taskId: string): Option<real> {
    if s.results.Some? && taskId in s.results.value then s.results.value[taskId] else None
  }

  /** One result for each task, in order, with the reward reported for it. */
  function Classified(taskIds: seq<string>, s: Surroundings): seq<TaskExecution> {
    seq(|taskIds|, i requires 0 <= i < |taskIds| =>
      var reward := RewardOf(s, taskIds[i]);
      TaskExecution(taskIds[i], reward, StatusOf(reward)))
  }

  /** The classification loop. */
  method Classify(taskIds: seq<string>, s: Surroundings) returns (result: BenchmarkResult)
    ensures result.tasks == Classified(taskIds, s) && result.valScore == MeanReward(result.tasks)
  {
    var tasks: seq<TaskExecution> := [];
    for i := 0 to |taskIds|
      invariant tasks == Classified(taskIds, s)[..i]
    {
      var reward := RewardOf(s, taskIds[i]);
      if reward.None? {
        tasks := tasks + [TaskExecution(taskIds[i], reward, InfraError)];
      } else if reward.value >= 0.5 {
        tasks := tasks + [TaskExecution(taskIds[i], reward, Passed)];
      } else {
        tasks := tasks + [TaskExecution(taskIds[i], reward, Failed)];
      }
    }
    result := BenchmarkResult(tasks, MeanReward(tasks));
  }

  /** The polling loop: why it ended. */
  method Watch(polls: seq<Poll>) returns (timedOut: bool, cancelled: bool, broken: bool)
    requires Ends(polls)
    ensures var last := LastPoll(polls);
      && broken == last.Broken?
      && cancelled == (last.Poll? && !last.exited && last.cancelRequested)
      && timedOut == (last.Poll? && !last.exited && !last.cancelRequested)
  {
    timedOut, cancelled, broken := false, false, false;
    var k := 0;
    while true
      invariant 0 <= k < |polls| && !cancelled && !timedOut && !broken
      invariant Ends(polls[k..]) && LastPoll(polls[k..]) == LastPoll(polls)
      decreases |polls| - k
    {
      assert polls[k..][1..] == polls[k + 1..];
      if polls[k].Broken? {
        broken := true;
        break;
      }
      if polls[k].exited {
        break;
      }
      if polls[k].cancelRequested {
        cancelled := true;
        break;
      }
      if polls[k].pastDeadline {
        timedOut := true;
        break;
      }
      k := k + 1;
    }
  }

  /** What a run may report: nothing exactly when a cancellation check cut it short; otherwise one result per task
      in order, the classified rewards when there are any to classify, and infrastructure errors when not. */
  predicate Reports(taskIds: seq<string>, s: Surroundings, result: BenchmarkResult)
    requires Ends(s.polls)
  {
    && (CutShort(s) ==> result == BenchmarkResult([], 0.0))
    && (!CutShort(s) && !Scored(s) ==> result == InfraFailure(taskIds))
    && (Scored(s) ==> result.tasks == Classified(taskIds, s))
    && result.valScore == MeanReward(result.tasks)
  }

  /** `_run_sync`. */
  method RunSync(taskIds: seq<string>, s: Surroundings) returns (result: BenchmarkResult)
    requires Ends(s.polls)
    ensures Reports(taskIds, s, result)
  {
    InfraFailureScoresItsMean(taskIds);
    if s.preflightFails {
      return InfraFailure(taskIds);
    }
    if s.cancelledBeforeStart {
      return BenchmarkResult([], 0.0);
    }
    if s.startFails {
      return InfraFailure(taskIds);
    }
    var timedOut, cancelled, broken := Watch(s.polls);
    if broken || s.collectingOutputFails {
      return InfraFailure(taskIds);
    }
    if cancelled {
      return BenchmarkResult([], 0.0);
    }
    if timedOut || s.results.None? || (s.exitCode != 0 && s.results.value == map[]) {
      return InfraFailure(taskIds);
    }
    result := Classify(taskIds, s);
  }

  /** The round that ends the loop, by its number: the first that is broken, finds the subprocess gone, is answered yes
      or is past the deadline. */
  predicate DecidedIn(polls: seq<Poll>, k: nat) {
    && k < |polls| && (polls[k].Broken? || polls[k].exited || polls[k].cancelRequested || polls[k].pastDeadline)
    && forall j | 0 <= j < k ::
         polls[j].Poll? && !polls[j].exited && !polls[j].cancelRequested && !polls[j].pastDeadline
  }

  lemma {:induction false} LastPollIsDecisive(polls: seq<Poll>, k: nat)
    requires DecidedIn(polls, k)
    ensures Ends(polls) && LastPoll(polls) == polls[k]
  {
    if k > 0 {
      LastPollIsDecisive(polls[1..], k - 1);
    }
  }

  /** What a run reports, told of what it met: `k` is the round that ended its loop. */
  predicate VerdictTold(taskIds: seq<string>, s: Surroundings, k: nat, result: BenchmarkResult)
    requires k < |s.polls|
  {
    var p := s.polls[k];
    var started := !s.preflightFails && !s.cancelledBeforeStart && !s.startFails;
    var stopped := (!s.preflightFails && s.cancelledBeforeStart)
                   || (started && !s.collectingOutputFails && p.Poll? && !p.exited && p.cancelRequested);
    var scored := started && !s.collectingOutputFails && p.Poll? && p.exited
                  && s.results.Some? && (s.exitCode == 0 || s.results.value != map[]);
    if stopped then result == BenchmarkResult([], 0.0)
    else
      && |result.tasks| == |taskIds| && result.valScore == MeanReward(result.tasks)
      && forall i | 0 <= i < |taskIds| ::
           var task := result.tasks[i];
           && task.taskId == taskIds[i]
           && task.reward == (if scored && taskIds[i] in s.results.value then s.results.value[taskIds[i]] else None)
           && (task.status == InfraError <==> task.reward == None)
           && (task.status == Passed <==> task.reward.Some? && task.reward.value >= 0.5)
  }

  /** Main result: a run that meets these surroundings reports what is told of them, and nothing else. */
  lemma VerdictIsTold(taskIds: seq<string>, s: Surroundings, k: nat, result: BenchmarkResult)
    requires DecidedIn(s.polls, k)
    ensures Ends(s.polls) && (Reports(taskIds, s, result) <==> VerdictTold(taskIds, s, k, result))
  {
    LastPollIsDecisive(s.polls, k);
    InfraFailureScoresItsMean(taskIds);
    assert MeanReward([]) == 0.0;
    hide MeanReward, Ends, LastPoll;
    if VerdictTold(taskIds, s, k, result) && !CutShort(s) {
      var expected := if Scored(s) then Classified(taskIds, s) else InfraFailure(taskIds).tasks;
      assert result.tasks == expected;
    }
  }

  /** Whether a round that asked for cancellation got a yes; a round that finds the subprocess gone does not ask. */
  predicate YesAmong(polls: seq<Poll>)
    requires Ends(polls)
  {
    var p := polls[0];
    if EndsLoop(p) then p.Poll? && !p.exited && p.cancelRequested else YesAmong(polls[1..])
  }

  /** Whether some check that was made answered yes. */
  predicate Told(s: Surroundings)
    requires Ends(s.polls)
  {
    !s.preflightFails && (s.cancelledBeforeStart || (!s.startFails && YesAmong(s.polls)))
  }

  lemma {:induction false} LastPollTold(polls: seq<Poll>)
    requires Ends(polls)
    ensures var last := LastPoll(polls); YesAmong(polls) <==> last.Poll? && !last.exited && last.cancelRequested
  {
    if !EndsLoop(polls[0]) {
      LastPollTold(polls[1..]);
    }
  }

  /** A run that does not report every task was told to stop, and a run told to stop still reports every task only
      when its output could not be collected. */
  lemma ReportsAllUnlessTold(taskIds: seq<string>, s: Surroundings, result: BenchmarkResult)
    requires Ends(s.polls) && Reports(taskIds, s, result)
    ensures Complete(result, taskIds) || Told(s)
    ensures Told(s) ==> result.tasks == [] || (s.collectingOutputFails && result == InfraFailure(taskIds))
  {
    LastPollTold(s.polls);
  }
}

/** What the processor may rely on, whichever executor runs its benchmarks. */
module ExecutorContract {
  import opened Benchmark
  import SimulatedExecutor
  import HarborExecutor

  /** One benchmark: the executor with everything it meets, the answers of its cancellation checks included. */
  datatype Execution =
    | Simulated(stable: string -> bool, agent: string, cancelled: nat -> bool)
    | Sandboxed(surroundings: HarborExecutor.Surroundings)

  predicate Reports(e: Execution, taskIds: seq<string>, result: BenchmarkResult) {
    match e
    case Simulated(stable, agent, cancelled) => SimulatedExecutor.Reports(stable, taskIds, agent, cancelled, result)
    case Sandboxed(s) => HarborExecutor.Ends(s.polls) && HarborExecutor.Reports(taskIds, s, result)
  }

  /** Whether a cancellation check that the executor made answered yes. */
  predicate Told(e: Execution, taskIds: seq<string>, result: BenchmarkResult)
    requires Reports(e, taskIds, result)
  {
    match e
    case Simulated(_, _, cancelled) => SimulatedExecutor.Told(taskIds, cancelled, result)
    case Sandboxed(s) => HarborExecutor.Told(s)
  }

  /** A benchmark reports one result per task, in order, unless one of its checks answered yes. */
  lemma ReportsAllUnlessTold(e: Execution, taskIds: seq<string>, result: BenchmarkResult)
    requires Reports(e, taskIds, result)
    ensures Complete(result, taskIds) || Told(e, taskIds, result)
  {
    match e
    case Simulated(stable, agent, cancelled) =>
      SimulatedExecutor.ReportsAllUnlessTold(stable, taskIds, agent, cancelled, result);
    case Sandboxed(s) => HarborExecutor.ReportsAllUnlessTold(taskIds, s, result);
  }
}

/** Live progress: the executor derives pending and running tasks from artifact directories, and the API
    derives the completed ones from those two lists. */
module LiveProgress {
  import opened Wrappers

  /** What the directory of one task looks like. */
  datatype TaskDir = Missing | Finished | Started | Empty | Unreadable

  function Filter(ids: seq<string>, keep: string -> bool): (r: seq<string>)
    ensures forall id :: id in r <==> id in ids && keep(id)
  {
    if ids == [] then []
    else Filter(ids[..|ids| - 1], keep) + if keep(ids[|ids| - 1]) then [ids[|ids| - 1]] else []
  }

  /** Which ids are kept, and in which order: one more id is appended or left out. */
  lemma OneMoreId(ids: seq<string>, last: string, keep: string -> bool)
    ensures Filter([], keep) == []
    ensures Filter(ids + [last], keep) == if keep(last) then Filter(ids, keep) + [last] else Filter(ids, keep)
  {
    assert (ids + [last])[..|ids|] == ids;
  }

  lemma {:induction false} SameFilter(ids: seq<string>, f: string -> bool, g: string -> bool)
    requires forall id | id in ids :: f(id) == g(id)
    ensures Filter(ids, f) == Filter(ids, g)
  {
    if ids != [] {
      SameFilter(ids[..|ids| - 1], f, g);
    }
  }

  /** `_read_harbor_progress`. */
  method ReadProgress(present: bool, taskIds: seq<string>, dir: string -> TaskDir)
    returns (progress: Option<(seq<string>, seq<string>)>)
    ensures progress.Some? <==> present && exists id | id in taskIds :: dir(id).Finished? || dir(id).Started?
    ensures progress.Some? ==>
      && progress.value.0 == Filter(taskIds, id => !dir(id).Finished? && !dir(id).Started?)
      && progress.value.1 == Filter(taskIds, id => dir(id).Started?)
  {
    if !present {
      return None;
    }
    var completed: set<string> := {};
    var running: seq<string> := [];
    for i := 0 to |taskIds|
      invariant completed == set id | id in taskIds[..i] && dir(id).Finished?
      invariant running == Filter(taskIds[..i], id => dir(id).Started?)
    {
      assert taskIds[..i + 1] == taskIds[..i] + [taskIds[i]];
      assert taskIds[..i + 1][..i] == taskIds[..i];
      if dir(taskIds[i]).Finished? {
        completed := completed + {taskIds[i]};
      } else if dir(taskIds[i]).Started? {
        running := running + [taskIds[i]];
      }
    }
    assert taskIds[..|taskIds|] == taskIds;
    assert forall id | id in taskIds ::
             (id in completed <==> dir(id).Finished?) && (id in running <==> dir(id).Started?);
    if completed == {} && running == [] {
      return None;
    }
    if completed != {} {
      var id :| id in completed;
      assert id in taskIds;
    } else {
      assert running[0] in running && running[0] in taskIds;
    }
    SameFilter(taskIds, id => id !in completed && id !in running, id => !dir(id).Finished? && !dir(id).Started?);
    progress := Some((Filter(taskIds, id => id !in completed && id !in running), running));
  }

  /** The completed list `_tasks_summary` shows while no result is stored. */
  function Completed(allIds: seq<string>, pending: seq<string>, running: seq<string>): seq<string> {
    Filter(allIds, id => id !in pending && id !in running)
  }

  /** The API recovers exactly the finished tasks, in order, from the two lists the executor publishes. */
  lemma CompletedMeansFinished(taskIds: seq<string>, dir: string -> TaskDir)
    ensures Completed(taskIds, Filter(taskIds, id => !dir(id).Finished? && !dir(id).Started?),
                      Filter(taskIds, id => dir(id).Started?))
         == Filter(taskIds, id => dir(id).Finished?)
  {
    var pending := Filter(taskIds, id => !dir(id).Finished? && !dir(id).Started?);
    var running := Filter(taskIds, id => dir(id).Started?);
    SameFilter(taskIds, id => id !in pending && id !in running, id => dir(id).Finished?);
  }
}
