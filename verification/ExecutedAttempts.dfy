/** The recent-attempt record on results the executors really report. */
module ExecutedAttempts {
  import opened Wrappers
  import opened Benchmark
  import opened RecentAttempts
  import opened RunSpec
  import opened RunTheorems
  import SimulatedExecutor
  import HarborExecutor
  import ExecutorContract
  import RunResults

  // ---- Sandbox results ----

  /** The sandbox executor looks rewards up by id, so equal ids have equal rewards. */
  lemma SandboxFindsOwn(ids: seq<string>, s: HarborExecutor.Surroundings)
    ensures FindsOwn(HarborExecutor.Classified(ids, s), ids)
  {
    var tasks := HarborExecutor.Classified(ids, s);
    forall i | 0 <= i < |ids| ensures LatestReward(tasks, ids[i]) == RewardOrZero(tasks[i]) {
      var _ := ParentIsLatest(tasks, ids[i], i);
    }
  }

  /** Main result: against a parent that ran in the sandbox the deltas conserve the score on every list of task ids,
      with or without repetitions. */
  lemma SandboxDeltasConserve(ids: seq<string>, s: HarborExecutor.Surroundings, candidates: seq<TaskExecution>)
    requires Rewarded(HarborExecutor.Classified(ids, s), ids) && Rewarded(candidates, ids)
    ensures Conserved(HarborExecutor.Classified(ids, s), candidates)
  {
    SandboxFindsOwn(ids, s);
    OwnRewardsConserve(ids, HarborExecutor.Classified(ids, s), candidates);
  }

  // ---- Simulated results ----

  /** Two copies of an unlucky id lie on the two sides of the boost boundary. */
  predicate Straddles(stable: string -> bool, ids: seq<string>, boosts: nat) {
    exists i, j | 0 <= i < j < |ids| :: ids[i] == ids[j] && !stable(ids[i]) && i < boosts <= j
  }

  lemma SimulatedIsRewarded(stable: string -> bool, ids: seq<string>, boosts: nat)
    ensures Rewarded(SimulatedExecutor.Outcomes(stable, boosts, ids), ids)
  {
  }

  /** The latest copy of an id never earns more than an earlier one, and less only across the boundary. */
  lemma LatestSimulated(stable: string -> bool, ids: seq<string>, boosts: nat, i: nat) returns (j: nat)
    requires i < |ids|
    ensures var tasks := SimulatedExecutor.Outcomes(stable, boosts, ids);
      && i <= j < |ids| && ids[j] == ids[i] && (forall m | j < m < |ids| :: ids[m] != ids[i])
      && LatestReward(tasks, ids[i]) == RewardOrZero(tasks[j]) <= RewardOrZero(tasks[i])
      && (RewardOrZero(tasks[j]) < RewardOrZero(tasks[i]) <==> !stable(ids[i]) && i < boosts <= j)
  {
    var tasks := SimulatedExecutor.Outcomes(stable, boosts, ids);
    j := ParentIsLatest(tasks, ids[i], i);
    forall m | j < m < |ids| ensures ids[m] != ids[i] {
      assert tasks[m].taskId == ids[m];
    }
  }

  lemma {:induction false} LatestTotalAtMost(stable: string -> bool, ids: seq<string>, boosts: nat, n: nat)
    requires n <= |ids|
    ensures var tasks := SimulatedExecutor.Outcomes(stable, boosts, ids);
            LatestTotal(tasks, ids[..n]) <= TotalReward(tasks[..n])
  {
    if n > 0 {
      var tasks := SimulatedExecutor.Outcomes(stable, boosts, ids);
      LatestTotalAtMost(stable, ids, boosts, n - 1);
      LatestStep(tasks, ids, n - 1);
      TotalStep(tasks, n - 1);
      var _ := LatestSimulated(stable, ids, boosts, n - 1);
      hide LatestReward, LatestTotal, TotalReward, SimulatedExecutor.Outcomes;
    }
  }

  /** One reward that looking up misses is enough. */
  lemma {:induction false} LatestTotalBelow(stable: string -> bool, ids: seq<string>, boosts: nat, n: nat, i: nat)
    requires i < n <= |ids|
    requires var tasks := SimulatedExecutor.Outcomes(stable, boosts, ids);
             LatestReward(tasks, ids[i]) < RewardOrZero(tasks[i])
    ensures var tasks := SimulatedExecutor.Outcomes(stable, boosts, ids);
            LatestTotal(tasks, ids[..n]) < TotalReward(tasks[..n])
  {
    var tasks := SimulatedExecutor.Outcomes(stable, boosts, ids);
    LatestStep(tasks, ids, n - 1);
    TotalStep(tasks, n - 1);
    if i == n - 1 {
      LatestTotalAtMost(stable, ids, boosts, n - 1);
    } else {
      LatestTotalBelow(stable, ids, boosts, n - 1, i);
      var _ := LatestSimulated(stable, ids, boosts, n - 1);
    }
    hide LatestReward, LatestTotal, TotalReward, SimulatedExecutor.Outcomes;
  }

  lemma StraddlingLosesReward(stable: string -> bool, ids: seq<string>, boosts: nat)
    requires Straddles(stable, ids, boosts)
    ensures var tasks := SimulatedExecutor.Outcomes(stable, boosts, ids);
            LatestTotal(tasks, ids) < TotalReward(tasks)
  {
    var tasks := SimulatedExecutor.Outcomes(stable, boosts, ids);
    var i, j :| 0 <= i < j < |ids| && ids[i] == ids[j] && !stable(ids[i]) && i < boosts <= j;
    var latest := LatestSimulated(stable, ids, boosts, i);
    assert latest >= j;
    LatestTotalBelow(stable, ids, boosts, |ids|, i);
    assert ids[..|ids|] == ids && tasks[..|ids|] == tasks;
  }

  lemma UnstraddledFindsOwn(stable: string -> bool, ids: seq<string>, boosts: nat)
    requires !Straddles(stable, ids, boosts)
    ensures FindsOwn(SimulatedExecutor.Outcomes(stable, boosts, ids), ids)
  {
    var tasks := SimulatedExecutor.Outcomes(stable, boosts, ids);
    forall i | 0 <= i < |ids| ensures LatestReward(tasks, ids[i]) == RewardOrZero(tasks[i]) {
      var j := LatestSimulated(stable, ids, boosts, i);
      assert !stable(ids[i]) && i < boosts <= j ==> j == i;
    }
  }

  /** Main result: against a simulated parent they do so exactly when no two copies of an unlucky id straddle the
      boundary. */
  lemma SimulatedDeltasConserveIff(stable: string -> bool, ids: seq<string>, agent: string,
                                   candidates: seq<TaskExecution>)
    requires Rewarded(candidates, ids)
    ensures Conserved(SimulatedExecutor.Result(stable, ids, agent).tasks, candidates)
       <==> !Straddles(stable, ids, SimulatedExecutor.Boosts(agent))
  {
    var boosts := SimulatedExecutor.Boosts(agent);
    var parents := SimulatedExecutor.Outcomes(stable, boosts, ids);
    SimulatedIsRewarded(stable, ids, boosts);
    hide SimulatedExecutor.Boosts, SimulatedExecutor.Outcomes, Straddles, Conserved, LatestTotal, FindsOwn, Rewarded;
    if Straddles(stable, ids, boosts) {
      StraddlingLosesReward(stable, ids, boosts);
      ConservesIff(ids, parents, candidates);
    } else {
      UnstraddledFindsOwn(stable, ids, boosts);
      OwnRewardsConserve(ids, parents, candidates);
    }
  }

  // ---- A run that shows deltas which do not explain its scores ----

  const FOUR_COPIES := ["a", "a", "a", "a"]

  /** Two simulated benchmarks of four copies of one unlucky task, and an optimizer that raises in the end. */
  function CopiedTurns(template: string, text: string): World {
    [FullTurn(SimulatedExecutor.Result(_ => false, FOUR_COPIES, template), Returned(Proposal(text, "", "")), false),
     FullTurn(SimulatedExecutor.Result(_ => false, FOUR_COPIES, text), Raised(""), false)]
  }

  lemma LastCopyFails(agent: string)
    ensures !SimulatedExecutor.Result(_ => false, FOUR_COPIES, agent).AllPassed()
  {
    var boosts := SimulatedExecutor.Boosts(agent);
    var tasks := SimulatedExecutor.Result(_ => false, FOUR_COPIES, agent).tasks;
    assert boosts <= 3;
    hide SimulatedExecutor.Boosts;
    assert tasks[3].status.Failed?;
  }

  lemma CopiedRunGoesOn(c: Config, text: string)
    requires c.maxIterations >= 2 && c.patience >= 2 && text != c.template
    ensures var w := CopiedTurns(c.template, text);
      && CallCount(c, w) == 2 && ParentNo(c, w, 1) == 0
      && Result(w, 0) == SimulatedExecutor.Result(_ => false, FOUR_COPIES, c.template)
      && Result(w, 1) == SimulatedExecutor.Result(_ => false, FOUR_COPIES, text)
      && Score(w, 0) == Result(w, 0).valScore && Score(w, 1) == Result(w, 1).valScore
  {
    var w := CopiedTurns(c.template, text);
    LastCopyFails(c.template);
    LastCopyFails(text);
    hide SimulatedExecutor.Result;
    assert Best(w, 0) == 0;
    assert ExitAt(c, w, 0).None?;
    assert Reaches(c, w, 0) && Reaches(c, w, 1);
    assert ExitAt(c, w, 1) == Some(ProposalRaised(""));
    EndIs(c, w, 1);
  }

  lemma CopiesAreMissed(agent: string)
    requires SimulatedExecutor.Boosts(agent) >= 1
    ensures var tasks := SimulatedExecutor.Result(_ => false, FOUR_COPIES, agent).tasks;
            Rewarded(tasks, FOUR_COPIES) && LatestTotal(tasks, FOUR_COPIES) != TotalReward(tasks)
  {
    var ids, boosts := FOUR_COPIES, SimulatedExecutor.Boosts(agent);
    assert boosts <= 3 && ids[0] == ids[3];
    assert Straddles(_ => false, ids, boosts);
    hide SimulatedExecutor.Boosts;
    SimulatedIsRewarded(_ => false, ids, boosts);
    StraddlingLosesReward(_ => false, ids, boosts);
  }

  lemma CopiesAreScored(agent: string)
    ensures var result := SimulatedExecutor.Result(_ => false, FOUR_COPIES, agent);
      && Rewarded(result.tasks, FOUR_COPIES) && result.valScore == MeanReward(result.tasks)
      && Max(|FOUR_COPIES|, 1) as real == 4.0
  {
    SimulatedIsRewarded(_ => false, FOUR_COPIES, SimulatedExecutor.Boosts(agent));
    hide SimulatedExecutor.Boosts;
  }

  /** Some boost for the template, and any other text proposed: the second call of the run shows deltas that do not add
      up to the change of score it shows. */
  lemma UnexplainedDeltaIsShown(c: Config, text: string) returns (attempt: RecentAttempt)
    requires c.maxIterations >= 2 && c.patience >= 2 && text != c.template
    requires SimulatedExecutor.Boosts(c.template) >= 1
    ensures var w := CopiedTurns(c.template, text);
      && CallCount(c, w) == 2 && Calls(c, w, 2)[1].attempt == Some(attempt) && attempt.scoreDelta.Some?
      && SumDeltas(attempt.deltas) / 4.0 != attempt.scoreDelta.value
  {
    hide *;
    var w := CopiedTurns(c.template, text);
    CopiedRunGoesOn(c, text);
    CopiesAreMissed(c.template);
    CopiesAreScored(c.template);
    CopiesAreScored(text);
    CalledRowIsJudged(c, w, 0);
    attempt := ShownDeltasExplainScoreIff(c, w, 1, FOUR_COPIES);
  }

  // ---- The fractional run is one of the sandbox ----

  function Reported(results: map<string, Option<real>>): HarborExecutor.Surroundings {
    HarborExecutor.Surroundings(false, false, false, [HarborExecutor.Poll(true, false, false)], false, 0, Some(results))
  }

  lemma ReportedIsScored(ids: seq<string>, results: map<string, Option<real>>, result: BenchmarkResult)
    requires result.tasks == HarborExecutor.Classified(ids, Reported(results))
    requires result.valScore == MeanReward(result.tasks)
    ensures var e := ExecutorContract.Sandboxed(Reported(results));
            ExecutorContract.Reports(e, ids, result) && !ExecutorContract.Told(e, ids, result)
  {
  }

  /** The run of `RunTheorems.FractionalRewardsCanLose` is one of the sandbox executor. */
  lemma FractionalTurnsAreSandboxed(template: string) returns (executions: seq<ExecutorContract.Execution>)
    ensures RunResults.ExecutedBy(FractionalTurns(template), ["a", "b"], executions)
    ensures RunResults.CancelsStick(FractionalTurns(template), ["a", "b"], executions)
  {
    var w, ids := FractionalTurns(template), ["a", "b"];
    var first, second := map["a" := Some(1.0), "b" := Some(0.4)], map["a" := Some(0.6), "b" := Some(0.6)];
    executions := [ExecutorContract.Sandboxed(Reported(first)), ExecutorContract.Sandboxed(Reported(second))];
    TwoTaskMean(Result(w, 0).tasks);
    TwoTaskMean(Result(w, 1).tasks);
    assert Result(w, 0).tasks == HarborExecutor.Classified(ids, Reported(first));
    assert Result(w, 1).tasks == HarborExecutor.Classified(ids, Reported(second));
    ReportedIsScored(ids, first, Result(w, 0));
    ReportedIsScored(ids, second, Result(w, 1));
    hide ExecutorContract.Reports, ExecutorContract.Told, HarborExecutor.Classified, Reported;
  }
}
