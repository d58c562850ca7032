/** The record of a judged candidate that is shown to the optimizer: what changed, task by task. */
module RecentAttempts {
  import opened Wrappers
  import opened Benchmark

  datatype TaskDelta = TaskDelta(
    taskId: string, before: Option<TaskStatus>, after: TaskStatus,
    beforeReward: Option<real>, afterReward: Option<real>, rewardDelta: Option<real>)

  /** A unified diff, represented by the two texts it was computed from; version 0 has none. */
  datatype Diff = NoDiff | Between(before: string, after: string)

  datatype RecentAttempt = RecentAttempt(
    sourceVersionNo: Option<nat>, candidateVersionNo: nat, accepted: bool,
    parentScore: Option<real>, candidateScore: real, scoreDelta: Option<real>,
    diff: Diff, deltas: seq<TaskDelta>)

  /** The parent's entry under an id: a later task with the same id replaces an earlier one. */
  function ParentOf(parents: seq<TaskExecution>, id: string): Option<TaskExecution> {
    if parents == [] then None
    else
      var last := parents[|parents| - 1];
      if last.taskId == id then Some(last) else ParentOf(parents[..|parents| - 1], id)
  }

  lemma {:induction false} ParentIsLatest(parents: seq<TaskExecution>, id: string, k: nat) returns (j: nat)
    requires k < |parents| && parents[k].taskId == id
    ensures k <= j < |parents| && parents[j].taskId == id && ParentOf(parents, id) == Some(parents[j])
    ensures forall m | j < m < |parents| :: parents[m].taskId != id
  {
    var n := |parents| - 1;
    if parents[n].taskId == id {
      j := n;
    } else {
      j := ParentIsLatest(parents[..n], id, k);
    }
  }

  function Minus(after: Option<real>, before: Option<real>): Option<real> {
    if after.Some? && before.Some? then Some(after.value - before.value) else None
  }

  function DeltaOf(parents: seq<TaskExecution>, candidate: TaskExecution): TaskDelta {
    var parent := ParentOf(parents, candidate.taskId);
    var beforeReward := if parent.Some? then parent.value.reward else None;
    TaskDelta(candidate.taskId, if parent.Some? then Some(parent.value.status) else None, candidate.status,
              beforeReward, candidate.reward, Minus(candidate.reward, beforeReward))
  }

  function Deltas(parents: seq<TaskExecution>, candidates: seq<TaskExecution>): seq<TaskDelta> {
    seq(|candidates|, i requires 0 <= i < |candidates| => DeltaOf(parents, candidates[i]))
  }

  /** The place of the last task with this id. */
  predicate LatestAt(tasks: seq<TaskExecution>, id: string, j: nat) {
    j < |tasks| && tasks[j].taskId == id && forall m | j < m < |tasks| :: tasks[m].taskId != id
  }

  /** What a delta tells of a candidate's task: its own id, status and reward as those after, status and reward of the
      last parent's task with this id as those before, and their difference when both rewards are there. */
  predicate TellsChange(parents: seq<TaskExecution>, candidate: TaskExecution, delta: TaskDelta) {
    && delta.taskId == candidate.taskId && delta.after == candidate.status && delta.afterReward == candidate.reward
    && (forall j | 0 <= j < |parents| && LatestAt(parents, candidate.taskId, j) ::
          delta.before == Some(parents[j].status) && delta.beforeReward == parents[j].reward)
    && ((forall p | p in parents :: p.taskId != candidate.taskId) ==>
          delta.before == None && delta.beforeReward == None)
    && (delta.rewardDelta.Some? <==> delta.afterReward.Some? && delta.beforeReward.Some?)
    && (delta.rewardDelta.Some? ==> delta.rewardDelta.value == delta.afterReward.value - delta.beforeReward.value)
  }

  predicate TellsChanges(parents: seq<TaskExecution>, candidates: seq<TaskExecution>, deltas: seq<TaskDelta>) {
    |deltas| == |candidates| && forall i | 0 <= i < |candidates| :: TellsChange(parents, candidates[i], deltas[i])
  }

  lemma {:induction false} NoParent(parents: seq<TaskExecution>, id: string)
    requires forall p | p in parents :: p.taskId != id
    ensures ParentOf(parents, id) == None
  {
    if parents != [] {
      assert parents[|parents| - 1] in parents;
      NoParent(parents[..|parents| - 1], id);
    }
  }

  lemma DeltaTellsChange(parents: seq<TaskExecution>, candidate: TaskExecution)
    ensures TellsChange(parents, candidate, DeltaOf(parents, candidate))
  {
    if forall p | p in parents :: p.taskId != candidate.taskId {
      NoParent(parents, candidate.taskId);
    } else {
      var k :| 0 <= k < |parents| && parents[k].taskId == candidate.taskId;
      var latest := ParentIsLatest(parents, candidate.taskId, k);
      assert LatestAt(parents, candidate.taskId, latest);
      forall j | 0 <= j < |parents| && LatestAt(parents, candidate.taskId, j) ensures j == latest {
      }
    }
  }

  lemma DeltasTellChanges(parents: seq<TaskExecution>, candidates: seq<TaskExecution>)
    ensures TellsChanges(parents, candidates, Deltas(parents, candidates))
  {
    forall i | 0 <= i < |candidates| ensures TellsChange(parents, candidates[i], Deltas(parents, candidates)[i]) {
      DeltaTellsChange(parents, candidates[i]);
    }
  }

  function Attempt(source: Option<nat>, candidateNo: nat, diff: Diff, parentScore: Option<real>,
                   candidateScore: real, accepted: bool, parents: seq<TaskExecution>,
                   candidates: seq<TaskExecution>): RecentAttempt {
    RecentAttempt(source, candidateNo, accepted, parentScore, candidateScore,
                  Minus(Some(candidateScore), parentScore), diff, Deltas(parents, candidates))
  }

  method IndexById(tasks: seq<TaskExecution>) returns (byId: map<string, TaskExecution>)
    ensures forall id :: id in byId <==> ParentOf(tasks, id).Some?
    ensures forall id | id in byId :: ParentOf(tasks, id) == Some(byId[id])
  {
    byId := map[];
    for i := 0 to |tasks|
      invariant forall id :: id in byId <==> ParentOf(tasks[..i], id).Some?
      invariant forall id | id in byId :: ParentOf(tasks[..i], id) == Some(byId[id])
    {
      assert tasks[..i + 1][..i] == tasks[..i];
      byId := byId[tasks[i].taskId := tasks[i]];
    }
    assert tasks[..|tasks|] == tasks;
  }

  /** `build_recent_attempt`. */
  method BuildRecentAttempt(source: Option<nat>, candidateNo: nat, diff: Diff, parentScore: Option<real>,
                            candidateScore: real, accepted: bool, parents: seq<TaskExecution>,
                            candidates: seq<TaskExecution>)
    returns (attempt: RecentAttempt)
    ensures attempt == Attempt(source, candidateNo, diff, parentScore, candidateScore, accepted, parents, candidates)
    ensures TellsChanges(parents, candidates, attempt.deltas)
    ensures attempt.sourceVersionNo == source && attempt.candidateVersionNo == candidateNo && attempt.diff == diff
    ensures attempt.parentScore == parentScore && attempt.candidateScore == candidateScore
    ensures attempt.accepted == accepted
    ensures parentScore.Some? ==> attempt.scoreDelta == Some(candidateScore - parentScore.value)
    ensures parentScore.None? ==> attempt.scoreDelta == None
  {
    var byId := IndexById(parents);
    var deltas: seq<TaskDelta> := [];
    for i := 0 to |candidates|
      invariant deltas == Deltas(parents, candidates)[..i]
    {
      var candidate := candidates[i];
      var parent := if candidate.taskId in byId then Some(byId[candidate.taskId]) else None;
      var beforeReward := if parent.Some? then parent.value.reward else None;
      var rewardDelta: Option<real> := None;
      if beforeReward.Some? && candidate.reward.Some? {
        rewardDelta := Some(candidate.reward.value - beforeReward.value);
      }
      deltas := deltas + [TaskDelta(candidate.taskId, if parent.Some? then Some(parent.value.status) else None,
                                    candidate.status, beforeReward, candidate.reward, rewardDelta)];
    }
    attempt := RecentAttempt(source, candidateNo, accepted, parentScore, candidateScore,
                             if parentScore.Some? then Some(candidateScore - parentScore.value) else None,
                             diff, deltas);
    DeltasTellChanges(parents, candidates);
  }

  // ---- Conservation ----

  function SumDeltas(deltas: seq<TaskDelta>): real {
    if deltas == [] then 0.0
    else
      var last := deltas[|deltas| - 1].rewardDelta;
      SumDeltas(deltas[..|deltas| - 1]) + if last.Some? then last.value else 0.0
  }

  /** A fully rewarded run over the given task ids. */
  predicate Rewarded(tasks: seq<TaskExecution>, ids: seq<string>) {
    |tasks| == |ids| && forall i | 0 <= i < |ids| :: tasks[i].taskId == ids[i] && tasks[i].reward.Some?
  }

  predicate Distinct(ids: seq<string>) {
    forall i, j | 0 <= i < j < |ids| :: ids[i] != ids[j]
  }

  /** The mean task delta of a candidate against its parent is the change of the score. */
  predicate Conserved(parents: seq<TaskExecution>, candidates: seq<TaskExecution>) {
    SumDeltas(Deltas(parents, candidates)) / Max(|candidates|, 1) as real
    == MeanReward(candidates) - MeanReward(parents)
  }

  lemma QuotientOfDifference(sum: real, x: real, y: real, m: real)
    requires m > 0.0
    ensures sum / m == x / m - y / m <==> sum == x - y
  {
    assert (x - y) / m == x / m - y / m;
    assert sum / m * m == sum && (x - y) / m * m == x - y;
  }

  lemma TotalsAsMeans(parents: seq<TaskExecution>, candidates: seq<TaskExecution>)
    requires |parents| == |candidates|
    ensures Conserved(parents, candidates)
       <==> SumDeltas(Deltas(parents, candidates)) == TotalReward(candidates) - TotalReward(parents)
  {
    QuotientOfDifference(SumDeltas(Deltas(parents, candidates)), TotalReward(candidates), TotalReward(parents),
                         Max(|candidates|, 1) as real);
  }

  lemma TotalStep(tasks: seq<TaskExecution>, n: nat)
    requires n < |tasks|
    ensures TotalReward(tasks[..n + 1]) == TotalReward(tasks[..n]) + RewardOrZero(tasks[n])
  {
    assert tasks[..n + 1][..n] == tasks[..n];
  }

  lemma SumStep(deltas: seq<TaskDelta>, n: nat)
    requires n < |deltas|
    ensures SumDeltas(deltas[..n + 1])
         == SumDeltas(deltas[..n]) + if deltas[n].rewardDelta.Some? then deltas[n].rewardDelta.value else 0.0
  {
    assert deltas[..n + 1][..n] == deltas[..n];
  }

  /** The reward of the latest task with this id. */
  function LatestReward(tasks: seq<TaskExecution>, id: string): real {
    var latest := ParentOf(tasks, id);
    if latest.Some? then RewardOrZero(latest.value) else 0.0
  }

  /** The rewards an observer adds up who looks every id of the list up. */
  function LatestTotal(tasks: seq<TaskExecution>, ids: seq<string>): real {
    if ids == [] then 0.0
    else LatestTotal(tasks, ids[..|ids| - 1]) + LatestReward(tasks, ids[|ids| - 1])
  }

  lemma LatestStep(tasks: seq<TaskExecution>, ids: seq<string>, n: nat)
    requires n < |ids|
    ensures LatestTotal(tasks, ids[..n + 1]) == LatestTotal(tasks, ids[..n]) + LatestReward(tasks, ids[n])
  {
    assert ids[..n + 1][..n] == ids[..n];
  }

  lemma DeltaAt(parents: seq<TaskExecution>, candidates: seq<TaskExecution>, ids: seq<string>, n: nat)
    requires Rewarded(parents, ids) && Rewarded(candidates, ids) && n < |ids|
    ensures Deltas(parents, candidates)[n].rewardDelta
         == Some(candidates[n].reward.value - LatestReward(parents, ids[n]))
  {
    var _ := ParentIsLatest(parents, ids[n], n);
  }

  lemma {:induction false} DeltasTotal(parents: seq<TaskExecution>, candidates: seq<TaskExecution>, ids: seq<string>,
                                       n: nat)
    requires Rewarded(parents, ids) && Rewarded(candidates, ids) && n <= |ids|
    ensures SumDeltas(Deltas(parents, candidates)[..n]) == TotalReward(candidates[..n]) - LatestTotal(parents, ids[..n])
  {
    if n > 0 {
      DeltasTotal(parents, candidates, ids, n - 1);
      SumStep(Deltas(parents, candidates), n - 1);
      TotalStep(candidates, n - 1);
      LatestStep(parents, ids, n - 1);
      DeltaAt(parents, candidates, ids, n - 1);
      hide Deltas, LatestReward, LatestTotal, TotalReward, SumDeltas;
    }
  }

  /** Main result: the task deltas of a call average to its score delta exactly when looking every id up adds up to
      the parent's total, a condition on the parent's results alone. */
  lemma ConservesIff(ids: seq<string>, parents: seq<TaskExecution>, candidates: seq<TaskExecution>)
    requires Rewarded(parents, ids) && Rewarded(candidates, ids)
    ensures Conserved(parents, candidates) <==> LatestTotal(parents, ids) == TotalReward(parents)
  {
    DeltasTotal(parents, candidates, ids, |ids|);
    assert Deltas(parents, candidates)[..|ids|] == Deltas(parents, candidates);
    assert candidates[..|ids|] == candidates && ids[..|ids|] == ids;
    TotalsAsMeans(parents, candidates);
    hide Conserved, Deltas;
  }

  /** Looking up finds each task's own reward. */
  predicate FindsOwn(tasks: seq<TaskExecution>, ids: seq<string>) {
    |tasks| == |ids| && forall i | 0 <= i < |ids| :: LatestReward(tasks, ids[i]) == RewardOrZero(tasks[i])
  }

  lemma {:induction false} OwnTotal(tasks: seq<TaskExecution>, ids: seq<string>, n: nat)
    requires FindsOwn(tasks, ids) && n <= |ids|
    ensures LatestTotal(tasks, ids[..n]) == TotalReward(tasks[..n])
  {
    if n > 0 {
      OwnTotal(tasks, ids, n - 1);
      LatestStep(tasks, ids, n - 1);
      TotalStep(tasks, n - 1);
      hide LatestReward, LatestTotal, TotalReward;
    }
  }

  lemma OwnRewardsConserve(ids: seq<string>, parents: seq<TaskExecution>, candidates: seq<TaskExecution>)
    requires Rewarded(parents, ids) && Rewarded(candidates, ids) && FindsOwn(parents, ids)
    ensures Conserved(parents, candidates)
  {
    OwnTotal(parents, ids, |ids|);
    assert parents[..|ids|] == parents && ids[..|ids|] == ids;
    ConservesIff(ids, parents, candidates);
  }

  lemma DistinctFindsOwn(ids: seq<string>, tasks: seq<TaskExecution>)
    requires Distinct(ids) && |tasks| == |ids| && forall i | 0 <= i < |ids| :: tasks[i].taskId == ids[i]
    ensures FindsOwn(tasks, ids)
  {
    forall i | 0 <= i < |ids| ensures LatestReward(tasks, ids[i]) == RewardOrZero(tasks[i]) {
      var j := ParentIsLatest(tasks, ids[i], i);
      assert j == i;
    }
  }

  /** A run in which task `hit` alone earns a reward; a hit outside the list means no reward at all. */
  function SingleHit(ids: seq<string>, hit: int): (r: seq<TaskExecution>)
    ensures Rewarded(r, ids)
  {
    seq(|ids|, i requires 0 <= i < |ids| =>
      TaskExecution(ids[i], Some(if i == hit then 1.0 else 0.0), if i == hit then Passed else Failed))
  }

  lemma {:induction false} SingleHitTotal(ids: seq<string>, hit: int, n: nat)
    requires n <= |ids|
    ensures TotalReward(SingleHit(ids, hit)[..n]) == if 0 <= hit < n then 1.0 else 0.0
  {
    if n > 0 {
      SingleHitTotal(ids, hit, n - 1);
      TotalStep(SingleHit(ids, hit), n - 1);
    }
  }

  /** Whoever looks up the repeated id finds the later result. */
  lemma {:induction false} ShadowedHitTotal(ids: seq<string>, i: nat, j: nat, n: nat)
    requires i < j < |ids| && ids[i] == ids[j] && n <= |ids|
    ensures LatestTotal(SingleHit(ids, i), ids[..n]) == 0.0
  {
    if n > 0 {
      ShadowedHitTotal(ids, i, j, n - 1);
      LatestStep(SingleHit(ids, i), ids, n - 1);
      var latest := ParentIsLatest(SingleHit(ids, i), ids[n - 1], n - 1);
      assert latest != i;
    }
  }

  /** With a repeated id the earlier of the two results is invisible, and a reward there is unaccounted for. */
  lemma RepeatedIdLosesReward(ids: seq<string>, i: nat, j: nat)
    requires i < j < |ids| && ids[i] == ids[j]
    ensures !Conserved(SingleHit(ids, i), SingleHit(ids, -1))
  {
    SingleHitTotal(ids, i, |ids|);
    ShadowedHitTotal(ids, i, j, |ids|);
    assert SingleHit(ids, i)[..|ids|] == SingleHit(ids, i) && ids[..|ids|] == ids;
    ConservesIff(ids, SingleHit(ids, i), SingleHit(ids, -1));
    hide SingleHit, LatestTotal, Conserved;
  }

  /** The lists of task ids for which the equation holds whatever the rewards are: those without a repetition. */
  lemma DeltasConserveScoreIff(ids: seq<string>)
    ensures Distinct(ids)
       <==> forall parents, candidates | Rewarded(parents, ids) && Rewarded(candidates, ids) ::
              Conserved(parents, candidates)
  {
    if Distinct(ids) {
      forall parents, candidates | Rewarded(parents, ids) && Rewarded(candidates, ids)
        ensures Conserved(parents, candidates)
      {
        DistinctFindsOwn(ids, parents);
        OwnRewardsConserve(ids, parents, candidates);
      }
    } else {
      var i, j :| 0 <= i < j < |ids| && ids[i] == ids[j];
      RepeatedIdLosesReward(ids, i, j);
      assert Rewarded(SingleHit(ids, i), ids) && Rewarded(SingleHit(ids, -1), ids);
    }
  }
}
