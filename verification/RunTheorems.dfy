/** What the service promises about a whole run, proved of RunSpec and hence of every run of the processor. */
module RunTheorems {
  import opened Wrappers
  import opened Benchmark
  import opened RecentAttempts
  import opened RunSpec

  // ---- Numbering ----

  /** Iterations and versions are numbered without gaps, each iteration runs the version of its own number,
      the version created by iteration k is k + 1, and acceptance marks exactly the strict records. */
  lemma RowsAreGapless(c: Config, w: World, k: nat)
    requires k < |IterationRows(c, w)|
    ensures IterationRows(c, w)[k].iterationNo == k && IterationRows(c, w)[k].versionNo == k
    ensures IterationRows(c, w)[k].valScore.Some? && k > 0 ==>
              (IterationRows(c, w)[k].accepted == Some(true) <==> forall j | 0 <= j < k :: Score(w, j) < Score(w, k))
    ensures IterationRows(c, w)[0].accepted == Some(true)
  {
    hide FinalExit, AttemptAt, Reaches, ExitAt;
    AcceptedIffRecord(w, k);
    if k < End(c, w) {
      ProposedRowsAt(c, w, End(c, w), k);
    }
    if End(c, w) > 0 {
      ProposedRowsAt(c, w, End(c, w), 0);
    }
  }

  lemma {:induction false} VersionsAreGapless(c: Config, w: World, n: nat, v: nat)
    requires v < n
    ensures VersionRows(c, w, n)[v].versionNo == v
    ensures forall k: nat :: VersionRows(c, w, n)[v].createdBy == Some(k) <==> v == k + 1
  {
    VersionRowsAt(c, w, n, v);
  }

  // ---- The version tree ----

  /** A version followed by its ancestors, read off the stored parent numbers. */
  function Lineage(c: Config, w: World, v: nat): seq<nat> {
    var parent := VersionRow(c, w, v).parentVersionNo;
    if parent.Some? then [v] + Lineage(c, w, parent.value) else [v]
  }

  lemma {:induction false} LineageDescends(c: Config, w: World, v: nat, above: nat)
    requires v < above
    ensures above !in Lineage(c, w, v)
  {
    if v > 0 {
      LineageDescends(c, w, Best(w, v - 1), above);
    }
  }

  /** Up to any iteration, the accepted versions are the best one and its ancestors. */
  lemma {:induction false} AcceptedAreLineageOfBest(c: Config, w: World, i: nat, k: nat)
    requires k <= i
    ensures Accepted(w, k) <==> k in Lineage(c, w, Best(w, i))
  {
    if i > 0 {
      if k < i {
        AcceptedAreLineageOfBest(c, w, i - 1, k);
      } else {
        LineageDescends(c, w, Best(w, i - 1), i);
      }
    }
  }

  lemma {:induction false} BestIsAccepted(w: World, i: nat)
    ensures Accepted(w, Best(w, i))
  {
    if i > 0 {
      BestIsAccepted(w, i - 1);
    }
  }

  /** Along the lineage of an accepted version the scores strictly fall towards the baseline, where it ends. */
  lemma {:induction false} ScoresFallAlongLineage(c: Config, w: World, v: nat, j: nat)
    requires Accepted(w, v) && j + 1 < |Lineage(c, w, v)|
    ensures Lineage(c, w, v)[j + 1] < Lineage(c, w, v)[j]
    ensures Score(w, Lineage(c, w, v)[j + 1]) < Score(w, Lineage(c, w, v)[j])
    ensures Lineage(c, w, v)[|Lineage(c, w, v)| - 1] == 0
  {
    var parent := Best(w, v - 1);
    BestIsAccepted(w, v - 1);
    if j > 0 {
      ScoresFallAlongLineage(c, w, parent, j - 1);
    } else if |Lineage(c, w, parent)| > 1 {
      ScoresFallAlongLineage(c, w, parent, 0);
    }
  }

  lemma ReachesSurvivesOrIs(c: Config, w: World, v: nat)
    requires 0 < v <= End(c, w)
    ensures Reaches(c, w, v - 1) && ExitAt(c, w, v - 1).None?
  {
    if v < End(c, w) {
      ReachesSurvives(c, w, End(c, w), v);
    }
  }

  /** Every version a run creates differs from the version it was made from. */
  lemma VersionsDifferFromParents(c: Config, w: World, v: nat)
    requires 0 < v <= End(c, w)
    ensures VersionRow(c, w, v).parentVersionNo.Some? && VersionRow(c, w, v).parentVersionNo.value < v
    ensures VersionRow(c, w, VersionRow(c, w, v).parentVersionNo.value).content != VersionRow(c, w, v).content
  {
    ReachesSurvivesOrIs(c, w, v);
  }

  // ---- What the optimizer is shown ----

  /** How many optimizer calls a run makes. */
  function CallCount(c: Config, w: World): nat { End(c, w) + LastCalls(FinalExit(c, w)) }

  /** An iteration whose benchmark was followed by an optimizer call has the judged values in its row. */
  lemma CalledRowIsJudged(c: Config, w: World, k: nat)
    requires k < CallCount(c, w)
    ensures k < |IterationRows(c, w)|
    ensures var row := IterationRows(c, w)[k];
      && row.valScore == Some(Score(w, k)) && row.results == Result(w, k).tasks
      && row.accepted == Some(Accepted(w, k)) && row.versionNo == k
  {
    hide AttemptAt, Best, Result, Score, ExitAt;
    if k < End(c, w) {
      ProposedRowsAt(c, w, End(c, w), k);
    }
  }

  lemma VersionTextAt(c: Config, w: World, v: nat)
    requires v <= End(c, w)
    ensures VersionRows(c, w, End(c, w) + 1)[v].content == Content(c, w, v)
  {
    VersionRowsAt(c, w, End(c, w) + 1, v);
  }

  /** Each optimizer call shows one and the same version throughout, as the rows of the run have it: the stored text of
      an accepted version, the results and the score stored with the iteration that accepted it, and the failures among
      these results. It is the earliest of those with the highest score, and the log has one entry for each call
      before. */
  lemma EvidenceIsCoherent(c: Config, w: World, k: nat)
    requires k < CallCount(c, w)
    ensures var call := Calls(c, w, CallCount(c, w))[k]; var source := call.sourceVersionNo;
      && source <= k < |IterationRows(c, w)| && source < |VersionRows(c, w, End(c, w) + 1)|
      && call.agent == VersionRows(c, w, End(c, w) + 1)[source].content
      && IterationRows(c, w)[source].versionNo == source && IterationRows(c, w)[source].accepted == Some(true)
      && IterationRows(c, w)[source].results == call.allTasks
      && IterationRows(c, w)[source].valScore == Some(call.valScore)
      && call.failing == Without(call.allTasks, Passed)
      && (forall j | 0 <= j <= k :: Score(w, j) <= call.valScore)
      && (forall j | 0 <= j < source :: Score(w, j) < call.valScore)
      && |call.learnings| == k
  {
    var n, source := CallCount(c, w), Best(w, k);
    CallsAt(c, w, n, k);
    BestIsAccepted(w, k);
    BestIsEarliestMaximum(w, k);
    CalledRowIsJudged(c, w, k);
    CalledRowIsJudged(c, w, source);
    hide AttemptAt, VersionRow, Calls, IterationRows, CallCount, Content;
    VersionTextAt(c, w, source);
    RowsAreGapless(c, w, source);
  }

  /** The parent a version was made from, as its row has it. */
  function ParentNo(c: Config, w: World, v: nat): nat
    requires v > 0
  {
    VersionRow(c, w, v).parentVersionNo.value
  }

  /** What the attempt of iteration `k` consists of. */
  lemma AttemptParts(c: Config, w: World, k: nat)
    requires k > 0
    ensures var p := Best(w, k - 1); var attempt := AttemptAt(c, w, k);
      && p < k && ParentNo(c, w, k) == p && attempt.Some?
      && attempt.value.candidateVersionNo == k && attempt.value.sourceVersionNo == Some(p)
      && attempt.value.diff == VersionRow(c, w, k).diff
      && attempt.value.parentScore == Some(Score(w, p)) && attempt.value.candidateScore == Score(w, k)
      && attempt.value.scoreDelta == Some(Score(w, k) - Score(w, p))
      && attempt.value.deltas == Deltas(Result(w, p).tasks, Result(w, k).tasks)
      && attempt.value.accepted == Accepted(w, k)
      && (Accepted(w, k) <==> Score(w, k) > Score(w, p))
  {
    hide Content, Deltas, Result;
  }

  lemma CallShows(c: Config, w: World, k: nat)
    requires 0 < k < CallCount(c, w)
    ensures Calls(c, w, CallCount(c, w))[k].attempt == AttemptAt(c, w, k)
    ensures k <= End(c, w) && VersionRow(c, w, k).parentVersionNo == Some(ParentNo(c, w, k))
  {
    hide AttemptAt, Calls;
    CallsAt(c, w, CallCount(c, w), k);
  }

  /** An attempt that agrees with the row of its candidate, the row of the parent, and the candidate's version. */
  predicate Pairs(attempt: RecentAttempt, parent: Iteration, candidate: Iteration, version: AgentVersion) {
    && attempt.candidateVersionNo == candidate.versionNo == version.versionNo
    && attempt.sourceVersionNo == version.parentVersionNo == Some(parent.versionNo)
    && attempt.diff == version.diff && parent.accepted == Some(true)
    && parent.valScore.Some? && candidate.valScore.Some?
    && attempt.parentScore == parent.valScore && attempt.candidateScore == candidate.valScore.value
    && attempt.scoreDelta == Some(candidate.valScore.value - parent.valScore.value)
    && attempt.deltas == Deltas(parent.results, candidate.results)
    && TellsChanges(parent.results, candidate.results, attempt.deltas)
    && candidate.accepted == Some(attempt.accepted) && (attempt.accepted <==> attempt.scoreDelta.value > 0.0)
  }

  lemma ParentIsBest(c: Config, w: World, k: nat)
    requires k > 0
    ensures ParentNo(c, w, k) == Best(w, k - 1) < k && Accepted(w, Best(w, k - 1))
  {
    BestIsAccepted(w, k - 1);
  }

  lemma PartsPair(c: Config, w: World, k: nat, parent: Iteration, candidate: Iteration)
    requires k > 0 && Accepted(w, Best(w, k - 1))
    requires var p := Best(w, k - 1);
      && parent.versionNo == p && parent.accepted == Some(Accepted(w, p)) && parent.valScore == Some(Score(w, p))
      && parent.results == Result(w, p).tasks
    requires candidate.versionNo == k && candidate.accepted == Some(Accepted(w, k))
    requires candidate.valScore == Some(Score(w, k)) && candidate.results == Result(w, k).tasks
    ensures AttemptAt(c, w, k).Some? && Pairs(AttemptAt(c, w, k).value, parent, candidate, VersionRow(c, w, k))
  {
    AttemptParts(c, w, k);
    DeltasTellChanges(parent.results, candidate.results);
    assert VersionRow(c, w, k).versionNo == k && VersionRow(c, w, k).parentVersionNo == Some(Best(w, k - 1));
    hide AttemptAt, VersionRow, Accepted, Deltas, TellsChanges, Result, Score, Best;
  }

  /** The attempt that a call of a run shows pairs two stored iterations: the one just judged and the one that accepted
      the version its candidate was made from. Scores, verdict and task results are those of the two rows, the diff is
      that of the version row, and the attempt counts as accepted exactly when its score delta is positive. */
  lemma AttemptIsCoherent(c: Config, w: World, k: nat) returns (attempt: RecentAttempt)
    requires 0 < k < CallCount(c, w)
    ensures Calls(c, w, CallCount(c, w))[k].attempt == Some(attempt)
    ensures ParentNo(c, w, k) < k < |IterationRows(c, w)| && k < |VersionRows(c, w, End(c, w) + 1)|
    ensures IterationRows(c, w)[k].versionNo == k
    ensures IterationRows(c, w)[ParentNo(c, w, k)].versionNo == ParentNo(c, w, k)
    ensures Pairs(attempt, IterationRows(c, w)[ParentNo(c, w, k)], IterationRows(c, w)[k],
                  VersionRows(c, w, End(c, w) + 1)[k])
  {
    hide *;
    var p := ParentNo(c, w, k);
    CallShows(c, w, k);
    ParentIsBest(c, w, k);
    VersionRowsAt(c, w, End(c, w) + 1, k);
    CalledRowIsJudged(c, w, p);
    CalledRowIsJudged(c, w, k);
    PartsPair(c, w, k, IterationRows(c, w)[p], IterationRows(c, w)[k]);
    attempt := AttemptAt(c, w, k).value;
  }

  /** The deltas a call shows average to the score delta it shows exactly when looking every task id up in the parent's
      stored results adds up to their total. */
  lemma ShownDeltasExplainScoreIff(c: Config, w: World, k: nat, ids: seq<string>) returns (attempt: RecentAttempt)
    requires 0 < k < CallCount(c, w)
    requires var p := ParentNo(c, w, k);
      && Rewarded(Result(w, p).tasks, ids) && Score(w, p) == MeanReward(Result(w, p).tasks)
      && Rewarded(Result(w, k).tasks, ids) && Score(w, k) == MeanReward(Result(w, k).tasks)
    ensures Calls(c, w, CallCount(c, w))[k].attempt == Some(attempt) && attempt.scoreDelta.Some?
    ensures var p := ParentNo(c, w, k);
      && k < |IterationRows(c, w)| && p < |IterationRows(c, w)|
      && (SumDeltas(attempt.deltas) / Max(|ids|, 1) as real == attempt.scoreDelta.value
          <==> LatestTotal(IterationRows(c, w)[p].results, ids) == TotalReward(IterationRows(c, w)[p].results))
  {
    var p := ParentNo(c, w, k);
    attempt := AttemptIsCoherent(c, w, k);
    CalledRowIsJudged(c, w, p);
    CalledRowIsJudged(c, w, k);
    hide Calls, IterationRows, CallCount, VersionRows, ParentNo, Deltas, Result, Score, LatestTotal, Accepted;
    ConservesIff(ids, Result(w, p).tasks, Result(w, k).tasks);
  }

  // ---- How long a run can be ----

  /** Every judged result up to iteration `i` has rewards zero and one for `n` tasks. */
  predicate BinaryUpTo(w: World, i: nat, n: nat) {
    forall j | 0 <= j <= i :: BinaryResult(Result(w, j), n)
  }

  function BestCount(w: World, i: nat): nat { PassedCount(Result(w, Best(w, i)).tasks) }

  /** The budget grows by `p` for each unit. */
  lemma BudgetStep(p: nat, used: int, few: nat, many: nat)
    requires few < many && used <= p * few + p
    ensures used <= p * many
  {
    assert p * few + p == p * (few + 1);
    assert p * (few + 1) <= p * many;
  }

  /** A surviving iteration is less than `patience` away from the best one. */
  lemma SurvivorIsPatient(c: Config, w: World, i: nat)
    requires ExitAt(c, w, i).None? && c.patience >= 1
    ensures i - Best(w, i) < c.patience && !Result(w, i).AllPassed()
  {
  }

  /** Each task newly passed buys at most `patience` iterations. */
  lemma {:induction false} BestComesEarly(c: Config, w: World, i: nat, n: nat)
    requires c.patience >= 1 && Reaches(c, w, i) && BinaryUpTo(w, i, n)
    ensures Best(w, i) <= c.patience * BestCount(w, i)
  {
    hide ExitAt, BinaryResult;
    if i > 0 {
      BestComesEarly(c, w, i - 1, n);
      SurvivorIsPatient(c, w, i - 1);
      if Best(w, i) == i {
        BinaryScores(Result(w, Best(w, i - 1)), Result(w, i), n);
        BudgetStep(c.patience, i, BestCount(w, i - 1), BestCount(w, i));
      }
    }
  }

  lemma BestSurvives(c: Config, w: World, b: nat)
    requires b < End(c, w)
    ensures ExitAt(c, w, b).None? && !Result(w, b).AllPassed()
  {
    ReachesSurvives(c, w, End(c, w), b);
  }

  /** Some task still fails at the best version of a run that goes on. */
  lemma RoomLeft(c: Config, w: World, i: nat, n: nat)
    requires i < End(c, w) && BinaryUpTo(w, i, n)
    ensures BestCount(w, i) < Max(n, 1)
  {
    BestSurvives(c, w, Best(w, i));
    if n > 0 {
      BinaryAllPassed(Result(w, Best(w, i)), n);
    }
  }

  /** With all-or-nothing rewards over n tasks a run ends within n times patience iterations after the baseline,
      however many iterations the job allows. */
  lemma RunIsShort(c: Config, w: World, n: nat)
    requires c.patience >= 1
    requires End(c, w) > 0 ==> BinaryUpTo(w, End(c, w) - 1, n)
    ensures End(c, w) <= Min(c.maxIterations, c.patience * Max(n, 1))
    ensures |IterationRows(c, w)| <= 1 + Min(c.maxIterations, c.patience * Max(n, 1))
  {
    hide ExitAt, BinaryUpTo, BestCount, Best, LastRow, FinalExit;
    var e := End(c, w);
    if e > 0 {
      ReachesSurvivesOrIs(c, w, e);
      BestComesEarly(c, w, e - 1, n);
      SurvivorIsPatient(c, w, e - 1);
      RoomLeft(c, w, e - 1, n);
      BudgetStep(c.patience, e, BestCount(w, e - 1), Max(n, 1));
    }
  }

  // ---- All tasks passed ----

  /** A run whose last judged iteration passes everything reports that version as the best one exactly when
      its score beats every score before it. */
  lemma AllPassedWinsIff(c: Config, w: World)
    requires Judged(FinalExit(c, w)) && Result(w, End(c, w)).AllPassed()
    ensures FinalBest(c, w) == Some(End(c, w)) <==> forall j | 0 <= j < End(c, w) :: Score(w, j) < Score(w, End(c, w))
    ensures c.patience >= 1 && FinalBest(c, w) == Some(End(c, w)) ==> FinalExit(c, w) == EverythingPassed
  {
    AcceptedIffRecord(w, End(c, w));
  }

  /** It always does when the rewards of passed and missed tasks keep their bands, and the bands separate; patience
      then never hides a full pass. By `Benchmark.FullPassAlwaysBeatsIff` no weaker condition on the bands will do. */
  lemma GradedAllPassedWins(c: Config, w: World, n: nat, lo: real, hi: real, f: real)
    requires c.patience >= 1 && n > 0 && f <= hi && BandsSeparate(n, lo, hi, f)
    requires forall j | 0 <= j <= End(c, w) :: GradedResult(Result(w, j), n, lo, hi, f)
    requires Judged(FinalExit(c, w)) && Result(w, End(c, w)).AllPassed()
    ensures FinalExit(c, w) == EverythingPassed && FinalBest(c, w) == Some(End(c, w))
  {
    var e := End(c, w);
    forall j | 0 <= j < e ensures Score(w, j) < Score(w, e) {
      BestSurvives(c, w, j);
      FullPassBeats(Result(w, e), Result(w, j), n, lo, hi, f);
    }
    AllPassedWinsIff(c, w);
  }

  /** All-or-nothing rewards keep bands that separate; and the score of a full pass is then one. */
  lemma BinaryAllPassedWins(c: Config, w: World, n: nat)
    requires c.patience >= 1 && n > 0 && BinaryUpTo(w, End(c, w), n)
    requires Judged(FinalExit(c, w)) && Result(w, End(c, w)).AllPassed()
    ensures FinalExit(c, w) == EverythingPassed
    ensures FinalBest(c, w) == Some(End(c, w)) && Score(w, End(c, w)) == 1.0
  {
    forall j | 0 <= j <= End(c, w) ensures GradedResult(Result(w, j), n, 1.0, 1.0, 0.0) {
      BinaryIsGraded(Result(w, j), n);
    }
    BinaryIsGraded(Result(w, End(c, w)), n);
    BinaryAllPassed(Result(w, End(c, w)), n);
    GradedAllPassedWins(c, w, n, 1.0, 1.0, 0.0);
  }

  /** Two turns with fractional rewards: the second passes both of its tasks, the first only one, and yet the
      first scores 0.7 and the second 0.6. */
  function FractionalTurns(template: string): World {
    [Turn(false, Returned(BenchmarkResult(
            [TaskExecution("a", Some(1.0), Passed), TaskExecution("b", Some(0.4), Failed)], 0.7)),
          false, Returned(Proposal(template + "!", "", "")), false),
     Turn(false, Returned(BenchmarkResult(
            [TaskExecution("a", Some(0.6), Passed), TaskExecution("b", Some(0.6), Passed)], 0.6)),
          false, Raised(""), false)]
  }

  lemma TwoTaskMean(tasks: seq<TaskExecution>)
    requires |tasks| == 2
    ensures MeanReward(tasks) == (RewardOrZero(tasks[0]) + RewardOrZero(tasks[1])) / 2.0
  {
    assert tasks[..1][..0] == [];
    assert TotalReward(tasks[..1]) == RewardOrZero(tasks[0]);
    assert TotalReward(tasks) == TotalReward(tasks[..1]) + RewardOrZero(tasks[1]);
  }

  /** There the full pass loses to the baseline, and patience one even hides it from the stop reason. */
  lemma FractionalRewardsCanLose(template: string, patience: nat)
    requires 1 <= patience <= 2
    ensures var w := FractionalTurns(template); var c := Config(template, 5, patience);
      && End(c, w) == 1 && Result(w, 1).AllPassed() && !Result(w, 0).AllPassed()
      && Score(w, 0) == MeanReward(Result(w, 0).tasks) && Score(w, 1) == MeanReward(Result(w, 1).tasks)
      && FinalBest(c, w) == Some(0)
      && FinalExit(c, w) == if patience == 1 then OutOfPatience else EverythingPassed
  {
    var w, c := FractionalTurns(template), Config(template, 5, patience);
    var first, second := Result(w, 0), Result(w, 1);
    TwoTaskMean(first.tasks);
    TwoTaskMean(second.tasks);
    assert Best(w, 0) == 0 && Best(w, 1) == 0;
    assert second.tasks[..1][..0] == [] && second.tasks[0].status.Passed? && second.AllPassed();
    assert first.tasks[1].status.Failed? && !first.AllPassed();
    assert ExitAt(c, w, 0).None?;
    assert ExitAt(c, w, 1) == Some(if patience == 1 then OutOfPatience else EverythingPassed);
    assert Reaches(c, w, 0) && Reaches(c, w, 1);
    EndIs(c, w, 1);
  }
}
