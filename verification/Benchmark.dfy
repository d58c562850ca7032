/** What a benchmark run reports. */
module Benchmark {
  import opened Wrappers

  datatype TaskStatus = Passed | Failed | InfraError

  datatype TaskExecution = TaskExecution(taskId: string, reward: Option<real>, status: TaskStatus)

  predicate EachPassed(tasks: seq<TaskExecution>) {
    tasks == [] || (EachPassed(tasks[..|tasks| - 1]) && tasks[|tasks| - 1].status.Passed?)
  }

  datatype BenchmarkResult = BenchmarkResult(tasks: seq<TaskExecution>, valScore: real) {
    predicate AllPassed() {
      tasks != [] && EachPassed(tasks)
    }
  }

  /** The tasks with a given status, in order. */
  function With(tasks: seq<TaskExecution>, status: TaskStatus): seq<TaskExecution> {
    if tasks == [] then []
    else With(tasks[..|tasks| - 1], status)
         + if tasks[|tasks| - 1].status == status then [tasks[|tasks| - 1]] else []
  }

  /** The tasks with any other status, in order. */
  function Without(tasks: seq<TaskExecution>, status: TaskStatus): seq<TaskExecution> {
    if tasks == [] then []
    else Without(tasks[..|tasks| - 1], status)
         + if tasks[|tasks| - 1].status != status then [tasks[|tasks| - 1]] else []
  }

  /** Which tasks the two lists hold, and in which order: one more task extends exactly one of them. */
  lemma OneMoreTask(tasks: seq<TaskExecution>, last: TaskExecution, status: TaskStatus)
    ensures With([], status) == [] && Without([], status) == []
    ensures last.status == status ==>
              With(tasks + [last], status) == With(tasks, status) + [last]
              && Without(tasks + [last], status) == Without(tasks, status)
    ensures last.status != status ==>
              With(tasks + [last], status) == With(tasks, status)
              && Without(tasks + [last], status) == Without(tasks, status) + [last]
  {
    assert (tasks + [last])[..|tasks|] == tasks;
  }

  function RewardOrZero(t: TaskExecution): real {
    if t.reward.Some? then t.reward.value else 0.0
  }

  function TotalReward(tasks: seq<TaskExecution>): real {
    if tasks == [] then 0.0
    else TotalReward(tasks[..|tasks| - 1]) + RewardOrZero(tasks[|tasks| - 1])
  }

  /** The validation score: the mean reward, a missing reward counting as zero. */
  function MeanReward(tasks: seq<TaskExecution>): real {
    TotalReward(tasks) / Max(|tasks|, 1) as real
  }

  /** The score times the number of tasks is what the tasks earned, one after the other; without tasks it is zero. */
  lemma ScoreIsMean(tasks: seq<TaskExecution>, last: TaskExecution)
    ensures MeanReward([]) == 0.0
    ensures MeanReward(tasks + [last]) * (|tasks| + 1) as real
         == MeanReward(tasks) * |tasks| as real + if last.reward.Some? then last.reward.value else 0.0
  {
    assert (tasks + [last])[..|tasks|] == tasks;
    var n := |tasks|;
    assert MeanReward(tasks + [last]) * (n + 1) as real == TotalReward(tasks + [last]);
    if n > 0 {
      assert MeanReward(tasks) * n as real == TotalReward(tasks);
    }
  }

  /** One result for each task id, in the order of the ids. */
  predicate Complete(result: BenchmarkResult, taskIds: seq<string>) {
    && |result.tasks| == |taskIds|
    && forall i | 0 <= i < |taskIds| :: result.tasks[i].taskId == taskIds[i]
  }

  lemma {:induction false} EachPassedMeans(tasks: seq<TaskExecution>)
    ensures EachPassed(tasks) <==> forall t | t in tasks :: t.status.Passed?
  {
    if tasks != [] {
      var init, last := tasks[..|tasks| - 1], tasks[|tasks| - 1];
      assert tasks == init + [last];
      EachPassedMeans(init);
    }
  }

  // ---- All-or-nothing rewards ----

  function PassedCount(tasks: seq<TaskExecution>): (n: nat)
    ensures n <= |tasks|
  {
    if tasks == [] then 0
    else PassedCount(tasks[..|tasks| - 1]) + if tasks[|tasks| - 1].status.Passed? then 1 else 0
  }

  predicate BinaryTask(t: TaskExecution) {
    t.reward == Some(if t.status.Passed? then 1.0 else 0.0)
  }

  /** A run over `n` tasks with rewards zero and one, scored by their mean. */
  predicate BinaryResult(result: BenchmarkResult, n: nat) {
    && |result.tasks| == n
    && (forall t | t in result.tasks :: BinaryTask(t))
    && result.valScore == MeanReward(result.tasks)
  }

  lemma {:induction false} BinaryTotal(tasks: seq<TaskExecution>)
    requires forall t | t in tasks :: BinaryTask(t)
    ensures TotalReward(tasks) == PassedCount(tasks) as real
    ensures PassedCount(tasks) == |tasks| <==> EachPassed(tasks)
  {
    if tasks != [] {
      var init, last := tasks[..|tasks| - 1], tasks[|tasks| - 1];
      assert tasks == init + [last] && last in tasks;
      assert forall t | t in init :: t in tasks;
      BinaryTotal(init);
    }
  }

  lemma QuotientOrder(x: real, y: real, m: real)
    requires m > 0.0
    ensures x / m < y / m <==> x < y
  {
    assert x / m * m == x && y / m * m == y;
    if x / m < y / m {
      assert x / m * m < y / m * m;
    } else {
      assert x / m * m >= y / m * m;
    }
  }

  /** With all-or-nothing rewards scores compare as passed counts do. */
  lemma BinaryScores(a: BenchmarkResult, b: BenchmarkResult, n: nat)
    requires BinaryResult(a, n) && BinaryResult(b, n)
    ensures a.valScore < b.valScore <==> PassedCount(a.tasks) < PassedCount(b.tasks)
  {
    BinaryTotal(a.tasks);
    BinaryTotal(b.tasks);
    QuotientOrder(PassedCount(a.tasks) as real, PassedCount(b.tasks) as real, Max(n, 1) as real);
  }

  lemma QuotientIsOne(x: real, m: real)
    requires m > 0.0
    ensures x / m == 1.0 <==> x == m
  {
    assert x / m * m == x;
  }

  /** With all-or-nothing rewards a run passes everything exactly when its score is one. */
  lemma BinaryAllPassed(a: BenchmarkResult, n: nat)
    requires BinaryResult(a, n) && n > 0
    ensures a.AllPassed() <==> PassedCount(a.tasks) == n
    ensures a.AllPassed() <==> a.valScore == 1.0
  {
    BinaryTotal(a.tasks);
    QuotientIsOne(PassedCount(a.tasks) as real, n as real);
  }

  // ---- Graded rewards ----

  /** Rewards in bands: a passed task earns between `lo` and `hi`, any other at most `f`. */
  predicate GradedTask(t: TaskExecution, lo: real, hi: real, f: real) {
    if t.status.Passed? then lo <= RewardOrZero(t) <= hi else RewardOrZero(t) <= f
  }

  predicate GradedResult(result: BenchmarkResult, n: nat, lo: real, hi: real, f: real) {
    && |result.tasks| == n
    && (forall t | t in result.tasks :: GradedTask(t, lo, hi, f))
    && result.valScore == MeanReward(result.tasks)
  }

  function Times(n: nat, x: real): real {
    if n == 0 then 0.0 else Times(n - 1, x) + x
  }

  lemma {:induction false} TimesIsProduct(n: nat, x: real)
    ensures Times(n, x) == n as real * x
  {
    if n > 0 {
      TimesIsProduct(n - 1, x);
      assert n as real * x == (n - 1) as real * x + x;
    }
  }

  /** What a result can earn: at most `hi` for each task, at least `lo` for each when all passed, and at most `f` for
      one of them when not. */
  lemma {:induction false} GradedTotal(tasks: seq<TaskExecution>, lo: real, hi: real, f: real)
    requires f <= hi && forall t | t in tasks :: GradedTask(t, lo, hi, f)
    ensures EachPassed(tasks) ==> TotalReward(tasks) >= Times(|tasks|, lo)
    ensures TotalReward(tasks) <= Times(|tasks|, hi)
    ensures !EachPassed(tasks) ==> TotalReward(tasks) <= Times(|tasks|, hi) - hi + f
  {
    if tasks != [] {
      var init, last := tasks[..|tasks| - 1], tasks[|tasks| - 1];
      assert tasks == init + [last] && last in tasks;
      assert forall t | t in init :: t in tasks;
      GradedTotal(init, lo, hi, f);
      assert GradedTask(last, lo, hi, f);
    }
  }

  /** Whether the least a full pass over `n` tasks can earn is above the most any other result can. */
  predicate BandsSeparate(n: nat, lo: real, hi: real, f: real) {
    n as real * lo > (n as real - 1.0) * hi + f
  }

  lemma FullPassBeats(full: BenchmarkResult, other: BenchmarkResult, n: nat, lo: real, hi: real, f: real)
    requires n > 0 && f <= hi && BandsSeparate(n, lo, hi, f)
    requires GradedResult(full, n, lo, hi, f) && full.AllPassed()
    requires GradedResult(other, n, lo, hi, f) && !other.AllPassed()
    ensures other.valScore < full.valScore
  {
    GradedTotal(full.tasks, lo, hi, f);
    GradedTotal(other.tasks, lo, hi, f);
    TimesIsProduct(n, lo);
    TimesIsProduct(n, hi);
    assert n as real * hi - hi + f == (n as real - 1.0) * hi + f;
    QuotientOrder(TotalReward(other.tasks), TotalReward(full.tasks), n as real);
  }

  /** `n` tasks with the same reward, all passed but the last one, which has its own reward and status. */
  function Almost(n: nat, reward: real, last: real, status: TaskStatus): (tasks: seq<TaskExecution>)
    requires n > 0
    ensures |tasks| == n
  {
    seq(n - 1, _ => TaskExecution("", Some(reward), Passed)) + [TaskExecution("", Some(last), status)]
  }

  lemma {:induction false} SameRewards(n: nat, reward: real)
    ensures var tasks := seq(n, _ => TaskExecution("", Some(reward), Passed));
            TotalReward(tasks) == n as real * reward && EachPassed(tasks)
  {
    if n > 0 {
      var tasks := seq(n, _ => TaskExecution("", Some(reward), Passed));
      SameRewards(n - 1, reward);
      assert tasks[..n - 1] == seq(n - 1, _ => TaskExecution("", Some(reward), Passed));
      assert n as real * reward == (n - 1) as real * reward + reward;
    }
  }

  lemma AlmostTotal(n: nat, reward: real, last: real, status: TaskStatus)
    requires n > 0
    ensures var tasks := Almost(n, reward, last, status);
            TotalReward(tasks) == (n as real - 1.0) * reward + last && (EachPassed(tasks) <==> status.Passed?)
  {
    var tasks, rest := Almost(n, reward, last, status), seq(n - 1, _ => TaskExecution("", Some(reward), Passed));
    SameRewards(n - 1, reward);
    assert tasks[..n - 1] == rest;
  }

  lemma OneMore(n: nat, x: real)
    ensures n as real * x == (n as real - 1.0) * x + x
  {
  }

  /** The two results that meet in the middle: the poorest full pass and the richest other one. */
  lemma PoorestAndRichest(n: nat, lo: real, hi: real, f: real) returns (full: BenchmarkResult, other: BenchmarkResult)
    requires n > 0 && lo <= hi && f <= hi
    ensures GradedResult(full, n, lo, hi, f) && full.AllPassed()
    ensures GradedResult(other, n, lo, hi, f) && !other.AllPassed()
    ensures other.valScore < full.valScore <==> BandsSeparate(n, lo, hi, f)
  {
    var a, b := Almost(n, lo, lo, Passed), Almost(n, hi, f, Failed);
    full, other := BenchmarkResult(a, MeanReward(a)), BenchmarkResult(b, MeanReward(b));
    AlmostTotal(n, lo, lo, Passed);
    AlmostTotal(n, hi, f, Failed);
    OneMore(n, lo);
    hide TotalReward, EachPassed;
    assert forall t | t in a :: GradedTask(t, lo, hi, f);
    assert forall t | t in b :: GradedTask(t, lo, hi, f);
    hide Almost, GradedTask;
    QuotientOrder(TotalReward(b), TotalReward(a), n as real);
  }

  /** Main result: a full pass always beats a result that is not one exactly when the bands separate. */
  lemma FullPassAlwaysBeatsIff(n: nat, lo: real, hi: real, f: real)
    requires n > 0 && lo <= hi && f <= hi
    ensures BandsSeparate(n, lo, hi, f)
       <==> forall full: BenchmarkResult, other: BenchmarkResult |
              GradedResult(full, n, lo, hi, f) && full.AllPassed()
              && GradedResult(other, n, lo, hi, f) && !other.AllPassed() :: other.valScore < full.valScore
  {
    if BandsSeparate(n, lo, hi, f) {
      forall full: BenchmarkResult, other: BenchmarkResult |
        GradedResult(full, n, lo, hi, f) && full.AllPassed()
        && GradedResult(other, n, lo, hi, f) && !other.AllPassed()
        ensures other.valScore < full.valScore
      {
        FullPassBeats(full, other, n, lo, hi, f);
      }
    } else {
      var full, other := PoorestAndRichest(n, lo, hi, f);
    }
  }

  /** Rewards zero and one are bands that separate, whatever the number of tasks. */
  lemma BinaryIsGraded(result: BenchmarkResult, n: nat)
    requires BinaryResult(result, n)
    ensures GradedResult(result, n, 1.0, 1.0, 0.0) && BandsSeparate(n, 1.0, 1.0, 0.0)
  {
    forall t | t in result.tasks ensures GradedTask(t, 1.0, 1.0, 0.0) {
      assert BinaryTask(t);
    }
  }
}
