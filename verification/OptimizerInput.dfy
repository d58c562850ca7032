/** How `Optimizer.propose` sorts the results it is given. */
module OptimizerInput {
  import opened Wrappers
  import opened Benchmark

  datatype Evidence = Evidence(failing: seq<TaskExecution>, passing: seq<TaskExecution>, infra: seq<TaskExecution>)

  /** With all results at hand they alone decide; without them the caller's lists do. */
  function Partition(failing: seq<TaskExecution>, passing: Option<seq<TaskExecution>>,
                     all: Option<seq<TaskExecution>>): Evidence {
    match all
    case Some(tasks) => Evidence(With(tasks, Failed), With(tasks, Passed), With(tasks, InfraError))
    case None =>
      Evidence(Without(failing, InfraError), if passing.Some? then passing.value else [], With(failing, InfraError))
  }

  function Times(tasks: seq<TaskExecution>, t: TaskExecution): nat { multiset(tasks)[t] }

  lemma OneTimeMore(tasks: seq<TaskExecution>, last: TaskExecution, t: TaskExecution)
    ensures Times(tasks + [last], t) == Times(tasks, t) + if last == t then 1 else 0
  {
  }

  lemma {:induction false} WithHolds(tasks: seq<TaskExecution>, status: TaskStatus, t: TaskExecution)
    ensures Times(With(tasks, status), t) == if t.status == status then Times(tasks, t) else 0
  {
    if tasks == [] {
      assert With(tasks, status) == tasks;
    } else {
      var init, last := tasks[..|tasks| - 1], tasks[|tasks| - 1];
      assert tasks == init + [last];
      WithHolds(init, status, t);
      OneMoreTask(init, last, status);
      hide With, Times;
      OneTimeMore(init, last, t);
      OneTimeMore(With(init, status), last, t);
    }
  }

  /** With all results at hand each goes into the list of its status as often as it is there, and into no other. */
  lemma PartitionSorts(tasks: seq<TaskExecution>, failing: seq<TaskExecution>, passing: Option<seq<TaskExecution>>,
                       t: TaskExecution)
    ensures var sorted, n := Partition(failing, passing, Some(tasks)), multiset(tasks)[t];
      && multiset(sorted.failing)[t] == (if t.status == Failed then n else 0)
      && multiset(sorted.passing)[t] == (if t.status == Passed then n else 0)
      && multiset(sorted.infra)[t] == (if t.status == InfraError then n else 0)
  {
    WithHolds(tasks, Failed, t);
    WithHolds(tasks, Passed, t);
    WithHolds(tasks, InfraError, t);
  }

  lemma {:induction false} FailuresOfNotPassed(tasks: seq<TaskExecution>)
    ensures Without(Without(tasks, Passed), InfraError) == With(tasks, Failed)
    ensures With(Without(tasks, Passed), InfraError) == With(tasks, InfraError)
  {
    if tasks != [] {
      var init, last := tasks[..|tasks| - 1], tasks[|tasks| - 1];
      FailuresOfNotPassed(init);
      OneMoreTask(Without(init, Passed), last, InfraError);
      assert Without(init, Passed) + [] == Without(init, Passed);
    }
  }

  /** Both ways of calling show the optimizer the same evidence when the caller's lists are the results that did
      not pass and those that did, as the processor's are. */
  lemma BothCallsAgree(tasks: seq<TaskExecution>)
    ensures Partition(Without(tasks, Passed), Some(With(tasks, Passed)), None)
         == Partition(Without(tasks, Passed), None, Some(tasks))
  {
    FailuresOfNotPassed(tasks);
  }

  lemma {:induction false} WithOfJoin(a: seq<TaskExecution>, b: seq<TaskExecution>, status: TaskStatus)
    ensures With(a + b, status) == With(a, status) + With(b, status)
  {
    if b == [] {
      assert a + b == a;
    } else {
      assert (a + b)[..|a + b| - 1] == a + b[..|b| - 1];
      WithOfJoin(a, b[..|b| - 1], status);
    }
  }

  lemma {:induction false} WithTwice(tasks: seq<TaskExecution>, outer: TaskStatus, inner: TaskStatus)
    ensures With(With(tasks, inner), outer) == if outer == inner then With(tasks, inner) else []
  {
    if tasks != [] {
      var init, last := tasks[..|tasks| - 1], tasks[|tasks| - 1];
      WithTwice(init, outer, inner);
      OneMoreTask(With(init, inner), last, outer);
      assert With(init, inner) + [] == With(init, inner);
    }
  }

  /** The heuristic optimizer is handed failures and infrastructure errors in one list, and picks exactly the
      failures out of it again. */
  lemma HeuristicFindsTheFailures(tasks: seq<TaskExecution>)
    ensures With(With(tasks, Failed) + With(tasks, InfraError), Failed) == With(tasks, Failed)
  {
    WithOfJoin(With(tasks, Failed), With(tasks, InfraError), Failed);
    WithTwice(tasks, Failed, Failed);
    WithTwice(tasks, Failed, InfraError);
  }
}
