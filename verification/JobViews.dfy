/** What the API derives from the stored rows of a job: which version an iteration proposed, and where its
    tasks stand. */
module JobViews {
  import opened Wrappers
  import opened Benchmark
  import opened RunSpec
  import LiveProgress
  import RunTheorems

  // ---- Proposed versions ----

  /** For each iteration that created versions, the highest number among them; other iterations are absent. */
  predicate Newest(rows: seq<AgentVersion>, proposed: map<nat, nat>) {
    && (forall r | r in rows && r.createdBy.Some? ::
          r.createdBy.value in proposed && r.versionNo <= proposed[r.createdBy.value])
    && (forall k | k in proposed :: exists r | r in rows :: r.createdBy == Some(k) && r.versionNo == proposed[k])
  }

  lemma NewestStep(rows: seq<AgentVersion>, row: AgentVersion, before: map<nat, nat>, after: map<nat, nat>)
    requires Newest(rows, before)
    requires after == if row.createdBy.Some?
                         && (row.createdBy.value !in before || row.versionNo > before[row.createdBy.value])
                      then before[row.createdBy.value := row.versionNo] else before
    ensures Newest(rows + [row], after)
  {
    var longer := rows + [row];
    assert forall r :: r in longer <==> r in rows || r == row;
    forall k | k in after ensures exists r | r in longer :: r.createdBy == Some(k) && r.versionNo == after[k] {
      if k in before && after[k] == before[k] {
        var r :| r in rows && r.createdBy == Some(k) && r.versionNo == before[k];
        assert r in longer;
      } else {
        assert row in longer && row.createdBy == Some(k) && row.versionNo == after[k];
      }
    }
  }

  /** `_proposed_versions_by_iteration`; the rows come in any order. */
  method ProposedVersions(rows: seq<AgentVersion>) returns (proposed: map<nat, nat>)
    ensures Newest(rows, proposed)
  {
    proposed := map[];
    for i := 0 to |rows|
      invariant Newest(rows[..i], proposed)
    {
      var row, before := rows[i], proposed;
      if row.createdBy.Some? {
        var k := row.createdBy.value;
        if k !in proposed || row.versionNo > proposed[k] {
          proposed := proposed[k := row.versionNo];
        }
      }
      NewestStep(rows[..i], row, before, proposed);
      assert rows[..i] + [row] == rows[..i + 1];
    }
    assert rows[..|rows|] == rows;
  }

  /** For the versions of a run, in whatever order they are read, iteration k proposed version k + 1 and the
      iterations without a successor proposed nothing. */
  lemma RunProposesNext(c: Config, w: World, n: nat, rows: seq<AgentVersion>, proposed: map<nat, nat>, k: nat)
    requires forall r :: r in rows <==> r in VersionRows(c, w, n)
    requires Newest(rows, proposed)
    ensures k in proposed <==> k + 1 < n
    ensures k in proposed ==> proposed[k] == k + 1
  {
    hide VersionRows, VersionRow;
    if k in proposed {
      var r :| r in rows && r.createdBy == Some(k) && r.versionNo == proposed[k];
      var v :| 0 <= v < n && VersionRows(c, w, n)[v] == r;
      RunTheorems.VersionsAreGapless(c, w, n, v);
    }
    if k + 1 < n {
      RunTheorems.VersionsAreGapless(c, w, n, k + 1);
      var row := VersionRows(c, w, n)[k + 1];
      assert row in rows && row.createdBy == Some(k);
    }
  }

  // ---- Task summaries ----

  function Ids(tasks: seq<TaskExecution>): (ids: seq<string>)
    ensures |ids| == |tasks| && forall i | 0 <= i < |ids| :: ids[i] == tasks[i].taskId
  {
    seq(|tasks|, i requires 0 <= i < |tasks| => tasks[i].taskId)
  }

  function IdsWith(tasks: seq<TaskExecution>, status: TaskStatus): seq<string> { Ids(With(tasks, status)) }

  lemma IdsWithStep(tasks: seq<TaskExecution>, status: TaskStatus)
    requires tasks != []
    ensures IdsWith(tasks, status)
         == IdsWith(tasks[..|tasks| - 1], status)
            + if tasks[|tasks| - 1].status == status then [tasks[|tasks| - 1].taskId] else []
  {
  }

  lemma NoIds()
    ensures forall status :: IdsWith([], status) == []
  {
  }

  /** A stored result belongs to an iteration. */
  datatype ResultRow = ResultRow(iterationId: string, task: TaskExecution)

  datatype Outcomes = Outcomes(passed: seq<string>, failed: seq<string>, infraError: seq<string>)

  /** The results of one iteration, in order. */
  function Of(rows: seq<ResultRow>, iterationId: string): seq<TaskExecution> {
    if rows == [] then []
    else
      Of(rows[..|rows| - 1], iterationId)
      + if rows[|rows| - 1].iterationId == iterationId then [rows[|rows| - 1].task] else []
  }

  function OutcomesOf(tasks: seq<TaskExecution>): Outcomes {
    Outcomes(IdsWith(tasks, Passed), IdsWith(tasks, Failed), IdsWith(tasks, InfraError))
  }

  /** An id put into the list of its outcome. */
  function Sorted(outcomes: Outcomes, task: TaskExecution): Outcomes {
    match task.status
    case Passed => outcomes.(passed := outcomes.passed + [task.taskId])
    case Failed => outcomes.(failed := outcomes.failed + [task.taskId])
    case InfraError => outcomes.(infraError := outcomes.infraError + [task.taskId])
  }

  lemma OutcomesStep(tasks: seq<TaskExecution>, task: TaskExecution)
    ensures OutcomesOf(tasks + [task]) == Sorted(OutcomesOf(tasks), task)
  {
    var more := tasks + [task];
    assert more[..|more| - 1] == tasks;
    IdsWithStep(more, Passed);
    IdsWithStep(more, Failed);
    IdsWithStep(more, InfraError);
    hide IdsWith;
  }

  lemma OfStep(rows: seq<ResultRow>, i: nat, iterationId: string)
    requires i < |rows|
    ensures Of(rows[..i + 1], iterationId)
         == Of(rows[..i], iterationId) + if rows[i].iterationId == iterationId then [rows[i].task] else []
  {
    assert rows[..i + 1][..i] == rows[..i];
  }

  /** The lists of every wanted iteration that has results, and of no other. */
  ghost predicate Grouped(wanted: seq<string>, rows: seq<ResultRow>, outcomes: map<string, Outcomes>) {
    && (forall id :: id in outcomes <==> id in wanted && Of(rows, id) != [])
    && (forall id | id in outcomes :: outcomes[id] == OutcomesOf(Of(rows, id)))
  }

  lemma GroupedStep(wanted: seq<string>, rows: seq<ResultRow>, i: nat, before: map<string, Outcomes>,
                    after: map<string, Outcomes>)
    requires i < |rows| && Grouped(wanted, rows[..i], before)
    requires var key := rows[i].iterationId;
             after == if key !in wanted then before
                      else
                        var bucket := if key in before then before[key] else Outcomes([], [], []);
                        before[key := Sorted(bucket, rows[i].task)]
    ensures Grouped(wanted, rows[..i + 1], after)
  {
    var key := rows[i].iterationId;
    NoIds();
    OutcomesStep(Of(rows[..i], key), rows[i].task);
    assert OutcomesOf([]) == Outcomes([], [], []);
    forall id ensures (id in after <==> id in wanted && Of(rows[..i + 1], id) != [])
                      && (id in after ==> after[id] == OutcomesOf(Of(rows[..i + 1], id)))
    {
      OfStep(rows, i, id);
      if id != key {
        assert Of(rows[..i], id) + [] == Of(rows[..i], id);
      }
    }
  }

  /** `_outcome_ids_by_iteration`. */
  method OutcomeIdsByIteration(wanted: seq<string>, rows: seq<ResultRow>) returns (outcomes: map<string, Outcomes>)
    ensures Grouped(wanted, rows, outcomes)
  {
    outcomes := map[];
    for i := 0 to |rows|
      invariant Grouped(wanted, rows[..i], outcomes)
    {
      var before, key, task := outcomes, rows[i].iterationId, rows[i].task;
      if key in wanted {
        var bucket := if key in outcomes then outcomes[key] else Outcomes([], [], []);
        if task.status.Passed? {
          bucket := bucket.(passed := bucket.passed + [task.taskId]);
        } else if task.status.InfraError? {
          bucket := bucket.(infraError := bucket.infraError + [task.taskId]);
        } else {
          bucket := bucket.(failed := bucket.failed + [task.taskId]);
        }
        outcomes := outcomes[key := bucket];
      }
      GroupedStep(wanted, rows, i, before, outcomes);
    }
    assert rows[..|rows|] == rows;
  }

  lemma {:induction false} OfFinds(rows: seq<ResultRow>, id: string)
    ensures Of(rows, id) != [] <==> exists r | r in rows :: r.iterationId == id
  {
    if rows != [] {
      var init, last := rows[..|rows| - 1], rows[|rows| - 1];
      assert rows == init + [last];
      OfFinds(init, id);
      assert last in rows && forall r | r in init :: r in rows;
    }
  }

  /** The three lists of an iteration, or empty ones when the iteration is not shown. */
  function Shown(outcomes: map<string, Outcomes>, id: string): Outcomes {
    if id in outcomes then outcomes[id] else Outcomes([], [], [])
  }

  /** Main result: what is shown of the rows of any wanted iteration, row by row: nothing at first, and one more row of
      that iteration appends its task to the list of its status, whereas a row of another iteration changes nothing. */
  lemma OutcomesFollowRows(wanted: seq<string>, rows: seq<ResultRow>, row: ResultRow, before: map<string, Outcomes>,
                           after: map<string, Outcomes>, id: string)
    requires Grouped(wanted, rows, before) && Grouped(wanted, rows + [row], after)
    ensures id in before <==> id in wanted && exists r | r in rows :: r.iterationId == id
    ensures rows == [] ==> Shown(before, id) == Outcomes([], [], [])
    ensures id !in wanted ==> Shown(after, id) == Outcomes([], [], [])
    ensures id in wanted ==>
              var was, now, task := Shown(before, id), Shown(after, id), row.task.taskId;
              if row.iterationId != id then now == was
              else match row.task.status
                   case Passed => now == Outcomes(was.passed + [task], was.failed, was.infraError)
                   case Failed => now == Outcomes(was.passed, was.failed + [task], was.infraError)
                   case InfraError => now == Outcomes(was.passed, was.failed, was.infraError + [task])
  {
    var all := rows + [row];
    assert all[..|rows|] == rows && all[..|all|] == all;
    OfStep(all, |rows|, id);
    OutcomesStep(Of(rows, id), row.task);
    NoIds();
    assert OutcomesOf([]) == Outcomes([], [], []);
    assert Of(rows, id) + [] == Of(rows, id);
    OfFinds(rows, id);
    hide OutcomesOf, Of;
  }

  datatype TasksSummary = TasksSummary(pending: seq<string>, running: seq<string>, completed: seq<string>,
                                       passed: seq<string>, failed: seq<string>, infraError: seq<string>)

  /** `_tasks_summary`: stored results take precedence over live progress. */
  function Summary(pending: seq<string>, running: seq<string>, allIds: seq<string>,
                   outcomes: Outcomes): TasksSummary {
    var passed, failed, infraError := outcomes.passed, outcomes.failed, outcomes.infraError;
    if passed != [] || failed != [] || infraError != []
    then TasksSummary([], [], passed + failed + infraError, passed, failed, infraError)
    else TasksSummary(pending, running, LiveProgress.Completed(allIds, pending, running), [], [], [])
  }

  function Count(ids: seq<string>, id: string): nat { multiset(ids)[id] }

  lemma CountOfExtended(ids: seq<string>, more: string, id: string)
    ensures Count(ids + [more], id) == Count(ids, id) + if more == id then 1 else 0
  {
  }

  lemma CountWith(tasks: seq<TaskExecution>, status: TaskStatus, id: string)
    requires tasks != []
    ensures Count(IdsWith(tasks, status), id)
         == Count(IdsWith(tasks[..|tasks| - 1], status), id)
            + if tasks[|tasks| - 1].status == status && tasks[|tasks| - 1].taskId == id then 1 else 0
  {
    IdsWithStep(tasks, status);
    hide Count, IdsWith;
    var init, last := IdsWith(tasks[..|tasks| - 1], status), tasks[|tasks| - 1];
    CountOfExtended(init, last.taskId, id);
    assert init + [] == init;
  }

  lemma CountIds(tasks: seq<TaskExecution>, id: string)
    requires tasks != []
    ensures Count(Ids(tasks), id)
         == Count(Ids(tasks[..|tasks| - 1]), id) + if tasks[|tasks| - 1].taskId == id then 1 else 0
  {
    var init, last := tasks[..|tasks| - 1], tasks[|tasks| - 1];
    CountOfExtended(Ids(init), last.taskId, id);
    assert Ids(tasks) == Ids(init) + [last.taskId];
  }

  /** Every result is in exactly one of the three lists. */
  lemma {:induction false} OutcomesPartition(tasks: seq<TaskExecution>, id: string)
    ensures Count(IdsWith(tasks, Passed), id) + Count(IdsWith(tasks, Failed), id)
            + Count(IdsWith(tasks, InfraError), id) == Count(Ids(tasks), id)
  {
    if tasks == [] {
      NoIds();
      assert Ids(tasks) == [];
    } else {
      hide *;
      OutcomesPartition(tasks[..|tasks| - 1], id);
      CountWith(tasks, Passed, id);
      CountWith(tasks, Failed, id);
      CountWith(tasks, InfraError, id);
      CountIds(tasks, id);
    }
  }

  lemma SomeOutcome(tasks: seq<TaskExecution>)
    requires tasks != []
    ensures IdsWith(tasks, Passed) != [] || IdsWith(tasks, Failed) != [] || IdsWith(tasks, InfraError) != []
  {
    IdsWithStep(tasks, tasks[|tasks| - 1].status);
  }

  lemma JoinedCount(a: seq<string>, b: seq<string>, c: seq<string>, id: string)
    ensures Count(a + b + c, id) == Count(a, id) + Count(b, id) + Count(c, id)
  {
  }

  /** Once the results of a non-empty task list are stored, every task of the job is counted completed exactly
      as often as the job lists it, whatever progress was last reported. */
  lemma SummaryAccountsForEveryTask(result: BenchmarkResult, taskIds: seq<string>, pending: seq<string>,
                                    running: seq<string>, id: string)
    requires Complete(result, taskIds) && taskIds != []
    ensures var summary := Summary(pending, running, taskIds, OutcomesOf(result.tasks));
      && summary.pending == [] && summary.running == []
      && Count(summary.completed, id) == Count(taskIds, id)
      && Count(summary.completed, id)
         == Count(summary.passed, id) + Count(summary.failed, id) + Count(summary.infraError, id)
      && Outcomes(summary.passed, summary.failed, summary.infraError) == OutcomesOf(result.tasks)
  {
    var tasks := result.tasks;
    assert Ids(tasks) == taskIds;
    hide IdsWith, LiveProgress.Completed, Complete;
    SomeOutcome(tasks);
    hide Count;
    OutcomesPartition(tasks, id);
    JoinedCount(IdsWith(tasks, Passed), IdsWith(tasks, Failed), IdsWith(tasks, InfraError), id);
  }

  /** While no result is stored, the lists shown are those last published, and the finished tasks as completed. */
  lemma LiveSummaryIsProgress(taskIds: seq<string>, dir: string -> LiveProgress.TaskDir, pending: seq<string>,
                              running: seq<string>)
    requires pending == LiveProgress.Filter(taskIds, id => !dir(id).Finished? && !dir(id).Started?)
    requires running == LiveProgress.Filter(taskIds, id => dir(id).Started?)
    ensures Summary(pending, running, taskIds, Outcomes([], [], []))
         == TasksSummary(pending, running, LiveProgress.Filter(taskIds, id => dir(id).Finished?), [], [], [])
  {
    LiveProgress.CompletedMeansFinished(taskIds, dir);
  }
}
