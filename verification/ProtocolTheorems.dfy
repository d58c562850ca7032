/** What every interleaving of submits, cancels, claims and the processor guarantees, and what it does not. */
module ProtocolTheorems {
  import opened Wrappers
  import opened Benchmark
  import opened RunSpec
  import opened JobProtocol
  import ExecutorContract

  // ---- Statuses, claims and cancels ----

  function Rank(s: JobStatus): nat { if s == Queued then 0 else if s == Running then 1 else 2 }

  /** How one job may differ between an earlier and a later state: its status only moves forward, it keeps its
      creation time, its work only grows, and what was remembered of a cancel stays remembered. */
  predicate Later(before: Job, after: Job) {
    && Rank(before.row.status) <= Rank(after.row.status)
    && before.createdAt == after.createdAt && (before.claimed ==> after.claimed)
    && before.work.calls <= after.work.calls && before.work.rows <= after.work.rows
    && (before.mark.Some? ==> after.mark == before.mark)
    && (before.seen ==> after.seen)
  }

  lemma ProcessorMovesForward(job: Job, pc: Pc, s: Session, move: Move)
    requires RowOk(job, At(pc, s)) && ProcessorStep(job, pc, s, move).Some?
    ensures Later(job, ProcessorStep(job, pc, s, move).value.job)
  {
    hide BenchmarkExit, ReasonOf, Changes, MayReport;
  }

  lemma NextMovesForward(s: State, a: Action, id: nat)
    requires Inv(s) && Next(s, a).Some? && id < |s.jobs|
    ensures var t := Next(s, a).value; id < |t.jobs| && Later(s.jobs[id], t.jobs[id])
  {
    assert JobOk(s.jobs[id], RoleOf(s.worker, id));
    if a.Process? && s.worker.id == id {
      assert RowOk(s.jobs[id], At(s.worker.pc, s.worker.session));
      hide Inv, JobOk, ProcessorStep, Later;
      ProcessorMovesForward(s.jobs[id], s.worker.pc, s.worker.session, a.move);
    } else if a.CommitCancel? && s.cancels[a.k].id == id {
      assert PendingOk(s.cancels[a.k].session);
      hide Inv, ReportOk, WithinMark, SeenOk;
      CancelKeepsJobOk(s.jobs[id], RoleOf(s.worker, id), s.cancels[a.k].session);
    } else {
      hide Inv, JobOk;
    }
  }

  lemma LaterIsTransitive(a: Job, b: Job, c: Job)
    requires Later(a, b) && Later(b, c)
    ensures Later(a, c)
  {
  }

  lemma LaterIsReflexive()
    ensures forall job :: Later(job, job)
  {
  }

  lemma {:induction false} RunMovesForward(actions: seq<Action>, more: seq<Action>, id: nat)
    requires Run(actions + more).Some?
    ensures Run(actions).Some?
    ensures id < |Run(actions).value.jobs| ==>
              var s, t := Run(actions).value, Run(actions + more).value;
              id < |t.jobs| && Later(s.jobs[id], t.jobs[id])
  {
    hide Inv, Next, Later;
    if more == [] {
      assert actions + more == actions;
      LaterIsReflexive();
    } else {
      var all, init, last := actions + more, actions + more[..|more| - 1], more[|more| - 1];
      assert all[..|all| - 1] == init && all[|all| - 1] == last;
      RunMovesForward(actions, more[..|more| - 1], id);
      RunKeepsInv(init);
      if id < |Run(actions).value.jobs| {
        NextMovesForward(Run(init).value, last, id);
        LaterIsTransitive(Run(actions).value.jobs[id], Run(init).value.jobs[id], Run(all).value.jobs[id]);
      }
    }
  }

  lemma JobHolds(actions: seq<Action>, id: nat)
    requires Run(actions).Some? && id < |Run(actions).value.jobs|
    ensures JobOk(Run(actions).value.jobs[id], RoleOf(Run(actions).value.worker, id))
  {
    RunKeepsInv(actions);
  }

  /** Whatever the interleaving, a job that is completed, failed or cancelled is never queued or running again,
      and a running one never queued. */
  lemma StatusNeverGoesBack(actions: seq<Action>, more: seq<Action>, id: nat)
    requires Run(actions + more).Some? && Run(actions).Some? && id < |Run(actions).value.jobs|
    ensures id < |Run(actions + more).value.jobs|
    ensures var before, after := Run(actions).value.jobs[id].row.status, Run(actions + more).value.jobs[id].row.status;
      && (Terminal(before) ==> Terminal(after))
      && (before == Running ==> after != Queued)
  {
    RunMovesForward(actions, more, id);
  }

  /** No job is claimed twice, and when jobs are stored in the order of their creation times they are claimed
      in that order. */
  lemma ClaimsFollowSubmission(actions: seq<Action>, i: nat, j: nat)
    requires Run(actions).Some? && i < j < |Run(actions).value.claims|
    ensures var s := Run(actions).value;
      && s.claims[i] != s.claims[j] && s.claims[i] < |s.jobs| && s.claims[j] < |s.jobs|
      && (SubmittedInOrder(s.jobs) ==> s.jobs[s.claims[i]].createdAt <= s.jobs[s.claims[j]].createdAt)
  {
    RunKeepsInv(actions);
  }

  lemma SelectTakesOldest(s: State, x: nat)
    requires Next(s, SelectJob(x)).Some?
    ensures x < |s.jobs| && s.jobs[x].row.status == Queued
    ensures forall y | 0 <= y < |s.jobs| && s.jobs[y].row.status == Queued :: s.jobs[x].createdAt <= s.jobs[y].createdAt
  {
  }

  /** A job becomes claimed by being selected, and by nothing else. */
  lemma OnlySelectClaims(s: State, a: Action, id: nat)
    requires Next(s, a).Some? && id < |s.jobs|
    requires !s.jobs[id].claimed && Next(s, a).value.jobs[id].claimed
    ensures a == SelectJob(id)
  {
    hide BenchmarkExit, ReasonOf, Changes, MayReport, OldestQueued;
  }

  lemma WaitedBefore(before: Job, after: Job)
    requires Later(before, after) && after.row.status == Queued
    ensures before.row.status == Queued
  {
  }

  /** A job that is claimed later on is still waiting. */
  lemma {:induction false} ClaimedLaterWaits(actions: seq<Action>, more: seq<Action>, id: nat)
    requires Run(actions).Some? && Run(actions + more).Some?
    requires id < |Run(actions).value.jobs| && id < |Run(actions + more).value.jobs|
    requires !Run(actions).value.jobs[id].claimed && Run(actions + more).value.jobs[id].claimed
    ensures Run(actions).value.jobs[id].row.status == Queued
  {
    hide Inv, Next, Later;
    assert more == [] ==> actions + more == actions;
    if more != [] {
      var init, last := actions + more[..|more| - 1], more[|more| - 1];
      assert (actions + more)[..|actions + more| - 1] == init && (actions + more)[|actions + more| - 1] == last;
      RunMovesForward(actions, more[..|more| - 1], id);
      RunKeepsInv(init);
      if Run(init).value.jobs[id].claimed {
        ClaimedLaterWaits(actions, more[..|more| - 1], id);
      } else {
        OnlySelectClaims(Run(init).value, last, id);
        SelectTakesOldest(Run(init).value, id);
        WaitedBefore(Run(actions).value.jobs[id], Run(init).value.jobs[id]);
      }
    }
  }

  lemma RunKeepsJobs(actions: seq<Action>, more: seq<Action>)
    requires Run(actions).Some? && Run(actions + more).Some?
    ensures |Run(actions).value.jobs| <= |Run(actions + more).value.jobs|
  {
    hide Run, Later;
    if |Run(actions).value.jobs| > 0 {
      RunMovesForward(actions, more, |Run(actions).value.jobs| - 1);
    }
  }

  lemma RunExtends(actions: seq<Action>, a: Action)
    requires Run(actions).Some?
    ensures Run(actions + [a]) == Next(Run(actions).value, a)
  {
    assert (actions + [a])[..|actions|] == actions;
  }

  lemma TakesOldest(actions: seq<Action>, x: nat, rest: seq<Action>, y: nat)
    requires Run(actions).Some? && Next(Run(actions).value, SelectJob(x)).Some? && Run(actions + rest).Some?
    requires y < |Run(actions).value.jobs|
    ensures var s, t := Run(actions).value, Run(actions + rest).value;
      && x < |s.jobs| <= |t.jobs| && s.jobs[x].row.status == Queued
      && (s.jobs[y].row.status == Queued || (!s.jobs[y].claimed && t.jobs[y].claimed) ==>
            s.jobs[x].createdAt <= s.jobs[y].createdAt)
  {
    hide *;
    SelectTakesOldest(Run(actions).value, x);
    RunKeepsJobs(actions, rest);
    if !Run(actions).value.jobs[y].claimed && Run(actions + rest).value.jobs[y].claimed {
      ClaimedLaterWaits(actions, rest, y);
    }
  }

  /** Main result: whatever the interleaving and however the rows are ordered, when a job is taken no job that is
      waiting is older, and so none that is stored at that moment and taken later on. */
  lemma ClaimsTakeOldest(actions: seq<Action>, x: nat, more: seq<Action>, y: nat)
    requires Run(actions).Some? && Run(actions + [SelectJob(x)]).Some? && Run(actions + [SelectJob(x)] + more).Some?
    requires y < |Run(actions).value.jobs|
    ensures var s, t := Run(actions).value, Run(actions + [SelectJob(x)] + more).value;
      && x < |s.jobs| <= |t.jobs| && s.jobs[x].row.status == Queued
      && (s.jobs[y].row.status == Queued || (!s.jobs[y].claimed && t.jobs[y].claimed) ==>
            s.jobs[x].createdAt <= s.jobs[y].createdAt)
  {
    hide *;
    var rest := [SelectJob(x)] + more;
    assert actions + [SelectJob(x)] + more == actions + rest;
    RunExtends(actions, SelectJob(x));
    TakesOldest(actions, x, rest, y);
  }

  lemma MarkBoundsWork(job: Job, role: Role)
    requires JobOk(job, role)
    ensures job.mark.Some? ==> && job.mark.value.calls <= job.work.calls <= job.mark.value.calls + 1
                               && job.mark.value.rows <= job.work.rows <= job.mark.value.rows + 1
  {
  }

  /** Once a cancel is committed, at most one more call begins and at most one more row, iteration or version,
      is added, however the run goes on. */
  lemma CancelBoundsReaction(actions: seq<Action>, k: nat, more: seq<Action>)
    requires Run(actions).Some? && k < |Run(actions).value.cancels|
    requires Run(actions + [CommitCancel(k)] + more).Some?
    ensures var id := Run(actions).value.cancels[k].id; var t := Run(actions + [CommitCancel(k)] + more).value;
      && id < |Run(actions).value.jobs| && id < |t.jobs|
      && t.jobs[id].work.calls <= Run(actions).value.jobs[id].work.calls + 1
      && t.jobs[id].work.rows <= Run(actions).value.jobs[id].work.rows + 1
  {
    var cancelled := actions + [CommitCancel(k)];
    var s := Run(actions).value;
    var id := s.cancels[k].id;
    RunKeepsInv(actions);
    assert cancelled[..|cancelled| - 1] == actions;
    RunMovesForward(cancelled, more, id);
    JobHolds(actions, id);
    JobHolds(cancelled + more, id);
    hide Run, Inv, JobOk, RowOk, SeenOk;
    assert Run(cancelled) == Next(s, CommitCancel(k)) by {
      RunExtends(actions, CommitCancel(k));
    }
    MarkBoundsWork(s.jobs[id], RoleOf(s.worker, id));
    MarkBoundsWork(Run(cancelled + more).value.jobs[id], RoleOf(Run(cancelled + more).value.worker, id));
  }

  /** A cancel request that found its job unfinished wins over whatever was stored when it commits: even a job
      that has since completed or failed ends as cancelled. */
  lemma LateCancelOverwrites(actions: seq<Action>, k: nat)
    requires Run(actions).Some? && k < |Run(actions).value.cancels|
    ensures var id := Run(actions).value.cancels[k].id; var next := Run(actions + [CommitCancel(k)]);
      && next.Some? && id < |next.value.jobs| && next.value.jobs[id].row == GONE
  {
    var s := Run(actions).value;
    RunKeepsInv(actions);
    RunExtends(actions, CommitCancel(k));
    JobHolds(actions, s.cancels[k].id);
    CancelKeepsJobOk(s.jobs[s.cancels[k].id], RoleOf(s.worker, s.cancels[k].id), s.cancels[k].session);
  }

  /** Once the processor has read a job as cancelled, the row says cancelled, by the user, ever after. */
  lemma SeenCancelIsFinal(actions: seq<Action>, more: seq<Action>, id: nat)
    requires Run(actions + more).Some? && Run(actions).Some? && id < |Run(actions).value.jobs|
    requires Run(actions).value.jobs[id].seen
    ensures id < |Run(actions + more).value.jobs| && Run(actions + more).value.jobs[id].row == GONE
  {
    RunMovesForward(actions, more, id);
    JobHolds(actions + more, id);
  }

  /** A job nobody works on is waiting untouched, or in one of the final states with a fitting reason; only a
      completed job can carry any reason but an error. */
  lemma IdleRowsAreSettled(actions: seq<Action>, id: nat)
    requires Run(actions).Some? && id < |Run(actions).value.jobs|
    requires RoleOf(Run(actions).value.worker, id) == Free
    ensures var row := Run(actions).value.jobs[id].row;
      && row.status != Running
      && (row.status == Queued ==> row.reason == None)
      && (row.status == JobCancelled ==> row.reason == Some(Cancelled))
      && (row.status == JobFailed ==> row.reason == Some(Error))
      && (row.status == Completed ==> row.reason.Some? && row.reason.value != Error)
  {
    JobHolds(actions, id);
  }

  // ---- Where cancels come from ----

  /** Action `i` is a cancel request that finds the job unfinished. */
  predicate RequestedAt(actions: seq<Action>, i: nat, id: nat) {
    && i < |actions| && actions[i] == ReadForCancel(id) && Run(actions[..i]).Some?
    && id < |Run(actions[..i]).value.jobs|
    && var status := Run(actions[..i]).value.jobs[id].row.status; status == Queued || status == Running
  }

  /** Action `j` commits a cancel request for the job. */
  predicate CommittedAt(actions: seq<Action>, j: nat, id: nat) {
    && j < |actions| && actions[j].CommitCancel? && Run(actions[..j]).Some?
    && actions[j].k < |Run(actions[..j]).value.cancels| && Run(actions[..j]).value.cancels[actions[j].k].id == id
  }

  lemma ExtendHistory(actions: seq<Action>, i: nat, id: nat)
    requires actions != [] && i < |actions| - 1
    ensures RequestedAt(actions[..|actions| - 1], i, id) ==> RequestedAt(actions, i, id)
    ensures CommittedAt(actions[..|actions| - 1], i, id) ==> CommittedAt(actions, i, id)
  {
    assert actions[..|actions| - 1][..i] == actions[..i];
    hide Run;
  }

  /** A request that waits for its commit was there before, or is made by this action. */
  lemma PendingStep(s: State, a: Action, k: nat) returns (j: nat)
    requires Next(s, a).Some? && k < |Next(s, a).value.cancels|
    ensures a.ReadForCancel? || (j < |s.cancels| && s.cancels[j] == Next(s, a).value.cancels[k])
    ensures a.ReadForCancel? ==>
              && a.id < |s.jobs| && (s.jobs[a.id].row.status == Queued || s.jobs[a.id].row.status == Running)
              && ((j < |s.cancels| && s.cancels[j] == Next(s, a).value.cancels[k])
                  || Next(s, a).value.cancels[k].id == a.id)
  {
    hide ProcessorStep, OldestQueued;
    j := if a.CommitCancel? && k >= a.k then k + 1 else k;
  }

  lemma {:induction false} PendingWasRequested(actions: seq<Action>, k: nat) returns (i: nat)
    requires Run(actions).Some? && k < |Run(actions).value.cancels|
    ensures RequestedAt(actions, i, Run(actions).value.cancels[k].id)
  {
    hide Next;
    var init, last := actions[..|actions| - 1], actions[|actions| - 1];
    var j := PendingStep(Run(init).value, last, k);
    if j < |Run(init).value.cancels| && Run(init).value.cancels[j] == Run(actions).value.cancels[k] {
      i := PendingWasRequested(init, j);
      ExtendHistory(actions, i, Run(actions).value.cancels[k].id);
    } else {
      i := |actions| - 1;
    }
  }

  lemma ProcessorNeverCancels(job: Job, pc: Pc, s: Session, move: Move)
    requires RowOk(job, At(pc, s)) && ProcessorStep(job, pc, s, move).Some? && job.row.status != JobCancelled
    ensures ProcessorStep(job, pc, s, move).value.job.row.status != JobCancelled
  {
    hide BenchmarkExit, ReasonOf, Changes, MayReport;
  }

  /** Nothing but the commit of a cancel request makes a job cancelled. */
  lemma OnlyCommitCancels(s: State, a: Action, id: nat)
    requires Inv(s) && Next(s, a).Some? && id < |Next(s, a).value.jobs|
    requires Next(s, a).value.jobs[id].row.status == JobCancelled
    requires id < |s.jobs| ==> s.jobs[id].row.status != JobCancelled
    ensures a.CommitCancel? && a.k < |s.cancels| && s.cancels[a.k].id == id
  {
    assert id < |s.jobs| ==> JobOk(s.jobs[id], RoleOf(s.worker, id));
    hide Inv, ReportOk, WithinMark, SeenOk, OldestQueued, ProcessorStep, SessionOk;
    if a.Process? && s.worker.id == id {
      ProcessorNeverCancels(s.jobs[id], s.worker.pc, s.worker.session, a.move);
    }
  }

  /** Main result: whatever the interleaving, a job is cancelled only behind a cancel request that found it queued or
      running, and committed later. */
  lemma {:induction false} CancelledOnlyOnRequest(actions: seq<Action>, id: nat) returns (i: nat, j: nat)
    requires Run(actions).Some? && id < |Run(actions).value.jobs|
    requires Run(actions).value.jobs[id].row.status == JobCancelled
    ensures i < j && RequestedAt(actions, i, id) && CommittedAt(actions, j, id)
  {
    hide Next, Inv;
    var init, last := actions[..|actions| - 1], actions[|actions| - 1];
    var s := Run(init).value;
    RunKeepsInv(init);
    if id < |s.jobs| && s.jobs[id].row.status == JobCancelled {
      i, j := CancelledOnlyOnRequest(init, id);
      ExtendHistory(actions, i, id);
      ExtendHistory(actions, j, id);
    } else {
      OnlyCommitCancels(s, last, id);
      j := |actions| - 1;
      i := PendingWasRequested(init, last.k);
      ExtendHistory(actions, i, id);
    }
  }

  // ---- The last commit, and finished rows ----

  /** The last commit of a run that returned leaves a completed job that claims to be cancelled exactly when the run
      ended with an unchanged proposal, whose stop reason is committed ahead of the status, and a cancel was committed
      in between. */
  lemma RowsDisagreeIff(actions: seq<Action>, id: nat, s: Session)
    requires Run(actions).Some? && id < |Run(actions).value.jobs|
    requires RoleOf(Run(actions).value.worker, id) == At(AtFinish, s)
    ensures var job := Run(actions).value.jobs[id]; var row := FinishStep(job, s).job.row;
            row == Fields(Completed, Some(Cancelled)) <==> s == Read(UNCHANGED) && job.row == GONE
  {
    JobHolds(actions, id);
  }

  /** Whatever commit ends the processing of a job, after a normal return or after an exception, a cancel committed
      before outlives it exactly when the processor has read it. */
  lemma CancelOutlivesRunIff(actions: seq<Action>, id: nat, pc: Pc, s: Session, move: Move)
    requires Run(actions).Some? && id < |Run(actions).value.jobs|
    requires RoleOf(Run(actions).value.worker, id) == At(pc, s)
    requires ProcessorStep(Run(actions).value.jobs[id], pc, s, move).Some?
    requires ProcessorStep(Run(actions).value.jobs[id], pc, s, move).value.next.None?
    ensures var job := ProcessorStep(Run(actions).value.jobs[id], pc, s, move).value.job;
      && (job.row.status == JobCancelled <==> job.seen)
      && (!job.seen ==> job.row.status == if move.Raise? then JobFailed else Completed)
  {
    JobHolds(actions, id);
    hide Run, ReportOk, WithinMark, BenchmarkExit, Changes, MayReport;
  }

  /** A step of the processor that overwrites a cancel it has not read. */
  predicate OverwritesCancel(s: State, a: Action, id: nat)
    requires id < |s.jobs|
  {
    && a.Process? && s.worker.Processing? && s.worker.id == id
    && (a.move.Raise? || (a.move.Go? && s.worker.pc.AtFinish?))
    && s.jobs[id].row.status == JobCancelled && !s.jobs[id].seen
  }

  /** A cancel that was requested while its job was unfinished, and commits now that the job is completed or failed. */
  predicate CancelsLate(s: State, a: Action, id: nat)
    requires id < |s.jobs|
  {
    && a.CommitCancel? && a.k < |s.cancels| && s.cancels[a.k].id == id
    && s.jobs[id].row.status != JobCancelled
  }

  lemma FinishedStepChangesIff(job: Job, pc: Pc, s: Session, move: Move)
    requires JobOk(job, At(pc, s)) && Terminal(job.row.status) && ProcessorStep(job, pc, s, move).Some?
    ensures var after := ProcessorStep(job, pc, s, move).value.job;
      && job.row.status == JobCancelled
      && (after.row.status != job.row.status <==> !job.seen && (move.Raise? || (move.Go? && pc.AtFinish?)))
      && (after.row.status != job.row.status ==> after.row.status == if move.Raise? then JobFailed else Completed)
  {
    hide ReportOk, WithinMark, BenchmarkExit, Changes, MayReport;
  }

  /** Main result: exactly two things change a finished job's status. A late cancel makes a completed or failed job
      cancelled, and the processor's last commit makes a cancelled one that it has not read completed or failed. */
  lemma FinishedStatusChangesIff(actions: seq<Action>, a: Action, id: nat)
    requires Run(actions).Some? && id < |Run(actions).value.jobs| && Next(Run(actions).value, a).Some?
    requires Terminal(Run(actions).value.jobs[id].row.status)
    ensures var s, t := Run(actions).value, Next(Run(actions).value, a).value;
      && id < |t.jobs|
      && (t.jobs[id].row.status != s.jobs[id].row.status <==> CancelsLate(s, a, id) || OverwritesCancel(s, a, id))
      && (CancelsLate(s, a, id) ==> t.jobs[id].row == GONE)
      && (OverwritesCancel(s, a, id) ==> t.jobs[id].row.status == if a.move.Raise? then JobFailed else Completed)
  {
    var s := Run(actions).value;
    var job := s.jobs[id];
    JobHolds(actions, id);
    RunKeepsInv(actions);
    hide Run;
    if a.CommitCancel? && s.cancels[a.k].id == id {
      CancelKeepsJobOk(job, RoleOf(s.worker, id), s.cancels[a.k].session);
    } else if a.Process? && s.worker.id == id {
      FinishedStepChangesIff(job, s.worker.pc, s.worker.session, a.move);
    }
  }

  // ---- What is saved ----

  /** An executor that keeps its contract can report what it has, as long as the answers it got came from the store. */
  lemma ExecutorsMayReport(e: ExecutorContract.Execution, taskIds: seq<string>, told: bool, result: BenchmarkResult)
    requires ExecutorContract.Reports(e, taskIds, result)
    requires ExecutorContract.Told(e, taskIds, result) ==> told
    ensures MayReport(taskIds, told, result)
  {
    ExecutorContract.ReportsAllUnlessTold(e, taskIds, result);
  }

  /** Main result: in every reachable state every saved result has one result per task of its job, in order, and a
      turn whose benchmark was told to stop is one that was then found cancelled. */
  lemma SavedResultsAreComplete(actions: seq<Action>, id: nat)
    requires Run(actions).Some? && id < |Run(actions).value.jobs|
    ensures var course := Run(actions).value.jobs[id].course;
      && (forall r | r in course.saved :: Complete(r, course.taskIds))
      && |course.told| == |course.turns|
      && (forall i | 0 <= i < |course.turns| && course.turns[i].bench.Returned? && course.told[i] ::
            course.turns[i].cancelledAfterBench)
  {
    JobHolds(actions, id);
    hide Complete;
  }

  /** A benchmark that a cancellation check cut short is never saved: the next check sees the cancel too. */
  lemma CutBenchmarkIsNotSaved(actions: seq<Action>, id: nat, told: bool, r: BenchmarkResult, s: Session, move: Move)
    requires Run(actions).Some? && id < |Run(actions).value.jobs|
    requires RoleOf(Run(actions).value.worker, id) == At(AfterBenchmark(told, r), s)
    requires told || !Complete(r, Run(actions).value.jobs[id].course.taskIds)
    requires ProcessorStep(Run(actions).value.jobs[id], AfterBenchmark(told, r), s, move).Some?
    ensures var job := Run(actions).value.jobs[id];
            var o := ProcessorStep(job, AfterBenchmark(told, r), s, move).value;
      && o.job.work == job.work && o.job.course.saved == job.course.saved
      && (o.next.None? || (o.next.value.0 == AtFinish && o.job.seen))
  {
    JobHolds(actions, id);
    hide Run, Complete, WithinMark;
  }
}
