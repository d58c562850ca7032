/** The account of a run leaves nothing open: two records of which it is true are the same. */
module AccountUniqueness {
  import opened Wrappers
  import opened Benchmark
  import opened RecentAttempts
  import opened RunSpec
  import opened RunTheorems
  import opened Lessons
  import opened RunAccount

  lemma OneLeader(w: World, i: nat, a: nat, b: nat)
    requires Leads(w, i, a) && Leads(w, i, b)
    ensures a == b
  {
    hide ScoreIn;
    assert ScoreIn(w, a) == ScoreIn(w, b);
  }

  /** A turn behind which the run goes on is not one in which it ends. */
  lemma GoesOnOrEnds(c: Config, w: World, n: nat, a: nat, b: nat, status: JobStatus, reason: StopReason,
                     error: Option<string>)
    requires GoesOn(c, w, n, a)
    ensures !Ends(c, w, n, b, status, reason, error)
  {
    if Ends(c, w, n, b, status, reason, error) {
      OneLeader(w, n, a, b);
      hide Leads, TasksIn, TextOf, Exhausted, FullPass;
    }
  }

  lemma UnmeasuredAsksNot(c: Config, w: World, i: nat, b: nat)
    ensures !Measured(w, i) ==> !Asks(c, w, i, b) && !Answered(c, w, i, b)
    ensures !Measured(w, i) ==> !CutInProposal(c, w, i, b) && !ProposalFails(c, w, i, b)
  {
  }

  lemma OneEnd(c: Config, w: World, n: nat, a: nat, b: nat, r: Record, s: Record)
    requires r.reason.Some? && Ends(c, w, n, a, r.status, r.reason.value, r.error)
    requires s.reason.Some? && Ends(c, w, n, b, s.status, s.reason.value, s.error)
    ensures r.status == s.status && r.reason == s.reason && r.error == s.error
    ensures Measured(w, n) ==> a == b
  {
    hide Leads, Exhausted, FullPass, TextOf, Measured;
    if Measured(w, n) {
      OneLeader(w, n, a, b);
    }
    UnmeasuredAsksNot(c, w, n, a);
    UnmeasuredAsksNot(c, w, n, b);
    hide Asks;
  }

  lemma OneRow(c: Config, w: World, k: nat, a: nat, b: nat, row: Iteration, other: Iteration)
    requires RowTold(c, w, k, a, row) && RowTold(c, w, k, b, other) && (Measured(w, k) ==> a == b)
    ensures row.context.Some? <==> other.context.Some?
    ensures row.context.Some? ==> row.context.value.0 == other.context.value.0
    ensures row.(context := None) == other.(context := None)
  {
    UnmeasuredAsksNot(c, w, k, a);
    UnmeasuredAsksNot(c, w, k, b);
    hide Asks, Answered, CutInProposal, ProposalFails, CutInBenchmark, BenchmarkFails, Measured, ScoreIn, TasksIn;
    assert row.error == other.error by {
      assert row.error.Some? ==> row.error.value.CancelledDuringBenchmark? || row.error.value.CancelledDuringProposal?;
      assert other.error.Some? ==>
        other.error.value.CancelledDuringBenchmark? || other.error.value.CancelledDuringProposal?;
    }
    assert row.phase == other.phase by {
      assert row.phase.Done? || row.phase.Proposing? || row.phase.PhaseFailed? || row.phase.RunningBenchmark?;
    }
  }

  /** The same leaders, as far as a leader is of any consequence. */
  predicate SameLeads(w: World, n: nat, leads: seq<nat>, others: seq<nat>) {
    && |leads| == |others| == n + 1
    && (forall i | 0 <= i <= n && (i < n || Measured(w, i)) :: leads[i] == others[i])
  }

  lemma GoesOnLeads(c: Config, w: World, i: nat, b: nat)
    requires GoesOn(c, w, i, b)
    ensures Leads(w, i, b)
  {
  }

  lemma SameLeaders(c: Config, w: World, n: nat, leads: seq<nat>, r: Record, m: nat, others: seq<nat>, s: Record)
    requires ToldAt(c, w, n, leads, r) && ToldAt(c, w, m, others, s)
    ensures n == m && |leads| == |others| == n + 1 && SameLeads(w, n, leads, others)
    ensures r.status == s.status && r.reason == s.reason && r.error == s.error
  {
    hide GoesOn, Ends, RowsTold, VersionsTold, LogTold, CallsTold, AttemptsTold, BestTold, Leads, Measured;
    if n < m {
      GoesOnOrEnds(c, w, n, others[n], leads[n], r.status, r.reason.value, r.error);
    } else if m < n {
      GoesOnOrEnds(c, w, m, leads[m], others[m], s.status, s.reason.value, s.error);
    }
    forall i | 0 <= i < n ensures leads[i] == others[i] {
      GoesOnLeads(c, w, i, leads[i]);
      GoesOnLeads(c, w, i, others[i]);
      OneLeader(w, i, leads[i], others[i]);
    }
    OneEnd(c, w, n, leads[n], others[n], r, s);
  }

  lemma OneAttempt(k: nat, parent: nat, rows: seq<Iteration>, others: seq<Iteration>, versions: seq<AgentVersion>,
                   call: ProposeCall, other: ProposeCall)
    requires k < |rows| == |others| && k < |versions|
    requires AttemptTold(k, parent, rows, versions, call) && AttemptTold(k, parent, others, versions, other)
    requires rows[k].(context := None) == others[k].(context := None)
    requires rows[parent].(context := None) == others[parent].(context := None)
    ensures call.attempt == other.attempt
    ensures rows[k].context.Some? && others[k].context.Some? ==>
              rows[k].context.value.1 == others[k].context.value.1
  {
    hide TellsChanges, Deltas;
  }

  lemma SameVersions(c: Config, w: World, n: nat, leads: seq<nat>, versions: seq<AgentVersion>, others: seq<nat>,
                     otherVersions: seq<AgentVersion>)
    requires SameLeads(w, n, leads, others)
    requires VersionsTold(c, w, n, leads, versions) && VersionsTold(c, w, n, others, otherVersions)
    ensures versions == otherVersions
  {
    hide TextOf, Measured;
    forall v | 0 <= v <= n ensures versions[v] == otherVersions[v] {
    }
  }

  lemma SameLogs(c: Config, w: World, n: nat, leads: seq<nat>, log: seq<Lesson>, others: seq<nat>,
                 otherLog: seq<Lesson>)
    requires SameLeads(w, n, leads, others)
    requires LogTold(c, w, n, leads, log) && LogTold(c, w, n, others, otherLog)
    ensures log == otherLog
  {
    UnmeasuredAsksNot(c, w, n, leads[n]);
    UnmeasuredAsksNot(c, w, n, others[n]);
    hide Answered, Measured;
    assert |log| == |otherLog|;
    forall k | 0 <= k < |log| ensures log[k] == otherLog[k] {
      assert leads[k] == others[k];
    }
  }

  lemma OneCall(c: Config, w: World, k: nat, lead: nat, log: seq<Lesson>, call: ProposeCall, other: ProposeCall)
    requires CallTold(c, w, k, lead, log, call) && CallTold(c, w, k, lead, log, other)
    requires call.attempt == other.attempt
    ensures call == other
  {
    hide ScoreIn, TasksIn, TextOf;
  }

  /** Equal but for what is recorded of attempts. */
  predicate SameButContexts(rows: seq<Iteration>, others: seq<Iteration>) {
    && |rows| == |others|
    && forall k | 0 <= k < |rows| :: rows[k].(context := None) == others[k].(context := None)
  }

  lemma SameRowsButContexts(c: Config, w: World, n: nat, leads: seq<nat>, rows: seq<Iteration>, others: seq<nat>,
                            otherRows: seq<Iteration>)
    requires SameLeads(w, n, leads, others)
    requires RowsTold(c, w, n, leads, rows) && RowsTold(c, w, n, others, otherRows)
    ensures SameButContexts(rows, otherRows)
  {
    hide RowTold, Measured;
    forall k | 0 <= k < |rows| ensures rows[k].(context := None) == otherRows[k].(context := None) {
      OneRow(c, w, k, leads[k], others[k], rows[k], otherRows[k]);
    }
  }

  lemma FirstCallHasNoAttempt(c: Config, w: World, lead: nat, log: seq<Lesson>, call: ProposeCall)
    requires CallTold(c, w, 0, lead, log, call)
    ensures call.attempt == None
  {
  }

  lemma SameCall(c: Config, w: World, k: nat, lead: nat, parent: nat, r: Record, s: Record)
    requires k < |r.calls| == |s.calls| && r.learnings == s.learnings && r.versions == s.versions
    requires CallTold(c, w, k, lead, r.learnings, r.calls[k]) && CallTold(c, w, k, lead, s.learnings, s.calls[k])
    requires SameButContexts(r.rows, s.rows)
    requires k > 0 ==> k < |r.rows| && k < |r.versions| && AttemptTold(k, parent, r.rows, r.versions, r.calls[k])
                       && AttemptTold(k, parent, s.rows, s.versions, s.calls[k])
    ensures r.calls[k] == s.calls[k]
    ensures k > 0 && r.rows[k].context.Some? && s.rows[k].context.Some? ==>
              r.rows[k].context.value.1 == s.rows[k].context.value.1
  {
    hide CallTold, Pairs;
    if k > 0 {
      OneAttempt(k, parent, r.rows, s.rows, r.versions, r.calls[k], s.calls[k]);
    } else {
      FirstCallHasNoAttempt(c, w, lead, r.learnings, r.calls[0]);
      FirstCallHasNoAttempt(c, w, lead, s.learnings, s.calls[0]);
    }
    OneCall(c, w, k, lead, r.learnings, r.calls[k], s.calls[k]);
  }

  lemma ToldOfCall(c: Config, w: World, n: nat, leads: seq<nat>, r: Record, k: nat)
    requires |leads| == n + 1 && CallsTold(c, w, n, leads, r.learnings, r.calls)
    requires AttemptsTold(n, leads, r.rows, r.versions, r.calls) && k < |r.calls|
    ensures k <= n && (k == n ==> Asks(c, w, n, leads[n])) && CallTold(c, w, k, leads[k], r.learnings, r.calls[k])
    ensures k < |r.rows| && k < |r.versions|
    ensures k > 0 ==> AttemptTold(k, leads[k - 1], r.rows, r.versions, r.calls[k])
  {
    hide CallTold, AttemptTold, Asks;
  }

  lemma CallCounts(c: Config, w: World, n: nat, leads: seq<nat>, r: Record, others: seq<nat>, s: Record)
    requires SameLeads(w, n, leads, others)
    requires CallsTold(c, w, n, leads, r.learnings, r.calls) && CallsTold(c, w, n, others, s.learnings, s.calls)
    ensures |r.calls| == |s.calls|
  {
    UnmeasuredAsksNot(c, w, n, leads[n]);
    UnmeasuredAsksNot(c, w, n, others[n]);
    hide CallTold, Asks, Measured;
  }

  lemma LeadsAgree(c: Config, w: World, n: nat, leads: seq<nat>, others: seq<nat>, i: nat)
    requires SameLeads(w, n, leads, others) && i <= n && (i == n ==> Asks(c, w, n, leads[n]))
    ensures leads[i] == others[i]
  {
  }

  lemma SameCalls(c: Config, w: World, n: nat, leads: seq<nat>, r: Record, others: seq<nat>, s: Record)
    requires |leads| == |others| == n + 1
    requires SameLeads(w, n, leads, others) && r.learnings == s.learnings && r.versions == s.versions
    requires CallsTold(c, w, n, leads, r.learnings, r.calls) && CallsTold(c, w, n, others, s.learnings, s.calls)
    requires AttemptsTold(n, leads, r.rows, r.versions, r.calls) && AttemptsTold(n, others, s.rows, s.versions, s.calls)
    requires SameButContexts(r.rows, s.rows)
    ensures r.calls == s.calls && |r.calls| <= |r.rows| && |s.calls| <= |s.rows|
    ensures forall k | 0 < k < |r.calls| && r.rows[k].context.Some? && s.rows[k].context.Some? ::
              r.rows[k].context.value.1 == s.rows[k].context.value.1
  {
    hide *;
    CallCounts(c, w, n, leads, r, others, s);
    if |r.calls| > 0 {
      ToldOfCall(c, w, n, leads, r, |r.calls| - 1);
      ToldOfCall(c, w, n, others, s, |r.calls| - 1);
    }
    forall k | 0 <= k < |r.calls|
      ensures r.calls[k] == s.calls[k]
      ensures k > 0 && r.rows[k].context.Some? && s.rows[k].context.Some? ==>
                r.rows[k].context.value.1 == s.rows[k].context.value.1
    {
      ToldOfCall(c, w, n, leads, r, k);
      ToldOfCall(c, w, n, others, s, k);
      LeadsAgree(c, w, n, leads, others, k);
      if k > 0 {
        LeadsAgree(c, w, n, leads, others, k - 1);
      }
      SameCall(c, w, k, leads[k], if k > 0 then leads[k - 1] else 0, r, s);
    }
  }

  lemma RowContext(c: Config, w: World, n: nat, leads: seq<nat>, r: Record, k: nat)
    requires |leads| == n + 1 && RowsTold(c, w, n, leads, r.rows) && k < |r.rows|
    requires CallsTold(c, w, n, leads, r.learnings, r.calls)
    ensures k <= n && RowTold(c, w, k, leads[k], r.rows[k])
    ensures r.rows[k].context.Some? ==> && Measured(w, k) && r.rows[k].context.value.0 == leads[k]
                                        && (k == 0 ==> r.rows[k].context.value.1 == None)
    ensures r.rows[k].context.Some? && k == n ==> k < |r.calls|
  {
    AnsweredAsks(c, w, k, leads[k]);
    hide Answered, Asks, Measured, CallTold, ResultTold, BenchmarkFails, CutInBenchmark, CutInProposal, ProposalFails;
  }

  lemma SameRows(c: Config, w: World, n: nat, leads: seq<nat>, r: Record, others: seq<nat>, s: Record)
    requires |leads| == |others| == n + 1 && SameLeads(w, n, leads, others) && SameButContexts(r.rows, s.rows)
    requires RowsTold(c, w, n, leads, r.rows) && RowsTold(c, w, n, others, s.rows)
    requires CallsTold(c, w, n, leads, r.learnings, r.calls) && CallsTold(c, w, n, others, s.learnings, s.calls)
    requires n <= |r.calls| <= |r.rows| && |r.calls| <= |s.rows|
    requires forall k | 0 < k < |r.calls| && r.rows[k].context.Some? && s.rows[k].context.Some? ::
               r.rows[k].context.value.1 == s.rows[k].context.value.1
    ensures r.rows == s.rows
  {
    hide RowsTold, CallsTold, RowTold, Measured;
    forall k | 0 <= k < |r.rows| ensures r.rows[k] == s.rows[k] {
      RowContext(c, w, n, leads, r, k);
      RowContext(c, w, n, others, s, k);
      OneRow(c, w, k, leads[k], others[k], r.rows[k], s.rows[k]);
    }
  }

  lemma SameBest(w: World, n: nat, leads: seq<nat>, r: Record, others: seq<nat>, s: Record)
    requires SameLeads(w, n, leads, others)
    requires BestTold(w, n, leads, r.best, r.bestScore) && BestTold(w, n, others, s.best, s.bestScore)
    ensures r.best == s.best && r.bestScore == s.bestScore
  {
    hide Measured, ScoreIn;
  }

  lemma CallsOfTurns(c: Config, w: World, n: nat, leads: seq<nat>, r: Record)
    requires |leads| == n + 1 && CallsTold(c, w, n, leads, r.learnings, r.calls)
    ensures n <= |r.calls| <= n + 1
  {
  }

  /** Main result: the account leaves nothing open. Two records of which it is true, on the same turns, are the same. */
  lemma AccountIsComplete(c: Config, w: World, r: Record, s: Record)
    requires Told(c, w, r) && Told(c, w, s)
    ensures r == s
  {
    hide CourseTold, BestTold, RowsTold, VersionsTold, LogTold, CallsTold, AttemptsTold, SameLeads, SameButContexts;
    var n: nat, leads: seq<nat> :| ToldAt(c, w, n, leads, r);
    var m: nat, others: seq<nat> :| ToldAt(c, w, m, others, s);
    SameLeaders(c, w, n, leads, r, m, others, s);
    SameBest(w, n, leads, r, others, s);
    SameVersions(c, w, n, leads, r.versions, others, s.versions);
    SameLogs(c, w, n, leads, r.learnings, others, s.learnings);
    SameRowsButContexts(c, w, n, leads, r.rows, others, s.rows);
    SameCalls(c, w, n, leads, r, others, s);
    assert n <= |r.calls| by {
      CallsOfTurns(c, w, n, leads, r);
    }
    SameRows(c, w, n, leads, r, others, s);
  }

  /** So it is the record of RunSpec that it describes, and no other. */
  lemma AccountIsTheRun(c: Config, w: World, r: Record)
    ensures Told(c, w, r) <==> r == RecordOf(c, w)
  {
    hide *;
    RunIsTold(c, w);
    if Told(c, w, r) {
      AccountIsComplete(c, w, r, RecordOf(c, w));
    }
  }
}
