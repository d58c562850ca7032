/** The offline configuration: heuristic optimizer on simulated benchmark. */
module OfflineRun {
  import opened Wrappers
  import opened Benchmark
  import opened Substrings
  import opened RunSpec
  import opened RunPrefixes
  import RunTheorems
  import HeuristicEdits
  import SimulatedExecutor
  import ExecutorContract
  import RunResults

  /** Every turn of the run has an uncut simulated benchmark of the iteration's version, and a heuristic
      proposal made from the best version. */
  predicate Offline(c: Config, w: World, stable: string -> bool, taskIds: seq<string>) {
    && |w| > c.maxIterations
    && forall i | 0 <= i < |w| ::
         && w[i].bench == Returned(SimulatedExecutor.Result(stable, taskIds, Content(c, w, i)))
         && w[i].propose.Returned?
         && w[i].propose.value.content == HeuristicEdits.Edited(Content(c, w, Best(w, i)))
  }

  lemma OfflineTurn(c: Config, w: World, stable: string -> bool, taskIds: seq<string>, i: nat)
    requires Offline(c, w, stable, taskIds) && i < |w|
    ensures Result(w, i) == SimulatedExecutor.Result(stable, taskIds, Content(c, w, i))
    ensures i > 0 ==> Content(c, w, i) == HeuristicEdits.Edited(Content(c, w, Best(w, i - 1)))
  {
    hide SimulatedExecutor.Result, HeuristicEdits.Edited;
    assert w[i].bench.Returned?;
    if i > 0 {
      assert w[i - 1].propose.Returned?;
    }
  }

  /** All proposals score the same, and not below the template. */
  lemma ProposalsScoreAlike(c: Config, w: World, stable: string -> bool, taskIds: seq<string>, i: nat)
    requires Offline(c, w, stable, taskIds) && 1 <= i < |w|
    ensures Score(w, i) == Score(w, 1) && Score(w, 0) <= Score(w, 1)
  {
    hide SimulatedExecutor.Result, HeuristicEdits.Edited, Offline, Content, Best;
    OfflineTurn(c, w, stable, taskIds, 0);
    OfflineTurn(c, w, stable, taskIds, 1);
    OfflineTurn(c, w, stable, taskIds, i);
    SimulatedExecutor.EditsScoreAlike(stable, taskIds, Content(c, w, Best(w, i - 1)), Content(c, w, Best(w, 0)));
    SimulatedExecutor.EditNeverLowersScore(stable, taskIds, Content(c, w, Best(w, 0)), Content(c, w, 0));
  }

  lemma {:induction false} BestIsZeroOrOne(c: Config, w: World, stable: string -> bool, taskIds: seq<string>, i: nat)
    requires Offline(c, w, stable, taskIds) && i < |w|
    ensures Best(w, i) <= 1
    ensures i >= 1 ==> (Best(w, i) == 1 <==> Score(w, 0) < Score(w, 1))
  {
    hide Offline, Score;
    if i > 0 {
      BestIsZeroOrOne(c, w, stable, taskIds, i - 1);
      ProposalsScoreAlike(c, w, stable, taskIds, i);
    }
  }

  lemma OfflineIsLong(c: Config, w: World, stable: string -> bool, taskIds: seq<string>)
    requires Offline(c, w, stable, taskIds)
    ensures |w| > c.maxIterations
  {
  }

  /** Offline, only the first proposal can be accepted, and the run ends at most one iteration after its
      patience. */
  lemma OfflineRunIsShort(c: Config, w: World, stable: string -> bool, taskIds: seq<string>)
    requires Offline(c, w, stable, taskIds) && c.patience >= 1
    ensures End(c, w) <= c.patience + 1
    ensures FinalBest(c, w).Some? ==> FinalBest(c, w).value <= 1
  {
    hide Offline, FinalExit;
    var e := End(c, w);
    OfflineIsLong(c, w, stable, taskIds);
    BestIsZeroOrOne(c, w, stable, taskIds, e);
    if e > 0 {
      BestIsZeroOrOne(c, w, stable, taskIds, e - 1);
      RunTheorems.ReachesSurvivesOrIs(c, w, e);
      RunTheorems.SurvivorIsPatient(c, w, e - 1);
    }
  }

  /** When the template carries the verification phrase and the first proposal helps, there is nothing left to
      propose: the run ends in iteration 1 at the latest. */
  lemma PhraseEndsRunAtOne(c: Config, w: World, stable: string -> bool, taskIds: seq<string>)
    requires Offline(c, w, stable, taskIds)
    requires Contains(Lower(c.template), HeuristicEdits.VERIFY_PHRASE)
    requires c.maxIterations >= 1 && Score(w, 0) < Score(w, 1)
    ensures End(c, w) <= 1
  {
    hide HeuristicEdits.Edited, SimulatedExecutor.Result;
    HeuristicEdits.EditIsIdempotentIff(c.template);
    assert w[0].propose.Returned? && w[1].propose.Returned?;
    assert Content(c, w, 1) == HeuristicEdits.Edited(c.template);
    assert Best(w, 1) == 1;
    assert ExitAt(c, w, 1).Some?;
    if End(c, w) > 1 {
      ReachesSurvives(c, w, End(c, w), 1);
    }
  }

  // ---- Exactly where the run ends ----

  /** Nobody cancels the job. */
  predicate Uncancelled(w: World) {
    forall i | 0 <= i < |w| :: !w[i].cancelledBefore && !w[i].cancelledAfterBench && !w[i].cancelledAfterProposal
  }

  /** Whether the first edit raises the score of the template. */
  predicate Gains(template: string, stable: string -> bool, taskIds: seq<string>) {
    SimulatedExecutor.Result(stable, taskIds, template).valScore
    < SimulatedExecutor.Result(stable, taskIds, HeuristicEdits.Edited(template)).valScore
  }

  /** What decides an offline run: whether the template passes everything, whether its edit changes it, gains, passes
      everything, and is settled by the phrase. */
  datatype Outlook = Outlook(passes: bool, changes: bool, gains: bool, editPasses: bool, phrase: bool)

  function OutlookOf(template: string, stable: string -> bool, taskIds: seq<string>): Outlook {
    var edited := HeuristicEdits.Edited(template);
    Outlook(SimulatedExecutor.Result(stable, taskIds, template).AllPassed(), edited != template,
            Gains(template, stable, taskIds), SimulatedExecutor.Result(stable, taskIds, edited).AllPassed(),
            Contains(Lower(template), HeuristicEdits.VERIFY_PHRASE))
  }

  /** Where an offline run ends. */
  function OfflineEnd(o: Outlook, maxIterations: nat, patience: nat): nat {
    if o.passes || !o.changes then 0
    else if !o.gains then Min(maxIterations, patience)
    else if o.editPasses || o.phrase then Min(maxIterations, 1)
    else Min(maxIterations, patience + 1)
  }

  /** Whether iteration `i` ends it. */
  predicate StopsAt(o: Outlook, maxIterations: nat, patience: nat, i: nat) {
    var edited := i > 0 && o.gains;
    || (i > 0 && i - (if edited then 1 else 0) >= patience)
    || (if i == 0 then o.passes else o.editPasses)
    || i >= maxIterations
    || (if edited then o.phrase else !o.changes)
  }

  lemma FirstStop(o: Outlook, maxIterations: nat, patience: nat, i: nat)
    requires patience >= 1 && i <= OfflineEnd(o, maxIterations, patience)
    requires o.editPasses && !o.passes ==> o.gains
    ensures i <= maxIterations
    ensures StopsAt(o, maxIterations, patience, i) <==> i == OfflineEnd(o, maxIterations, patience)
  {
  }

  /** What iteration `i` can end with in such a run. */
  lemma OfflineExit(c: Config, w: World, stable: string -> bool, taskIds: seq<string>, i: nat)
    requires Offline(c, w, stable, taskIds) && Uncancelled(w) && i < |w|
    ensures ExitAt(c, w, i)
         == if i > 0 && i - Best(w, i) >= c.patience then Some(OutOfPatience)
            else if Result(w, i).AllPassed() then Some(EverythingPassed)
            else if i >= c.maxIterations then Some(OutOfIterations)
            else
              var text := Content(c, w, Best(w, i));
              if HeuristicEdits.Edited(text) == text then Some(ProposalUnchanged) else None
  {
    hide SimulatedExecutor.Result, HeuristicEdits.Edited, Content, Best;
    assert w[i].bench.Returned? && w[i].propose.Returned?;
  }

  /** The results of the template and of every later version. */
  lemma OfflineResults(c: Config, w: World, stable: string -> bool, taskIds: seq<string>, i: nat)
    requires Offline(c, w, stable, taskIds) && i < |w|
    ensures Result(w, i) == SimulatedExecutor.Result(stable, taskIds,
                              if i == 0 then c.template else HeuristicEdits.Edited(c.template))
  {
    OfflineTurn(c, w, stable, taskIds, i);
    if i > 0 {
      SimulatedExecutor.EditsScoreAlike(stable, taskIds, Content(c, w, Best(w, i - 1)), c.template);
    }
    hide SimulatedExecutor.Result, HeuristicEdits.Edited, Best;
  }

  /** The best version is the template until an edit gains, and the first edit from then on. */
  lemma OfflineBest(c: Config, w: World, stable: string -> bool, taskIds: seq<string>, i: nat)
    requires Offline(c, w, stable, taskIds) && i < |w|
    ensures Best(w, i) == if i > 0 && Gains(c.template, stable, taskIds) then 1 else 0
    ensures Content(c, w, Best(w, i))
         == if i > 0 && Gains(c.template, stable, taskIds) then HeuristicEdits.Edited(c.template) else c.template
  {
    OfflineResults(c, w, stable, taskIds, 0);
    BestIsZeroOrOne(c, w, stable, taskIds, i);
    if i > 0 {
      OfflineResults(c, w, stable, taskIds, 1);
      OfflineTurn(c, w, stable, taskIds, 1);
    }
    hide SimulatedExecutor.Result, HeuristicEdits.Edited, Offline;
  }

  /** A full pass of the edited agent that the template misses is a gain. */
  lemma FullPassGains(template: string, stable: string -> bool, taskIds: seq<string>)
    requires !SimulatedExecutor.Result(stable, taskIds, template).AllPassed()
    requires SimulatedExecutor.Result(stable, taskIds, HeuristicEdits.Edited(template)).AllPassed()
    ensures Gains(template, stable, taskIds)
  {
    var edited := HeuristicEdits.Edited(template);
    SimulatedExecutor.ResultIsBinary(stable, taskIds, template);
    SimulatedExecutor.ResultIsBinary(stable, taskIds, edited);
    BinaryAllPassed(SimulatedExecutor.Result(stable, taskIds, template), |taskIds|);
    BinaryAllPassed(SimulatedExecutor.Result(stable, taskIds, edited), |taskIds|);
    SimulatedExecutor.EditNeverLowersScore(stable, taskIds, template, template);
    hide SimulatedExecutor.Result, HeuristicEdits.Edited;
  }

  /** Iteration `i` of the run ends it or not, as the outlook says. */
  lemma OfflineStops(c: Config, w: World, stable: string -> bool, taskIds: seq<string>, i: nat)
    requires Offline(c, w, stable, taskIds) && Uncancelled(w) && i < |w|
    ensures ExitAt(c, w, i).Some?
       <==> StopsAt(OutlookOf(c.template, stable, taskIds), c.maxIterations, c.patience, i)
  {
    OfflineExit(c, w, stable, taskIds, i);
    OfflineResults(c, w, stable, taskIds, i);
    OfflineBest(c, w, stable, taskIds, i);
    HeuristicEdits.EditIsIdempotentIff(c.template);
    hide SimulatedExecutor.Result, HeuristicEdits.Edited, Gains, Offline, Uncancelled, ExitAt, Best, Content, Contains;
  }

  lemma EditPassGains(template: string, stable: string -> bool, taskIds: seq<string>)
    ensures var o := OutlookOf(template, stable, taskIds); o.editPasses && !o.passes ==> o.gains
  {
    if !SimulatedExecutor.Result(stable, taskIds, template).AllPassed()
       && SimulatedExecutor.Result(stable, taskIds, HeuristicEdits.Edited(template)).AllPassed() {
      FullPassGains(template, stable, taskIds);
    }
    hide SimulatedExecutor.Result, HeuristicEdits.Edited, Gains, Contains;
  }

  /** The first iteration that ends the run is the one the outlook names. */
  lemma OfflineStopsFirst(c: Config, w: World, stable: string -> bool, taskIds: seq<string>, i: nat)
    requires Offline(c, w, stable, taskIds) && Uncancelled(w) && c.patience >= 1
    requires i <= OfflineEnd(OutlookOf(c.template, stable, taskIds), c.maxIterations, c.patience)
    ensures ExitAt(c, w, i).Some?
       <==> i == OfflineEnd(OutlookOf(c.template, stable, taskIds), c.maxIterations, c.patience)
  {
    OfflineIsLong(c, w, stable, taskIds);
    EditPassGains(c.template, stable, taskIds);
    hide *;
    FirstStop(OutlookOf(c.template, stable, taskIds), c.maxIterations, c.patience, i);
    OfflineStops(c, w, stable, taskIds, i);
  }

  /** Main result: an uncancelled offline run ends exactly where its settings say. */
  lemma OfflineEndIs(c: Config, w: World, stable: string -> bool, taskIds: seq<string>)
    requires Offline(c, w, stable, taskIds) && Uncancelled(w) && c.patience >= 1
    ensures End(c, w) == OfflineEnd(OutlookOf(c.template, stable, taskIds), c.maxIterations, c.patience)
  {
    var n := OfflineEnd(OutlookOf(c.template, stable, taskIds), c.maxIterations, c.patience);
    hide *;
    forall i | 0 <= i < n ensures ExitAt(c, w, i).None? {
      OfflineStopsFirst(c, w, stable, taskIds, i);
    }
    ReachesFirst(c, w, n);
    OfflineStopsFirst(c, w, stable, taskIds, n);
    EndIs(c, w, n);
  }

  // ---- Such runs exist ----

  /** The first `n` turns of the offline run. */
  function Turns(c: Config, stable: string -> bool, taskIds: seq<string>, n: nat): (w: World)
    ensures |w| == n
  {
    if n == 0 then []
    else
      var v, i := Turns(c, stable, taskIds, n - 1), n - 1;
      var result := SimulatedExecutor.Result(stable, taskIds, Content(c, v, i));
      var half := v + [BenchmarkTurn(Returned(result), false)];
      var edited := HeuristicEdits.Edited(Content(c, half, Best(half, i)));
      v + [FullTurn(result, Returned(Proposal(edited, "", "")), false)]
  }

  /** The text of a version depends on the proposals before it only. */
  lemma ContentUpTo(c: Config, v: World, w: World, i: nat, version: nat)
    requires i <= |v| && i <= |w| && v[..i] == w[..i] && version <= i
    ensures Content(c, v, version) == Content(c, w, version)
  {
    if version > 0 {
      assert v[version - 1] == v[..i][version - 1] == w[..i][version - 1] == w[version - 1];
    }
  }

  lemma LastTurn(c: Config, stable: string -> bool, taskIds: seq<string>, n: nat)
    requires n > 0
    ensures var w := Turns(c, stable, taskIds, n); var i := n - 1;
      && w[..i] == Turns(c, stable, taskIds, i)
      && w[i].bench == Returned(SimulatedExecutor.Result(stable, taskIds, Content(c, w, i)))
      && w[i].propose.Returned?
      && w[i].propose.value.content == HeuristicEdits.Edited(Content(c, w, Best(w, i)))
  {
    hide SimulatedExecutor.Result, HeuristicEdits.Edited, Best, Content;
    var w, v, i := Turns(c, stable, taskIds, n), Turns(c, stable, taskIds, n - 1), n - 1;
    var half := v + [BenchmarkTurn(w[i].bench, false)];
    ContentOfPrefix(c, v, w, i);
    BestOfPrefix(half, w, i);
    ContentUpTo(c, half, w, i, Best(w, i));
  }

  lemma {:induction false} TurnsAreOffline(c: Config, stable: string -> bool, taskIds: seq<string>, n: nat, i: nat)
    requires i < n
    ensures var w := Turns(c, stable, taskIds, n);
      && w[i].bench == Returned(SimulatedExecutor.Result(stable, taskIds, Content(c, w, i)))
      && w[i].propose.Returned?
      && w[i].propose.value.content == HeuristicEdits.Edited(Content(c, w, Best(w, i)))
  {
    hide *;
    LastTurn(c, stable, taskIds, n);
    if i < n - 1 {
      var v, w := Turns(c, stable, taskIds, n - 1), Turns(c, stable, taskIds, n);
      assert v <= w;
      TurnsAreOffline(c, stable, taskIds, n - 1, i);
      DecisionsOfPrefix(c, v, w, i);
    }
  }

  /** For every setting, template and list of tasks there is an offline run. */
  lemma OfflineRunsExist(c: Config, stable: string -> bool, taskIds: seq<string>)
    ensures Offline(c, Turns(c, stable, taskIds, c.maxIterations + 1), stable, taskIds)
  {
    hide SimulatedExecutor.Result, HeuristicEdits.Edited, Best, Content, Turns;
    var n := c.maxIterations + 1;
    forall i | 0 <= i < n
      ensures var w := Turns(c, stable, taskIds, n);
        && w[i].bench == Returned(SimulatedExecutor.Result(stable, taskIds, Content(c, w, i)))
        && w[i].propose.Returned?
        && w[i].propose.value.content == HeuristicEdits.Edited(Content(c, w, Best(w, i)))
    {
      TurnsAreOffline(c, stable, taskIds, n, i);
    }
  }

  lemma UncutReport(stable: string -> bool, taskIds: seq<string>, agent: string)
    ensures var e := ExecutorContract.Simulated(stable, agent, _ => false);
            var result := SimulatedExecutor.Result(stable, taskIds, agent);
            ExecutorContract.Reports(e, taskIds, result) && !ExecutorContract.Told(e, taskIds, result)
  {
    var tasks := SimulatedExecutor.Result(stable, taskIds, agent).tasks;
    assert tasks[..|tasks|] == tasks;
  }

  /** Their benchmarks keep the simulated executor's contract, and no check in them answers yes: what
      `RunResults.SavedResultsAreComplete` asks of a run is met by all of them. */
  lemma OfflineRunsAreExecuted(c: Config, w: World, stable: string -> bool, taskIds: seq<string>)
    returns (executions: seq<ExecutorContract.Execution>)
    requires Offline(c, w, stable, taskIds)
    ensures RunResults.ExecutedBy(w, taskIds, executions) && RunResults.CancelsStick(w, taskIds, executions)
  {
    executions := seq(|w|, i requires 0 <= i < |w| => ExecutorContract.Simulated(stable, Content(c, w, i), _ => false));
    forall i | 0 <= i < |w|
      ensures w[i].bench.Returned? && ExecutorContract.Reports(executions[i], taskIds, w[i].bench.value)
              && !ExecutorContract.Told(executions[i], taskIds, w[i].bench.value)
    {
      UncutReport(stable, taskIds, Content(c, w, i));
    }
    hide SimulatedExecutor.Result, ExecutorContract.Reports, ExecutorContract.Told, Content, Offline;
  }

  lemma {:induction false} NobodyCancelsTurns(c: Config, stable: string -> bool, taskIds: seq<string>, n: nat)
    ensures Uncancelled(Turns(c, stable, taskIds, n))
  {
    hide SimulatedExecutor.Result, HeuristicEdits.Edited, Best, Content;
    if n > 0 {
      NobodyCancelsTurns(c, stable, taskIds, n - 1);
    }
  }

  // A small agent file that carries the verification phrase in its docstring: one class `HarnessAgent` with a method
  // `name` and an asynchronous method `run`.

  const CLASS_LINE := "\"\"\"\nclass HarnessAgent:\n"
  const NAME_METHOD := "  def name(self): 0\n"
  const RUN_METHOD := "  async def run(self): 0\n"
  const SMALL_AGENT := HeuristicEdits.QUOTES + HeuristicEdits.VERIFY_PHRASE + (CLASS_LINE + (NAME_METHOD + RUN_METHOD))

  /** No hyphen and no letter k. */
  predicate Plain(text: string) { '-' !in text && 'k' !in text }

  lemma PlainLower(text: string)
    requires Plain(text) && 'K' !in text
    ensures Plain(Lower(text))
  {
  }

  lemma PlainJoin(a: string, b: string)
    requires Plain(Lower(a)) && Plain(Lower(b))
    ensures Plain(Lower(a + b))
  {
    assert Lower(a + b) == Lower(a) + Lower(b);
  }

  lemma QuotesArePlain()
    ensures Plain(Lower(HeuristicEdits.QUOTES))
  {
    PlainLower(HeuristicEdits.QUOTES);
  }

  lemma PhraseIsPlain()
    ensures Plain(Lower(HeuristicEdits.VERIFY_PHRASE))
  {
    PlainLower(HeuristicEdits.VERIFY_PHRASE);
  }

  lemma PhraseIsLower()
    ensures Lower(HeuristicEdits.VERIFY_PHRASE) == HeuristicEdits.VERIFY_PHRASE
  {
  }

  lemma ClassLineIsPlain()
    ensures Plain(Lower(CLASS_LINE))
  {
    PlainLower(CLASS_LINE);
  }

  lemma NameMethodIsPlain()
    ensures Plain(Lower(NAME_METHOD))
  {
    PlainLower(NAME_METHOD);
  }

  lemma RunMethodIsPlain()
    ensures Plain(Lower(RUN_METHOD))
  {
    PlainLower(RUN_METHOD);
  }

  lemma PlainEarnsNoModeBoost(text: string)
    requires Plain(text)
    ensures !SimulatedExecutor.ModeBoost(text)
  {
    assert "non-interactive"[3] == '-' && "do not ask"[9] == 'k';
    ForeignCharacterExcludes(text, "non-interactive", '-');
    ForeignCharacterExcludes(text, "do not ask", 'k');
  }

  lemma BoostsWithoutMode(agent: string)
    requires !SimulatedExecutor.ModeBoost(Lower(agent))
    ensures SimulatedExecutor.Boosts(agent) <= 2
  {
    hide SimulatedExecutor.ModeBoost, SimulatedExecutor.PlanBoost, SimulatedExecutor.VerifyBoost;
  }

  lemma SmallAgentCarriesPhrase()
    ensures Contains(Lower(SMALL_AGENT), HeuristicEdits.VERIFY_PHRASE)
  {
    var phrase, rest := HeuristicEdits.VERIFY_PHRASE, CLASS_LINE + (NAME_METHOD + RUN_METHOD);
    PhraseIsLower();
    hide Contains, Lower;
    MiddleOccurs(HeuristicEdits.QUOTES, phrase, rest);
    LowerKeepsPattern(SMALL_AGENT, phrase);
  }

  lemma SmallAgentHasRoom()
    ensures SimulatedExecutor.Boosts(SMALL_AGENT) <= 2
  {
    var quotes, phrase := HeuristicEdits.QUOTES, HeuristicEdits.VERIFY_PHRASE;
    QuotesArePlain();
    PhraseIsPlain();
    ClassLineIsPlain();
    NameMethodIsPlain();
    RunMethodIsPlain();
    hide Lower, Plain, SimulatedExecutor.Boosts;
    PlainJoin(quotes, phrase);
    PlainJoin(NAME_METHOD, RUN_METHOD);
    PlainJoin(CLASS_LINE, NAME_METHOD + RUN_METHOD);
    PlainJoin(quotes + phrase, CLASS_LINE + (NAME_METHOD + RUN_METHOD));
    PlainEarnsNoModeBoost(Lower(SMALL_AGENT));
    BoostsWithoutMode(SMALL_AGENT);
  }

  const FOUR := ["a", "b", "c", "d"]

  lemma FourUnluckyTasks(boosts: nat)
    requires boosts <= 3
    ensures var tasks := SimulatedExecutor.Outcomes(_ => false, boosts, FOUR);
            MeanReward(tasks) == boosts as real / 4.0 && tasks[3].status.Failed?
  {
    var tasks := SimulatedExecutor.Outcomes(_ => false, boosts, FOUR);
    assert tasks[..3][..2] == tasks[..2] && tasks[..2][..1] == tasks[..1] && tasks[..1][..0] == [];
    assert TotalReward(tasks[..1]) == RewardOrZero(tasks[0]);
    assert TotalReward(tasks[..2]) == TotalReward(tasks[..1]) + RewardOrZero(tasks[1]);
    assert TotalReward(tasks[..3]) == TotalReward(tasks[..2]) + RewardOrZero(tasks[2]);
    assert TotalReward(tasks) == TotalReward(tasks[..3]) + RewardOrZero(tasks[3]);
  }

  lemma SmallAgentGains()
    ensures Gains(SMALL_AGENT, _ => false, FOUR)
    ensures !SimulatedExecutor.Result(_ => false, FOUR, HeuristicEdits.Edited(SMALL_AGENT)).AllPassed()
    ensures !SimulatedExecutor.Result(_ => false, FOUR, SMALL_AGENT).AllPassed()
  {
    SmallAgentHasRoom();
    SimulatedExecutor.EditEarnsEveryBoost(SMALL_AGENT);
    FourUnluckyTasks(SimulatedExecutor.Boosts(SMALL_AGENT));
    FourUnluckyTasks(3);
    hide HeuristicEdits.Edited, SimulatedExecutor.Boosts, SimulatedExecutor.Outcomes, MeanReward;
  }

  /** A run that the phrase ends in iteration 1, with no task list exhausted and neither limit reached: four unlucky
      tasks, and any settings that allow more. */
  lemma PhraseRunExists(maxIterations: nat, patience: nat) returns (c: Config, w: World)
    requires maxIterations >= 2 && patience >= 1
    ensures c == Config(SMALL_AGENT, maxIterations, patience) && Offline(c, w, _ => false, FOUR) && Uncancelled(w)
    ensures Contains(Lower(c.template), HeuristicEdits.VERIFY_PHRASE) && Score(w, 0) < Score(w, 1)
    ensures End(c, w) == 1 && !Result(w, 1).AllPassed() && FinalExit(c, w) == ProposalUnchanged
  {
    c := Config(SMALL_AGENT, maxIterations, patience);
    w := Turns(c, _ => false, FOUR, maxIterations + 1);
    OfflineRunsExist(c, _ => false, FOUR);
    NobodyCancelsTurns(c, _ => false, FOUR, maxIterations + 1);
    SmallAgentCarriesPhrase();
    SmallAgentGains();
    OfflineResults(c, w, _ => false, FOUR, 0);
    OfflineResults(c, w, _ => false, FOUR, 1);
    OfflineBest(c, w, _ => false, FOUR, 1);
    OfflineExit(c, w, _ => false, FOUR, 1);
    HeuristicEdits.EditIsIdempotentIff(SMALL_AGENT);
    OfflineEndIs(c, w, _ => false, FOUR);
    hide HeuristicEdits.Edited, SimulatedExecutor.Result, Offline, Turns, Uncancelled, Best, Content, Contains, ExitAt;
    assert HeuristicEdits.Edited(SMALL_AGENT) != SMALL_AGENT;
  }
}
