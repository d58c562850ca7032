/** What a run decides depends only on the turns it has met: a longer list of turns changes nothing before. */
module RunPrefixes {
  import opened RunSpec

  lemma SameTurn(v: World, w: World, i: nat)
    requires v <= w && i < |v|
    ensures TurnAt(v, i) == TurnAt(w, i)
  {
  }

  /** The benchmarks up to an iteration determine the scores and the best version. */
  lemma {:induction false} BestOfPrefix(v: World, w: World, i: nat)
    requires forall j | 0 <= j <= i :: TurnAt(v, j).bench == TurnAt(w, j).bench
    ensures Best(v, i) == Best(w, i) && Result(v, i) == Result(w, i) && Score(v, i) == Score(w, i)
    ensures Score(v, Best(v, i)) == Score(w, Best(w, i))
  {
    if i > 0 {
      BestOfPrefix(v, w, i - 1);
    }
  }

  lemma SameBenches(v: World, w: World, i: nat)
    requires v <= w && i < |v|
    ensures forall j | 0 <= j <= i :: TurnAt(v, j).bench == TurnAt(w, j).bench
  {
  }

  /** Stopping at the benchmark depends on the turn's first half only. */
  lemma BenchmarkExitOfPrefix(c: Config, v: World, w: World, i: nat)
    requires forall j | 0 <= j <= i :: TurnAt(v, j).bench == TurnAt(w, j).bench
    requires TurnAt(v, i).cancelledBefore == TurnAt(w, i).cancelledBefore
    requires TurnAt(v, i).cancelledAfterBench == TurnAt(w, i).cancelledAfterBench
    ensures BenchmarkExit(c, v, i) == BenchmarkExit(c, w, i)
  {
    BestOfPrefix(v, w, i);
  }

  lemma ContentOfPrefix(c: Config, v: World, w: World, version: nat)
    requires v <= w && version <= |v|
    ensures Content(c, v, version) == Content(c, w, version)
  {
    if version > 0 {
      SameTurn(v, w, version - 1);
    }
  }

  /** The text that runs in an iteration, and the best version with its text. */
  lemma DecisionsOfPrefix(c: Config, v: World, w: World, i: nat)
    requires v <= w && i < |v|
    ensures v[i] == w[i] && Content(c, v, i) == Content(c, w, i)
    ensures Best(v, i) == Best(w, i) && Content(c, v, Best(v, i)) == Content(c, w, Best(w, i))
  {
    SameBenches(v, w, i);
    BestOfPrefix(v, w, i);
    ContentOfPrefix(c, v, w, i);
    ContentOfPrefix(c, v, w, Best(v, i));
  }

  lemma ExitOfPrefix(c: Config, v: World, w: World, i: nat)
    requires v <= w && i < |v|
    ensures ExitAt(c, v, i) == ExitAt(c, w, i)
  {
    SameTurn(v, w, i);
    SameBenches(v, w, i);
    BestOfPrefix(v, w, i);
    BenchmarkExitOfPrefix(c, v, w, i);
    ContentOfPrefix(c, v, w, Best(v, i));
    hide BenchmarkExit, Content, Best;
  }

  lemma {:induction false} ReachesOfPrefix(c: Config, v: World, w: World, i: nat)
    requires v <= w && i <= |v|
    ensures Reaches(c, v, i) == Reaches(c, w, i)
  {
    hide ExitAt;
    if i > 0 {
      ReachesOfPrefix(c, v, w, i - 1);
      ExitOfPrefix(c, v, w, i - 1);
    }
  }

  /** Surviving all iterations before means reaching the next. */
  lemma {:induction false} ReachesFirst(c: Config, w: World, n: nat)
    requires forall i | 0 <= i < n :: ExitAt(c, w, i).None?
    ensures Reaches(c, w, n)
  {
    if n > 0 {
      ReachesFirst(c, w, n - 1);
    }
    hide ExitAt;
  }
}
