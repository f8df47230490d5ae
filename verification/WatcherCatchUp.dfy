/**
 * Repeated rounds: while the chain stands at one height, rounds one after the other complete every
 * block up to there, after at most as many rounds as blocks are missing, and such rounds exist.
 */
module WatcherCatchUp {
  import opened Wrappers
  import opened BlockRanges
  import opened Watcher
  import opened WatcherOnce
  import opened WatcherProgress
  import opened WatcherRounds

  // ------------------------------------------------------------------ chains of steps

  /** `n` steps of a relation lead from `s` to `t`. */
  ghost predicate Chain<S(!new)>(step: (S, S) -> bool, s: S, n: nat, t: S) {
    if n == 0 then s == t else exists last :: Chain(step, s, n - 1, last) && step(last, t)
  }

  /** What falls by one with every step. */
  lemma {:induction false} ChainFalls<S(!new)>(step: (S, S) -> bool, bound: (S, int) -> bool, s: S, n: nat, t: S, k: int)
    requires Chain(step, s, n, t) && bound(s, k)
    requires forall a, b, i :: step(a, b) && bound(a, i) ==> bound(b, i - 1)
    ensures bound(t, k - n)
  {
    if n > 0 {
      var last :| Chain(step, s, n - 1, last) && step(last, t);
      ChainFalls(step, bound, s, n - 1, last, k);
      assert bound(last, k - (n - 1));
    }
  }

  lemma ChainGrows<S(!new)>(step: (S, S) -> bool, s: S, n: nat, last: S, t: S)
    requires Chain(step, s, n, last) && step(last, t)
    ensures Chain(step, s, n + 1, t)
  {
  }

  // ------------------------------------------------------------------ rounds

  /** One completed round leads from `s` to `t`. */
  ghost predicate RoundLeads(c: Config, s: Watch, latest: int, t: Watch)
    requires IsConfig(c)
  {
    exists steps :: IsRound(c, s, latest, steps, t)
  }

  /** `n` rounds at one height, one after the other. */
  ghost predicate RoundsLead(c: Config, s: Watch, latest: int, n: nat, t: Watch)
    requires IsConfig(c)
  {
    Chain((a, b) => RoundLeads(c, a, latest, b), s, n, t)
  }

  /** All blocks that are complete, and all gaps, lie between `low` and `high`. */
  ghost predicate IsWithin(c: Config, s: Watch, latest: int, low: int, high: int) {
    && low <= c.init && latest <= high
    && forall b :: Covers(s.completed, b) ==> low <= b <= high
  }

  lemma FoundIsMissing(c: Config, s: Watch, latest: int, low: int, high: int, b: int)
    requires IsNormal(s.completed) && IsWithin(c, s, latest, low, high) && Covers(Found(c, s, latest), b)
    ensures low <= b <= high && !Covers(s.completed, b)
  {
    InverseIsComplement(s.completed, Some(c.init), Some(latest));
    if s.completed != [] {
      StartIsCovered(s.completed);
      assert Includes(Last(s.completed), Last(s.completed).to);
      assert Covers(s.completed, Last(s.completed).to);
    }
  }

  /** A round stays between the same bounds and completes only what was missing. */
  lemma RoundStaysWithin(c: Config, s: Watch, latest: int, steps: seq<Step>, t: Watch, low: int, high: int)
    requires IsConfig(c) && IsRound(c, s, latest, steps, t) && IsWithin(c, s, latest, low, high)
    ensures IsWithin(c, t, latest, low, high)
    ensures Missing(t.completed, low, high) <= Missing(s.completed, low, high)
  {
    forall b
      ensures Covers(t.completed, b) ==> low <= b <= high
      ensures Covers(s.completed, b) ==> Covers(t.completed, b)
    {
      RoundCompletesExactly(c, s, latest, steps, t, b);
      if InChunks(c, Found(c, s, latest), b) {
        InChunksIsFound(c, s, latest, b);
        FoundIsMissing(c, s, latest, low, high, b);
      }
    }
  }

  /** While there are gaps, a round completes some missing block. */
  lemma RoundCompletesSome(c: Config, s: Watch, latest: int, steps: seq<Step>, t: Watch, low: int, high: int)
    requires IsConfig(c) && c.chunkCap > 0 && IsRound(c, s, latest, steps, t) && IsWithin(c, s, latest, low, high)
    requires Found(c, s, latest) != []
    ensures |Missing(t.completed, low, high)| < |Missing(s.completed, low, high)|
  {
    var gaps := Found(c, s, latest);
    InverseIsComplement(s.completed, Some(c.init), Some(latest));
    StartIsCovered(gaps);
    FoundIsMissing(c, s, latest, low, high, gaps[0].from);
    FirstBlockIsChunked(c, gaps[0]);
    RoundCoversChunks(c, s, latest, steps, t, gaps[0], gaps[0].from);
    RoundStaysWithin(c, s, latest, steps, t, low, high);
    assert gaps[0].from in Missing(s.completed, low, high) && gaps[0].from !in Missing(t.completed, low, high);
    SubsetSize(Missing(t.completed, low, high), Missing(s.completed, low, high));
  }

  /** Without gaps a round changes nothing. */
  lemma NothingToDo(c: Config, s: Watch, latest: int, steps: seq<Step>, t: Watch)
    requires IsConfig(c) && IsRound(c, s, latest, steps, t) && Found(c, s, latest) == []
    ensures t.completed == s.completed
  {
    forall b ensures Covers(t.completed, b) <==> Covers(s.completed, b) {
      RoundCompletesExactly(c, s, latest, steps, t, b);
    }
    RoundStaysNormal(c, s, latest, steps, t);
    NormalIsUnique(t.completed, s.completed);
  }

  lemma RoundStaysNormal(c: Config, s: Watch, latest: int, steps: seq<Step>, t: Watch)
    requires IsConfig(c) && IsRound(c, s, latest, steps, t)
    ensures Orderly(t) && AllCare(t)
  {
    OrderlyStep(c, s, Poll(latest));
    CareStep(c, s, Poll(latest));
    OrderlyRunStaysOrderly(c, Next(c, s, Poll(latest)), steps);
  }

  /** An orderly state between the bounds with no gap left, or at most `n` blocks missing. */
  ghost predicate IsBounded(c: Config, s: Watch, latest: int, low: int, high: int, n: int) {
    && Orderly(s) && IsWithin(c, s, latest, low, high)
    && (Found(c, s, latest) == [] || |Missing(s.completed, low, high)| <= n)
  }

  lemma RoundShrinks(c: Config, s: Watch, latest: int, t: Watch, low: int, high: int, n: int)
    requires IsConfig(c) && c.chunkCap > 0 && RoundLeads(c, s, latest, t)
    requires IsBounded(c, s, latest, low, high, n)
    ensures IsBounded(c, t, latest, low, high, n - 1)
  {
    var steps :| IsRound(c, s, latest, steps, t);
    RoundStaysNormal(c, s, latest, steps, t);
    RoundStaysWithin(c, s, latest, steps, t, low, high);
    if Found(c, s, latest) == [] {
      NothingToDo(c, s, latest, steps, t);
    } else {
      RoundCompletesSome(c, s, latest, steps, t, low, high);
    }
  }

  /** Each round has found no gap or lowers the number of missing blocks. */
  lemma RoundsShrink(c: Config, s: Watch, latest: int, n: nat, t: Watch, low: int, high: int)
    requires IsConfig(c) && c.chunkCap > 0 && RoundsLead(c, s, latest, n, t)
    requires Orderly(s) && IsWithin(c, s, latest, low, high)
    ensures IsBounded(c, t, latest, low, high, |Missing(s.completed, low, high)| - n)
  {
    var step := (a, b) => RoundLeads(c, a, latest, b);
    var bound := (a, k) => IsBounded(c, a, latest, low, high, k);
    forall a, b, k | step(a, b) && bound(a, k) ensures bound(b, k - 1) {
      RoundShrinks(c, a, latest, b, low, high, k);
    }
    ChainFalls(step, bound, s, n, t, |Missing(s.completed, low, high)|);
  }

  /** With no gap found, no block from the initial to the polled one is missing. */
  lemma NoGapNothingMissing(c: Config, s: Watch, latest: int)
    requires IsNormal(s.completed) && c.init < latest
    ensures Found(c, s, latest) == [] ==> Missing(s.completed, c.init, latest) == {}
  {
    InverseIsComplement(s.completed, Some(c.init), Some(latest));
  }

  lemma SomeMissing(c: Config, s: Watch, latest: int, low: int, high: int)
    requires IsNormal(s.completed) && IsWithin(c, s, latest, low, high) && Found(c, s, latest) != []
    ensures |Missing(s.completed, low, high)| > 0
  {
    var gaps := Found(c, s, latest);
    InverseIsComplement(s.completed, Some(c.init), Some(latest));
    StartIsCovered(gaps);
    FoundIsMissing(c, s, latest, low, high, gaps[0].from);
    assert gaps[0].from in Missing(s.completed, low, high);
  }

  /**
   * However the rounds go, as many at one height as there are missing blocks between the bounds
   * leave no gap, and so no block missing from the initial to the polled one.
   */
  lemma RepeatedRoundsCatchUp(c: Config, s: Watch, latest: int, n: nat, t: Watch, low: int, high: int)
    requires IsConfig(c) && c.chunkCap > 0 && RoundsLead(c, s, latest, n, t)
    requires Orderly(s) && IsWithin(c, s, latest, low, high)
    requires n >= |Missing(s.completed, low, high)|
    ensures Found(c, t, latest) == []
    ensures c.init < latest ==> Missing(t.completed, c.init, latest) == {}
  {
    RoundsShrink(c, s, latest, n, t, low, high);
    if Found(c, t, latest) != [] {
      SomeMissing(c, t, latest, low, high);
    }
    if c.init < latest {
      NoGapNothingMissing(c, t, latest);
    }
  }

  // ------------------------------------------------------------------ such rounds exist

  /** What a state between rounds needs for the next one. */
  ghost predicate CanPoll(s: Watch) {
    Orderly(s) && AllCare(s) && s.active && s.mode.Idle?
  }

  lemma SomeRound(c: Config, s: Watch, latest: int) returns (t: Watch)
    requires IsConfig(c) && c.maxParallel > 0 && CanPoll(s)
    ensures RoundLeads(c, s, latest, t) && CanPoll(t)
  {
    EveryRoundCanComplete(c, s, latest);
    var steps, end :| IsRound(c, s, latest, steps, end);
    RoundStaysNormal(c, s, latest, steps, end);
    t := end;
  }

  lemma OneMoreRound(c: Config, s: Watch, latest: int, n: nat, last: Watch) returns (t: Watch)
    requires IsConfig(c) && c.maxParallel > 0 && CanPoll(last) && RoundsLead(c, s, latest, n, last)
    ensures RoundsLead(c, s, latest, n + 1, t) && CanPoll(t)
  {
    t := SomeRound(c, last, latest);
    ChainGrows((a, b) => RoundLeads(c, a, latest, b), s, n, last, t);
  }

  lemma {:induction false} SomeRounds(c: Config, s: Watch, latest: int, n: nat) returns (t: Watch)
    requires IsConfig(c) && c.maxParallel > 0 && CanPoll(s)
    ensures RoundsLead(c, s, latest, n, t) && CanPoll(t)
  {
    if n == 0 {
      t := s;
    } else {
      var last := SomeRounds(c, s, latest, n - 1);
      t := OneMoreRound(c, s, latest, n - 1, last);
    }
  }

  /** The bounds of a state: complete blocks, initial and polled block. */
  lemma Bounds(c: Config, s: Watch, latest: int)
    requires IsNormal(s.completed)
    ensures IsWithin(c, s, latest, WindowStart(c, s), WindowEnd(s, latest))
  {
    forall b | Covers(s.completed, b) ensures s.completed != [] && s.completed[0].from <= b <= Last(s.completed).to {
      NormalSpan(s.completed, b);
    }
  }

  /** From every orderly state between rounds, the watcher can catch up with any height. */
  lemma CanCatchUp(c: Config, s: Watch, latest: int)
    requires IsConfig(c) && c.chunkCap > 0 && c.maxParallel > 0 && CanPoll(s)
    ensures exists n, t :: RoundsLead(c, s, latest, n, t) && CanPoll(t) && Found(c, t, latest) == []
  {
    var low, high := WindowStart(c, s), WindowEnd(s, latest);
    Bounds(c, s, latest);
    var n := |Missing(s.completed, low, high)|;
    var t := SomeRounds(c, s, latest, n);
    RepeatedRoundsCatchUp(c, s, latest, n, t, low, high);
  }
}
