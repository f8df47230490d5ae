/**
 * Rounds can always be completed: from every orderly state of an active watcher some continuation
 * without failures ends the round, so the statements about completed rounds are never empty.
 */
module WatcherRounds {
  import opened Wrappers
  import opened BlockRanges
  import opened Checkpoints
  import opened Watcher
  import opened WatcherOnce
  import opened WatcherProgress

  // ------------------------------------------------------------------ orderly paths

  ghost predicate IsPath(c: Config, s: Watch, steps: seq<Step>, t: Watch)
    requires IsConfig(c)
  {
    IsRun(c, s, steps) && IsOrderlyRun(c, s, steps) && NoPoll(steps) && Exec(c, s, steps) == t
  }

  /** An orderly run without a poll leads from `s` to `t`. */
  ghost predicate CanReach(c: Config, s: Watch, t: Watch)
    requires IsConfig(c)
  {
    exists steps :: IsPath(c, s, steps, t)
  }

  lemma ReachSelf(c: Config, s: Watch)
    requires IsConfig(c)
    ensures CanReach(c, s, s)
  {
    assert IsPath(c, s, [], s);
  }

  lemma {:induction false} JoinPaths(c: Config, s: Watch, xs: seq<Step>, t: Watch, ys: seq<Step>, u: Watch)
    requires IsConfig(c) && IsPath(c, s, xs, t) && IsPath(c, t, ys, u)
    ensures IsPath(c, s, xs + ys, u)
    decreases |xs|
  {
    if xs == [] {
      assert xs + ys == ys;
    } else {
      var rest := xs[1..];
      assert forall k :: 0 <= k < |rest| ==> rest[k] == xs[k + 1];
      JoinPaths(c, Next(c, s, xs[0]), rest, t, ys, u);
      assert (xs + ys)[1..] == rest + ys;
    }
  }

  lemma ReachTwice(c: Config, s: Watch, t: Watch, u: Watch)
    requires IsConfig(c) && CanReach(c, s, t) && CanReach(c, t, u)
    ensures CanReach(c, s, u)
  {
    var xs :| IsPath(c, s, xs, t);
    var ys :| IsPath(c, t, ys, u);
    JoinPaths(c, s, xs, t, ys, u);
  }

  lemma ReachNext(c: Config, s: Watch, step: Step)
    requires IsConfig(c) && Enabled(c, s, step) && IsOrderlyStep(s, step) && !step.Poll?
    ensures CanReach(c, s, Next(c, s, step))
  {
    var steps := [step];
    assert steps[0] == step && steps[1..] == [];
    assert IsRun(c, s, steps) && IsOrderlyRun(c, s, steps);
    assert Exec(c, s, steps) == Exec(c, Next(c, s, step), []);
    assert IsPath(c, s, steps, Next(c, s, step));
  }

  lemma {:induction false} PathStaysOrderly(c: Config, s: Watch, steps: seq<Step>)
    requires IsConfig(c) && IsRun(c, s, steps) && IsOrderlyRun(c, s, steps) && Orderly(s)
    ensures Orderly(Exec(c, s, steps))
    decreases |steps|
  {
    if steps != [] {
      OrderlyStep(c, s, steps[0]);
      PathStaysOrderly(c, Next(c, s, steps[0]), steps[1..]);
    }
  }

  lemma ReachStaysOrderly(c: Config, s: Watch, t: Watch)
    requires IsConfig(c) && CanReach(c, s, t) && Orderly(s)
    ensures Orderly(t)
  {
    var steps :| IsPath(c, s, steps, t);
    PathStaysOrderly(c, s, steps);
  }

  // ------------------------------------------------------------------ one task to its end

  /** From `s` to `t` only task `i` moved on, apart from what was written and marked. */
  predicate OnlyMoved(s: Watch, t: Watch, i: nat) {
    && t.active == s.active && t.mode == s.mode && t.groups == s.groups
    && i < |s.tasks| == |t.tasks|
    && t.tasks[i].group == s.tasks[i].group && t.tasks[i].chunk == s.tasks[i].chunk
    && forall j :: 0 <= j < |s.tasks| && j != i ==> t.tasks[j] == s.tasks[j]
  }

  lemma MoveTwice(s: Watch, t: Watch, u: Watch, i: nat)
    requires OnlyMoved(s, t, i) && OnlyMoved(t, u, i)
    ensures OnlyMoved(s, u, i)
  {
  }

  function PlainOutput(tx: Tx): seq<Message> {
    if tx.FullTx? then [TxMessage(tx.hash)] else []
  }

  /** Messages that the transactions of a block can result in. */
  function PlainOutputs(block: Block): (outputs: seq<seq<Message>>)
    ensures AreOutputs(block, outputs)
  {
    seq(|block.txs|, k requires 0 <= k < |block.txs| => PlainOutput(block.txs[k]))
  }

  /** A step of task `i` that goes well. */
  lemma MoveOn(c: Config, s: Watch, step: Step, i: nat)
    requires IsConfig(c) && Enabled(c, s, step) && IsOrderlyStep(s, step) && s.active
    requires step in [StartTask(i), StartBlock(i), Wake(i), ChunkDone(i)] || (step.Respond? && step.i == i) || (step.FinishTxs? && step.i == i)
    ensures CanReach(c, s, Next(c, s, step)) && OnlyMoved(s, Next(c, s, step), i)
  {
    ReachNext(c, s, step);
  }

  lemma {:induction false} FinishProcessing(c: Config, s: Watch, i: nat) returns (t: Watch)
    requires IsConfig(c) && s.active && i < |s.tasks| && s.tasks[i].phase.Processing?
    ensures CanReach(c, s, t) && OnlyMoved(s, t, i) && t.tasks[i].phase.Finished?
    decreases |s.tasks[i].phase.blocks|, 0
  {
    var p := s.tasks[i].phase;
    if p.blocks == [] {
      MoveOn(c, s, ChunkDone(i), i);
      t := Next(c, s, ChunkDone(i));
    } else {
      MoveOn(c, s, StartBlock(i), i);
      var begun := Next(c, s, StartBlock(i));
      if begun.tasks[i].phase.Processing? {
        t := FinishProcessing(c, begun, i);
      } else {
        t := FinishAwaiting(c, begun, i);
      }
      ReachTwice(c, s, begun, t);
      MoveTwice(s, begun, t, i);
    }
  }

  lemma {:induction false} FinishAwaiting(c: Config, s: Watch, i: nat) returns (t: Watch)
    requires IsConfig(c) && s.active && i < |s.tasks| && s.tasks[i].phase.AwaitingTxs?
    ensures CanReach(c, s, t) && OnlyMoved(s, t, i) && t.tasks[i].phase.Finished?
    decreases |s.tasks[i].phase.rest|, 1
  {
    var step := FinishTxs(i, PlainOutputs(s.tasks[i].phase.block));
    MoveOn(c, s, step, i);
    var next := Next(c, s, step);
    t := FinishProcessing(c, next, i);
    ReachTwice(c, s, next, t);
    MoveTwice(s, next, t, i);
  }

  lemma FinishRequesting(c: Config, s: Watch, i: nat) returns (t: Watch)
    requires IsConfig(c) && s.active && i < |s.tasks| && s.tasks[i].phase.Requesting?
    ensures CanReach(c, s, t) && OnlyMoved(s, t, i) && t.tasks[i].phase.Finished?
  {
    var requested := s.tasks[i].phase.requested;
    var blocks := seq(|requested|, k requires 0 <= k < |requested| => Block(Some(requested[k]), []));
    MoveOn(c, s, Respond(i, blocks), i);
    var next := Next(c, s, Respond(i, blocks));
    t := FinishProcessing(c, next, i);
    ReachTwice(c, s, next, t);
    MoveTwice(s, next, t, i);
  }

  lemma FinishInFlight(c: Config, s: Watch, i: nat) returns (t: Watch)
    requires IsConfig(c) && s.active && i < |s.tasks| && IsInFlight(s.tasks[i].phase)
    ensures CanReach(c, s, t) && OnlyMoved(s, t, i) && t.tasks[i].phase.Finished?
  {
    match s.tasks[i].phase
    case Requesting(_, _) => t := FinishRequesting(c, s, i);
    case Processing(_, _) => t := FinishProcessing(c, s, i);
    case AwaitingTxs(_, _, _) => t := FinishAwaiting(c, s, i);
    case Sleeping(_) =>
      MoveOn(c, s, Wake(i), i);
      var next := Next(c, s, Wake(i));
      t := FinishRequesting(c, next, i);
      ReachTwice(c, s, next, t);
      MoveTwice(s, next, t, i);
  }

  lemma FinishQueued(c: Config, s: Watch, i: nat) returns (t: Watch)
    requires IsConfig(c) && Enabled(c, s, StartTask(i))
    ensures CanReach(c, s, t) && OnlyMoved(s, t, i) && t.tasks[i].phase.Finished?
  {
    MoveOn(c, s, StartTask(i), i);
    var next := Next(c, s, StartTask(i));
    t := FinishRequesting(c, next, i);
    ReachTwice(c, s, next, t);
    MoveTwice(s, next, t, i);
  }

  // ------------------------------------------------------------------ all tasks

  predicate AllFinished(s: Watch) {
    forall i :: 0 <= i < |s.tasks| ==> s.tasks[i].phase.Finished?
  }

  function Unfinished(s: Watch): set<nat> {
    set i: nat | i < |s.tasks| && !s.tasks[i].phase.Finished?
  }

  lemma OneLess(s: Watch, t: Watch, i: nat)
    requires OnlyMoved(s, t, i) && !s.tasks[i].phase.Finished? && t.tasks[i].phase.Finished?
    ensures |Unfinished(t)| < |Unfinished(s)|
  {
    assert i in Unfinished(s) && i !in Unfinished(t);
    SubsetSize(Unfinished(t), Unfinished(s));
  }

  lemma {:induction false} FirstQueued(s: Watch, n: nat) returns (i: nat)
    requires n < |s.tasks| && s.tasks[n].phase.Queued?
    ensures i <= n && s.tasks[i].phase.Queued? && forall j :: 0 <= j < i ==> !s.tasks[j].phase.Queued?
    decreases n
  {
    if j: nat :| j < n && s.tasks[j].phase.Queued? {
      i := FirstQueued(s, j);
    } else {
      i := n;
    }
  }

  /** With no task in flight the first queued one can be started. */
  lemma CanStart(c: Config, s: Watch, n: nat) returns (i: nat)
    requires s.active && c.maxParallel > 0 && n < |s.tasks| && s.tasks[n].phase.Queued?
    requires forall j :: 0 <= j < |s.tasks| ==> !IsInFlight(s.tasks[j].phase)
    ensures i < |s.tasks| && Enabled(c, s, StartTask(i))
  {
    i := FirstQueued(s, n);
    assert InFlight(s, s.tasks[i].group) == {};
  }

  /** The unfinished tasks of an orderly, active state are queued or in flight. */
  lemma UnfinishedGoOn(s: Watch, i: nat)
    requires Orderly(s) && s.active && i < |s.tasks| && !s.tasks[i].phase.Finished?
    ensures s.tasks[i].phase.Queued? || IsInFlight(s.tasks[i].phase)
  {
    assert IsGoodPhase(s, s.tasks[i].chunk, s.tasks[i].phase);
  }

  /** One more task brought to its end. */
  lemma FinishOne(c: Config, s: Watch) returns (t: Watch)
    requires IsConfig(c) && Orderly(s) && s.active && c.maxParallel > 0 && !AllFinished(s)
    ensures CanReach(c, s, t) && t.active && t.mode == s.mode && |Unfinished(t)| < |Unfinished(s)|
  {
    var n: nat :| n < |s.tasks| && !s.tasks[n].phase.Finished?;
    UnfinishedGoOn(s, n);
    if i: nat :| i < |s.tasks| && IsInFlight(s.tasks[i].phase) {
      t := FinishInFlight(c, s, i);
      OneLess(s, t, i);
    } else {
      var i := CanStart(c, s, n);
      t := FinishQueued(c, s, i);
      OneLess(s, t, i);
    }
  }

  lemma {:induction false} FinishAll(c: Config, s: Watch) returns (t: Watch)
    requires IsConfig(c) && Orderly(s) && s.active && c.maxParallel > 0
    ensures CanReach(c, s, t) && Orderly(t) && t.active && t.mode == s.mode && AllFinished(t)
    decreases |Unfinished(s)|
  {
    if AllFinished(s) {
      ReachSelf(c, s);
      t := s;
    } else {
      var next := FinishOne(c, s);
      ReachStaysOrderly(c, s, next);
      t := FinishAll(c, next);
      ReachTwice(c, s, next, t);
    }
  }

  // ------------------------------------------------------------------ the whole round

  /** In a round, some orderly continuation ends it while the watcher stays active. */
  lemma {:induction false} RoundCanEnd(c: Config, s: Watch) returns (t: Watch)
    requires IsConfig(c) && Orderly(s) && s.active && c.maxParallel > 0 && s.mode.Round?
    ensures CanReach(c, s, t) && t.active && t.mode.Idle?
    decreases |s.mode.todo|
  {
    var done := FinishAll(c, s);
    var step := if s.mode.todo == [] then RoundEnds else NextRange;
    ReachNext(c, done, step);
    var next := Next(c, done, step);
    ReachTwice(c, s, done, next);
    if s.mode.todo == [] {
      t := next;
    } else {
      OrderlyStep(c, done, step);
      t := RoundCanEnd(c, next);
      ReachTwice(c, s, next, t);
    }
  }

  /**
   * Whatever height the node answers, the round it begins can be completed in an orderly way, so
   * each poll can be followed by the progress that is proved for rounds.
   */
  lemma EveryRoundCanComplete(c: Config, s: Watch, latest: int)
    requires IsConfig(c) && c.maxParallel > 0 && Orderly(s) && AllCare(s) && s.active && s.mode.Idle?
    ensures exists steps, end :: IsRound(c, s, latest, steps, end)
  {
    OrderlyStep(c, s, Poll(latest));
    var polled := Next(c, s, Poll(latest));
    var end := RoundCanEnd(c, polled);
    var steps :| IsPath(c, polled, steps, end);
    assert IsRound(c, s, latest, steps, end);
  }
}
