/**
 * What the watcher asks of the node: every attempt requests exactly the blocks of its chunk that are
 * still incomplete, and never are more chunks of a range in flight than configured.
 */
module WatcherLimits {
  import opened Wrappers
  import opened BlockRanges
  import opened Watcher
  import opened WatcherOnce
  import opened WatcherProgress

  // ------------------------------------------------------------------ requests

  predicate Ascends(xs: seq<int>) {
    forall k, l :: 0 <= k < l < |xs| ==> xs[k] < xs[l]
  }

  lemma {:induction false} IncompleteAscends(completed: seq<BlockRange>, blocks: seq<int>)
    requires Ascends(blocks)
    ensures Ascends(Incomplete(completed, blocks))
    decreases |blocks|
  {
    if blocks != [] {
      var front, last := blocks[..|blocks| - 1], blocks[|blocks| - 1];
      IncompleteAscends(completed, front);
      IncompleteMembers(completed, front);
      var kept := Incomplete(completed, front);
      forall k | 0 <= k < |kept| ensures kept[k] < last {
        assert kept[k] in kept;
        var j :| 0 <= j < |front| && front[j] == kept[k];
        assert blocks[j] < blocks[|blocks| - 1];
      }
    }
  }

  /** `requested` are the incomplete blocks of the chunk, in order. */
  ghost predicate AsksFor(completed: seq<BlockRange>, chunk: BlockRange, requested: seq<int>) {
    Ascends(requested) && forall b :: b in requested <==> chunk.from <= b <= chunk.to && !Covers(completed, b)
  }

  lemma AttemptAsks(s: Watch, i: nat, attempt: nat)
    requires i < |s.tasks|
    ensures AsksFor(s.completed, s.tasks[i].chunk, BeginAttempt(s, i, attempt).requested)
  {
    var blocks := BlocksOf(s.tasks[i].chunk);
    IncompleteMembers(s.completed, blocks);
    IncompleteAscends(s.completed, blocks);
    forall b ensures b in blocks <==> Includes(s.tasks[i].chunk, b) {
      BlockOfRange(s.tasks[i].chunk, b);
    }
  }

  /** The first attempt and each further one ask for what is incomplete at that moment, nothing else. */
  lemma RequestsExactlyIncomplete(c: Config, s: Watch, step: Step)
    requires IsConfig(c) && Enabled(c, s, step) && (step.StartTask? || step.Wake?)
    ensures var phase := Next(c, s, step).tasks[step.i].phase;
            phase.Requesting? && AsksFor(s.completed, s.tasks[step.i].chunk, phase.requested)
  {
    AttemptAsks(s, step.i, if step.StartTask? then 1 else s.tasks[step.i].phase.attempt + 1);
  }

  // ------------------------------------------------------------------ parallel chunks

  /** The tasks of a group that wait for an answer, process one or sleep before another attempt. */
  ghost predicate WithinParallel(c: Config, s: Watch) {
    && (forall i :: 0 <= i < |s.tasks| ==> s.tasks[i].group < s.groups)
    && forall g :: |InFlight(s, g)| <= c.maxParallel
  }

  lemma FewerInFlight(s: Watch, next: Watch, g: nat)
    requires InFlight(next, g) <= InFlight(s, g)
    ensures |InFlight(next, g)| <= |InFlight(s, g)|
  {
    SubsetSize(InFlight(next, g), InFlight(s, g));
  }

  lemma OneMoreInFlight(s: Watch, next: Watch, g: nat, i: nat)
    requires InFlight(next, g) <= InFlight(s, g) + {i}
    ensures |InFlight(next, g)| <= |InFlight(s, g)| + 1
  {
    SubsetSize(InFlight(next, g), InFlight(s, g) + {i});
    assert |InFlight(s, g) + {i}| <= |InFlight(s, g)| + 1;
  }

  lemma StartInFlight(c: Config, s: Watch, i: nat, g: nat)
    requires IsConfig(c) && Enabled(c, s, StartTask(i))
    ensures var next := Next(c, s, StartTask(i));
            InFlight(next, g) <= InFlight(s, g) + (if s.tasks[i].group == g then {i} else {})
  {
  }

  lemma OthersInFlight(c: Config, s: Watch, step: Step, g: nat)
    requires IsConfig(c) && Enabled(c, s, step) && !step.StartTask?
    ensures InFlight(Next(c, s, step), g) <= InFlight(s, g)
  {
  }

  lemma GroupsGrow(c: Config, s: Watch, step: Step)
    requires IsConfig(c) && Enabled(c, s, step) && forall i :: 0 <= i < |s.tasks| ==> s.tasks[i].group < s.groups
    ensures var next := Next(c, s, step); forall i :: 0 <= i < |next.tasks| ==> next.tasks[i].group < next.groups
  {
  }

  lemma ParallelStep(c: Config, s: Watch, step: Step)
    requires IsConfig(c) && Enabled(c, s, step) && WithinParallel(c, s)
    ensures WithinParallel(c, Next(c, s, step))
  {
    var next := Next(c, s, step);
    GroupsGrow(c, s, step);
    forall g ensures |InFlight(next, g)| <= c.maxParallel {
      if step.StartTask? && s.tasks[step.i].group == g {
        StartInFlight(c, s, step.i, g);
        OneMoreInFlight(s, next, g, step.i);
      } else if step.StartTask? {
        StartInFlight(c, s, step.i, g);
        FewerInFlight(s, next, g);
      } else {
        OthersInFlight(c, s, step, g);
        FewerInFlight(s, next, g);
      }
    }
  }

  lemma {:induction false} ParallelRun(c: Config, s: Watch, steps: seq<Step>)
    requires IsConfig(c) && IsRun(c, s, steps) && WithinParallel(c, s)
    ensures WithinParallel(c, Exec(c, s, steps))
    decreases |steps|
  {
    if steps != [] {
      ParallelStep(c, s, steps[0]);
      ParallelRun(c, Next(c, s, steps[0]), steps[1..]);
    }
  }

  predicate Holds(s: Watch, g: nat, i: nat) {
    && i < |s.tasks| && s.tasks[i].group == g
    && (s.tasks[i].phase.Requesting? || s.tasks[i].phase.Processing? || s.tasks[i].phase.AwaitingTxs? || s.tasks[i].phase.Sleeping?)
  }

  /** In every run, any tasks of one range that are at work together are at most `maxParallel`. */
  lemma ParallelChunksBounded(c: Config, start: Watch, steps: seq<Step>, g: nat, busy: set<nat>)
    requires IsConfig(c) && IsRun(c, start, steps) && start.tasks == []
    requires forall i :: i in busy ==> Holds(Exec(c, start, steps), g, i)
    ensures |busy| <= c.maxParallel
  {
    var end := Exec(c, start, steps);
    assert forall h :: InFlight(start, h) == {};
    ParallelRun(c, start, steps);
    SubsetSize(busy, InFlight(end, g));
  }

  // ------------------------------------------------------------------ order

  /** No chunk of a range has been started before an earlier one. */
  predicate InOrder(s: Watch) {
    forall i, j :: 0 <= i < j < |s.tasks| && s.tasks[i].group == s.tasks[j].group && s.tasks[i].phase.Queued? ==>
      s.tasks[j].phase.Queued?
  }

  /** Only starting takes a task out of the queue; new tasks are queued in a group of their own. */
  lemma QueuedStep(c: Config, s: Watch, step: Step, i: nat)
    requires IsConfig(c) && Enabled(c, s, step) && i < |Next(c, s, step).tasks|
    ensures var next := Next(c, s, step);
            if i < |s.tasks|
            then next.tasks[i].group == s.tasks[i].group
                 && (next.tasks[i].phase.Queued? <==> s.tasks[i].phase.Queued? && step != StartTask(i))
            else next.tasks[i].phase.Queued?
  {
  }

  lemma OrderStep(c: Config, s: Watch, step: Step)
    requires IsConfig(c) && Enabled(c, s, step) && InOrder(s)
    ensures InOrder(Next(c, s, step))
  {
    var next := Next(c, s, step);
    forall i, j | 0 <= i < j < |next.tasks| && next.tasks[i].group == next.tasks[j].group && next.tasks[i].phase.Queued?
      ensures next.tasks[j].phase.Queued?
    {
      QueuedStep(c, s, step, i);
      QueuedStep(c, s, step, j);
    }
  }

  /** In every run the chunks of a range are started in ascending order. */
  lemma {:induction false} ChunksStartInOrder(c: Config, s: Watch, steps: seq<Step>)
    requires IsConfig(c) && IsRun(c, s, steps) && (s.tasks == [] || InOrder(s))
    ensures InOrder(Exec(c, s, steps))
    decreases |steps|
  {
    if steps != [] {
      OrderStep(c, s, steps[0]);
      ChunksStartInOrder(c, Next(c, s, steps[0]), steps[1..]);
    }
  }

  // ------------------------------------------------------------------ shutdown

  /** The phases in which something is asked for, is to be asked for again, or has been settled. */
  predicate IsOpenOrSettled(phase: Phase) {
    phase.Queued? || phase.Requesting? || phase.Sleeping? || phase.Exhausted? || phase.Finished?
  }

  /** From `s` to `t` no range was taken up, and no task begun, tried again, given up or finished. */
  predicate NothingTakenUp(s: Watch, t: Watch) {
    && t.groups == s.groups && |t.tasks| == |s.tasks|
    && forall i :: 0 <= i < |t.tasks| && IsOpenOrSettled(t.tasks[i].phase) ==> t.tasks[i] == s.tasks[i]
  }

  lemma InactiveStep(c: Config, s: Watch, step: Step)
    requires IsConfig(c) && Enabled(c, s, step) && !s.active
    ensures !Next(c, s, step).active && NothingTakenUp(s, Next(c, s, step))
  {
  }

  lemma TakenUpTwice(s: Watch, t: Watch, u: Watch)
    requires NothingTakenUp(s, t) && NothingTakenUp(t, u)
    ensures NothingTakenUp(s, u)
  {
  }

  /** After a shutdown nothing is polled, started, requested again, given up or finished any more. */
  lemma {:induction false} NothingTakenUpAfterShutdown(c: Config, s: Watch, steps: seq<Step>)
    requires IsConfig(c) && IsRun(c, s, steps) && !s.active
    ensures NothingTakenUp(s, Exec(c, s, steps))
    decreases |steps|
  {
    if steps != [] {
      InactiveStep(c, s, steps[0]);
      NothingTakenUpAfterShutdown(c, Next(c, s, steps[0]), steps[1..]);
      TakenUpTwice(s, Next(c, s, steps[0]), Exec(c, s, steps));
    }
  }
}
