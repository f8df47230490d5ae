/**
 * Termination of rounds: an orderly run without a poll has bounded length, and while it is in a
 * round it can go on. So every orderly round ends, however its tasks are scheduled.
 */
module WatcherTermination {
  import opened BlockRanges
  import opened Watcher
  import opened WatcherSafety
  import opened WatcherOnce
  import opened WatcherProgress
  import opened WatcherRounds

  // ------------------------------------------------------------------ what is left to do

  /** The steps of one whole attempt at `n` blocks, and of the failure and the wait after it. */
  function AttemptCost(n: nat): nat {
    2 * n + 4
  }

  /** The attempts after this one. */
  function RetryCost(n: nat, attempt: nat): nat {
    if attempt < ATTEMPTS then (ATTEMPTS - attempt) * AttemptCost(n) else 0
  }

  /** At most so many steps are left of a task with a chunk of `n` blocks. */
  function PhaseCost(n: nat, phase: Phase): nat {
    match phase
    case Queued => RetryCost(n, 0) + 1
    case Requesting(attempt, requested) => RetryCost(n, attempt) + 2 * |requested| + 3
    case Processing(attempt, blocks) => RetryCost(n, attempt) + 2 * |blocks| + 2
    case AwaitingTxs(attempt, _, rest) => RetryCost(n, attempt) + 2 * |rest| + 3
    case Sleeping(attempt) => RetryCost(n, attempt) + 1
    case _ => 0
  }

  function TaskCost(task: Task): nat {
    PhaseCost(|BlocksOf(task.chunk)|, task.phase)
  }

  function TasksCost(tasks: seq<Task>): nat {
    if tasks == [] then 0 else TasksCost(tasks[..|tasks| - 1]) + TaskCost(tasks[|tasks| - 1])
  }

  /** Turning a range into tasks, and these tasks. */
  function RangeCost(c: Config, range: BlockRange): nat
    requires IsConfig(c)
  {
    1 + TasksCost(NewTasks(0, ChunksOf(c, range)))
  }

  function TodoCost(c: Config, todo: seq<BlockRange>): nat
    requires IsConfig(c)
  {
    if todo == [] then 0 else RangeCost(c, todo[0]) + TodoCost(c, todo[1..])
  }

  function ModeCost(c: Config, mode: Mode): nat
    requires IsConfig(c)
  {
    match mode
    case Idle => 1
    case Round(todo, _) => 2 + TodoCost(c, todo)
    case Stopped => 0
  }

  /** At most so many steps are left before the next poll. */
  function StepsLeft(c: Config, s: Watch): nat
    requires IsConfig(c)
  {
    ModeCost(c, s.mode) + TasksCost(s.tasks) + (if s.active then 1 else 0)
  }

  /** Tasks that wait for another attempt have one left. */
  predicate CanRetry(s: Watch) {
    forall i :: 0 <= i < |s.tasks| && s.tasks[i].phase.Sleeping? ==> s.tasks[i].phase.attempt < ATTEMPTS
  }

  // ------------------------------------------------------------------ every step costs

  lemma {:induction false} ReplaceTask(tasks: seq<Task>, i: nat, task: Task)
    requires i < |tasks|
    ensures TasksCost(tasks[i := task]) == TasksCost(tasks) - TaskCost(tasks[i]) + TaskCost(task)
    decreases |tasks|
  {
    var last := |tasks| - 1;
    if i == last {
      assert tasks[i := task][..last] == tasks[..last];
    } else {
      assert tasks[i := task][..last] == tasks[..last][i := task];
      ReplaceTask(tasks[..last], i, task);
    }
  }

  lemma LastTaskCost(tasks: seq<Task>, group: nat, chunks: seq<BlockRange>)
    requires chunks != []
    ensures var last := |chunks| - 1;
            TasksCost(tasks + NewTasks(group, chunks)) ==
            TasksCost(tasks + NewTasks(group, chunks[..last])) + PhaseCost(|BlocksOf(chunks[last])|, Queued)
  {
    var last, all := |chunks| - 1, tasks + NewTasks(group, chunks);
    assert all[..|all| - 1] == tasks + NewTasks(group, chunks[..last]);
  }

  /** The group of a task does not matter. */
  lemma {:induction false} AppendTasks(tasks: seq<Task>, group: nat, chunks: seq<BlockRange>)
    ensures TasksCost(tasks + NewTasks(group, chunks)) == TasksCost(tasks) + TasksCost(NewTasks(0, chunks))
    decreases |chunks|
  {
    if chunks == [] {
      assert tasks + NewTasks(group, chunks) == tasks;
    } else {
      var last := |chunks| - 1;
      AppendTasks(tasks, group, chunks[..last]);
      LastTaskCost(tasks, group, chunks);
      LastTaskCost([], 0, chunks);
      assert [] + NewTasks(0, chunks) == NewTasks(0, chunks);
      assert [] + NewTasks(0, chunks[..last]) == NewTasks(0, chunks[..last]);
    }
  }

  lemma {:induction false} IncompleteAreFewer(completed: seq<BlockRange>, blocks: seq<int>)
    ensures |Incomplete(completed, blocks)| <= |blocks|
    decreases |blocks|
  {
    if blocks != [] {
      IncompleteAreFewer(completed, blocks[..|blocks| - 1]);
    }
  }

  /** Another attempt is paid for by what was set aside for retries. */
  lemma RetryPays(n: nat, attempt: nat)
    requires attempt < ATTEMPTS
    ensures RetryCost(n, attempt) == RetryCost(n, attempt + 1) + AttemptCost(n)
  {
  }

  lemma AttemptIsCheaper(s: Watch, i: nat, attempt: nat)
    requires i < |s.tasks| && attempt < ATTEMPTS
    ensures PhaseCost(|BlocksOf(s.tasks[i].chunk)|, BeginAttempt(s, i, attempt + 1)) <
            RetryCost(|BlocksOf(s.tasks[i].chunk)|, attempt) + 1
  {
    var blocks := BlocksOf(s.tasks[i].chunk);
    IncompleteAreFewer(s.completed, blocks);
    RetryPays(|blocks|, attempt);
  }

  /** A phase that costs less makes the whole cheaper. */
  lemma CheaperPhase(c: Config, s: Watch, i: nat, phase: Phase, next: Watch)
    requires IsConfig(c) && i < |s.tasks| && PhaseCost(|BlocksOf(s.tasks[i].chunk)|, phase) < TaskCost(s.tasks[i])
    requires next.tasks == SetPhase(s, i, phase).tasks && next.mode == s.mode && next.active == s.active
    ensures StepsLeft(c, next) < StepsLeft(c, s)
  {
    ReplaceTask(s.tasks, i, s.tasks[i].(phase := phase));
  }

  /** The phase in which a step leaves its task. */
  lemma TaskStepCosts(c: Config, s: Watch, step: Step)
    requires IsConfig(c) && Enabled(c, s, step) && IsOrderlyStep(s, step) && CanRetry(s)
    requires StepsTask(step) || step.AbortTask?
    ensures var phase := Next(c, s, step).tasks[step.i].phase;
            && PhaseCost(|BlocksOf(s.tasks[step.i].chunk)|, phase) < TaskCost(s.tasks[step.i])
            && (phase.Sleeping? ==> phase.attempt < ATTEMPTS)
  {
    var i, p := step.i, s.tasks[step.i].phase;
    match step
    case StartTask(_) => AttemptIsCheaper(s, i, 0);
    case Wake(_) => AttemptIsCheaper(s, i, p.attempt);
    case _ =>
  }

  lemma TaskStepShape(c: Config, s: Watch, step: Step)
    requires IsConfig(c) && Enabled(c, s, step) && (StepsTask(step) || step.AbortTask?)
    ensures var next := Next(c, s, step);
            && next.tasks == SetPhase(s, step.i, next.tasks[step.i].phase).tasks
            && next.mode == s.mode && next.active == s.active
  {
  }

  lemma NextRangeCosts(c: Config, s: Watch)
    requires IsConfig(c) && Enabled(c, s, NextRange)
    ensures StepsLeft(c, Next(c, s, NextRange)) < StepsLeft(c, s)
  {
    AppendTasks(s.tasks, s.groups, ChunksOf(c, s.mode.todo[0]));
  }

  /** Every step but a poll leaves less to do. */
  lemma StepCosts(c: Config, s: Watch, step: Step)
    requires IsConfig(c) && Enabled(c, s, step) && IsOrderlyStep(s, step) && CanRetry(s) && !step.Poll?
    ensures StepsLeft(c, Next(c, s, step)) < StepsLeft(c, s)
  {
    if StepsTask(step) || step.AbortTask? {
      TaskStepCosts(c, s, step);
      TaskStepShape(c, s, step);
      CheaperPhase(c, s, step.i, Next(c, s, step).tasks[step.i].phase, Next(c, s, step));
    } else if step.NextRange? {
      NextRangeCosts(c, s);
    }
  }

  lemma RetryStep(c: Config, s: Watch, step: Step)
    requires IsConfig(c) && Enabled(c, s, step) && IsOrderlyStep(s, step) && CanRetry(s)
    ensures CanRetry(Next(c, s, step))
  {
    if StepsTask(step) || step.AbortTask? {
      TaskStepCosts(c, s, step);
      TaskStepShape(c, s, step);
    }
  }

  // ------------------------------------------------------------------ whole runs

  /** The length of an orderly run without a poll is bounded by its first state alone. */
  lemma {:induction false} RunsAreBounded(c: Config, s: Watch, steps: seq<Step>)
    requires IsConfig(c) && IsRun(c, s, steps) && IsOrderlyRun(c, s, steps) && NoPoll(steps) && CanRetry(s)
    ensures |steps| <= StepsLeft(c, s) - StepsLeft(c, Exec(c, s, steps))
    decreases |steps|
  {
    if steps != [] {
      StepCosts(c, s, steps[0]);
      RetryStep(c, s, steps[0]);
      RunsAreBounded(c, Next(c, s, steps[0]), steps[1..]);
    }
  }

  /** Every state of an orderly run from a start has such a bound. */
  lemma {:induction false} OrderlyRunCanRetry(c: Config, s: Watch, steps: seq<Step>)
    requires IsConfig(c) && IsRun(c, s, steps) && IsOrderlyRun(c, s, steps)
    requires IsStart(s) || CanRetry(s)
    ensures CanRetry(Exec(c, s, steps))
    decreases |steps|
  {
    if steps != [] {
      RetryStep(c, s, steps[0]);
      OrderlyRunCanRetry(c, Next(c, s, steps[0]), steps[1..]);
    }
  }

  /** The watcher itself has something to do: not a poll, a shutdown or a failure. */
  ghost predicate CanGoOn(c: Config, s: Watch)
    requires IsConfig(c)
  {
    exists step: Step :: Enabled(c, s, step) && IsOrderlyStep(s, step) && !step.Poll? && !step.Shutdown?
  }

  /** In a round there is always something to do. */
  lemma RoundGoesOn(c: Config, s: Watch)
    requires IsConfig(c) && Orderly(s) && s.active && c.maxParallel > 0 && s.mode.Round?
    ensures CanGoOn(c, s)
  {
    var t := RoundCanEnd(c, s);
    var steps: seq<Step> :| IsPath(c, s, steps, t);
    assert steps != [];
    if steps[0].Shutdown? {
      NothingAfterShutdown(c, Next(c, s, steps[0]), steps[1..]);
    }
  }

  predicate NoShutdown(steps: seq<Step>) {
    forall k :: 0 <= k < |steps| ==> !steps[k].Shutdown?
  }

  lemma {:induction false} StaysActive(c: Config, s: Watch, steps: seq<Step>)
    requires IsConfig(c) && IsRun(c, s, steps) && s.active && NoShutdown(steps)
    ensures Exec(c, s, steps).active
    decreases |steps|
  {
    if steps != [] {
      var rest := steps[1..];
      assert forall k :: 0 <= k < |rest| ==> rest[k] == steps[k + 1];
      StaysActive(c, Next(c, s, steps[0]), rest);
    }
  }

  /**
   * Every round ends: whatever the order in which tasks are started, answered, fail and wake, an
   * orderly run from a poll takes a bounded number of steps before the next poll, and one that
   * cannot go on has completed the round.
   */
  lemma EveryRoundEnds(c: Config, s: Watch, latest: int, steps: seq<Step>)
    requires IsConfig(c) && c.maxParallel > 0 && Orderly(s) && AllCare(s) && CanRetry(s) && s.active && s.mode.Idle?
    requires var polled := Next(c, s, Poll(latest));
             IsRun(c, polled, steps) && IsOrderlyRun(c, polled, steps) && NoPoll(steps) && NoShutdown(steps)
    ensures var polled := Next(c, s, Poll(latest));
            var end := Exec(c, polled, steps);
            && |steps| <= StepsLeft(c, polled)
            && if end.mode.Round? then CanGoOn(c, end) else IsRound(c, s, latest, steps, end)
  {
    var polled := Next(c, s, Poll(latest));
    OrderlyStep(c, s, Poll(latest));
    RetryStep(c, s, Poll(latest));
    RunsAreBounded(c, polled, steps);
    StaysActive(c, polled, steps);
    PathStaysOrderly(c, polled, steps);
    var end := Exec(c, polled, steps);
    if end.mode.Round? {
      RoundGoesOn(c, end);
    } else {
      NotStopped(c, polled, steps);
    }
  }

  /** An active watcher has not left its loop. */
  lemma {:induction false} NotStopped(c: Config, s: Watch, steps: seq<Step>)
    requires IsConfig(c) && IsRun(c, s, steps) && s.active && !s.mode.Stopped? && NoShutdown(steps)
    ensures !Exec(c, s, steps).mode.Stopped?
    decreases |steps|
  {
    if steps != [] {
      var rest := steps[1..];
      assert forall k :: 0 <= k < |rest| ==> rest[k] == steps[k + 1];
      NotStopped(c, Next(c, s, steps[0]), rest);
    }
  }
}
