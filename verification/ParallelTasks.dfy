/**
 * The bounded task runner (`parallel` in utils/async.ts): a queue of tasks, the counters `pending`
 * and `running`, and the function `next` that is called again whenever a task is over. It is what
 * the guard for starting chunk tasks in `Watcher` rests on.
 */
module ParallelTasks {

  /** The moment a task starts: which one, and how many were running before. */
  datatype Start = Start(task: nat, running: int)

  /** The variables of one call, with the log of starts and the tasks that are over. */
  datatype Pool = Pool(
    taskQueue: seq<nat>,
    pending: int,
    running: int,
    aborted: bool,
    starts: seq<Start>,
    finished: set<nat>)

  /** Before the first `next`; the abort handle may have been triggered already. */
  function InitialPool(n: nat, aborted: bool): Pool {
    Pool(seq(n, i => i), n, 0, aborted, [], {})
  }

  /** The first queued task is started. */
  function Begin(p: Pool): Pool
    requires p.taskQueue != []
  {
    p.(taskQueue := p.taskQueue[1..], pending := p.pending - 1, running := p.running + 1,
       starts := p.starts + [Start(p.taskQueue[0], p.running)])
  }

  /** What `next` does; an empty queue with tasks pending is the illegal state it reports. */
  function StartNext(maxConcurrent: nat, p: Pool): Pool
    decreases |p.taskQueue|
  {
    if p.aborted || p.running >= maxConcurrent || p.pending <= 0 then p
    else if p.taskQueue == [] then p.(pending := p.pending - 1, running := p.running + 1)
    else StartNext(maxConcurrent, Begin(p))
  }

  /** Task `i` is over, whether it succeeded or failed. */
  function Done(p: Pool, i: nat): Pool {
    p.(running := p.running - 1, finished := p.finished + {i})
  }

  class ParallelRun {
    const maxConcurrent: nat
    var taskQueue: seq<nat>
    var pending: int
    var running: int
    var aborted: bool
    ghost var starts: seq<Start>
    ghost var finished: set<nat>

    ghost function View(): Pool
      reads this
    {
      Pool(taskQueue, pending, running, aborted, starts, finished)
    }

    constructor (n: nat, maxConcurrent: nat, aborted: bool)
      ensures this.maxConcurrent == maxConcurrent
      ensures View() == StartNext(maxConcurrent, InitialPool(n, aborted))
    {
      this.maxConcurrent := maxConcurrent;
      taskQueue, pending, running, this.aborted := seq(n, i => i), n, 0, aborted;
      starts, finished := [], {};
      new;
      Next();
    }

    method Next()
      modifies this
      ensures View() == StartNext(maxConcurrent, old(View()))
    {
      while !aborted && running < maxConcurrent && pending > 0
        invariant StartNext(maxConcurrent, View()) == StartNext(maxConcurrent, old(View()))
        decreases |taskQueue|
      {
        running := running + 1;
        pending := pending - 1;
        if taskQueue == [] {
          return;
        }
        starts := starts + [Start(taskQueue[0], running - 1)];
        taskQueue := taskQueue[1..];
      }
    }

    /** The callback passed to the task. */
    method TaskCompleted(i: nat)
      modifies this
      ensures View() == StartNext(maxConcurrent, Done(old(View()), i))
    {
      running := running - 1;
      finished := finished + {i};
      Next();
    }

    method Abort()
      modifies this`aborted
      ensures View() == old(View()).(aborted := true)
    {
      aborted := true;
    }
  }

  // --------------------------------------------------------------------- histories

  datatype Event = TaskOver(i: nat) | AbortSignal

  /** Only a task that has started and is not over can end. */
  predicate CanHappen(p: Pool, e: Event) {
    e.TaskOver? ==> e.i < |p.starts| && e.i !in p.finished
  }

  function After(maxConcurrent: nat, p: Pool, e: Event): Pool {
    match e
    case TaskOver(i) => StartNext(maxConcurrent, Done(p, i))
    case AbortSignal => p.(aborted := true)
  }

  predicate IsHistory(maxConcurrent: nat, p: Pool, events: seq<Event>)
    decreases |events|
  {
    events == [] || (CanHappen(p, events[0]) && IsHistory(maxConcurrent, After(maxConcurrent, p, events[0]), events[1..]))
  }

  function Replay(maxConcurrent: nat, p: Pool, events: seq<Event>): Pool
    requires IsHistory(maxConcurrent, p, events)
    decreases |events|
  {
    if events == [] then p else Replay(maxConcurrent, After(maxConcurrent, p, events[0]), events[1..])
  }

  /** The state after the call with `n` tasks and the given events. */
  function StateAfter(n: nat, maxConcurrent: nat, aborted: bool, events: seq<Event>): Pool
    requires IsHistory(maxConcurrent, StartNext(maxConcurrent, InitialPool(n, aborted)), events)
  {
    Replay(maxConcurrent, StartNext(maxConcurrent, InitialPool(n, aborted)), events)
  }

  // --------------------------------------------------------------------- invariant

  /** The tasks were started in order, each once, and each while fewer than the limit were running. */
  predicate StartedInOrder(n: nat, maxConcurrent: nat, p: Pool) {
    && |p.starts| + |p.taskQueue| == n
    && (forall k :: 0 <= k < |p.taskQueue| ==> p.taskQueue[k] == |p.starts| + k)
    && (forall k :: 0 <= k < |p.starts| ==> p.starts[k].task == k && 0 <= p.starts[k].running < maxConcurrent)
  }

  /** The counters are exact: `pending` tasks are queued, `running` are started and not over. */
  predicate CountersExact(p: Pool) {
    && p.pending == |p.taskQueue|
    && (forall i :: i in p.finished ==> i < |p.starts|)
    && p.running == |p.starts| - |p.finished|
  }

  predicate IsPool(n: nat, maxConcurrent: nat, p: Pool) {
    StartedInOrder(n, maxConcurrent, p) && CountersExact(p) && 0 <= p.running <= maxConcurrent
  }

  /** No slot is left free while tasks wait. */
  predicate IsBusy(maxConcurrent: nat, p: Pool) {
    p.aborted || p.pending == 0 || p.running == maxConcurrent
  }

  lemma {:induction false} StartNextKeeps(n: nat, maxConcurrent: nat, p: Pool)
    requires IsPool(n, maxConcurrent, p)
    ensures var r := StartNext(maxConcurrent, p);
            && IsPool(n, maxConcurrent, r) && IsBusy(maxConcurrent, r)
            && p.starts <= r.starts && r.finished == p.finished && r.aborted == p.aborted
    decreases |p.taskQueue|
  {
    if !p.aborted && p.running < maxConcurrent && p.pending > 0 {
      StartNextKeeps(n, maxConcurrent, Begin(p));
    }
  }

  lemma {:induction false} StartedCount(finished: set<nat>, k: nat)
    requires forall i :: i in finished ==> i < k
    ensures |finished| <= k
    ensures |finished| == k <==> forall i: nat :: i < k ==> i in finished
    decreases k
  {
    if k > 0 {
      var fewer := finished - {k - 1};
      StartedCount(fewer, k - 1);
      assert k - 1 in finished ==> finished == fewer + {k - 1};
      assert k - 1 !in finished ==> finished == fewer;
    }
  }

  lemma DoneKeeps(n: nat, maxConcurrent: nat, p: Pool, i: nat)
    requires IsPool(n, maxConcurrent, p) && i < |p.starts| && i !in p.finished
    ensures IsPool(n, maxConcurrent, Done(p, i))
  {
    StartedCount(p.finished + {i}, |p.starts|);
  }

  lemma {:induction false} HistoryKeeps(n: nat, maxConcurrent: nat, p: Pool, events: seq<Event>)
    requires IsPool(n, maxConcurrent, p) && IsBusy(maxConcurrent, p) && IsHistory(maxConcurrent, p, events)
    ensures var r := Replay(maxConcurrent, p, events); IsPool(n, maxConcurrent, r) && IsBusy(maxConcurrent, r)
    decreases |events|
  {
    if events != [] {
      var e := events[0];
      if e.TaskOver? {
        DoneKeeps(n, maxConcurrent, p, e.i);
        StartNextKeeps(n, maxConcurrent, Done(p, e.i));
      }
      HistoryKeeps(n, maxConcurrent, After(maxConcurrent, p, e), events[1..]);
    }
  }

  /**
   * After any events: `running` is the number of tasks that started and are not over and never
   * exceeds the limit, the tasks start in order and at most once, each into a free slot, and no
   * slot stays free while tasks wait and no abort has come.
   */
  lemma ParallelismBounded(n: nat, maxConcurrent: nat, aborted: bool, events: seq<Event>)
    requires IsHistory(maxConcurrent, StartNext(maxConcurrent, InitialPool(n, aborted)), events)
    ensures var p := StateAfter(n, maxConcurrent, aborted, events); IsPool(n, maxConcurrent, p) && IsBusy(maxConcurrent, p)
  {
    StartNextKeeps(n, maxConcurrent, InitialPool(n, aborted));
    HistoryKeeps(n, maxConcurrent, StartNext(maxConcurrent, InitialPool(n, aborted)), events);
  }

  lemma {:induction false} StartNextKeepsAbort(maxConcurrent: nat, p: Pool)
    ensures StartNext(maxConcurrent, p).aborted == p.aborted
    decreases |p.taskQueue|
  {
    if !p.aborted && p.running < maxConcurrent && p.pending > 0 && p.taskQueue != [] {
      StartNextKeepsAbort(maxConcurrent, Begin(p));
    }
  }

  lemma {:induction false} ReplayAborted(maxConcurrent: nat, p: Pool, events: seq<Event>)
    requires IsHistory(maxConcurrent, p, events)
    ensures Replay(maxConcurrent, p, events).aborted <==> p.aborted || AbortSignal in events
    decreases |events|
  {
    if events != [] {
      if events[0].TaskOver? {
        StartNextKeepsAbort(maxConcurrent, Done(p, events[0].i));
      }
      ReplayAborted(maxConcurrent, After(maxConcurrent, p, events[0]), events[1..]);
      assert events == [events[0]] + events[1..];
    }
  }

  /** Aborted is the call whose signal has come, before it or since. */
  lemma AbortedIff(n: nat, maxConcurrent: nat, aborted: bool, events: seq<Event>)
    requires IsHistory(maxConcurrent, StartNext(maxConcurrent, InitialPool(n, aborted)), events)
    ensures StateAfter(n, maxConcurrent, aborted, events).aborted <==> aborted || AbortSignal in events
  {
    StartNextKeepsAbort(maxConcurrent, InitialPool(n, aborted));
    ReplayAborted(maxConcurrent, StartNext(maxConcurrent, InitialPool(n, aborted)), events);
  }

  lemma {:induction false} NothingStartsAborted(maxConcurrent: nat, p: Pool, events: seq<Event>)
    requires p.aborted && IsHistory(maxConcurrent, p, events)
    ensures var r := Replay(maxConcurrent, p, events); r.aborted && r.starts == p.starts
    decreases |events|
  {
    if events != [] {
      NothingStartsAborted(maxConcurrent, After(maxConcurrent, p, events[0]), events[1..]);
    }
  }

  /** If there is a slot and no abort, the call only comes to rest when all its tasks are over. */
  lemma RestsWhenAllAreOver(n: nat, maxConcurrent: nat, events: seq<Event>)
    requires maxConcurrent > 0
    requires IsHistory(maxConcurrent, StartNext(maxConcurrent, InitialPool(n, false)), events)
    ensures var p := StateAfter(n, maxConcurrent, false, events);
            !p.aborted ==> (p.running == 0 <==> forall i: nat :: i < n ==> i in p.finished)
  {
    ParallelismBounded(n, maxConcurrent, false, events);
    var p := StateAfter(n, maxConcurrent, false, events);
    StartedCount(p.finished, |p.starts|);
    if !p.aborted && forall i: nat :: i < n ==> i in p.finished {
      if |p.starts| < n {
        assert |p.starts| in p.finished;
      }
    }
  }
}
