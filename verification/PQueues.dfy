/**
 * The promise queue as a class over the priority queue (p-queue/index.ts). Each method is proved
 * to do what `Scheduling` says, so `SchedulingLaws` holds for every object. The current time is a
 * parameter; timers are flags whose callbacks are called from outside.
 */
module PQueues {
  import opened Wrappers
  import opened PriorityQueues
  import opened Scheduling

  class PQueue {
    const settings: Settings
    var queue: PriorityQueue<Run>
    var pendingCount: int
    var intervalCount: int
    var intervalEnd: int
    var intervalId: bool
    var timeoutId: bool
    var concurrency: Limit
    var isPaused: bool
    ghost var books: Books
    ghost var idles: nat
    ghost var log: Log

    ghost predicate Valid()
      reads this, queue
    {
      queue.Valid()
    }

    ghost function View(): Sched
      reads this, queue
    {
      Sched(queue.queue, pendingCount, Timing(intervalCount, intervalEnd, intervalId, timeoutId, log), concurrency, isPaused, books, idles)
    }

    /** `Err` stands for the type errors raised for numbers below 1. */
    static method Create(settings: Settings, concurrency: Limit, autoStart: bool, now: int) returns (r: Result<PQueue, ()>)
      ensures r.Ok? <==> (settings.cap.Finite? ==> settings.cap.n > 0) && (concurrency.Finite? ==> concurrency.n > 0)
      ensures r.Ok? ==> fresh(r.value) && fresh(r.value.queue) && r.value.Valid() && r.value.settings == settings
      ensures r.Ok? ==> r.value.View() == InitialSched(concurrency, !autoStart)
    {
      if !IsLimit(settings.cap) || !IsLimit(concurrency) {
        return Err(());
      }
      var q := new PQueue(settings, concurrency);
      q.ProcessPending(now);
      q.isPaused := !autoStart;
      return Ok(q);
    }

    constructor (settings: Settings, concurrency: Limit)
      ensures Valid() && fresh(queue) && this.settings == settings
      ensures View() == InitialSched(concurrency, false).(idles := 0)
    {
      this.settings := settings;
      queue := new PriorityQueue<Run>();
      pendingCount, intervalCount, intervalEnd := 0, 0, 0;
      intervalId, timeoutId := false, false;
      this.concurrency := concurrency;
      isPaused := false;
      books, idles, log := Books({}, {}, {}, []), 0, EMPTY_LOG;
    }

    predicate IsIntervalIgnored() {
      settings.cap.Infinite? || settings.interval == 0
    }

    /** `_next` after task `id` has settled. */
    method Next(id: nat, now: int)
      requires Valid()
      modifies this, queue
      ensures Valid() && queue == old(queue) && View() == Settle(settings, old(View()), id, now)
      decreases |queue.queue|, 1
    {
      books := books.(running := books.running - {id}, settled := books.settled + {id});
      pendingCount := pendingCount - 1;
      var _ := TryToStartAnother(now);
    }

    method ResolveAll()
      requires Valid()
      modifies this`idles
      ensures View() == ResolvePromises(old(View()))
    {
      if pendingCount == 0 {
        idles := idles + 1;
      }
    }

    method CheckInterval(now: int) returns (paused: bool)
      requires Valid()
      modifies this`intervalCount, this`timeoutId, this`log
      ensures var (timing, p) := IntervalPaused(settings, pendingCount, old(View()).timing, now);
              paused == p && View() == old(View()).(timing := timing)
    {
      if !intervalId {
        var delay := intervalEnd - now;
        if delay < 0 {
          log := ResetCount(View().timing, Tried, now, intervalEnd - settings.interval, 0).log;
          intervalCount := if settings.carryover then pendingCount else 0;
        } else {
          if !timeoutId {
            log := log.(timeoutFrom := intervalEnd - settings.interval);
            timeoutId := true;
          }
          return true;
        }
      }
      return false;
    }

    method InitializeIntervalIfNeeded(now: int)
      requires Valid()
      modifies this`intervalId, this`intervalEnd, this`log
      ensures View() == old(View()).(timing := InitializeInterval(settings, old(View()).timing, now))
    {
      if IsIntervalIgnored() || intervalId {
        return;
      }
      intervalId := true;
      intervalEnd := now + settings.interval;
      log := log.(tickFrom := now);
    }

    /** The queued function: it counts itself and, if it throws at once, settles at once. */
    method Execute(run: Run, now: int)
      requires Valid()
      modifies this, queue
      ensures Valid() && queue == old(queue)
      ensures View() == if run.throwsSync then Settle(settings, Started(old(View()), run.id, now), run.id, now)
                        else Started(old(View()), run.id, now)
      decreases |queue.queue|, 2
    {
      books := books.(running := books.running + {run.id},
                      begun := books.begun + [Launch(run.id, now, pendingCount, intervalCount, concurrency, isPaused)]);
      log := log.(starts := log.starts + 1);
      pendingCount := pendingCount + 1;
      intervalCount := intervalCount + 1;
      assert View() == Started(old(View()), run.id, now);
      if run.throwsSync {
        Next(run.id, now);
      }
    }

    method TryToStartAnother(now: int) returns (started: bool)
      requires Valid()
      modifies this, queue
      ensures Valid() && queue == old(queue) && (View(), started) == TryStart(settings, old(View()), now)
      decreases |queue.queue|, 0
    {
      if queue.Size() == 0 {
        intervalId := false;
        ResolveAll();
        return false;
      }
      if !isPaused {
        var intervalPaused := CheckInterval(now);
        var canInitializeInterval := !intervalPaused;
        if (IsIntervalIgnored() || Below(intervalCount, settings.cap)) && Below(pendingCount, concurrency) {
          var run := queue.Dequeue();
          Execute(run.value, now);
          if canInitializeInterval {
            InitializeIntervalIfNeeded(now);
          }
          return true;
        }
      }
      return false;
    }

    method ProcessPending(now: int)
      requires Valid()
      modifies this, queue
      ensures Valid() && queue == old(queue) && View() == ProcessQueue(settings, old(View()), now)
    {
      var more := TryToStartAnother(now);
      while more
        invariant Valid() && queue == old(queue)
        invariant ProcessQueue(settings, old(View()), now) == if more then ProcessQueue(settings, View(), now) else View()
        decreases |queue.queue|, more
      {
        more := TryToStartAnother(now);
      }
    }

    method IntervalCallback(now: int, ghost cause: Cause)
      requires Valid()
      modifies this, queue
      ensures Valid() && queue == old(queue) && View() == OnInterval(settings, old(View()), cause, now)
    {
      log := NewInterval(settings, View(), cause, now).timing.log;
      if intervalCount == 0 && pendingCount == 0 && intervalId {
        intervalId := false;
      }
      intervalCount := if settings.carryover then pendingCount else 0;
      assert View() == NewInterval(settings, old(View()), cause, now);
      ProcessPending(now);
    }

    method TimeoutCallback(now: int)
      requires Valid()
      modifies this, queue
      ensures Valid() && queue == old(queue) && View() == OnResumeInterval(settings, old(View()), now)
    {
      IntervalCallback(now, Resumed);
      InitializeIntervalIfNeeded(now);
      timeoutId := false;
    }

    method Enlist(run: Run, priority: Option<int>, now: int)
      requires Valid()
      modifies this, queue
      ensures Valid() && queue == old(queue)
      ensures View() == After(settings, old(View()), Add(Element(if priority.Some? then priority.value else 0, run)), now)
    {
      queue.Enqueue(run, priority);
      var _ := TryToStartAnother(now);
    }

    method SetConcurrencyLimit(limit: Limit, now: int) returns (r: Result<(), ()>)
      requires Valid()
      modifies this, queue
      ensures Valid() && queue == old(queue) && (r.Ok? <==> (limit.Finite? ==> limit.n > 0))
      ensures View() == if r.Ok? then After(settings, old(View()), SetConcurrency(limit), now) else old(View())
    {
      if !IsLimit(limit) {
        return Err(());
      }
      concurrency := limit;
      assert View() == old(View()).(concurrency := limit);
      ProcessPending(now);
      return Ok(());
    }

    method Start(now: int)
      requires Valid()
      modifies this, queue
      ensures Valid() && queue == old(queue) && View() == After(settings, old(View()), Resume, now)
    {
      if !isPaused {
        return;
      }
      isPaused := false;
      ProcessPending(now);
    }

    method Halt()
      requires Valid()
      modifies this`isPaused
      ensures Valid() && View() == After(settings, old(View()), Pause, 0)
    {
      isPaused := true;
    }

    method ClearQueue()
      requires Valid()
      modifies this`queue, this`books
      ensures Valid() && fresh(queue) && View() == After(settings, old(View()), Clear, 0)
    {
      books := books.(cleared := books.cleared + Ids(queue.queue));
      queue := new PriorityQueue<Run>();
    }
  }
}
