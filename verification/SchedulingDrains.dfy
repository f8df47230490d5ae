/**
 * The promise queue runs empty (p-queue/index.ts): from every state in which it is not paused, the
 * ends of running tasks and the timers alone, at times at which they are due, lead to a state in
 * which nothing waits and nothing runs.
 */
module SchedulingDrains {
  import opened PriorityQueues
  import opened Scheduling
  import opened SchedulingLaws
  import opened RateLimit

  // ------------------------------------------------------------------ work only gets less

  lemma {:induction false} TryStartWork(c: Settings, s: Sched, now: int)
    ensures var r := TryStart(c, s, now).0; r.pending + |r.queue| <= s.pending + |s.queue| && r.paused == s.paused
    decreases |s.queue|
  {
    if s.queue != [] && !s.paused {
      var s1 := Ready(c, s, now);
      if AllowsAnother(c, s1) && s1.queue[0].run.throwsSync {
        TryStartWork(c, Settled(Begin(s1, now), s1.queue[0].run.id), now);
      }
    }
  }

  lemma {:induction false} ProcessQueueWork(c: Settings, s: Sched, now: int)
    ensures var r := ProcessQueue(c, s, now); r.pending + |r.queue| <= s.pending + |s.queue| && r.paused == s.paused
    decreases |s.queue|
  {
    TryStartWork(c, s, now);
    var (next, more) := TryStart(c, s, now);
    if more {
      ProcessQueueWork(c, next, now);
    }
  }

  /** The ends of tasks and the timers: nothing that a caller does. */
  predicate IsInternal(e: Event) {
    e.Finish? || e.Tick? || e.Timeout?
  }

  lemma InternalWork(c: Settings, s: Sched, e: Event, now: int)
    requires IsInternal(e)
    ensures var r := After(c, s, e, now);
            && r.paused == s.paused
            && r.pending + |r.queue| <= s.pending + |s.queue| - (if e.Finish? then 1 else 0)
  {
    match e
    case Finish(id) => TryStartWork(c, Settled(s, id), now);
    case Tick => ProcessQueueWork(c, NewInterval(c, s, Ticked, now), now);
    case Timeout => ProcessQueueWork(c, NewInterval(c, s, Resumed, now), now);
  }

  // ------------------------------------------------------------------ there is always a next event

  function Latest(a: int, b: int): int {
    if a < b then b else a
  }

  /** When the event is due, or already possible. */
  function DueTime(c: Settings, s: Sched, e: Event, clock: int): int {
    if e.Tick? then Latest(clock, s.timing.log.tickFrom + c.interval)
    else if e.Timeout? then Latest(clock, s.timing.log.timeoutFrom + c.interval)
    else clock
  }

  predicate IsDone(s: Sched) {
    s.queue == [] && s.books.running == {}
  }

  /** With work left, some task can end, or a timer is set and makes the queue shorter. */
  lemma NextEvent(c: Settings, s: Sched, known: set<nat>, clock: int) returns (e: Event)
    requires IsSound(c, s) && IsAccounted(s, known) && !s.paused && !IsDone(s)
    ensures CanHappen(s, e) && IsInternal(e)
    ensures e.Finish? || |After(c, s, e, DueTime(c, s, e, clock)).queue| < |s.queue|
  {
    if id: nat :| id in s.books.running {
      e := Finish(id);
    } else {
      assert s.books.running == {};
      e := if s.timing.intervalSet then Tick else Timeout;
      TimersMakeProgress(c, s, e, DueTime(c, s, e, clock));
    }
  }

  lemma DueIsTimed(c: Settings, s: Sched, e: Event, clock: int)
    requires CanHappen(s, e) && IsInternal(e)
    ensures CanHappenTimed(c, s, e, DueTime(c, s, e, clock), clock)
  {
  }

  /** How much is left to do: tasks that run or wait. */
  function Work(s: Sched): int {
    s.pending + |s.queue|
  }

  lemma InternalKeeps(c: Settings, s: Sched, e: Event, now: int, known: set<nat>)
    requires IsSound(c, s) && IsAccounted(s, known) && CanHappen(s, e) && IsInternal(e)
    ensures IsSound(c, After(c, s, e, now)) && IsAccounted(After(c, s, e, now), known)
  {
    EventSound(c, s, e, now);
    EventAccounted(c, s, e, now, known);
  }

  /** The state after such an event is as good as before, with less to do or less to wait for. */
  lemma NextState(c: Settings, s: Sched, known: set<nat>, clock: int) returns (e: Event, now: int, next: Sched)
    requires IsSound(c, s) && IsAccounted(s, known) && !s.paused && !IsDone(s)
    ensures CanHappenTimed(c, s, e, now, clock) && IsInternal(e) && next == After(c, s, e, now)
    ensures IsSound(c, next) && IsAccounted(next, known) && !next.paused
    ensures 0 <= Work(next) <= Work(s) && (Work(next) < Work(s) || |next.queue| < |s.queue|)
  {
    e := NextEvent(c, s, known, clock);
    now := DueTime(c, s, e, clock);
    next := After(c, s, e, now);
    DueIsTimed(c, s, e, clock);
    InternalWork(c, s, e, now);
    InternalKeeps(c, s, e, now, known);
  }

  predicate AllInternal(events: History) {
    forall k :: 0 <= k < |events| ==> IsInternal(events[k].0)
  }

  /** One more event in front of a drain. */
  lemma DrainFirst(c: Settings, s: Sched, e: Event, now: int, clock: int, rest: History, end: Sched)
    requires CanHappenTimed(c, s, e, now, clock) && IsInternal(e)
    requires Leads(c, After(c, s, e, now), rest, now, end) && AllInternal(rest)
    ensures Leads(c, s, [(e, now)] + rest, clock, end) && AllInternal([(e, now)] + rest)
  {
    LeadsOneMore(c, s, e, now, rest, clock, end);
  }

  /**
   * An unpaused queue drains: some timed continuation of task ends and timers alone leaves nothing
   * waiting and nothing running.
   */
  lemma {:induction false} Drain(c: Settings, s: Sched, known: set<nat>, clock: int) returns (events: History, end: Sched)
    requires IsSound(c, s) && IsAccounted(s, known) && !s.paused
    ensures Leads(c, s, events, clock, end) && AllInternal(events) && IsDone(end)
    decreases Work(s), |s.queue|
  {
    if IsDone(s) {
      LeadsNowhere(c, s, clock);
      events, end := [], s;
    } else {
      var e, now, next := NextState(c, s, known, clock);
      var rest;
      rest, end := Drain(c, next, known, now);
      DrainFirst(c, s, e, now, clock, rest, end);
      events := [(e, now)] + rest;
    }
  }

  /** The same from the state after any history that leaves the queue unpaused. */
  lemma EveryQueueDrains(c: Settings, concurrency: Limit, paused: bool, before: History, clock: int)
    requires Arises(c, concurrency, paused, before) && !Replay(c, InitialSched(concurrency, paused), before).paused
    ensures exists events, end ::
              && Leads(c, Replay(c, InitialSched(concurrency, paused), before), events, clock, end)
              && AllInternal(events) && IsDone(end)
  {
    HistorySound(c, InitialSched(concurrency, paused), before);
    ArisenIsAccounted(c, concurrency, paused, before);
    var events, end := Drain(c, Replay(c, InitialSched(concurrency, paused), before), Added(before), clock);
  }
}
