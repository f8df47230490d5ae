/**
 * The scheduling rules of the task queue (p-queue/index.ts) as functions on its state: one event
 * is one call or one timer callback. `PQueues` proves the class against them.
 */
module Scheduling {
  import opened PriorityQueues

  /** A number from 1 up or `Infinity`. */
  datatype Limit = Infinite | Finite(n: int)

  predicate Below(count: int, limit: Limit) {
    limit.Infinite? || count < limit.n
  }

  predicate IsLimit(limit: Limit) {
    limit.Infinite? || limit.n >= 1
  }

  datatype Settings = Settings(carryover: bool, cap: Limit, interval: nat)

  predicate IsIgnored(c: Settings) {
    c.cap.Infinite? || c.interval == 0
  }

  /** A task; one that throws before it first awaits settles while it is being started. */
  datatype Run = Run(id: nat, throwsSync: bool)

  type Job = Element<Run>

  /** What makes the interval count start again: an attempt to start a task, or one of the timers. */
  datatype Cause = Tried | Ticked | Resumed

  /**
   * A reset of the interval count. `armed` is when the interval that it ends was begun, `timerSet`
   * whether the interval timer was set, `starts` how many tasks began since the reset before.
   */
  datatype Reset = Reset(cause: Cause, time: int, armed: int, timerSet: bool, starts: nat)

  /**
   * All resets, the tasks begun since the last, when the interval timer was armed or last fired,
   * and when the interval was begun whose end the timeout waits for.
   */
  datatype Log = Log(resets: seq<Reset>, starts: nat, tickFrom: int, timeoutFrom: int)

  /** The rate-limit window; timers are only set or not. The log is for specification only. */
  datatype Timing = Timing(count: int, end: int, intervalSet: bool, timeoutSet: bool, log: Log)

  /** The moment a task begins: what ran and counted before it, and what was in force. */
  datatype Launch = Launch(id: nat, time: int, running: int, count: int, limit: Limit, paused: bool)

  /** What became of the tasks that left the queue, and how each one began. */
  datatype Books = Books(running: set<nat>, settled: set<nat>, cleared: set<nat>, begun: seq<Launch>)

  /** The fields of the class, with the books and how often the idle event was emitted. */
  datatype Sched = Sched(
    queue: seq<Job>,
    pending: int,
    timing: Timing,
    concurrency: Limit,
    paused: bool,
    books: Books,
    idles: nat)

  const EMPTY_LOG := Log([], 0, 0, 0)

  /** After construction; setting the concurrency has already found the queue idle once. */
  function InitialSched(concurrency: Limit, paused: bool): Sched {
    Sched([], 0, Timing(0, 0, false, false, EMPTY_LOG), concurrency, paused, Books({}, {}, {}, []), 1)
  }

  // ---------------------------------------------------------------------- starting

  function ResolvePromises(s: Sched): Sched {
    if s.pending == 0 then s.(idles := s.idles + 1) else s
  }

  /** The count that a new interval begins with. */
  function Carried(c: Settings, pending: int): int {
    if c.carryover then pending else 0
  }

  function ResetCount(t: Timing, cause: Cause, now: int, armed: int, count: int): Timing {
    t.(count := count, log := t.log.(resets := t.log.resets + [Reset(cause, now, armed, t.intervalSet, t.log.starts)], starts := 0))
  }

  /** `_isIntervalPaused`: may reset the count or arm the timeout. */
  function IntervalPaused(c: Settings, pending: int, t: Timing, now: int): (Timing, bool) {
    if t.intervalSet then (t, false)
    else if t.end - now < 0 then (ResetCount(t, Tried, now, t.end - c.interval, Carried(c, pending)), false)
    else if t.timeoutSet then (t, true)
    else (t.(timeoutSet := true, log := t.log.(timeoutFrom := t.end - c.interval)), true)
  }

  function InitializeInterval(c: Settings, t: Timing, now: int): Timing {
    if IsIgnored(c) || t.intervalSet then t
    else t.(intervalSet := true, end := now + c.interval, log := t.log.(tickFrom := now))
  }

  predicate AllowsAnother(c: Settings, s: Sched) {
    (IsIgnored(c) || Below(s.timing.count, c.cap)) && Below(s.pending, s.concurrency)
  }

  /** A task that has left the queue begins to run. */
  function Started(s: Sched, id: nat, now: int): Sched {
    s.(pending := s.pending + 1,
       timing := s.timing.(count := s.timing.count + 1, log := s.timing.log.(starts := s.timing.log.starts + 1)),
       books := s.books.(running := s.books.running + {id},
                         begun := s.books.begun + [Launch(id, now, s.pending, s.timing.count, s.concurrency, s.paused)]))
  }

  /** The head of the queue begins to run. */
  function Begin(s: Sched, now: int): Sched
    requires s.queue != []
  {
    Started(s.(queue := s.queue[1..]), s.queue[0].run.id, now)
  }

  /** Task `id` is over. */
  function Settled(s: Sched, id: nat): Sched {
    s.(pending := s.pending - 1,
       books := s.books.(running := s.books.running - {id}, settled := s.books.settled + {id}))
  }

  /** `_tryToStartAnother`. */
  function TryStart(c: Settings, s: Sched, now: int): (r: (Sched, bool))
    ensures |r.0.queue| <= |s.queue|
    ensures r.1 ==> |r.0.queue| < |s.queue|
    decreases |s.queue|, 0
  {
    if s.queue == [] then (ResolvePromises(s.(timing := s.timing.(intervalSet := false))), false)
    else if s.paused then (s, false)
    else
      var (timing, isPaused) := IntervalPaused(c, s.pending, s.timing, now);
      var s1 := s.(timing := timing);
      if !AllowsAnother(c, s1) then (s1, false)
      else
        var run := s1.queue[0].run;
        var s2 := if run.throwsSync then Settle(c, Begin(s1, now), run.id, now) else Begin(s1, now);
        (if isPaused then s2 else s2.(timing := InitializeInterval(c, s2.timing, now)), true)
  }

  /** `_next`: a task is over and another is tried. */
  function Settle(c: Settings, s: Sched, id: nat, now: int): (r: Sched)
    ensures |r.queue| <= |s.queue|
    decreases |s.queue|, 1
  {
    TryStart(c, Settled(s, id), now).0
  }

  function ProcessQueue(c: Settings, s: Sched, now: int): (r: Sched)
    ensures |r.queue| <= |s.queue|
    decreases |s.queue|
  {
    var (next, more) := TryStart(c, s, now);
    if more then ProcessQueue(c, next, now) else next
  }

  /** The beginning of `_onInterval`. */
  function NewInterval(c: Settings, s: Sched, cause: Cause, now: int): Sched {
    var t := s.timing;
    var stop := t.count == 0 && s.pending == 0 && t.intervalSet;
    var armed := if cause.Ticked? then t.log.tickFrom else t.log.timeoutFrom;
    var reset := ResetCount(t, cause, now, armed, Carried(c, s.pending)).(intervalSet := t.intervalSet && !stop);
    s.(timing := if cause.Ticked? then reset.(log := reset.log.(tickFrom := now)) else reset)
  }

  /** `_onInterval`, called by the interval timer or by the timeout. */
  function OnInterval(c: Settings, s: Sched, cause: Cause, now: int): Sched {
    ProcessQueue(c, NewInterval(c, s, cause, now), now)
  }

  function OnResumeInterval(c: Settings, s: Sched, now: int): Sched {
    var s1 := OnInterval(c, s, Resumed, now);
    s1.(timing := InitializeInterval(c, s1.timing, now).(timeoutSet := false))
  }

  // ------------------------------------------------------------------------ events

  datatype Event =
    | Add(job: Job)
    | Finish(id: nat)
    | Pause
    | Resume
    | Clear
    | SetConcurrency(limit: Limit)
    | Tick
    | Timeout

  function Ids(queue: seq<Job>): set<nat> {
    set job | job in queue :: job.run.id
  }

  /** Everything that was ever added. */
  function Known(s: Sched): set<nat> {
    Ids(s.queue) + s.books.running + s.books.settled + s.books.cleared
  }

  predicate CanHappen(s: Sched, e: Event) {
    match e
    case Add(job) => job.run.id !in Known(s)
    case Finish(id) => id in s.books.running
    case SetConcurrency(limit) => IsLimit(limit)
    case Tick => s.timing.intervalSet
    case Timeout => s.timing.timeoutSet
    case _ => true
  }

  function After(c: Settings, s: Sched, e: Event, now: int): Sched {
    match e
    case Add(job) => TryStart(c, s.(queue := Insert(s.queue, job)), now).0
    case Finish(id) => Settle(c, s, id, now)
    case Pause => s.(paused := true)
    case Resume => if s.paused then ProcessQueue(c, s.(paused := false), now) else s
    case Clear => s.(queue := [], books := s.books.(cleared := s.books.cleared + Ids(s.queue)))
    case SetConcurrency(limit) => ProcessQueue(c, s.(concurrency := limit), now)
    case Tick => OnInterval(c, s, Ticked, now)
    case Timeout => OnResumeInterval(c, s, now)
  }

  /** Events with the time at which each happens. */
  type History = seq<(Event, int)>

  predicate IsHistory(c: Settings, s: Sched, events: History)
    decreases |events|
  {
    events == [] ||
    (CanHappen(s, events[0].0) && IsHistory(c, After(c, s, events[0].0, events[0].1), events[1..]))
  }

  function Replay(c: Settings, s: Sched, events: History): Sched
    requires IsHistory(c, s, events)
    decreases |events|
  {
    if events == [] then s else Replay(c, After(c, s, events[0].0, events[0].1), events[1..])
  }
}
