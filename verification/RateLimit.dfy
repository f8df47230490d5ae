/**
 * How far the promise queue keeps its rate limit (p-queue/index.ts, options.ts). At most `cap` tasks
 * begin between two resets of the interval count; but resets can come less than an interval apart,
 * and this says when.
 */
module RateLimit {
  import opened PriorityQueues
  import opened Scheduling
  import opened SchedulingLaws

  // ------------------------------------------------------------------ timed histories

  /**
   * Time does not run backwards and no timer fires early: the interval timer an interval after it
   * was armed or last fired, the timeout at the end of the interval it waits for. Both may be late.
   */
  predicate IsTimed(c: Settings, s: Sched, events: History, clock: int)
    decreases |events|
  {
    events == [] ||
    (var (e, now) := events[0];
     && now >= clock
     && (e.Tick? ==> now >= s.timing.log.tickFrom + c.interval)
     && (e.Timeout? ==> now >= s.timing.log.timeoutFrom + c.interval)
     && IsTimed(c, After(c, s, e, now), events[1..], now))
  }

  /** The second reset comes less than an interval after the first. */
  predicate IsEarly(c: Settings, p: Reset, r: Reset) {
    r.time < p.time + c.interval
  }

  /**
   * The first reset came while the interval that the second ends was running. For a tick it was a
   * late timeout; for an attempt, a tick or a late timeout after which the timer was cleared on an
   * empty queue, or the same moment (a task that threw at once), or an attempt after which nothing
   * began; for the timeout, anything, but an attempt only when the timeout was already overdue.
   */
  predicate CameInside(c: Settings, p: Reset, r: Reset) {
    && r.armed < p.time
    && match r.cause
       case Ticked => p.cause.Resumed? && p.timerSet
       case Tried =>
         || p.cause.Ticked? || (p.cause.Resumed? && p.timerSet)
         || p.time == r.time || (p.cause.Tried? && r.starts == 0)
       case Resumed => p.cause.Tried? ==> r.armed + c.interval < p.time
  }

  /** What can be said of two resets in a row: the interval that `r` ends is over, early or not. */
  predicate IsExplained(c: Settings, p: Reset, r: Reset) {
    p.time <= r.time && r.armed + c.interval <= r.time && (IsEarly(c, p, r) ==> CameInside(c, p, r))
  }

  predicate AllExplained(c: Settings, resets: seq<Reset>) {
    forall k :: 0 < k < |resets| ==> IsExplained(c, resets[k - 1], resets[k])
  }

  // ------------------------------------------------------------------ the window

  /** The last reset came after the running interval was begun; why, and what still holds then. */
  predicate IsStale(c: Settings, t: Timing, l: Reset) {
    || l.cause.Ticked? || (l.cause.Resumed? && l.timerSet)
    || (l.cause.Tried? && !t.intervalSet && t.log.starts == 0 && t.end < l.time)
  }

  /** In the middle of an event: the last reset belongs to it and the timer is still to be armed. */
  predicate IsPending(t: Timing, l: Reset, now: int) {
    l.time == now && !t.intervalSet && (l.cause.Tried? ==> t.end < now)
  }

  predicate FitsLast(c: Settings, t: Timing, l: Reset, now: int) {
    && l.time <= now
    && (t.intervalSet ==> l.time <= t.log.tickFrom || (l.cause.Resumed? && l.timerSet))
    && (t.timeoutSet && l.cause.Tried? && t.log.timeoutFrom < l.time ==> t.log.timeoutFrom + c.interval < l.time)
  }

  function LastReset(t: Timing): Reset
    requires t.log.resets != []
  {
    t.log.resets[|t.log.resets| - 1]
  }

  predicate FitsClock(c: Settings, t: Timing, now: int) {
    && t.end <= now + c.interval
    && (t.intervalSet ==> t.end - c.interval <= t.log.tickFrom <= now)
    && (t.timeoutSet ==> t.log.timeoutFrom + c.interval <= t.end)
    && (t.log.resets != [] ==> FitsLast(c, t, LastReset(t), now))
    && AllExplained(c, t.log.resets)
  }

  /** What holds between events. */
  predicate IsSettled(c: Settings, t: Timing, now: int) {
    && FitsClock(c, t, now)
    && (t.log.resets != [] && t.end - c.interval < LastReset(t).time ==> IsStale(c, t, LastReset(t)))
  }

  /** What holds at any moment of an event. */
  predicate IsConsistent(c: Settings, t: Timing, now: int) {
    && FitsClock(c, t, now)
    && (t.log.resets != [] && t.end - c.interval < LastReset(t).time ==>
          IsStale(c, t, LastReset(t)) || IsPending(t, LastReset(t), now))
  }

  /** One more reset, explained by the one before. */
  lemma ResetExplained(c: Settings, t: Timing, r: Reset)
    requires AllExplained(c, t.log.resets)
    requires t.log.resets != [] ==> IsExplained(c, LastReset(t), r)
    ensures AllExplained(c, t.log.resets + [r])
  {
  }

  lemma TriedReset(c: Settings, t: Timing, now: int, count: int)
    requires c.interval > 0 && IsConsistent(c, t, now) && !t.intervalSet && t.end < now
    ensures IsSettled(c, ResetCount(t, Tried, now, t.end - c.interval, count), now)
  {
    ResetExplained(c, t, Reset(Tried, now, t.end - c.interval, t.intervalSet, t.log.starts));
  }

  lemma CheckedTiming(c: Settings, pending: int, t: Timing, now: int)
    requires c.interval > 0 && IsConsistent(c, t, now)
    ensures var (r, paused) := IntervalPaused(c, pending, t, now);
            && IsConsistent(c, r, now) && (IsSettled(c, t, now) ==> IsSettled(c, r, now))
            && (paused ==> !r.intervalSet && now <= r.end)
            && (!paused && !r.intervalSet ==> r.log.resets != [] && IsPending(r, LastReset(r), now))
  {
    if !t.intervalSet && t.end - now < 0 {
      TriedReset(c, t, now, Carried(c, pending));
    }
  }

  function OneMore(t: Timing): Timing {
    t.(count := t.count + 1, log := t.log.(starts := t.log.starts + 1))
  }

  /** A start is consistent; where no timer is to be armed afterwards it leaves things settled. */
  lemma StartedTiming(c: Settings, t: Timing, now: int)
    requires IsConsistent(c, t, now)
    requires t.intervalSet || now <= t.end || (t.log.resets != [] && IsPending(t, LastReset(t), now))
    ensures IsConsistent(c, OneMore(t), now)
    ensures IsSettled(c, t, now) && (t.intervalSet || now <= t.end) ==> IsSettled(c, OneMore(t), now)
  {
  }

  lemma ArmedTiming(c: Settings, t: Timing, now: int)
    requires !IsIgnored(c) && IsConsistent(c, t, now)
    ensures IsSettled(c, InitializeInterval(c, t, now), now)
  {
  }

  lemma ClearedTiming(c: Settings, t: Timing, now: int)
    requires IsConsistent(c, t, now)
    ensures IsConsistent(c, t.(intervalSet := false), now)
    ensures IsSettled(c, t, now) ==> IsSettled(c, t.(intervalSet := false), now)
  {
  }

  // ------------------------------------------------------------------ attempts and events

  lemma {:induction false} TryStartTimes(c: Settings, s: Sched, now: int)
    requires !IsIgnored(c) && IsConsistent(c, s.timing, now)
    ensures var r := TryStart(c, s, now).0;
            IsConsistent(c, r.timing, now) && (IsSettled(c, s.timing, now) ==> IsSettled(c, r.timing, now))
    decreases |s.queue|
  {
    if s.queue == [] {
      ClearedTiming(c, s.timing, now);
    } else if !s.paused {
      CheckedTiming(c, s.pending, s.timing, now);
      var s1 := Ready(c, s, now);
      if AllowsAnother(c, s1) {
        BegunTimes(c, s, s1, now);
      }
    }
  }

  /** The rest of an attempt once a task is allowed to begin. */
  lemma {:induction false} BegunTimes(c: Settings, s: Sched, s1: Sched, now: int)
    requires !IsIgnored(c) && IsConsistent(c, s1.timing, now) && s.queue != [] && !s.paused
    requires s1 == Ready(c, s, now) && AllowsAnother(c, s1)
    requires IsSettled(c, s.timing, now) ==> IsSettled(c, s1.timing, now)
    requires var paused := IntervalPaused(c, s.pending, s.timing, now).1;
             && (paused ==> !s1.timing.intervalSet && now <= s1.timing.end)
             && (!paused && !s1.timing.intervalSet ==>
                   s1.timing.log.resets != [] && IsPending(s1.timing, LastReset(s1.timing), now))
    ensures var r := TryStart(c, s, now).0;
            IsConsistent(c, r.timing, now) && (IsSettled(c, s.timing, now) ==> IsSettled(c, r.timing, now))
    decreases |s.queue|, 0
  {
    var run, begun := s1.queue[0].run, Begin(s1, now);
    StartedTiming(c, s1.timing, now);
    assert begun.timing == OneMore(s1.timing);
    var s2 := if run.throwsSync then Settle(c, begun, run.id, now) else begun;
    if run.throwsSync {
      TryStartTimes(c, Settled(begun, run.id), now);
    }
    ArmedTiming(c, s2.timing, now);
  }

  lemma {:induction false} ProcessQueueTimes(c: Settings, s: Sched, now: int)
    requires !IsIgnored(c) && IsConsistent(c, s.timing, now)
    ensures var r := ProcessQueue(c, s, now);
            IsConsistent(c, r.timing, now) && (IsSettled(c, s.timing, now) ==> IsSettled(c, r.timing, now))
    decreases |s.queue|
  {
    TryStartTimes(c, s, now);
    var (next, more) := TryStart(c, s, now);
    if more {
      ProcessQueueTimes(c, next, now);
    }
  }

  lemma TickedReset(c: Settings, s: Sched, now: int)
    requires c.interval > 0 && IsSettled(c, s.timing, now) && s.timing.intervalSet
    requires now >= s.timing.log.tickFrom + c.interval
    ensures IsSettled(c, NewInterval(c, s, Ticked, now).timing, now)
  {
    var t := s.timing;
    ResetExplained(c, t, Reset(Ticked, now, t.log.tickFrom, t.intervalSet, t.log.starts));
  }

  lemma ResumedReset(c: Settings, s: Sched, now: int)
    requires c.interval > 0 && IsSettled(c, s.timing, now) && s.timing.timeoutSet
    requires now >= s.timing.log.timeoutFrom + c.interval
    ensures IsConsistent(c, NewInterval(c, s, Resumed, now).timing, now)
  {
    var t := s.timing;
    ResetExplained(c, t, Reset(Resumed, now, t.log.timeoutFrom, t.intervalSet, t.log.starts));
  }

  lemma TickTimes(c: Settings, s: Sched, now: int)
    requires !IsIgnored(c) && IsSettled(c, s.timing, now) && s.timing.intervalSet
    requires now >= s.timing.log.tickFrom + c.interval
    ensures IsSettled(c, OnInterval(c, s, Ticked, now).timing, now)
  {
    TickedReset(c, s, now);
    ProcessQueueTimes(c, NewInterval(c, s, Ticked, now), now);
  }

  lemma TimeoutTimes(c: Settings, s: Sched, now: int)
    requires !IsIgnored(c) && IsSettled(c, s.timing, now) && s.timing.timeoutSet
    requires now >= s.timing.log.timeoutFrom + c.interval
    ensures IsSettled(c, OnResumeInterval(c, s, now).timing, now)
  {
    ResumedReset(c, s, now);
    ProcessQueueTimes(c, NewInterval(c, s, Resumed, now), now);
    ArmedTiming(c, OnInterval(c, s, Resumed, now).timing, now);
  }

  lemma EventTimes(c: Settings, s: Sched, e: Event, now: int)
    requires !IsIgnored(c) && CanHappen(s, e) && IsSettled(c, s.timing, now)
    requires e.Tick? ==> now >= s.timing.log.tickFrom + c.interval
    requires e.Timeout? ==> now >= s.timing.log.timeoutFrom + c.interval
    ensures IsSettled(c, After(c, s, e, now).timing, now)
  {
    match e
    case Add(job) => TryStartTimes(c, s.(queue := Insert(s.queue, job)), now);
    case Finish(id) => TryStartTimes(c, Settled(s, id), now);
    case Pause =>
    case Resume => ProcessQueueTimes(c, s.(paused := false), now);
    case Clear =>
    case SetConcurrency(limit) => ProcessQueueTimes(c, s.(concurrency := limit), now);
    case Tick => TickTimes(c, s, now);
    case Timeout => TimeoutTimes(c, s, now);
  }

  /** The time of the last event. */
  function EndTime(events: History, clock: int): int {
    if events == [] then clock else events[|events| - 1].1
  }

  lemma {:induction false} HistoryTimes(c: Settings, s: Sched, events: History, clock: int)
    requires !IsIgnored(c) && IsHistory(c, s, events) && IsTimed(c, s, events, clock) && IsSettled(c, s.timing, clock)
    ensures IsSettled(c, Replay(c, s, events).timing, EndTime(events, clock))
    decreases |events|
  {
    if events != [] {
      var (e, now) := events[0];
      assert IsSettled(c, s.timing, now);
      EventTimes(c, s, e, now);
      HistoryTimes(c, After(c, s, e, now), events[1..], now);
      assert EndTime(events, clock) == EndTime(events[1..], now);
    }
  }

  /**
   * In every timed history, of two resets in a row the second is early if and only if the first
   * came inside the interval that the second ends, in one of the ways that `CameInside` lists, and
   * the second comes before an interval has passed since.
   */
  lemma EarlyResetIff(c: Settings, concurrency: Limit, paused: bool, events: History, k: nat)
    requires Arises(c, concurrency, paused, events) && c.cap.Finite? && c.interval > 0
    requires IsTimed(c, InitialSched(concurrency, paused), events, 0)
    requires 0 < k < |Replay(c, InitialSched(concurrency, paused), events).timing.log.resets|
    ensures var resets := Replay(c, InitialSched(concurrency, paused), events).timing.log.resets;
            var p, r := resets[k - 1], resets[k];
            && p.time <= r.time && r.armed + c.interval <= r.time
            && (IsEarly(c, p, r) <==> CameInside(c, p, r) && r.time < p.time + c.interval)
  {
    HistoryTimes(c, InitialSched(concurrency, paused), events, 0);
  }

  /** The check before a start resets the count less than an interval after the last reset. */
  predicate ResetsEarly(c: Settings, s: Sched, now: int) {
    var before, after := s.timing.log.resets, Ready(c, s, now).timing.log.resets;
    before != [] && |after| == |before| + 1 && IsEarly(c, before[|before| - 1], after[|before|])
  }

  /**
   * After every timed history an attempt resets early if and only if no timer is set, the last
   * interval to be begun is over, and the last reset is less than an interval ago. That reset came
   * inside this interval: a tick, a late timeout, or an attempt after which nothing began.
   */
  lemma AttemptResetsEarlyIff(c: Settings, concurrency: Limit, paused: bool, events: History, now: int)
    requires Arises(c, concurrency, paused, events) && c.cap.Finite? && c.interval > 0
    requires IsTimed(c, InitialSched(concurrency, paused), events, 0) && now >= EndTime(events, 0)
    ensures var s := Replay(c, InitialSched(concurrency, paused), events); var t := s.timing;
            && (ResetsEarly(c, s, now) <==>
                  !t.intervalSet && t.end < now && t.log.resets != [] && now < LastReset(t).time + c.interval)
            && (ResetsEarly(c, s, now) ==> t.end - c.interval < LastReset(t).time && IsStale(c, t, LastReset(t)))
  {
    HistoryTimes(c, InitialSched(concurrency, paused), events, 0);
  }

  // ------------------------------------------------------------------ the cap

  /** How many tasks began before the last of these resets. */
  function TotalStarts(resets: seq<Reset>): nat {
    if resets == [] then 0 else TotalStarts(resets[..|resets| - 1]) + resets[|resets| - 1].starts
  }

  /** The log counts every start, and the interval count is at least that since the last reset. */
  predicate IsCounted(c: Settings, s: Sched)
    requires !IsIgnored(c)
  {
    && s.pending >= 0 && s.timing.log.starts <= s.timing.count
    && |s.books.begun| == TotalStarts(s.timing.log.resets) + s.timing.log.starts
    && forall k :: 0 <= k < |s.timing.log.resets| ==> s.timing.log.resets[k].starts <= c.cap.n
  }

  predicate IsLimited(c: Settings, s: Sched) {
    !IsIgnored(c) && IsBounded(c, s) && IsCounted(c, s)
  }

  /** A reset moves the starts since the last one into the log. */
  lemma ResetCounts(c: Settings, s: Sched, t: Timing, r: Reset)
    requires IsLimited(c, s) && r.starts == s.timing.log.starts
    requires t.log.resets == s.timing.log.resets + [r] && t.log.starts == 0 && t.count == Carried(c, s.pending)
    ensures IsCounted(c, s.(timing := t))
  {
    assert t.log.resets[..|t.log.resets| - 1] == s.timing.log.resets;
  }

  lemma ReadyCounts(c: Settings, s: Sched, now: int)
    requires IsLimited(c, s)
    ensures IsLimited(c, Ready(c, s, now))
  {
    ReadyBounded(c, s, now);
    var t := s.timing;
    if !t.intervalSet && t.end - now < 0 {
      ResetCounts(c, s, Ready(c, s, now).timing, Reset(Tried, now, t.end - c.interval, false, t.log.starts));
    }
  }

  lemma NewIntervalCounts(c: Settings, s: Sched, cause: Cause, now: int)
    requires IsLimited(c, s)
    ensures IsLimited(c, NewInterval(c, s, cause, now))
  {
    var r := NewInterval(c, s, cause, now);
    ResetCounts(c, s, r.timing, r.timing.log.resets[|s.timing.log.resets|]);
  }

  lemma BeginCounts(c: Settings, s: Sched, now: int)
    requires IsLimited(c, s) && s.queue != [] && AllowsAnother(c, s)
    ensures IsLimited(c, Begin(s, now))
  {
  }

  /** Arming the timer and other changes that leave counts and log alone. */
  lemma SameCounts(c: Settings, s: Sched, t: Timing)
    requires IsLimited(c, s) && t.count == s.timing.count
    requires t.log.resets == s.timing.log.resets && t.log.starts == s.timing.log.starts
    ensures IsLimited(c, s.(timing := t))
  {
  }

  lemma {:induction false} TryStartCounts(c: Settings, s: Sched, now: int)
    requires IsLimited(c, s)
    ensures IsLimited(c, TryStart(c, s, now).0)
    decreases |s.queue|
  {
    if s.queue == [] {
      SameCounts(c, s, s.timing.(intervalSet := false));
    } else if !s.paused {
      var s1 := Ready(c, s, now);
      ReadyCounts(c, s, now);
      if AllowsAnother(c, s1) {
        BeginCounts(c, s1, now);
        var s2 := Begin(s1, now);
        if s1.queue[0].run.throwsSync {
          TryStartCounts(c, Settled(s2, s1.queue[0].run.id), now);
          s2 := Settle(c, s2, s1.queue[0].run.id, now);
        }
        SameCounts(c, s2, InitializeInterval(c, s2.timing, now));
      }
    }
  }

  lemma {:induction false} ProcessQueueCounts(c: Settings, s: Sched, now: int)
    requires IsLimited(c, s)
    ensures IsLimited(c, ProcessQueue(c, s, now))
    decreases |s.queue|
  {
    TryStartCounts(c, s, now);
    var (next, more) := TryStart(c, s, now);
    if more {
      ProcessQueueCounts(c, next, now);
    }
  }

  lemma SettledCounts(c: Settings, s: Sched, id: nat)
    requires IsLimited(c, s) && id in s.books.running && s.pending == |s.books.running|
    ensures IsLimited(c, Settled(s, id))
  {
    assert s.books.running != {};
  }

  lemma TimerCounts(c: Settings, s: Sched, cause: Cause, now: int)
    requires IsLimited(c, s)
    ensures IsLimited(c, OnInterval(c, s, cause, now))
  {
    NewIntervalCounts(c, s, cause, now);
    ProcessQueueCounts(c, NewInterval(c, s, cause, now), now);
  }

  lemma TimeoutCounts(c: Settings, s: Sched, now: int)
    requires IsLimited(c, s)
    ensures IsLimited(c, OnResumeInterval(c, s, now))
  {
    TimerCounts(c, s, Resumed, now);
    var s1 := OnInterval(c, s, Resumed, now);
    SameCounts(c, s1, InitializeInterval(c, s1.timing, now).(timeoutSet := false));
  }

  /** Changes that concern neither counts nor log. */
  lemma SettingKeepsCounts(c: Settings, s: Sched, r: Sched)
    requires IsLimited(c, s) && IsLimit(r.concurrency)
    requires r.timing == s.timing && r.pending == s.pending && r.books.begun == s.books.begun
    ensures IsLimited(c, r)
  {
  }

  lemma EventCounts(c: Settings, s: Sched, e: Event, now: int)
    requires IsLimited(c, s) && CanHappen(s, e) && s.pending == |s.books.running|
    ensures IsLimited(c, After(c, s, e, now))
  {
    match e
    case Add(job) =>
      SettingKeepsCounts(c, s, s.(queue := Insert(s.queue, job)));
      TryStartCounts(c, s.(queue := Insert(s.queue, job)), now);
    case Finish(id) =>
      SettledCounts(c, s, id);
      TryStartCounts(c, Settled(s, id), now);
    case Pause => SettingKeepsCounts(c, s, After(c, s, e, now));
    case Resume =>
      SettingKeepsCounts(c, s, s.(paused := false));
      ProcessQueueCounts(c, s.(paused := false), now);
    case Clear => SettingKeepsCounts(c, s, After(c, s, e, now));
    case SetConcurrency(limit) =>
      SettingKeepsCounts(c, s, s.(concurrency := limit));
      ProcessQueueCounts(c, s.(concurrency := limit), now);
    case Tick => TimerCounts(c, s, Ticked, now);
    case Timeout => TimeoutCounts(c, s, now);
  }

  lemma {:induction false} HistoryCounts(c: Settings, s: Sched, events: History, known: set<nat>)
    requires IsLimited(c, s) && IsAccounted(s, known) && IsHistory(c, s, events)
    ensures IsLimited(c, Replay(c, s, events))
    decreases |events|
  {
    if events != [] {
      var (e, now) := events[0];
      EventCounts(c, s, e, now);
      EventAccounted(c, s, e, now, known);
      HistoryCounts(c, After(c, s, e, now), events[1..], KnownAfter(known, e));
    }
  }

  /**
   * Over every history, timed or not, at most `cap` tasks begin between two resets and since the
   * last, and these are all that began.
   */
  lemma AtMostCapBetweenResets(c: Settings, concurrency: Limit, paused: bool, events: History)
    requires Arises(c, concurrency, paused, events) && c.cap.Finite? && c.interval > 0
    ensures var s := Replay(c, InitialSched(concurrency, paused), events); var log := s.timing.log;
            && log.starts <= c.cap.n && (forall k :: 0 <= k < |log.resets| ==> log.resets[k].starts <= c.cap.n)
            && |s.books.begun| == TotalStarts(log.resets) + log.starts
  {
    assert Ids([]) == {};
    assert IsAccounted(InitialSched(concurrency, paused), {});
    HistoryCounts(c, InitialSched(concurrency, paused), events, {});
  }

  // ------------------------------------------------------------------ the rate

  predicate NoneEarly(c: Settings, resets: seq<Reset>) {
    forall k :: 0 < k < |resets| ==> !IsEarly(c, resets[k - 1], resets[k])
  }

  lemma {:induction false} ResetsSpread(c: Settings, resets: seq<Reset>, k: nat)
    requires NoneEarly(c, resets) && k < |resets|
    ensures resets[k].time >= resets[0].time + k * c.interval
  {
    if k > 0 {
      ResetsSpread(c, resets, k - 1);
      assert !IsEarly(c, resets[k - 1], resets[k]);
      assert k * c.interval == (k - 1) * c.interval + c.interval;
    }
  }

  lemma {:induction false} TotalIsCapped(cap: nat, resets: seq<Reset>)
    requires forall k :: 0 <= k < |resets| ==> resets[k].starts <= cap
    ensures TotalStarts(resets) <= cap * |resets|
    decreases |resets|
  {
    if resets != [] {
      TotalIsCapped(cap, resets[..|resets| - 1]);
      assert cap * |resets| == cap * (|resets| - 1) + cap;
    }
  }

  /**
   * Without early resets the configured rate is kept in the long run: `n` resets take `n - 1`
   * intervals at least, and no more than `cap` tasks begin for each of them and since.
   */
  lemma RateWithoutEarlyResets(c: Settings, concurrency: Limit, paused: bool, events: History)
    requires Arises(c, concurrency, paused, events) && c.cap.Finite? && c.interval > 0
    ensures var s := Replay(c, InitialSched(concurrency, paused), events); var resets := s.timing.log.resets;
            resets != [] && NoneEarly(c, resets) ==>
              && |s.books.begun| <= c.cap.n * (|resets| + 1)
              && resets[|resets| - 1].time - resets[0].time >= (|resets| - 1) * c.interval
  {
    AtMostCapBetweenResets(c, concurrency, paused, events);
    var resets := Replay(c, InitialSched(concurrency, paused), events).timing.log.resets;
    TotalIsCapped(c.cap.n, resets);
    assert c.cap.n * (|resets| + 1) == c.cap.n * |resets| + c.cap.n;
    if resets != [] && NoneEarly(c, resets) {
      ResetsSpread(c, resets, |resets| - 1);
    }
  }

  // ------------------------------------------------------------------ early resets occur

  /** One task per 10 ms. */
  const ONE_PER_TEN := Settings(false, Finite(1), 10)

  function Task(id: nat, throwsSync: bool): Job {
    Element(0, Run(id, throwsSync))
  }

  function StartTimes(s: Sched): seq<int> {
    seq(|s.books.begun|, k requires 0 <= k < |s.books.begun| => s.books.begun[k].time)
  }

  ghost predicate CanHappenTimed(c: Settings, s: Sched, e: Event, now: int, clock: int) {
    && CanHappen(s, e) && now >= clock
    && (e.Tick? ==> now >= s.timing.log.tickFrom + c.interval)
    && (e.Timeout? ==> now >= s.timing.log.timeoutFrom + c.interval)
  }

  /** `events` are a timed history from `s` that leads to `r`. */
  ghost predicate Leads(c: Settings, s: Sched, events: History, clock: int, r: Sched) {
    IsHistory(c, s, events) && IsTimed(c, s, events, clock) && Replay(c, s, events) == r
  }

  lemma LeadsNowhere(c: Settings, s: Sched, clock: int)
    ensures Leads(c, s, [], clock, s)
  {
  }

  lemma LeadsOneMore(c: Settings, s: Sched, e: Event, now: int, rest: History, clock: int, r: Sched)
    requires CanHappenTimed(c, s, e, now, clock) && Leads(c, After(c, s, e, now), rest, now, r)
    ensures Leads(c, s, [(e, now)] + rest, clock, r)
  {
    var events := [(e, now)] + rest;
    assert events[0] == (e, now) && events[1..] == rest;
  }
}
