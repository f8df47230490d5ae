/**
 * What the calls of the promise queue do (p-queue/index.ts): pausing and resuming, clearing, setting
 * the concurrency, and that nothing which could start is left waiting.
 */
module SchedulingControls {
  import opened PriorityQueues
  import opened Scheduling
  import opened SchedulingLaws
  import opened SchedulingOrder

  // ------------------------------------------------------------------ the settings in force

  lemma {:induction false} TryStartKeepsSetup(c: Settings, s: Sched, now: int)
    ensures SameSetup(s, TryStart(c, s, now).0)
    decreases |s.queue|
  {
    if s.queue != [] && !s.paused {
      var s1 := Ready(c, s, now);
      if AllowsAnother(c, s1) && s1.queue[0].run.throwsSync {
        TryStartKeepsSetup(c, Settled(Begin(s1, now), s1.queue[0].run.id), now);
      }
    }
  }

  lemma {:induction false} ProcessQueueKeepsSetup(c: Settings, s: Sched, now: int)
    ensures SameSetup(s, ProcessQueue(c, s, now))
    decreases |s.queue|
  {
    TryStartKeepsSetup(c, s, now);
    var (next, more) := TryStart(c, s, now);
    if more {
      ProcessQueueKeepsSetup(c, next, now);
    }
  }

  /** Only these three calls change whether the queue is paused, or its concurrency. */
  lemma EventSetup(c: Settings, s: Sched, e: Event, now: int)
    ensures var r := After(c, s, e, now);
            && (e.Pause? ==> r.paused) && (e.Resume? ==> !r.paused) && (!e.Pause? && !e.Resume? ==> r.paused == s.paused)
            && r.concurrency == if e.SetConcurrency? then e.limit else s.concurrency
  {
    match e
    case Add(job) => TryStartKeepsSetup(c, s.(queue := Insert(s.queue, job)), now);
    case Finish(id) => TryStartKeepsSetup(c, Settled(s, id), now);
    case Pause =>
    case Resume => ProcessQueueKeepsSetup(c, s.(paused := false), now);
    case Clear =>
    case SetConcurrency(limit) => ProcessQueueKeepsSetup(c, s.(concurrency := limit), now);
    case Tick => ProcessQueueKeepsSetup(c, NewInterval(c, s, Ticked, now), now);
    case Timeout => ProcessQueueKeepsSetup(c, NewInterval(c, s, Resumed, now), now);
  }

  predicate NoResume(events: History, k: nat) {
    forall l :: k <= l < |events| ==> !events[l].0.Resume?
  }

  /** The last of the two calls was a pause, or neither came and the queue began paused. */
  ghost predicate IsPausedBy(paused: bool, events: History) {
    (paused && NoResume(events, 0)) || exists k :: 0 <= k < |events| && events[k].0.Pause? && NoResume(events, k)
  }

  lemma PausedByFirst(paused: bool, events: History)
    requires events != []
    ensures IsPausedBy(paused, events) <==>
            IsPausedBy(events[0].0.Pause? || (paused && !events[0].0.Resume?), events[1..])
  {
    var rest := events[1..];
    assert forall l :: 0 <= l < |rest| ==> rest[l] == events[l + 1];
    forall k | 0 <= k < |rest| ensures NoResume(rest, k) <==> NoResume(events, k + 1) {
      assert forall l :: k + 1 <= l < |events| ==> events[l] == rest[l - 1];
    }
    assert forall l :: 1 <= l < |events| ==> events[l] == rest[l - 1];
    if k :| 0 <= k < |events| && events[k].0.Pause? && NoResume(events, k) {
      if k > 0 {
        assert rest[k - 1].0.Pause? && NoResume(rest, k - 1);
      }
    }
    if k :| 0 <= k < |rest| && rest[k].0.Pause? && NoResume(rest, k) {
      assert events[k + 1].0.Pause? && NoResume(events, k + 1);
    }
  }

  lemma {:induction false} ReplayPaused(c: Settings, s: Sched, events: History)
    requires IsHistory(c, s, events)
    ensures Replay(c, s, events).paused <==> IsPausedBy(s.paused, events)
    decreases |events|
  {
    if events != [] {
      EventSetup(c, s, events[0].0, events[0].1);
      PausedByFirst(s.paused, events);
      ReplayPaused(c, After(c, s, events[0].0, events[0].1), events[1..]);
    }
  }

  /** After any history the queue is paused if and only if the calls say so. */
  lemma PausedIff(c: Settings, concurrency: Limit, paused: bool, events: History)
    requires Arises(c, concurrency, paused, events)
    ensures Replay(c, InitialSched(concurrency, paused), events).paused <==> IsPausedBy(paused, events)
  {
    ReplayPaused(c, InitialSched(concurrency, paused), events);
  }

  predicate NoSetting(events: History, k: nat) {
    forall l :: k <= l < |events| ==> !events[l].0.SetConcurrency?
  }

  /** `limit` was set last, or nothing was set and it is the first one. */
  ghost predicate IsLimitBy(first: Limit, events: History, limit: Limit) {
    || (limit == first && NoSetting(events, 0))
    || exists k :: 0 <= k < |events| && events[k].0 == SetConcurrency(limit) && NoSetting(events, k + 1)
  }

  lemma LimitByFirst(first: Limit, events: History, limit: Limit)
    requires events != []
    requires IsLimitBy(if events[0].0.SetConcurrency? then events[0].0.limit else first, events[1..], limit)
    ensures IsLimitBy(first, events, limit)
  {
    var rest := events[1..];
    assert forall l :: 1 <= l < |events| ==> events[l] == rest[l - 1];
    if k :| 0 <= k < |rest| && rest[k].0 == SetConcurrency(limit) && NoSetting(rest, k + 1) {
      assert events[k + 1].0 == SetConcurrency(limit) && NoSetting(events, k + 2);
    } else if events[0].0.SetConcurrency? {
      assert events[0].0 == SetConcurrency(limit) && NoSetting(events, 1);
    }
  }

  lemma {:induction false} ReplayLimit(c: Settings, s: Sched, events: History)
    requires IsHistory(c, s, events)
    ensures IsLimitBy(s.concurrency, events, Replay(c, s, events).concurrency)
    decreases |events|
  {
    if events != [] {
      EventSetup(c, s, events[0].0, events[0].1);
      ReplayLimit(c, After(c, s, events[0].0, events[0].1), events[1..]);
      LimitByFirst(s.concurrency, events, Replay(c, s, events).concurrency);
    }
  }

  /** After any history the concurrency is the one set last. */
  lemma ConcurrencyInForce(c: Settings, concurrency: Limit, paused: bool, events: History)
    requires Arises(c, concurrency, paused, events)
    ensures IsLimitBy(concurrency, events, Replay(c, InitialSched(concurrency, paused), events).concurrency)
  {
    ReplayLimit(c, InitialSched(concurrency, paused), events);
  }

  // ------------------------------------------------------------------ pausing

  /** From a pause to the next resumption no task begins, whatever else happens. */
  lemma {:induction false} NothingBeginsPaused(c: Settings, s: Sched, events: History)
    requires s.paused && IsHistory(c, s, events) && NoResume(events, 0)
    ensures BegunIds(Replay(c, s, events).books.begun) == BegunIds(s.books.begun)
    decreases |events|
  {
    if events != [] {
      var (e, now) := events[0];
      assert !e.Resume?;
      EventSetup(c, s, e, now);
      NothingStartsWhilePaused(c, s, e, now);
      EventStartsPrefix(c, s, e, now);
      assert forall l :: 0 <= l < |events[1..]| ==> events[1..][l] == events[l + 1];
      NothingBeginsPaused(c, After(c, s, e, now), events[1..]);
    }
  }

  // ------------------------------------------------------------------ clearing

  lemma {:induction false} ClearedGrows(c: Settings, s: Sched, events: History)
    requires IsHistory(c, s, events)
    ensures s.books.cleared <= Replay(c, s, events).books.cleared
    decreases |events|
  {
    if events != [] {
      EventCleared(c, s, events[0].0, events[0].1);
      ClearedGrows(c, After(c, s, events[0].0, events[0].1), events[1..]);
    }
  }

  lemma ClearedHasNotBegun(s: Sched, known: set<nat>, id: nat)
    requires IsAccounted(s, known) && id in s.books.cleared
    ensures !HasBegun(s.books.begun, id)
  {
    assert id !in s.books.running + s.books.settled;
  }

  lemma ClearedStays(c: Settings, s: Sched, events: History, known: set<nat>, id: nat)
    requires IsAccounted(s, known) && IsHistory(c, s, events) && id in s.books.cleared
    ensures !HasBegun(Replay(c, s, events).books.begun, id)
  {
    ClearedGrows(c, s, events);
    HistoryAccounted(c, s, events, known);
    ClearedHasNotBegun(Replay(c, s, events), known + Added(events), id);
  }

  /** Clearing empties the queue, and what waited never begins, whatever happens afterwards. */
  lemma ClearedNeverBegins(c: Settings, s: Sched, now: int, events: History, known: set<nat>, id: nat)
    requires IsAccounted(s, known) && id in Ids(s.queue) && IsHistory(c, After(c, s, Clear, now), events)
    ensures After(c, s, Clear, now).queue == []
    ensures !HasBegun(Replay(c, After(c, s, Clear, now), events).books.begun, id)
  {
    EventAccounted(c, s, Clear, now, known);
    EventCleared(c, s, Clear, now);
    ClearedStays(c, After(c, s, Clear, now), events, known, id);
  }

  // ------------------------------------------------------------------ nothing is left waiting needlessly

  /** The head of the queue may not begin: paused, no free slot, or the interval count is used up. */
  predicate IsHeldBack(c: Settings, s: Sched) {
    || s.queue == [] || s.paused || (s.concurrency.Finite? && s.pending >= s.concurrency.n)
    || (c.interval > 0 && c.cap.Finite? && s.timing.count >= c.cap.n)
  }

  lemma {:induction false} ProcessQueueStartsAll(c: Settings, s: Sched, now: int)
    ensures IsHeldBack(c, ProcessQueue(c, s, now))
    decreases |s.queue|
  {
    var (next, more) := TryStart(c, s, now);
    if more {
      ProcessQueueStartsAll(c, next, now);
    }
  }

  /** Resuming, a new concurrency and the timers start every task that may begin. */
  lemma EverythingIsStarted(c: Settings, s: Sched, e: Event, now: int)
    requires e.SetConcurrency? || e.Tick? || e.Timeout? || (e.Resume? && s.paused)
    ensures IsHeldBack(c, After(c, s, e, now))
  {
    match e
    case Resume => ProcessQueueStartsAll(c, s.(paused := false), now);
    case SetConcurrency(limit) => ProcessQueueStartsAll(c, s.(concurrency := limit), now);
    case Tick => ProcessQueueStartsAll(c, NewInterval(c, s, Ticked, now), now);
    case Timeout => ProcessQueueStartsAll(c, NewInterval(c, s, Resumed, now), now);
  }

  lemma AttemptStarts(c: Settings, s: Sched, now: int)
    requires IsBounded(c, s) && !IsHeldBack(c, s)
    ensures |TryStart(c, s, now).0.books.begun| > |s.books.begun|
  {
    TryStartKeepsLine(c, s, now);
    var r := TryStart(c, s, now).0;
    assert TryStart(c, s, now).1;
    assert |Line(r)| == |r.books.begun| + |r.queue| && |Line(s)| == |s.books.begun| + |s.queue|;
  }

  /** The state in which an added or ended task is followed by one attempt. */
  function BeforeAttempt(s: Sched, e: Event): Sched
    requires e.Add? || e.Finish?
  {
    if e.Finish? then Settled(s, e.id) else s.(queue := QueueBefore(s, e))
  }

  /** Whenever a task is added or ends and the head of the queue may begin, it does. */
  lemma HeadIsStarted(c: Settings, s: Sched, e: Event, now: int)
    requires IsBounded(c, s) && (e.Add? || e.Finish?) && !IsHeldBack(c, BeforeAttempt(s, e))
    ensures HasBegun(After(c, s, e, now).books.begun, QueueBefore(s, e)[0].run.id)
  {
    AttemptStarts(c, BeforeAttempt(s, e), now);
    EventStartsPrefix(c, s, e, now);
    var begun, n := After(c, s, e, now).books.begun, |s.books.begun|;
    assert BegunIds(begun)[n] == QueueBefore(s, e)[0].run.id;
    assert begun[n].id == QueueBefore(s, e)[0].run.id;
  }

  // ------------------------------------------------------------------ the idle event

  lemma {:induction false} TryStartAnnounces(c: Settings, s: Sched, now: int)
    requires s.pending >= 0
    ensures var r := TryStart(c, s, now).0; r.pending >= 0 && (r.queue == [] && r.pending == 0 ==> r.idles > s.idles)
    decreases |s.queue|
  {
    if s.queue != [] && !s.paused {
      var s1 := Ready(c, s, now);
      if AllowsAnother(c, s1) && s1.queue[0].run.throwsSync {
        TryStartAnnounces(c, Settled(Begin(s1, now), s1.queue[0].run.id), now);
      }
    }
  }

  lemma {:induction false} ProcessQueueAnnounces(c: Settings, s: Sched, now: int)
    requires s.pending >= 0
    ensures var r := ProcessQueue(c, s, now); r.queue == [] && r.pending == 0 ==> r.idles > s.idles
    decreases |s.queue|
  {
    TryStartAnnounces(c, s, now);
    TryStartIdle(c, s, now);
    var (next, more) := TryStart(c, s, now);
    if more {
      ProcessQueueAnnounces(c, next, now);
    }
  }

  /** The event tries to start something. */
  predicate Attempts(s: Sched, e: Event) {
    !e.Pause? && !e.Clear? && (e.Resume? ==> s.paused)
  }

  /** The idle event is emitted exactly by the attempts that leave nothing waiting and nothing running. */
  lemma IdleIff(c: Settings, s: Sched, e: Event, now: int)
    requires CanHappen(s, e) && s.pending == |s.books.running|
    ensures var r := After(c, s, e, now);
            r.idles > s.idles <==> Attempts(s, e) && r.queue == [] && r.pending == 0
  {
    EventStartsFromFront(c, s, e, now);
    match e
    case Add(job) => TryStartAnnounces(c, s.(queue := Insert(s.queue, job)), now);
    case Finish(id) =>
      assert s.books.running != {};
      TryStartAnnounces(c, Settled(s, id), now);
    case Pause =>
    case Resume => ProcessQueueAnnounces(c, s.(paused := false), now);
    case Clear =>
    case SetConcurrency(limit) => ProcessQueueAnnounces(c, s.(concurrency := limit), now);
    case Tick => ProcessQueueAnnounces(c, NewInterval(c, s, Ticked, now), now);
    case Timeout => ProcessQueueAnnounces(c, NewInterval(c, s, Resumed, now), now);
  }
}
