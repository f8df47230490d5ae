/** What the task queue guarantees over every history of calls, task ends and timer callbacks. */
module SchedulingLaws {
  import opened PriorityQueues
  import opened Scheduling

  // -------------------------------------------------------------------- the limits

  /** The interval count is within the cap, and with carry-over the running tasks count towards it. */
  predicate IsBounded(c: Settings, s: Sched) {
    && IsLimit(c.cap) && IsLimit(s.concurrency)
    && (!IsIgnored(c) ==> s.timing.count <= c.cap.n)
    && (c.carryover ==> s.pending <= s.timing.count)
  }

  predicate SameSetup(s: Sched, r: Sched) {
    r.paused == s.paused && r.concurrency == s.concurrency
  }

  /** From `s` to `r` the number of running tasks rose at most to the concurrency limit of `s`. */
  predicate WithinSlots(s: Sched, r: Sched) {
    r.pending <= s.pending || s.concurrency.Infinite? || r.pending <= s.concurrency.n
  }

  /** While paused or at the concurrency limit nothing is started. */
  lemma NothingStartedWhenFull(c: Settings, s: Sched, now: int)
    requires s.paused || !Below(s.pending, s.concurrency)
    ensures var (r, more) := TryStart(c, s, now); !more && r.queue == s.queue && r.books == s.books
  {
  }

  /** The state in which the head of the queue is started, if it is. */
  function Ready(c: Settings, s: Sched, now: int): Sched {
    s.(timing := IntervalPaused(c, s.pending, s.timing, now).0)
  }

  lemma ReadyBounded(c: Settings, s: Sched, now: int)
    requires IsBounded(c, s)
    ensures IsBounded(c, Ready(c, s, now))
    ensures s.queue != [] && AllowsAnother(c, Ready(c, s, now)) ==> IsBounded(c, Begin(Ready(c, s, now), now))
  {
  }

  lemma {:induction false} TryStartBounded(c: Settings, s: Sched, now: int)
    requires IsBounded(c, s)
    ensures var r := TryStart(c, s, now).0; IsBounded(c, r) && SameSetup(s, r) && WithinSlots(s, r)
    decreases |s.queue|
  {
    if s.queue != [] && !s.paused {
      ReadyBounded(c, s, now);
      var s1 := Ready(c, s, now);
      if AllowsAnother(c, s1) && s1.queue[0].run.throwsSync {
        TryStartBounded(c, Settled(Begin(s1, now), s1.queue[0].run.id), now);
      }
    }
  }

  lemma {:induction false} ProcessQueueBounded(c: Settings, s: Sched, now: int)
    requires IsBounded(c, s)
    ensures var r := ProcessQueue(c, s, now); IsBounded(c, r) && SameSetup(s, r) && WithinSlots(s, r)
    decreases |s.queue|
  {
    TryStartBounded(c, s, now);
    var (next, more) := TryStart(c, s, now);
    if more {
      ProcessQueueBounded(c, next, now);
    }
  }

  // ------------------------------------------------------------------- the accounts

  predicate DistinctIds(queue: seq<Job>) {
    forall i, j :: 0 <= i < j < |queue| ==> queue[i].run.id != queue[j].run.id
  }

  /** The sets `a` to `d` do not overlap and make up `all`. */
  predicate IsPartition(a: set<nat>, b: set<nat>, c: set<nat>, d: set<nat>, all: set<nat>) {
    a !! b && a !! c && a !! d && b !! c && b !! d && c !! d && a + b + c + d == all
  }

  predicate HasBegun(begun: seq<Launch>, id: nat) {
    exists k :: 0 <= k < |begun| && begun[k].id == id
  }

  /** The list of starts names each task that is running or settled, and each once. */
  ghost predicate IsLogged(b: Books) {
    && (forall id: nat :: HasBegun(b.begun, id) <==> id in b.running + b.settled)
    && |b.begun| == |b.running + b.settled|
  }

  lemma LogStart(b: Books, start: Launch)
    requires IsLogged(b) && start.id !in b.running + b.settled
    ensures IsLogged(b.(running := b.running + {start.id}, begun := b.begun + [start]))
  {
    var more := b.begun + [start];
    forall id: nat ensures HasBegun(more, id) <==> HasBegun(b.begun, id) || id == start.id {
      assert more[|b.begun|] == start;
      if HasBegun(b.begun, id) {
        var k :| 0 <= k < |b.begun| && b.begun[k].id == id;
        assert more[k].id == id;
      }
    }
    assert (b.running + {start.id}) + b.settled == (b.running + b.settled) + {start.id};
  }

  lemma LogEnd(b: Books, id: nat)
    requires IsLogged(b) && id in b.running
    ensures IsLogged(b.(running := b.running - {id}, settled := b.settled + {id}))
  {
    assert (b.running - {id}) + (b.settled + {id}) == b.running + b.settled;
  }

  /** Every known task is in exactly one place. */
  ghost predicate IsAccounted(s: Sched, known: set<nat>) {
    IsPlaced(s, known) && IsLogged(s.books)
  }

  predicate IsPlaced(s: Sched, known: set<nat>) {
    && DistinctIds(s.queue)
    && IsPartition(Ids(s.queue), s.books.running, s.books.settled, s.books.cleared, known)
    && s.pending == |s.books.running|
  }

  lemma FirstToSecond(x: nat, a: set<nat>, b: set<nat>, c: set<nat>, d: set<nat>, all: set<nat>)
    requires IsPartition(a, b, c, d, all) && x in a
    ensures IsPartition(a - {x}, b + {x}, c, d, all) && |b + {x}| == |b| + 1
  {
  }

  lemma SecondToThird(x: nat, a: set<nat>, b: set<nat>, c: set<nat>, d: set<nat>, all: set<nat>)
    requires IsPartition(a, b, c, d, all) && x in b
    ensures IsPartition(a, b - {x}, c + {x}, d, all) && |b - {x}| == |b| - 1
  {
  }

  lemma IdsOfRest(queue: seq<Job>)
    requires queue != [] && DistinctIds(queue)
    ensures DistinctIds(queue[1..]) && queue[0].run.id in Ids(queue)
    ensures Ids(queue[1..]) == Ids(queue) - {queue[0].run.id}
  {
    assert queue == [queue[0]] + queue[1..];
  }

  lemma BeginPlaced(s: Sched, now: int, known: set<nat>)
    requires IsPlaced(s, known) && s.queue != []
    ensures IsPlaced(Begin(s, now), known) && s.queue[0].run.id in Begin(s, now).books.running
    ensures s.queue[0].run.id !in s.books.running + s.books.settled
  {
    IdsOfRest(s.queue);
    FirstToSecond(s.queue[0].run.id, Ids(s.queue), s.books.running, s.books.settled, s.books.cleared, known);
  }

  lemma BeginAccounted(s: Sched, now: int, known: set<nat>)
    requires IsAccounted(s, known) && s.queue != []
    ensures IsAccounted(Begin(s, now), known) && s.queue[0].run.id in Begin(s, now).books.running
  {
    BeginPlaced(s, now, known);
    LogStart(s.books, Launch(s.queue[0].run.id, now, s.pending, s.timing.count, s.concurrency, s.paused));
  }

  lemma SettledPlaced(s: Sched, id: nat, known: set<nat>)
    requires IsPlaced(s, known) && id in s.books.running
    ensures IsPlaced(Settled(s, id), known)
  {
    SecondToThird(id, Ids(s.queue), s.books.running, s.books.settled, s.books.cleared, known);
  }

  lemma SettledAccounted(s: Sched, id: nat, known: set<nat>)
    requires IsAccounted(s, known) && id in s.books.running
    ensures IsAccounted(Settled(s, id), known)
  {
    SettledPlaced(s, id, known);
    LogEnd(s.books, id);
  }

  /** Only queue, books and the number of running tasks matter. */
  lemma SamePlaces(s: Sched, r: Sched, known: set<nat>)
    requires IsAccounted(s, known) && r.queue == s.queue && r.books == s.books && r.pending == s.pending
    ensures IsAccounted(r, known)
  {
  }

  lemma {:induction false} TryStartAccounted(c: Settings, s: Sched, now: int, known: set<nat>)
    requires IsAccounted(s, known)
    ensures IsAccounted(TryStart(c, s, now).0, known)
    decreases |s.queue|
  {
    if s.queue != [] && !s.paused {
      var s1 := Ready(c, s, now);
      SamePlaces(s, s1, known);
      if AllowsAnother(c, s1) {
        BeginAccounted(s1, now, known);
        var run := s1.queue[0].run;
        var s2 := Begin(s1, now);
        if run.throwsSync {
          SettledAccounted(s2, run.id, known);
          TryStartAccounted(c, Settled(s2, run.id), now, known);
          s2 := Settle(c, s2, run.id, now);
        }
        SamePlaces(s2, TryStart(c, s, now).0, known);
      }
    } else {
      SamePlaces(s, TryStart(c, s, now).0, known);
    }
  }

  lemma {:induction false} ProcessQueueAccounted(c: Settings, s: Sched, now: int, known: set<nat>)
    requires IsAccounted(s, known)
    ensures IsAccounted(ProcessQueue(c, s, now), known)
    decreases |s.queue|
  {
    TryStartAccounted(c, s, now, known);
    var (next, more) := TryStart(c, s, now);
    if more {
      ProcessQueueAccounted(c, next, now, known);
    }
  }

  lemma IdsOfConcat(a: seq<Job>, b: seq<Job>)
    ensures Ids(a + b) == Ids(a) + Ids(b)
  {
  }

  lemma IdsOfOneMore(queue: seq<Job>, job: Job)
    ensures Ids(queue + [job]) == Ids(queue) + {job.run.id}
  {
  }

  lemma IdsOfInserted(queue: seq<Job>, job: Job)
    ensures Ids(Insert(queue, job)) == Ids(queue) + {job.run.id}
  {
    var k := Rank(queue, job.priority);
    var front, back := queue[..k], queue[k..];
    assert queue == front + back;
    IdsOfConcat(front, back);
    IdsOfOneMore(front, job);
    IdsOfConcat(front + [job], back);
  }

  lemma InsertedAt(queue: seq<Job>, job: Job, i: nat)
    requires i <= |queue|
    ensures var k := Rank(queue, job.priority);
            Insert(queue, job)[i] == if i < k then queue[i] else if i == k then job else queue[i - 1]
  {
  }

  lemma DistinctInserted(queue: seq<Job>, job: Job)
    requires DistinctIds(queue) && job.run.id !in Ids(queue)
    ensures DistinctIds(Insert(queue, job))
  {
    var more := Insert(queue, job);
    forall i, j | 0 <= i < j < |more| ensures more[i].run.id != more[j].run.id {
      InsertedAt(queue, job, i);
      InsertedAt(queue, job, j);
      assert forall l :: 0 <= l < |queue| ==> queue[l].run.id in Ids(queue);
    }
  }

  lemma NewToFirst(x: nat, a: set<nat>, b: set<nat>, c: set<nat>, d: set<nat>, all: set<nat>)
    requires IsPartition(a, b, c, d, all) && x !in all
    ensures IsPartition(a + {x}, b, c, d, all + {x}) && x !in a
  {
  }

  lemma AddAccounted(s: Sched, job: Job, known: set<nat>)
    requires IsAccounted(s, known) && job.run.id !in known
    ensures IsAccounted(s.(queue := Insert(s.queue, job)), known + {job.run.id})
  {
    NewToFirst(job.run.id, Ids(s.queue), s.books.running, s.books.settled, s.books.cleared, known);
    IdsOfInserted(s.queue, job);
    DistinctInserted(s.queue, job);
  }

  // ------------------------------------------------------------------------- starts

  /** The task began unpaused, with a free slot, and with the interval count below the cap if it counts. */
  predicate IsAllowed(c: Settings, start: Launch) {
    && !start.paused && (start.limit.Finite? ==> start.running < start.limit.n)
    && (c.interval > 0 && c.cap.Finite? ==> start.count < c.cap.n)
  }

  /** From `s` to `r` starts were only added, each allowed under this concurrency limit. */
  predicate AddsAllowed(c: Settings, s: Sched, limit: Limit, r: Sched) {
    && s.books.begun <= r.books.begun
    && forall k :: |s.books.begun| <= k < |r.books.begun| ==> IsAllowed(c, r.books.begun[k]) && r.books.begun[k].limit == limit
  }

  lemma {:induction false} TryStartAllowed(c: Settings, s: Sched, now: int)
    ensures var r := TryStart(c, s, now).0; AddsAllowed(c, s, s.concurrency, r) && r.concurrency == s.concurrency
    decreases |s.queue|
  {
    if s.queue != [] && !s.paused {
      var s1 := Ready(c, s, now);
      if AllowsAnother(c, s1) {
        var s2 := Begin(s1, now);
        assert AddsAllowed(c, s, s.concurrency, s2);
        if s1.queue[0].run.throwsSync {
          TryStartAllowed(c, Settled(s2, s1.queue[0].run.id), now);
        }
      }
    }
  }

  lemma {:induction false} ProcessQueueAllowed(c: Settings, s: Sched, now: int)
    ensures AddsAllowed(c, s, s.concurrency, ProcessQueue(c, s, now))
    decreases |s.queue|
  {
    TryStartAllowed(c, s, now);
    var (next, more) := TryStart(c, s, now);
    if more {
      ProcessQueueAllowed(c, next, now);
    }
  }

  // ----------------------------------------------------------------------- liveness

  /** A waiting queue will be looked at again: concurrency is used up or a timer is set. */
  predicate IsWatched(c: Settings, s: Sched, pending: int) {
    || !Below(pending, s.concurrency)
    || (!IsIgnored(c) && (s.timing.intervalSet || s.timing.timeoutSet || (c.carryover && !Below(pending, c.cap))))
  }

  predicate IsLive(c: Settings, s: Sched) {
    !s.paused && s.queue != [] ==> IsWatched(c, s, s.pending)
  }

  /** An attempt that starts nothing leaves a waiting queue watched. */
  lemma NothingStarted(c: Settings, s: Sched, now: int)
    requires IsBounded(c, s) && !TryStart(c, s, now).1
    ensures IsLive(c, TryStart(c, s, now).0)
  {
  }

  /** One attempt leaves a waiting queue watched if it would be so with one more task running. */
  lemma {:induction false} TryStartLive(c: Settings, s: Sched, now: int)
    requires IsBounded(c, s) && (|s.queue| <= 1 || IsWatched(c, s, s.pending + 1))
    ensures IsLive(c, TryStart(c, s, now).0)
    decreases |s.queue|
  {
    if !TryStart(c, s, now).1 {
      NothingStarted(c, s, now);
    } else {
      ReadyBounded(c, s, now);
      var s1 := Ready(c, s, now);
      if s1.queue[0].run.throwsSync {
        TryStartLive(c, Settled(Begin(s1, now), s1.queue[0].run.id), now);
      }
    }
  }

  lemma {:induction false} ProcessQueueLive(c: Settings, s: Sched, now: int)
    requires IsBounded(c, s)
    ensures IsLive(c, ProcessQueue(c, s, now))
    decreases |s.queue|
  {
    var (next, more) := TryStart(c, s, now);
    if more {
      TryStartBounded(c, s, now);
      ProcessQueueLive(c, next, now);
    } else {
      NothingStarted(c, s, now);
    }
  }

  // ------------------------------------------------------------------------- order

  /** `r` is what is left of the queue `q` when tasks leave at the front. */
  predicate IsSuffix(q: seq<Job>, r: seq<Job>) {
    |r| <= |q| && r == q[|q| - |r|..]
  }

  lemma {:induction false} TryStartTakesFront(c: Settings, s: Sched, now: int)
    ensures IsSuffix(s.queue, TryStart(c, s, now).0.queue)
    decreases |s.queue|
  {
    if s.queue != [] && !s.paused {
      var s1 := Ready(c, s, now);
      if AllowsAnother(c, s1) && s1.queue[0].run.throwsSync {
        TryStartTakesFront(c, Settled(Begin(s1, now), s1.queue[0].run.id), now);
      }
    }
  }

  /** Tasks are started in the order of the queue. */
  lemma {:induction false} ProcessQueueTakesFront(c: Settings, s: Sched, now: int)
    ensures IsSuffix(s.queue, ProcessQueue(c, s, now).queue)
    decreases |s.queue|
  {
    TryStartTakesFront(c, s, now);
    var (next, more) := TryStart(c, s, now);
    if more {
      ProcessQueueTakesFront(c, next, now);
    }
  }

  // -------------------------------------------------------------------------- idle

  /** Between `s` and `r` the idle event was emitted only if nothing is queued or running in `r`. */
  predicate IdleMeansDone(s: Sched, r: Sched) {
    r.idles >= s.idles && (r.idles > s.idles ==> r.queue == [] && r.pending == 0)
  }

  lemma {:induction false} TryStartIdle(c: Settings, s: Sched, now: int)
    ensures IdleMeansDone(s, TryStart(c, s, now).0)
    decreases |s.queue|
  {
    if s.queue != [] && !s.paused {
      var s1 := Ready(c, s, now);
      if AllowsAnother(c, s1) && s1.queue[0].run.throwsSync {
        TryStartIdle(c, Settled(Begin(s1, now), s1.queue[0].run.id), now);
      }
    }
  }

  lemma {:induction false} ProcessQueueIdle(c: Settings, s: Sched, now: int)
    ensures IdleMeansDone(s, ProcessQueue(c, s, now))
    decreases |s.queue|
  {
    TryStartIdle(c, s, now);
    var (next, more) := TryStart(c, s, now);
    if more {
      ProcessQueueIdle(c, next, now);
      if next.idles > s.idles {
        NothingLeftToStart(c, next, now);
      }
    }
  }

  lemma NothingLeftToStart(c: Settings, s: Sched, now: int)
    requires s.queue == []
    ensures var r := ProcessQueue(c, s, now); r.queue == [] && r.pending == s.pending
  {
  }

  // ------------------------------------------------------------------------ events

  /** The limits, and nothing that could start is forgotten. */
  predicate IsSound(c: Settings, s: Sched) {
    IsBounded(c, s) && IsLive(c, s)
  }

  lemma ProcessQueueSound(c: Settings, s: Sched, now: int)
    requires IsBounded(c, s)
    ensures var r := ProcessQueue(c, s, now); IsSound(c, r) && SameSetup(s, r) && WithinSlots(s, r)
  {
    ProcessQueueBounded(c, s, now);
    ProcessQueueLive(c, s, now);
  }

  lemma TryStartSound(c: Settings, s: Sched, now: int)
    requires IsBounded(c, s)
    requires s.paused || |s.queue| <= 1 || IsWatched(c, s, s.pending + 1)
    ensures var r := TryStart(c, s, now).0; IsSound(c, r) && SameSetup(s, r) && WithinSlots(s, r)
  {
    TryStartBounded(c, s, now);
    if s.paused {
      NothingStartedWhenFull(c, s, now);
    } else {
      TryStartLive(c, s, now);
    }
  }

  /** The concurrency limit in force after an event. */
  function LimitAfter(s: Sched, e: Event): Limit {
    if e.SetConcurrency? then e.limit else s.concurrency
  }

  /** The number of running tasks rises at most to the concurrency limit. */
  predicate KeepsConcurrency(s: Sched, e: Event, r: Sched) {
    r.pending <= s.pending || LimitAfter(s, e).Infinite? || r.pending <= LimitAfter(s, e).n
  }

  lemma EventSound(c: Settings, s: Sched, e: Event, now: int)
    requires IsSound(c, s) && CanHappen(s, e)
    ensures var r := After(c, s, e, now); IsSound(c, r) && KeepsConcurrency(s, e, r)
  {
    match e
    case Add(job) => TryStartSound(c, s.(queue := Insert(s.queue, job)), now);
    case Finish(id) => TryStartSound(c, Settled(s, id), now);
    case Pause =>
    case Resume =>
      if s.paused {
        ProcessQueueSound(c, s.(paused := false), now);
      }
    case Clear =>
    case SetConcurrency(limit) => ProcessQueueSound(c, s.(concurrency := limit), now);
    case Tick => ProcessQueueSound(c, NewInterval(c, s, Ticked, now), now);
    case Timeout => ProcessQueueSound(c, NewInterval(c, s, Resumed, now), now);
  }

  /** Each task that an event starts, nested starts included, begins within all limits. */
  lemma EventStartsAllowed(c: Settings, s: Sched, e: Event, now: int)
    ensures AddsAllowed(c, s, LimitAfter(s, e), After(c, s, e, now))
  {
    match e
    case Add(job) => TryStartAllowed(c, s.(queue := Insert(s.queue, job)), now);
    case Finish(id) => TryStartAllowed(c, Settled(s, id), now);
    case Pause =>
    case Resume => ProcessQueueAllowed(c, s.(paused := false), now);
    case Clear =>
    case SetConcurrency(limit) => ProcessQueueAllowed(c, s.(concurrency := limit), now);
    case Tick => ProcessQueueAllowed(c, NewInterval(c, s, Ticked, now), now);
    case Timeout => ProcessQueueAllowed(c, NewInterval(c, s, Resumed, now), now);
  }

  /** The tasks known after an event. */
  function KnownAfter(known: set<nat>, e: Event): set<nat> {
    if e.Add? then known + {e.job.run.id} else known
  }

  lemma AllToFourth(a: set<nat>, b: set<nat>, c: set<nat>, d: set<nat>, all: set<nat>)
    requires IsPartition(a, b, c, d, all)
    ensures IsPartition({}, b, c, d + a, all)
  {
  }

  lemma ClearAccounted(s: Sched, known: set<nat>)
    requires IsAccounted(s, known)
    ensures IsAccounted(s.(queue := [], books := s.books.(cleared := s.books.cleared + Ids(s.queue))), known)
  {
    AllToFourth(Ids(s.queue), s.books.running, s.books.settled, s.books.cleared, known);
    assert Ids([]) == {};
  }

  lemma EventAccounted(c: Settings, s: Sched, e: Event, now: int, known: set<nat>)
    requires IsAccounted(s, known) && CanHappen(s, e)
    ensures IsAccounted(After(c, s, e, now), KnownAfter(known, e))
  {
    match e
    case Add(job) =>
      AddAccounted(s, job, known);
      TryStartAccounted(c, s.(queue := Insert(s.queue, job)), now, known + {job.run.id});
    case Finish(id) =>
      SettledAccounted(s, id, known);
      TryStartAccounted(c, Settled(s, id), now, known);
    case Pause =>
    case Resume =>
      if s.paused {
        ProcessQueueAccounted(c, s.(paused := false), now, known);
      }
    case Clear => ClearAccounted(s, known);
    case SetConcurrency(limit) => ProcessQueueAccounted(c, s.(concurrency := limit), now, known);
    case Tick => ProcessQueueAccounted(c, NewInterval(c, s, Ticked, now), now, known);
    case Timeout => ProcessQueueAccounted(c, NewInterval(c, s, Resumed, now), now, known);
  }

  /** The queue of an event before anything is started from it. */
  function QueueBefore(s: Sched, e: Event): seq<Job> {
    match e
    case Add(job) => Insert(s.queue, job)
    case Clear => []
    case _ => s.queue
  }

  /**
   * Tasks leave the queue at the front only, in the order of priority and then of arrival that
   * the priority queue keeps; the idle event means that nothing is queued or running.
   */
  lemma EventStartsFromFront(c: Settings, s: Sched, e: Event, now: int)
    ensures IsSuffix(QueueBefore(s, e), After(c, s, e, now).queue)
    ensures IdleMeansDone(s, After(c, s, e, now))
  {
    match e
    case Add(job) =>
      TryStartTakesFront(c, s.(queue := Insert(s.queue, job)), now);
      TryStartIdle(c, s.(queue := Insert(s.queue, job)), now);
    case Finish(id) =>
      TryStartTakesFront(c, Settled(s, id), now);
      TryStartIdle(c, Settled(s, id), now);
    case Pause =>
    case Resume =>
      ProcessQueueTakesFront(c, s.(paused := false), now);
      ProcessQueueIdle(c, s.(paused := false), now);
    case Clear =>
    case SetConcurrency(limit) =>
      ProcessQueueTakesFront(c, s.(concurrency := limit), now);
      ProcessQueueIdle(c, s.(concurrency := limit), now);
    case Tick =>
      ProcessQueueTakesFront(c, NewInterval(c, s, Ticked, now), now);
      ProcessQueueIdle(c, NewInterval(c, s, Ticked, now), now);
    case Timeout =>
      ProcessQueueTakesFront(c, NewInterval(c, s, Resumed, now), now);
      ProcessQueueIdle(c, NewInterval(c, s, Resumed, now), now);
  }

  /** Whatever happens, the queue stays in descending order of priority. */
  lemma EventKeepsOrder(c: Settings, s: Sched, e: Event, now: int)
    requires Descending(s.queue)
    ensures Descending(After(c, s, e, now).queue)
  {
    EventStartsFromFront(c, s, e, now);
    if e.Add? {
      InsertKeepsDescending(s.queue, e.job);
    }
    SuffixDescends(QueueBefore(s, e), After(c, s, e, now).queue);
  }

  lemma SuffixDescends(q: seq<Job>, r: seq<Job>)
    requires Descending(q) && IsSuffix(q, r)
    ensures Descending(r)
  {
  }

  function Added(events: History): set<nat> {
    if events == [] then {} else KnownAfter({}, events[0].0) + Added(events[1..])
  }

  lemma {:induction false} HistorySound(c: Settings, s: Sched, events: History)
    requires IsSound(c, s) && IsHistory(c, s, events)
    ensures IsSound(c, Replay(c, s, events))
    decreases |events|
  {
    if events != [] {
      EventSound(c, s, events[0].0, events[0].1);
      HistorySound(c, After(c, s, events[0].0, events[0].1), events[1..]);
    }
  }

  lemma {:induction false} HistoryAccounted(c: Settings, s: Sched, events: History, known: set<nat>)
    requires IsAccounted(s, known) && IsHistory(c, s, events)
    ensures IsAccounted(Replay(c, s, events), known + Added(events))
    decreases |events|
  {
    AddedFirst(events, known);
    if events != [] {
      var (e, now) := events[0];
      EventAccounted(c, s, e, now, known);
      HistoryAccounted(c, After(c, s, e, now), events[1..], KnownAfter(known, e));
    }
  }

  lemma AddedFirst(events: History, known: set<nat>)
    ensures known + Added(events) ==
            if events == [] then known else KnownAfter(known, events[0].0) + Added(events[1..])
  {
  }

  /** A history of a queue from its construction on. */
  predicate Arises(c: Settings, concurrency: Limit, paused: bool, events: History) {
    IsLimit(c.cap) && IsLimit(concurrency) && IsHistory(c, InitialSched(concurrency, paused), events)
  }

  lemma ArisenIsAccounted(c: Settings, concurrency: Limit, paused: bool, events: History)
    requires Arises(c, concurrency, paused, events)
    ensures IsAccounted(Replay(c, InitialSched(concurrency, paused), events), Added(events))
  {
    assert Ids([]) == {};
    assert IsAccounted(InitialSched(concurrency, paused), {});
    HistoryAccounted(c, InitialSched(concurrency, paused), events, {});
    assert {} + Added(events) == Added(events);
  }

  /**
   * The queue never deadlocks: in every state between events, if it is not paused and tasks wait,
   * a task is running or a timer is set.
   */
  lemma NeverDeadlocks(c: Settings, concurrency: Limit, paused: bool, events: History)
    requires Arises(c, concurrency, paused, events)
    ensures var s := Replay(c, InitialSched(concurrency, paused), events);
            !s.paused && s.queue != [] ==> s.books.running != {} || s.timing.intervalSet || s.timing.timeoutSet
  {
    HistorySound(c, InitialSched(concurrency, paused), events);
    ArisenIsAccounted(c, concurrency, paused, events);
    var s := Replay(c, InitialSched(concurrency, paused), events);
    assert s.books.running == {} ==> s.pending == 0;
  }

  lemma {:induction false} HistoryStartsAllowed(c: Settings, s: Sched, events: History)
    requires IsHistory(c, s, events)
    requires forall k :: 0 <= k < |s.books.begun| ==> IsAllowed(c, s.books.begun[k])
    ensures forall k :: 0 <= k < |Replay(c, s, events).books.begun| ==> IsAllowed(c, Replay(c, s, events).books.begun[k])
    decreases |events|
  {
    if events != [] {
      EventStartsAllowed(c, s, events[0].0, events[0].1);
      HistoryStartsAllowed(c, After(c, s, events[0].0, events[0].1), events[1..]);
    }
  }

  predicate IsAtMost(limit: Limit, most: int) {
    limit.Finite? && limit.n <= most
  }

  /** No event of the history sets a concurrency limit above `most`. */
  predicate NeverSetsAbove(events: History, most: int) {
    forall k :: 0 <= k < |events| && events[k].0.SetConcurrency? ==> IsAtMost(events[k].0.limit, most)
  }

  predicate StaysBelow(s: Sched, most: int) {
    && IsAtMost(s.concurrency, most) && s.pending <= most
    && forall k :: 0 <= k < |s.books.begun| ==> s.books.begun[k].running < most
  }

  lemma EventStaysBelow(c: Settings, s: Sched, e: Event, now: int, most: int)
    requires IsSound(c, s) && CanHappen(s, e) && StaysBelow(s, most)
    requires e.SetConcurrency? ==> IsAtMost(e.limit, most)
    ensures StaysBelow(After(c, s, e, now), most)
  {
    EventSound(c, s, e, now);
    EventStartsAllowed(c, s, e, now);
    EventSetsLimit(c, s, e, now);
  }

  lemma EventSetsLimit(c: Settings, s: Sched, e: Event, now: int)
    requires IsSound(c, s) && CanHappen(s, e)
    ensures After(c, s, e, now).concurrency == LimitAfter(s, e)
  {
    match e
    case Add(job) => TryStartBounded(c, s.(queue := Insert(s.queue, job)), now);
    case Finish(id) => TryStartBounded(c, Settled(s, id), now);
    case Pause =>
    case Resume => ProcessQueueBounded(c, s.(paused := false), now);
    case Clear =>
    case SetConcurrency(limit) => ProcessQueueBounded(c, s.(concurrency := limit), now);
    case Tick => ProcessQueueBounded(c, NewInterval(c, s, Ticked, now), now);
    case Timeout => ProcessQueueBounded(c, NewInterval(c, s, Resumed, now), now);
  }

  lemma {:induction false} HistoryStaysBelow(c: Settings, s: Sched, events: History, most: int)
    requires IsSound(c, s) && IsHistory(c, s, events) && StaysBelow(s, most) && NeverSetsAbove(events, most)
    ensures StaysBelow(Replay(c, s, events), most)
    decreases |events|
  {
    if events != [] {
      var (e, now) := events[0];
      EventSound(c, s, e, now);
      EventStaysBelow(c, s, e, now, most);
      assert forall k :: 0 <= k < |events[1..]| ==> events[1..][k] == events[k + 1];
      HistoryStaysBelow(c, After(c, s, e, now), events[1..], most);
    }
  }

  /**
   * In a history that never sets the concurrency limit above `most`, an unchanged limit included,
   * at most `most` tasks run at any time, and each begins while fewer than `most` run.
   */
  lemma ConcurrencyHolds(c: Settings, concurrency: Limit, paused: bool, events: History, most: int)
    requires Arises(c, concurrency, paused, events)
    requires IsAtMost(concurrency, most) && NeverSetsAbove(events, most)
    ensures var s := Replay(c, InitialSched(concurrency, paused), events);
            && |s.books.running| <= most
            && forall k :: 0 <= k < |s.books.begun| ==> s.books.begun[k].running < most
  {
    HistoryStaysBelow(c, InitialSched(concurrency, paused), events, most);
    ArisenIsAccounted(c, concurrency, paused, events);
  }

  /**
   * Every start in a history is allowed: not paused, below the concurrency limit in force at that
   * moment, and with the interval count below the cap; and exactly the tasks that ran are listed, each once.
   */
  lemma StartsAreAllowed(c: Settings, concurrency: Limit, paused: bool, events: History)
    requires Arises(c, concurrency, paused, events)
    ensures var s := Replay(c, InitialSched(concurrency, paused), events);
            && (forall k :: 0 <= k < |s.books.begun| ==> IsAllowed(c, s.books.begun[k]))
            && IsLogged(s.books)
  {
    HistoryStartsAllowed(c, InitialSched(concurrency, paused), events);
    ArisenIsAccounted(c, concurrency, paused, events);
  }

  /** In every state between events the limits hold and each added task is in exactly one place. */
  lemma LimitsHold(c: Settings, concurrency: Limit, paused: bool, events: History)
    requires Arises(c, concurrency, paused, events)
    ensures var s := Replay(c, InitialSched(concurrency, paused), events);
            && (!IsIgnored(c) ==> s.timing.count <= c.cap.n)
            && (c.carryover ==> s.pending <= s.timing.count)
            && s.pending == |s.books.running|
            && IsPartition(Ids(s.queue), s.books.running, s.books.settled, s.books.cleared, Added(events))
  {
    HistorySound(c, InitialSched(concurrency, paused), events);
    ArisenIsAccounted(c, concurrency, paused, events);
  }

  /** While the queue is paused, before and after an event, no task leaves it to run. */
  lemma NothingStartsWhilePaused(c: Settings, s: Sched, e: Event, now: int)
    requires s.paused && After(c, s, e, now).paused
    ensures After(c, s, e, now).books.running <= s.books.running
    ensures After(c, s, e, now).queue == QueueBefore(s, e)
  {
    match e
    case Add(job) => NothingStartedWhenFull(c, s.(queue := Insert(s.queue, job)), now);
    case Finish(id) => NothingStartedWhenFull(c, Settled(s, id), now);
    case Pause =>
    case Resume => ProcessQueueKeepsPause(c, s.(paused := false), now);
    case Clear =>
    case SetConcurrency(limit) => NothingStartedWhenFull(c, s.(concurrency := limit), now);
    case Tick => PausedTick(c, s, Ticked, now);
    case Timeout => PausedTick(c, s, Resumed, now);
  }

  lemma PausedTick(c: Settings, s: Sched, cause: Cause, now: int)
    requires s.paused
    ensures var r := OnInterval(c, s, cause, now); r.books == s.books && r.queue == s.queue
  {
    NothingStartedWhenFull(c, NewInterval(c, s, cause, now), now);
  }

  lemma {:induction false} TryStartKeepsPause(c: Settings, s: Sched, now: int)
    ensures TryStart(c, s, now).0.paused == s.paused
    decreases |s.queue|
  {
    if s.queue != [] && !s.paused {
      var s1 := Ready(c, s, now);
      if AllowsAnother(c, s1) && s1.queue[0].run.throwsSync {
        TryStartKeepsPause(c, Settled(Begin(s1, now), s1.queue[0].run.id), now);
      }
    }
  }

  lemma {:induction false} ProcessQueueKeepsPause(c: Settings, s: Sched, now: int)
    ensures ProcessQueue(c, s, now).paused == s.paused
    decreases |s.queue|
  {
    TryStartKeepsPause(c, s, now);
    var (next, more) := TryStart(c, s, now);
    if more {
      ProcessQueueKeepsPause(c, next, now);
    }
  }

  /**
   * A timer is worth waiting for: when one fires and tasks wait, some are started, unless all
   * running tasks together already use up the concurrency or, with carry-over, the cap.
   */
  lemma TimersMakeProgress(c: Settings, s: Sched, e: Event, now: int)
    requires IsBounded(c, s) && !s.paused && s.queue != [] && (e.Tick? || e.Timeout?)
    ensures |After(c, s, e, now).queue| < |s.queue| || !Below(s.pending, s.concurrency) ||
            (c.carryover && !IsIgnored(c) && !Below(s.pending, c.cap))
  {
  }
}
