/**
 * The order in which the promise queue runs its tasks (p-queue/index.ts): they begin exactly in the
 * order of the queue, so none overtakes a task that came earlier with the same or a higher priority.
 */
module SchedulingOrder {
  import opened PriorityQueues
  import opened Scheduling
  import opened SchedulingLaws

  function BegunIds(begun: seq<Launch>): (r: seq<nat>)
    ensures |r| == |begun| && forall k :: 0 <= k < |r| ==> r[k] == begun[k].id
  {
    seq(|begun|, k requires 0 <= k < |begun| => begun[k].id)
  }

  function QueueIds(queue: seq<Job>): (r: seq<nat>)
    ensures |r| == |queue| && forall k :: 0 <= k < |r| ==> r[k] == queue[k].run.id
  {
    seq(|queue|, k requires 0 <= k < |queue| => queue[k].run.id)
  }

  /** The tasks that have begun, in the order in which they did, and those that wait behind them. */
  function Line(s: Sched): seq<nat> {
    BegunIds(s.books.begun) + QueueIds(s.queue)
  }

  // ------------------------------------------------------------------ starting keeps the line

  lemma BeginKeepsLine(s: Sched, now: int)
    requires s.queue != []
    ensures Line(Begin(s, now)) == Line(s)
  {
  }

  lemma {:induction false} TryStartKeepsLine(c: Settings, s: Sched, now: int)
    ensures Line(TryStart(c, s, now).0) == Line(s)
    decreases |s.queue|
  {
    if s.queue != [] && !s.paused {
      var s1 := Ready(c, s, now);
      if AllowsAnother(c, s1) {
        BeginKeepsLine(s1, now);
        if s1.queue[0].run.throwsSync {
          TryStartKeepsLine(c, Settled(Begin(s1, now), s1.queue[0].run.id), now);
        }
      }
    }
  }

  lemma {:induction false} ProcessQueueKeepsLine(c: Settings, s: Sched, now: int)
    ensures Line(ProcessQueue(c, s, now)) == Line(s)
    decreases |s.queue|
  {
    TryStartKeepsLine(c, s, now);
    var (next, more) := TryStart(c, s, now);
    if more {
      ProcessQueueKeepsLine(c, next, now);
    }
  }

  /** The line after an event: what had begun, and the queue before anything was started from it. */
  function LineBefore(s: Sched, e: Event): seq<nat> {
    BegunIds(s.books.begun) + QueueIds(QueueBefore(s, e))
  }

  lemma EventKeepsLine(c: Settings, s: Sched, e: Event, now: int)
    ensures Line(After(c, s, e, now)) == LineBefore(s, e)
  {
    match e
    case Add(job) => TryStartKeepsLine(c, s.(queue := Insert(s.queue, job)), now);
    case Finish(id) => TryStartKeepsLine(c, Settled(s, id), now);
    case Pause =>
    case Resume => ProcessQueueKeepsLine(c, s.(paused := false), now);
    case Clear =>
    case SetConcurrency(limit) => ProcessQueueKeepsLine(c, s.(concurrency := limit), now);
    case Tick => ProcessQueueKeepsLine(c, NewInterval(c, s, Ticked, now), now);
    case Timeout => ProcessQueueKeepsLine(c, NewInterval(c, s, Resumed, now), now);
  }

  /** An event starts exactly the tasks that it takes from the front of the queue, in their order. */
  lemma EventStartsPrefix(c: Settings, s: Sched, e: Event, now: int)
    ensures var r, queue := After(c, s, e, now), QueueBefore(s, e);
            var n := |r.books.begun| - |s.books.begun|;
            && 0 <= n <= |queue| && r.queue == queue[n..]
            && BegunIds(r.books.begun) == BegunIds(s.books.begun) + QueueIds(queue[..n])
  {
    var r, queue := After(c, s, e, now), QueueBefore(s, e);
    EventKeepsLine(c, s, e, now);
    EventStartsFromFront(c, s, e, now);
    EventStartsAllowed(c, s, e, now);
    MovedToFront(BegunIds(s.books.begun), QueueIds(queue), BegunIds(r.books.begun), QueueIds(r.queue));
  }

  lemma MovedToFront(front: seq<nat>, back: seq<nat>, longer: seq<nat>, rest: seq<nat>)
    requires longer + rest == front + back && |front| <= |longer|
    ensures |longer| - |front| <= |back| && longer == front + back[..|longer| - |front|]
  {
    assert |longer + rest| == |longer| + |rest|;
    assert longer == (longer + rest)[..|longer|];
  }

  // ------------------------------------------------------------------ no overtaking

  /** The tasks added by a history, in order. */
  function Arrivals(events: History): seq<Job> {
    if events == [] then []
    else (if events[0].0.Add? then [events[0].0.job] else []) + Arrivals(events[1..])
  }

  /** `x` stands in the line before position `q`. */
  predicate IsBefore(line: seq<nat>, q: nat, x: nat) {
    exists p :: 0 <= p < q && p < |line| && line[p] == x
  }

  /** Wherever `y` stands in the line, `x` stands before it. */
  predicate Precedes(line: seq<nat>, x: nat, y: nat) {
    forall q :: 0 <= q < |line| && line[q] == y ==> IsBefore(line, q, x)
  }

  /** `more` is the line with `z` put in at position `m`. */
  predicate IsInsertion(line: seq<nat>, m: nat, z: nat, more: seq<nat>) {
    && |more| == |line| + 1 && m <= |line| && more[m] == z
    && (forall i :: 0 <= i < m ==> more[i] == line[i])
    && (forall i :: m < i < |more| ==> more[i] == line[i - 1])
  }

  /** Where a position of the line is after the insertion. */
  function Moved(p: nat, m: nat): nat {
    if p < m then p else p + 1
  }

  lemma StaysInLine(line: seq<nat>, m: nat, z: nat, more: seq<nat>, p: nat)
    requires IsInsertion(line, m, z, more) && p < |line|
    ensures Moved(p, m) < |more| && more[Moved(p, m)] == line[p]
  {
    if p >= m {
      assert more[p + 1] == line[p + 1 - 1];
    }
  }

  lemma InsertedBetween(line: seq<nat>, m: nat, z: nat, more: seq<nat>, x: nat, y: nat)
    requires IsInsertion(line, m, z, more) && Precedes(line, x, y) && z != y
    ensures Precedes(more, x, y)
  {
    forall q | 0 <= q < |more| && more[q] == y ensures IsBefore(more, q, x) {
      var q0 := if q < m then q else q - 1;
      assert q != m && line[q0] == y;
      var p :| 0 <= p < q0 && line[p] == x;
      StaysInLine(line, m, z, more, p);
    }
  }

  lemma InsertedBehind(line: seq<nat>, m: nat, z: nat, more: seq<nat>, x: nat)
    requires IsInsertion(line, m, z, more) && z !in line && IsBefore(line, m, x)
    ensures Precedes(more, x, z)
  {
    var p :| 0 <= p < m && p < |line| && line[p] == x;
    assert more[p] == x;
    forall q | 0 <= q < |more| && q != m ensures more[q] != z {
      if q > m {
        assert more[q] == line[q - 1] && line[q - 1] in line;
      }
    }
  }

  lemma CutLine(line: seq<nat>, n: nat, x: nat, y: nat)
    requires n <= |line| && Precedes(line, x, y)
    ensures Precedes(line[..n], x, y)
  {
    forall q | 0 <= q < n && line[..n][q] == y ensures IsBefore(line[..n], q, x) {
      var p :| 0 <= p < q && line[p] == x;
      assert line[..n][p] == x;
    }
  }

  /** Nobody has been overtaken: the earlier of two tasks, if not less urgent, is ahead or was cleared. */
  predicate IsFair(arrived: seq<Job>, line: seq<nat>, cleared: set<nat>) {
    forall i, j :: 0 <= i < j < |arrived| && arrived[i].priority >= arrived[j].priority ==>
      arrived[i].run.id in cleared || Precedes(line, arrived[i].run.id, arrived[j].run.id)
  }

  /** The arrived tasks have different ids and are in the line or cleared; the queue holds only such. */
  predicate IsKnownLine(arrived: seq<Job>, queue: seq<Job>, line: seq<nat>, cleared: set<nat>) {
    && DistinctIds(arrived)
    && (forall k :: 0 <= k < |queue| ==> queue[k] in arrived)
    && (forall i :: 0 <= i < |arrived| ==> arrived[i].run.id in line || arrived[i].run.id in cleared)
  }

  lemma DifferentIds(arrived: seq<Job>, a: Job, b: Job)
    requires DistinctIds(arrived) && a in arrived && b in arrived && a != b
    ensures a.run.id != b.run.id
  {
    var i :| 0 <= i < |arrived| && arrived[i] == a;
    var j :| 0 <= j < |arrived| && arrived[j] == b;
    assert i < j || j < i;
  }

  /** Where a new task is put in the line. */
  function PlaceOf(s: Sched, job: Job): nat {
    |s.books.begun| + Rank(s.queue, job.priority)
  }

  lemma QueueAfterAdd(s: Sched, job: Job)
    ensures IsInsertion(QueueIds(s.queue), Rank(s.queue, job.priority), job.run.id, QueueIds(Insert(s.queue, job)))
  {
    var ids, more, m := QueueIds(s.queue), QueueIds(Insert(s.queue, job)), Rank(s.queue, job.priority);
    InsertedAt(s.queue, job, m);
    forall i | 0 <= i < m ensures more[i] == ids[i] {
      InsertedAt(s.queue, job, i);
    }
    forall i | m < i < |more| ensures more[i] == ids[i - 1] {
      InsertedAt(s.queue, job, i);
    }
  }

  lemma InsertBehind(front: seq<nat>, line: seq<nat>, m: nat, z: nat, more: seq<nat>)
    requires IsInsertion(line, m, z, more)
    ensures IsInsertion(front + line, |front| + m, z, front + more)
  {
  }

  lemma LineAfterAdd(s: Sched, job: Job)
    ensures IsInsertion(Line(s), PlaceOf(s, job), job.run.id, LineBefore(s, Add(job)))
  {
    QueueAfterAdd(s, job);
    InsertBehind(BegunIds(s.books.begun), QueueIds(s.queue), Rank(s.queue, job.priority), job.run.id,
                 QueueIds(Insert(s.queue, job)));
  }

  /** From its rank on, the queue holds less urgent tasks only. */
  lemma LessUrgentFromRank(queue: seq<Job>, priority: int)
    requires Descending(queue)
    ensures forall k :: Rank(queue, priority) <= k < |queue| ==> queue[k].priority < priority
  {
    var r := Rank(queue, priority);
    assert forall k :: r < k < |queue| ==> queue[k].priority <= queue[r].priority;
  }

  lemma NotFromRank(arrived: seq<Job>, queue: seq<Job>, a: Job, priority: int)
    requires DistinctIds(arrived) && Descending(queue) && a in arrived && a.priority >= priority
    requires forall k :: 0 <= k < |queue| ==> queue[k] in arrived
    ensures forall k :: Rank(queue, priority) <= k < |queue| ==> queue[k].run.id != a.run.id
  {
    LessUrgentFromRank(queue, priority);
    forall k | Rank(queue, priority) <= k < |queue| ensures queue[k].run.id != a.run.id {
      DifferentIds(arrived, a, queue[k]);
    }
  }

  /** A task that arrived before and is not less urgent stands before the place of the new one. */
  lemma AheadOfNew(arrived: seq<Job>, s: Sched, job: Job, i: nat)
    requires Descending(s.queue) && IsKnownLine(arrived, s.queue, Line(s), s.books.cleared)
    requires i < |arrived| && arrived[i].priority >= job.priority && arrived[i].run.id in Line(s)
    ensures IsBefore(Line(s), PlaceOf(s, job), arrived[i].run.id)
  {
    var p :| 0 <= p < |Line(s)| && Line(s)[p] == arrived[i].run.id;
    NotFromRank(arrived, s.queue, arrived[i], job.priority);
    assert p < PlaceOf(s, job);
  }

  lemma OldPairKept(s: Sched, job: Job, x: nat, y: nat)
    requires Precedes(Line(s), x, y) && job.run.id != y
    ensures Precedes(LineBefore(s, Add(job)), x, y)
  {
    LineAfterAdd(s, job);
    InsertedBetween(Line(s), PlaceOf(s, job), job.run.id, LineBefore(s, Add(job)), x, y);
  }

  lemma NewIsBehind(arrived: seq<Job>, s: Sched, job: Job, i: nat)
    requires Descending(s.queue) && IsKnownLine(arrived, s.queue, Line(s), s.books.cleared)
    requires i < |arrived| && arrived[i].priority >= job.priority && arrived[i].run.id in Line(s) && job.run.id !in Line(s)
    ensures Precedes(LineBefore(s, Add(job)), arrived[i].run.id, job.run.id)
  {
    LineAfterAdd(s, job);
    AheadOfNew(arrived, s, job, i);
    InsertedBehind(Line(s), PlaceOf(s, job), job.run.id, LineBefore(s, Add(job)), arrived[i].run.id);
  }

  lemma AddIsFair(arrived: seq<Job>, s: Sched, job: Job)
    requires Descending(s.queue) && IsKnownLine(arrived, s.queue, Line(s), s.books.cleared)
    requires IsFair(arrived, Line(s), s.books.cleared)
    requires job.run.id !in Line(s) && forall i :: 0 <= i < |arrived| ==> arrived[i].run.id != job.run.id
    ensures IsFair(arrived + [job], LineBefore(s, Add(job)), s.books.cleared)
  {
    var more, line := arrived + [job], LineBefore(s, Add(job));
    forall i, j | 0 <= i < j < |more| && more[i].priority >= more[j].priority
      ensures more[i].run.id in s.books.cleared || Precedes(line, more[i].run.id, more[j].run.id)
    {
      if arrived[i].run.id !in s.books.cleared {
        if j < |arrived| {
          OldPairKept(s, job, arrived[i].run.id, arrived[j].run.id);
        } else {
          NewIsBehind(arrived, s, job, i);
        }
      }
    }
  }

  lemma InsertKeepsMember(line: seq<nat>, m: nat, z: nat, more: seq<nat>, x: nat)
    requires IsInsertion(line, m, z, more) && (x == z || x in line)
    ensures x in more
  {
    if x == z {
      assert more[m] == x;
    } else {
      var p :| 0 <= p < |line| && line[p] == x;
      StaysInLine(line, m, z, more, p);
    }
  }

  lemma InsertedMembers(arrived: seq<Job>, queue: seq<Job>, job: Job)
    requires forall k :: 0 <= k < |queue| ==> queue[k] in arrived
    ensures forall k :: 0 <= k < |Insert(queue, job)| ==> Insert(queue, job)[k] in arrived + [job]
  {
    forall k | 0 <= k < |Insert(queue, job)| ensures Insert(queue, job)[k] in arrived + [job] {
      InsertedAt(queue, job, k);
    }
  }

  lemma AddIsKnown(arrived: seq<Job>, s: Sched, job: Job)
    requires IsKnownLine(arrived, s.queue, Line(s), s.books.cleared)
    requires forall i :: 0 <= i < |arrived| ==> arrived[i].run.id != job.run.id
    ensures IsKnownLine(arrived + [job], Insert(s.queue, job), LineBefore(s, Add(job)), s.books.cleared)
  {
    var more := arrived + [job];
    LineAfterAdd(s, job);
    InsertedMembers(arrived, s.queue, job);
    forall i | 0 <= i < |more|
      ensures more[i].run.id in LineBefore(s, Add(job)) || more[i].run.id in s.books.cleared
    {
      if i == |arrived| || arrived[i].run.id in Line(s) {
        InsertKeepsMember(Line(s), PlaceOf(s, job), job.run.id, LineBefore(s, Add(job)), more[i].run.id);
      }
    }
  }

  lemma ClearIsFair(arrived: seq<Job>, s: Sched)
    requires IsFair(arrived, Line(s), s.books.cleared)
    ensures IsFair(arrived, LineBefore(s, Clear), s.books.cleared + Ids(s.queue))
  {
    var n := |s.books.begun|;
    assert LineBefore(s, Clear) == Line(s)[..n];
    forall i, j | 0 <= i < j < |arrived| && arrived[i].priority >= arrived[j].priority && arrived[i].run.id !in s.books.cleared
      ensures Precedes(Line(s)[..n], arrived[i].run.id, arrived[j].run.id)
    {
      CutLine(Line(s), n, arrived[i].run.id, arrived[j].run.id);
    }
  }

  lemma ClearIsKnown(arrived: seq<Job>, s: Sched)
    requires IsKnownLine(arrived, s.queue, Line(s), s.books.cleared)
    ensures IsKnownLine(arrived, [], LineBefore(s, Clear), s.books.cleared + Ids(s.queue))
  {
    var n := |s.books.begun|;
    forall i | 0 <= i < |arrived| && arrived[i].run.id !in s.books.cleared
      ensures arrived[i].run.id in LineBefore(s, Clear) || arrived[i].run.id in Ids(s.queue)
    {
      var p :| 0 <= p < |Line(s)| && Line(s)[p] == arrived[i].run.id;
      if p < n {
        assert LineBefore(s, Clear)[p] == arrived[i].run.id;
      } else {
        assert s.queue[p - n] in s.queue;
      }
    }
  }

  /** What every state of a history keeps. */
  ghost predicate IsOrdered(arrived: seq<Job>, s: Sched) {
    && Descending(s.queue)
    && IsKnownLine(arrived, s.queue, Line(s), s.books.cleared)
    && IsFair(arrived, Line(s), s.books.cleared)
  }

  /** A task that was never added is not in the line. */
  lemma NewIsNowhere(arrived: seq<Job>, s: Sched, id: nat)
    requires IsLogged(s.books) && id !in Known(s) && IsKnownLine(arrived, s.queue, Line(s), s.books.cleared)
    ensures id !in Line(s) && forall i :: 0 <= i < |arrived| ==> arrived[i].run.id != id
  {
    forall p | 0 <= p < |Line(s)| ensures Line(s)[p] != id {
      var n := |s.books.begun|;
      if p < n {
        assert HasBegun(s.books.begun, s.books.begun[p].id);
      } else {
        assert s.queue[p - n] in s.queue;
      }
    }
  }

  function ArrivedAfter(arrived: seq<Job>, e: Event): seq<Job> {
    if e.Add? then arrived + [e.job] else arrived
  }

  lemma {:induction false} TryStartKeepsCleared(c: Settings, s: Sched, now: int)
    ensures TryStart(c, s, now).0.books.cleared == s.books.cleared
    decreases |s.queue|
  {
    if s.queue != [] && !s.paused {
      var s1 := Ready(c, s, now);
      if AllowsAnother(c, s1) && s1.queue[0].run.throwsSync {
        TryStartKeepsCleared(c, Settled(Begin(s1, now), s1.queue[0].run.id), now);
      }
    }
  }

  lemma {:induction false} ProcessQueueKeepsCleared(c: Settings, s: Sched, now: int)
    ensures ProcessQueue(c, s, now).books.cleared == s.books.cleared
    decreases |s.queue|
  {
    TryStartKeepsCleared(c, s, now);
    var (next, more) := TryStart(c, s, now);
    if more {
      ProcessQueueKeepsCleared(c, next, now);
    }
  }

  function ClearedAfter(s: Sched, e: Event): set<nat> {
    if e.Clear? then s.books.cleared + Ids(s.queue) else s.books.cleared
  }

  lemma EventCleared(c: Settings, s: Sched, e: Event, now: int)
    ensures After(c, s, e, now).books.cleared == ClearedAfter(s, e)
  {
    match e
    case Add(job) => TryStartKeepsCleared(c, s.(queue := Insert(s.queue, job)), now);
    case Finish(id) => TryStartKeepsCleared(c, Settled(s, id), now);
    case Pause =>
    case Resume => ProcessQueueKeepsCleared(c, s.(paused := false), now);
    case Clear =>
    case SetConcurrency(limit) => ProcessQueueKeepsCleared(c, s.(concurrency := limit), now);
    case Tick => ProcessQueueKeepsCleared(c, NewInterval(c, s, Ticked, now), now);
    case Timeout => ProcessQueueKeepsCleared(c, NewInterval(c, s, Resumed, now), now);
  }

  /** Before anything is started, an event keeps the order; starting does not change the line. */
  lemma EventBeforeStarts(arrived: seq<Job>, s: Sched, e: Event)
    requires IsOrdered(arrived, s) && IsLogged(s.books) && CanHappen(s, e)
    ensures var more := ArrivedAfter(arrived, e);
            && IsKnownLine(more, QueueBefore(s, e), LineBefore(s, e), ClearedAfter(s, e))
            && IsFair(more, LineBefore(s, e), ClearedAfter(s, e))
  {
    if e.Add? {
      NewIsNowhere(arrived, s, e.job.run.id);
      AddIsKnown(arrived, s, e.job);
      AddIsFair(arrived, s, e.job);
    } else if e.Clear? {
      ClearIsKnown(arrived, s);
      ClearIsFair(arrived, s);
    }
  }

  lemma SuffixIsKnown(arrived: seq<Job>, queue: seq<Job>, rest: seq<Job>, line: seq<nat>, cleared: set<nat>)
    requires IsKnownLine(arrived, queue, line, cleared) && IsSuffix(queue, rest)
    ensures IsKnownLine(arrived, rest, line, cleared)
  {
    assert forall k :: 0 <= k < |rest| ==> rest[k] == queue[|queue| - |rest| + k];
  }

  lemma EventIsOrdered(c: Settings, s: Sched, e: Event, now: int, arrived: seq<Job>)
    requires IsOrdered(arrived, s) && IsLogged(s.books) && CanHappen(s, e)
    ensures IsOrdered(ArrivedAfter(arrived, e), After(c, s, e, now))
  {
    EventBeforeStarts(arrived, s, e);
    EventKeepsLine(c, s, e, now);
    EventCleared(c, s, e, now);
    EventKeepsOrder(c, s, e, now);
    EventStartsFromFront(c, s, e, now);
    SuffixIsKnown(ArrivedAfter(arrived, e), QueueBefore(s, e), After(c, s, e, now).queue, LineBefore(s, e), ClearedAfter(s, e));
  }

  lemma ArrivalsFirst(arrived: seq<Job>, events: History)
    requires events != []
    ensures arrived + Arrivals(events) == ArrivedAfter(arrived, events[0].0) + Arrivals(events[1..])
  {
    var first := if events[0].0.Add? then [events[0].0.job] else [];
    assert arrived + (first + Arrivals(events[1..])) == (arrived + first) + Arrivals(events[1..]);
    assert arrived + first == ArrivedAfter(arrived, events[0].0);
  }

  lemma {:induction false} HistoryIsOrdered(c: Settings, s: Sched, events: History, arrived: seq<Job>, known: set<nat>)
    requires IsOrdered(arrived, s) && IsAccounted(s, known) && IsHistory(c, s, events)
    ensures IsOrdered(arrived + Arrivals(events), Replay(c, s, events))
    decreases |events|
  {
    if events == [] {
      assert arrived + Arrivals(events) == arrived;
    } else {
      var (e, now) := events[0];
      EventIsOrdered(c, s, e, now, arrived);
      EventAccounted(c, s, e, now, known);
      ArrivalsFirst(arrived, events);
      HistoryIsOrdered(c, After(c, s, e, now), events[1..], ArrivedAfter(arrived, e), KnownAfter(known, e));
    }
  }

  lemma FairStart(arrived: seq<Job>, s: Sched, i: nat, j: nat, q: nat)
    requires IsFair(arrived, Line(s), s.books.cleared) && q < |s.books.begun|
    requires i < j < |arrived| && arrived[i].priority >= arrived[j].priority
    requires s.books.begun[q].id == arrived[j].run.id
    ensures arrived[i].run.id in s.books.cleared || exists p :: 0 <= p < q && s.books.begun[p].id == arrived[i].run.id
  {
    if arrived[i].run.id !in s.books.cleared {
      assert Line(s)[q] == arrived[j].run.id;
      var p :| 0 <= p < q && Line(s)[p] == arrived[i].run.id;
      assert s.books.begun[p].id == arrived[i].run.id;
    }
  }

  lemma ArisenIsOrdered(c: Settings, concurrency: Limit, paused: bool, events: History)
    requires Arises(c, concurrency, paused, events)
    ensures IsOrdered(Arrivals(events), Replay(c, InitialSched(concurrency, paused), events))
  {
    var start := InitialSched(concurrency, paused);
    assert Ids([]) == {};
    assert IsAccounted(start, {}) && IsOrdered([], start);
    HistoryIsOrdered(c, start, events, [], {});
    assert [] + Arrivals(events) == Arrivals(events);
  }

  /**
   * In every history, when a task has begun, every task that was added before it with the same or a
   * higher priority has begun earlier, unless it was cleared from the queue.
   */
  lemma NoOvertaking(c: Settings, concurrency: Limit, paused: bool, events: History, i: nat, j: nat, q: nat)
    requires Arises(c, concurrency, paused, events)
    requires i < j < |Arrivals(events)| && Arrivals(events)[i].priority >= Arrivals(events)[j].priority
    requires var begun := Replay(c, InitialSched(concurrency, paused), events).books.begun;
             q < |begun| && begun[q].id == Arrivals(events)[j].run.id
    ensures var s, first := Replay(c, InitialSched(concurrency, paused), events), Arrivals(events)[i].run.id;
            first in s.books.cleared || exists p :: 0 <= p < q && s.books.begun[p].id == first
  {
    ArisenIsOrdered(c, concurrency, paused, events);
    FairStart(Arrivals(events), Replay(c, InitialSched(concurrency, paused), events), i, j, q);
  }
}
