/**
 * The rate limit of the promise queue fails in three ways, each shown by a timed history with one
 * task per 10 ms allowed: after a tick, after a late timeout, and with tasks that throw at once.
 */
module RateLimitExamples {
  import opened PriorityQueues
  import opened Scheduling
  import opened SchedulingLaws
  import opened RateLimit

  /** In state `s` the event can happen, and it leads to `r`. */
  ghost predicate StepsTo(c: Settings, s: Sched, step: (Event, int), clock: int, r: Sched) {
    CanHappenTimed(c, s, step.0, step.1, clock) && After(c, s, step.0, step.1) == r
  }

  /** Some timed history leads from `s` to `r`. */
  ghost predicate CanLead(c: Settings, s: Sched, clock: int, r: Sched) {
    exists events :: Leads(c, s, events, clock, r)
  }

  lemma AlreadyThere(c: Settings, s: Sched, clock: int)
    ensures CanLead(c, s, clock, s)
  {
    LeadsNowhere(c, s, clock);
  }

  lemma FirstStep(c: Settings, s: Sched, step: (Event, int), clock: int, next: Sched, r: Sched)
    requires StepsTo(c, s, step, clock, next) && CanLead(c, next, step.1, r)
    ensures CanLead(c, s, clock, r)
  {
    var events :| Leads(c, next, events, step.1, r);
    LeadsOneMore(c, s, step.0, step.1, events, clock, r);
  }

  lemma InsertOne(job: Job)
    ensures Insert([], job) == [job]
  {
  }

  lemma InsertTwo(first: Job, second: Job)
    requires first.priority >= second.priority
    ensures Insert([first], second) == [first, second]
  {
    InsertAt([first], second, 1);
  }

  function Launched(id: nat, time: int, running: int, count: int): Launch {
    Launch(id, time, running, count, Infinite, false)
  }

  /** Nothing queued or paused and no limit on concurrency. */
  function State(queue: seq<Job>, timing: Timing, running: set<nat>, settled: set<nat>, begun: seq<Launch>, idles: nat): Sched {
    Sched(queue, |running|, timing, Infinite, false, Books(running, settled, {}, begun), idles)
  }

  /** A task added to an empty queue when the interval is over resets the count and begins. */
  lemma AddAndStart(s: Sched, id: nat, now: int)
    requires s.queue == [] && !s.paused && s.concurrency.Infinite? && !s.timing.intervalSet && s.timing.end < now
    ensures var t := ResetCount(s.timing, Tried, now, s.timing.end - 10, 0);
            var begun := Started(s.(timing := t), id, now);
            After(ONE_PER_TEN, s, Add(Task(id, false)), now)
            == begun.(timing := InitializeInterval(ONE_PER_TEN, begun.timing, now))
  {
    InsertOne(Task(id, false));
  }

  /** A task added when the count is used up waits. */
  lemma AddAndWait(s: Sched, id: nat, now: int)
    requires s.queue == [] && !s.paused && s.timing.intervalSet && s.timing.count == 1
    ensures After(ONE_PER_TEN, s, Add(Task(id, false)), now) == s.(queue := [Task(id, false)])
  {
    InsertOne(Task(id, false));
  }

  // ------------------------------------------------------------------ after a tick

  const R0 := Reset(Tried, 1000, -10, false, 0)
  const START := InitialSched(Infinite, false)
  const A_RUNS := State([], Timing(1, 1010, true, false, Log([R0], 1, 1000, 0)), {0}, {}, [Launched(0, 1000, 0, 0)], 1)

  lemma FirstRuns()
    ensures StepsTo(ONE_PER_TEN, START, (Add(Task(0, false)), 1000), 0, A_RUNS)
  {
    AddAndStart(START, 0, 1000);
    assert Ids([]) == {};
  }

  const B_QUEUED := A_RUNS.(queue := [Task(1, false)])

  lemma SecondWaits()
    ensures StepsTo(ONE_PER_TEN, A_RUNS, (Add(Task(1, false)), 1001), 1000, B_QUEUED)
  {
    AddAndWait(A_RUNS, 1, 1001);
    assert Ids([]) == {};
  }

  const R1 := Reset(Ticked, 1010, 1000, true, 1)
  const B_RUNS := State([], Timing(1, 1010, false, false, Log([R0, R1], 1, 1010, 0)), {0, 1}, {},
                        [Launched(0, 1000, 0, 0), Launched(1, 1010, 1, 0)], 1)

  lemma TickStarts()
    ensures StepsTo(ONE_PER_TEN, B_QUEUED, (Tick, 1010), 1001, B_RUNS)
  {
    var s1 := NewInterval(ONE_PER_TEN, B_QUEUED, Ticked, 1010);
    assert s1.timing.log.resets == [R0, R1];
    var s2 := Begin(s1, 1010);
    assert s2.queue == [] && s2.books.running == {0, 1} && s2.books.begun == B_RUNS.books.begun;
    assert TryStart(ONE_PER_TEN, s1, 1010) == (s2, true);
    assert TryStart(ONE_PER_TEN, s2, 1010) == (B_RUNS, false);
    assert ProcessQueue(ONE_PER_TEN, s1, 1010) == B_RUNS;
  }

  const R2 := Reset(Tried, 1011, 1000, false, 1)

  const C_RUNS := State([], Timing(1, 1021, true, false, Log([R0, R1, R2], 1, 1011, 0)), {0, 1, 2}, {},
                        [Launched(0, 1000, 0, 0), Launched(1, 1010, 1, 0), Launched(2, 1011, 2, 0)], 1)

  lemma ThirdRuns()
    ensures StepsTo(ONE_PER_TEN, B_RUNS, (Add(Task(2, false)), 1011), 1010, C_RUNS)
  {
    AddAndStart(B_RUNS, 2, 1011);
    assert Ids([]) == {};
  }

  lemma FromTick()
    ensures CanLead(ONE_PER_TEN, B_QUEUED, 1001, C_RUNS)
  {
    AlreadyThere(ONE_PER_TEN, C_RUNS, 1011);
    ThirdRuns();
    FirstStep(ONE_PER_TEN, B_RUNS, (Add(Task(2, false)), 1011), 1010, C_RUNS, C_RUNS);
    TickStarts();
    FirstStep(ONE_PER_TEN, B_QUEUED, (Tick, 1010), 1001, B_RUNS, C_RUNS);
  }

  lemma FromFirst()
    ensures CanLead(ONE_PER_TEN, A_RUNS, 1000, C_RUNS)
  {
    FromTick();
    SecondWaits();
    FirstStep(ONE_PER_TEN, A_RUNS, (Add(Task(1, false)), 1001), 1000, B_QUEUED, C_RUNS);
  }

  /**
   * A begins at 1000 and B, waiting since 1001, with the tick at 1010; the queue is empty, so the
   * timer is cleared, and C begins at 1011. The last two resets are 1 ms apart.
   */
  lemma TickThenAdd()
    ensures CanLead(ONE_PER_TEN, START, 0, C_RUNS)
    ensures StartTimes(C_RUNS) == [1000, 1010, 1011] && IsEarly(ONE_PER_TEN, R1, R2)
  {
    TickThenAddLeads();
  }

  lemma TickThenAddLeads()
    ensures CanLead(ONE_PER_TEN, START, 0, C_RUNS)
  {
    FromFirst();
    FirstRuns();
    FirstStep(ONE_PER_TEN, START, (Add(Task(0, false)), 1000), 0, A_RUNS, C_RUNS);
  }

  // ------------------------------------------------------------------ tasks that throw at once

  const PAUSED := InitialSched(Infinite, true)
  const R3 := Reset(Tried, 1000, -10, false, 1)
  const NESTED := State([], Timing(1, 1010, true, false, Log([R0, R3], 1, 1000, 0)), {}, {0, 1},
                        [Launched(0, 1000, 0, 0), Launched(1, 1000, 0, 0)], 2)
  const BOTH_OVER := NESTED.(timing := NESTED.timing.(intervalSet := false), idles := 3)

  const ONE_ADDED := PAUSED.(queue := [Task(0, true)])
  const BOTH_ADDED := PAUSED.(queue := [Task(0, true), Task(1, true)])

  lemma FirstAdded()
    ensures StepsTo(ONE_PER_TEN, PAUSED, (Add(Task(0, true)), 1000), 0, ONE_ADDED)
  {
    InsertOne(Task(0, true));
    assert Ids([]) == {};
  }

  lemma SecondAdded()
    ensures StepsTo(ONE_PER_TEN, ONE_ADDED, (Add(Task(1, true)), 1000), 1000, BOTH_ADDED)
  {
    InsertTwo(Task(0, true), Task(1, true));
    assert Ids([Task(0, true)]) == {0};
  }

  /** The second of two such tasks begins inside the end of the first, with the count reset again. */
  lemma BothThrow()
    ensures StepsTo(ONE_PER_TEN, BOTH_ADDED, (Resume, 1000), 1000, BOTH_OVER)
  {
    var s := BOTH_ADDED.(paused := false);
    var s1 := Ready(ONE_PER_TEN, s, 1000);
    var s2 := Settled(Begin(s1, 1000), 0);
    assert s2.queue == [Task(1, true)] && s2.books.running == {} && s2.books.settled == {0};
    var s3 := Ready(ONE_PER_TEN, s2, 1000);
    var s4 := Settled(Begin(s3, 1000), 1);
    assert s4.queue == [] && s4.books.running == {} && s4.books.settled == {0, 1};
    assert s4.books.begun == NESTED.books.begun && s4.timing.log.resets == [R0, R3];
    assert Settle(ONE_PER_TEN, Begin(s3, 1000), 1, 1000) == s4.(idles := 2);
    assert TryStart(ONE_PER_TEN, s2, 1000) == (NESTED, true);
    assert TryStart(ONE_PER_TEN, s, 1000) == (NESTED, true);
    assert TryStart(ONE_PER_TEN, NESTED, 1000) == (BOTH_OVER, false);
    assert ProcessQueue(ONE_PER_TEN, s, 1000) == BOTH_OVER;
  }

  lemma FromResume()
    ensures CanLead(ONE_PER_TEN, BOTH_ADDED, 1000, BOTH_OVER)
  {
    AlreadyThere(ONE_PER_TEN, BOTH_OVER, 1000);
    BothThrow();
    FirstStep(ONE_PER_TEN, BOTH_ADDED, (Resume, 1000), 1000, BOTH_OVER, BOTH_OVER);
  }

  lemma FromOneAdded()
    ensures CanLead(ONE_PER_TEN, ONE_ADDED, 1000, BOTH_OVER)
  {
    FromResume();
    SecondAdded();
    FirstStep(ONE_PER_TEN, ONE_ADDED, (Add(Task(1, true)), 1000), 1000, BOTH_ADDED, BOTH_OVER);
  }

  /** Both tasks begin at 1000, under a limit of one in 10 ms. */
  lemma TasksThatThrowAtOnce()
    ensures CanLead(ONE_PER_TEN, PAUSED, 0, BOTH_OVER)
    ensures StartTimes(BOTH_OVER) == [1000, 1000] && IsEarly(ONE_PER_TEN, R0, R3)
  {
    FromOneAdded();
    FirstAdded();
    FirstStep(ONE_PER_TEN, PAUSED, (Add(Task(0, true)), 1000), 0, ONE_ADDED, BOTH_OVER);
  }

  // ------------------------------------------------------------------ after a late timeout

  const A_OVER := State([], Timing(1, 1010, false, false, Log([R0], 1, 1000, 0)), {}, {0}, [Launched(0, 1000, 0, 0)], 2)
  const B_WAITS := A_OVER.(queue := [Task(1, false)],
                           timing := Timing(1, 1010, false, true, Log([R0], 1, 1000, 1000)))
  const R4 := Reset(Tried, 1011, 1000, false, 1)
  const LATE_LAUNCHES := [Launched(0, 1000, 0, 0), Launched(1, 1011, 0, 0)]
  const B_BEGINS := State([Task(2, false)], Timing(1, 1021, true, true, Log([R0, R4], 1, 1011, 1000)), {1}, {0}, LATE_LAUNCHES, 2)
  const R5 := Reset(Resumed, 1012, 1000, true, 1)
  const C_BEGINS := State([], Timing(1, 1022, true, false, Log([R0, R4, R5], 1, 1012, 1000)), {1, 2}, {0},
                          LATE_LAUNCHES + [Launched(2, 1012, 1, 0)], 2)

  lemma FirstEnds()
    ensures StepsTo(ONE_PER_TEN, A_RUNS, (Finish(0), 1001), 1000, A_OVER)
  {
    var s := Settled(A_RUNS, 0);
    assert s.books.running == {} && s.books.settled == {0};
    assert TryStart(ONE_PER_TEN, s, 1001) == (A_OVER, false);
  }

  lemma SecondArmsTimeout()
    ensures StepsTo(ONE_PER_TEN, A_OVER, (Add(Task(1, false)), 1002), 1001, B_WAITS)
  {
    InsertOne(Task(1, false));
    assert Ids([]) == {};
  }

  /** The timeout is due at 1010 but another task is added before it fires. */
  lemma AddBeforeTimeout()
    ensures StepsTo(ONE_PER_TEN, B_WAITS, (Add(Task(2, false)), 1011), 1002, B_BEGINS)
  {
    InsertTwo(Task(1, false), Task(2, false));
    var s := B_WAITS.(queue := [Task(1, false), Task(2, false)]);
    var s1 := Ready(ONE_PER_TEN, s, 1011);
    assert s1.timing.log.resets == [R0, R4];
    var s2 := Begin(s1, 1011);
    assert s2.queue == [Task(2, false)] && s2.books.running == {1} && s2.books.begun == LATE_LAUNCHES;
    assert TryStart(ONE_PER_TEN, s, 1011) == (B_BEGINS, true);
    assert Ids([Task(1, false)]) == {1};
  }

  lemma TimeoutAfterAll()
    ensures StepsTo(ONE_PER_TEN, B_BEGINS, (Timeout, 1012), 1011, C_BEGINS)
  {
    var s1 := NewInterval(ONE_PER_TEN, B_BEGINS, Resumed, 1012);
    assert s1.timing.log.resets == [R0, R4, R5];
    var s2 := Begin(s1, 1012);
    assert s2.queue == [] && s2.books.running == {1, 2} && s2.books.begun == C_BEGINS.books.begun;
    var s3 := s2.(timing := s2.timing.(intervalSet := false));
    assert TryStart(ONE_PER_TEN, s1, 1012) == (s2, true);
    assert TryStart(ONE_PER_TEN, s2, 1012) == (s3, false);
    assert ProcessQueue(ONE_PER_TEN, s1, 1012) == s3;
  }

  lemma FromWaiting()
    ensures CanLead(ONE_PER_TEN, B_WAITS, 1002, C_BEGINS)
  {
    AlreadyThere(ONE_PER_TEN, C_BEGINS, 1012);
    TimeoutAfterAll();
    FirstStep(ONE_PER_TEN, B_BEGINS, (Timeout, 1012), 1011, C_BEGINS, C_BEGINS);
    AddBeforeTimeout();
    FirstStep(ONE_PER_TEN, B_WAITS, (Add(Task(2, false)), 1011), 1002, B_BEGINS, C_BEGINS);
  }

  lemma FromRunning()
    ensures CanLead(ONE_PER_TEN, A_RUNS, 1000, C_BEGINS)
  {
    FromWaiting();
    SecondArmsTimeout();
    FirstStep(ONE_PER_TEN, A_OVER, (Add(Task(1, false)), 1002), 1001, B_WAITS, C_BEGINS);
    FirstEnds();
    FirstStep(ONE_PER_TEN, A_RUNS, (Finish(0), 1001), 1000, A_OVER, C_BEGINS);
  }

  /** B begins at 1011 with the task added there, and C at 1012 with the late timeout. */
  lemma LateTimeout()
    ensures CanLead(ONE_PER_TEN, START, 0, C_BEGINS)
    ensures StartTimes(C_BEGINS) == [1000, 1011, 1012] && IsEarly(ONE_PER_TEN, R4, R5)
  {
    LateTimeoutLeads();
  }

  lemma LateTimeoutLeads()
    ensures CanLead(ONE_PER_TEN, START, 0, C_BEGINS)
  {
    FromRunning();
    FirstRuns();
    FirstStep(ONE_PER_TEN, START, (Add(Task(0, false)), 1000), 0, A_RUNS, C_BEGINS);
  }
}
