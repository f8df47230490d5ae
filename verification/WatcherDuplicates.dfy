/**
 * Why exactly-once delivery needs that no chunk uses up its attempts: the poll loop then goes on
 * while the other chunks of the failed call are still running, and both generations write.
 */
module WatcherDuplicates {
  import opened Wrappers
  import opened BlockRanges
  import opened Checkpoints
  import opened Watcher
  import opened WatcherSafety
  import opened WatcherOnce

  /** The node answers faithfully; failures are not restricted. */
  predicate IsHonestStep(s: Watch, step: Step) {
    step.Respond? ==>
      step.i < |s.tasks| && s.tasks[step.i].phase.Requesting? && Answers(s.tasks[step.i].phase.requested, step.blocks)
  }

  predicate IsHonestRun(c: Config, s: Watch, steps: seq<Step>)
    requires IsConfig(c) && IsRun(c, s, steps)
    decreases |steps|
  {
    steps == [] || (IsHonestStep(s, steps[0]) && IsHonestRun(c, Next(c, s, steps[0]), steps[1..]))
  }

  ghost predicate LeadsTo(c: Config, s: Watch, steps: seq<Step>, t: Watch)
    requires IsConfig(c)
  {
    IsRun(c, s, steps) && IsHonestRun(c, s, steps) && Exec(c, s, steps) == t
  }

  ghost predicate Reaches(c: Config, s: Watch, t: Watch)
    requires IsConfig(c)
  {
    exists steps :: LeadsTo(c, s, steps, t)
  }

  lemma {:induction false} AppendStep(c: Config, s: Watch, steps: seq<Step>, t: Watch, step: Step)
    requires IsConfig(c) && LeadsTo(c, s, steps, t) && Enabled(c, t, step) && IsHonestStep(t, step)
    ensures LeadsTo(c, s, steps + [step], Next(c, t, step))
    decreases |steps|
  {
    if steps == [] {
      assert steps + [step] == [step];
      assert [step][1..] == [];
    } else {
      AppendStep(c, Next(c, s, steps[0]), steps[1..], t, step);
      assert (steps + [step])[1..] == steps[1..] + [step];
    }
  }

  lemma ReachNext(c: Config, s: Watch, t: Watch, step: Step)
    requires IsConfig(c) && Reaches(c, s, t) && Enabled(c, t, step) && IsHonestStep(t, step)
    ensures Reaches(c, s, Next(c, t, step))
  {
    var steps :| LeadsTo(c, s, steps, t);
    AppendStep(c, s, steps, t, step);
  }

  /** A chunk that is requesting can fail on all its remaining attempts. */
  lemma {:induction false} FailAll(c: Config, s: Watch, t: Watch, i: nat, attempt: nat, requested: seq<int>)
    requires IsConfig(c) && t.active && i < |t.tasks| && 1 <= attempt <= ATTEMPTS
    requires Reaches(c, s, SetPhase(t, i, Requesting(attempt, requested)))
    ensures Reaches(c, s, SetPhase(t, i, Exhausted))
    decreases ATTEMPTS - attempt
  {
    var now := SetPhase(t, i, Requesting(attempt, requested));
    ReachNext(c, s, now, Fail(i));
    var failed := Next(c, now, Fail(i));
    if attempt == ATTEMPTS {
      assert failed == SetPhase(t, i, Exhausted);
    } else {
      ReachNext(c, s, failed, Wake(i));
      var again := BeginAttempt(failed, i, attempt + 1);
      assert Next(c, failed, Wake(i)) == SetPhase(t, i, again);
      FailAll(c, s, t, i, attempt + 1, again.requested);
    }
  }

  const CONFIG := Config(0, 1, 1000, 5)
  const START := Watch([], [], true, Idle, 0, [])
  const CHUNK0 := BlockRange(0, 0)
  const CHUNK1 := BlockRange(1, 4)
  const ANSWER: seq<Block> := [Block(Some(1), []), Block(Some(2), []), Block(Some(3), []), Block(Some(4), [])]

  function AfterPoll(s: Watch): Watch {
    s.(mode := Round([], s.groups + 1), groups := s.groups + 2,
       tasks := s.tasks + [Task(s.groups + 1, CHUNK0, Queued), Task(s.groups + 1, CHUNK1, Queued)])
  }

  /** Polling at height 4 with nothing complete starts two chunks. */
  lemma PollTwoChunks(s: Watch)
    requires Reaches(CONFIG, START, s) && s.active && s.mode.Idle? && s.completed == []
    requires forall i :: 0 <= i < |s.tasks| ==> s.tasks[i].group < s.groups
    ensures Reaches(CONFIG, START, AfterPoll(s))
  {
    ReachNext(CONFIG, START, s, Poll(4));
    var polled := Next(CONFIG, s, Poll(4));
    var range := BlockRange(0, 4);
    assert polled.mode.todo == [range];
    ReachNext(CONFIG, START, polled, NextRange);
    var chunks := Chunks(range, 1, Some(1000));
    assert ChunksFrom(1, 4, 1, Some(999)) == [CHUNK1];
    assert chunks == [CHUNK0, CHUNK1];
    assert NewTasks(s.groups + 1, chunks) == [Task(s.groups + 1, CHUNK0, Queued), Task(s.groups + 1, CHUNK1, Queued)];
    assert polled.mode.todo[1..] == [];
    assert Next(CONFIG, polled, NextRange) == AfterPoll(s);
  }

  lemma {:induction false} Indices(n: nat) returns (all: set<nat>)
    ensures |all| == n && forall i: nat :: i in all <==> i < n
  {
    if n == 0 {
      all := {};
    } else {
      var fewer := Indices(n - 1);
      all := fewer + {n - 1};
    }
  }

  lemma SlotsFree(s: Watch, group: nat)
    requires |s.tasks| < 5
    ensures |InFlight(s, group)| < 5
  {
    var all := Indices(|s.tasks|);
    SubsetSize(InFlight(s, group), all);
  }

  lemma {:induction false} AllIncomplete(blocks: seq<int>)
    ensures Incomplete([], blocks) == blocks
    decreases |blocks|
  {
    if blocks != [] {
      AllIncomplete(blocks[..|blocks| - 1]);
    }
  }

  /** A queued task of the second chunk gets as far as waiting for the transactions of block 1. */
  lemma ReachWaiting(s: Watch, i: nat) returns (t: Watch)
    requires Reaches(CONFIG, START, s) && s.active && s.completed == []
    requires i < |s.tasks| < 5 && s.tasks[i].chunk == CHUNK1 && s.tasks[i].phase.Queued?
    requires forall j :: 0 <= j < i && s.tasks[j].group == s.tasks[i].group ==> !s.tasks[j].phase.Queued?
    ensures t == SetPhase(s, i, AwaitingTxs(1, ANSWER[0], ANSWER[1..])) && Reaches(CONFIG, START, t)
  {
    SlotsFree(s, s.tasks[i].group);
    ReachNext(CONFIG, START, s, StartTask(i));
    assert BlocksOf(CHUNK1) == [1, 2, 3, 4];
    AllIncomplete([1, 2, 3, 4]);
    assert Next(CONFIG, s, StartTask(i)) == SetPhase(s, i, Requesting(1, [1, 2, 3, 4]));
    t := ReachWaitingFrom(s, i);
  }

  lemma ReachWaitingFrom(s: Watch, i: nat) returns (t: Watch)
    requires s.active && s.completed == [] && i < |s.tasks|
    requires Reaches(CONFIG, START, SetPhase(s, i, Requesting(1, [1, 2, 3, 4])))
    ensures t == SetPhase(s, i, AwaitingTxs(1, ANSWER[0], ANSWER[1..])) && Reaches(CONFIG, START, t)
  {
    var requesting := SetPhase(s, i, Requesting(1, [1, 2, 3, 4]));
    ReachNext(CONFIG, START, requesting, Respond(i, ANSWER));
    var processing := Next(CONFIG, requesting, Respond(i, ANSWER));
    assert processing == SetPhase(s, i, Processing(1, ANSWER));
    ReachNext(CONFIG, START, processing, StartBlock(i));
    t := Next(CONFIG, processing, StartBlock(i));
  }

  /** The first chunk of a freshly polled watcher can use up its attempts. */
  lemma ReachExhausted(s: Watch, i: nat) returns (t: Watch)
    requires Reaches(CONFIG, START, s) && s.active
    requires i < |s.tasks| < 5 && s.tasks[i].phase.Queued?
    requires forall j :: 0 <= j < i && s.tasks[j].group == s.tasks[i].group ==> !s.tasks[j].phase.Queued?
    ensures t == SetPhase(s, i, Exhausted) && Reaches(CONFIG, START, t)
  {
    SlotsFree(s, s.tasks[i].group);
    ReachNext(CONFIG, START, s, StartTask(i));
    FailAll(CONFIG, START, s, i, 1, BeginAttempt(s, i, 1).requested);
    t := SetPhase(s, i, Exhausted);
  }

  /** Nothing is written and no task of a coming round exists. */
  predicate IsReadyToPoll(s: Watch) {
    && s.active && s.log == [] && s.completed == [] && |s.tasks| <= 2
    && forall i :: 0 <= i < |s.tasks| ==> s.tasks[i].group < s.groups
  }

  /** After a poll the first of its two chunks fails for good and the second waits. */
  lemma ReachOneGeneration(s: Watch) returns (t: Watch)
    requires Reaches(CONFIG, START, s) && s.mode.Idle? && IsReadyToPoll(s)
    ensures t == SetPhase(SetPhase(AfterPoll(s), |s.tasks|, Exhausted), |s.tasks| + 1,
                          AwaitingTxs(1, ANSWER[0], ANSWER[1..]))
    ensures Reaches(CONFIG, START, t)
  {
    PollTwoChunks(s);
    var failed := ReachExhausted(AfterPoll(s), |s.tasks|);
    t := ReachWaiting(failed, |s.tasks| + 1);
  }

  /** The round has failed, and its second chunk still waits. */
  lemma ReachFailedRound() returns (idle: Watch)
    ensures Reaches(CONFIG, START, idle) && idle.mode.Idle? && IsReadyToPoll(idle) && |idle.tasks| == 2
    ensures idle.tasks[1].phase == AwaitingTxs(1, ANSWER[0], ANSWER[1..])
  {
    assert LeadsTo(CONFIG, START, [], START);
    var waiting := ReachOneGeneration(START);
    assert waiting.tasks[0].phase.Exhausted? && waiting.tasks[0].group == waiting.mode.group;
    ReachNext(CONFIG, START, waiting, RoundFails);
    idle := Next(CONFIG, waiting, RoundFails);
  }

  /** Both generations of the chunk with block 1 wait for its transactions at the same time. */
  lemma ReachTwoGenerations() returns (t: Watch)
    ensures Reaches(CONFIG, START, t) && t.active && t.log == [] && t.completed == [] && |t.tasks| == 4
    ensures t.tasks[1].phase == AwaitingTxs(1, ANSWER[0], ANSWER[1..])
    ensures t.tasks[3].phase == AwaitingTxs(1, ANSWER[0], ANSWER[1..])
  {
    var idle := ReachFailedRound();
    t := ReachOneGeneration(idle);
  }

  /** A task that waits for the transactions of block 1 writes it. */
  lemma ReachWrite(s: Watch, i: nat) returns (t: Watch)
    requires Reaches(CONFIG, START, s) && s.active && i < |s.tasks|
    requires s.tasks[i].phase == AwaitingTxs(1, ANSWER[0], ANSWER[1..])
    ensures Reaches(CONFIG, START, t) && t.active && t.log == s.log + [BlockMessage(1)] && |t.tasks| == |s.tasks|
    ensures forall j :: 0 <= j < |s.tasks| && j != i ==> t.tasks[j] == s.tasks[j]
  {
    ReachNext(CONFIG, START, s, FinishTxs(i, []));
    t := Next(CONFIG, s, FinishTxs(i, []));
    assert Segment(1, []) == [BlockMessage(1)];
  }

  /** Both write block 1. */
  lemma ReachTwoWrites() returns (twice: Watch)
    ensures Reaches(CONFIG, START, twice) && twice.log == [BlockMessage(1), BlockMessage(1)]
  {
    var waiting := ReachTwoGenerations();
    var once := ReachWrite(waiting, 1);
    twice := ReachWrite(once, 3);
  }

  lemma CountOfTwo()
    ensures Count([BlockMessage(1), BlockMessage(1)], 1) == 2
  {
    var log := [BlockMessage(1), BlockMessage(1)];
    assert log[..1] == [BlockMessage(1)] && log[..1][..0] == [];
  }

  /** An honest node, no shutdown, and yet block 1 is written twice. */
  lemma ExhaustionCanDuplicate()
    ensures exists steps :: IsRun(CONFIG, START, steps) && IsHonestRun(CONFIG, START, steps) &&
                            Count(Exec(CONFIG, START, steps).log, 1) == 2
  {
    var twice := ReachTwoWrites();
    CountOfTwo();
    var steps :| LeadsTo(CONFIG, START, steps, twice);
  }
}
