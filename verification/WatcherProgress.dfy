/**
 * Catching up: an orderly poll round covers the chunks of every gap it found, so the number of
 * incomplete blocks strictly decreases, to zero unless the chunk cap cuts a gap short.
 */
module WatcherProgress {
  import opened Wrappers
  import opened BlockRanges
  import opened Checkpoints
  import opened Watcher
  import opened WatcherSafety
  import opened WatcherOnce

  predicate HasNumber(blocks: seq<Block>, b: int) {
    exists k :: 0 <= k < |blocks| && blocks[k].number == Some(b)
  }

  /** Block `b` of a chunk is complete or still ahead of the task. */
  predicate IsCaredFor(s: Watch, phase: Phase, b: int) {
    match phase
    case Requesting(_, requested) => Covers(s.completed, b) || b in requested
    case Processing(_, blocks) => Covers(s.completed, b) || HasNumber(blocks, b)
    case AwaitingTxs(_, block, rest) => Covers(s.completed, b) || block.number == Some(b) || HasNumber(rest, b)
    case Finished => Covers(s.completed, b)
    case _ => true
  }

  ghost predicate Cares(s: Watch, task: Task) {
    forall b :: Includes(task.chunk, b) ==> IsCaredFor(s, task.phase, b)
  }

  ghost predicate AllCare(s: Watch) {
    s.active ==> forall i :: 0 <= i < |s.tasks| ==> Cares(s, s.tasks[i])
  }

  lemma RestHasNumber(blocks: seq<Block>, b: int)
    requires blocks != []
    ensures HasNumber(blocks, b) <==> blocks[0].number == Some(b) || HasNumber(blocks[1..], b)
  {
    if HasNumber(blocks, b) {
      var k :| 0 <= k < |blocks| && blocks[k].number == Some(b);
      assert k > 0 ==> blocks[1..][k - 1].number == Some(b);
    }
    if HasNumber(blocks[1..], b) {
      var k :| 0 <= k < |blocks[1..]| && blocks[1..][k].number == Some(b);
      assert blocks[k + 1].number == Some(b);
    }
  }

  lemma BlockOfRange(range: BlockRange, b: int)
    ensures b in BlocksOf(range) <==> Includes(range, b)
  {
    if Includes(range, b) {
      assert BlocksOf(range)[b - range.from] == b;
    }
  }

  lemma RequestCares(s: Watch, i: nat, attempt: nat, b: int)
    requires i < |s.tasks| && Includes(s.tasks[i].chunk, b)
    ensures IsCaredFor(s, BeginAttempt(s, i, attempt), b)
  {
    IncompleteMembers(s.completed, BlocksOf(s.tasks[i].chunk));
    BlockOfRange(s.tasks[i].chunk, b);
  }

  /** The new phase of the stepping task still cares for each block of its chunk. */
  lemma SteppingTaskCares(c: Config, s: Watch, step: Step, b: int)
    requires IsConfig(c) && Enabled(c, s, step) && IsOrderlyStep(s, step) && s.active
    requires step.StartTask? || step.Respond? || step.StartBlock? || step.FinishTxs? || step.Fail? || step.Wake? || step.ChunkDone?
    requires Orderly(s) && Cares(s, s.tasks[step.i]) && Includes(s.tasks[step.i].chunk, b)
    ensures IsCaredFor(Next(c, s, step), Next(c, s, step).tasks[step.i].phase, b)
  {
    var i, p := step.i, s.tasks[step.i].phase;
    assert IsCaredFor(s, p, b);
    match step
    case StartTask(_) => RequestCares(s, i, 1, b);
    case Wake(_) => RequestCares(s, i, p.attempt + 1, b);
    case Respond(_, blocks) =>
      if b in p.requested {
        var k :| 0 <= k < |p.requested| && p.requested[k] == b;
        assert blocks[k].number == Some(b);
      }
    case StartBlock(_) => RestHasNumber(p.blocks, b);
    case FinishTxs(_, _) => WriteCovers(c, s, step);
    case Fail(_) =>
    case ChunkDone(_) =>
  }

  /** The checkpoint only grows, and a write covers its block. */
  lemma WriteCovers(c: Config, s: Watch, step: Step)
    requires IsConfig(c) && Enabled(c, s, step) && IsNormal(s.completed)
    ensures forall b :: Covers(s.completed, b) ==> Covers(Next(c, s, step).completed, b)
    ensures WritesIn(s, step) ==> Covers(Next(c, s, step).completed, WriteOf(s, step).block.number.value)
  {
    if WritesIn(s, step) {
      WritingStep(c, s, step);
      var n := WriteOf(s, step).block.number.value;
      MarkAddsRange(s.completed, BlockRange(n, n));
    } else {
      OtherStepsWriteNothing(c, s, step);
    }
  }

  lemma OtherTaskCares(s: Watch, next: Watch, task: Task)
    requires Cares(s, task) && forall b :: Covers(s.completed, b) ==> Covers(next.completed, b)
    ensures Cares(next, task)
  {
    forall b | Includes(task.chunk, b) ensures IsCaredFor(next, task.phase, b) {
      assert IsCaredFor(s, task.phase, b);
    }
  }

  predicate StepsTask(step: Step) {
    step.StartTask? || step.Respond? || step.StartBlock? || step.FinishTxs? || step.Fail? || step.Wake? || step.ChunkDone?
  }

  lemma CareStep(c: Config, s: Watch, step: Step)
    requires IsConfig(c) && Enabled(c, s, step) && IsOrderlyStep(s, step) && Orderly(s) && AllCare(s)
    ensures AllCare(Next(c, s, step))
  {
    var next := Next(c, s, step);
    WriteCovers(c, s, step);
    if next.active {
      forall j | 0 <= j < |next.tasks| ensures Cares(next, next.tasks[j]) {
        if StepsTask(step) && j == step.i {
          forall b | Includes(next.tasks[j].chunk, b) ensures IsCaredFor(next, next.tasks[j].phase, b) {
            SteppingTaskCares(c, s, step, b);
          }
        } else if j < |s.tasks| {
          assert next.tasks[j] == s.tasks[j];
          OtherTaskCares(s, next, s.tasks[j]);
        }
      }
    }
  }

  /** Every state of an orderly run from a start meets what the statements about rounds ask for. */
  lemma {:induction false} OrderlyRunStaysOrderly(c: Config, s: Watch, steps: seq<Step>)
    requires IsConfig(c) && IsRun(c, s, steps) && IsOrderlyRun(c, s, steps)
    requires IsStart(s) || (Orderly(s) && AllCare(s))
    ensures Orderly(Exec(c, s, steps)) && AllCare(Exec(c, s, steps))
    decreases |steps|
  {
    if steps != [] {
      OrderlyStep(c, s, steps[0]);
      CareStep(c, s, steps[0]);
      OrderlyRunStaysOrderly(c, Next(c, s, steps[0]), steps[1..]);
    }
  }

  /** Every block of the chunk of a finished task is complete. */
  ghost predicate FinishedAreComplete(s: Watch) {
    forall i :: 0 <= i < |s.tasks| && s.tasks[i].phase.Finished? ==> IsComplete(s.completed, s.tasks[i].chunk)
  }

  ghost predicate IsComplete(completed: seq<BlockRange>, chunk: BlockRange) {
    forall b :: Includes(chunk, b) ==> Covers(completed, b)
  }

  lemma DoneIsComplete(c: Config, s: Watch, i: nat)
    requires IsConfig(c) && Enabled(c, s, ChunkDone(i)) && s.active && Cares(s, s.tasks[i])
    ensures IsComplete(s.completed, s.tasks[i].chunk)
  {
    forall b | Includes(s.tasks[i].chunk, b) ensures Covers(s.completed, b) {
      assert IsCaredFor(s, s.tasks[i].phase, b);
    }
  }

  /** A task becomes finished by its last block while the watcher is active, and in no other way. */
  lemma BecomesFinished(c: Config, s: Watch, step: Step, i: nat)
    requires IsConfig(c) && Enabled(c, s, step) && i < |Next(c, s, step).tasks| && Next(c, s, step).tasks[i].phase.Finished?
    ensures i < |s.tasks| && Next(c, s, step).tasks[i].chunk == s.tasks[i].chunk
    ensures s.tasks[i].phase.Finished? || (step == ChunkDone(i) && s.active)
  {
  }

  lemma CompleteStep(c: Config, s: Watch, step: Step)
    requires IsConfig(c) && Enabled(c, s, step) && Orderly(s) && AllCare(s) && FinishedAreComplete(s)
    ensures FinishedAreComplete(Next(c, s, step))
  {
    var next := Next(c, s, step);
    WriteCovers(c, s, step);
    forall i | 0 <= i < |next.tasks| && next.tasks[i].phase.Finished? ensures IsComplete(next.completed, next.tasks[i].chunk) {
      BecomesFinished(c, s, step, i);
      if !s.tasks[i].phase.Finished? {
        DoneIsComplete(c, s, i);
      }
    }
  }

  /** In an orderly run a chunk counts as finished only with all its blocks complete, also after a shutdown. */
  lemma {:induction false} FinishedMeansComplete(c: Config, s: Watch, steps: seq<Step>)
    requires IsConfig(c) && IsRun(c, s, steps) && IsOrderlyRun(c, s, steps)
    requires IsStart(s) || (Orderly(s) && AllCare(s) && FinishedAreComplete(s))
    ensures FinishedAreComplete(Exec(c, s, steps))
    decreases |steps|
  {
    if steps != [] {
      CompleteStep(c, s, steps[0]);
      OrderlyStep(c, s, steps[0]);
      CareStep(c, s, steps[0]);
      FinishedMeansComplete(c, Next(c, s, steps[0]), steps[1..]);
    }
  }

  // ------------------------------------------------------------------------ rounds

  /** Some task has this chunk. */
  predicate HasTask(s: Watch, chunk: BlockRange) {
    exists i :: 0 <= i < |s.tasks| && s.tasks[i].chunk == chunk
  }

  function ChunksOf(c: Config, range: BlockRange): seq<BlockRange>
    requires IsConfig(c)
  {
    Chunks(range, c.chunkSize, Some(c.chunkCap))
  }

  predicate IsStarted(c: Config, s: Watch, range: BlockRange)
    requires IsConfig(c)
  {
    forall chunk :: chunk in ChunksOf(c, range) ==> HasTask(s, chunk)
  }

  /** Each range found by the poll is still to start or has been turned into tasks. */
  predicate TracksRound(c: Config, s: Watch, found: seq<BlockRange>)
    requires IsConfig(c)
  {
    forall range :: range in found ==>
      (s.mode.Round? && range in s.mode.todo) || s.mode.Stopped? || IsStarted(c, s, range)
  }

  lemma TasksKeepChunks(c: Config, s: Watch, step: Step, chunk: BlockRange)
    requires IsConfig(c) && Enabled(c, s, step) && HasTask(s, chunk)
    ensures HasTask(Next(c, s, step), chunk)
  {
    var i :| 0 <= i < |s.tasks| && s.tasks[i].chunk == chunk;
    assert Next(c, s, step).tasks[i].chunk == chunk;
  }

  lemma StartedStays(c: Config, s: Watch, step: Step, range: BlockRange)
    requires IsConfig(c) && Enabled(c, s, step) && IsStarted(c, s, range)
    ensures IsStarted(c, Next(c, s, step), range)
  {
    forall chunk | chunk in ChunksOf(c, range) ensures HasTask(Next(c, s, step), chunk) {
      TasksKeepChunks(c, s, step, chunk);
    }
  }

  lemma NextRangeStarts(c: Config, s: Watch)
    requires IsConfig(c) && Enabled(c, s, NextRange)
    ensures IsStarted(c, Next(c, s, NextRange), s.mode.todo[0])
  {
    var chunks, next := ChunksOf(c, s.mode.todo[0]), Next(c, s, NextRange);
    forall chunk | chunk in chunks ensures HasTask(next, chunk) {
      var k :| 0 <= k < |chunks| && chunks[k] == chunk;
      assert next.tasks[|s.tasks| + k].chunk == chunk;
    }
  }

  lemma TrackStep(c: Config, s: Watch, step: Step, found: seq<BlockRange>)
    requires IsConfig(c) && Enabled(c, s, step) && TracksRound(c, s, found) && !step.Poll? && Orderly(s)
    ensures TracksRound(c, Next(c, s, step), found)
  {
    NoFailedRound(c, s);
    var next := Next(c, s, step);
    forall range | range in found
      ensures (next.mode.Round? && range in next.mode.todo) || next.mode.Stopped? || IsStarted(c, next, range)
    {
      if IsStarted(c, s, range) {
        StartedStays(c, s, step, range);
      } else if step.NextRange? && range == s.mode.todo[0] {
        NextRangeStarts(c, s);
      }
    }
  }

  predicate NoPoll(steps: seq<Step>) {
    forall k :: 0 <= k < |steps| ==> !steps[k].Poll?
  }

  lemma {:induction false} TrackRun(c: Config, s: Watch, steps: seq<Step>, found: seq<BlockRange>)
    requires IsConfig(c) && IsRun(c, s, steps) && IsOrderlyRun(c, s, steps) && NoPoll(steps)
    requires Orderly(s) && AllCare(s) && TracksRound(c, s, found)
    ensures var end := Exec(c, s, steps); Orderly(end) && AllCare(end) && TracksRound(c, end, found)
    ensures forall b :: Covers(s.completed, b) ==> Covers(Exec(c, s, steps).completed, b)
    decreases |steps|
  {
    if steps != [] {
      OrderlyStep(c, s, steps[0]);
      CareStep(c, s, steps[0]);
      TrackStep(c, s, steps[0], found);
      WriteCovers(c, s, steps[0]);
      TrackRun(c, Next(c, s, steps[0]), steps[1..], found);
    }
  }

  /** One orderly poll round that runs from idle to idle while the watcher is active. */
  ghost predicate IsRound(c: Config, s: Watch, latest: int, steps: seq<Step>, end: Watch)
    requires IsConfig(c)
  {
    && Orderly(s) && AllCare(s) && s.active && s.mode.Idle?
    && NoPoll(steps) && end.active && end.mode.Idle?
    && var polled := Next(c, s, Poll(latest));
       IsRun(c, polled, steps) && IsOrderlyRun(c, polled, steps) && end == Exec(c, polled, steps)
  }

  /** After a round every chunk of every gap found by the poll is complete. */
  lemma RoundCoversChunks(c: Config, s: Watch, latest: int, steps: seq<Step>, end: Watch, range: BlockRange, b: int)
    requires IsConfig(c) && IsRound(c, s, latest, steps, end)
    requires range in Inverse(s.completed, Some(c.init), Some(latest)) && Covers(ChunksOf(c, range), b)
    ensures Covers(end.completed, b)
  {
    var polled, found := Next(c, s, Poll(latest)), Inverse(s.completed, Some(c.init), Some(latest));
    OrderlyStep(c, s, Poll(latest));
    CareStep(c, s, Poll(latest));
    assert TracksRound(c, polled, found);
    TrackRun(c, polled, steps, found);
    assert IsStarted(c, end, range);
    var chunks := ChunksOf(c, range);
    var k :| 0 <= k < |chunks| && Includes(chunks[k], b);
    assert chunks[k] in chunks && HasTask(end, chunks[k]);
    var i :| 0 <= i < |end.tasks| && end.tasks[i].chunk == chunks[k];
    assert end.tasks[i].phase.Finished? || IsCurrent(end, end.tasks[i]);
    assert Cares(end, end.tasks[i]);
    assert IsCaredFor(end, end.tasks[i].phase, b);
  }

  lemma RoundKeepsBlocks(c: Config, s: Watch, latest: int, steps: seq<Step>, end: Watch)
    requires IsConfig(c) && IsRound(c, s, latest, steps, end)
    ensures forall b :: Covers(s.completed, b) ==> Covers(end.completed, b)
  {
    OrderlyStep(c, s, Poll(latest));
    CareStep(c, s, Poll(latest));
    assert TracksRound(c, Next(c, s, Poll(latest)), []);
    TrackRun(c, Next(c, s, Poll(latest)), steps, []);
  }

  // ----------------------------------------------------------- nothing but the chunks

  /** Block `b` lies in a chunk of one of the ranges. */
  predicate InChunks(c: Config, found: seq<BlockRange>, b: int)
    requires IsConfig(c)
  {
    exists k :: 0 <= k < |found| && Covers(ChunksOf(c, found[k]), b)
  }

  /** Unfinished tasks stay in the chunks of `found`, and only these were completed since `base`. */
  ghost predicate Confined(c: Config, found: seq<BlockRange>, base: seq<BlockRange>, s: Watch)
    requires IsConfig(c)
  {
    && (forall i, b :: 0 <= i < |s.tasks| && !s.tasks[i].phase.Finished? && Includes(s.tasks[i].chunk, b) ==> InChunks(c, found, b))
    && (s.mode.Round? ==> forall range :: range in s.mode.todo ==> range in found)
    && (forall b :: Covers(s.completed, b) ==> Covers(base, b) || InChunks(c, found, b))
  }

  /** What is written in an orderly state is a block of its task's chunk. */
  lemma WriteIsInChunk(s: Watch, step: Step)
    requires Orderly(s) && WritesIn(s, step)
    ensures Includes(s.tasks[step.i].chunk, WriteOf(s, step).block.number.value)
  {
    var task := s.tasks[step.i];
    assert IsGoodPhase(s, task.chunk, task.phase);
    assert ([task.phase.block] + task.phase.rest)[0] == task.phase.block;
  }

  lemma CoveredByConfined(c: Config, s: Watch, step: Step, found: seq<BlockRange>, base: seq<BlockRange>, b: int)
    requires IsConfig(c) && Enabled(c, s, step) && Orderly(s) && Confined(c, found, base, s)
    requires Covers(Next(c, s, step).completed, b)
    ensures Covers(base, b) || InChunks(c, found, b)
  {
    if WritesIn(s, step) {
      WritingStep(c, s, step);
      WriteIsInChunk(s, step);
      var n := WriteOf(s, step).block.number.value;
      MarkAddsRange(s.completed, BlockRange(n, n));
    } else {
      OtherStepsWriteNothing(c, s, step);
    }
  }

  lemma NewTaskConfined(c: Config, s: Watch, found: seq<BlockRange>, base: seq<BlockRange>, i: nat, b: int)
    requires IsConfig(c) && Enabled(c, s, NextRange) && Confined(c, found, base, s)
    requires |s.tasks| <= i < |Next(c, s, NextRange).tasks| && Includes(Next(c, s, NextRange).tasks[i].chunk, b)
    ensures InChunks(c, found, b)
  {
    var range := s.mode.todo[0];
    assert range in found;
    var k :| 0 <= k < |found| && found[k] == range;
    assert Next(c, s, NextRange).tasks[i].chunk == ChunksOf(c, range)[i - |s.tasks|];
    assert Covers(ChunksOf(c, found[k]), b);
  }

  /** Steps keep the tasks that are finished and the chunks of all. */
  lemma TasksBefore(c: Config, s: Watch, step: Step, i: nat)
    requires IsConfig(c) && Enabled(c, s, step) && i < |s.tasks|
    ensures var next := Next(c, s, step);
            && i < |next.tasks| && next.tasks[i].chunk == s.tasks[i].chunk
            && (s.tasks[i].phase.Finished? ==> next.tasks[i].phase.Finished?)
            && (|next.tasks| > |s.tasks| ==> step.NextRange?)
  {
  }

  lemma ConfinedStep(c: Config, s: Watch, step: Step, found: seq<BlockRange>, base: seq<BlockRange>)
    requires IsConfig(c) && Enabled(c, s, step) && Orderly(s) && !step.Poll? && Confined(c, found, base, s)
    ensures Confined(c, found, base, Next(c, s, step))
  {
    var next := Next(c, s, step);
    forall i, b | 0 <= i < |next.tasks| && !next.tasks[i].phase.Finished? && Includes(next.tasks[i].chunk, b)
      ensures InChunks(c, found, b)
    {
      if i < |s.tasks| {
        TasksBefore(c, s, step, i);
      } else {
        assert step.NextRange?;
        NewTaskConfined(c, s, found, base, i, b);
      }
    }
    forall b | Covers(next.completed, b) ensures Covers(base, b) || InChunks(c, found, b) {
      CoveredByConfined(c, s, step, found, base, b);
    }
  }

  lemma {:induction false} ConfinedRun(c: Config, s: Watch, steps: seq<Step>, found: seq<BlockRange>, base: seq<BlockRange>)
    requires IsConfig(c) && IsRun(c, s, steps) && IsOrderlyRun(c, s, steps) && NoPoll(steps)
    requires Orderly(s) && Confined(c, found, base, s)
    ensures Confined(c, found, base, Exec(c, s, steps))
    decreases |steps|
  {
    if steps != [] {
      OrderlyStep(c, s, steps[0]);
      ConfinedStep(c, s, steps[0], found, base);
      ConfinedRun(c, Next(c, s, steps[0]), steps[1..], found, base);
    }
  }

  /** The gaps that the poll of a round finds. */
  function Found(c: Config, s: Watch, latest: int): seq<BlockRange> {
    Inverse(s.completed, Some(c.init), Some(latest))
  }

  /** A round completes exactly the blocks in the chunks of the gaps it found. */
  lemma RoundCompletesExactly(c: Config, s: Watch, latest: int, steps: seq<Step>, end: Watch, b: int)
    requires IsConfig(c) && IsRound(c, s, latest, steps, end)
    ensures Covers(end.completed, b) <==> Covers(s.completed, b) || InChunks(c, Found(c, s, latest), b)
  {
    var polled, found := Next(c, s, Poll(latest)), Found(c, s, latest);
    OrderlyStep(c, s, Poll(latest));
    assert Confined(c, found, s.completed, polled) by {
      assert forall i :: 0 <= i < |s.tasks| ==> s.tasks[i].phase.Finished? || IsCurrent(s, s.tasks[i]);
    }
    ConfinedRun(c, polled, steps, found, s.completed);
    RoundKeepsBlocks(c, s, latest, steps, end);
    if InChunks(c, found, b) {
      var k :| 0 <= k < |found| && Covers(ChunksOf(c, found[k]), b);
      RoundCoversChunks(c, s, latest, steps, end, found[k], b);
    }
  }

  // ----------------------------------------------------------------------- catching up

  /** The incomplete blocks from `low` to `high`. */
  function Missing(completed: seq<BlockRange>, low: int, high: int): set<int> {
    set b | low <= b <= high && !Covers(completed, b)
  }

  /** The first block of a gap belongs to its first chunk, whatever the cap. */
  lemma FirstBlockIsChunked(c: Config, range: BlockRange)
    requires IsConfig(c) && c.chunkCap > 0 && IsValidRange(range)
    ensures Covers(ChunksOf(c, range), range.from)
  {
    assert Includes(ChunksOf(c, range)[0], range.from);
  }

  /** With no gap cut short by the cap, the chunks of a gap are all of it. */
  lemma UncutIsChunked(c: Config, range: BlockRange, b: int)
    requires IsConfig(c) && IsValidRange(range) && Includes(range, b)
    requires |Chunks(range, c.chunkSize, None)| <= c.chunkCap
    ensures Covers(ChunksOf(c, range), b)
  {
    ChunksPartition(range.from, range.to, c.chunkSize);
    CapTakesPrefix(range.from, range.to, c.chunkSize, c.chunkCap);
    var all := Chunks(range, c.chunkSize, None);
    assert all[..|all|] == all;
    assert ChunksOf(c, range) == all;
  }

  lemma SomeGap(ranges: seq<BlockRange>, b: int) returns (range: BlockRange)
    requires Covers(ranges, b)
    ensures range in ranges && Includes(range, b)
  {
    var i :| 0 <= i < |ranges| && Includes(ranges[i], b);
    range := ranges[i];
  }

  /**
   * Termination measure of catching up: while an incomplete gap begins between `init` and the
   * polled height, an orderly round strictly lowers the number of incomplete blocks there.
   */
  lemma RoundMakesProgress(c: Config, s: Watch, latest: int, steps: seq<Step>, end: Watch, range: BlockRange)
    requires IsConfig(c) && c.chunkCap > 0 && IsRound(c, s, latest, steps, end)
    requires range in Inverse(s.completed, Some(c.init), Some(latest)) && c.init <= range.from <= latest
    ensures |Missing(end.completed, c.init, latest)| < |Missing(s.completed, c.init, latest)|
  {
    InverseIsComplement(s.completed, Some(c.init), Some(latest));
    var gaps := Inverse(s.completed, Some(c.init), Some(latest));
    var i :| 0 <= i < |gaps| && gaps[i] == range;
    assert Includes(gaps[i], range.from) && Covers(gaps, range.from);
    FirstBlockIsChunked(c, range);
    RoundCoversChunks(c, s, latest, steps, end, range, range.from);
    RoundKeepsBlocks(c, s, latest, steps, end);
    var before, after := Missing(s.completed, c.init, latest), Missing(end.completed, c.init, latest);
    assert range.from in before && range.from !in after;
    SubsetSize(after, before);
  }

  function Min(a: int, b: int): int {
    if a < b then a else b
  }

  /** From the earlier of the initial and the first completed block. */
  function WindowStart(c: Config, s: Watch): int {
    if s.completed == [] then c.init else Min(c.init, s.completed[0].from)
  }

  /** To the later of the polled and the last completed block. */
  function WindowEnd(s: Watch, latest: int): int {
    if s.completed == [] then latest else Max(latest, Last(s.completed).to)
  }

  /**
   * Termination measure of catching up: any work found by the poll, wherever the completed blocks
   * lie, strictly lowers the number of incomplete blocks of the window.
   */
  lemma WorkMakesProgress(c: Config, s: Watch, latest: int, steps: seq<Step>, end: Watch)
    requires IsConfig(c) && c.chunkCap > 0 && IsRound(c, s, latest, steps, end)
    requires Found(c, s, latest) != []
    ensures var low, high := WindowStart(c, s), WindowEnd(s, latest);
            |Missing(end.completed, low, high)| < |Missing(s.completed, low, high)|
  {
    var gaps, low, high := Found(c, s, latest), WindowStart(c, s), WindowEnd(s, latest);
    InverseIsComplement(s.completed, Some(c.init), Some(latest));
    StartIsCovered(gaps);
    FirstBlockIsChunked(c, gaps[0]);
    RoundCoversChunks(c, s, latest, steps, end, gaps[0], gaps[0].from);
    RoundKeepsBlocks(c, s, latest, steps, end);
    var before, after := Missing(s.completed, low, high), Missing(end.completed, low, high);
    assert gaps[0].from in before && gaps[0].from !in after;
    SubsetSize(after, before);
  }

  /** The count from the initial to the polled block falls if and only if some chunk reaches in there. */
  lemma PolledCountFallsIff(c: Config, s: Watch, latest: int, steps: seq<Step>, end: Watch)
    requires IsConfig(c) && IsRound(c, s, latest, steps, end)
    ensures |Missing(end.completed, c.init, latest)| < |Missing(s.completed, c.init, latest)| <==>
            exists b :: c.init <= b <= latest && InChunks(c, Found(c, s, latest), b)
  {
    var before, after := Missing(s.completed, c.init, latest), Missing(end.completed, c.init, latest);
    forall b ensures Covers(end.completed, b) <==> Covers(s.completed, b) || InChunks(c, Found(c, s, latest), b) {
      RoundCompletesExactly(c, s, latest, steps, end, b);
    }
    SubsetSize(after, before);
    if b :| c.init <= b <= latest && InChunks(c, Found(c, s, latest), b) {
      ChunkIsIncomplete(c, s, latest, b);
      assert b in before && b !in after;
    } else {
      assert before == after;
    }
  }

  /** Chunks lie in their gaps. */
  lemma InChunksIsFound(c: Config, s: Watch, latest: int, b: int)
    requires IsConfig(c) && IsNormal(s.completed) && InChunks(c, Found(c, s, latest), b)
    ensures Covers(Found(c, s, latest), b)
  {
    var gaps := Found(c, s, latest);
    InverseIsComplement(s.completed, Some(c.init), Some(latest));
    var k :| 0 <= k < |gaps| && Covers(ChunksOf(c, gaps[k]), b);
    CapTakesPrefix(gaps[k].from, gaps[k].to, c.chunkSize, c.chunkCap);
    ChunksPartition(gaps[k].from, gaps[k].to, c.chunkSize);
    var j :| 0 <= j < |ChunksOf(c, gaps[k])| && Includes(ChunksOf(c, gaps[k])[j], b);
    assert Covers(ChunksFrom(gaps[k].from, gaps[k].to, c.chunkSize, None), b);
    assert Includes(gaps[k], b);
  }

  /** Chunks hold incomplete blocks only. */
  lemma ChunkIsIncomplete(c: Config, s: Watch, latest: int, b: int)
    requires IsConfig(c) && IsNormal(s.completed) && InChunks(c, Found(c, s, latest), b)
    ensures !Covers(s.completed, b)
  {
    InverseIsComplement(s.completed, Some(c.init), Some(latest));
    InChunksIsFound(c, s, latest, b);
  }

  /** A round whose gaps are all small enough for the chunk cap leaves nothing incomplete. */
  lemma RoundCatchesUp(c: Config, s: Watch, latest: int, steps: seq<Step>, end: Watch)
    requires IsConfig(c) && IsRound(c, s, latest, steps, end) && c.init < latest
    requires forall range :: range in Inverse(s.completed, Some(c.init), Some(latest)) ==>
               |Chunks(range, c.chunkSize, None)| <= c.chunkCap
    ensures Missing(end.completed, c.init, latest) == {}
  {
    InverseIsComplement(s.completed, Some(c.init), Some(latest));
    RoundKeepsBlocks(c, s, latest, steps, end);
    var gaps := Inverse(s.completed, Some(c.init), Some(latest));
    forall b | c.init <= b <= latest ensures Covers(end.completed, b) {
      if !Covers(s.completed, b) {
        assert Covers(gaps, b);
        var range := SomeGap(gaps, b);
        UncutIsChunked(c, range, b);
        RoundCoversChunks(c, s, latest, steps, end, range, b);
      }
    }
  }
}
