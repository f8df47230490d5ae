/**
 * Exactly-once delivery: every block is written exactly once in just those runs that never write a
 * complete block, among them all in which the node answers what was asked and no chunk uses up its
 * attempts.
 */
module WatcherOnce {
  import opened Wrappers
  import opened BlockRanges
  import opened Checkpoints
  import opened Watcher
  import opened WatcherSafety

  // ------------------------------------------------------------------ which runs

  /** A batch answer holds the requested blocks in order. */
  predicate Answers(requested: seq<int>, blocks: seq<Block>) {
    |blocks| == |requested| && forall k :: 0 <= k < |blocks| ==> blocks[k].number == Some(requested[k])
  }

  /** The node answers faithfully, and no chunk fails on its last attempt. */
  predicate IsOrderlyStep(s: Watch, step: Step) {
    match step
    case Respond(i, blocks) =>
      i < |s.tasks| && s.tasks[i].phase.Requesting? && Answers(s.tasks[i].phase.requested, blocks)
    case Fail(i) => i < |s.tasks| && IsInFlight(s.tasks[i].phase) && s.tasks[i].phase.attempt < ATTEMPTS
    case _ => true
  }

  predicate IsOrderlyRun(c: Config, s: Watch, steps: seq<Step>)
    requires IsConfig(c) && IsRun(c, s, steps)
    decreases |steps|
  {
    steps == [] || (IsOrderlyStep(s, steps[0]) && IsOrderlyRun(c, Next(c, s, steps[0]), steps[1..]))
  }

  // ------------------------------------------------------------------- invariant

  predicate Distinct(xs: seq<int>) {
    forall k, l :: 0 <= k < l < |xs| ==> xs[k] != xs[l]
  }

  predicate AllIn(chunk: BlockRange, xs: seq<int>) {
    forall k :: 0 <= k < |xs| ==> Includes(chunk, xs[k])
  }

  /** The blocks still to process are different blocks of the chunk. */
  predicate IsPending(chunk: BlockRange, blocks: seq<Block>) {
    && (forall k :: 0 <= k < |blocks| ==> blocks[k].number.Some? && Includes(chunk, blocks[k].number.value))
    && (forall k, l :: 0 <= k < l < |blocks| ==> blocks[k].number != blocks[l].number)
  }

  predicate IsGoodPhase(s: Watch, chunk: BlockRange, phase: Phase) {
    match phase
    case Requesting(_, requested) => AllIn(chunk, requested) && Distinct(requested)
    case Processing(_, blocks) => IsPending(chunk, blocks)
    case AwaitingTxs(_, block, rest) =>
      block.number.Some? && IsPending(chunk, [block] + rest) && (s.active ==> !Covers(s.completed, block.number.value))
    case Exhausted => false
    case Aborted => !s.active
    case _ => true
  }

  predicate Disjoint(a: BlockRange, b: BlockRange) {
    a.to < b.from || b.to < a.from
  }

  predicate IsCurrent(s: Watch, task: Task) {
    s.mode.Round? && task.group == s.mode.group
  }

  ghost predicate Orderly(s: Watch) {
    && IsNormal(s.completed)
    && (s.mode.Round? ==> s.mode.group < s.groups)
    && (forall i :: 0 <= i < |s.tasks| ==> s.tasks[i].group < s.groups)
    && (forall i :: 0 <= i < |s.tasks| ==> IsGoodPhase(s, s.tasks[i].chunk, s.tasks[i].phase))
    && (s.active ==> forall i :: 0 <= i < |s.tasks| ==> s.tasks[i].phase.Finished? || IsCurrent(s, s.tasks[i]))
    && (forall i, j :: 0 <= i < j < |s.tasks| && s.tasks[i].group == s.tasks[j].group ==>
          Disjoint(s.tasks[i].chunk, s.tasks[j].chunk))
  }

  // ------------------------------------------------------------------ requested blocks

  lemma {:induction false} IncompleteMembers(completed: seq<BlockRange>, blocks: seq<int>)
    ensures forall b :: b in Incomplete(completed, blocks) <==> b in blocks && !Covers(completed, b)
    decreases |blocks|
  {
    if blocks != [] {
      var last := |blocks| - 1;
      IncompleteMembers(completed, blocks[..last]);
      assert blocks == blocks[..last] + [blocks[last]];
    }
  }

  lemma {:induction false} IncompleteDistinct(completed: seq<BlockRange>, blocks: seq<int>)
    requires Distinct(blocks)
    ensures Distinct(Incomplete(completed, blocks))
    decreases |blocks|
  {
    if blocks != [] {
      var front, last := blocks[..|blocks| - 1], blocks[|blocks| - 1];
      IncompleteMembers(completed, front);
      IncompleteDistinct(completed, front);
      assert last !in front;
      assert last !in Incomplete(completed, front);
    }
  }

  lemma RequestIsGood(s: Watch, i: nat, attempt: nat)
    requires i < |s.tasks|
    ensures IsGoodPhase(s, s.tasks[i].chunk, BeginAttempt(s, i, attempt))
  {
    var blocks := BlocksOf(s.tasks[i].chunk);
    IncompleteMembers(s.completed, blocks);
    IncompleteDistinct(s.completed, blocks);
    var requested := Incomplete(s.completed, blocks);
    assert forall k :: 0 <= k < |requested| ==> requested[k] in blocks;
  }

  lemma {:induction false} ChunksAscend(start: int, end: int, size: nat, cap: Option<nat>, chunks: seq<BlockRange>)
    requires size > 0 && chunks == ChunksFrom(start, end, size, cap)
    ensures forall i :: 0 <= i < |chunks| ==> chunks[i].from >= start
    ensures forall i, j :: 0 <= i < j < |chunks| ==> chunks[i].to < chunks[j].from
    decreases end - start
  {
    if cap != Some(0) && start < end - 2 - size {
      ChunksAscend(start + size, end, size, if cap.Some? then Some(cap.value - 1) else None, chunks[1..]);
    }
  }

  // ------------------------------------------------------------------ preservation

  /** Changing the phase of one current task to a good one. */
  lemma PhaseStep(s: Watch, i: nat, phase: Phase)
    requires Orderly(s) && i < |s.tasks| && !s.tasks[i].phase.Finished?
    requires IsGoodPhase(s, s.tasks[i].chunk, phase)
    ensures Orderly(SetPhase(s, i, phase))
  {
    var next := SetPhase(s, i, phase);
    forall j | 0 <= j < |next.tasks|
      ensures IsGoodPhase(next, next.tasks[j].chunk, next.tasks[j].phase)
      ensures next.tasks[j].group == s.tasks[j].group && next.tasks[j].chunk == s.tasks[j].chunk
    {
      assert IsGoodPhase(s, s.tasks[j].chunk, s.tasks[j].phase);
    }
  }

  lemma RestIsPending(chunk: BlockRange, blocks: seq<Block>)
    requires IsPending(chunk, blocks) && blocks != []
    ensures IsPending(chunk, blocks[1..])
    ensures [blocks[0]] + blocks[1..] == blocks
  {
  }

  lemma TaskStep(c: Config, s: Watch, step: Step)
    requires IsConfig(c) && Enabled(c, s, step) && IsOrderlyStep(s, step) && Orderly(s)
    requires step.StartTask? || step.Respond? || step.StartBlock? || step.Fail? || step.Wake? || step.ChunkDone? || step.AbortTask?
    ensures Orderly(Next(c, s, step))
  {
    var i, task := step.i, s.tasks[step.i];
    assert IsGoodPhase(s, task.chunk, task.phase);
    match step
    case StartTask(_) =>
      RequestIsGood(s, i, 1);
      PhaseStep(s, i, BeginAttempt(s, i, 1));
    case Respond(_, blocks) =>
      PhaseStep(s, i, Processing(task.phase.attempt, blocks));
    case StartBlock(_) =>
      var p := task.phase;
      RestIsPending(task.chunk, p.blocks);
      PhaseStep(s, i, BeginBlock(s, p.attempt, p.blocks[0], p.blocks[1..]));
    case Fail(_) =>
      PhaseStep(s, i, AfterFailure(s, task.phase.attempt));
    case Wake(_) =>
      RequestIsGood(s, i, task.phase.attempt + 1);
      PhaseStep(s, i, BeginAttempt(s, i, task.phase.attempt + 1));
    case ChunkDone(_) =>
      PhaseStep(s, i, if s.active then Finished else Aborted);
    case AbortTask(_) =>
      PhaseStep(s, i, Aborted);
  }

  lemma FinishStep(c: Config, s: Watch, step: Step)
    requires IsConfig(c) && Enabled(c, s, step) && step.FinishTxs? && Orderly(s)
    ensures Orderly(Next(c, s, step))
    ensures s.active ==> WritesIn(s, step) && !Covers(s.completed, WriteOf(s, step).block.number.value)
  {
    var i, task := step.i, s.tasks[step.i];
    var p := task.phase;
    assert IsGoodPhase(s, task.chunk, p);
    var pending := [p.block] + p.rest;
    assert pending[0] == p.block;
    RestIsPending(task.chunk, pending);
    assert pending[1..] == p.rest;
    var marked := SetPhase(s, i, Processing(p.attempt, p.rest));
    PhaseStep(s, i, Processing(p.attempt, p.rest));
    if s.active {
      var b := p.block.number.value;
      MarkAddsRange(s.completed, BlockRange(b, b));
      var next := Next(c, s, step);
      forall j | 0 <= j < |next.tasks| ensures IsGoodPhase(next, next.tasks[j].chunk, next.tasks[j].phase) {
        assert IsGoodPhase(marked, marked.tasks[j].chunk, marked.tasks[j].phase);
        if j != i && s.tasks[j].phase.AwaitingTxs? {
          assert IsCurrent(s, s.tasks[i]) && IsCurrent(s, s.tasks[j]);
          assert Disjoint(s.tasks[i].chunk, s.tasks[j].chunk);
          assert ([s.tasks[j].phase.block] + s.tasks[j].phase.rest)[0] == s.tasks[j].phase.block;
        }
      }
    }
  }

  lemma NextRangeStep(c: Config, s: Watch)
    requires IsConfig(c) && Enabled(c, s, NextRange) && Orderly(s)
    ensures Orderly(Next(c, s, NextRange))
  {
    var next := Next(c, s, NextRange);
    var chunks := Chunks(s.mode.todo[0], c.chunkSize, Some(c.chunkCap));
    ChunksAscend(s.mode.todo[0].from, s.mode.todo[0].to, c.chunkSize, Some(c.chunkCap), chunks);
    var n := |s.tasks|;
    forall i | 0 <= i < |next.tasks|
      ensures next.tasks[i] == if i < n then s.tasks[i] else Task(s.groups, chunks[i - n], Queued)
    {
    }
    forall i | 0 <= i < n ensures s.tasks[i].phase.Finished? {
      assert s.tasks[i].phase.Finished? || IsCurrent(s, s.tasks[i]);
    }
    forall i, j | 0 <= i < j < |next.tasks| && next.tasks[i].group == next.tasks[j].group
      ensures Disjoint(next.tasks[i].chunk, next.tasks[j].chunk)
    {
      if i >= n {
        assert chunks[i - n].to < chunks[j - n].from;
      }
    }
  }

  lemma ModeStep(c: Config, s: Watch, step: Step)
    requires IsConfig(c) && Enabled(c, s, step) && Orderly(s)
    requires step.Poll? || step.RoundEnds? || step.Shutdown? || step.Stop?
    ensures Orderly(Next(c, s, step))
  {
    var next := Next(c, s, step);
    forall i | 0 <= i < |s.tasks|
      ensures IsGoodPhase(next, s.tasks[i].chunk, s.tasks[i].phase)
      ensures next.active ==> s.tasks[i].phase.Finished?
    {
      assert IsGoodPhase(s, s.tasks[i].chunk, s.tasks[i].phase);
    }
  }

  lemma NoFailedRound(c: Config, s: Watch)
    requires Orderly(s)
    ensures !Enabled(c, s, RoundFails)
  {
    forall i | 0 <= i < |s.tasks| ensures !s.tasks[i].phase.Exhausted? {
      assert IsGoodPhase(s, s.tasks[i].chunk, s.tasks[i].phase);
    }
  }

  lemma OrderlyStep(c: Config, s: Watch, step: Step)
    requires IsConfig(c) && Enabled(c, s, step) && IsOrderlyStep(s, step) && Orderly(s)
    ensures Orderly(Next(c, s, step))
  {
    match step
    case NextRange => NextRangeStep(c, s);
    case RoundFails => NoFailedRound(c, s);
    case FinishTxs(_, _) => FinishStep(c, s, step);
    case Poll(_) => ModeStep(c, s, step);
    case RoundEnds => ModeStep(c, s, step);
    case Shutdown => ModeStep(c, s, step);
    case Stop => ModeStep(c, s, step);
    case _ => TaskStep(c, s, step);
  }

  // ------------------------------------------------------------ counting the output

  predicate IsBlockMessage(m: Message, b: int) {
    m == BlockMessage(b)
  }

  /** How often block `b` stands in the output. */
  function Count(log: seq<Message>, b: int): nat {
    if log == [] then 0
    else Count(log[..|log| - 1], b) + if IsBlockMessage(log[|log| - 1], b) then 1 else 0
  }

  lemma {:induction false} CountConcat(x: seq<Message>, y: seq<Message>, b: int)
    ensures Count(x + y, b) == Count(x, b) + Count(y, b)
    decreases |y|
  {
    if y == [] {
      assert x + y == x;
    } else {
      CountConcat(x, y[..|y| - 1], b);
      assert (x + y)[..|x + y| - 1] == x + y[..|y| - 1];
    }
  }

  lemma {:induction false} NoBlockInOutputs(outputs: seq<seq<Message>>, txs: seq<Tx>, n: nat, b: int)
    requires n <= |outputs| == |txs| && forall k :: 0 <= k < |outputs| ==> IsTxOutput(txs[k], outputs[k])
    ensures Count(FlattenFirst(outputs, n), b) == 0
  {
    if n > 0 {
      NoBlockInOutputs(outputs, txs, n - 1, b);
      assert IsTxOutput(txs[n - 1], outputs[n - 1]);
      NoneCounted(outputs[n - 1], b);
      CountConcat(FlattenFirst(outputs, n - 1), outputs[n - 1], b);
    }
  }

  lemma {:induction false} NoneCounted(log: seq<Message>, b: int)
    requires forall k :: 0 <= k < |log| ==> !log[k].BlockMessage?
    ensures Count(log, b) == 0
    decreases |log|
  {
    if log != [] {
      NoneCounted(log[..|log| - 1], b);
    }
  }

  lemma CountSegment(w: Write, b: int)
    requires IsWrite(w)
    ensures Count(Segment(w.block.number.value, w.outputs), b) == if w.block.number == Some(b) then 1 else 0
  {
    var first := [BlockMessage(w.block.number.value)];
    NoBlockInOutputs(w.outputs, w.block.txs, |w.outputs|, b);
    CountConcat(first, FlattenFirst(w.outputs, |w.outputs|), b);
    assert first[..0] == [];
  }

  // ------------------------------------------------------------------ exactly once

  /** The step writes block `b` although the checkpoint covers it already. */
  predicate IsRewrite(s: Watch, step: Step, b: int) {
    WritesIn(s, step) && WriteOf(s, step).block.number == Some(b) && Covers(s.completed, b)
  }

  /** How often a run writes block `b` again. */
  function Rewrites(c: Config, s: Watch, steps: seq<Step>, b: int): nat
    requires IsConfig(c) && IsRun(c, s, steps)
    decreases |steps|
  {
    if steps == [] then 0
    else (if IsRewrite(s, steps[0], b) then 1 else 0) + Rewrites(c, Next(c, s, steps[0]), steps[1..], b)
  }

  /** 1 if block `b` was completed between `s` and `end`. */
  function Gained(s: Watch, end: Watch, b: int): nat {
    if Covers(end.completed, b) && !Covers(s.completed, b) then 1 else 0
  }

  /** A step puts a block into the output as often as it completes it, plus once if it is a rewrite. */
  lemma CountStep(c: Config, s: Watch, step: Step, b: int)
    requires IsConfig(c) && Enabled(c, s, step) && IsNormal(s.completed)
    ensures var next := Next(c, s, step);
            && IsNormal(next.completed) && (Covers(s.completed, b) ==> Covers(next.completed, b))
            && Count(next.log, b) == Count(s.log, b) + Gained(s, next, b) + (if IsRewrite(s, step, b) then 1 else 0)
  {
    if WritesIn(s, step) {
      WritingStepAppends(c, s, step);
      var w := WriteOf(s, step);
      var n := w.block.number.value;
      MarkAddsRange(s.completed, BlockRange(n, n));
      CountSegment(w, b);
      CountConcat(s.log, Segment(n, w.outputs), b);
    } else {
      OtherStepsWriteNothing(c, s, step);
    }
  }

  /**
   * In every run whatsoever a block stands in the output as often as it was completed, which is
   * once at most, plus once for every rewrite.
   */
  lemma {:induction false} RewritesAreCounted(c: Config, s: Watch, steps: seq<Step>, b: int)
    requires IsConfig(c) && IsRun(c, s, steps) && IsNormal(s.completed)
    ensures var end := Exec(c, s, steps);
            && (Covers(s.completed, b) ==> Covers(end.completed, b))
            && Count(end.log, b) == Count(s.log, b) + Gained(s, end, b) + Rewrites(c, s, steps, b)
    decreases |steps|
  {
    if steps != [] {
      CountStep(c, s, steps[0], b);
      RewritesAreCounted(c, Next(c, s, steps[0]), steps[1..], b);
    }
  }

  /** No step of the run writes a block that is already complete. */
  predicate NeverRewrites(c: Config, s: Watch, steps: seq<Step>)
    requires IsConfig(c) && IsRun(c, s, steps)
    decreases |steps|
  {
    steps == [] ||
    (&& (WritesIn(s, steps[0]) ==> !IsRewrite(s, steps[0], WriteOf(s, steps[0]).block.number.value))
     && NeverRewrites(c, Next(c, s, steps[0]), steps[1..]))
  }

  lemma {:induction false} NoRewrites(c: Config, s: Watch, steps: seq<Step>, b: int)
    requires IsConfig(c) && IsRun(c, s, steps) && NeverRewrites(c, s, steps)
    ensures Rewrites(c, s, steps, b) == 0
    decreases |steps|
  {
    if steps != [] {
      NoRewrites(c, Next(c, s, steps[0]), steps[1..], b);
    }
  }

  lemma {:induction false} SomeRewrite(c: Config, s: Watch, steps: seq<Step>) returns (b: int)
    requires IsConfig(c) && IsRun(c, s, steps) && !NeverRewrites(c, s, steps)
    ensures Rewrites(c, s, steps, b) > 0
    decreases |steps|
  {
    if WritesIn(s, steps[0]) && IsRewrite(s, steps[0], WriteOf(s, steps[0]).block.number.value) {
      b := WriteOf(s, steps[0]).block.number.value;
    } else {
      b := SomeRewrite(c, Next(c, s, steps[0]), steps[1..]);
    }
  }

  /** Block `b` was put out once if it was completed since `start`, and otherwise not at all. */
  predicate IsWrittenAsCompleted(start: Watch, end: Watch, b: int) {
    Count(end.log, b) == Count(start.log, b) + Gained(start, end, b)
  }

  /**
   * In every run, honest or not and with any failures, every block is written exactly once if and
   * only if no block that is already complete is written, which is what the check at the beginning
   * of `processBlock` would have to be repeated for at its end.
   */
  lemma ExactlyOnceIff(c: Config, start: Watch, steps: seq<Step>)
    requires IsConfig(c) && IsRun(c, start, steps) && IsNormal(start.completed)
    ensures (forall b :: IsWrittenAsCompleted(start, Exec(c, start, steps), b)) <==> NeverRewrites(c, start, steps)
  {
    if NeverRewrites(c, start, steps) {
      forall b ensures IsWrittenAsCompleted(start, Exec(c, start, steps), b) {
        RewritesAreCounted(c, start, steps, b);
        NoRewrites(c, start, steps, b);
      }
    } else {
      var b := SomeRewrite(c, start, steps);
      RewritesAreCounted(c, start, steps, b);
      assert !IsWrittenAsCompleted(start, Exec(c, start, steps), b);
    }
  }

  lemma {:induction false} OrderlyNeverRewrites(c: Config, s: Watch, steps: seq<Step>)
    requires IsConfig(c) && IsRun(c, s, steps) && IsOrderlyRun(c, s, steps) && Orderly(s)
    ensures NeverRewrites(c, s, steps)
    decreases |steps|
  {
    if steps != [] {
      if WritesIn(s, steps[0]) {
        FinishStep(c, s, steps[0]);
      }
      OrderlyStep(c, s, steps[0]);
      OrderlyNeverRewrites(c, Next(c, s, steps[0]), steps[1..]);
    }
  }

  /** A watcher that has just been started on a restored checkpoint. */
  predicate IsStart(s: Watch) {
    IsNormal(s.completed) && s.log == [] && s.active && s.mode.Idle? && s.tasks == []
  }

  /**
   * In every orderly run from a start, each block newly covered by the checkpoint stands in the
   * output exactly once and every other block not at all.
   */
  lemma ExactlyOnce(c: Config, start: Watch, steps: seq<Step>, b: int)
    requires IsConfig(c) && IsStart(start) && IsRun(c, start, steps) && IsOrderlyRun(c, start, steps)
    ensures var end := Exec(c, start, steps);
            Count(end.log, b) == if Covers(end.completed, b) && !Covers(start.completed, b) then 1 else 0
  {
    OrderlyNeverRewrites(c, start, steps);
    ExactlyOnceIff(c, start, steps);
    assert IsWrittenAsCompleted(start, Exec(c, start, steps), b);
  }
}
