/**
 * What holds in every run of the block watcher, however tasks interleave, fail, are retried or
 * are shut down: the checkpoint and the output agree, and nothing happens after shutdown.
 */
module WatcherSafety {
  import opened Wrappers
  import opened BlockRanges
  import opened Checkpoints
  import opened Watcher

  /** One block written to the output, with the messages of its transactions. */
  datatype Write = Write(block: Block, outputs: seq<seq<Message>>)

  predicate IsWrite(w: Write) {
    w.block.number.Some? && AreOutputs(w.block, w.outputs)
  }

  predicate AllWrites(ws: seq<Write>) {
    forall i :: 0 <= i < |ws| ==> IsWrite(ws[i])
  }

  /** How many messages the first `k` transactions have. */
  function MessagesBefore(outputs: seq<seq<Message>>, k: nat): nat
    requires k <= |outputs|
  {
    if k == 0 then 0 else MessagesBefore(outputs, k - 1) + |outputs[k - 1]|
  }

  /** From `at` on the log holds the message of block `b` and then every transaction's, in order. */
  predicate HoldsBlock(log: seq<Message>, at: nat, b: int, outputs: seq<seq<Message>>) {
    && at + 1 + MessagesBefore(outputs, |outputs|) <= |log|
    && log[at] == BlockMessage(b)
    && forall k :: 0 <= k < |outputs| ==> HoldsOutput(log, at, outputs, k)
  }

  /** The messages of transaction `k` of the block that begins at `at`. */
  predicate HoldsOutput(log: seq<Message>, at: nat, outputs: seq<seq<Message>>, k: nat)
    requires k < |outputs|
  {
    HoldsMessages(log, at + 1 + MessagesBefore(outputs, k), outputs[k])
  }

  predicate HoldsMessages(log: seq<Message>, at: nat, messages: seq<Message>) {
    at + |messages| <= |log| && forall m :: 0 <= m < |messages| ==> log[at + m] == messages[m]
  }

  /** How many messages the first `i` writes have put out. */
  function SizeBefore(ws: seq<Write>, i: nat): nat
    requires i <= |ws|
  {
    if i == 0 then 0 else SizeBefore(ws, i - 1) + 1 + MessagesBefore(ws[i - 1].outputs, |ws[i - 1].outputs|)
  }

  /** Write number `i` stands in the log right behind the one before. */
  predicate HoldsWrite(log: seq<Message>, base: nat, ws: seq<Write>, i: nat)
    requires i < |ws|
  {
    ws[i].block.number.Some? && HoldsBlock(log, base + SizeBefore(ws, i), ws[i].block.number.value, ws[i].outputs)
  }

  /** `log` is `base` and then the writes, one behind the other, and nothing else. */
  predicate HoldsWrites(base: seq<Message>, log: seq<Message>, ws: seq<Write>) {
    && base <= log && |log| == |base| + SizeBefore(ws, |ws|)
    && forall i :: 0 <= i < |ws| ==> HoldsWrite(log, |base|, ws, i)
  }

  predicate WritesBlock(ws: seq<Write>, b: int) {
    exists i :: 0 <= i < |ws| && ws[i].block.number == Some(b)
  }

  /** Complete are the blocks that were so before and those written. */
  ghost predicate MarksWrites(before: seq<BlockRange>, completed: seq<BlockRange>, ws: seq<Write>) {
    forall b :: Covers(completed, b) <==> Covers(before, b) || WritesBlock(ws, b)
  }

  /**
   * Since `start`, the output grew by exactly the contiguous messages of the blocks in `ws`, and
   * the checkpoint by exactly their numbers.
   */
  ghost predicate Explains(start: Watch, s: Watch, ws: seq<Write>) {
    && AllWrites(ws)
    && IsNormal(s.completed)
    && HoldsWrites(start.log, s.log, ws)
    && MarksWrites(start.completed, s.completed, ws)
  }

  // ------------------------------------------------------------------ what is put out

  lemma {:induction false} FlattenedSize(outputs: seq<seq<Message>>, n: nat)
    requires n <= |outputs|
    ensures |FlattenFirst(outputs, n)| == MessagesBefore(outputs, n)
  {
    if n > 0 {
      FlattenedSize(outputs, n - 1);
    }
  }

  lemma {:induction false} FlattenedHolds(outputs: seq<seq<Message>>, n: nat, k: nat)
    requires k < n <= |outputs|
    ensures HoldsMessages(FlattenFirst(outputs, n), MessagesBefore(outputs, k), outputs[k])
  {
    FlattenedSize(outputs, n - 1);
    if k < n - 1 {
      FlattenedHolds(outputs, n - 1, k);
    }
  }

  lemma HoldsBehind(front: seq<Message>, log: seq<Message>, at: nat, messages: seq<Message>)
    requires HoldsMessages(log, at, messages)
    ensures HoldsMessages(front + log, |front| + at, messages)
  {
  }

  /** A segment put out behind a log holds the block. */
  lemma SegmentHolds(log: seq<Message>, b: int, outputs: seq<seq<Message>>)
    ensures |log + Segment(b, outputs)| == |log| + 1 + MessagesBefore(outputs, |outputs|)
    ensures HoldsBlock(log + Segment(b, outputs), |log|, b, outputs)
  {
    FlattenedSize(outputs, |outputs|);
    var front, flat := log + [BlockMessage(b)], FlattenFirst(outputs, |outputs|);
    assert log + Segment(b, outputs) == front + flat;
    forall k | 0 <= k < |outputs| ensures HoldsOutput(front + flat, |log|, outputs, k) {
      FlattenedHolds(outputs, |outputs|, k);
      HoldsBehind(front, flat, MessagesBefore(outputs, k), outputs[k]);
    }
  }

  lemma StillHolds(log: seq<Message>, longer: seq<Message>, at: nat, b: int, outputs: seq<seq<Message>>)
    requires HoldsBlock(log, at, b, outputs) && log <= longer
    ensures HoldsBlock(longer, at, b, outputs)
  {
    forall k | 0 <= k < |outputs| ensures HoldsOutput(longer, at, outputs, k) {
      assert HoldsOutput(log, at, outputs, k);
    }
  }

  lemma {:induction false} SizeOfMore(ws: seq<Write>, w: Write, i: nat)
    requires i <= |ws|
    ensures SizeBefore(ws + [w], i) == SizeBefore(ws, i)
  {
    if i > 0 {
      SizeOfMore(ws, w, i - 1);
    }
  }

  // ------------------------------------------------------------------ single steps

  /** A step writes a block exactly if transaction processing ends while the watcher is active. */
  predicate WritesIn(s: Watch, step: Step) {
    && step.FinishTxs? && step.i < |s.tasks| && s.tasks[step.i].phase.AwaitingTxs?
    && s.active && s.tasks[step.i].phase.block.number.Some?
  }

  function WriteOf(s: Watch, step: Step): Write
    requires WritesIn(s, step)
  {
    Write(s.tasks[step.i].phase.block, step.outputs)
  }

  lemma OtherStepsWriteNothing(c: Config, s: Watch, step: Step)
    requires IsConfig(c) && Enabled(c, s, step) && !WritesIn(s, step)
    ensures Next(c, s, step).log == s.log && Next(c, s, step).completed == s.completed
  {
  }

  lemma WritingStepAppends(c: Config, s: Watch, step: Step)
    requires IsConfig(c) && Enabled(c, s, step) && WritesIn(s, step)
    ensures var w, next := WriteOf(s, step), Next(c, s, step); var b := w.block.number.value;
            && IsWrite(w) && next.log == s.log + Segment(b, w.outputs)
            && next.completed == Mark(s.completed, BlockRange(b, b))
  {
  }

  /** A writing step appends one block with all its messages, and nothing else, and marks it. */
  lemma WritingStep(c: Config, s: Watch, step: Step)
    requires IsConfig(c) && Enabled(c, s, step) && WritesIn(s, step)
    ensures var w, next := WriteOf(s, step), Next(c, s, step); var b := w.block.number.value;
            && IsWrite(w) && w.block == s.tasks[step.i].phase.block && w.outputs == step.outputs
            && s.log <= next.log && |next.log| == |s.log| + 1 + MessagesBefore(w.outputs, |w.outputs|)
            && HoldsBlock(next.log, |s.log|, b, w.outputs)
            && next.completed == Mark(s.completed, BlockRange(b, b))
  {
    WritingStepAppends(c, s, step);
    SegmentHolds(s.log, WriteOf(s, step).block.number.value, step.outputs);
  }

  lemma StillHoldsWrite(log: seq<Message>, longer: seq<Message>, base: nat, ws: seq<Write>, w: Write, i: nat)
    requires i < |ws| && HoldsWrite(log, base, ws, i) && log <= longer
    ensures HoldsWrite(longer, base, ws + [w], i)
  {
    SizeOfMore(ws, w, i);
    StillHolds(log, longer, base + SizeBefore(ws, i), ws[i].block.number.value, ws[i].outputs);
  }

  lemma WritesMore(ws: seq<Write>, w: Write, b: int)
    ensures WritesBlock(ws + [w], b) <==> WritesBlock(ws, b) || w.block.number == Some(b)
  {
    var more := ws + [w];
    assert more[|ws|] == w;
    if WritesBlock(ws, b) {
      var i :| 0 <= i < |ws| && ws[i].block.number == Some(b);
      assert more[i] == ws[i];
    }
  }

  lemma HoldsMore(base: seq<Message>, log: seq<Message>, longer: seq<Message>, ws: seq<Write>, w: Write)
    requires HoldsWrites(base, log, ws) && IsWrite(w)
    requires log <= longer && |longer| == |log| + 1 + MessagesBefore(w.outputs, |w.outputs|)
    requires HoldsBlock(longer, |log|, w.block.number.value, w.outputs)
    ensures HoldsWrites(base, longer, ws + [w])
  {
    var more := ws + [w];
    LastSize(ws, w);
    forall i | 0 <= i < |more| ensures HoldsWrite(longer, |base|, more, i) {
      if i < |ws| {
        StillHoldsWrite(log, longer, |base|, ws, w, i);
      }
    }
  }

  lemma LastSize(ws: seq<Write>, w: Write)
    ensures SizeBefore(ws + [w], |ws|) == SizeBefore(ws, |ws|)
    ensures SizeBefore(ws + [w], |ws| + 1) == SizeBefore(ws, |ws|) + 1 + MessagesBefore(w.outputs, |w.outputs|)
  {
    SizeOfMore(ws, w, |ws|);
  }

  lemma MarksMore(before: seq<BlockRange>, completed: seq<BlockRange>, ws: seq<Write>, w: Write)
    requires IsNormal(completed) && IsWrite(w) && MarksWrites(before, completed, ws)
    ensures var n := w.block.number.value; var more := Mark(completed, BlockRange(n, n));
            IsNormal(more) && MarksWrites(before, more, ws + [w])
  {
    var n := w.block.number.value;
    MarkAddsRange(completed, BlockRange(n, n));
    forall b ensures WritesBlock(ws + [w], b) <==> WritesBlock(ws, b) || b == n {
      WritesMore(ws, w, b);
    }
  }

  lemma ExplainStep(c: Config, start: Watch, s: Watch, ws: seq<Write>, step: Step)
    requires IsConfig(c) && Enabled(c, s, step) && WritesIn(s, step) && Explains(start, s, ws)
    ensures Explains(start, Next(c, s, step), ws + [WriteOf(s, step)])
  {
    var w, next := WriteOf(s, step), Next(c, s, step);
    WritingStep(c, s, step);
    HoldsMore(start.log, s.log, next.log, ws, w);
    MarksMore(start.completed, s.completed, ws, w);
  }

  lemma {:induction false} ExplainRun(c: Config, start: Watch, s: Watch, ws: seq<Write>, steps: seq<Step>)
    returns (all: seq<Write>)
    requires IsConfig(c) && IsRun(c, s, steps) && Explains(start, s, ws)
    ensures Explains(start, Exec(c, s, steps), all)
    decreases |steps|
  {
    if steps == [] {
      all := ws;
    } else {
      var next := Next(c, s, steps[0]);
      if WritesIn(s, steps[0]) {
        ExplainStep(c, start, s, ws, steps[0]);
        all := ExplainRun(c, start, next, ws + [WriteOf(s, steps[0])], steps[1..]);
      } else {
        OtherStepsWriteNothing(c, s, steps[0]);
        all := ExplainRun(c, start, next, ws, steps[1..]);
      }
    }
  }

  /**
   * In every run the output grows by whole blocks, one behind the other, each with its own message
   * and all messages of its transactions, and the checkpoint by the numbers of these blocks.
   */
  lemma CheckpointMatchesOutput(c: Config, start: Watch, steps: seq<Step>)
    requires IsConfig(c) && IsRun(c, start, steps) && IsNormal(start.completed)
    ensures exists ws :: Explains(start, Exec(c, start, steps), ws)
  {
    assert Explains(start, start, []);
    var ws := ExplainRun(c, start, start, [], steps);
  }

  /** Each transaction's own message stands first among its messages, a bare hash has none. */
  predicate HoldsTransactions(log: seq<Message>, at: nat, block: Block, outputs: seq<seq<Message>>)
    requires |outputs| == |block.txs|
  {
    forall k :: 0 <= k < |outputs| ==>
      match block.txs[k]
      case BareHash(_) => outputs[k] == []
      case FullTx(hash) => HoldsMessages(log, at + 1 + MessagesBefore(outputs, k), [TxMessage(hash)])
  }

  lemma OwnMessagesFirst(log: seq<Message>, at: nat, b: int, block: Block, outputs: seq<seq<Message>>)
    requires AreOutputs(block, outputs) && HoldsBlock(log, at, b, outputs)
    ensures HoldsTransactions(log, at, block, outputs)
  {
    forall k | 0 <= k < |outputs| && block.txs[k].FullTx?
      ensures HoldsMessages(log, at + 1 + MessagesBefore(outputs, k), [TxMessage(block.txs[k].hash)])
    {
      assert IsTxOutput(block.txs[k], outputs[k]);
      assert HoldsOutput(log, at, outputs, k);
      assert log[at + 1 + MessagesBefore(outputs, k) + 0] == outputs[k][0];
    }
  }

  /** From `at` on, block `b` stands in the log with its message and those of its transactions. */
  predicate StandsAt(log: seq<Message>, at: nat, b: int, block: Block, outputs: seq<seq<Message>>) {
    && block.number == Some(b) && |outputs| == |block.txs|
    && HoldsBlock(log, at, b, outputs) && HoldsTransactions(log, at, block, outputs)
  }

  lemma HeldStands(log: seq<Message>, at: nat, w: Write)
    requires IsWrite(w) && HoldsBlock(log, at, w.block.number.value, w.outputs)
    ensures StandsAt(log, at, w.block.number.value, w.block, w.outputs)
  {
    OwnMessagesFirst(log, at, w.block.number.value, w.block, w.outputs);
  }

  /**
   * The same for one block: if it is newly covered, its message and those of its transactions stand
   * in the output since the start, without a gap and in order.
   */
  lemma CoveredMeansWritten(c: Config, start: Watch, steps: seq<Step>, b: int)
    requires IsConfig(c) && IsRun(c, start, steps) && IsNormal(start.completed)
    requires Covers(Exec(c, start, steps).completed, b) && !Covers(start.completed, b)
    ensures exists at, block, outputs :: |start.log| <= at && StandsAt(Exec(c, start, steps).log, at, b, block, outputs)
  {
    CheckpointMatchesOutput(c, start, steps);
    var end := Exec(c, start, steps);
    var ws: seq<Write> :| Explains(start, end, ws);
    assert WritesBlock(ws, b);
    var i :| 0 <= i < |ws| && ws[i].block.number == Some(b);
    assert HoldsWrite(end.log, |start.log|, ws, i) && IsWrite(ws[i]);
    HeldStands(end.log, |start.log| + SizeBefore(ws, i), ws[i]);
  }

  /** Once shut down, nothing is written or marked any more and the watcher stays shut down. */
  lemma {:induction false} NothingAfterShutdown(c: Config, s: Watch, steps: seq<Step>)
    requires IsConfig(c) && IsRun(c, s, steps) && !s.active
    ensures var end := Exec(c, s, steps);
            !end.active && end.log == s.log && end.completed == s.completed
    decreases |steps|
  {
    if steps != [] {
      OtherStepsWriteNothing(c, s, steps[0]);
      NothingAfterShutdown(c, Next(c, s, steps[0]), steps[1..]);
    }
  }
}
