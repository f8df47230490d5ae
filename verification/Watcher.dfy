/**
 * The block watcher as a state machine. One step is what runs between two awaits: the poll loop
 * (`start`), the chunk tasks with their retry loop, and the processing of single blocks. Network
 * answers, failures, the interleaving of tasks and the moment of shutdown are arbitrary.
 */
module Watcher {
  import opened Wrappers
  import opened BlockRanges
  import opened Checkpoints

  /** Attempts per chunk. */
  const ATTEMPTS: nat := 100

  /** A transaction of a block as answered by the node; a bare hash is skipped. */
  datatype Tx = BareHash(hash: string) | FullTx(hash: string)

  datatype Block = Block(number: Option<int>, txs: seq<Tx>)

  datatype Message = BlockMessage(number: int) | TxMessage(hash: string) | EventMessage(hash: string, index: nat)

  /** `chunkSize`, `chunkCap` and `maxParallel` are configured; `init` is the first block of interest. */
  datatype Config = Config(init: int, chunkSize: nat, chunkCap: nat, maxParallel: nat)

  predicate IsConfig(c: Config) {
    c.chunkSize > 0
  }

  /** Where a chunk task is; `attempt` counts from 1. */
  datatype Phase =
    | Queued
    | Requesting(attempt: nat, requested: seq<int>)
    | Processing(attempt: nat, blocks: seq<Block>)
    | AwaitingTxs(attempt: nat, block: Block, rest: seq<Block>)
    | Sleeping(attempt: nat)
    | Finished
    | Exhausted
    | Aborted

  /** `group` tells which call of `parallel` the task belongs to. */
  datatype Task = Task(group: nat, chunk: BlockRange, phase: Phase)

  /** In a round, `todo` are the ranges still to start and `group` is the running call of `parallel`. */
  datatype Mode = Idle | Round(todo: seq<BlockRange>, group: nat) | Stopped

  datatype Watch = Watch(
    completed: seq<BlockRange>,
    log: seq<Message>,
    active: bool,
    mode: Mode,
    groups: nat,
    tasks: seq<Task>)

  datatype Step =
    | Poll(latest: int)
    | NextRange
    | RoundEnds
    | RoundFails
    | Shutdown
    | Stop
    | StartTask(i: nat)
    | Respond(i: nat, blocks: seq<Block>)
    | StartBlock(i: nat)
    | FinishTxs(i: nat, outputs: seq<seq<Message>>)
    | Fail(i: nat)
    | Wake(i: nat)
    | ChunkDone(i: nat)
    | AbortTask(i: nat)

  // --------------------------------------------------------------------- messages

  /** The messages of one transaction: its own first, then those of its log events. */
  predicate IsTxOutput(tx: Tx, messages: seq<Message>) {
    match tx
    case BareHash(_) => messages == []
    case FullTx(hash) =>
      && messages != [] && messages[0] == TxMessage(hash)
      && forall k :: 1 <= k < |messages| ==> messages[k].EventMessage?
  }

  predicate AreOutputs(block: Block, outputs: seq<seq<Message>>) {
    |outputs| == |block.txs| && forall k :: 0 <= k < |outputs| ==> IsTxOutput(block.txs[k], outputs[k])
  }

  /** The messages of the first `n` transactions, in order. */
  function FlattenFirst(outputs: seq<seq<Message>>, n: nat): seq<Message>
    requires n <= |outputs|
  {
    if n == 0 then [] else FlattenFirst(outputs, n - 1) + outputs[n - 1]
  }

  /** Everything written for one block, in order. */
  function Segment(number: int, outputs: seq<seq<Message>>): seq<Message> {
    [BlockMessage(number)] + FlattenFirst(outputs, |outputs|)
  }

  // ------------------------------------------------------------------------ tasks

  predicate IsInFlight(p: Phase) {
    p.Requesting? || p.Processing? || p.AwaitingTxs? || p.Sleeping?
  }

  /** The tasks of a group that hold one of its `maxParallel` slots. */
  function InFlight(s: Watch, group: nat): set<nat> {
    set i: nat | i < |s.tasks| && s.tasks[i].group == group && IsInFlight(s.tasks[i].phase)
  }

  predicate GroupFinished(s: Watch, group: nat) {
    forall i :: 0 <= i < |s.tasks| && s.tasks[i].group == group ==> s.tasks[i].phase.Finished?
  }

  function NewTasks(group: nat, chunks: seq<BlockRange>): (r: seq<Task>)
    ensures |r| == |chunks|
    ensures forall i :: 0 <= i < |r| ==> r[i] == Task(group, chunks[i], Queued)
  {
    seq(|chunks|, i requires 0 <= i < |chunks| => Task(group, chunks[i], Queued))
  }

  /** The blocks of `blocks` that are still incomplete, in order. */
  function Incomplete(completed: seq<BlockRange>, blocks: seq<int>): seq<int> {
    if blocks == [] then []
    else
      var front := Incomplete(completed, blocks[..|blocks| - 1]);
      if Covers(completed, blocks[|blocks| - 1]) then front else front + [blocks[|blocks| - 1]]
  }

  /** The beginning of `processChunk`: the still incomplete blocks are requested in one batch. */
  function BeginAttempt(s: Watch, i: nat, attempt: nat): Phase
    requires i < |s.tasks|
  {
    Requesting(attempt, Incomplete(s.completed, BlocksOf(s.tasks[i].chunk)))
  }

  function SetPhase(s: Watch, i: nat, phase: Phase): Watch
    requires i < |s.tasks|
  {
    s.(tasks := s.tasks[i := s.tasks[i].(phase := phase)])
  }

  // ------------------------------------------------------------------------ steps

  predicate Enabled(c: Config, s: Watch, step: Step) {
    match step
    case Poll(_) => s.active && s.mode.Idle?
    case NextRange => s.active && s.mode.Round? && s.mode.todo != [] && GroupFinished(s, s.mode.group)
    case RoundEnds => s.mode.Round? && s.mode.todo == [] && GroupFinished(s, s.mode.group)
    case RoundFails =>
      s.mode.Round? && exists i :: 0 <= i < |s.tasks| && s.tasks[i].group == s.mode.group && s.tasks[i].phase.Exhausted?
    case Shutdown => s.active
    case Stop => !s.active && !s.mode.Stopped?
    case StartTask(i) =>
      && s.active && i < |s.tasks| && s.tasks[i].phase.Queued?
      && (forall j :: 0 <= j < i && s.tasks[j].group == s.tasks[i].group ==> !s.tasks[j].phase.Queued?)
      && |InFlight(s, s.tasks[i].group)| < c.maxParallel
    case Respond(i, _) => i < |s.tasks| && s.tasks[i].phase.Requesting?
    case StartBlock(i) => i < |s.tasks| && s.tasks[i].phase.Processing? && s.tasks[i].phase.blocks != []
    case FinishTxs(i, outputs) =>
      i < |s.tasks| && s.tasks[i].phase.AwaitingTxs? && AreOutputs(s.tasks[i].phase.block, outputs)
    case Fail(i) =>
      i < |s.tasks| && (s.tasks[i].phase.Requesting? || s.tasks[i].phase.Processing? || s.tasks[i].phase.AwaitingTxs?)
    case Wake(i) => s.active && i < |s.tasks| && s.tasks[i].phase.Sleeping?
    case ChunkDone(i) => i < |s.tasks| && s.tasks[i].phase.Processing? && s.tasks[i].phase.blocks == []
    case AbortTask(i) => !s.active && i < |s.tasks| && IsInFlight(s.tasks[i].phase)
  }

  /** The synchronous start of `processBlock` for the first of the remaining blocks. */
  function BeginBlock(s: Watch, attempt: nat, block: Block, rest: seq<Block>): Phase {
    if block.number.None? || Covers(s.completed, block.number.value) then Processing(attempt, rest)
    else if !s.active then Aborted
    else AwaitingTxs(attempt, block, rest)
  }

  /** The end of `processBlock`: write everything and mark the block, unless shut down meanwhile. */
  function EndBlock(s: Watch, i: nat, outputs: seq<seq<Message>>): Watch
    requires i < |s.tasks| && s.tasks[i].phase.AwaitingTxs?
  {
    var p := s.tasks[i].phase;
    var next := SetPhase(s, i, Processing(p.attempt, p.rest));
    if !s.active || p.block.number.None? then next
    else
      var number := p.block.number.value;
      next.(log := s.log + Segment(number, outputs), completed := Mark(s.completed, BlockRange(number, number)))
  }

  /** What the retry loop does with a failed attempt. */
  function AfterFailure(s: Watch, attempt: nat): Phase {
    if !s.active then Aborted else if attempt < ATTEMPTS then Sleeping(attempt) else Exhausted
  }

  function Next(c: Config, s: Watch, step: Step): Watch
    requires IsConfig(c) && Enabled(c, s, step)
  {
    match step
    case Poll(latest) => s.(mode := Round(Inverse(s.completed, Some(c.init), Some(latest)), s.groups), groups := s.groups + 1)
    case NextRange =>
      var chunks := Chunks(s.mode.todo[0], c.chunkSize, Some(c.chunkCap));
      s.(mode := Round(s.mode.todo[1..], s.groups), groups := s.groups + 1, tasks := s.tasks + NewTasks(s.groups, chunks))
    case RoundEnds => s.(mode := Idle)
    case RoundFails => s.(mode := Idle)
    case Shutdown => s.(active := false)
    case Stop => s.(mode := Stopped)
    case StartTask(i) => SetPhase(s, i, BeginAttempt(s, i, 1))
    case Respond(i, blocks) => SetPhase(s, i, Processing(s.tasks[i].phase.attempt, blocks))
    case StartBlock(i) =>
      var p := s.tasks[i].phase;
      SetPhase(s, i, BeginBlock(s, p.attempt, p.blocks[0], p.blocks[1..]))
    case FinishTxs(i, outputs) => EndBlock(s, i, outputs)
    case Fail(i) => SetPhase(s, i, AfterFailure(s, s.tasks[i].phase.attempt))
    case Wake(i) => SetPhase(s, i, BeginAttempt(s, i, s.tasks[i].phase.attempt + 1))
    case ChunkDone(i) => SetPhase(s, i, if s.active then Finished else Aborted)
    case AbortTask(i) => SetPhase(s, i, Aborted)
  }

  // ------------------------------------------------------------------------- runs

  /** The steps can be taken one after the other from `s`. */
  predicate IsRun(c: Config, s: Watch, steps: seq<Step>)
    requires IsConfig(c)
    decreases |steps|
  {
    steps == [] || (Enabled(c, s, steps[0]) && IsRun(c, Next(c, s, steps[0]), steps[1..]))
  }

  function Exec(c: Config, s: Watch, steps: seq<Step>): Watch
    requires IsConfig(c) && IsRun(c, s, steps)
    decreases |steps|
  {
    if steps == [] then s else Exec(c, Next(c, s, steps[0]), steps[1..])
  }
}
