/**
 * Checkpoints: which blocks are complete, kept in memory as a normal list of ranges, and the file
 * object that all checkpoints are written to and restored from (state.ts).
 */
module Checkpoints {
  import opened Wrappers
  import opened BlockRanges
  import opened RangeText

  // --------------------------------------------------------------------- in memory

  /** `completed` after marking one range. */
  function Mark(completed: seq<BlockRange>, range: BlockRange): seq<BlockRange> {
    Compact(completed + [range])
  }

  /** `completed` after marking single blocks one after the other. */
  function MarkAll(completed: seq<BlockRange>, blocks: seq<int>): seq<BlockRange> {
    if blocks == [] then completed
    else
      var last := |blocks| - 1;
      Mark(MarkAll(completed, blocks[..last]), BlockRange(blocks[last], blocks[last]))
  }

  /** Marking a range adds exactly its blocks and keeps the list normal. */
  lemma MarkAddsRange(completed: seq<BlockRange>, range: BlockRange)
    requires IsNormal(completed) && IsValidRange(range)
    ensures IsNormal(Mark(completed, range))
    ensures forall b :: Covers(Mark(completed, range), b) <==> Covers(completed, b) || Includes(range, b)
  {
    CompactNormalises(completed + [range]);
    forall b ensures Covers(completed + [range], b) <==> Covers(completed, b) || Includes(range, b) {
      CoversConcat(completed, [range], b);
      CoversOne(range, b);
    }
  }

  /** Over any run of marks a block is incomplete exactly if it was so before and was not marked. */
  lemma {:induction false} MarkAllAddsBlocks(completed: seq<BlockRange>, blocks: seq<int>)
    requires IsNormal(completed)
    ensures IsNormal(MarkAll(completed, blocks))
    ensures forall b :: Covers(MarkAll(completed, blocks), b) <==> Covers(completed, b) || b in blocks
    decreases |blocks|
  {
    if blocks != [] {
      var last := |blocks| - 1;
      MarkAllAddsBlocks(completed, blocks[..last]);
      MarkAddsRange(MarkAll(completed, blocks[..last]), BlockRange(blocks[last], blocks[last]));
      assert blocks == blocks[..last] + [blocks[last]];
    }
  }

  /** Neither the order of marks nor repetition nor marking complete blocks leaves a trace. */
  lemma MarkOrderIrrelevantIff(completed: seq<BlockRange>, xs: seq<int>, ys: seq<int>)
    requires IsNormal(completed)
    ensures MarkAll(completed, xs) == MarkAll(completed, ys) <==>
            forall b :: !Covers(completed, b) ==> (b in xs <==> b in ys)
  {
    MarkAllAddsBlocks(completed, xs);
    MarkAllAddsBlocks(completed, ys);
    if forall b :: !Covers(completed, b) ==> (b in xs <==> b in ys) {
      NormalIsUnique(MarkAll(completed, xs), MarkAll(completed, ys));
    }
    if MarkAll(completed, xs) == MarkAll(completed, ys) {
      forall b | !Covers(completed, b) ensures b in xs <==> b in ys {
        assert Covers(MarkAll(completed, xs), b) <==> Covers(MarkAll(completed, ys), b);
      }
    }
  }

  /** What a checkpoint holds, without its identity. */
  datatype Progress = Progress(init: Option<int>, completed: seq<BlockRange>)

  class CheckpointImpl {
    const id: string
    var completed: seq<BlockRange>
    var initialBlockNumber: Option<int>

    ghost predicate Valid()
      reads this
    {
      IsNormal(completed)
    }

    function GetProgress(): Progress
      reads this
    {
      Progress(initialBlockNumber, completed)
    }

    constructor (id: string, initialBlockNumber: Option<int>, completed: seq<BlockRange>)
      requires IsNormal(completed)
      ensures Valid() && this.id == id && GetProgress() == Progress(initialBlockNumber, completed)
    {
      this.id := id;
      this.initialBlockNumber := initialBlockNumber;
      this.completed := completed;
    }

    method SetInitialBlockNumber(blockNumber: int)
      requires Valid()
      modifies this`initialBlockNumber
      ensures Valid() && initialBlockNumber == Some(blockNumber)
    {
      initialBlockNumber := Some(blockNumber);
    }

    method MarkComplete(range: BlockRange)
      requires Valid()
      modifies this`completed
      ensures completed == Mark(old(completed), range)
      ensures IsValidRange(range) ==>
                Valid() && forall b :: Covers(completed, b) <==> Covers(old(completed), b) || Includes(range, b)
    {
      if IsValidRange(range) {
        MarkAddsRange(completed, range);
      }
      completed := CompactRanges(completed + [range]);
    }

    method MarkBlockComplete(blockNumber: int)
      requires Valid()
      modifies this`completed
      ensures Valid() && completed == MarkAll(old(completed), [blockNumber])
      ensures forall b :: Covers(completed, b) <==> Covers(old(completed), b) || b == blockNumber
      ensures !IsIncomplete(blockNumber) && forall b :: b != blockNumber ==> (IsIncomplete(b) <==> old(IsIncomplete(b)))
    {
      assert [blockNumber][..0] == [];
      MarkComplete(BlockRange(blockNumber, blockNumber));
    }

    /** No completed range includes the block. */
    predicate IsIncomplete(block: int): (incomplete: bool)
      reads this
      ensures incomplete <==> forall i :: 0 <= i < |completed| ==> block < completed[i].from || completed[i].to < block
    {
      !Covers(completed, block)
    }

    /** `Err` stands for the exception raised when the initial block number was never set. */
    method GetIncompleteRanges(latestBlock: Option<int>) returns (r: Result<seq<BlockRange>, ()>)
      requires Valid()
      ensures r.Ok? <==> initialBlockNumber.Some?
      ensures r.Ok? ==> r.value == Inverse(completed, initialBlockNumber, latestBlock)
    {
      if initialBlockNumber.None? {
        return Err(());
      }
      var gaps := GetInverseBlockRanges(completed, initialBlockNumber, latestBlock);
      return Ok(gaps);
    }

    function GetCompletedRanges(): seq<string>
      reads this
    {
      SerializeAll(completed)
    }

    /** What is written for this checkpoint. */
    function SerializeEntry(): (entry: Json)
      reads this
      ensures entry == ToEntry(GetProgress())
    {
      Entry(initialBlockNumber, GetCompletedRanges())
    }

    predicate IsEmpty()
      reads this
    {
      completed == []
    }
  }

  // -------------------------------------------------------------------------- text

  function SerializeAll(ranges: seq<BlockRange>): (r: seq<string>)
    ensures |r| == |ranges|
    ensures forall i :: 0 <= i < |ranges| ==> r[i] == SerializeBlockRange(ranges[i])
  {
    seq(|ranges|, i requires 0 <= i < |ranges| => SerializeBlockRange(ranges[i]))
  }

  function ParseAll(texts: seq<string>): Result<seq<BlockRange>, string> {
    Traverse(texts, s => ParseBlockRange(s))
  }

  predicate AllNonNegative(ranges: seq<BlockRange>) {
    forall i :: 0 <= i < |ranges| ==> ranges[i].from >= 0
  }

  lemma ParseAllSerialized(ranges: seq<BlockRange>)
    requires AllValid(ranges)
    ensures AllNonNegative(ranges) ==> ParseAll(SerializeAll(ranges)) == Ok(ranges)
    ensures !AllNonNegative(ranges) ==> ParseAll(SerializeAll(ranges)).Err?
  {
    var texts, parse := SerializeAll(ranges), s => ParseBlockRange(s);
    forall i | 0 <= i < |ranges|
      ensures parse(texts[i]) == if ranges[i].from >= 0 then Ok(ranges[i]) else Err(texts[i])
    {
      RangeTextRoundTrip(ranges[i]);
    }
    TraverseIff(texts, parse, ranges);
    if ParseAll(texts).Ok? {
      TraverseIff(texts, parse, ParseAll(texts).value);
    }
  }

  lemma ParsedAreValid(texts: seq<string>)
    requires ParseAll(texts).Ok?
    ensures AllValid(ParseAll(texts).value)
  {
    var ranges, parse := ParseAll(texts).value, s => ParseBlockRange(s);
    TraverseIff(texts, parse, ranges);
    forall i | 0 <= i < |ranges| ensures IsValidRange(ranges[i]) {
      assert parse(texts[i]) == Ok(ranges[i]);
    }
  }

  // -------------------------------------------------------------------- file object

  /** The values found in a checkpoint file. */
  datatype Json =
    | Number(n: int)
    | Texts(items: seq<string>)
    | Entry(init: Option<int>, ranges: seq<string>)

  type JsonObject = map<string, Json>

  /** Assigning to the key `__proto__` sets the prototype and adds no property. */
  function SetProperty(obj: JsonObject, key: string, value: Json): JsonObject {
    if key == "__proto__" then obj else obj[key := value]
  }

  function ToEntry(p: Progress): Json {
    Entry(p.init, SerializeAll(p.completed))
  }

  /** What `State.Serialize` returns. */
  function Serialized(view: map<string, Progress>): JsonObject {
    map["v" := Number(2)] + map k | k in view && k != "__proto__" :: ToEntry(view[k])
  }

  /** `obj` is what has been written when the checkpoints named in `rest` are still to come. */
  ghost predicate IsWritten(view: map<string, Progress>, rest: set<string>, obj: JsonObject) {
    && (forall k :: k in obj <==> k == "v" || (k in view && k !in rest && k != "__proto__"))
    && (forall k :: k in obj ==> obj[k] == if k in view && k !in rest then ToEntry(view[k]) else Number(2))
  }

  lemma WriteOneMore(view: map<string, Progress>, rest: set<string>, obj: JsonObject, k: string)
    requires IsWritten(view, rest, obj) && k in view && k in rest
    ensures IsWritten(view, rest - {k}, SetProperty(obj, k, ToEntry(view[k])))
  {
  }

  lemma AllWritten(view: map<string, Progress>, obj: JsonObject)
    requires IsWritten(view, {}, obj)
    ensures obj == Serialized(view)
  {
  }

  /** The progress stored under one key; `Err` stands for an exception while reading it. */
  function RestoreEntry(value: Json): Result<Progress, ()> {
    if !value.Entry? then Err(())
    else
      match ParseAll(value.ranges)
      case Err(_) => Err(())
      case Ok(ranges) => Ok(Progress(value.init, Compact(ranges)))
  }

  function RestoreV1(obj: JsonObject): Result<map<string, Progress>, ()> {
    if "init" !in obj || !obj["init"].Number? || "ranges" !in obj || !obj["ranges"].Texts? then Err(())
    else
      match ParseAll(obj["ranges"].items)
      case Err(_) => Err(())
      case Ok(ranges) => Ok(map["main" := Progress(Some(obj["init"].n), Compact(ranges))])
  }

  /** The progress restored from those of `keys` that can be restored. */
  function RestoreKeys(obj: JsonObject, keys: set<string>): map<string, Progress> {
    map k | k in keys && k in obj && RestoreEntry(obj[k]).Ok? :: RestoreEntry(obj[k]).value
  }

  predicate AllRestorable(obj: JsonObject, keys: set<string>) {
    forall k :: k in keys ==> k in obj && RestoreEntry(obj[k]).Ok?
  }

  function RestoreV2(obj: JsonObject): Result<map<string, Progress>, ()> {
    var keys := obj.Keys - {"v"};
    if AllRestorable(obj, keys) then Ok(RestoreKeys(obj, keys)) else Err(())
  }

  /** What a file restores, all keys together; `Err` for any exception. */
  function Restored(obj: JsonObject): Result<map<string, Progress>, ()> {
    if "v" in obj && obj["v"] == Number(1) then RestoreV1(obj)
    else if "v" in obj && obj["v"] == Number(2) then RestoreV2(obj)
    else Err(())
  }

  /** A file of the first version restores the one checkpoint `main`, initial block and ranges. */
  lemma VersionOneRestores(init: int, ranges: seq<BlockRange>)
    requires AllValid(ranges)
    ensures var obj := map["v" := Number(1), "init" := Number(init), "ranges" := Texts(SerializeAll(ranges))];
            Restored(obj) == if AllNonNegative(ranges) then Ok(map["main" := Progress(Some(init), Compact(ranges))]) else Err(())
  {
    ParseAllSerialized(ranges);
  }

  lemma EntryRoundTrip(p: Progress)
    requires IsNormal(p.completed)
    ensures RestoreEntry(ToEntry(p)) == if AllNonNegative(p.completed) then Ok(p) else Err(())
  {
    ParseAllSerialized(p.completed);
    CompactKeepsNormal(p.completed);
  }

  predicate AllRestart(view: map<string, Progress>) {
    forall k :: k in view ==> AllNonNegative(view[k].completed)
  }

  lemma SerializedKeys(view: map<string, Progress>)
    requires "v" !in view
    ensures var obj := Serialized(view);
            && obj["v"] == Number(2) && obj.Keys - {"v"} == view.Keys - {"__proto__"}
            && forall k :: k in view && k != "__proto__" ==> obj[k] == ToEntry(view[k])
  {
  }

  lemma RestoreSerialized(view: map<string, Progress>)
    requires "v" !in view && forall k :: k in view ==> IsNormal(view[k].completed)
    ensures AllRestart(view) ==> Restored(Serialized(view)) == Ok(view - {"__proto__"})
    ensures !AllRestart(view - {"__proto__"}) ==> Restored(Serialized(view)).Err?
  {
    var obj := Serialized(view);
    var keys := obj.Keys - {"v"};
    SerializedKeys(view);
    forall k | k in keys ensures RestoreEntry(obj[k]) == if AllNonNegative(view[k].completed) then Ok(view[k]) else Err(()) {
      EntryRoundTrip(view[k]);
    }
    if AllRestart(view) {
      assert RestoreKeys(obj, keys) == view - {"__proto__"};
    }
    if !AllRestart(view - {"__proto__"}) {
      var k :| k in view - {"__proto__"} && !AllNonNegative(view[k].completed);
      assert k in keys;
    }
  }

  /**
   * Writing all checkpoints and restoring them gives them back if and only if no checkpoint is
   * called `v` or `__proto__` and no completed range begins below zero.
   */
  lemma SerializeRestoreIff(view: map<string, Progress>)
    requires forall k :: k in view ==> IsNormal(view[k].completed)
    ensures Restored(Serialized(view)) == Ok(view) <==> "v" !in view && "__proto__" !in view && AllRestart(view)
  {
    if "v" in view {
      assert Serialized(view)["v"] == ToEntry(view["v"]);
    } else {
      RestoreSerialized(view);
      if "__proto__" !in view {
        assert view - {"__proto__"} == view;
      } else {
        assert "__proto__" !in Serialized(view);
        NoKeyNoProgress(Serialized(view), "__proto__");
      }
    }
  }

  lemma NoKeyNoProgress(obj: JsonObject, key: string)
    requires key !in obj && "v" in obj && obj["v"] == Number(2)
    ensures Restored(obj).Ok? ==> key !in Restored(obj).value
  {
  }

  /** Restoring one more key on top of what was there before. */
  lemma RestoreOneMore(before: map<string, Progress>, obj: JsonObject, keys: set<string>, k: string)
    requires k in obj && RestoreEntry(obj[k]).Ok?
    ensures before + RestoreKeys(obj, keys + {k}) == (before + RestoreKeys(obj, keys))[k := RestoreEntry(obj[k]).value]
  {
  }

  lemma OneKeyRestored(before: map<string, Progress>, k: string, p: Progress)
    ensures before[k := p] == before + map[k := p]
  {
  }

  /** Every checkpoint is as it was before, or as the file says. */
  predicate IsPartlyRestored(view: map<string, Progress>, before: map<string, Progress>, obj: JsonObject) {
    forall k :: k in view ==>
      (k in before && view[k] == before[k]) || (k in obj && RestoreEntry(obj[k]) == Ok(view[k]))
  }

  lemma SomeKeysRestored(before: map<string, Progress>, obj: JsonObject, keys: set<string>)
    requires AllRestorable(obj, keys)
    ensures IsPartlyRestored(before + RestoreKeys(obj, keys), before, obj)
  {
  }

  /** `view` when the keys in `rest` are still to be restored. */
  predicate IsRestoring(before: map<string, Progress>, obj: JsonObject, rest: set<string>, view: map<string, Progress>) {
    var done := obj.Keys - {"v"} - rest;
    rest <= obj.Keys - {"v"} && AllRestorable(obj, done) && view == before + RestoreKeys(obj, done)
  }

  lemma StartRestoring(before: map<string, Progress>, obj: JsonObject)
    ensures IsRestoring(before, obj, obj.Keys - {"v"}, before)
  {
    assert RestoreKeys(obj, {}) == map[];
  }

  lemma RestoringOne(before: map<string, Progress>, obj: JsonObject, rest: set<string>, view: map<string, Progress>, k: string)
    requires IsRestoring(before, obj, rest, view) && k in rest && RestoreEntry(obj[k]).Ok?
    ensures IsRestoring(before, obj, rest - {k}, view[k := RestoreEntry(obj[k]).value])
  {
    var keys := obj.Keys - {"v"};
    RestoreOneMore(before, obj, keys - rest, k);
    assert keys - (rest - {k}) == keys - rest + {k};
  }

  lemma RestoringFails(before: map<string, Progress>, obj: JsonObject, rest: set<string>, view: map<string, Progress>, k: string)
    requires IsRestoring(before, obj, rest, view) && k in rest && RestoreEntry(obj[k]).Err?
    ensures RestoreV2(obj).Err? && IsPartlyRestored(view, before, obj)
  {
    SomeKeysRestored(before, obj, obj.Keys - {"v"} - rest);
  }

  lemma AllRestored(before: map<string, Progress>, obj: JsonObject, view: map<string, Progress>)
    requires IsRestoring(before, obj, {}, view)
    ensures RestoreV2(obj).Ok? && view == before + RestoreV2(obj).value
  {
    assert obj.Keys - {"v"} - {} == obj.Keys - {"v"};
  }

  // -------------------------------------------------------------------------- state

  class State {
    var checkpoints: map<string, CheckpointImpl>

    ghost predicate Valid()
      reads this, checkpoints.Values
    {
      && (forall k :: k in checkpoints ==> checkpoints[k].Valid() && checkpoints[k].id == k)
      && (forall k, l :: k in checkpoints && l in checkpoints && k != l ==> checkpoints[k] != checkpoints[l])
    }

    ghost function View(): map<string, Progress>
      reads this, checkpoints.Values
    {
      map k | k in checkpoints :: checkpoints[k].GetProgress()
    }

    constructor ()
      ensures Valid() && View() == map[]
    {
      checkpoints := map[];
    }

    method GetCheckpoint(id: string) returns (checkpoint: CheckpointImpl)
      requires Valid()
      modifies this
      ensures Valid() && id in checkpoints && checkpoint == checkpoints[id]
      ensures View() == if id in old(View()) then old(View()) else old(View())[id := Progress(None, [])]
      ensures id in old(checkpoints) ==> checkpoints == old(checkpoints)
    {
      if id in checkpoints {
        return checkpoints[id];
      }
      checkpoint := new CheckpointImpl(id, None, []);
      checkpoints := checkpoints[id := checkpoint];
    }

    method Serialize() returns (toSerialize: JsonObject)
      requires Valid()
      ensures toSerialize == Serialized(View())
    {
      toSerialize := map["v" := Number(2)];
      var rest := checkpoints.Keys;
      ghost var view := View();
      while rest != {}
        invariant View() == view
        invariant rest <= checkpoints.Keys && IsWritten(view, rest, toSerialize)
        decreases |rest|
      {
        var k :| k in rest;
        var value := checkpoints[k];
        WriteOneMore(view, rest, toSerialize, k);
        toSerialize := SetProperty(toSerialize, value.id, value.SerializeEntry());
        rest := rest - {k};
      }
      AllWritten(view, toSerialize);
    }

    /** Makes a fresh checkpoint for one restored key. */
    method Restore(id: string, init: Option<int>, ranges: seq<BlockRange>)
      requires Valid() && AllValid(ranges)
      modifies this
      ensures Valid() && View() == old(View())[id := Progress(init, Compact(ranges))]
      ensures forall k :: k in checkpoints ==> fresh(checkpoints[k]) || checkpoints[k] in old(checkpoints.Values)
    {
      CompactNormalises(ranges);
      var completed := CompactRanges(ranges);
      var checkpoint := new CheckpointImpl(id, init, completed);
      checkpoints := checkpoints[id := checkpoint];
    }

    /**
     * Restores all checkpoints of a file. A bad key raises an exception when it is reached, so on
     * failure some of the good ones may already be there.
     */
    method InitializeFromCheckpointContents(obj: JsonObject) returns (r: Result<(), ()>)
      requires Valid()
      modifies this
      ensures Valid() && (r.Ok? <==> Restored(obj).Ok?)
      ensures r.Ok? ==> View() == old(View()) + Restored(obj).value
      ensures r.Err? ==> IsPartlyRestored(View(), old(View()), obj)
    {
      if "v" in obj && obj["v"] == Number(1) {
        if "init" !in obj || !obj["init"].Number? || "ranges" !in obj || !obj["ranges"].Texts? {
          return Err(());
        }
        var ranges := ParseAll(obj["ranges"].items);
        if ranges.Err? {
          return Err(());
        }
        ParsedAreValid(obj["ranges"].items);
        OneKeyRestored(View(), "main", Progress(Some(obj["init"].n), Compact(ranges.value)));
        Restore("main", Some(obj["init"].n), ranges.value);
        return Ok(());
      } else if "v" in obj && obj["v"] == Number(2) {
        r := RestoreEntries(obj);
      } else {
        return Err(());
      }
    }

    /** One pass of the loop over the keys; `false` where parsing the entry raises an exception. */
    method RestoreOne(id: string, entry: Json) returns (ok: bool)
      requires Valid()
      modifies this
      ensures Valid() && (ok <==> RestoreEntry(entry).Ok?)
      ensures View() == if ok then old(View())[id := RestoreEntry(entry).value] else old(View())
      ensures forall k :: k in checkpoints ==> fresh(checkpoints[k]) || checkpoints[k] in old(checkpoints.Values)
    {
      if !entry.Entry? {
        return false;
      }
      var ranges := ParseAll(entry.ranges);
      if ranges.Err? {
        return false;
      }
      ParsedAreValid(entry.ranges);
      Restore(id, entry.init, ranges.value);
      return true;
    }

    method RestoreEntries(obj: JsonObject) returns (r: Result<(), ()>)
      requires Valid()
      modifies this
      ensures Valid() && (r.Ok? <==> RestoreV2(obj).Ok?)
      ensures r.Ok? ==> View() == old(View()) + RestoreV2(obj).value
      ensures r.Err? ==> IsPartlyRestored(View(), old(View()), obj)
    {
      var rest := obj.Keys - {"v"};
      ghost var before := View();
      StartRestoring(before, obj);
      while rest != {}
        invariant Valid() && IsRestoring(before, obj, rest, View())
        decreases |rest|
      {
        var k :| k in rest;
        ghost var view := View();
        var ok := RestoreOne(k, obj[k]);
        if !ok {
          RestoringFails(before, obj, rest, view, k);
          return Err(());
        }
        RestoringOne(before, obj, rest, view, k);
        rest := rest - {k};
      }
      AllRestored(before, obj, View());
      return Ok(());
    }
  }
}
