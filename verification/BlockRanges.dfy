/**
 * Sets of block numbers kept as lists of inclusive ranges: the normal form, its complement, and
 * the split into chunks (blockrange.ts).
 */
module BlockRanges {
  import opened Wrappers

  /** From and to block, both inclusive. */
  datatype BlockRange = BlockRange(from: int, to: int)

  predicate Includes(range: BlockRange, block: int) {
    range.from <= block <= range.to
  }

  predicate Covers(ranges: seq<BlockRange>, block: int) {
    exists i :: 0 <= i < |ranges| && Includes(ranges[i], block)
  }

  predicate IsValidRange(range: BlockRange) {
    range.from <= range.to
  }

  predicate AllValid(ranges: seq<BlockRange>) {
    forall i :: 0 <= i < |ranges| ==> IsValidRange(ranges[i])
  }

  /** Valid ranges in ascending order with at least one uncovered block between neighbours. */
  predicate IsNormal(ranges: seq<BlockRange>) {
    && AllValid(ranges)
    && forall i :: 0 < i < |ranges| ==> ranges[i - 1].to + 1 < ranges[i].from
  }

  lemma CoversConcat(a: seq<BlockRange>, b: seq<BlockRange>, block: int)
    ensures Covers(a + b, block) <==> Covers(a, block) || Covers(b, block)
  {
    var c := a + b;
    if Covers(c, block) {
      var i :| 0 <= i < |c| && Includes(c[i], block);
      assert if i < |a| then Includes(a[i], block) else Includes(b[i - |a|], block);
    }
    if Covers(a, block) {
      var i :| 0 <= i < |a| && Includes(a[i], block);
      assert Includes(c[i], block);
    }
    if Covers(b, block) {
      var i :| 0 <= i < |b| && Includes(b[i], block);
      assert Includes(c[|a| + i], block);
    }
  }

  lemma CoversFirst(ranges: seq<BlockRange>, block: int)
    requires ranges != []
    ensures Covers(ranges, block) <==> Includes(ranges[0], block) || Covers(ranges[1..], block)
  {
    CoversConcat([ranges[0]], ranges[1..], block);
    assert ranges == [ranges[0]] + ranges[1..];
    assert Covers([ranges[0]], block) <==> Includes(ranges[0], block) by {
      assert [ranges[0]][0] == ranges[0];
    }
  }

  // ---------------------------------------------------------------------- sorting

  predicate SortedByFrom(ranges: seq<BlockRange>) {
    forall i, j :: 0 <= i < j < |ranges| ==> ranges[i].from <= ranges[j].from
  }

  function InsertByFrom(range: BlockRange, ranges: seq<BlockRange>): (r: seq<BlockRange>)
    ensures multiset(r) == multiset(ranges) + multiset{range}
  {
    if ranges == [] || range.from < ranges[0].from then [range] + ranges
    else
      assert ranges == [ranges[0]] + ranges[1..];
      [ranges[0]] + InsertByFrom(range, ranges[1..])
  }

  lemma {:induction false} InsertKeepsOrder(range: BlockRange, ranges: seq<BlockRange>)
    requires SortedByFrom(ranges)
    ensures SortedByFrom(InsertByFrom(range, ranges))
  {
    if ranges != [] && range.from >= ranges[0].from {
      InsertKeepsOrder(range, ranges[1..]);
      var rest := InsertByFrom(range, ranges[1..]);
      forall i | 0 <= i < |rest| ensures ranges[0].from <= rest[i].from {
        assert rest[i] in multiset(rest);
        assert rest[i] == range || rest[i] in ranges[1..];
      }
    }
  }

  /** `[...ranges].sort((a, b) => a.from - b.from)`. */
  function SortByFrom(ranges: seq<BlockRange>): (r: seq<BlockRange>)
    ensures multiset(r) == multiset(ranges)
  {
    if ranges == [] then []
    else
      assert ranges == ranges[..|ranges| - 1] + [ranges[|ranges| - 1]];
      InsertByFrom(ranges[|ranges| - 1], SortByFrom(ranges[..|ranges| - 1]))
  }

  lemma {:induction false} SortSorts(ranges: seq<BlockRange>)
    ensures SortedByFrom(SortByFrom(ranges))
    decreases |ranges|
  {
    if ranges != [] {
      SortSorts(ranges[..|ranges| - 1]);
      InsertKeepsOrder(ranges[|ranges| - 1], SortByFrom(ranges[..|ranges| - 1]));
    }
  }

  /** Coverage does not depend on order. */
  lemma SameElementsCover(a: seq<BlockRange>, b: seq<BlockRange>, block: int)
    requires multiset(a) == multiset(b)
    ensures Covers(a, block) <==> Covers(b, block)
  {
    if Covers(a, block) {
      CoversOfPermutation(a, b, block);
    }
    if Covers(b, block) {
      CoversOfPermutation(b, a, block);
    }
  }

  lemma CoversOfPermutation(a: seq<BlockRange>, b: seq<BlockRange>, block: int)
    requires multiset(a) == multiset(b) && Covers(a, block)
    ensures Covers(b, block)
  {
    var i :| 0 <= i < |a| && Includes(a[i], block);
    assert a[i] in multiset(a) && a[i] in b;
    var j :| 0 <= j < |b| && b[j] == a[i];
  }

  // ------------------------------------------------------------------- compaction

  function Max(a: int, b: int): int {
    if a < b then b else a
  }

  /** Merges overlapping and adjacent ranges from index `i` on into `cur`, the range being built. */
  function MergeInto(cur: BlockRange, sorted: seq<BlockRange>, i: nat): seq<BlockRange>
    requires i <= |sorted|
    decreases |sorted| - i
  {
    if i == |sorted| then [cur]
    else if sorted[i].from - 1 <= cur.to then
      MergeInto(BlockRange(cur.from, Max(cur.to, sorted[i].to)), sorted, i + 1)
    else [cur] + MergeInto(sorted[i], sorted, i + 1)
  }

  function MergeFrom(sorted: seq<BlockRange>, i: nat): seq<BlockRange>
    requires i <= |sorted|
  {
    if i == |sorted| then [] else MergeInto(sorted[i], sorted, i + 1)
  }

  function Compact(ranges: seq<BlockRange>): seq<BlockRange> {
    MergeFrom(SortByFrom(ranges), 0)
  }

  method CompactRanges(ranges: seq<BlockRange>) returns (newRanges: seq<BlockRange>)
    ensures newRanges == Compact(ranges)
  {
    var sorted := SortByFrom(ranges);
    newRanges := [];
    var i, len := 0, |sorted|;
    while i < len
      invariant 0 <= i <= len
      invariant Compact(ranges) == newRanges + MergeFrom(sorted, i)
    {
      var start, maxEnd := sorted[i].from, sorted[i].to;
      ghost var rest := MergeFrom(sorted, i);
      while i + 1 < len && sorted[i + 1].from - 1 <= maxEnd
        invariant 0 <= i < len
        invariant rest == MergeInto(BlockRange(start, maxEnd), sorted, i + 1)
      {
        i := i + 1;
        maxEnd := Max(maxEnd, sorted[i].to);
      }
      MergeEnds(BlockRange(start, maxEnd), sorted, i + 1);
      AppendNext(newRanges, BlockRange(start, maxEnd), MergeFrom(sorted, i + 1), rest);
      newRanges := newRanges + [BlockRange(start, maxEnd)];
      i := i + 1;
    }
  }

  /** A range that the next one does not touch is finished. */
  lemma MergeEnds(cur: BlockRange, sorted: seq<BlockRange>, i: nat)
    requires i <= |sorted| && (i < |sorted| ==> sorted[i].from - 1 > cur.to)
    ensures MergeInto(cur, sorted, i) == [cur] + MergeFrom(sorted, i)
  {
  }

  lemma AppendNext(done: seq<BlockRange>, next: BlockRange, tail: seq<BlockRange>, rest: seq<BlockRange>)
    requires rest == [next] + tail
    ensures done + rest == done + [next] + tail
  {
  }

  lemma {:induction false} MergeNormalises(cur: BlockRange, sorted: seq<BlockRange>, i: nat)
    requires i <= |sorted|
    requires IsValidRange(cur) && AllValid(sorted) && SortedByFrom(sorted)
    requires i < |sorted| ==> cur.from <= sorted[i].from
    ensures var r := MergeInto(cur, sorted, i);
            && IsNormal(r) && r != [] && r[0].from == cur.from
            && forall block :: Covers(r, block) <==> Includes(cur, block) || Covers(sorted[i..], block)
    decreases |sorted| - i
  {
    if i == |sorted| {
      forall block ensures Covers([cur], block) <==> Includes(cur, block) {
        assert [cur][0] == cur;
      }
    } else {
      forall block ensures Covers(sorted[i..], block) <==> Includes(sorted[i], block) || Covers(sorted[i + 1..], block) {
        CoversFirst(sorted[i..], block);
        assert sorted[i..][1..] == sorted[i + 1..];
      }
      if sorted[i].from - 1 <= cur.to {
        MergeNormalises(BlockRange(cur.from, Max(cur.to, sorted[i].to)), sorted, i + 1);
      } else {
        MergeNormalises(sorted[i], sorted, i + 1);
        var r := [cur] + MergeInto(sorted[i], sorted, i + 1);
        forall block ensures Covers(r, block) <==> Includes(cur, block) || Covers(sorted[i..], block) {
          CoversFirst(r, block);
        }
      }
    }
  }

  /** Compaction gives a normal form of the same blocks. */
  lemma CompactNormalises(ranges: seq<BlockRange>)
    requires AllValid(ranges)
    ensures IsNormal(Compact(ranges))
    ensures forall block :: Covers(Compact(ranges), block) <==> Covers(ranges, block)
  {
    var sorted := SortByFrom(ranges);
    SortSorts(ranges);
    forall i | 0 <= i < |sorted| ensures IsValidRange(sorted[i]) {
      assert sorted[i] in multiset(sorted) && sorted[i] in multiset(ranges) && sorted[i] in ranges;
    }
    if sorted != [] {
      MergeNormalises(sorted[0], sorted, 1);
    }
    forall block ensures Covers(Compact(ranges), block) <==> Covers(ranges, block) {
      SameElementsCover(sorted, ranges, block);
      if sorted != [] {
        CoversFirst(sorted, block);
      }
    }
  }

  /** In a normal list every range starts at least as late as the first. */
  lemma {:induction false} NormalOrder(ranges: seq<BlockRange>, i: nat, j: nat)
    requires IsNormal(ranges) && i < j < |ranges|
    ensures ranges[i].to + 1 < ranges[j].from
    decreases j
  {
    if i + 1 < j {
      NormalOrder(ranges, i, j - 1);
    }
  }

  /** The first range of a normal list is determined by the blocks it covers. */
  lemma FirstRange(ranges: seq<BlockRange>, block: int)
    requires IsNormal(ranges) && ranges != []
    ensures Covers(ranges, block) ==> ranges[0].from <= block
    ensures Includes(ranges[0], block) ==> Covers(ranges, block)
    ensures !Covers(ranges, ranges[0].to + 1)
    ensures Covers(ranges[1..], block) <==> Covers(ranges, block) && block > ranges[0].to
  {
    CoversFirst(ranges, block);
    CoversFirst(ranges, ranges[0].to + 1);
    forall i | 0 <= i < |ranges[1..]| ensures ranges[1..][i].from > ranges[0].to + 1 {
      NormalOrder(ranges, 0, i + 1);
    }
  }

  lemma StartIsCovered(ranges: seq<BlockRange>)
    requires ranges != [] && AllValid(ranges)
    ensures Covers(ranges, ranges[0].from)
  {
    assert Includes(ranges[0], ranges[0].from);
  }

  /** Two normal lists that cover the same blocks are the same list. */
  lemma {:induction false} NormalIsUnique(a: seq<BlockRange>, b: seq<BlockRange>)
    requires IsNormal(a) && IsNormal(b)
    requires forall block :: Covers(a, block) <==> Covers(b, block)
    ensures a == b
    decreases |a| + |b|
  {
    if a == [] || b == [] {
      if a != [] {
        StartIsCovered(a);
      }
      if b != [] {
        StartIsCovered(b);
      }
    } else {
      SameFirst(a, b);
      forall block ensures Covers(a[1..], block) <==> Covers(b[1..], block) {
        FirstRange(a, block);
        FirstRange(b, block);
      }
      NormalIsUnique(a[1..], b[1..]);
      assert a == [a[0]] + a[1..] && b == [b[0]] + b[1..];
    }
  }

  lemma SameFirst(a: seq<BlockRange>, b: seq<BlockRange>)
    requires IsNormal(a) && IsNormal(b) && a != [] && b != []
    requires forall block :: Covers(a, block) <==> Covers(b, block)
    ensures a[0] == b[0]
  {
    FirstRange(a, a[0].from);
    FirstRange(b, a[0].from);
    FirstRange(a, b[0].from);
    FirstRange(b, b[0].from);
    FirstRange(a, b[0].to + 1);
    FirstRange(b, a[0].to + 1);
    assert !Covers(a, a[0].to + 1) && !Covers(b, b[0].to + 1);
  }

  /** The compacted list depends on nothing but the covered blocks. */
  lemma CompactIsCanonical(a: seq<BlockRange>, b: seq<BlockRange>)
    requires AllValid(a) && AllValid(b)
    ensures Compact(a) == Compact(b) <==> forall block :: Covers(a, block) <==> Covers(b, block)
  {
    CompactNormalises(a);
    CompactNormalises(b);
    if forall block :: Covers(a, block) <==> Covers(b, block) {
      NormalIsUnique(Compact(a), Compact(b));
    }
  }

  /** A normal list is left as it is. */
  lemma CompactKeepsNormal(ranges: seq<BlockRange>)
    requires IsNormal(ranges)
    ensures Compact(ranges) == ranges
  {
    CompactNormalises(ranges);
    NormalIsUnique(Compact(ranges), ranges);
  }

  // -------------------------------------------------------------------------- gaps

  function Last(ranges: seq<BlockRange>): BlockRange
    requires ranges != []
  {
    ranges[|ranges| - 1]
  }

  /** The gaps between neighbouring ranges. */
  function InnerGaps(ranges: seq<BlockRange>): seq<BlockRange> {
    if |ranges| <= 1 then []
    else InnerGaps(ranges[..|ranges| - 1]) + [BlockRange(ranges[|ranges| - 2].to + 1, Last(ranges).from - 1)]
  }

  function Gaps(ranges: seq<BlockRange>, start: Option<int>, end: Option<int>): seq<BlockRange>
    requires ranges != []
  {
    (if start.Some? && start.value < ranges[0].from then [BlockRange(start.value, ranges[0].from - 1)] else [])
    + InnerGaps(ranges)
    + (if end.Some? && end.value > Last(ranges).to then [BlockRange(Last(ranges).to + 1, end.value)] else [])
  }

  /** What `GetInverseBlockRanges` returns. */
  function Inverse(compacted: seq<BlockRange>, start: Option<int>, end: Option<int>): seq<BlockRange> {
    if start.Some? && end.Some? && start.value >= end.value then []
    else if compacted == [] then
      if start.Some? && end.Some? then [BlockRange(start.value, end.value)] else []
    else Compact(Gaps(compacted, start, end))
  }

  method GetInverseBlockRanges(compacted: seq<BlockRange>, start: Option<int>, end: Option<int>)
    returns (r: seq<BlockRange>)
    ensures r == Inverse(compacted, start, end)
  {
    if start.Some? && end.Some? && start.value >= end.value {
      return [];
    }
    if |compacted| == 0 {
      if start.Some? && end.Some? {
        return [BlockRange(start.value, end.value)];
      }
      return [];
    }
    var result: seq<BlockRange> := [];
    if start.Some? && start.value < compacted[0].from {
      result := result + [BlockRange(start.value, compacted[0].from - 1)];
    }
    ghost var before := result;
    var i, len := 0, |compacted| - 1;
    while i < len
      invariant 0 <= i <= len
      invariant result == before + InnerGaps(compacted[..i + 1])
    {
      assert compacted[..i + 2][..i + 1] == compacted[..i + 1];
      result := result + [BlockRange(compacted[i].to + 1, compacted[i + 1].from - 1)];
      i := i + 1;
    }
    assert compacted[..|compacted|] == compacted;
    if end.Some? && end.value > compacted[|compacted| - 1].to {
      result := result + [BlockRange(compacted[|compacted| - 1].to + 1, end.value)];
    }
    assert result == Gaps(compacted, start, end);
    r := CompactRanges(result);
  }

  /** Blocks between the first and the last block considered. */
  predicate InWindow(ranges: seq<BlockRange>, start: Option<int>, end: Option<int>, block: int) {
    if ranges == [] then start.Some? && end.Some? && start.value <= block <= end.value
    else
      && (ranges[0].from <= block || (start.Some? && start.value <= block))
      && (block <= Last(ranges).to || (end.Some? && block <= end.value))
  }

  predicate IsEmptyWindow(start: Option<int>, end: Option<int>) {
    start.Some? && end.Some? && start.value >= end.value
  }

  lemma CoversLast(ranges: seq<BlockRange>, block: int)
    requires ranges != []
    ensures Covers(ranges, block) <==> Covers(ranges[..|ranges| - 1], block) || Includes(Last(ranges), block)
  {
    var front := ranges[..|ranges| - 1];
    CoversConcat(front, [Last(ranges)], block);
    assert ranges == front + [Last(ranges)];
    assert [Last(ranges)][0] == Last(ranges);
  }

  lemma CoversOne(range: BlockRange, block: int)
    ensures Covers([range], block) <==> Includes(range, block)
  {
    assert [range][0] == range;
  }

  lemma {:induction false} InnerGapsCover(ranges: seq<BlockRange>, block: int)
    requires IsNormal(ranges) && ranges != []
    ensures Covers(InnerGaps(ranges), block) <==>
            ranges[0].from <= block <= Last(ranges).to && !Covers(ranges, block)
    ensures AllValid(InnerGaps(ranges))
    decreases |ranges|
  {
    CoversOne(ranges[0], block);
    if |ranges| == 1 {
      assert ranges == [ranges[0]];
    } else {
      var front := ranges[..|ranges| - 1];
      var gap := BlockRange(Last(front).to + 1, Last(ranges).from - 1);
      InnerGapsCover(front, block);
      CoversLast(ranges, block);
      CoversConcat(InnerGaps(front), [gap], block);
      CoversOne(gap, block);
      NormalSpan(front, block);
      if |front| > 1 {
        NormalOrder(front, 0, |front| - 1);
      }
    }
  }

  lemma NormalSpan(ranges: seq<BlockRange>, block: int)
    requires IsNormal(ranges) && ranges != []
    ensures Covers(ranges, block) ==> ranges[0].from <= block <= Last(ranges).to
  {
    forall i | 0 <= i < |ranges| ensures ranges[0].from <= ranges[i].from && ranges[i].to <= Last(ranges).to {
      if i > 0 {
        NormalOrder(ranges, 0, i);
      }
      if i < |ranges| - 1 {
        NormalOrder(ranges, i, |ranges| - 1);
      }
    }
  }

  lemma GapsCover(ranges: seq<BlockRange>, start: Option<int>, end: Option<int>, block: int)
    requires IsNormal(ranges) && ranges != [] && !IsEmptyWindow(start, end)
    ensures Covers(Gaps(ranges, start, end), block) <==> InWindow(ranges, start, end, block) && !Covers(ranges, block)
    ensures AllValid(Gaps(ranges, start, end))
  {
    var low := if start.Some? && start.value < ranges[0].from then [BlockRange(start.value, ranges[0].from - 1)] else [];
    var high := if end.Some? && end.value > Last(ranges).to then [BlockRange(Last(ranges).to + 1, end.value)] else [];
    InnerGapsCover(ranges, block);
    NormalSpan(ranges, block);
    CoversConcat(low, InnerGaps(ranges), block);
    CoversConcat(low + InnerGaps(ranges), high, block);
    assert !Covers([], block);
    StartIsCovered(ranges);
    NormalSpan(ranges, ranges[0].from);
    if low != [] {
      CoversOne(low[0], block);
    }
    if high != [] {
      CoversOne(high[0], block);
    }
  }

  /**
   * The inverse is a normal list of exactly the uncovered blocks of the window, which reaches from
   * the earlier of `start` and the first completed block to the later of `end` and the last.
   */
  lemma InverseIsComplement(ranges: seq<BlockRange>, start: Option<int>, end: Option<int>)
    requires IsNormal(ranges)
    ensures IsNormal(Inverse(ranges, start, end))
    ensures forall block :: Covers(Inverse(ranges, start, end), block) <==>
                            !IsEmptyWindow(start, end) && InWindow(ranges, start, end, block) && !Covers(ranges, block)
  {
    if IsEmptyWindow(start, end) {
    } else if ranges == [] {
      if start.Some? && end.Some? {
        forall block ensures Covers([BlockRange(start.value, end.value)], block) <==> start.value <= block <= end.value {
          CoversOne(BlockRange(start.value, end.value), block);
        }
      }
    } else {
      var gaps := Gaps(ranges, start, end);
      GapsCover(ranges, start, end, 0);
      forall block ensures Covers(gaps, block) <==> InWindow(ranges, start, end, block) && !Covers(ranges, block) {
        GapsCover(ranges, start, end, block);
      }
      CompactNormalises(gaps);
    }
  }

  /** Completed ranges and gaps are disjoint and together cover everything from `start` to `end`. */
  lemma GapPartition(ranges: seq<BlockRange>, start: int, end: int, block: int)
    requires IsNormal(ranges) && start < end
    ensures var gaps := Inverse(ranges, Some(start), Some(end));
            && !(Covers(ranges, block) && Covers(gaps, block))
            && (start <= block <= end ==> Covers(ranges, block) || Covers(gaps, block))
  {
    InverseIsComplement(ranges, Some(start), Some(end));
  }

  /**
   * The gaps are the exact complement within `start` to `end` if and only if there are no blocks
   * to find, the only one is complete, or no gap lies outside: the first completed range reaches up
   * to `start` and the last does not begin beyond `end`.
   */
  lemma InverseExactIff(ranges: seq<BlockRange>, start: int, end: int)
    requires IsNormal(ranges)
    ensures (forall block :: Covers(Inverse(ranges, Some(start), Some(end)), block) <==>
                             start <= block <= end && !Covers(ranges, block)) <==>
            || start > end
            || (start == end && Covers(ranges, start))
            || (start < end && (ranges == [] || (ranges[0].to + 1 >= start && Last(ranges).from - 1 <= end)))
  {
    InverseIsComplement(ranges, Some(start), Some(end));
    if start < end && ranges != [] {
      forall block ensures Covers(ranges, block) ==> ranges[0].from <= block <= Last(ranges).to {
        NormalSpan(ranges, block);
      }
      FirstRange(ranges, ranges[0].to + 1);
      LastRange(ranges);
      if ranges[0].to + 1 < start {
        assert Covers(Inverse(ranges, Some(start), Some(end)), ranges[0].to + 1);
      } else if Last(ranges).from - 1 > end {
        assert Covers(Inverse(ranges, Some(start), Some(end)), Last(ranges).from - 1);
      } else {
        forall block | InWindow(ranges, Some(start), Some(end), block) && !Covers(ranges, block)
          ensures start <= block <= end
        {
          FirstRange(ranges, block);
          LastIncludes(ranges, block);
        }
      }
    }
  }

  lemma LastIncludes(ranges: seq<BlockRange>, block: int)
    requires ranges != []
    ensures Includes(Last(ranges), block) ==> Covers(ranges, block)
  {
  }

  lemma LastRange(ranges: seq<BlockRange>)
    requires IsNormal(ranges) && ranges != []
    ensures !Covers(ranges, Last(ranges).from - 1)
  {
    forall i | 0 <= i < |ranges| - 1 ensures ranges[i].to < Last(ranges).from - 1 {
      NormalOrder(ranges, i, |ranges| - 1);
    }
  }

  // ------------------------------------------------------------------------ chunks

  function RangeSize(range: BlockRange): int {
    range.to - range.from + 1
  }

  /** Chunks from `start` on, at most `cap` of them. */
  function ChunksFrom(start: int, end: int, maxChunkSize: nat, cap: Option<nat>): seq<BlockRange>
    requires maxChunkSize > 0
    decreases end - start
  {
    if cap == Some(0) then []
    else if start < end - 2 - maxChunkSize then
      [BlockRange(start, start + maxChunkSize - 1)]
      + ChunksFrom(start + maxChunkSize, end, maxChunkSize, if cap.Some? then Some(cap.value - 1) else None)
    else [BlockRange(start, end)]
  }

  /** What `ChunkedBlockRanges` returns; no cap stands for `Infinity`. */
  function Chunks(range: BlockRange, maxChunkSize: nat, cap: Option<nat>): seq<BlockRange>
    requires maxChunkSize > 0
  {
    ChunksFrom(range.from, range.to, maxChunkSize, cap)
  }

  method ChunkedBlockRanges(range: BlockRange, maxChunkSize: nat, maxChunks: Option<nat>) returns (result: seq<BlockRange>)
    requires maxChunkSize > 0
    ensures result == Chunks(range, maxChunkSize, maxChunks)
  {
    result := [];
    var start := range.from;
    ghost var whole := Chunks(range, maxChunkSize, maxChunks);
    while start < range.to - 2 - maxChunkSize && (maxChunks.Some? ==> |result| < maxChunks.value)
      invariant maxChunks.Some? ==> |result| <= maxChunks.value
      invariant whole == result + ChunksFrom(start, range.to, maxChunkSize, Remaining(maxChunks, |result|))
      decreases range.to - start
    {
      ghost var rest := ChunksFrom(start, range.to, maxChunkSize, Remaining(maxChunks, |result|));
      var next := BlockRange(start, start + maxChunkSize - 1);
      ghost var tail := ChunksFrom(start + maxChunkSize, range.to, maxChunkSize, Remaining(maxChunks, |result| + 1));
      assert rest == [next] + tail;
      AppendNext(result, next, tail, rest);
      result := result + [next];
      start := start + maxChunkSize;
    }
    if maxChunks.Some? ==> |result| < maxChunks.value {
      result := result + [BlockRange(start, range.to)];
    }
  }

  function Remaining(cap: Option<nat>, used: nat): Option<nat>
    requires cap.Some? ==> used <= cap.value
  {
    if cap.Some? then Some(cap.value - used) else None
  }

  /** Chunks follow each other without gap or overlap. */
  predicate IsContiguous(chunks: seq<BlockRange>) {
    AllValid(chunks) && forall i :: 0 < i < |chunks| ==> chunks[i].from == chunks[i - 1].to + 1
  }

  /** Without a cap the chunks partition the range; all but the last have the configured size. */
  lemma {:induction false} ChunksPartition(from: int, end: int, maxChunkSize: nat)
    requires maxChunkSize > 0 && from <= end
    ensures var chunks := ChunksFrom(from, end, maxChunkSize, None);
            && chunks != [] && IsContiguous(chunks)
            && chunks[0].from == from && Last(chunks).to == end
            && (forall i :: 0 <= i < |chunks| - 1 ==> RangeSize(chunks[i]) == maxChunkSize)
            && RangeSize(Last(chunks)) <= maxChunkSize + 3
            && forall block :: Covers(chunks, block) <==> from <= block <= end
    decreases end - from
  {
    var chunks := ChunksFrom(from, end, maxChunkSize, None);
    if from < end - 2 - maxChunkSize {
      ChunksPartition(from + maxChunkSize, end, maxChunkSize);
      var rest := ChunksFrom(from + maxChunkSize, end, maxChunkSize, None);
      assert chunks == [chunks[0]] + rest;
      forall block ensures Covers(chunks, block) <==> from <= block <= end {
        CoversFirst(chunks, block);
      }
    } else {
      forall block ensures Covers(chunks, block) <==> from <= block <= end {
        CoversOne(BlockRange(from, end), block);
      }
    }
  }

  /** A cap keeps the first chunks and drops the others. */
  lemma {:induction false} CapTakesPrefix(start: int, end: int, maxChunkSize: nat, cap: nat)
    requires maxChunkSize > 0
    ensures var all := ChunksFrom(start, end, maxChunkSize, None);
            ChunksFrom(start, end, maxChunkSize, Some(cap)) == if cap <= |all| then all[..cap] else all
    decreases end - start
  {
    if cap > 0 && start < end - 2 - maxChunkSize {
      CapTakesPrefix(start + maxChunkSize, end, maxChunkSize, cap - 1);
    }
  }

  /** The size of the last chunk of `n` blocks. */
  function LastChunkSize(n: nat, maxChunkSize: nat): nat
    requires maxChunkSize > 0
  {
    if n < 4 then n else (n - 4) % maxChunkSize + 4
  }

  lemma {:induction false} LastChunk(from: int, end: int, maxChunkSize: nat)
    requires maxChunkSize > 0 && from <= end
    ensures ChunksFrom(from, end, maxChunkSize, None) != []
    ensures RangeSize(Last(ChunksFrom(from, end, maxChunkSize, None))) == LastChunkSize(end - from + 1, maxChunkSize)
    decreases end - from
  {
    var n := end - from + 1;
    if from < end - 2 - maxChunkSize {
      LastChunk(from + maxChunkSize, end, maxChunkSize);
      ModuloStep(n - 4, maxChunkSize);
    } else if n >= 4 {
      assert n - 4 < maxChunkSize;
    }
  }

  lemma AtLeastOnce(k: nat, m: nat)
    requires k > 0
    ensures k * m >= m
  {
    assert k * m == (k - 1) * m + m;
  }

  lemma ModuloStep(a: nat, m: nat)
    requires a >= m > 0
    ensures (a - m) % m == a % m
  {
    var q, r := (a - m) / m, (a - m) % m;
    var p, t := a / m, a % m;
    assert (p - q - 1) * m == p * m - q * m - m;
    if p > q + 1 {
      AtLeastOnce(p - q - 1, m);
    } else if p < q + 1 {
      AtLeastOnce(q + 1 - p, m);
    }
  }

  /**
   * "Chunks of up to `maxChunkSize`" is what the code documents; it holds if and only if the last
   * chunk is not one of the oversized ones, which depends on the number of blocks alone.
   */
  lemma ChunksWithinSizeIff(range: BlockRange, maxChunkSize: nat)
    requires maxChunkSize > 0 && IsValidRange(range)
    ensures var chunks := Chunks(range, maxChunkSize, None);
            (forall i :: 0 <= i < |chunks| ==> RangeSize(chunks[i]) <= maxChunkSize) <==>
            LastChunkSize(RangeSize(range), maxChunkSize) <= maxChunkSize
  {
    ChunksPartition(range.from, range.to, maxChunkSize);
    LastChunk(range.from, range.to, maxChunkSize);
    var chunks := Chunks(range, maxChunkSize, None);
    assert Last(chunks) == chunks[|chunks| - 1];
  }

  /** The individual block numbers of a range, in order. */
  method BlockRangeToArray(range: BlockRange) returns (result: seq<int>)
    ensures result == BlocksOf(range)
  {
    result := [];
    var b := range.from;
    while b <= range.to
      invariant range.from <= b
      invariant if range.from <= range.to then b <= range.to + 1 else b == range.from
      invariant result == BlocksOf(BlockRange(range.from, b - 1))
    {
      assert BlocksOf(BlockRange(range.from, b)) == BlocksOf(BlockRange(range.from, b - 1)) + [b];
      result := result + [b];
      b := b + 1;
    }
    assert result == BlocksOf(range);
  }

  function BlocksOf(range: BlockRange): (r: seq<int>)
    ensures |r| == if range.from <= range.to then RangeSize(range) else 0
    ensures forall i :: 0 <= i < |r| ==> r[i] == range.from + i
  {
    seq(if range.from <= range.to then RangeSize(range) else 0, i => range.from + i)
  }
}
