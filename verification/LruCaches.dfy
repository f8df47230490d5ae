/**
 * The two-generation cache (lru.ts): new and used entries live in `cache`; when it is full it
 * becomes the previous generation, and what was in that is forgotten. Values are never null.
 */
module LruCaches {
  import opened Wrappers

  /** The two generations and the size counter. */
  datatype Gens<K, V> = Gens(cache: map<K, V>, prev: map<K, V>, size: int)

  function Empty<K, V>(): Gens<K, V> {
    Gens(map[], map[], 0)
  }

  /** `_set`: insert and rotate when full. */
  function Put<K, V>(g: Gens<K, V>, maxSize: int, key: K, value: V): Gens<K, V> {
    var cache, size := g.cache[key := value], g.size + 1;
    if size >= maxSize then Gens(map[], cache, 0) else Gens(cache, g.prev, size)
  }

  function Store<K, V>(g: Gens<K, V>, maxSize: int, key: K, value: V): Gens<K, V> {
    if key in g.cache then g.(cache := g.cache[key := value]) else Put(g, maxSize, key, value)
  }

  /** What a lookup returns. */
  function Found<K, V>(g: Gens<K, V>, key: K): Option<V> {
    if key in g.cache then Some(g.cache[key]) else if key in g.prev then Some(g.prev[key]) else None
  }

  /** A lookup moves an entry of the old generation into the new one. */
  function Touch<K, V>(g: Gens<K, V>, maxSize: int, key: K): Gens<K, V> {
    if key !in g.cache && key in g.prev then Put(g, maxSize, key, g.prev[key]) else g
  }

  function Drop<K, V>(g: Gens<K, V>, key: K): Gens<K, V> {
    Gens(g.cache - {key}, g.prev - {key}, if key in g.cache then g.size - 1 else g.size)
  }

  class LRUCache<K(==), V> {
    const maxSize: int
    var cache: map<K, V>
    var previous: map<K, V>
    var size: int
    var hits: int
    var misses: int

    ghost function View(): Gens<K, V>
      reads this
    {
      Gens(cache, previous, size)
    }

    constructor (maxSize: int)
      ensures this.maxSize == maxSize && View() == Empty() && hits == misses == 0
    {
      this.maxSize := maxSize;
      cache, previous, size := map[], map[], 0;
      hits, misses := 0, 0;
    }

    method Has(key: K) returns (b: bool)
      modifies this`hits, this`misses
      ensures b == Found(View(), key).Some?
      ensures hits == old(hits) + (if b then 1 else 0) && misses == old(misses) + (if b then 0 else 1)
    {
      b := key in cache || key in previous;
      if b {
        hits := hits + 1;
      } else {
        misses := misses + 1;
      }
    }

    method Get(key: K) returns (v: Option<V>)
      modifies this
      ensures v == Found(old(View()), key) && View() == Touch(old(View()), maxSize, key)
      ensures hits == old(hits) + (if v.Some? then 1 else 0) && misses == old(misses) + (if v.Some? then 0 else 1)
    {
      if key in cache {
        hits := hits + 1;
        return Some(cache[key]);
      }
      if key in previous {
        hits := hits + 1;
        v := Some(previous[key]);
        PutEntry(key, v.value);
        return;
      }
      misses := misses + 1;
      return None;
    }

    method Set(key: K, value: V)
      modifies this`cache, this`previous, this`size
      ensures View() == Store(old(View()), maxSize, key, value)
    {
      if key in cache {
        cache := cache[key := value];
      } else {
        PutEntry(key, value);
      }
    }

    method Unset(key: K)
      modifies this`cache, this`previous, this`size
      ensures View() == Drop(old(View()), key)
    {
      if key in cache {
        cache := cache - {key};
        size := size - 1;
      }
      previous := previous - {key};
      assert cache - {key} == cache;
    }

    method PutEntry(key: K, value: V)
      modifies this`cache, this`previous, this`size
      ensures View() == Put(old(View()), maxSize, key, value)
    {
      cache := cache[key := value];
      size := size + 1;
      if size >= maxSize {
        size := 0;
        previous := cache;
        cache := map[];
      }
    }
  }

  // ------------------------------------------------------------------ histories

  datatype Op<K, V> = Lookup(key: K) | Update(key: K, value: V) | Remove(key: K)

  function Apply<K, V>(g: Gens<K, V>, maxSize: int, op: Op<K, V>): Gens<K, V> {
    match op
    case Lookup(key) => Touch(g, maxSize, key)
    case Update(key, value) => Store(g, maxSize, key, value)
    case Remove(key) => Drop(g, key)
  }

  function ApplyAll<K, V>(g: Gens<K, V>, maxSize: int, ops: seq<Op<K, V>>): Gens<K, V>
    decreases |ops|
  {
    if ops == [] then g else ApplyAll(Apply(g, maxSize, ops[0]), maxSize, ops[1..])
  }

  /** A map that forgets nothing: the value most recently set for each key since it was last unset. */
  function Latest<K, V>(m: map<K, V>, ops: seq<Op<K, V>>): map<K, V>
    decreases |ops|
  {
    if ops == [] then m
    else
      var next := match ops[0]
                  case Lookup(_) => m
                  case Update(key, value) => m[key := value]
                  case Remove(key) => m - {key};
      Latest(next, ops[1..])
  }

  /** The capacity in force; sizes below one act like one. */
  function Capacity(maxSize: int): nat {
    if maxSize < 1 then 1 else maxSize
  }

  /** Both generations are within the capacity and the counter is exact. */
  predicate IsBounded<K, V>(g: Gens<K, V>, maxSize: int) {
    g.size == |g.cache| < Capacity(maxSize) && |g.prev| <= Capacity(maxSize)
  }

  lemma PutBounded<K, V>(g: Gens<K, V>, maxSize: int, key: K, value: V)
    requires IsBounded(g, maxSize) && key !in g.cache
    ensures IsBounded(Put(g, maxSize, key, value), maxSize)
  {
    assert g.cache[key := value].Keys == g.cache.Keys + {key};
  }

  lemma ApplyBounded<K, V>(g: Gens<K, V>, maxSize: int, op: Op<K, V>)
    requires IsBounded(g, maxSize)
    ensures IsBounded(Apply(g, maxSize, op), maxSize)
  {
    match op
    case Lookup(key) =>
      if key !in g.cache && key in g.prev {
        PutBounded(g, maxSize, key, g.prev[key]);
      }
    case Update(key, value) =>
      if key in g.cache {
        assert g.cache[key := value].Keys == g.cache.Keys;
      } else {
        PutBounded(g, maxSize, key, value);
      }
    case Remove(key) =>
      DropSize(g.cache, key);
      DropSize(g.prev, key);
  }

  lemma DropSize<K, V>(m: map<K, V>, key: K)
    ensures |m - {key}| == if key in m then |m| - 1 else |m|
  {
    assert (m - {key}).Keys == m.Keys - {key};
  }

  lemma {:induction false} AlwaysBounded<K, V>(g: Gens<K, V>, maxSize: int, ops: seq<Op<K, V>>)
    requires IsBounded(g, maxSize)
    ensures IsBounded(ApplyAll(g, maxSize, ops), maxSize)
    decreases |ops|
  {
    if ops != [] {
      ApplyBounded(g, maxSize, ops[0]);
      AlwaysBounded(Apply(g, maxSize, ops[0]), maxSize, ops[1..]);
    }
  }

  /** No lookup can see anything but the latest value. */
  ghost predicate IsFresh<K(!new), V>(g: Gens<K, V>, latest: map<K, V>) {
    forall key :: Found(g, key).Some? ==> key in latest && Found(g, key).value == latest[key]
  }

  /**
   * Over any history a lookup finds nothing or the value most recently set since the last unset,
   * never an older value that lingers in the old generation.
   */
  lemma {:induction false} NeverStale<K(!new), V>(g: Gens<K, V>, maxSize: int, latest: map<K, V>, ops: seq<Op<K, V>>)
    requires IsFresh(g, latest)
    ensures IsFresh(ApplyAll(g, maxSize, ops), Latest(latest, ops))
    decreases |ops|
  {
    if ops != [] {
      var next := match ops[0]
                  case Lookup(_) => latest
                  case Update(key, value) => latest[key := value]
                  case Remove(key) => latest - {key};
      var after := Apply(g, maxSize, ops[0]);
      forall key | Found(after, key).Some? ensures key in next && Found(after, key).value == next[key] {
        assert Found(g, key).Some? ==> key in latest && Found(g, key).value == latest[key];
      }
      NeverStale(after, maxSize, next, ops[1..]);
    }
  }

  // ------------------------------------------------------------------- retention

  /** The key that an operation looks up or sets, unless it is `key`. */
  function OtherOf<K, V>(op: Op<K, V>, key: K): set<K> {
    if op.Remove? || op.key == key then {} else {op.key}
  }

  /** The keys other than `key` that the operations look up or set. */
  function Others<K, V>(ops: seq<Op<K, V>>, key: K): set<K> {
    if ops == [] then {} else OtherOf(ops[0], key) + Others(ops[1..], key)
  }

  predicate Removes<K(==), V>(ops: seq<Op<K, V>>, key: K) {
    ops != [] && ((ops[0].Remove? && ops[0].key == key) || Removes(ops[1..], key))
  }

  /**
   * `key` is held, and if only by the old generation, then everything put into the new one since
   * is among `touched`.
   */
  predicate IsHeld<K, V>(g: Gens<K, V>, key: K, touched: set<K>) {
    key in g.cache || (key in g.prev && g.cache.Keys <= touched)
  }

  lemma SmallerMap<K, V>(m: map<K, V>, touched: set<K>)
    requires m.Keys <= touched
    ensures |m| <= |touched|
  {
    SubsetSize(m.Keys, touched);
  }

  /** One operation that does not remove `key` keeps it held while too few other keys are touched. */
  lemma HeldStep<K, V>(g: Gens<K, V>, maxSize: int, key: K, touched: set<K>, op: Op<K, V>)
    requires IsBounded(g, maxSize) && IsHeld(g, key, touched) && !(op.Remove? && op.key == key)
    requires |touched + OtherOf(op, key)| < Capacity(maxSize)
    ensures IsHeld(Apply(g, maxSize, op), key, touched + OtherOf(op, key))
  {
    if !op.Remove? && op.key != key && key !in g.cache {
      var value := if op.Update? then op.value else if op.key in g.prev then g.prev[op.key] else g.prev[key];
      SmallerMap(g.cache[op.key := value], touched + {op.key});
      assert op.key !in g.cache ==> |g.cache[op.key := value]| == |g.cache| + 1;
    }
  }

  lemma TouchedGrows<K>(touched: set<K>, first: set<K>, rest: set<K>)
    ensures (touched + first) + rest == touched + (first + rest)
    ensures |touched + first| <= |touched + (first + rest)|
  {
    SubsetSize(touched + first, touched + (first + rest));
  }

  lemma {:induction false} HeldThroughout<K, V>(g: Gens<K, V>, maxSize: int, key: K, touched: set<K>, ops: seq<Op<K, V>>)
    requires IsBounded(g, maxSize) && IsHeld(g, key, touched) && !Removes(ops, key)
    requires |touched + Others(ops, key)| < Capacity(maxSize)
    ensures Found(ApplyAll(g, maxSize, ops), key).Some?
    decreases |ops|
  {
    if ops != [] {
      TouchedGrows(touched, OtherOf(ops[0], key), Others(ops[1..], key));
      HeldStep(g, maxSize, key, touched, ops[0]);
      ApplyBounded(g, maxSize, ops[0]);
      HeldThroughout(Apply(g, maxSize, ops[0]), maxSize, key, touched + OtherOf(ops[0], key), ops[1..]);
    }
  }

  /**
   * A key that was just set or found stays retrievable while fewer than `maxSize` other keys are
   * looked up or set and it is not unset.
   */
  lemma Retention<K, V>(g: Gens<K, V>, maxSize: int, use: Op<K, V>, ops: seq<Op<K, V>>)
    requires IsBounded(g, maxSize)
    requires use.Update? || (use.Lookup? && Found(g, use.key).Some?)
    requires |Others(ops, use.key)| < Capacity(maxSize) && !Removes(ops, use.key)
    ensures Found(ApplyAll(Apply(g, maxSize, use), maxSize, ops), use.key).Some?
  {
    var after := Apply(g, maxSize, use);
    ApplyBounded(g, maxSize, use);
    assert IsHeld(after, use.key, {});
    assert {} + Others(ops, use.key) == Others(ops, use.key);
    HeldThroughout(after, maxSize, use.key, {}, ops);
  }

  // ------------------------------------------------------------------ the bound is sharp

  /** Sets the `n` keys from `first` on. */
  function Fill(first: int, n: nat): (ops: seq<Op<int, int>>)
    decreases n
  {
    if n == 0 then [] else [Update(first, 0)] + Fill(first + 1, n - 1)
  }

  ghost predicate KeysAre(m: map<int, int>, low: int, high: int) {
    forall k :: k in m <==> low <= k < high
  }

  lemma ApplyFirst(g: Gens<int, int>, maxSize: int, op: Op<int, int>, rest: seq<Op<int, int>>)
    ensures ApplyAll(g, maxSize, [op] + rest) == ApplyAll(Apply(g, maxSize, op), maxSize, rest)
  {
    assert ([op] + rest)[1..] == rest;
  }

  /** Keys that stay below the capacity are kept in the new generation. */
  lemma {:induction false} FillPartly(g: Gens<int, int>, maxSize: int, low: int, first: int, n: nat)
    requires low <= first && KeysAre(g.cache, low, first) && g.size == first - low
    requires g.size + n < Capacity(maxSize)
    ensures var r := ApplyAll(g, maxSize, Fill(first, n));
            KeysAre(r.cache, low, first + n) && r.size == g.size + n && r.prev == g.prev
    decreases n
  {
    if n > 0 {
      ApplyFirst(g, maxSize, Update(first, 0), Fill(first + 1, n - 1));
      FillPartly(Apply(g, maxSize, Update(first, 0)), maxSize, low, first + 1, n - 1);
    }
  }

  lemma {:induction false} ApplyConcat(g: Gens<int, int>, maxSize: int, xs: seq<Op<int, int>>, ys: seq<Op<int, int>>)
    ensures ApplyAll(g, maxSize, xs + ys) == ApplyAll(ApplyAll(g, maxSize, xs), maxSize, ys)
    decreases |xs|
  {
    if xs == [] {
      assert xs + ys == ys;
    } else {
      ApplyConcat(Apply(g, maxSize, xs[0]), maxSize, xs[1..], ys);
      assert (xs + ys)[1..] == xs[1..] + ys;
    }
  }

  /** Filling an empty new generation to the capacity turns it into the old one. */
  lemma FillUp(g: Gens<int, int>, maxSize: int, first: int, n: nat)
    requires g.cache == map[] && g.size == 0 && n == Capacity(maxSize)
    ensures var r := ApplyAll(g, maxSize, Fill(first, n - 1) + [Update(first + n - 1, 0)]);
            r.cache == map[] && r.size == 0 && KeysAre(r.prev, first, first + n)
  {
    var last: Op<int, int> := Update(first + n - 1, 0);
    FillPartly(g, maxSize, first, first, n - 1);
    ApplyConcat(g, maxSize, Fill(first, n - 1), [last]);
    assert [last][1..] == [];
  }

  lemma OthersFirst(op: Op<int, int>, rest: seq<Op<int, int>>, key: int)
    requires op.Update? && op.key != key
    ensures Others([op] + rest, key) == {op.key} + Others(rest, key)
    ensures Removes([op] + rest, key) <==> Removes(rest, key)
  {
    assert ([op] + rest)[1..] == rest;
  }

  lemma {:induction false} OthersOfFill(first: int, n: nat, key: int, tail: seq<Op<int, int>>)
    requires key < first
    ensures forall k :: k in Others(Fill(first, n) + tail, key) <==> first <= k < first + n || k in Others(tail, key)
    ensures Removes(Fill(first, n) + tail, key) <==> Removes(tail, key)
    decreases n
  {
    if n == 0 {
      assert Fill(first, n) + tail == tail;
    } else {
      var rest := Fill(first + 1, n - 1) + tail;
      assert Fill(first, n) + tail == [Update(first, 0)] + rest;
      OthersOfFill(first + 1, n - 1, key, tail);
      OthersFirst(Update(first, 0), rest, key);
    }
  }

  lemma {:induction false} IntervalSize(low: int, n: nat, keys: set<int>)
    requires forall k :: k in keys <==> low <= k < low + n
    ensures |keys| == n
    decreases n
  {
    if n == 0 {
      assert forall k :: k !in keys;
    } else {
      assert low + n - 1 in keys;
      IntervalSize(low, n - 1, keys - {low + n - 1});
    }
  }

  /** `key` was just set after `before`, and `ops` evict it by touching as many other keys as `n`. */
  ghost predicate Evicts(maxSize: int, before: seq<Op<int, int>>, key: int, ops: seq<Op<int, int>>, n: nat) {
    var g := ApplyAll(Empty(), maxSize, before + [Update(key, 0)]);
    && Found(g, key).Some? && |Others(ops, key)| == n && !Removes(ops, key)
    && Found(ApplyAll(g, maxSize, ops), key).None?
  }

  lemma FillTouches(n: nat)
    requires n >= 1
    ensures var ops := Fill(1, n - 1) + [Update(1 + n - 1, 0)]; |Others(ops, 0)| == n && !Removes(ops, 0)
  {
    var last: seq<Op<int, int>> := [Update(1 + n - 1, 0)];
    assert last[1..] == [];
    assert Others(last, 0) == {n};
    OthersOfFill(1, n - 1, 0, last);
    IntervalSize(1, n, Others(Fill(1, n - 1) + last, 0));
  }

  /** For every capacity the bound is sharp: as many other keys as the capacity can evict a key just set. */
  lemma RetentionIsTight(maxSize: int)
    ensures exists before, key, ops :: Evicts(maxSize, before, key, ops, Capacity(maxSize))
  {
    var n: int := Capacity(maxSize);
    var before := Fill(1 - n, n - 1);
    var ops := Fill(1, n - 1) + [Update(1 + n - 1, 0)];
    FillUp(Empty(), maxSize, 1 - n, n);
    FillUp(ApplyAll(Empty(), maxSize, before + [Update(0, 0)]), maxSize, 1, n);
    FillTouches(n);
    assert Evicts(maxSize, before, 0, ops, n);
  }
}
