/**
 * The static size calculus: the minimum size of the encoding of a type and whether that minimum is
 * exact, proved against the reference encoder.
 */
module DataSize {
  import opened DataTypes
  import opened Encoding

  /** Release builds for wasm32 wrap `usize` arithmetic. */
  function Wrap(n: nat): (r: usize)
    ensures n < USIZE_LIMIT ==> r == n
    ensures r <= n
  {
    n % USIZE_LIMIT
  }

  /** `get_data_size`. */
  function GetDataSize(t: ParamType): (usize, bool) {
    match t
    case Bytes => (64, false)
    case String => (64, false)
    case Array(_) => (64, false)
    case FixedArray(elem, len) =>
      var (size, exact) := GetDataSize(elem);
      (Wrap(size * len), exact)
    case Tuple(components) => FoldSizes(components)
    case _ => (32, true)
  }

  function FoldSizes(ts: seq<ParamType>): (usize, bool) {
    if ts == [] then (0, true)
    else
      var last := |ts| - 1;
      var (size, exact) := FoldSizes(ts[..last]);
      var (lastSize, lastExact) := GetDataSize(ts[last]);
      (Wrap(size + lastSize), exact && lastExact)
  }

  /** The same sum without a bound on `usize`. */
  function MinSize(t: ParamType): nat {
    match t
    case Bytes => 64
    case String => 64
    case Array(_) => 64
    case FixedArray(elem, len) => MinSize(elem) * len
    case Tuple(components) => MinSizes(components)
    case _ => 32
  }

  function MinSizes(ts: seq<ParamType>): nat {
    if ts == [] then 0 else MinSize(ts[0]) + MinSizes(ts[1..])
  }

  // -------------------------------------------------------- wrapping arithmetic

  lemma WrapSum(a: nat, b: nat)
    ensures Wrap(Wrap(a) + Wrap(b)) == Wrap(a + b)
  {
  }

  lemma WrapMultiple(q: nat, r: nat)
    ensures Wrap(q * USIZE_LIMIT + r) == Wrap(r)
  {
  }

  lemma WrapProduct(a: nat, n: nat)
    ensures Wrap(Wrap(a) * n) == Wrap(a * n)
  {
    var q, r := a / USIZE_LIMIT, a % USIZE_LIMIT;
    assert a * n == (q * n) * USIZE_LIMIT + r * n by {
      assert a == q * USIZE_LIMIT + r;
      assert (q * USIZE_LIMIT) * n == (q * n) * USIZE_LIMIT;
    }
    WrapMultiple(q * n, r * n);
  }

  lemma {:induction false} MinSizesSnoc(ts: seq<ParamType>)
    requires ts != []
    ensures MinSizes(ts) == MinSizes(ts[..|ts| - 1]) + MinSize(ts[|ts| - 1])
  {
    if |ts| > 1 {
      MinSizesSnoc(ts[1..]);
      assert ts[1..][..|ts| - 2] == ts[..|ts| - 1][1..];
    }
  }

  predicate AnyDynamic(ts: seq<ParamType>) {
    exists i :: 0 <= i < |ts| && IsDynamic(ts[i])
  }

  /** The computed size is the true minimum modulo the machine width; the flag is never wrong. */
  lemma {:induction false} SizeIsWrappedMinimum(t: ParamType)
    ensures GetDataSize(t) == (Wrap(MinSize(t)), !IsDynamic(t))
    decreases t, 1
  {
    match t
    case FixedArray(elem, len) =>
      SizeIsWrappedMinimum(elem);
      WrapProduct(MinSize(elem), len);
    case Tuple(components) =>
      FoldIsWrappedMinimum(components);
    case _ =>
  }

  lemma AnyDynamicSnoc(ts: seq<ParamType>)
    requires ts != []
    ensures AnyDynamic(ts) <==> AnyDynamic(ts[..|ts| - 1]) || IsDynamic(ts[|ts| - 1])
  {
    var front := ts[..|ts| - 1];
    if i :| 0 <= i < |ts| - 1 && IsDynamic(ts[i]) {
      assert front[i] == ts[i];
    }
    if AnyDynamic(front) {
      var i :| 0 <= i < |front| && IsDynamic(front[i]);
      assert IsDynamic(ts[i]);
    }
  }

  lemma {:induction false} FoldIsWrappedMinimum(ts: seq<ParamType>)
    ensures FoldSizes(ts) == (Wrap(MinSizes(ts)), !AnyDynamic(ts))
    decreases ts, 0
  {
    if ts != [] {
      var last := |ts| - 1;
      FoldIsWrappedMinimum(ts[..last]);
      SizeIsWrappedMinimum(ts[last]);
      MinSizesSnoc(ts);
      WrapSum(MinSizes(ts[..last]), MinSize(ts[last]));
      AnyDynamicSnoc(ts);
    }
  }

  // -------------------------------------------------- measured against the encoder

  /** Bytes that a component adds to the encoding of the list it is in. */
  function Footprint(p: Part): nat {
    if p.dynamic then 32 + |p.bytes| else |p.bytes|
  }

  function Footprints(parts: seq<Part>): nat {
    if parts == [] then 0 else Footprint(parts[0]) + Footprints(parts[1..])
  }

  lemma {:induction false} HeadTailSize(parts: seq<Part>)
    ensures |HeadTail(parts)| == Footprints(parts)
  {
    TailsSize(parts);
  }

  lemma {:induction false} TailsSize(parts: seq<Part>)
    ensures HeadsSize(parts) + |Tails(parts)| == Footprints(parts)
  {
    if parts != [] {
      TailsSize(parts[1..]);
    }
  }

  ghost predicate FitsMinimum(v: Value, t: ParamType)
    requires HasType(v, t)
  {
    var size := |Encode(v, t)|;
    if IsDynamic(t) then 32 + size >= MinSize(t) else size == MinSize(t)
  }

  lemma {:induction false} EncodedSize(v: Value, t: ParamType)
    requires HasType(v, t)
    ensures FitsMinimum(v, t)
    decreases t, 1
  {
    match t
    case FixedArray(elem, len) =>
      ItemsSize(v.items, elem);
      HeadTailSize(EncodeItems(v.items, elem));
    case Tuple(components) =>
      ComponentsSize(v.items, components);
      HeadTailSize(EncodeComponents(v.items, components));
    case _ =>
  }

  lemma {:induction false} ItemsSize(vs: seq<Value>, elem: ParamType)
    requires forall i :: 0 <= i < |vs| ==> HasType(vs[i], elem)
    ensures Footprints(EncodeItems(vs, elem)) >= MinSize(elem) * |vs|
    ensures !IsDynamic(elem) ==> Footprints(EncodeItems(vs, elem)) == MinSize(elem) * |vs|
    decreases elem, 2, |vs|
  {
    if vs != [] {
      EncodedSize(vs[0], elem);
      ItemsSize(vs[1..], elem);
      MultiplyNext(MinSize(elem), |vs[1..]|);
      FirstFootprint(vs, elem);
    }
  }

  lemma MultiplyNext(size: nat, n: nat)
    ensures size * (n + 1) == size + size * n
  {
  }

  lemma FirstFootprint(vs: seq<Value>, elem: ParamType)
    requires vs != [] && forall i :: 0 <= i < |vs| ==> HasType(vs[i], elem)
    ensures Footprints(EncodeItems(vs, elem)) ==
            Footprint(Part(IsDynamic(elem), Encode(vs[0], elem))) + Footprints(EncodeItems(vs[1..], elem))
  {
    assert EncodeItems(vs, elem)[1..] == EncodeItems(vs[1..], elem);
  }

  lemma {:induction false} ComponentsSize(vs: seq<Value>, ts: seq<ParamType>)
    requires HaveTypes(vs, ts)
    ensures Footprints(EncodeComponents(vs, ts)) >= MinSizes(ts)
    ensures !AnyDynamic(ts) ==> Footprints(EncodeComponents(vs, ts)) == MinSizes(ts)
    decreases ts, 0
  {
    if ts != [] {
      EncodedSize(vs[0], ts[0]);
      ComponentsSize(vs[1..], ts[1..]);
      assert AnyDynamic(ts[1..]) ==> AnyDynamic(ts) by {
        if AnyDynamic(ts[1..]) {
          var i :| 0 <= i < |ts[1..]| && IsDynamic(ts[1..][i]);
          assert IsDynamic(ts[i + 1]);
        }
      }
    }
  }

  /** The byte lengths of the arguments added without a bound, as the caller does in doubles. */
  function TotalLength(ts: seq<ParamType>): nat {
    if ts == [] then 0 else GetDataSize(ts[0]).0 + TotalLength(ts[1..])
  }

  predicate AllExact(ts: seq<ParamType>) {
    forall i :: 0 <= i < |ts| ==> GetDataSize(ts[i]).1
  }

  lemma {:induction false} TotalAgainstMinimum(ts: seq<ParamType>)
    ensures TotalLength(ts) <= MinSizes(ts)
    ensures TotalLength(ts) == MinSizes(ts) <==> forall i :: 0 <= i < |ts| ==> MinSize(ts[i]) < USIZE_LIMIT
  {
    if ts != [] {
      SizeIsWrappedMinimum(ts[0]);
      TotalAgainstMinimum(ts[1..]);
      assert (forall i :: 0 <= i < |ts| ==> MinSize(ts[i]) < USIZE_LIMIT) <==>
             MinSize(ts[0]) < USIZE_LIMIT && forall i :: 0 <= i < |ts[1..]| ==> MinSize(ts[1..][i]) < USIZE_LIMIT;
    }
  }

  /** `exact` holds precisely when no argument type is dynamic. */
  lemma ExactIffStatic(ts: seq<ParamType>)
    ensures AllExact(ts) <==> !AnyDynamic(ts)
  {
    forall i | 0 <= i < |ts| ensures GetDataSize(ts[i]).1 == !IsDynamic(ts[i]) {
      SizeIsWrappedMinimum(ts[i]);
    }
  }

  /** No well-typed argument block is shorter than the computed length. */
  lemma LengthIsLowerBound(vs: seq<Value>, ts: seq<ParamType>)
    requires HaveTypes(vs, ts)
    ensures |EncodeArguments(vs, ts)| >= TotalLength(ts)
  {
    ComponentsSize(vs, ts);
    HeadTailSize(EncodeComponents(vs, ts));
    TotalAgainstMinimum(ts);
  }

  /**
   * When the size is marked exact, every argument block has precisely the computed length if and
   * only if no single argument reaches 2^32 bytes, where the machine sum wraps.
   */
  lemma ExactLengthIffNoWrap(vs: seq<Value>, ts: seq<ParamType>)
    requires HaveTypes(vs, ts) && AllExact(ts)
    ensures |EncodeArguments(vs, ts)| == TotalLength(ts) <==>
            forall i :: 0 <= i < |ts| ==> MinSize(ts[i]) < USIZE_LIMIT
  {
    ExactIffStatic(ts);
    ComponentsSize(vs, ts);
    HeadTailSize(EncodeComponents(vs, ts));
    TotalAgainstMinimum(ts);
  }

  /** A valid static type whose computed exact size is zero although a value takes 2^32 bytes. */
  lemma WrapExample()
    ensures var t := FixedArray(Uint(256), 0x800_0000);
            IsValid(t) && GetDataSize(t) == (0, true) && MinSize(t) == USIZE_LIMIT
  {
  }
}
