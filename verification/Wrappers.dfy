/** Optional values, success-or-error results usable with `:-`, and the size of subsets. */
module Wrappers {

  datatype Option<+T> = None | Some(value: T)

  /** What a call returns where the source may throw or return an `Err`. */
  datatype Result<+T, +E> = Ok(value: T) | Err(error: E) {

    predicate IsFailure() {
      Err?
    }

    function PropagateFailure<U>(): Result<U, E>
      requires Err?
    {
      Err(error)
    }

    function Extract(): T
      requires Ok?
    {
      value
    }
  }

  /** The results of `f` on all elements in order, or the first error. */
  function Traverse<T, U, E>(xs: seq<T>, f: T -> Result<U, E>): (r: Result<seq<U>, E>)
    ensures r.Ok? ==> |r.value| == |xs|
  {
    if xs == [] then Ok([])
    else
      var front :- Traverse(xs[..|xs| - 1], f);
      var last :- f(xs[|xs| - 1]);
      Ok(front + [last])
  }

  lemma {:induction false} TraverseIff<T, U, E>(xs: seq<T>, f: T -> Result<U, E>, ys: seq<U>)
    ensures Traverse(xs, f) == Ok(ys) <==> |ys| == |xs| && forall i :: 0 <= i < |xs| ==> f(xs[i]) == Ok(ys[i])
    decreases |xs|
  {
    if xs != [] && ys != [] {
      TraverseIff(xs[..|xs| - 1], f, ys[..|ys| - 1]);
      assert ys == ys[..|ys| - 1] + [ys[|ys| - 1]];
    }
  }

  /** One element more. */
  lemma TraverseNext<T, U, E>(xs: seq<T>, f: T -> Result<U, E>, i: nat, ys: seq<U>)
    requires i < |xs| && Traverse(xs[..i], f) == Ok(ys)
    ensures f(xs[i]).Ok? ==> Traverse(xs[..i + 1], f) == Ok(ys + [f(xs[i]).value])
    ensures f(xs[i]).Err? ==> Traverse(xs[..i + 1], f) == Err(f(xs[i]).error)
  {
    assert xs[..i + 1][..i] == xs[..i];
  }

  /** Once a prefix has failed, the whole fails the same way. */
  lemma {:induction false} TraverseFails<T, U, E>(xs: seq<T>, f: T -> Result<U, E>, n: nat)
    requires n <= |xs| && Traverse(xs[..n], f).Err?
    ensures Traverse(xs, f) == Traverse(xs[..n], f)
    decreases |xs|
  {
    if n == |xs| {
      assert xs[..n] == xs;
    } else {
      assert xs[..|xs| - 1][..n] == xs[..n];
      TraverseFails(xs[..|xs| - 1], f, n);
    }
  }

  lemma SubsetSize<T>(a: set<T>, b: set<T>)
    requires a <= b
    ensures |a| <= |b|
    ensures a != b ==> |a| < |b|
  {
    assert b == a + (b - a);
    assert |b| == |a| + |b - a|;
    if a != b {
      assert b - a != {};
    }
  }
}
