/**
 * Concatenating the per-item results of a walk over a list: the shape of
 * every validator loop that adds zero or more errors per item.
 */
module Sequences {

  /** The results of `f` on the items of `xs`, concatenated in item order. */
  function FlatMap<T, U>(f: T -> seq<U>, xs: seq<T>): seq<U> {
    if xs == [] then [] else FlatMap(f, xs[..|xs| - 1]) + f(xs[|xs| - 1])
  }

  /** The results up to item `i` inclusive are those before it followed by its own. */
  lemma FlatMapStep<T, U>(f: T -> seq<U>, xs: seq<T>, i: nat)
    requires i < |xs|
    ensures FlatMap(f, xs[..i + 1]) == FlatMap(f, xs[..i]) + f(xs[i])
  {
    assert xs[..i + 1][..i] == xs[..i];
  }

  /** Walking two lists in turn gives the results of the first followed by those of the second. */
  lemma {:induction false} FlatMapAppend<T, U>(f: T -> seq<U>, xs: seq<T>, ys: seq<T>)
    ensures FlatMap(f, xs + ys) == FlatMap(f, xs) + FlatMap(f, ys)
    decreases |ys|
  {
    if ys == [] {
      assert xs + ys == xs;
    } else {
      var n := |ys| - 1;
      assert (xs + ys)[..|xs| + n] == xs + ys[..n];
      FlatMapAppend(f, xs, ys[..n]);
    }
  }

  /** A value is in the concatenation exactly when it is among the results of some item. */
  lemma {:induction false} FlatMapMember<T, U>(f: T -> seq<U>, xs: seq<T>, u: U)
    ensures u in FlatMap(f, xs) <==> exists i :: 0 <= i < |xs| && u in f(xs[i])
    decreases |xs|
  {
    if xs != [] {
      var n := |xs| - 1;
      var prefix := xs[..n];
      FlatMapMember(f, prefix, u);
      if u in FlatMap(f, prefix) {
        var i :| 0 <= i < n && u in f(prefix[i]);
        assert prefix[i] == xs[i];
      }
      if exists i :: 0 <= i < |xs| && u in f(xs[i]) {
        var i :| 0 <= i < |xs| && u in f(xs[i]);
        if i < n {
          assert prefix[i] == xs[i];
        }
      }
    }
  }

  /** When no item yields more than `k` results, the concatenation holds at most `k` per item. */
  lemma {:induction false} FlatMapLength<T, U>(f: T -> seq<U>, xs: seq<T>, k: nat)
    requires forall i :: 0 <= i < |xs| ==> |f(xs[i])| <= k
    ensures |FlatMap(f, xs)| <= k * |xs|
    decreases |xs|
  {
    if xs != [] {
      var n := |xs| - 1;
      var prefix := xs[..n];
      assert forall i :: 0 <= i < n ==> prefix[i] == xs[i];
      FlatMapLength(f, prefix, k);
      assert |f(xs[n])| <= k;
      assert k * |xs| == k * n + k;
    }
  }
}
