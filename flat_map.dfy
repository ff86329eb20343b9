/**
 * `Array.prototype.flatMap` on sequences, with the facts the topic generator relies on:
 * it distributes over concatenation, and with pieces of a uniform length the piece of
 * the `j`-th element sits at offset `n * j`.
 */
module FlatMaps {
  /** The concatenation of `f(x)` for every `x` of `xs`, in order. */
  function FlatMap<A, B>(f: A -> seq<B>, xs: seq<A>): (r: seq<B>) {
    if xs == [] then [] else f(xs[0]) + FlatMap(f, xs[1..])
  }

  /** The flattening of a concatenation is the concatenation of the flattenings. */
  lemma {:induction false} FlatMapAppend<A, B>(f: A -> seq<B>, xs: seq<A>, ys: seq<A>)
    ensures FlatMap(f, xs + ys) == FlatMap(f, xs) + FlatMap(f, ys)
  {
    if xs == [] {
      assert xs + ys == ys;
    } else {
      assert (xs + ys)[0] == xs[0] && (xs + ys)[1..] == xs[1..] + ys;
      FlatMapAppend(f, xs[1..], ys);
    }
  }

  /** The pieces of the elements before, at and after position `i`. */
  lemma FlatMapSegment<A, B>(f: A -> seq<B>, xs: seq<A>, i: nat)
    requires i < |xs|
    ensures FlatMap(f, xs) == FlatMap(f, xs[..i]) + f(xs[i]) + FlatMap(f, xs[i + 1..])
  {
    assert xs == xs[..i] + ([xs[i]] + xs[i + 1..]);
    FlatMapAppend(f, xs[..i], [xs[i]] + xs[i + 1..]);
    assert ([xs[i]] + xs[i + 1..])[1..] == xs[i + 1..];
  }

  /** With every piece of length `n`, the whole has length `n * |xs|`. */
  lemma {:induction false} FlatMapUniformLength<A, B>(f: A -> seq<B>, xs: seq<A>, n: nat)
    requires forall x | x in xs :: |f(x)| == n
    ensures |FlatMap(f, xs)| == n * |xs|
  {
    if xs != [] {
      var rest := xs[1..];
      assert forall x | x in rest :: x in xs;
      FlatMapUniformLength(f, rest, n);
      assert xs[0] in xs;
      assert |FlatMap(f, xs)| == n + n * |rest|;
      MulSucc(n, |rest|);
    }
  }

  lemma MulSucc(n: nat, k: nat)
    ensures n + n * k == n * (k + 1)
  {
  }

  /** With every piece of length `n`, the piece of `xs[j]` is the slice at offset `n * j`. */
  lemma {:induction false} FlatMapUniformAt<A, B>(f: A -> seq<B>, xs: seq<A>, n: nat, j: nat)
    requires forall x | x in xs :: |f(x)| == n
    requires j < |xs|
    ensures n * j + n <= |FlatMap(f, xs)|
    ensures FlatMap(f, xs)[n * j .. n * j + n] == f(xs[j])
  {
    FlatMapUniformLength(f, xs, n);
    var head, rest := f(xs[0]), FlatMap(f, xs[1..]);
    assert xs[0] in xs;
    assert FlatMap(f, xs) == head + rest;
    if j == 0 {
      assert (head + rest)[0..n] == head;
    } else {
      assert forall x | x in xs[1..] :: x in xs;
      FlatMapUniformAt(f, xs[1..], n, j - 1);
      assert n * j == n + n * (j - 1);
      assert (head + rest)[n * j .. n * j + n] == rest[n * (j - 1) .. n * (j - 1) + n];
    }
  }

  /** Every element of the whole comes from the piece of some element of `xs`. */
  lemma {:induction false} FlatMapMember<A, B>(f: A -> seq<B>, xs: seq<A>, y: B)
    requires y in FlatMap(f, xs)
    ensures exists i | 0 <= i < |xs| :: y in f(xs[i])
  {
    if y !in f(xs[0]) {
      FlatMapMember(f, xs[1..], y);
      var i :| 0 <= i < |xs[1..]| && y in f(xs[1..][i]);
      assert y in f(xs[i + 1]);
    }
  }
}
