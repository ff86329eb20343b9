/**
 * JavaScript `Set` and `Array.prototype.filter` semantics on sequences.
 *
 * A JavaScript `Set` iterates its members in insertion order, and that order is
 * observable in the source (it orders the generated discussion topics), so a set is
 * modelled as a sequence without duplicates: `add` appends a new member, `delete`
 * removes it, and `new Set(iterable)` adds the iterable's elements one by one.
 */
module OrderedSets {

  /** No element occurs twice. */
  predicate NoDup<T(==,!new)>(s: seq<T>) {
    forall i, j :: 0 <= i < j < |s| ==> s[i] != s[j]
  }

  /** `r` is `s` with some elements left out, keeping the order of the rest. */
  predicate IsSubsequence<T(==,!new)>(r: seq<T>, s: seq<T>)
    decreases |s|
  {
    r == [] || (s != [] && ((r[0] == s[0] && IsSubsequence(r[1..], s[1..])) || IsSubsequence(r, s[1..])))
  }

  /** `set.add(x)`: a member already present keeps its place; a new one goes last. */
  function Insert<T(==,!new)>(s: seq<T>, x: T): (r: seq<T>)
    ensures forall y :: y in r <==> y in s || y == x
    ensures s <= r && |r| <= |s| + 1
    ensures NoDup(s) ==> NoDup(r)
  {
    if x in s then s else s + [x]
  }

  /** Adding every element of `xs`, first to last, to the set `s` (`xs.forEach(x => s.add(x))`). */
  function InsertAll<T(==,!new)>(s: seq<T>, xs: seq<T>): (r: seq<T>)
    ensures forall y :: y in r <==> y in s || y in xs
    ensures s <= r
    ensures NoDup(s) ==> NoDup(r)
    decreases |xs|
  {
    if xs == [] then s else Insert(InsertAll(s, xs[..|xs| - 1]), xs[|xs| - 1])
  }

  /** `new Set(xs)` iterated back into an array. */
  function FromSeq<T(==,!new)>(xs: seq<T>): (r: seq<T>)
    ensures NoDup(r)
    ensures forall y :: y in r <==> y in xs
  {
    InsertAll([], xs)
  }

  /** `xs.filter(keep)`. */
  function Filter<T(==,!new)>(s: seq<T>, keep: T -> bool): (r: seq<T>)
    ensures forall x :: x in r <==> x in s && keep(x)
    ensures forall x :: multiset(r)[x] == if keep(x) then multiset(s)[x] else 0
    ensures |r| <= |s|
  {
    if s == [] then []
    else
      assert s == [s[0]] + s[1..];
      (if keep(s[0]) then [s[0]] else []) + Filter(s[1..], keep)
  }

  /** `set.delete(x)` on a set, or `xs.filter(y => y !== x)` on an array. */
  function Remove<T(==,!new)>(s: seq<T>, x: T): (r: seq<T>)
    ensures forall y :: y in r <==> y in s && y != x
    ensures NoDup(s) ==> NoDup(r)
    ensures x !in s ==> r == s
  {
    if s == [] then []
    else if s[0] == x then Remove(s[1..], x)
    else
      var rest := Remove(s[1..], x);
      assert NoDup(s) ==> NoDup(s[1..]) && s[0] !in rest by {
        if NoDup(s) {
          forall k | 0 <= k < |s| - 1 ensures s[1..][k] != s[0] {
            assert s[1..][k] == s[k + 1];
          }
        }
      }
      assert NoDup(s) ==> NoDup([s[0]] + rest) by {
        if NoDup(s) {
          forall i, j | 0 <= i < j < |rest| + 1 ensures ([s[0]] + rest)[i] != ([s[0]] + rest)[j] {
            if i > 0 {
              assert ([s[0]] + rest)[i] == rest[i - 1] && ([s[0]] + rest)[j] == rest[j - 1];
            } else {
              assert ([s[0]] + rest)[j] in rest;
            }
          }
        }
      }
      [s[0]] + rest
  }

  /** A filter that keeps every element returns the sequence itself. */
  lemma {:induction false} FilterKeepsAll<T(!new)>(s: seq<T>, keep: T -> bool)
    requires forall x | x in s :: keep(x)
    ensures Filter(s, keep) == s
  {
    if s != [] {
      assert forall x | x in s[1..] :: x in s;
      FilterKeepsAll(s[1..], keep);
      assert [s[0]] + s[1..] == s;
    }
  }

  /** Two filters in a row keep what passes both. */
  lemma {:induction false} FilterFilter<T(!new)>(s: seq<T>, first: T -> bool, second: T -> bool, both: T -> bool)
    requires forall x :: both(x) == (first(x) && second(x))
    ensures Filter(Filter(s, first), second) == Filter(s, both)
  {
    if s != [] {
      FilterFilter(s[1..], first, second, both);
      var once := Filter(s, first);
      if first(s[0]) {
        assert once == [s[0]] + Filter(s[1..], first);
        assert once[0] == s[0] && once[1..] == Filter(s[1..], first);
      } else {
        assert once == Filter(s[1..], first);
      }
    }
  }

  /** Joining two duplicate-free sequences with no element in common gives one. */
  lemma NoDupConcat<T(!new)>(a: seq<T>, b: seq<T>)
    requires NoDup(a) && NoDup(b)
    requires forall x | x in a :: x !in b
    ensures NoDup(a + b)
  {
    forall i, j | 0 <= i < j < |a + b| ensures (a + b)[i] != (a + b)[j] {
      if j < |a| {
        assert (a + b)[i] == a[i] && (a + b)[j] == a[j];
      } else if i < |a| {
        assert (a + b)[i] == a[i] && (a + b)[j] == b[j - |a|] && a[i] in a;
      } else {
        assert (a + b)[i] == b[i - |a|] && (a + b)[j] == b[j - |a|];
      }
    }
  }

  /** `xs.forEach(x => s.add(x))`, one element after another. */
  method AddEach<T(==,!new)>(s: seq<T>, xs: seq<T>) returns (r: seq<T>)
    ensures r == InsertAll(s, xs)
  {
    r := s;
    var i := 0;
    while i < |xs|
      invariant 0 <= i <= |xs|
      invariant r == InsertAll(s, xs[..i])
    {
      assert xs[..i + 1][..i] == xs[..i];
      r := Insert(r, xs[i]);
      i := i + 1;
    }
    assert xs[..i] == xs;
  }

  lemma {:induction false} FilterIsSubsequence<T(!new)>(s: seq<T>, keep: T -> bool)
    ensures IsSubsequence(Filter(s, keep), s)
  {
    if s != [] {
      FilterIsSubsequence(s[1..], keep);
      var rest := Filter(s[1..], keep);
      if keep(s[0]) {
        assert Filter(s, keep) == [s[0]] + rest;
        assert ([s[0]] + rest)[1..] == rest;
      } else {
        assert Filter(s, keep) == rest;
      }
    }
  }

  lemma {:induction false} RemoveIsSubsequence<T(!new)>(s: seq<T>, x: T)
    ensures IsSubsequence(Remove(s, x), s)
  {
    if s != [] {
      RemoveIsSubsequence(s[1..], x);
      var rest := Remove(s[1..], x);
      if s[0] != x {
        assert ([s[0]] + rest)[1..] == rest;
      }
    }
  }

  /** A set built from distinct elements iterates them in their original order. */
  lemma {:induction false} InsertAllDistinct<T(!new)>(s: seq<T>, xs: seq<T>)
    requires NoDup(s + xs)
    ensures InsertAll(s, xs) == s + xs
    decreases |xs|
  {
    if xs != [] {
      var init := xs[..|xs| - 1];
      assert s + xs == (s + init) + [xs[|xs| - 1]];
      assert NoDup(s + init) by {
        forall i, j | 0 <= i < j < |s + init| ensures (s + init)[i] != (s + init)[j] {
          assert (s + init)[i] == (s + xs)[i] && (s + init)[j] == (s + xs)[j];
        }
      }
      InsertAllDistinct(s, init);
      var last := xs[|xs| - 1];
      assert last !in s + init by {
        forall k | 0 <= k < |s + init| ensures (s + init)[k] != last {
          assert (s + xs)[k] == (s + init)[k] && (s + xs)[|s + xs| - 1] == last;
        }
      }
    }
  }

  /** Iterating a duplicate-free array into a new set and back gives the same array. */
  lemma FromSeqDistinct<T(!new)>(xs: seq<T>)
    requires NoDup(xs)
    ensures FromSeq(xs) == xs
  {
    assert [] + xs == xs;
    InsertAllDistinct([], xs);
  }

  /** Deleting a member that was just added restores the set. */
  lemma {:induction false} RemoveInserted<T(!new)>(s: seq<T>, x: T)
    requires x !in s
    ensures Remove(Insert(s, x), x) == s
    decreases |s|
  {
    if s != [] {
      assert (s + [x])[0] == s[0] && (s + [x])[1..] == s[1..] + [x];
      RemoveInserted(s[1..], x);
      assert [s[0]] + s[1..] == s;
    }
  }
}
