/** Facts about sequences shared by the vote tally and the string helpers. */
module Seqs {

  /** Number of occurrences of `x` in `s`. */
  function Count<T(==)>(s: seq<T>, x: T): nat {
    multiset(s)[x]
  }

  /** The set of elements of `s`. */
  function Elems<T>(s: seq<T>): set<T> {
    set x | x in s
  }

  predicate NoDuplicates<T(==)>(s: seq<T>) {
    forall i, j :: 0 <= i < j < |s| ==> s[i] != s[j]
  }

  function Min(a: int, b: int): int {
    if a <= b then a else b
  }

  function Max(a: int, b: int): int {
    if a >= b then a else b
  }

  /** Position of the first occurrence of `x` in `s`. */
  function FirstIndex<T(==)>(s: seq<T>, x: T): (i: nat)
    requires x in s
    ensures i < |s| && s[i] == x && x !in s[..i]
  {
    if s[0] == x then 0
    else
      var j := FirstIndex(s[1..], x);
      assert s[..j + 1] == [s[0]] + s[1..][..j];
      j + 1
  }

  /** The first occurrence is the only position with `x` and no `x` before it. */
  lemma FirstIndexUnique<T>(s: seq<T>, x: T, i: nat)
    requires i < |s| && s[i] == x && x !in s[..i]
    ensures FirstIndex(s, x) == i
  {
    var k := FirstIndex(s, x);
    forall m | 0 <= m < i
      ensures s[m] != x
    {
      assert s[..i][m] == s[m];
    }
    forall m | 0 <= m < k
      ensures s[m] != x
    {
      assert s[..k][m] == s[m];
    }
  }

  /** Appending elements does not move an existing first occurrence. */
  lemma FirstIndexAppend<T>(p: seq<T>, q: seq<T>, x: T)
    requires x in p
    ensures FirstIndex(p + q, x) == FirstIndex(p, x)
  {
    var i := FirstIndex(p, x);
    assert (p + q)[..i] == p[..i];
    FirstIndexUnique(p + q, x, i);
  }

  /** An element appended to a sequence that lacked it first occurs at the old length. */
  lemma FirstIndexNew<T>(p: seq<T>, x: T)
    requires x !in p
    ensures FirstIndex(p + [x], x) == |p|
  {
    assert (p + [x])[..|p|] == p;
    FirstIndexUnique(p + [x], x, |p|);
  }

  /** In a sequence without duplicates the first index of an element is its only index. */
  lemma FirstIndexOfDistinct<T>(s: seq<T>, i: nat)
    requires NoDuplicates(s) && i < |s|
    ensures FirstIndex(s, s[i]) == i
  {
    assert s[i] !in s[..i] by {
      forall k | 0 <= k < i
        ensures s[..i][k] != s[i]
      {
        assert s[..i][k] == s[k];
      }
    }
    FirstIndexUnique(s, s[i], i);
  }

  /** A sequence without duplicates has as many elements as it has positions. */
  lemma {:induction false} DistinctCard<T>(s: seq<T>)
    requires NoDuplicates(s)
    ensures |Elems(s)| == |s|
  {
    if |s| > 0 {
      var t := s[1..];
      assert Elems(s) == {s[0]} + Elems(t);
      forall k | 0 <= k < |t|
        ensures t[k] != s[0]
      {
        assert t[k] == s[k + 1];
      }
      assert s[0] !in Elems(t);
      DistinctCard(t);
    }
  }

  /** Python's slice `s[:n]`: a non-negative `n` keeps at most `n` elements, a negative `n`
      drops `-n` elements from the end. */
  function SliceTo<T>(s: seq<T>, n: int): (r: seq<T>)
    ensures |r| == (if n >= 0 then Min(n, |s|) else Max(0, |s| + n))
    ensures r == s[..|r|]
  {
    if n >= 0 then (if n <= |s| then s[..n] else s)
    else if -n <= |s| then s[..|s| + n]
    else []
  }
}
