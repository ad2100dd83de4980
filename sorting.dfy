/**
 * The ideal DCG ranks the ground-truth relevancies with Python's
 * `sorted(relevancies, reverse=True)`. The library sort is not part of this
 * model; it is specified here by an insertion sort whose result is proved to
 * be a non-increasing permutation of its input, and such a permutation is
 * proved unique, so every correct descending sort yields the same sequence.
 */
module Sorting {

  /** Non-increasing order, one neighbouring pair at a time. */
  predicate Descending(s: seq<real>)
  {
    |s| < 2 || (s[0] >= s[1] && Descending(s[1..]))
  }

  /** No element of a descending sequence exceeds its head. */
  lemma {:induction false} HeadIsMax(s: seq<real>, v: real)
    requires Descending(s)
    requires v in multiset(s)
    ensures s[0] >= v
  {
    if v != s[0] {
      MultisetOfTail(s);
      HeadIsMax(s[1..], v);
    }
  }

  /** So every element is at least every later one. */
  lemma {:induction false} DescendingPairs(s: seq<real>, i: nat, j: nat)
    requires Descending(s)
    requires i < j < |s|
    ensures s[i] >= s[j]
  {
    if i == 0 {
      assert s[j] in multiset(s);
      HeadIsMax(s, s[j]);
    } else {
      DescendingPairs(s[1..], i - 1, j - 1);
    }
  }

  /** Dropping the head of a non-empty sequence drops one copy of it. */
  lemma MultisetOfTail(s: seq<real>)
    requires s != []
    ensures multiset(s[1..]) == multiset(s) - multiset{s[0]}
  {
    assert s == [s[0]] + s[1..];
  }

  /** Sequences with equal heads and equal tails are equal. */
  lemma HeadTailEqual(a: seq<real>, b: seq<real>)
    requires a != [] && b != []
    requires a[0] == b[0] && a[1..] == b[1..]
    ensures a == b
  {
    assert a == [a[0]] + a[1..];
    assert b == [b[0]] + b[1..];
  }

  /**
   * Below a head larger than `x`, a descending arrangement of the tail with
   * `x` added completes a descending arrangement of `s` with `x` added.
   */
  lemma InsertBelowHead(x: real, s: seq<real>, t: seq<real>)
    requires Descending(s) && s != [] && x < s[0]
    requires Descending(t) && multiset(t) == multiset(s[1..]) + multiset{x}
    ensures multiset([s[0]] + t) == multiset(s) + multiset{x}
    ensures Descending([s[0]] + t)
  {
    MultisetOfTail(s);
    assert t[0] in multiset(t);
    if t[0] != x {
      HeadIsMax(s, t[0]);
    }
    assert ([s[0]] + t)[1..] == t;
  }

  /** Inserts `x` into a descending sequence, keeping it descending. */
  function InsertDesc(x: real, s: seq<real>): (r: seq<real>)
    requires Descending(s)
    ensures multiset(r) == multiset(s) + multiset{x}
    ensures Descending(r)
  {
    if s == [] || x >= s[0] then
      assert ([x] + s)[1..] == s;
      [x] + s
    else
      var t := InsertDesc(x, s[1..]);
      InsertBelowHead(x, s, t);
      [s[0]] + t
  }

  /** `sorted(s, reverse=True)`: the elements of `s`, largest first. */
  function SortDesc(s: seq<real>): (r: seq<real>)
    ensures multiset(r) == multiset(s)
    ensures Descending(r)
  {
    if s == [] then
      []
    else
      assert s == [s[0]] + s[1..];
      InsertDesc(s[0], SortDesc(s[1..]))
  }

  /** Two descending sequences with the same elements are equal. */
  lemma {:induction false} DescendingUnique(a: seq<real>, b: seq<real>)
    requires Descending(a) && Descending(b)
    requires multiset(a) == multiset(b)
    ensures a == b
  {
    assert |a| == |multiset(a)| == |multiset(b)| == |b|;
    if a != [] {
      assert a[0] in multiset(b) && b[0] in multiset(a);
      HeadIsMax(a, b[0]);
      HeadIsMax(b, a[0]);
      MultisetOfTail(a);
      MultisetOfTail(b);
      DescendingUnique(a[1..], b[1..]);
      HeadTailEqual(a, b);
    }
  }

  /** The first element of the sorted sequence is a maximum of the input. */
  lemma SortDescHeadIsMax(s: seq<real>)
    requires s != []
    ensures |SortDesc(s)| == |s|
    ensures forall v <- s :: SortDesc(s)[0] >= v
  {
    var r := SortDesc(s);
    assert |r| == |multiset(r)| == |multiset(s)| == |s|;
    forall v <- s
      ensures r[0] >= v
    {
      assert v in multiset(r);
      HeadIsMax(r, v);
    }
  }
}
