/**
 * The visiting order of the priority decoder (src/test.py:11, 51, 87):
 * `np.argsort` of the priority vector. Priorities are only compared, so
 * they are integers here. The default argsort is not stable, so the model
 * accepts EVERY order that lists the indices once each with non-decreasing
 * priorities; `StableArgsort` shows that one always exists.
 */
module Argsort {

  /** The indices 0, 1, ..., n - 1 in increasing order. */
  function Range(n: nat): (r: seq<nat>)
    ensures |r| == n
    ensures forall i :: 0 <= i < n ==> r[i] == i
  {
    seq(n, i => i)
  }

  /** `order` lists every index of 0 .. n - 1 exactly once. */
  ghost predicate IsPermutation(order: seq<nat>, n: nat)
  {
    |order| == n && multiset(order) == multiset(Range(n))
  }

  /** Every entry of `order` indexes `p`, and the priorities along `order` never decrease. */
  predicate SortedBy(p: seq<int>, order: seq<nat>)
  {
    && (forall k :: 0 <= k < |order| ==> order[k] < |p|)
    && (forall a, b :: 0 <= a < b < |order| ==> p[order[a]] <= p[order[b]])
  }

  /** `order` is a possible result of `np.argsort(p)`: a permutation of the indices, sorted by priority. */
  ghost predicate IsArgsort(p: seq<int>, order: seq<nat>)
  {
    IsPermutation(order, |p|) && SortedBy(p, order)
  }

  /** Equal priorities keep the order of their indices. */
  predicate Stable(p: seq<int>, order: seq<nat>)
    requires SortedBy(p, order)
  {
    forall a, b :: 0 <= a < b < |order| && p[order[a]] == p[order[b]] ==> order[a] < order[b]
  }

  /**
   * The position at which index x enters the sorted order s: behind every
   * index whose priority is at most p[x], before every larger one.
   */
  function InsertPosition(p: seq<int>, s: seq<nat>, x: nat): (i: nat)
    requires x < |p| && SortedBy(p, s)
    ensures i <= |s|
    ensures forall k :: 0 <= k < i ==> p[s[k]] <= p[x]
    ensures forall k :: i <= k < |s| ==> p[x] < p[s[k]]
    decreases |s|
  {
    if |s| == 0 || p[s[|s| - 1]] <= p[x] then |s|
    else InsertPosition(p, s[..|s| - 1], x)
  }

  /** Inserts index x into the sorted order s at its insert position. */
  function Insert(p: seq<int>, s: seq<nat>, x: nat): (r: seq<nat>)
    requires x < |p| && SortedBy(p, s)
    ensures |r| == |s| + 1
  {
    var i := InsertPosition(p, s, x);
    s[..i] + [x] + s[i..]
  }

  /** Inserting adds x and keeps every index already placed. */
  lemma InsertPermutes(p: seq<int>, s: seq<nat>, x: nat)
    requires x < |p| && SortedBy(p, s)
    ensures multiset(Insert(p, s, x)) == multiset(s) + multiset{x}
  {
    Splice(s, InsertPosition(p, s, x), x);
  }

  /** Putting x between the two halves of s adds x to s's elements. */
  lemma Splice(s: seq<nat>, i: nat, x: nat)
    requires i <= |s|
    ensures multiset(s[..i] + [x] + s[i..]) == multiset(s) + multiset{x}
  {
    calc {
      multiset(s[..i] + [x] + s[i..]);
      multiset(s[..i]) + multiset{x} + multiset(s[i..]);
      { assert s == s[..i] + s[i..]; }
      multiset(s) + multiset{x};
    }
  }

  /** Where each entry of the inserted order comes from. */
  lemma InsertShape(p: seq<int>, s: seq<nat>, x: nat)
    requires x < |p| && SortedBy(p, s)
    ensures var i, r := InsertPosition(p, s, x), Insert(p, s, x);
      && r[i] == x
      && (forall k :: 0 <= k < i ==> r[k] == s[k])
      && (forall k :: i < k < |r| ==> r[k] == s[k - 1])
  {
    var i := InsertPosition(p, s, x);
    assert Insert(p, s, x) == s[..i] + [x] + s[i..];
  }

  /** Inserting keeps the order sorted. */
  lemma InsertSorted(p: seq<int>, s: seq<nat>, x: nat)
    requires x < |p| && SortedBy(p, s)
    ensures SortedBy(p, Insert(p, s, x))
  {
    var i := InsertPosition(p, s, x);
    var r := Insert(p, s, x);
    InsertShape(p, s, x);
    forall k | 0 <= k < |r|
      ensures r[k] < |p|
    {
      if k < i {
        assert r[k] == s[k];
      } else if i < k {
        assert r[k] == s[k - 1];
      }
    }
    forall a, b | 0 <= a < b < |r|
      ensures p[r[a]] <= p[r[b]]
    {
    }
  }

  /** Inserting an index above every index already placed keeps equal priorities in index order. */
  lemma InsertStable(p: seq<int>, s: seq<nat>, x: nat)
    requires x < |p| && SortedBy(p, s) && Stable(p, s)
    requires forall k :: 0 <= k < |s| ==> s[k] < x
    ensures SortedBy(p, Insert(p, s, x)) && Stable(p, Insert(p, s, x))
  {
    var r := Insert(p, s, x);
    InsertSorted(p, s, x);
    InsertShape(p, s, x);
    forall a, b | 0 <= a < b < |r| && p[r[a]] == p[r[b]]
      ensures r[a] < r[b]
    {
    }
  }

  /** Inserting an index below n into indices below n gives indices below n. */
  lemma InsertBelow(p: seq<int>, s: seq<nat>, x: nat, n: nat)
    requires x < |p| && SortedBy(p, s)
    requires x < n && forall k :: 0 <= k < |s| ==> s[k] < n
    ensures forall k :: 0 <= k < |Insert(p, s, x)| ==> Insert(p, s, x)[k] < n
  {
    var i := InsertPosition(p, s, x);
    var r := Insert(p, s, x);
    InsertShape(p, s, x);
    forall k | 0 <= k < |r|
      ensures r[k] < n
    {
      if k < i {
        assert r[k] == s[k];
      } else if i < k {
        assert r[k] == s[k - 1];
      }
    }
  }

  /** The stable argsort of p[..n]: indices sorted by priority, ties by index (`SortPrefixPermutes`, `SortPrefixStable`). */
  function SortPrefix(p: seq<int>, n: nat): (r: seq<nat>)
    requires n <= |p|
    ensures |r| == n && SortedBy(p, r)
    ensures forall k :: 0 <= k < |r| ==> r[k] < n
  {
    if n == 0 then []
    else
      var s := SortPrefix(p, n - 1);
      InsertSorted(p, s, n - 1);
      InsertBelow(p, s, n - 1, n);
      Insert(p, s, n - 1)
  }

  /** The multiset of 0 .. n - 1 grows by n - 1 from that of 0 .. n - 2. */
  lemma RangeMultiset(n: nat)
    requires n > 0
    ensures multiset(Range(n)) == multiset(Range(n - 1)) + multiset{(n - 1) as nat}
  {
    assert Range(n) == Range(n - 1) + [(n - 1) as nat];
  }

  /** The indices of p[..n] sorted stably are a permutation of 0 .. n - 1. */
  lemma {:induction false} SortPrefixPermutes(p: seq<int>, n: nat)
    requires n <= |p|
    ensures multiset(SortPrefix(p, n)) == multiset(Range(n))
    decreases n
  {
    if n > 0 {
      SortPrefixPermutes(p, n - 1);
      SortPrefixStep(p, n);
      RangeStep(SortPrefix(p, n), SortPrefix(p, n - 1), n);
    }
  }

  /** Sorting one more index adds that index to the sorted indices. */
  lemma SortPrefixStep(p: seq<int>, n: nat)
    requires 0 < n <= |p|
    ensures multiset(SortPrefix(p, n)) == multiset(SortPrefix(p, n - 1)) + multiset{(n - 1) as nat}
  {
    InsertedPermutes(p, SortPrefix(p, n - 1), SortPrefix(p, n), n - 1);
  }

  /** An order obtained by inserting x into s holds the indices of s and x. */
  lemma InsertedPermutes(p: seq<int>, s: seq<nat>, r: seq<nat>, x: nat)
    requires x < |p| && SortedBy(p, s) && r == Insert(p, s, x)
    ensures multiset(r) == multiset(s) + multiset{x}
  {
    InsertPermutes(p, s, x);
  }

  /** A permutation of 0 .. n - 2 with n - 1 added is a permutation of 0 .. n - 1. */
  lemma RangeStep(r: seq<nat>, s: seq<nat>, n: nat)
    requires n > 0
    requires multiset(r) == multiset(s) + multiset{(n - 1) as nat}
    requires multiset(s) == multiset(Range(n - 1))
    ensures multiset(r) == multiset(Range(n))
  {
    RangeMultiset(n);
  }

  /** Equal priorities keep their index order in SortPrefix. */
  lemma {:induction false} SortPrefixStable(p: seq<int>, n: nat)
    requires n <= |p|
    ensures Stable(p, SortPrefix(p, n))
    decreases n
  {
    if n > 0 {
      SortPrefixStable(p, n - 1);
      InsertStable(p, SortPrefix(p, n - 1), n - 1);
    }
  }

  /** A stable argsort: ties broken by index, as a deterministic sort would. */
  function StableArgsort(p: seq<int>): (order: seq<nat>)
    ensures IsArgsort(p, order) && Stable(p, order)
  {
    SortPrefixPermutes(p, |p|);
    SortPrefixStable(p, |p|);
    SortPrefix(p, |p|)
  }

  /** Every priority vector has an argsort: the decoder's order always exists. */
  lemma ArgsortExists(p: seq<int>)
    ensures exists order :: IsArgsort(p, order)
  {
    var order := StableArgsort(p);
    assert IsArgsort(p, order);
  }

  /** An entry of a permutation of 0 .. n - 1 is below n. */
  lemma PermutationInRange(order: seq<nat>, n: nat, k: nat)
    requires IsPermutation(order, n) && k < |order|
    ensures order[k] < n
  {
    assert order[k] in multiset(order);
    assert order[k] in multiset(Range(n));
  }
}
