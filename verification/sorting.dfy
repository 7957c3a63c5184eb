/** Sorting by a total preorder, and what a reordering preserves. The store's
    `$sort` is not stable, so the model states sortedness and permutation only;
    insertion sort is one way to meet that. */
module Sorting {
  import opened Sequences

  /** `le` relates any two values and chains: a sort key compared with `<=`. */
  ghost predicate TotalPreorder<T(!new)>(le: (T, T) -> bool) {
    && (forall a, b :: le(a, b) || le(b, a))
    && (forall a, b, c :: le(a, b) && le(b, c) ==> le(a, c))
  }

  /** A lower bound of every element of `a` bounds every element of a permutation of `a`. */
  lemma LowerBoundOfPermutation<T>(lo: T, a: seq<T>, b: seq<T>, le: (T, T) -> bool)
    requires multiset(a) == multiset(b)
    requires forall k :: 0 <= k < |a| ==> le(lo, a[k])
    ensures forall k :: 0 <= k < |b| ==> le(lo, b[k])
  {
    forall k | 0 <= k < |b| ensures le(lo, b[k]) {
      assert b[k] in multiset(b);
      var i :| 0 <= i < |a| && a[i] == b[k];
    }
  }

  /** Inserts `x` into the sorted `s` before the first element it is `le`. */
  function Insert<T(!new)>(x: T, s: seq<T>, le: (T, T) -> bool): (r: seq<T>)
    requires TotalPreorder(le) && SortedBy(s, le)
    ensures multiset(r) == multiset(s) + multiset{x}
    ensures SortedBy(r, le)
  {
    if |s| == 0 then [x]
    else if le(x, s[0]) then
      assert forall j :: 0 < j < |s| ==> le(s[0], s[j]);
      [x] + s
    else
      var rest := Insert(x, s[1..], le);
      assert s == [s[0]] + s[1..];
      InsertBound(x, s, le, rest);
      [s[0]] + rest
  }

  /** The inductive step of `Insert`: the head of `s` bounds the insertion into its tail. */
  lemma InsertBound<T(!new)>(x: T, s: seq<T>, le: (T, T) -> bool, rest: seq<T>)
    requires TotalPreorder(le) && SortedBy(s, le)
    requires |s| > 0 && !le(x, s[0])
    requires multiset(rest) == multiset(s[1..]) + multiset{x}
    requires SortedBy(rest, le)
    ensures SortedBy([s[0]] + rest, le)
  {
    var a := s[1..] + [x];
    assert multiset(a) == multiset(rest);
    forall k | 0 <= k < |a| ensures le(s[0], a[k]) {
      if k < |s| - 1 {
        assert a[k] == s[k + 1];
      }
    }
    LowerBoundOfPermutation(s[0], a, rest, le);
    var r := [s[0]] + rest;
    forall i, j | 0 <= i < j < |r| ensures le(r[i], r[j]) {
      if i == 0 {
        assert r[j] == rest[j - 1];
      } else {
        assert r[i] == rest[i - 1] && r[j] == rest[j - 1];
      }
    }
  }

  /** A sorted permutation of `s`. */
  function InsertionSort<T(!new)>(s: seq<T>, le: (T, T) -> bool): (r: seq<T>)
    requires TotalPreorder(le)
    ensures multiset(r) == multiset(s)
    ensures SortedBy(r, le)
  {
    if |s| == 0 then []
    else
      assert s == [s[0]] + s[1..];
      Insert(s[0], InsertionSort(s[1..], le), le)
  }

  /** Elements with distinct keys occur at most once each. */
  lemma {:induction false} DistinctOccursOnce<T, K>(s: seq<T>, key: T -> K, x: T)
    requires DistinctBy(s, key)
    ensures multiset(s)[x] <= 1
  {
    if |s| > 0 {
      assert s == [s[0]] + s[1..];
      DistinctOccursOnce(s[1..], key, x);
      if s[0] == x {
        forall m | 0 <= m < |s[1..]| ensures s[1..][m] != x {
          assert key(s[0]) != key(s[1 + m]);
        }
        assert x !in s[1..];
      }
    }
  }

  /** An element found at two positions occurs at least twice. */
  lemma {:induction false} TwoPositionsOccurTwice<T>(s: seq<T>, i: nat, j: nat)
    requires i < j < |s| && s[i] == s[j]
    ensures multiset(s)[s[i]] >= 2
  {
    assert s == [s[0]] + s[1..];
    if i == 0 {
      assert s[j] == s[1..][j - 1];
      assert s[j] in multiset(s[1..]);
    } else {
      TwoPositionsOccurTwice(s[1..], i - 1, j - 1);
    }
  }

  /** Reordering keeps keys distinct. */
  lemma PermutationKeepsDistinct<T, K>(a: seq<T>, b: seq<T>, key: T -> K)
    requires multiset(a) == multiset(b) && DistinctBy(a, key)
    ensures DistinctBy(b, key)
  {
    forall i, j | 0 <= i < j < |b| ensures key(b[i]) != key(b[j]) {
      if b[i] == b[j] {
        TwoPositionsOccurTwice(b, i, j);
        DistinctOccursOnce(a, key, b[i]);
      } else {
        assert b[i] in multiset(a) && b[j] in multiset(a);
        var i' :| 0 <= i' < |a| && a[i'] == b[i];
        var j' :| 0 <= j' < |a| && a[j'] == b[j];
        assert i' != j';
        if i' > j' {
          assert key(a[j']) != key(a[i']);
        }
      }
    }
  }
}
