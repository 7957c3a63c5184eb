/** Generic sequence operations that the aggregation stages are built from:
    taking a prefix, selecting by key, and grouping by key. */
module Sequences {

  /** The first `n` elements of `s`, or all of `s` when it is shorter
      (an array `$slice` or a query `limit`). */
  function Take<T>(s: seq<T>, n: nat): (r: seq<T>)
    ensures |r| == if |s| < n then |s| else n
    ensures r == s[..|r|]
  {
    if |s| <= n then s else s[..n]
  }

  /** Every element of `s` is `le` every later element. */
  predicate SortedBy<T>(s: seq<T>, le: (T, T) -> bool) {
    forall i, j :: 0 <= i < j < |s| ==> le(s[i], s[j])
  }

  /** No two elements of `s` share a key. */
  predicate DistinctBy<T, K(==)>(s: seq<T>, key: T -> K) {
    forall i, j :: 0 <= i < j < |s| ==> key(s[i]) != key(s[j])
  }

  /** No element of `s` occurs twice. */
  predicate NoRepeats<T(==)>(s: seq<T>) {
    DistinctBy(s, x => x)
  }

  /** Joining two repeat-free sequences that share no element gives a
      repeat-free sequence. */
  lemma NoRepeatsAppend<T>(a: seq<T>, b: seq<T>)
    requires NoRepeats(a) && NoRepeats(b)
    requires forall x :: x in a ==> x !in b
    ensures NoRepeats(a + b)
  {
    forall i, j | 0 <= i < j < |a + b| ensures (a + b)[i] != (a + b)[j] {
      if j < |a| {
        assert (a + b)[i] == a[i] && (a + b)[j] == a[j];
      } else if i >= |a| {
        assert (a + b)[i] == b[i - |a|] && (a + b)[j] == b[j - |a|];
      } else {
        assert (a + b)[i] in a && (a + b)[j] in b;
      }
    }
  }

  /** The elements of `s` whose key is `k`, in their order in `s`. */
  function Select<T(!new), K(==)>(s: seq<T>, key: T -> K, k: K): (r: seq<T>)
    ensures |r| <= |s|
    ensures forall x :: x in r <==> x in s && key(x) == k
  {
    if |s| == 0 then []
    else if key(s[0]) == k then [s[0]] + Select(s[1..], key, k)
    else Select(s[1..], key, k)
  }

  /** The elements of `s` whose key is not `k`, in their order in `s`. */
  function Reject<T(!new), K(==)>(s: seq<T>, key: T -> K, k: K): (r: seq<T>)
    ensures |r| <= |s|
    ensures forall x :: x in r <==> x in s && key(x) != k
  {
    if |s| == 0 then []
    else if key(s[0]) != k then [s[0]] + Reject(s[1..], key, k)
    else Reject(s[1..], key, k)
  }

  /** Removing the elements of one key does not change the selection of another. */
  lemma {:induction false} SelectAfterReject<T(!new), K>(s: seq<T>, key: T -> K, k: K, k': K)
    requires k != k'
    ensures Select(Reject(s, key, k), key, k') == Select(s, key, k')
  {
    if |s| > 0 {
      SelectAfterReject(s[1..], key, k, k');
    }
  }

  /** A selection keeps the relative order of the elements it keeps. */
  lemma {:induction false} SelectKeepsOrder<T(!new), K>(s: seq<T>, key: T -> K, k: K, le: (T, T) -> bool)
    requires SortedBy(s, le)
    ensures SortedBy(Select(s, key, k), le)
  {
    if |s| > 0 {
      SelectKeepsOrder(s[1..], key, k, le);
      var rest := Select(s[1..], key, k);
      if key(s[0]) == k {
        forall j | 0 <= j < |rest| ensures le(s[0], rest[j]) {
          assert rest[j] in s[1..];
          var m :| 0 <= m < |s[1..]| && s[1..][m] == rest[j];
          assert s[1 + m] == rest[j];
        }
        var r := [s[0]] + rest;
        assert Select(s, key, k) == r;
        forall i, j | 0 <= i < j < |r| ensures le(r[i], r[j]) {
          if i == 0 {
            assert r[j] == rest[j - 1];
          } else {
            assert r[i] == rest[i - 1] && r[j] == rest[j - 1];
          }
        }
      }
    }
  }

  /** A selection of elements with distinct keys still has distinct keys. */
  lemma {:induction false} SelectKeepsDistinct<T(!new), K, L>(s: seq<T>, key: T -> K, k: K, id: T -> L)
    requires DistinctBy(s, id)
    ensures DistinctBy(Select(s, key, k), id)
  {
    if |s| > 0 {
      SelectKeepsDistinct(s[1..], key, k, id);
      var rest := Select(s[1..], key, k);
      if key(s[0]) == k {
        forall j | 0 <= j < |rest| ensures id(s[0]) != id(rest[j]) {
          assert rest[j] in s[1..];
          var m :| 0 <= m < |s[1..]| && s[1..][m] == rest[j];
          assert s[1 + m] == rest[j];
        }
      }
    }
  }

  /** One group of a grouping: a key and the elements that have it. */
  datatype Group<K, T> = Group(key: K, members: seq<T>)

  /** The keys of a sequence of groups, in order. */
  function Keys<K, T>(groups: seq<Group<K, T>>): (ks: seq<K>)
    ensures |ks| == |groups|
    ensures forall i :: 0 <= i < |groups| ==> ks[i] == groups[i].key
  {
    if |groups| == 0 then [] else [groups[0].key] + Keys(groups[1..])
  }

  /** Some element of `s` has key `k`. */
  ghost predicate HasKey<T(!new), K>(s: seq<T>, key: T -> K, k: K) {
    exists x :: x in s && key(x) == k
  }

  /** Partitions `s` by key, one group per key that occurs, each group holding
      that key's elements in their order of arrival (a `$group` with `$push`).
      Groups come in order of first appearance. */
  function GroupBy<T(!new), K(==,!new)>(s: seq<T>, key: T -> K): (groups: seq<Group<K, T>>)
    ensures forall i :: 0 <= i < |groups| ==>
      groups[i].members == Select(s, key, groups[i].key) && |groups[i].members| > 0
    ensures forall i, j :: 0 <= i < j < |groups| ==> groups[i].key != groups[j].key
    ensures forall k :: k in Keys(groups) <==> HasKey(s, key, k)
    decreases |s|
  {
    if |s| == 0 then []
    else
      var k := key(s[0]);
      var rest := GroupBy(Reject(s[1..], key, k), key);
      GroupByStep(s, key, rest);
      [Group(k, Select(s, key, k))] + rest
  }

  /** The inductive step of `GroupBy`: the groups of the elements whose key
      differs from the first element's are groups of the whole sequence. */
  lemma GroupByStep<T(!new), K(!new)>(s: seq<T>, key: T -> K, rest: seq<Group<K, T>>)
    requires |s| > 0
    requires forall i :: 0 <= i < |rest| ==>
      rest[i].members == Select(Reject(s[1..], key, key(s[0])), key, rest[i].key) && |rest[i].members| > 0
    requires forall k :: k in Keys(rest) <==> HasKey(Reject(s[1..], key, key(s[0])), key, k)
    ensures forall i :: 0 <= i < |rest| ==> rest[i].key != key(s[0])
    ensures forall i :: 0 <= i < |rest| ==> rest[i].members == Select(s, key, rest[i].key)
    ensures forall k :: k != key(s[0]) ==> (HasKey(Reject(s[1..], key, key(s[0])), key, k) <==> HasKey(s, key, k))
  {
    var k0 := key(s[0]);
    forall i | 0 <= i < |rest| ensures rest[i].key != k0 && rest[i].members == Select(s, key, rest[i].key) {
      assert rest[i].key in Keys(rest);
      var x :| x in Reject(s[1..], key, k0) && key(x) == rest[i].key;
      SelectAfterReject(s[1..], key, k0, rest[i].key);
    }
    forall k | k != k0 ensures HasKey(Reject(s[1..], key, k0), key, k) <==> HasKey(s, key, k) {
      if HasKey(s, key, k) {
        var x :| x in s && key(x) == k;
        assert x in s[1..];
        assert x in Reject(s[1..], key, k0);
      }
    }
  }
}
