/**
 * `sort_values` on a grouped table: a sort by a total preorder that keeps
 * every row, and the grouped table itself (one row per distinct key, listed
 * in the sort order).
 */
module Sorting {

  ghost predicate TotalPreorder<T(!new)>(le: (T, T) -> bool)
  {
    && (forall a, b :: le(a, b) || le(b, a))
    && (forall a, b, c :: le(a, b) && le(b, c) ==> le(a, c))
  }

  predicate SortedBy<T>(s: seq<T>, le: (T, T) -> bool)
  {
    forall i, j :: 0 <= i < j < |s| ==> le(s[i], s[j])
  }

  predicate Distinct<T(==)>(s: seq<T>)
  {
    forall i, j :: 0 <= i < j < |s| ==> s[i] != s[j]
  }

  function Insert<T(!new)>(x: T, s: seq<T>, le: (T, T) -> bool): (r: seq<T>)
    requires TotalPreorder(le)
    requires SortedBy(s, le)
    ensures SortedBy(r, le)
    ensures multiset(r) == multiset(s) + multiset{x}
  {
    if s == [] || le(x, s[0]) then
      assert forall j :: 0 < j < |s| ==> le(s[0], s[j]);
      [x] + s
    else
      var rest := Insert(x, s[1..], le);
      assert s == [s[0]] + s[1..];
      assert forall y :: y in multiset(rest) ==> y == x || y in multiset(s[1..]);
      assert forall j :: 0 <= j < |rest| ==> le(s[0], rest[j]) by {
        forall j | 0 <= j < |rest|
          ensures le(s[0], rest[j])
        {
          assert rest[j] in multiset(rest);
          if rest[j] != x {
            var k :| 0 <= k < |s[1..]| && s[1..][k] == rest[j];
            assert s[k + 1] == rest[j];
          }
        }
      }
      [s[0]] + rest
  }

  /** Insertion sort: the result is ordered by `le` and is a permutation of `s`. */
  function SortBy<T(!new)>(s: seq<T>, le: (T, T) -> bool): (r: seq<T>)
    requires TotalPreorder(le)
    ensures SortedBy(r, le)
    ensures multiset(r) == multiset(s)
  {
    if s == [] then []
    else
      assert s == [s[0]] + s[1..];
      Insert(s[0], SortBy(s[1..], le), le)
  }

  /** A sequence without repetitions holds each value at most once. */
  lemma {:induction false} DistinctMultiplicity<T>(s: seq<T>, x: T)
    requires Distinct(s)
    ensures multiset(s)[x] <= 1
  {
    if s != [] {
      assert s == [s[0]] + s[1..];
      DistinctMultiplicity(s[1..], x);
      if x == s[0] {
        assert x !in s[1..];
      }
    }
  }

  /** A permutation of a sequence without repetitions has none either. */
  lemma PermutationDistinct<T>(s: seq<T>, r: seq<T>)
    requires Distinct(s)
    requires multiset(r) == multiset(s)
    ensures Distinct(r)
  {
    forall i, j | 0 <= i < j < |r|
      ensures r[i] != r[j]
    {
      if r[i] == r[j] {
        assert r == r[..j] + r[j..];
        assert r[i] in r[..j] && r[j] in r[j..];
        assert multiset(r)[r[i]] == multiset(r[..j])[r[i]] + multiset(r[j..])[r[i]];
        DistinctMultiplicity(s, r[i]);
        assert false;
      }
    }
  }

  /**
   * A grouped table: one row `make(k)` per key of `ks`, sorted by `le`.
   * `keyOf` reads the key back out of a row.
   */
  function GroupTable<K(==,!new), T(==,!new)>(ks: seq<K>, make: K -> T, keyOf: T -> K, le: (T, T) -> bool): (r: seq<T>)
    requires Distinct(ks)
    requires forall k :: keyOf(make(k)) == k
    requires TotalPreorder(le)
    ensures SortedBy(r, le)
    ensures |r| == |ks|
    ensures forall i :: 0 <= i < |r| ==> keyOf(r[i]) in ks && r[i] == make(keyOf(r[i]))
    ensures forall k :: k in ks ==> exists i :: 0 <= i < |r| && keyOf(r[i]) == k
    ensures forall i, j :: 0 <= i < j < |r| ==> keyOf(r[i]) != keyOf(r[j])
  {
    var unsorted := seq(|ks|, i requires 0 <= i < |ks| => make(ks[i]));
    var r := SortBy(unsorted, le);
    assert |r| == |multiset(r)| == |unsorted|;
    assert forall i :: 0 <= i < |r| ==> keyOf(r[i]) in ks && r[i] == make(keyOf(r[i])) by {
      forall i | 0 <= i < |r|
        ensures keyOf(r[i]) in ks && r[i] == make(keyOf(r[i]))
      {
        assert r[i] in multiset(unsorted);
        var j :| 0 <= j < |unsorted| && unsorted[j] == r[i];
        assert keyOf(r[i]) == ks[j];
      }
    }
    assert forall k :: k in ks ==> exists i :: 0 <= i < |r| && keyOf(r[i]) == k by {
      forall k | k in ks
        ensures exists i :: 0 <= i < |r| && keyOf(r[i]) == k
      {
        var j :| 0 <= j < |ks| && ks[j] == k;
        assert unsorted[j] in multiset(r);
        var i :| 0 <= i < |r| && r[i] == unsorted[j];
        assert keyOf(r[i]) == k;
      }
    }
    assert Distinct(unsorted) by {
      forall i, j | 0 <= i < j < |unsorted|
        ensures unsorted[i] != unsorted[j]
      {
        assert keyOf(unsorted[i]) == ks[i] && keyOf(unsorted[j]) == ks[j];
      }
    }
    PermutationDistinct(unsorted, r);
    r
  }
}
