/**
 * `groupby(...).agg({"Hours": "sum"})`: the grouped table as a map from a
 * key to the summed hours of the rows with that key, and the facts that make
 * the report's numbers add up: the groups of a key partition the total, and a
 * finer key refines a coarser one.
 */
module GroupBy {
  import opened Rows
  import opened MapSums

  /** The grouped sums, built row by row: each row adds its hours to the entry of its key. */
  function GroupSum<K(==)>(rows: seq<Row>, key: Row -> K): map<K, nat>
  {
    if rows == [] then map[]
    else
      var m := GroupSum(rows[1..], key);
      var k := key(rows[0]);
      m[k := (if k in m then m[k] else 0) + rows[0].hours]
  }

  /**
   * What the grouped table holds: exactly one entry per key that occurs in
   * the rows, and that entry is the reference sum KeyHours of its key.
   */
  lemma {:induction false} GroupSumMeaning<K(!new)>(rows: seq<Row>, key: Row -> K)
    ensures GroupSum(rows, key).Keys == Keys(rows, key)
    ensures forall k :: k in GroupSum(rows, key) ==> GroupSum(rows, key)[k] == KeyHours(rows, key, k)
  {
    if rows != [] {
      GroupSumMeaning(rows[1..], key);
    }
  }

  /** The groups partition the rows: the group sums add up to the total hours. */
  lemma {:induction false} GroupSumTotal<K(!new)>(rows: seq<Row>, key: Row -> K)
    ensures SumMap(GroupSum(rows, key)) == Hours(rows)
  {
    if rows != [] {
      var m := GroupSum(rows[1..], key);
      var k := key(rows[0]);
      var v := (if k in m then m[k] else 0) + rows[0].hours;
      var g := m[k := v];
      assert GroupSum(rows, key) == g;
      GroupSumTotal(rows[1..], key);
      SumMapUpdate(m, k, v);
    }
  }

  /** The rows whose key is `k`, in their original order. */
  function Where<K(==)>(rows: seq<Row>, key: Row -> K, k: K): (w: seq<Row>)
    ensures |w| <= |rows|
    ensures forall i :: 0 <= i < |w| ==> key(w[i]) == k
    ensures forall i :: 0 <= i < |rows| && key(rows[i]) == k ==> rows[i] in w
  {
    if rows == [] then []
    else if key(rows[0]) == k then [rows[0]] + Where(rows[1..], key, k)
    else Where(rows[1..], key, k)
  }

  /** The sub-table of a pair-keyed table whose first component is `a`. */
  function Slice<A(==), B(==,!new)>(m: map<(A, B), nat>, a: A): (s: map<B, nat>)
    ensures forall b :: b in s <==> (a, b) in m
    ensures forall b :: b in s ==> s[b] == m[(a, b)]
  {
    map p | p in m && p.0 == a :: p.1 := m[p]
  }

  lemma {:induction false} WhereHours<K(!new)>(rows: seq<Row>, key: Row -> K, k: K)
    ensures Hours(Where(rows, key, k)) == KeyHours(rows, key, k)
  {
    if rows != [] {
      WhereHours(rows[1..], key, k);
      var w := Where(rows[1..], key, k);
      if key(rows[0]) == k {
        assert ([rows[0]] + w)[1..] == w;
      }
    }
  }

  /** Within the rows of coarse key `a`, grouping by the split key is grouping by the fine key. */
  lemma {:induction false} WhereRefines<A(!new), B(!new)>(rows: seq<Row>, coarse: Row -> A, split: Row -> B, fine: Row -> (A, B), a: A, b: B)
    requires forall r :: fine(r) == (coarse(r), split(r))
    ensures (a, b) in Keys(rows, fine) <==> b in Keys(Where(rows, coarse, a), split)
    ensures KeyHours(rows, fine, (a, b)) == KeyHours(Where(rows, coarse, a), split, b)
  {
    if rows != [] {
      WhereRefines(rows[1..], coarse, split, fine, a, b);
      var w := Where(rows[1..], coarse, a);
      if coarse(rows[0]) == a {
        assert ([rows[0]] + w)[1..] == w;
      }
    }
  }

  /**
   * A finer grouping refines a coarser one: for each coarse key `a`, the fine
   * groups (a, b) add up to the coarse group of `a`.
   */
  lemma GroupsRefine<A(!new), B(!new)>(rows: seq<Row>, coarse: Row -> A, split: Row -> B, fine: Row -> (A, B), a: A)
    requires forall r :: fine(r) == (coarse(r), split(r))
    ensures SumMap(Slice(GroupSum(rows, fine), a)) == KeyHours(rows, coarse, a)
  {
    var w := Where(rows, coarse, a);
    var s := Slice(GroupSum(rows, fine), a);
    var g := GroupSum(w, split);
    GroupSumMeaning(rows, fine);
    GroupSumMeaning(w, split);
    forall b
      ensures (b in s <==> b in g) && (b in s ==> s[b] == g[b])
    {
      WhereRefines(rows, coarse, split, fine, a, b);
    }
    assert s == g;
    GroupSumTotal(w, split);
    WhereHours(rows, coarse, a);
  }

  /** Each coarse group holds at least its Yes, No and Leave hours, with nothing counted twice. */
  lemma {:induction false} FlagsBound<A(!new)>(rows: seq<Row>, coarse: Row -> A, fine: Row -> (A, string), a: A)
    requires forall r :: fine(r) == (coarse(r), r.billable)
    ensures KeyHours(rows, fine, (a, "Yes")) + KeyHours(rows, fine, (a, "No")) + KeyHours(rows, fine, (a, "Leave"))
            <= KeyHours(rows, coarse, a)
  {
    if rows != [] {
      FlagsBound(rows[1..], coarse, fine, a);
    }
  }

  /** When every flag is Yes, No or Leave, the three flag groups of a coarse group add up to it. */
  lemma {:induction false} FlagsPartition<A(!new)>(rows: seq<Row>, coarse: Row -> A, fine: Row -> (A, string), a: A)
    requires forall r :: fine(r) == (coarse(r), r.billable)
    requires forall i :: 0 <= i < |rows| ==> rows[i].billable in {"Yes", "No", "Leave"}
    ensures KeyHours(rows, fine, (a, "Yes")) + KeyHours(rows, fine, (a, "No")) + KeyHours(rows, fine, (a, "Leave"))
            == KeyHours(rows, coarse, a)
  {
    if rows != [] {
      assert forall i :: 0 <= i < |rows[1..]| ==> rows[1..][i] == rows[i + 1];
      FlagsPartition(rows[1..], coarse, fine, a);
    }
  }
}
