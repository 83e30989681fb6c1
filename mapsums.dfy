/**
 * Sums over the values of a map: the "Hours" column of a grouped table and
 * the "Percentage" column of a member's rows.
 */
module MapSums {

  /** Some key of a non-empty map. */
  ghost function Pick<K, V>(m: map<K, V>): (k: K)
    requires |m| != 0
    ensures k in m
  {
    var k :| k in m; k
  }

  /** The sum of the values of `m`, taken in an arbitrary order of its keys. */
  ghost function SumMap<K>(m: map<K, nat>): nat
    decreases m.Keys
  {
    if |m| == 0 then 0
    else
      var k := Pick(m);
      m[k] + SumMap(m - {k})
  }

  /**
   * The same for real values. Dafny has no type parameter ranging over both
   * `nat` and `real` with an addition, so hour sums and percentage sums are
   * two functions, and their order-independence lemmas two as well.
   */
  ghost function SumReals<K>(m: map<K, real>): real
    decreases m.Keys
  {
    if |m| == 0 then 0.0
    else
      var k := Pick(m);
      m[k] + SumReals(m - {k})
  }

  /** The sum does not depend on the order: any key can be taken out first. */
  lemma {:induction false} SumMapRemove<K>(m: map<K, nat>, k: K)
    requires k in m
    ensures SumMap(m) == m[k] + SumMap(m - {k})
    decreases m.Keys
  {
    var j := Pick(m);
    if j != k {
      var mj, mk := m - {j}, m - {k};
      assert k in mj && j in mk;
      assert mj.Keys < m.Keys && mk.Keys < m.Keys;
      SumMapRemove(mj, k);
      SumMapRemove(mk, j);
      assert mj - {k} == mk - {j};
    }
  }

  lemma {:induction false} SumRealsRemove<K>(m: map<K, real>, k: K)
    requires k in m
    ensures SumReals(m) == m[k] + SumReals(m - {k})
    decreases m.Keys
  {
    var j := Pick(m);
    if j != k {
      var mj, mk := m - {j}, m - {k};
      assert k in mj && j in mk;
      assert mj.Keys < m.Keys && mk.Keys < m.Keys;
      SumRealsRemove(mj, k);
      SumRealsRemove(mk, j);
      assert mj - {k} == mk - {j};
    }
  }

  /** Setting one entry changes the sum by the difference of the old and new values. */
  lemma SumMapUpdate<K>(m: map<K, nat>, k: K, v: nat)
    ensures SumMap(m[k := v]) == SumMap(m) - (if k in m then m[k] else 0) + v
  {
    var g := m[k := v];
    var rest := if k in m then m - {k} else m;
    assert g - {k} == rest;
    assert SumMap(g) == v + SumMap(rest) by {
      SumMapRemove(g, k);
    }
    assert SumMap(m) == (if k in m then m[k] else 0) + SumMap(rest) by {
      if k in m {
        SumMapRemove(m, k);
      }
    }
  }

  /** Extra keys with value zero leave the sum unchanged: the "fill with 0" of a pivot. */
  lemma {:induction false} SumMapZeros<K>(m: map<K, nat>, filled: map<K, nat>)
    requires m.Keys <= filled.Keys
    requires forall k :: k in m ==> filled[k] == m[k]
    requires forall k :: k in filled && k !in m ==> filled[k] == 0
    ensures SumMap(filled) == SumMap(m)
    decreases filled.Keys - m.Keys
  {
    if filled.Keys == m.Keys {
      assert filled == m;
    } else {
      var k :| k in filled && k !in m;
      SumMapRemove(filled, k);
      assert (filled - {k}).Keys == filled.Keys - {k};
      assert k in filled.Keys - m.Keys && k !in (filled - {k}).Keys - m.Keys;
      SumMapZeros(m, filled - {k});
    }
  }

  /** Every value divided by `whole`. */
  function Scale<K>(m: map<K, nat>, whole: nat): (s: map<K, real>)
    requires whole > 0
    ensures s.Keys == m.Keys
  {
    map k | k in m :: m[k] as real / whole as real
  }

  /** Dividing every value by the same positive number divides the sum by it. */
  lemma {:induction false} ScaledSum<K>(m: map<K, nat>, whole: nat)
    requires whole > 0
    ensures SumReals(Scale(m, whole)) == SumMap(m) as real / whole as real
    decreases m.Keys
  {
    var s := Scale(m, whole);
    if |m| != 0 {
      var k :| k in m;
      SumMapRemove(m, k);
      SumRealsRemove(s, k);
      assert s - {k} == Scale(m - {k}, whole);
      ScaledSum(m - {k}, whole);
      DivideSum(m[k] as real, SumMap(m - {k}) as real, whole as real);
    }
  }

  lemma DivideSum(a: real, b: real, w: real)
    requires w > 0.0
    ensures a / w + b / w == (a + b) / w
  {
    var q1, q2 := a / w, b / w;
    assert q1 * w == a && q2 * w == b;
    assert (q1 + q2) * w == a + b;
  }

  /** Two maps with the same keys and the same value at every key are equal. */
  lemma SameEntries<K, V>(a: map<K, V>, b: map<K, V>)
    requires forall k :: k in a <==> k in b
    requires forall k :: k in a ==> a[k] == b[k]
    ensures a == b
  {
  }
}
