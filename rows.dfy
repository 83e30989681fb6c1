/**
 * Time-entry rows of the Harvest timesheet export and the sums that every
 * aggregation of the report is built from.
 */
module Rows {

  datatype Option<T> = None | Some(value: T)

  /**
   * One row of the export: the columns Date, Client, First Name, Task,
   * Billable? and Hours.
   * `date` is a day number of the proleptic Gregorian calendar (day 1 is
   * 1 January of year 1, as Python's `date.toordinal()` counts), and `hours`
   * counts hundredths of an hour, so that sums are exact and rounding to two
   * decimals changes nothing.
   */
  datatype Row = Row(date: int, client: string, name: string, task: string, billable: string, hours: nat)

  // The grouping keys: the column, or tuple of columns, a group-by uses.
  function Name(r: Row): string { r.name }
  function Client(r: Row): string { r.client }
  function Flag(r: Row): string { r.billable }
  function Date(r: Row): int { r.date }
  function NameFlag(r: Row): (string, string) { (r.name, r.billable) }
  function ClientFlag(r: Row): (string, string) { (r.client, r.billable) }
  function NameDate(r: Row): (string, int) { (r.name, r.date) }
  function ClientTaskFlag(r: Row): (string, string, string) { (r.client, r.task, r.billable) }

  /** The sum of the Hours column. */
  function Hours(rows: seq<Row>): nat
  {
    if rows == [] then 0 else rows[0].hours + Hours(rows[1..])
  }

  /** The key values that occur in the rows (the distinct values of a column). */
  function Keys<K(==,!new)>(rows: seq<Row>, key: Row -> K): (ks: set<K>)
    ensures forall k :: k in ks <==> exists i :: 0 <= i < |rows| && key(rows[i]) == k
  {
    if rows == [] then {}
    else
      var rest := Keys(rows[1..], key);
      assert forall i :: 1 <= i < |rows| ==> rows[1..][i - 1] == rows[i];
      {key(rows[0])} + rest
  }

  /** The hours of the rows whose key is `k`: the reference definition of a group's sum. */
  function KeyHours<K(==,!new)>(rows: seq<Row>, key: Row -> K, k: K): (h: nat)
    ensures h <= Hours(rows)
    ensures k !in Keys(rows, key) ==> h == 0
  {
    if rows == [] then 0
    else (if key(rows[0]) == k then rows[0].hours else 0) + KeyHours(rows[1..], key, k)
  }

  /** Two different keys select disjoint rows, so their hours add up to at most the total. */
  lemma {:induction false} DisjointKeys<K(!new)>(rows: seq<Row>, key: Row -> K, k1: K, k2: K)
    requires k1 != k2
    ensures KeyHours(rows, key, k1) + KeyHours(rows, key, k2) <= Hours(rows)
  {
    if rows != [] {
      DisjointKeys(rows[1..], key, k1, k2);
    }
  }

  /** There are at most as many distinct keys as rows, and none exactly when there are no rows. */
  lemma {:induction false} KeysCount<K(!new)>(rows: seq<Row>, key: Row -> K)
    ensures |Keys(rows, key)| <= |rows|
    ensures |Keys(rows, key)| == 0 <==> rows == []
  {
    if rows != [] {
      KeysCount(rows[1..], key);
      assert key(rows[0]) in Keys(rows, key);
    }
  }

  /**
   * When the fine key of a row is the pair of its coarse key and a split key,
   * every fine key that occurs is made of a coarse key and a split key that occur.
   */
  lemma KeysProject<A(!new), B(!new)>(rows: seq<Row>, coarse: Row -> A, split: Row -> B, fine: Row -> (A, B), p: (A, B))
    requires forall r :: fine(r) == (coarse(r), split(r))
    requires p in Keys(rows, fine)
    ensures p.0 in Keys(rows, coarse) && p.1 in Keys(rows, split)
  {
    var i :| 0 <= i < |rows| && fine(rows[i]) == p;
    assert coarse(rows[i]) == p.0 && split(rows[i]) == p.1;
  }
}
