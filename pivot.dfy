/**
 * `pivot_table(values="Hours", index="First Name", columns="Date",
 * aggfunc="sum", fill_value=0)`: the member by date table that both engines
 * build.
 */
module Pivot {
  import opened Rows
  import opened MapSums
  import opened GroupBy

  /** The cells of a table whose axes are `names` and `dates`. */
  function Grid(names: set<string>, dates: set<int>): (g: set<(string, int)>)
    ensures forall p :: p in g <==> p.0 in names && p.1 in dates
  {
    var g := set n, d | n in names && d in dates :: (n, d);
    assert forall p: (string, int) | p.0 in names && p.1 in dates :: p in g by {
      forall p: (string, int) | p.0 in names && p.1 in dates
        ensures p in g
      {
        var (n, d) := p;
        assert (n, d) in g;
      }
    }
    g
  }

  /**
   * The pivot: one row per member and one column per date that occur in the
   * rows; a cell holds the hours of that member on that date, and 0 when the
   * member logged nothing that day.
   */
  function MemberDate(rows: seq<Row>): map<(string, int), nat>
  {
    var sums := GroupSum(rows, NameDate);
    map p | p in Grid(Keys(rows, Name), Keys(rows, Date)) :: if p in sums then sums[p] else 0
  }

  /**
   * The axes hold exactly the members and the dates that occur; a cell is the
   * sum over that member's rows on that date, and 0 when there are none.
   */
  lemma MemberDateMeaning(rows: seq<Row>)
    ensures forall p :: p in MemberDate(rows) <==> p.0 in Keys(rows, Name) && p.1 in Keys(rows, Date)
    ensures forall p :: p in MemberDate(rows) ==> MemberDate(rows)[p] == KeyHours(rows, NameDate, p)
    ensures forall p :: p in MemberDate(rows) && p !in Keys(rows, NameDate) ==> MemberDate(rows)[p] == 0
  {
    GroupSumMeaning(rows, NameDate);
  }

  /** A member's row of the pivot adds up to that member's total hours. */
  lemma PivotRowTotal(rows: seq<Row>, name: string)
    ensures SumMap(Slice(MemberDate(rows), name)) == KeyHours(rows, Name, name)
  {
    var pv := MemberDate(rows);
    var row := Slice(pv, name);
    var logged := Slice(GroupSum(rows, NameDate), name);
    GroupSumMeaning(rows, NameDate);
    MemberDateMeaning(rows);
    forall d | d in logged
      ensures d in row && row[d] == logged[d]
    {
      KeysProject(rows, Name, Date, NameDate, (name, d));
    }
    forall d | d in row && d !in logged
      ensures row[d] == 0
    {
    }
    SumMapZeros(logged, row);
    GroupsRefine(rows, Name, Date, NameDate, name);
  }
}
