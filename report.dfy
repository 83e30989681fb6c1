/**
 * harvest/harvest.py: the older report engine. `HarvestReport` keeps its own
 * copy of the rows with holiday tasks reclassified as Leave, and its views
 * (client breakdown, member breakdown with capacity bounds, task detail and
 * member pivot) are computed from that copy. Each view is a function of the
 * report's `data`.
 */
module Report {
  import opened Rows
  import opened Text
  import opened Sorting
  import opened GroupBy
  import opened Pivot
  import opened Calendar
  import opened MapSums
  import opened TransformModel

  // ----- Holiday reclassification -----

  /** The per-row rule of the constructor: a task that mentions "Holiday" is Leave. */
  function Reclassified(r: Row): (s: Row)
    ensures s.billable == (if Contains(r.task, "Holiday") then "Leave" else r.billable)
    ensures s.(billable := r.billable) == r
  {
    if Contains(r.task, "Holiday") then r.(billable := "Leave") else r
  }

  /** The rule applied to every row, keeping their number and order. */
  function Reclassify(rows: seq<Row>): (out: seq<Row>)
    ensures |out| == |rows|
    ensures forall i :: 0 <= i < |rows| ==> out[i] == Reclassified(rows[i])
  {
    if rows == [] then [] else [Reclassified(rows[0])] + Reclassify(rows[1..])
  }

  /** Reclassifying twice changes nothing more: the task, which decides, is never changed. */
  lemma ReclassifyIdempotent(rows: seq<Row>)
    ensures Reclassify(Reclassify(rows)) == Reclassify(rows)
  {
    var once := Reclassify(rows);
    forall i | 0 <= i < |rows|
      ensures Reclassify(once)[i] == once[i]
    {
      assert once[i].task == rows[i].task;
    }
  }

  /** A key that does not look at the flag takes the same values before and after reclassification. */
  lemma {:induction false} ReclassifyKeepsKeys<K(!new)>(rows: seq<Row>, key: Row -> K)
    requires forall r :: key(Reclassified(r)) == key(r)
    ensures Keys(Reclassify(rows), key) == Keys(rows, key)
  {
    if rows != [] {
      var out := Reclassify(rows);
      assert out == [Reclassified(rows[0])] + Reclassify(rows[1..]);
      assert out[1..] == Reclassify(rows[1..]);
      assert key(out[0]) == key(rows[0]);
      ReclassifyKeepsKeys(rows[1..], key);
    }
  }

  /** A grouping that does not look at the flag has the same sums before and after reclassification. */
  lemma {:induction false} ReclassifyKeepsGroups<K(!new)>(rows: seq<Row>, key: Row -> K)
    requires forall r :: key(Reclassified(r)) == key(r)
    ensures GroupSum(Reclassify(rows), key) == GroupSum(rows, key)
  {
    if rows != [] {
      var out := Reclassify(rows);
      assert out == [Reclassified(rows[0])] + Reclassify(rows[1..]);
      assert out[1..] == Reclassify(rows[1..]);
      assert key(out[0]) == key(rows[0]) && out[0].hours == rows[0].hours;
      ReclassifyKeepsGroups(rows[1..], key);
    }
  }

  /** Flags that are all Yes, No or Leave stay so after reclassification. */
  lemma ReclassifyKeepsFlagSet(rows: seq<Row>)
    requires forall i :: 0 <= i < |rows| ==> rows[i].billable in {"Yes", "No", "Leave"}
    ensures forall i :: 0 <= i < |Reclassify(rows)| ==> Reclassify(rows)[i].billable in {"Yes", "No", "Leave"}
  {
  }

  class HarvestReport {
    var data: seq<Row>

    /**
     * `__init__`: the report works on its own copy of the caller's rows, with
     * every holiday task reclassified; the caller's rows are left as they were.
     */
    constructor (source: array<Row>)
      ensures data == Reclassify(source[..])
      ensures source[..] == old(source[..])
    {
      data := Reclassify(source[..]);
    }
  }

  /** The member pivot of the report is that of the rows it was built from: reclassifying moves no hours. */
  lemma PivotUnaffected(rows: seq<Row>)
    ensures MemberDate(Reclassify(rows)) == MemberDate(rows)
  {
    ReclassifyKeepsKeys(rows, Name);
    ReclassifyKeepsKeys(rows, Date);
    ReclassifyKeepsGroups(rows, NameDate);
  }

  // ----- Grouped tables -----

  /** The distinct key values of the rows, each once. */
  function KeyList<K(==,!new)>(rows: seq<Row>, key: Row -> K): (ks: seq<K>)
    ensures Distinct(ks)
    ensures forall k :: k in ks <==> k in Keys(rows, key)
  {
    if rows == [] then []
    else
      var rest := KeyList(rows[1..], key);
      if key(rows[0]) in rest then rest else [key(rows[0])] + rest
  }

  // ----- client_breakdown -----

  /** The internal clients `client_breakdown` leaves out; a client is dropped only on an exact match. */
  const Excluded: set<string> := {"Data - Internal", "Internal", "Persuasion", "PT Internal"}

  /** `data[~data["Client"].isin(exclude_client)]`, in the original order. */
  function Cleaned(rows: seq<Row>): (c: seq<Row>)
    ensures |c| <= |rows|
    ensures forall r :: r in c <==> r in rows && r.client !in Excluded
  {
    if rows == [] then []
    else if rows[0].client in Excluded then Cleaned(rows[1..])
    else [rows[0]] + Cleaned(rows[1..])
  }

  /** The group of a kept client is the same whether taken before or after cleaning. */
  lemma {:induction false} CleanedGroup(rows: seq<Row>, client: string)
    requires client !in Excluded
    ensures Where(Cleaned(rows), Client, client) == Where(rows, Client, client)
  {
    if rows != [] {
      CleanedGroup(rows[1..], client);
      if rows[0].client !in Excluded {
        assert ([rows[0]] + Cleaned(rows[1..]))[1..] == Cleaned(rows[1..]);
      }
    }
  }

  /** A row of the client breakdown. */
  datatype ClientRow = ClientRow(client: string, billableHours: nat, nonBillableHours: nat, totalHours: nat)

  /** The lambda of `client_breakdown`, applied to the rows `x` of one client. */
  function ClientTotals(client: string, x: seq<Row>): ClientRow
  {
    ClientRow(client, KeyHours(x, Flag, "Yes"), KeyHours(x, Flag, "No"), Hours(x))
  }

  /** `sort_values("totalHours", ascending=False)`. */
  predicate ByTotalDescending(a: ClientRow, b: ClientRow)
  {
    a.totalHours >= b.totalHours
  }

  /**
   * `client_breakdown`: one row per client of the cleaned rows, each holding
   * the Yes, No and total sums of that client's rows, with the largest total
   * first.
   */
  function ClientBreakdown(rows: seq<Row>): (table: seq<ClientRow>)
    ensures SortedBy(table, ByTotalDescending)
    ensures forall i :: 0 <= i < |table| ==>
      && table[i].client in Keys(Cleaned(rows), Client)
      && table[i] == ClientTotals(table[i].client, Where(Cleaned(rows), Client, table[i].client))
    ensures forall c :: c in Keys(Cleaned(rows), Client) ==> exists i :: 0 <= i < |table| && table[i].client == c
    ensures forall i, j :: 0 <= i < j < |table| ==> table[i].client != table[j].client
  {
    var cleaned := Cleaned(rows);
    GroupTable(KeyList(cleaned, Client), (c: string) => ClientTotals(c, Where(cleaned, Client, c)),
               (r: ClientRow) => r.client, ByTotalDescending)
  }

  /**
   * The clients of the breakdown are exactly the clients of the rows that are
   * not on the exclude list, and each one's rows are all of that client's rows.
   */
  lemma CleanedClients(rows: seq<Row>, client: string)
    ensures client in Keys(Cleaned(rows), Client) <==> client in Keys(rows, Client) && client !in Excluded
    ensures client !in Excluded ==> Where(Cleaned(rows), Client, client) == Where(rows, Client, client)
  {
    var cleaned := Cleaned(rows);
    if client in Keys(cleaned, Client) {
      var j :| 0 <= j < |cleaned| && cleaned[j].client == client;
      assert cleaned[j] in rows;
    }
    if client in Keys(rows, Client) && client !in Excluded {
      var j :| 0 <= j < |rows| && rows[j].client == client;
      assert rows[j] in cleaned;
    }
    if client !in Excluded {
      CleanedGroup(rows, client);
    }
  }

  /**
   * A client row agrees with the grouped tables of `Transform`: its billable
   * and non-billable hours are the (client, Yes) and (client, No) sums and its
   * total the client's sum; Leave and every other flag count only in the total.
   */
  lemma ClientRowMeaning(rows: seq<Row>, client: string)
    ensures ClientTotals(client, Where(rows, Client, client)).billableHours == KeyHours(rows, ClientFlag, (client, "Yes"))
    ensures ClientTotals(client, Where(rows, Client, client)).nonBillableHours == KeyHours(rows, ClientFlag, (client, "No"))
    ensures ClientTotals(client, Where(rows, Client, client)).totalHours == KeyHours(rows, Client, client)
    ensures KeyHours(rows, ClientFlag, (client, "Yes")) + KeyHours(rows, ClientFlag, (client, "No"))
            + KeyHours(rows, ClientFlag, (client, "Leave")) <= KeyHours(rows, Client, client)
  {
    WhereRefines(rows, Client, Flag, ClientFlag, client, "Yes");
    WhereRefines(rows, Client, Flag, ClientFlag, client, "No");
    WhereHours(rows, Client, client);
    FlagsBound(rows, Client, ClientFlag, client);
  }

  // ----- member_breakdown -----

  /** A row of the member breakdown; a percentage is None (NaN) when the member's total is 0. */
  datatype MemberRow = MemberRow(
    name: string,
    billableHours: nat, nonBillableHours: nat, leaveHours: nat,
    billablePercentage: Option<real>, nonBillablePercentage: Option<real>,
    totalHours: nat)

  /** The lambda of `member_breakdown`, applied to the rows `x` of one member. */
  function MemberTotals(name: string, x: seq<Row>): MemberRow
  {
    MemberRow(name,
      KeyHours(x, Flag, "Yes"), KeyHours(x, Flag, "No"), KeyHours(x, Flag, "Leave"),
      Ratio(KeyHours(x, Flag, "Yes"), Hours(x)), Ratio(KeyHours(x, Flag, "No"), Hours(x)),
      Hours(x))
  }

  /** `sort_values("First Name", ascending=True)`. */
  predicate ByName(a: MemberRow, b: MemberRow)
  {
    StrLe(a.name, b.name)
  }

  lemma ByNamePreorder()
    ensures TotalPreorder(ByName)
  {
    forall a: MemberRow, b: MemberRow
      ensures ByName(a, b) || ByName(b, a)
    {
      StrLeTotal(a.name, b.name);
    }
    forall a: MemberRow, b: MemberRow, c: MemberRow | ByName(a, b) && ByName(b, c)
      ensures ByName(a, c)
    {
      StrLeTransitive(a.name, b.name, c.name);
    }
  }

  /** `member_breakdown`: one row per member, in ascending order of first name. */
  function MemberBreakdown(rows: seq<Row>): (table: seq<MemberRow>)
    ensures SortedBy(table, ByName)
    ensures forall i :: 0 <= i < |table| ==>
      table[i].name in Keys(rows, Name) && table[i] == MemberTotals(table[i].name, Where(rows, Name, table[i].name))
    ensures forall n :: n in Keys(rows, Name) ==> exists i :: 0 <= i < |table| && table[i].name == n
    ensures forall i, j :: 0 <= i < j < |table| ==> table[i].name != table[j].name
  {
    ByNamePreorder();
    var make := (n: string) => MemberTotals(n, Where(rows, Name, n));
    assert forall n :: make(n).name == n;
    GroupTable(KeyList(rows, Name), make, (r: MemberRow) => r.name, ByName)
  }

  /**
   * A member row agrees with the grouped sums by (member, flag); Yes, No and
   * Leave never add up to more than the total, and exactly to it when every
   * flag is one of the three.
   */
  lemma MemberRowMeaning(rows: seq<Row>, name: string)
    ensures MemberTotals(name, Where(rows, Name, name)).billableHours == KeyHours(rows, NameFlag, (name, "Yes"))
    ensures MemberTotals(name, Where(rows, Name, name)).nonBillableHours == KeyHours(rows, NameFlag, (name, "No"))
    ensures MemberTotals(name, Where(rows, Name, name)).leaveHours == KeyHours(rows, NameFlag, (name, "Leave"))
    ensures MemberTotals(name, Where(rows, Name, name)).totalHours == KeyHours(rows, Name, name)
    ensures KeyHours(rows, NameFlag, (name, "Yes")) + KeyHours(rows, NameFlag, (name, "No"))
            + KeyHours(rows, NameFlag, (name, "Leave")) <= KeyHours(rows, Name, name)
    ensures (forall i :: 0 <= i < |rows| ==> rows[i].billable in {"Yes", "No", "Leave"}) ==>
      KeyHours(rows, NameFlag, (name, "Yes")) + KeyHours(rows, NameFlag, (name, "No"))
      + KeyHours(rows, NameFlag, (name, "Leave")) == KeyHours(rows, Name, name)
  {
    WhereRefines(rows, Name, Flag, NameFlag, name, "Yes");
    WhereRefines(rows, Name, Flag, NameFlag, name, "No");
    WhereRefines(rows, Name, Flag, NameFlag, name, "Leave");
    WhereHours(rows, Name, name);
    FlagsBound(rows, Name, NameFlag, name);
    if forall i :: 0 <= i < |rows| ==> rows[i].billable in {"Yes", "No", "Leave"} {
      FlagsPartition(rows, Name, NameFlag, name);
    }
  }

  /**
   * The percentages of a member with hours are the Yes and No shares of the
   * total; each lies in [0, 1] and together they never exceed 1.
   */
  lemma MemberShares(name: string, x: seq<Row>)
    requires Hours(x) > 0
    ensures MemberTotals(name, x).billablePercentage == Some(KeyHours(x, Flag, "Yes") as real / Hours(x) as real)
    ensures MemberTotals(name, x).nonBillablePercentage == Some(KeyHours(x, Flag, "No") as real / Hours(x) as real)
    ensures 0.0 <= MemberTotals(name, x).billablePercentage.value <= 1.0
    ensures 0.0 <= MemberTotals(name, x).nonBillablePercentage.value <= 1.0
    ensures MemberTotals(name, x).billablePercentage.value + MemberTotals(name, x).nonBillablePercentage.value <= 1.0
  {
    var t := Hours(x);
    var y := KeyHours(x, Flag, "Yes");
    var n := KeyHours(x, Flag, "No");
    DisjointKeys(x, Flag, "Yes", "No");
    SharesBound(y, n, t);
  }

  /** Two disjoint parts of a positive whole: their shares add up to at most 1. */
  lemma SharesBound(y: nat, n: nat, t: nat)
    requires 0 < t && y + n <= t
    ensures y as real / t as real + n as real / t as real <= 1.0
  {
    DivideSum(y as real, n as real, t as real);
  }

  /**
   * On a report built from rows flagged Yes, No or Leave, each member's three
   * columns add up to the member's total.
   */
  lemma ReportMembersPartition(source: seq<Row>, name: string)
    requires forall i :: 0 <= i < |source| ==> source[i].billable in {"Yes", "No", "Leave"}
    ensures var x := Where(Reclassify(source), Name, name);
      MemberTotals(name, x).billableHours + MemberTotals(name, x).nonBillableHours + MemberTotals(name, x).leaveHours
      == MemberTotals(name, x).totalHours
  {
    var rows := Reclassify(source);
    ReclassifyKeepsFlagSet(source);
    MemberRowMeaning(rows, name);
  }

  // ----- capacity bounds -----

  /** `data["Date"].min()`: None (NaT) when there are no rows. */
  function EarliestDate(rows: seq<Row>): (d: Option<int>)
    ensures d.None? <==> rows == []
    ensures d.Some? ==> exists i :: 0 <= i < |rows| && rows[i].date == d.value
    ensures d.Some? ==> forall i :: 0 <= i < |rows| ==> d.value <= rows[i].date
  {
    if rows == [] then None
    else
      var rest := EarliestDate(rows[1..]);
      if rest.None? || rows[0].date <= rest.value then Some(rows[0].date) else rest
  }

  /** `data["Date"].max()`: None (NaT) when there are no rows. */
  function LatestDate(rows: seq<Row>): (d: Option<int>)
    ensures d.None? <==> rows == []
    ensures d.Some? ==> exists i :: 0 <= i < |rows| && rows[i].date == d.value
    ensures d.Some? ==> forall i :: 0 <= i < |rows| ==> rows[i].date <= d.value
  {
    if rows == [] then None
    else
      var rest := LatestDate(rows[1..]);
      if rest.None? || rows[0].date >= rest.value then Some(rows[0].date) else rest
  }

  /**
   * The two guide lines of `member_breakdown`: seven hours per weekday between
   * the first and the last date, and 80% of that. With no rows both dates are
   * NaT, no comparison holds and no weekday is counted. Both bounds are in
   * whole hours, whereas row hours and every sum of them are in hundredths.
   */
  method CapacityBounds(rows: seq<Row>) returns (upper: nat, lower: real)
    ensures rows == [] ==> upper == 0
    ensures rows != [] ==> upper == 7 * Weekdays(EarliestDate(rows).value, LatestDate(rows).value)
    ensures lower == upper as real * 0.8
    ensures 0.0 <= lower <= upper as real
  {
    var weekdays: nat;
    if rows == [] {
      weekdays := 0;
    } else {
      var first, last := EarliestDate(rows).value, LatestDate(rows).value;
      weekdays := CountWeekdays(first, last);
    }
    upper := weekdays * 7;
    lower := upper as real * 0.8;
  }

  // ----- task_detail -----

  /** A row of the task detail table. */
  datatype TaskRow = TaskRow(client: string, task: string, billable: string, hours: nat)

  function TaskKey(r: TaskRow): (string, string, string)
  {
    (r.client, r.task, r.billable)
  }

  /** `sort_values(["Billable?", "Hours"], ascending=[False, False])`. */
  predicate TaskOrder(a: TaskRow, b: TaskRow)
  {
    StrLt(b.billable, a.billable) || (a.billable == b.billable && a.hours >= b.hours)
  }

  lemma TaskOrderPreorder()
    ensures TotalPreorder(TaskOrder)
  {
    forall a: TaskRow, b: TaskRow
      ensures TaskOrder(a, b) || TaskOrder(b, a)
    {
      StrLeTotal(a.billable, b.billable);
    }
    forall a: TaskRow, b: TaskRow, c: TaskRow | TaskOrder(a, b) && TaskOrder(b, c)
      ensures TaskOrder(a, c)
    {
      StrLeReflexive(a.billable);
      StrLeReflexive(b.billable);
      assert StrLe(b.billable, a.billable) && StrLe(c.billable, b.billable);
      StrLeTransitive(c.billable, b.billable, a.billable);
      if a.billable == c.billable && a.billable != b.billable {
        StrLeAntisymmetric(a.billable, b.billable);
      }
    }
  }

  /**
   * `task_detail`: one row per (Client, Task, Billable?) group with its summed
   * hours; flags in descending order, and within a flag the most hours first.
   */
  function TaskDetail(rows: seq<Row>): (table: seq<TaskRow>)
    ensures SortedBy(table, TaskOrder)
    ensures forall i :: 0 <= i < |table| ==>
      TaskKey(table[i]) in Keys(rows, ClientTaskFlag) && table[i].hours == KeyHours(rows, ClientTaskFlag, TaskKey(table[i]))
    ensures forall k :: k in Keys(rows, ClientTaskFlag) ==> exists i :: 0 <= i < |table| && TaskKey(table[i]) == k
    ensures forall i, j :: 0 <= i < j < |table| ==> TaskKey(table[i]) != TaskKey(table[j])
  {
    TaskOrderPreorder();
    var make := (k: (string, string, string)) => TaskRow(k.0, k.1, k.2, KeyHours(rows, ClientTaskFlag, k));
    GroupTable(KeyList(rows, ClientTaskFlag), make, TaskKey, TaskOrder)
  }

  /** When every flag is Yes, No or Leave, the Yes rows come first, then the No rows, then the Leave rows. */
  lemma TaskFlagsInOrder(rows: seq<Row>, i: int, j: int)
    requires forall k :: 0 <= k < |rows| ==> rows[k].billable in {"Yes", "No", "Leave"}
    requires 0 <= i < j < |TaskDetail(rows)|
    ensures TaskDetail(rows)[j].billable == "Yes" ==> TaskDetail(rows)[i].billable == "Yes"
    ensures TaskDetail(rows)[j].billable == "No" ==> TaskDetail(rows)[i].billable in {"Yes", "No"}
  {
    var t := TaskDetail(rows);
    assert TaskOrder(t[i], t[j]);
    assert t[i].billable in {"Yes", "No", "Leave"} by {
      var k :| 0 <= k < |rows| && ClientTaskFlag(rows[k]) == TaskKey(t[i]);
    }
    assert !StrLe("Yes", "No") && !StrLe("Yes", "Leave") && !StrLe("No", "Leave");
  }
}
