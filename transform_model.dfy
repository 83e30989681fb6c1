/**
 * harvest/transform.py: the `Transform` object. Its constructor zeroes the
 * headline totals and leaves every table unset; `transform` adds the totals
 * of its data to the fields with `+=` and assigns every grouped table.
 */
module TransformModel {
  import opened Rows
  import opened MapSums
  import opened GroupBy
  import opened Pivot

  /**
   * `part / whole` on floats, for a part of a whole: 0 / 0 is NaN, written
   * None here. A positive part over 0 (infinity in pandas) never arises,
   * since every caller divides a part by a whole that contains it.
   */
  function Ratio(part: nat, whole: nat): (q: Option<real>)
    ensures q.None? <==> whole == 0
    ensures q.Some? ==> q.value * whole as real == part as real
    ensures q.Some? && part <= whole ==> 0.0 <= q.value <= 1.0
  {
    if whole == 0 then None else Some(part as real / whole as real)
  }

  /** A row of `members`: the hours of one (First Name, Billable?) group, its member's total, and their ratio. */
  datatype MemberShare = MemberShare(hours: nat, totalHours: nat, percentage: Option<real>)

  /**
   * `member_billable_hours` left-merged with `member_hours` on First Name,
   * with `Percentage = Hours / TotalHours`. Every group finds its member, so
   * no TotalHours is missing.
   */
  function Members(rows: seq<Row>): map<(string, string), MemberShare>
  {
    var byFlag := GroupSum(rows, NameFlag);
    var byName := GroupSum(rows, Name);
    map p | p in byFlag :: MemberShare(byFlag[p], if p.0 in byName then byName[p.0] else 0,
                                       Ratio(byFlag[p], if p.0 in byName then byName[p.0] else 0))
  }

  /**
   * One entry per (First Name, Billable?) group; its TotalHours is found in
   * `member_hours` (the merge never misses), and its percentage lies in [0, 1]
   * and is NaN exactly when the member's total is 0.
   */
  lemma MembersMeaning(rows: seq<Row>)
    ensures Members(rows).Keys == Keys(rows, NameFlag)
    ensures forall p :: p in Members(rows) ==>
      && Members(rows)[p].hours == KeyHours(rows, NameFlag, p)
      && p.0 in GroupSum(rows, Name)
      && Members(rows)[p].totalHours == GroupSum(rows, Name)[p.0]
      && Members(rows)[p].hours <= Members(rows)[p].totalHours
    ensures forall p :: p in Members(rows) ==>
      && (Members(rows)[p].percentage.Some? <==> Members(rows)[p].totalHours > 0)
      && (Members(rows)[p].percentage.Some? ==> 0.0 <= Members(rows)[p].percentage.value <= 1.0)
  {
    var byFlag := GroupSum(rows, NameFlag);
    var byName := GroupSum(rows, Name);
    GroupSumMeaning(rows, NameFlag);
    GroupSumMeaning(rows, Name);
    forall p | p in byFlag
      ensures p.0 in byName && byFlag[p] <= byName[p.0]
    {
      KeysProject(rows, Name, Flag, NameFlag, p);
      FlagWithinMember(rows, p);
    }
  }

  /** A member's hours under one flag are part of the member's hours. */
  lemma {:induction false} FlagWithinMember(rows: seq<Row>, p: (string, string))
    ensures KeyHours(rows, NameFlag, p) <= KeyHours(rows, Name, p.0)
  {
    if rows != [] {
      FlagWithinMember(rows[1..], p);
    }
  }

  /** The percentages of one member, by flag. */
  function Percentages(m: map<(string, string), MemberShare>, name: string): (s: map<string, real>)
  {
    map p | p in m && p.0 == name && m[p].percentage.Some? :: p.1 := m[p].percentage.value
  }

  /** A member with hours: the percentages over the member's flags add up to 1. */
  lemma PercentagesSumToOne(rows: seq<Row>, name: string)
    requires KeyHours(rows, Name, name) > 0
    ensures SumReals(Percentages(Members(rows), name)) == 1.0
  {
    var total := KeyHours(rows, Name, name);
    var slice := Slice(GroupSum(rows, NameFlag), name);
    PercentagesAreScaled(rows, name);
    ScaledSum(slice, total);
    GroupsRefine(rows, Name, Flag, NameFlag, name);
    assert SumMap(slice) == total;
    WholeOverWhole(total as real);
  }

  lemma WholeOverWhole(w: real)
    requires w > 0.0
    ensures w / w == 1.0
  {
  }

  /** A member's percentages are that member's flag groups divided by the member's total. */
  lemma PercentagesAreScaled(rows: seq<Row>, name: string)
    requires KeyHours(rows, Name, name) > 0
    ensures Percentages(Members(rows), name) == Scale(Slice(GroupSum(rows, NameFlag), name), KeyHours(rows, Name, name))
  {
    var pc := Percentages(Members(rows), name);
    var sc := Scale(Slice(GroupSum(rows, NameFlag), name), KeyHours(rows, Name, name));
    forall f
      ensures f in pc <==> f in sc
      ensures f in sc ==> pc[f] == sc[f]
    {
      PercentageEntry(rows, name, f);
    }
    SameEntries(pc, sc);
  }

  /** One flag of a member with hours: its percentage is its group's hours over the member's total. */
  lemma PercentageEntry(rows: seq<Row>, name: string, f: string)
    requires KeyHours(rows, Name, name) > 0
    ensures f in Percentages(Members(rows), name) <==> (name, f) in GroupSum(rows, NameFlag)
    ensures (name, f) in GroupSum(rows, NameFlag) ==>
      Percentages(Members(rows), name)[f] == GroupSum(rows, NameFlag)[(name, f)] as real / KeyHours(rows, Name, name) as real
  {
    var total := KeyHours(rows, Name, name);
    var byFlag := GroupSum(rows, NameFlag);
    var byName := GroupSum(rows, Name);
    var ms := Members(rows);
    GroupSumMeaning(rows, Name);
    assert name in byName && byName[name] == total;
    var p := (name, f);
    if p in byFlag {
      assert ms[p] == MemberShare(byFlag[p], total, Ratio(byFlag[p], total));
    }
  }

  class Transform {
    const data: seq<Row>

    var totalMembers: nat
    var totalHours: nat
    var totalBillable: nat
    var totalNonBillable: nat
    var billableHours: Option<map<string, nat>>
    var clientHours: Option<map<string, nat>>
    var clientBillableHours: Option<map<(string, string), nat>>
    var memberHours: Option<map<string, nat>>
    var memberBillableHours: Option<map<(string, string), nat>>
    var members: Option<map<(string, string), MemberShare>>
    var memberDate: Option<map<(string, int), nat>>

    constructor (data: seq<Row>)
      ensures this.data == data
      ensures totalMembers == 0 && totalHours == 0 && totalBillable == 0 && totalNonBillable == 0
      ensures billableHours.None? && clientHours.None? && clientBillableHours.None?
      ensures memberHours.None? && memberBillableHours.None? && members.None? && memberDate.None?
    {
      this.data := data;
      totalMembers, totalHours, totalBillable, totalNonBillable := 0, 0, 0, 0;
      billableHours, clientHours, clientBillableHours := None, None, None;
      memberHours, memberBillableHours, members, memberDate := None, None, None, None;
    }

    /**
     * `transform`: the totals grow by the sums of the data (so a second call
     * adds them again), and every table is replaced by its group-by.
     * Rounding to two decimals is exact on hundredths.
     */
    method Transform()
      modifies this
      ensures totalMembers == old(totalMembers) + |Keys(data, Name)|
      ensures totalHours == old(totalHours) + Hours(data)
      ensures totalBillable == old(totalBillable) + KeyHours(data, Flag, "Yes")
      ensures totalNonBillable == old(totalNonBillable) + KeyHours(data, Flag, "No")
      ensures billableHours == Some(GroupSum(data, Flag))
      ensures clientHours == Some(GroupSum(data, Client))
      ensures clientBillableHours == Some(GroupSum(data, ClientFlag))
      ensures memberHours == Some(GroupSum(data, Name))
      ensures memberBillableHours == Some(GroupSum(data, NameFlag))
      ensures members == Some(Members(data))
      ensures memberDate == Some(MemberDate(data))
    {
      AddTotals();
      Tabulate();
    }

    /** The first half of `transform`: the four `+=` lines on the headline totals. */
    method AddTotals()
      modifies this`totalMembers, this`totalHours, this`totalBillable, this`totalNonBillable
      ensures totalMembers == old(totalMembers) + |Keys(data, Name)|
      ensures totalHours == old(totalHours) + Hours(data)
      ensures totalBillable == old(totalBillable) + KeyHours(data, Flag, "Yes")
      ensures totalNonBillable == old(totalNonBillable) + KeyHours(data, Flag, "No")
    {
      totalMembers := totalMembers + |Keys(data, Name)|;
      totalHours := totalHours + Hours(data);
      totalBillable := totalBillable + KeyHours(data, Flag, "Yes");
      totalNonBillable := totalNonBillable + KeyHours(data, Flag, "No");
    }

    /** The second half of `transform`: every table is assigned afresh. */
    method Tabulate()
      modifies this`billableHours, this`clientHours, this`clientBillableHours, this`memberHours
      modifies this`memberBillableHours, this`members, this`memberDate
      ensures billableHours == Some(GroupSum(data, Flag))
      ensures clientHours == Some(GroupSum(data, Client))
      ensures clientBillableHours == Some(GroupSum(data, ClientFlag))
      ensures memberHours == Some(GroupSum(data, Name))
      ensures memberBillableHours == Some(GroupSum(data, NameFlag))
      ensures members == Some(Members(data))
      ensures memberDate == Some(MemberDate(data))
    {
      billableHours := Some(GroupSum(data, Flag));
      clientHours := Some(GroupSum(data, Client));
      clientBillableHours := Some(GroupSum(data, ClientFlag));
      memberHours := Some(GroupSum(data, Name));
      memberBillableHours := Some(GroupSum(data, NameFlag));
      members := Some(Members(data));
      memberDate := Some(MemberDate(data));
    }
  }

  /**
   * What the page sees after one call on a fresh object: the headline numbers
   * are the sums of the data, and billable plus non-billable never exceeds the total.
   */
  method TransformOnce(data: seq<Row>) returns (t: Transform)
    ensures t.data == data
    ensures t.totalMembers == |Keys(data, Name)| && t.totalHours == Hours(data)
    ensures t.totalBillable == KeyHours(data, Flag, "Yes")
    ensures t.totalNonBillable == KeyHours(data, Flag, "No")
    ensures t.totalBillable + t.totalNonBillable <= t.totalHours
  {
    t := new Transform(data);
    t.Transform();
    DisjointKeys(data, Flag, "Yes", "No");
  }

  /** `transform` is not idempotent: calling it twice doubles the headline totals. */
  method TransformTwice(data: seq<Row>) returns (t: Transform)
    ensures t.totalMembers == 2 * |Keys(data, Name)| && t.totalHours == 2 * Hours(data)
    ensures t.totalBillable == 2 * KeyHours(data, Flag, "Yes")
    ensures t.totalNonBillable == 2 * KeyHours(data, Flag, "No")
    ensures t.billableHours == Some(GroupSum(data, Flag)) && t.clientHours == Some(GroupSum(data, Client))
    ensures t.clientBillableHours == Some(GroupSum(data, ClientFlag))
    ensures t.memberHours == Some(GroupSum(data, Name)) && t.memberBillableHours == Some(GroupSum(data, NameFlag))
    ensures t.members == Some(Members(data)) && t.memberDate == Some(MemberDate(data))
  {
    t := new Transform(data);
    t.Transform();
    t.Transform();
  }
}
