# HarvestReport timesheet aggregation, modelled in Dafny

HarvestReport turns a timesheet export into a report. The export is a table of time entries with the columns Date, Client, First Name, Task, Billable? and Hours. The report shows headline totals, hours by billable flag, client and member, a task detail table and a member-by-date pivot. This project models the layer that computes those numbers, in two engines:

- `harvest/transform.py`, class `Transform`. The constructor zeroes four totals and leaves seven tables unset. `transform` adds the totals of its data with `+=`, then assigns every grouped table, the member share table and the member × date pivot. This is a Dafny `class` with those fields. Its `Transform` method modifies them, in two steps: `AddTotals` for source lines 21-24 and `Tabulate` for lines 26-48.
- `harvest/harvest.py`:
  - `count_weekdays` is a method with the source's swap and its day-by-day loop.
  - The `HarvestReport` constructor stores a reclassified copy of the caller's rows.
  - The data parts of `client_breakdown`, `member_breakdown` (with its capacity bounds), `task_detail` and `member_detail` are functions of the report's rows.

Modelling choices:

- **Rows** are a `seq<Row>`.
- **Hours** are whole hundredths of an hour (`nat`). `round(..., 2)` is then exact, and every sum is exact.
- **Dates** are day numbers as `date.toordinal()` gives them. Day 1 is a Monday.
- **Grouping.** A `groupby(...).agg({"Hours": "sum"})` table is a `map` from the group key to its summed hours (`GroupBy.GroupSum`). It is built row by row. Every property of it is proved against the filter-sum `Rows.KeyHours`.
- **Division.** A percentage is `TransformModel.Ratio`, a part divided by a whole that contains it, on reals. `None` stands for the NaN of `0 / 0`.
- **Sorted tables** are produced by `Sorting.GroupTable`, which sorts one row per distinct key by the source's `sort_values` order. The sort is an insertion sort proved to be ordered and a permutation.

The code fixes three behaviours that shape the model:

- The constructor only overwrites the flag with "Leave"; every other flag is kept (harvest/harvest.py:28).
- `pivot_table(..., fill_value=0)` yields the full rectangle of the names and dates that occur, with 0 in the empty cells (`Pivot.MemberDate`).
- The only client policy is the exact-match exclude list at harvest/harvest.py:58-64.

## Model

| member | source | states |
|---|---|---|
| `Rows.Hours` | harvest/transform.py:22 | `data["Hours"].sum()`; no ensures of its own, its sums are related by `Rows.KeyHours`, `Rows.DisjointKeys` and `GroupBy.GroupSumTotal` |
| `Rows.Keys` | harvest/transform.py:21 | a value is a distinct key of the rows exactly when some row has it (the `nunique` set) |
| `Rows.KeysCount` | harvest/transform.py:21 | there are at most as many distinct members as rows, and none exactly when there are no rows |
| `Rows.KeyHours` | harvest/transform.py:23-24 | the hours of the rows with one key never exceed the total, and are 0 for a key that does not occur |
| `Rows.DisjointKeys` | harvest/transform.py:22-24 | the hours of two different flags (Yes and No) add up to at most the total hours |
| `GroupBy.GroupSum` | harvest/transform.py:26-32 | `groupby(...).agg({"Hours": "sum"})` as a map built row by row (also harvest/harvest.py:226); no ensures of its own, its meaning is `GroupBy.GroupSumMeaning` |
| `GroupBy.GroupSumMeaning` | harvest/transform.py:26 | a group-by table has one entry per key present, and that entry is the sum over the rows with that key |
| `GroupBy.GroupSumTotal` | harvest/transform.py:26 | the entries of a group-by table add up to the total hours |
| `GroupBy.GroupsRefine` | harvest/transform.py:28-29 | for each client, the (client, flag) entries add up to that client's entry |
| `GroupBy.Where` | harvest/harvest.py:65 | the group `x` of a key holds exactly the rows with that key: it keeps only such rows, keeps every one of them, and is no longer than the data |
| `GroupBy.FlagsBound` | harvest/harvest.py:67-69 | inside one group, the Yes, No and Leave sums together are at most the group's total: no row is counted twice |
| `GroupBy.FlagsPartition` | harvest/harvest.py:113-118 | when every flag is Yes, No or Leave, those three sums of a group equal its total |
| `TransformModel.Ratio` | harvest/transform.py:40 | the quotient is NaN exactly when the divisor is 0, multiplied back gives the numerator, and lies in [0, 1] for a part of a whole |
| `TransformModel.Members` | harvest/transform.py:34-40 | the merge of (member, flag) hours with member totals and the `Percentage` column; no ensures of its own, its meaning is `TransformModel.MembersMeaning` |
| `TransformModel.MembersMeaning` | harvest/transform.py:31-40 | `members` has one row per (member, flag); the left merge always finds the member; its TotalHours is the member's `member_hours` entry; Hours ≤ TotalHours; the percentage is NaN exactly when TotalHours is 0, and otherwise lies in [0, 1] |
| `TransformModel.PercentagesAreScaled` | harvest/transform.py:40 | a member's percentages are that member's (member, flag) hours divided by the member's total |
| `TransformModel.PercentagesSumToOne` | harvest/transform.py:31-40 | for a member with hours, the percentages over that member's flags add up to 1 |
| `Pivot.MemberDate` | harvest/transform.py:42-48 | the member × date `pivot_table` with `fill_value=0` (also harvest/harvest.py:236-242); no ensures of its own, its meaning is `Pivot.MemberDateMeaning` |
| `Pivot.MemberDateMeaning` | harvest/transform.py:42-48 | the pivot's axes are exactly the names and the dates that occur; a cell is the sum over that member's rows on that date, and 0 when there are none |
| `Pivot.PivotRowTotal` | harvest/transform.py:42-48 | each member's row of the pivot adds up to that member's total hours |
| `TransformModel.Transform.constructor` | harvest/transform.py:5-18 | the data is stored, the four totals are 0 and the seven tables are unset |
| `TransformModel.Transform.Transform` | harvest/transform.py:20-48 | each total grows by its sum over the data (distinct members, all hours, Yes hours, No hours); every table is replaced by its group-by, the member shares and the pivot |
| `TransformModel.Transform.AddTotals` | harvest/transform.py:21-24 | the four `+=` lines: each total grows by its sum and nothing else changes |
| `TransformModel.Transform.Tabulate` | harvest/transform.py:26-48 | every table field is assigned its group-by, the member shares or the pivot; the totals are untouched |
| `TransformModel.TransformOnce` | harvest/transform.py:8-24 | after one call on a fresh object, the totals are the distinct-member count and the three hour sums, and billable + non-billable ≤ total |
| `TransformModel.TransformTwice` | harvest/transform.py:8-24 | a second call doubles every total while the tables are those of one call: `transform` is not idempotent |
| `Calendar.Weekday` | harvest/harvest.py:15 | `weekday()` lies in 0..6 |
| `Calendar.CountWeekdays` | harvest/harvest.py:7-19 | the result is the number of weekdays from the earlier to the later end, both included, whatever the order of the arguments |
| `Calendar.CountWeekdaysSymmetric` | harvest/harvest.py:8-9 | swapping the arguments gives the same count, which is at most the number of days in the range |
| `Calendar.Weekdays` | harvest/harvest.py:11-19 | the day-by-day weekday count as a recursive reference function; no ensures of its own, its meaning is `Calendar.WeekdaysIsSetSize` and `Calendar.WeekdaysBound` |
| `Calendar.WeekdaysIsSetSize` | harvest/harvest.py:11-19 | the day-by-day count equals the size of the set of days in the range with weekday < 5 |
| `Calendar.WeekdaysBound` | harvest/harvest.py:11-19 | the count lies between 0 and the number of days in the range, and is 0 for an empty range |
| `Calendar.OneWeek` | harvest/harvest.py:11-19 | any seven consecutive days hold exactly five weekdays |
| `Calendar.WholeWeeks` | harvest/harvest.py:11-19 | k whole weeks hold exactly 5k weekdays |
| `Text.Contains` | harvest/harvest.py:28 | Python's substring `in`; no ensures of its own, its meaning is `Text.ContainsAt` |
| `Text.ContainsAt` | harvest/harvest.py:28 | `"Holiday" in task` holds exactly when "Holiday" occurs at some position of the task |
| `Report.Reclassified` | harvest/harvest.py:28 | a row's flag becomes Leave when its task contains "Holiday" and is kept otherwise; every other field is unchanged |
| `Report.Reclassify` | harvest/harvest.py:28 | the rule is applied to every row; the number and order of the rows are kept |
| `Report.ReclassifyIdempotent` | harvest/harvest.py:28 | reclassifying a second time changes nothing |
| `Report.ReclassifyKeepsKeys` | harvest/harvest.py:28 | a key that does not involve the flag takes the same values after reclassification |
| `Report.ReclassifyKeepsGroups` | harvest/harvest.py:28 | a grouping that does not involve the flag has the same sums after reclassification |
| `Report.ReclassifyKeepsFlagSet` | harvest/harvest.py:28 | rows flagged only Yes, No or Leave are still flagged only so after reclassification |
| `Report.HarvestReport.constructor` | harvest/harvest.py:26-28 | the report holds the reclassified copy of the caller's rows, and the caller's array is left unchanged |
| `Report.PivotUnaffected` | harvest/harvest.py:235-242 | the member pivot of the report is the pivot of the original rows: reclassification moves no hours |
| `Report.KeyList` | harvest/harvest.py:65 | the group keys are listed once each, exactly the keys that occur |
| `Report.Cleaned` | harvest/harvest.py:58-64 | a row survives cleaning exactly when it is in the data and its client is not one of the four listed names (exact match) |
| `Report.CleanedClients` | harvest/harvest.py:58-64 | the clients after cleaning are exactly the clients present that are not excluded, and a kept client keeps all of its rows |
| `Report.ClientBreakdown` | harvest/harvest.py:65-71 | one row per client of the cleaned data, each holding the Yes, No and total sums of that client's rows, ordered by total descending |
| `Report.ClientTotals` | harvest/harvest.py:66-70 | the `pd.Series` lambda over one client's group; no ensures of its own, its meaning is `Report.ClientRowMeaning` |
| `Report.ByTotalDescending` | harvest/harvest.py:71 | `sort_values("totalHours", ascending=False)` as an order; no ensures of its own, `Report.ClientBreakdown` states that its table is sorted by it |
| `Report.ClientRowMeaning` | harvest/harvest.py:66-70 | a client's billable and non-billable hours are that client's (client, Yes) and (client, No) sums, and its total is that client's sum; Yes + No + Leave ≤ total, so Leave counts only in the total |
| `Report.ByName` | harvest/harvest.py:120 | `sort_values("First Name", ascending=True)` as an order; no ensures of its own, `Report.ByNamePreorder` states that it is a total preorder |
| `Report.ByNamePreorder` | harvest/harvest.py:120 | ordering by First Name is a total preorder |
| `Report.MemberBreakdown` | harvest/harvest.py:111-120 | one row per member, each holding that member's Yes, No and Leave sums, percentages and total, ordered by First Name ascending |
| `Report.MemberTotals` | harvest/harvest.py:112-119 | the `pd.Series` lambda over one member's group; no ensures of its own, its meaning is `Report.MemberRowMeaning` and `Report.MemberShares` |
| `Report.MemberRowMeaning` | harvest/harvest.py:112-118 | a member's columns are the (member, flag) sums; Yes + No + Leave ≤ total, with equality when every flag is Yes, No or Leave |
| `Report.MemberShares` | harvest/harvest.py:116-117 | for a member with hours, the percentages are the Yes and No sums over the total, each lies in [0, 1] and together they are at most 1 |
| `Report.ReportMembersPartition` | harvest/harvest.py:26-28 | on a report built from rows flagged Yes, No or Leave, each member's billable + non-billable + leave equals the member's total |
| `Report.EarliestDate` | harvest/harvest.py:159 | the earliest date is NaT for no rows, and otherwise a date of some row that no row precedes |
| `Report.LatestDate` | harvest/harvest.py:160 | the latest date is NaT for no rows, and otherwise a date of some row that no row follows |
| `Report.CapacityBounds` | harvest/harvest.py:159-163 | upper is 7 times the weekdays from the first to the last date (0 with no rows), lower is 0.8 × upper, and 0 ≤ lower ≤ upper |
| `Report.TaskOrder` | harvest/harvest.py:227 | `sort_values(["Billable?", "Hours"], ascending=[False, False])` as an order; no ensures of its own, `Report.TaskOrderPreorder` states that it is a total preorder |
| `Report.TaskOrderPreorder` | harvest/harvest.py:227 | ordering by Billable? descending, then Hours descending, is a total preorder |
| `Report.TaskDetail` | harvest/harvest.py:226-227 | one row per distinct (Client, Task, Billable?) holding that group's summed hours, ordered by Billable? descending and then Hours descending |
| `Report.TaskFlagsInOrder` | harvest/harvest.py:227 | when every flag is Yes, No or Leave, the Yes rows come first, then the No rows, then the Leave rows |
| `Sorting.SortBy` | harvest/harvest.py:71 | the sorted table is ordered and is a permutation of its input |
| `Sorting.GroupTable` | harvest/harvest.py:65-71 | a grouped table has one row per distinct key, built from that key, with no key twice, in sorted order |

## Left out

- The rendering layer is not modelled. It has no logic of its own:
  - plotly figure construction (`go.Figure`, `add_trace(s)`, `add_shape`, `update_layout`);
  - the Streamlit calls (`st.plotly_chart`, `st.dataframe`);
  - the colour map and `CONFIG`.
- `overall`'s only data step is the group-by on Billable?. It is the same group-by, `GroupSum(rows, Flag)`, applied to the report's reclassified rows, so it is not modelled separately.
- `harvest/visual.py` (chart wrappers), `app.py` (the page, file upload and widget filters) and `harvest/utils.py` (holiday calendar lookups through external libraries) are not part of this model.
- Floating point is not modelled:
  - Hours are exact hundredths, so `round(..., 2)` is the identity and float summation error does not arise.
  - A NaN percentage is `None`.
- Dates are day numbers. In the source, `member_breakdown` takes the minimum and maximum of the Date column as loaded and then converts them with `pd.to_datetime`. The model assumes that column orders like the days it names, as ISO dates do.
- Report.HarvestReport.constructor: on a frame with no rows the source raises at harvest/harvest.py:28. There, `apply(..., axis=1)` returns the whole frame rather than one column, and the assignment to "Billable?" fails. The model builds a report with no rows instead. On it every table is empty, `Report.EarliestDate` and `Report.LatestDate` are NaT, and `Report.CapacityBounds` gives zero bounds without calling `Calendar.CountWeekdays`.
- Report.ClientBreakdown: when no row survives the exclude list, the source's group-by `apply` at harvest/harvest.py:65-70 yields a frame with no `totalHours` column, and the sort at harvest/harvest.py:71 raises. The model returns the empty table instead.
- Pandas internals are not modelled:
  - CSV parsing and dtype coercion;
  - the dropping of missing keys by `groupby` (the model has no missing values);
  - the column layout produced by `reset_index` and `merge`.
- The grouped tables of `Transform` and the member × date pivot of both engines (harvest/transform.py:42-48, harvest/harvest.py:236-242) are maps, so the sorted order pandas gives their keys, rows and columns, which `st.dataframe` shows at harvest/harvest.py:244, is not modelled.
- The model does not fix the order of rows that tie under a `sort_values` key; it states only that each table is ordered by that key. One-key sorts (harvest/harvest.py:71, 120) are not stable in pandas. The two-key sort of `task_detail` (harvest/harvest.py:227) is stable, so its ties keep the group-by's ascending (Client, Task) order. That tie order is not modelled either.
- `Transform` keeps a reference to the caller's DataFrame rather than a copy. Neither engine mutates it, so it is a value here, and aliasing is not modelled.
- `TransformModel.PercentagesSumToOne` requires the member's total to be positive. With a zero total every percentage is NaN, and `TransformModel.MembersMeaning` states that case.
- TransformModel.Ratio: returns None for every zero divisor and does not model the infinity pandas gives a positive part over 0; every caller divides a part by a whole that contains it (`TransformModel.MembersMeaning`, `Rows.KeyHours`), so that case does not arise.
