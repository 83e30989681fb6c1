/**
 * `count_weekdays` (harvest/harvest.py): the number of Mondays to Fridays in
 * an inclusive range of days, whichever order the two ends are given in.
 * A day is its proleptic Gregorian ordinal (`date.toordinal()`), so day 1,
 * 1 January of year 1, is a Monday.
 */
module Calendar {

  /** `date.weekday()`: Monday is 0 and Sunday is 6. */
  function Weekday(day: int): (w: int)
    ensures 0 <= w < 7
  {
    (day + 6) % 7
  }

  predicate IsWeekday(day: int)
  {
    Weekday(day) < 5
  }

  /** The number of weekdays among the days `lo` to `hi`, both included; 0 when `lo > hi`. */
  function Weekdays(lo: int, hi: int): nat
    decreases hi - lo
  {
    if lo > hi then 0 else (if IsWeekday(lo) then 1 else 0) + Weekdays(lo + 1, hi)
  }

  /** The set of weekdays in the range. */
  function WeekdaySet(lo: int, hi: int): set<int>
  {
    set day | lo <= day <= hi && IsWeekday(day)
  }

  /** Counting day by day counts exactly the weekdays in the range. */
  lemma {:induction false} WeekdaysIsSetSize(lo: int, hi: int)
    ensures Weekdays(lo, hi) == |WeekdaySet(lo, hi)|
    decreases hi - lo
  {
    if lo <= hi {
      WeekdaysIsSetSize(lo + 1, hi);
      if IsWeekday(lo) {
        assert WeekdaySet(lo, hi) == {lo} + WeekdaySet(lo + 1, hi);
      } else {
        assert WeekdaySet(lo, hi) == WeekdaySet(lo + 1, hi);
      }
    } else {
      assert WeekdaySet(lo, hi) == {};
    }
  }

  /** A range of days has at most as many weekdays as days. */
  lemma {:induction false} WeekdaysBound(lo: int, hi: int)
    ensures lo <= hi ==> Weekdays(lo, hi) <= hi - lo + 1
    ensures lo > hi ==> Weekdays(lo, hi) == 0
    decreases hi - lo
  {
    if lo <= hi {
      WeekdaysBound(lo + 1, hi);
    }
  }

  /** Counting a range is counting its two halves. */
  lemma {:induction false} WeekdaysSplit(lo: int, mid: int, hi: int)
    requires lo <= mid + 1 && mid <= hi
    ensures Weekdays(lo, hi) == Weekdays(lo, mid) + Weekdays(mid + 1, hi)
    decreases mid - lo
  {
    if lo <= mid {
      WeekdaysSplit(lo + 1, mid, hi);
    }
  }

  /** The day after a Sunday is a Monday; otherwise the weekday moves on by one. */
  lemma NextWeekday(day: int)
    ensures Weekday(day + 1) == if Weekday(day) == 6 then 0 else Weekday(day) + 1
  {
  }

  /** Any seven consecutive days hold exactly five weekdays. */
  lemma OneWeek(lo: int)
    ensures Weekdays(lo, lo + 6) == 5
  {
    NextWeekday(lo);
    NextWeekday(lo + 1);
    NextWeekday(lo + 2);
    NextWeekday(lo + 3);
    NextWeekday(lo + 4);
    NextWeekday(lo + 5);
    WeekdaysSplit(lo, lo, lo + 6);
    WeekdaysSplit(lo + 1, lo + 1, lo + 6);
    WeekdaysSplit(lo + 2, lo + 2, lo + 6);
    WeekdaysSplit(lo + 3, lo + 3, lo + 6);
    WeekdaysSplit(lo + 4, lo + 4, lo + 6);
    WeekdaysSplit(lo + 5, lo + 5, lo + 6);
    assert Weekdays(lo + 6, lo + 6) == if IsWeekday(lo + 6) then 1 else 0;
  }

  /** `weeks` whole weeks hold five weekdays each. */
  lemma {:induction false} WholeWeeks(lo: int, weeks: nat)
    ensures Weekdays(lo, lo + 7 * weeks - 1) == 5 * weeks
    decreases weeks
  {
    if weeks > 0 {
      WholeWeeks(lo + 7, weeks - 1);
      OneWeek(lo);
      WeekdaysSplit(lo, lo + 6, lo + 7 * weeks - 1);
    }
  }

  /**
   * `count_weekdays`: the ends are swapped when the start is later, then
   * the loop walks the range one day at a time and counts the weekdays.
   */
  method CountWeekdays(startDate: int, endDate: int) returns (count: nat)
    ensures startDate <= endDate ==> count == Weekdays(startDate, endDate)
    ensures startDate > endDate ==> count == Weekdays(endDate, startDate)
  {
    var s, e := startDate, endDate;
    if s > e {
      s, e := e, s;
    }
    count := 0;
    var current := s;
    while current <= e
      invariant s <= current <= e + 1
      invariant count + Weekdays(current, e) == Weekdays(s, e)
      decreases e - current
    {
      if Weekday(current) < 5 {
        count := count + 1;
      }
      current := current + 1;
    }
  }

  /** The order of the two ends does not matter. */
  method CountWeekdaysSymmetric(a: int, b: int) returns (ab: nat, ba: nat)
    ensures ab == ba
    ensures a <= b ==> ab <= b - a + 1
    ensures a > b ==> ab <= a - b + 1
  {
    ab := CountWeekdays(a, b);
    ba := CountWeekdays(b, a);
    WeekdaysBound(a, b);
    WeekdaysBound(b, a);
  }
}
