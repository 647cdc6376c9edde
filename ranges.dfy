/** `_time_ranges_to_dataframe`: the (start, end) pairs a scan collects,
    with the calendar months and days each spans. */
module Ranges {
  import opened Calendar

  /** A (start, end) date pair, as the scans collect them. */
  datatype TimeRange = TimeRange(start: Date, end: Date)

  /** One row of the returned table: the pair and its `total_months` and
      `total_days`. */
  datatype RangeRow = RangeRow(start: Date, end: Date, totalMonths: int, totalDays: int)

  predicate ValidRange(r: TimeRange) {
    ValidDate(r.start) && ValidDate(r.end)
  }

  /** `total_months`: calendar months touched, counting both end months. */
  function TotalMonths(r: TimeRange): (n: int)
    ensures n == MonthIndex(r.end) - MonthIndex(r.start) + 1
  {
    (r.end.year - r.start.year) * 12 + (r.end.month - r.start.month) + 1
  }

  /** `total_days`: the day difference plus one, so both end days count. */
  function TotalDays(r: TimeRange): int
    requires ValidRange(r)
  {
    Ordinal(r.end) - Ordinal(r.start) + 1
  }

  /** `total_days` agrees with the closed-form proleptic Gregorian day
      numbers that date subtraction uses, and a one-day range has one day. */
  lemma TotalDaysIsOrdinalSpan(r: TimeRange)
    requires ValidRange(r)
    ensures TotalDays(r) == ToOrdinal(r.end) - ToOrdinal(r.start) + 1
    ensures r.start == r.end ==> TotalDays(r) == 1
  {
    OrdinalIsToOrdinal(r.start);
    OrdinalIsToOrdinal(r.end);
  }

  /** The table: one row per pair, in the order given (none for no pairs). */
  function TimeRangesToTable(ranges: seq<TimeRange>): (table: seq<RangeRow>)
    requires forall k :: 0 <= k < |ranges| ==> ValidDate(ranges[k].start) && ValidDate(ranges[k].end)
    ensures |table| == |ranges|
    ensures forall k :: 0 <= k < |table| ==> table[k].start == ranges[k].start && table[k].end == ranges[k].end
    ensures forall k :: 0 <= k < |ranges| ==>
      table[k].totalMonths == MonthIndex(ranges[k].end) - MonthIndex(ranges[k].start) + 1 &&
      table[k].totalDays == Ordinal(ranges[k].end) - Ordinal(ranges[k].start) + 1
  {
    seq(|ranges|, k requires 0 <= k < |ranges| =>
      RangeRow(ranges[k].start, ranges[k].end, TotalMonths(ranges[k]), TotalDays(ranges[k])))
  }

  /** The lengths of the months with indices `lo` to `hi`, added up. */
  function MonthDays(lo: int, hi: int): int
    requires MinMonthIndex <= lo && hi < EndMonthIndex
    decreases hi - lo + 1
  {
    if hi < lo then 0 else MonthDays(lo, hi - 1) + GetDaysInMonth(MonthStart(hi))
  }

  /** The range from the first day of month `lo` to the last day of month `hi`. */
  function WholeMonths(lo: int, hi: int): (r: TimeRange)
    requires MinMonthIndex <= lo <= hi < EndMonthIndex
    ensures ValidRange(r)
  {
    TimeRange(MonthStart(lo), LastDayOfMonth(MonthStart(hi)))
  }

  /** A range of whole months spans as many months as it lists. */
  lemma WholeMonthsMonths(lo: int, hi: int)
    requires MinMonthIndex <= lo <= hi < EndMonthIndex
    ensures TotalMonths(WholeMonths(lo, hi)) == hi - lo + 1
  {
  }

  /** A range of whole months spans as many days as its months have. */
  lemma {:induction false} WholeMonthsDays(lo: int, hi: int)
    requires MinMonthIndex <= lo <= hi < EndMonthIndex
    decreases hi - lo
    ensures TotalDays(WholeMonths(lo, hi)) == MonthDays(lo, hi)
  {
    if lo < hi {
      WholeMonthsDays(lo, hi - 1);
      WholeMonthsStep(lo, hi);
    } else {
      OneWholeMonth(lo);
    }
  }

  /** One whole month spans its own length. */
  lemma OneWholeMonth(i: int)
    requires MinMonthIndex <= i < EndMonthIndex
    ensures TotalDays(WholeMonths(i, i)) == GetDaysInMonth(MonthStart(i))
  {
    DaysInMonthIsSpan(MonthStart(i));
    assert FirstDayOfMonth(MonthStart(i)) == MonthStart(i);
  }

  /** Extending a range of whole months by the next month adds that month's length. */
  lemma WholeMonthsStep(lo: int, hi: int)
    requires MinMonthIndex <= lo < hi < EndMonthIndex
    ensures TotalDays(WholeMonths(lo, hi)) == TotalDays(WholeMonths(lo, hi - 1)) + GetDaysInMonth(MonthStart(hi))
  {
    NextMonthFollowsLastDay(MonthStart(hi - 1));
    OneWholeMonth(hi);
  }

  /** A range inside one month spans one month and its day difference plus one. */
  lemma WithinMonthTotals(r: TimeRange)
    requires ValidRange(r) && r.start.year == r.end.year && r.start.month == r.end.month
    ensures TotalMonths(r) == 1
    ensures TotalDays(r) == r.end.day - r.start.day + 1
  {
  }
}
