/** Proleptic Gregorian calendar arithmetic: the module-level helpers
    `first_day_of_month`, `last_day_of_month` and `get_days_in_month`, plus
    the day ordinal that Python's `datetime` subtraction is based on. */
module Calendar {

  datatype Date = Date(year: int, month: int, day: int)

  /** The year bounds of Python's `datetime`. */
  const MinYear: int := 1
  const MaxYear: int := 9999

  /** Month indices (12 * year + month - 1) of the first and one past the last
      representable month. */
  const MinMonthIndex: int := 12 * MinYear
  const EndMonthIndex: int := 12 * (MaxYear + 1)

  predicate IsLeapYear(year: int) {
    year % 4 == 0 && (year % 100 != 0 || year % 400 == 0)
  }

  /** Number of days in a month, as the second result of `calendar.monthrange`. */
  function DaysInMonth(year: int, month: int): int
    requires 1 <= month <= 12
  {
    if month == 2 then (if IsLeapYear(year) then 29 else 28)
    else if month == 4 || month == 6 || month == 9 || month == 11 then 30
    else 31
  }

  predicate ValidDate(d: Date) {
    && MinYear <= d.year <= MaxYear
    && 1 <= d.month <= 12
    && 1 <= d.day <= DaysInMonth(d.year, d.month)
  }

  predicate IsFirstOfMonth(d: Date) {
    ValidDate(d) && d.day == 1
  }

  /** `get_days_in_month`: the length of the month `d` falls in. */
  function GetDaysInMonth(d: Date): (n: int)
    requires ValidDate(d)
    ensures 28 <= n <= 31
  {
    DaysInMonth(d.year, d.month)
  }

  /** Chronological order of dates (what `min`/`max` over a date column use). */
  predicate DateLe(a: Date, b: Date) {
    a.year < b.year || (a.year == b.year && (a.month < b.month || (a.month == b.month && a.day <= b.day)))
  }

  /** Calendar months counted from year 0: consecutive months differ by one. */
  function MonthIndex(d: Date): int {
    12 * d.year + d.month - 1
  }

  /** The first day of the month with index `i`. */
  function MonthStart(i: int): (r: Date)
    requires MinMonthIndex <= i < EndMonthIndex
    ensures IsFirstOfMonth(r) && MonthIndex(r) == i
  {
    Date(i / 12, i % 12 + 1, 1)
  }

  /** `first_day_of_month`: the earliest date of `d`'s month. */
  function FirstDayOfMonth(d: Date): (r: Date)
    requires ValidDate(d)
    ensures IsFirstOfMonth(r) && MonthIndex(r) == MonthIndex(d)
  {
    Date(d.year, d.month, 1)
  }

  /** `last_day_of_month`: the latest date of `d`'s month. */
  function LastDayOfMonth(d: Date): (r: Date)
    requires ValidDate(d)
    ensures ValidDate(r) && MonthIndex(r) == MonthIndex(d)
  {
    Date(d.year, d.month, DaysInMonth(d.year, d.month))
  }

  /** Month indices name one (year, month) pair each. */
  lemma SameMonthIndex(a: Date, b: Date)
    requires 1 <= a.month <= 12 && 1 <= b.month <= 12 && MonthIndex(a) == MonthIndex(b)
    ensures a.year == b.year && a.month == b.month
  {
    assert 12 * (a.year - b.year) == b.month - a.month;
  }

  /** Days in the months before month `month` of `year`, counted month by
      month from January of year 1. */
  function DaysBefore(year: int, month: int): int
    requires MinYear <= year && 1 <= month <= 12
    decreases year, month
  {
    if month > 1 then DaysBefore(year, month - 1) + DaysInMonth(year, month - 1)
    else if year > MinYear then DaysBefore(year - 1, 12) + DaysInMonth(year - 1, 12)
    else 0
  }

  /** The proleptic Gregorian ordinal of a date, 0001-01-01 being day 1:
      `(b - a).days == Ordinal(b) - Ordinal(a)`. `OrdinalIsToOrdinal` shows it
      equals the closed formula of Python's `date.toordinal`. */
  function Ordinal(d: Date): int
    requires ValidDate(d)
  {
    DaysBefore(d.year, d.month) + d.day
  }

  /** Inclusive number of days from `start` to `end`. */
  function DaySpan(start: Date, end: Date): int
    requires ValidDate(start) && ValidDate(end)
  {
    Ordinal(end) - Ordinal(start) + 1
  }

  /** Days in the years before `year` (from 0001-01-01), in closed form. */
  function DaysBeforeYear(year: int): int
    requires year >= 1
  {
    var p := year - 1;
    365 * p + p / 4 - p / 100 + p / 400
  }

  /** Days in the months of `year` before `month`. */
  function DaysBeforeMonth(year: int, month: int): int
    requires 1 <= month <= 12
  {
    var cumulative := [0, 31, 59, 90, 120, 151, 181, 212, 243, 273, 304, 334];
    cumulative[month - 1] + (if month > 2 && IsLeapYear(year) then 1 else 0)
  }

  /** Python's `date.toordinal`: days before the year, before the month, plus
      the day. */
  function ToOrdinal(d: Date): int
    requires ValidDate(d)
  {
    DaysBeforeYear(d.year) + DaysBeforeMonth(d.year, d.month) + d.day
  }

  lemma DivStep(n: int)
    requires n >= 1
    ensures n / 4 - (n - 1) / 4 == (if n % 4 == 0 then 1 else 0)
    ensures n / 100 - (n - 1) / 100 == (if n % 100 == 0 then 1 else 0)
    ensures n / 400 - (n - 1) / 400 == (if n % 400 == 0 then 1 else 0)
  {
  }

  lemma DivisibleBy400(n: int)
    requires n % 400 == 0
    ensures n % 100 == 0
  {
    var q := n / 400;
    assert n == 400 * q;
    assert n == 100 * (4 * q) + 0;
  }

  lemma DivisibleBy100(n: int)
    requires n % 100 == 0
    ensures n % 4 == 0
  {
    var q := n / 100;
    assert n == 4 * (25 * q) + 0;
  }

  /** A year has 365 days, 366 when it is a leap year. */
  lemma DaysBeforeNextYear(year: int)
    requires year >= 1
    ensures DaysBeforeYear(year + 1) == DaysBeforeYear(year) + (if IsLeapYear(year) then 366 else 365)
  {
    DivStep(year);
    if year % 400 == 0 {
      DivisibleBy400(year);
      DivisibleBy100(year);
    } else if year % 100 == 0 {
      DivisibleBy100(year);
    }
  }

  /** The closed formula counts the months before month `month` of `year`
      one by one. */
  lemma {:induction false} DaysBeforeFormula(year: int, month: int)
    requires MinYear <= year <= MaxYear && 1 <= month <= 12
    decreases year, month
    ensures DaysBefore(year, month) == DaysBeforeYear(year) + DaysBeforeMonth(year, month)
  {
    if month > 1 {
      DaysBeforeFormula(year, month - 1);
      assert DaysBeforeMonth(year, month) == DaysBeforeMonth(year, month - 1) + DaysInMonth(year, month - 1);
    } else if year > MinYear {
      DaysBeforeFormula(year - 1, 12);
      DaysBeforeNextYear(year - 1);
    }
  }

  /** The month-by-month ordinal is Python's `date.toordinal`. */
  lemma OrdinalIsToOrdinal(d: Date)
    requires ValidDate(d)
    ensures Ordinal(d) == ToOrdinal(d)
  {
    DaysBeforeFormula(d.year, d.month);
  }

  /** The day after the last day of a month is the first day of the next
      month. */
  lemma NextMonthFollowsLastDay(m: Date)
    requires ValidDate(m) && MonthIndex(m) + 1 < EndMonthIndex
    ensures Ordinal(MonthStart(MonthIndex(m) + 1)) == Ordinal(LastDayOfMonth(m)) + 1
  {
    FirstFollowsLastDay(m, MonthStart(MonthIndex(m) + 1));
  }

  /** The same, for a first day given by its month index. */
  lemma FirstFollowsLastDay(m: Date, next: Date)
    requires ValidDate(m) && IsFirstOfMonth(next) && MonthIndex(next) == MonthIndex(m) + 1
    ensures Ordinal(next) == Ordinal(LastDayOfMonth(m)) + 1
  {
    if m.month < 12 {
      SameMonthIndex(next, Date(m.year, m.month + 1, 1));
    } else {
      SameMonthIndex(next, Date(m.year + 1, 1, 1));
    }
  }

  /** Month starts are ordered like their indices. */
  lemma MonthStartInjective(i: int, j: int)
    requires MinMonthIndex <= i < EndMonthIndex && MinMonthIndex <= j < EndMonthIndex
    ensures MonthStart(i) == MonthStart(j) <==> i == j
  {
  }

  /** Chronological order implies month order. */
  lemma DateLeMonthIndex(a: Date, b: Date)
    requires ValidDate(a) && ValidDate(b) && DateLe(a, b)
    ensures MonthIndex(a) <= MonthIndex(b)
  {
  }

  /** `first_day_of_month` moves a date back by its day of the month less one. */
  lemma FirstDayOfMonthOrdinal(d: Date)
    requires ValidDate(d)
    ensures Ordinal(d) - Ordinal(FirstDayOfMonth(d)) == d.day - 1
  {
  }

  /** `last_day_of_month` is no earlier than any date of the same month. */
  lemma LastDayOfMonthIsLast(d: Date, e: Date)
    requires ValidDate(d) && ValidDate(e) && MonthIndex(e) == MonthIndex(d)
    ensures Ordinal(e) <= Ordinal(LastDayOfMonth(d))
  {
    SameMonthIndex(e, d);
  }

  /** `get_days_in_month` counts the days from the first to the last day of the
      month, both included. */
  lemma DaysInMonthIsSpan(d: Date)
    requires ValidDate(d)
    ensures DaySpan(FirstDayOfMonth(d), LastDayOfMonth(d)) == GetDaysInMonth(d)
  {
    FirstDayOfMonthOrdinal(LastDayOfMonth(d));
  }

  /** A first day of a month is the start of its month index. */
  lemma FirstOfMonthIsMonthStart(d: Date)
    requires IsFirstOfMonth(d)
    ensures d == MonthStart(MonthIndex(d))
  {
    SameMonthIndex(d, MonthStart(MonthIndex(d)));
  }
}
