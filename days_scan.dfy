/** `gaps_by_producing_days`: the month-by-month scan over reported days of
    production, taking the worst case for partially producing months. */
module ProducingDaysScan {
  import opened Wrappers
  import opened Calendar
  import opened Records
  import opened Aggregation
  import opened Ranges
  import opened Runs

  // ---------------------------------------------------------------------
  // The days of each row, after the shut-in and threshold adjustments.

  /** A row's first day with the days it counts as producing and not producing. */
  datatype DayCounts = DayCounts(month: Date, producing: int, notProducing: int)

  /** The counts of a row always add up to its month's length. */
  predicate ValidCounts(c: DayCounts) {
    IsFirstOfMonth(c.month) && c.producing >= 0 && c.producing + c.notProducing == GetDaysInMonth(c.month)
  }

  /** Consecutive months, each with valid counts. */
  predicate CountsTable(rows: seq<DayCounts>) {
    && (forall k :: 0 <= k < |rows| ==> ValidCounts(rows[k]))
    && (forall k :: 0 < k < |rows| ==> MonthIndex(rows[k].month) == MonthIndex(rows[k - 1].month) + 1)
  }

  /** The adjustment at the head of each iteration: a shut-in month (when
      shut-in is configured and counts as producing) is fully producing; else,
      when production is considered, a month whose production falls short of
      the threshold is not producing at all; else the reported days stand. */
  function Adjust(cfg: Config, s: MonthSummary, shutinAsProducing: bool, considerProduction: bool): (c: DayCounts)
    requires SummaryWellFormed(cfg, s) && IsConfiguredDaysProduced(cfg)
    ensures ValidCounts(c) && c.month == s.month
  {
    var days := GetDaysInMonth(s.month);
    if IsConfiguredShutin(cfg) && shutinAsProducing && s.anyShutin then DayCounts(s.month, days, 0)
    else if considerProduction && !s.anyActive then DayCounts(s.month, 0, days)
    else DayCounts(s.month, s.daysProducing.value, s.daysNotProducing.value)
  }

  function AdjustedRows(cfg: Config, t: seq<MonthSummary>, shutinAsProducing: bool, considerProduction: bool): (rows: seq<DayCounts>)
    requires ProdTable(cfg, t) && IsConfiguredDaysProduced(cfg)
    ensures |rows| == |t|
    ensures forall k :: 0 <= k < |t| ==> rows[k] == Adjust(cfg, t[k], shutinAsProducing, considerProduction)
  {
    seq(|t|, k requires 0 <= k < |t| => Adjust(cfg, t[k], shutinAsProducing, considerProduction))
  }

  /** The adjusted rows keep the table's consecutive months. */
  lemma AdjustedRowsTable(cfg: Config, t: seq<MonthSummary>, shutinAsProducing: bool, considerProduction: bool)
    requires ProdTable(cfg, t) && IsConfiguredDaysProduced(cfg)
    ensures CountsTable(AdjustedRows(cfg, t, shutinAsProducing, considerProduction))
  {
    var rows := AdjustedRows(cfg, t, shutinAsProducing, considerProduction);
    forall k | 0 < k < |rows|
      ensures MonthIndex(rows[k].month) == MonthIndex(rows[k - 1].month) + 1
    {
      assert MonthIndex(t[k].month) == MonthIndex(t[0].month) + k;
      assert MonthIndex(t[k - 1].month) == MonthIndex(t[0].month) + k - 1;
    }
  }

  /** A shut-in month that counts as producing is never short of a day. */
  lemma ShutinMonthFullyProducing(cfg: Config, s: MonthSummary, considerProduction: bool)
    requires SummaryWellFormed(cfg, s) && IsConfiguredDaysProduced(cfg)
    requires IsConfiguredShutin(cfg) && s.anyShutin
    ensures Adjust(cfg, s, true, considerProduction).notProducing == 0
    ensures Adjust(cfg, s, true, considerProduction).producing == GetDaysInMonth(s.month)
  {
  }

  /** With production considered, a month short of the threshold is a whole
      month of non-production whatever days were reported, unless shut-in
      counts as producing for it. */
  lemma InactiveMonthNotProducing(cfg: Config, s: MonthSummary, shutinAsProducing: bool)
    requires SummaryWellFormed(cfg, s) && IsConfiguredDaysProduced(cfg)
    requires !s.anyActive && !(IsConfiguredShutin(cfg) && shutinAsProducing && s.anyShutin)
    ensures Adjust(cfg, s, shutinAsProducing, true).producing == 0
    ensures Adjust(cfg, s, shutinAsProducing, true).notProducing == GetDaysInMonth(s.month)
  {
  }

  // ---------------------------------------------------------------------
  // The scan.

  /** The loop's variables: `days_counter`, `months_counter`, `gap_start_date`,
      `previous_last_day`, the gaps found and the two running columns. */
  datatype DaysState = DaysState(
    days: int,
    months: int,
    start: Option<Date>,
    prevLast: Option<Date>,
    gaps: seq<TimeRange>,
    runningDays: seq<int>,
    runningMonths: seq<int>)

  const Initial: DaysState := DaysState(0, 0, None, None, [], [], [])

  /** One iteration. A month without a producing day extends (or opens) the
      gap; a partly producing month is taken to have its non-producing days at
      its end when it opens a gap, and at its start when it closes one, in
      which case it also reopens a gap at its end; a fully producing month
      closes the gap at the last day of the month before. */
  function Step(st: DaysState, c: DayCounts): DaysState
    requires ValidCounts(c) && (st.start.Some? ==> st.prevLast.Some?)
  {
    var first := c.month;
    var last := LastDayOfMonth(first);
    var days := st.days + c.notProducing;
    if c.producing == 0 then
      var start := if st.start.None? then Some(c.month) else st.start;
      DaysState(days, st.months + 1, start, Some(last), st.gaps,
                st.runningDays + [days], st.runningMonths + [st.months + 1])
    else if c.notProducing > 0 then
      var reopen := Date(last.year, last.month, last.day - (c.notProducing - 1));
      if st.start.None? then
        DaysState(days, st.months, Some(reopen), Some(last), st.gaps,
                  st.runningDays + [days], st.runningMonths + [st.months])
      else
        var gap := TimeRange(st.start.value, Date(first.year, first.month, first.day + (c.notProducing - 1)));
        DaysState(c.notProducing, 0, Some(reopen), Some(last), st.gaps + [gap],
                  st.runningDays + [days], st.runningMonths + [0])
    else
      var gaps := if st.start.Some? then st.gaps + [TimeRange(st.start.value, st.prevLast.value)] else st.gaps;
      DaysState(0, 0, None, Some(last), gaps, st.runningDays + [0], st.runningMonths + [0])
  }

  /** The state after the first `n` rows. */
  function ScanUpTo(rows: seq<DayCounts>, n: int): (st: DaysState)
    requires CountsTable(rows) && 0 <= n <= |rows|
    ensures |st.runningDays| == n && |st.runningMonths| == n
    ensures st.start.Some? ==> st.prevLast.Some?
  {
    if n == 0 then Initial else Step(ScanUpTo(rows, n - 1), rows[n - 1])
  }

  /** The state after every row, the gap still open closed at the last row's
      last day. */
  function DaysScan(rows: seq<DayCounts>): (st: DaysState)
    requires CountsTable(rows)
    ensures |st.runningDays| == |rows| && |st.runningMonths| == |rows|
  {
    var st := ScanUpTo(rows, |rows|);
    if st.start.Some? then st.(gaps := st.gaps + [TimeRange(st.start.value, st.prevLast.value)]) else st
  }

  // ---------------------------------------------------------------------
  // What the scan keeps.

  predicate ValidRanges(ranges: seq<TimeRange>) {
    forall k :: 0 <= k < |ranges| ==> ValidRange(ranges[k])
  }

  /** After `n` rows: the previous last day is the last day of row `n - 1`;
      with no gap open both counters are zero; with a gap open the day counter
      is the number of days from the gap's start to that previous last day;
      every gap is a pair of valid dates. */
  predicate DaysScanInv(rows: seq<DayCounts>, n: int, st: DaysState)
    requires CountsTable(rows) && 0 <= n <= |rows|
  {
    && (if n == 0 then st.prevLast.None? else st.prevLast == Some(LastDayOfMonth(rows[n - 1].month)))
    && (st.start.None? ==> st.days == 0 && st.months == 0)
    && (st.start.Some? ==>
          st.prevLast.Some? && ValidDate(st.start.value) && st.days == DaySpan(st.start.value, st.prevLast.value))
    && ValidRanges(st.gaps)
  }

  lemma {:induction false} ScanUpToInv(rows: seq<DayCounts>, n: int)
    requires CountsTable(rows) && 0 <= n <= |rows|
    ensures DaysScanInv(rows, n, ScanUpTo(rows, n))
  {
    if n > 0 {
      ScanUpToInv(rows, n - 1);
      StepInv(rows, n);
    }
  }

  lemma StepInv(rows: seq<DayCounts>, n: int)
    requires CountsTable(rows) && 0 < n <= |rows|
    requires DaysScanInv(rows, n - 1, ScanUpTo(rows, n - 1))
    ensures DaysScanInv(rows, n, ScanUpTo(rows, n))
  {
    var st := ScanUpTo(rows, n - 1);
    var c := rows[n - 1];
    assert ValidCounts(c);
    if st.start.Some? {
      NextRowFollows(rows, n - 1);
    }
  }

  /** The first day of a row is the day after the last day of the row before. */
  lemma NextRowFollows(rows: seq<DayCounts>, k: int)
    requires CountsTable(rows) && 0 < k < |rows|
    ensures Ordinal(rows[k].month) == Ordinal(LastDayOfMonth(rows[k - 1].month)) + 1
  {
    assert ValidCounts(rows[k - 1]) && ValidCounts(rows[k]);
    FirstFollowsLastDay(rows[k - 1].month, rows[k].month);
  }

  /** Every gap of the result is a pair of valid dates. */
  lemma DaysScanValid(rows: seq<DayCounts>)
    requires CountsTable(rows)
    ensures ValidRanges(DaysScan(rows).gaps)
  {
    ScanUpToInv(rows, |rows|);
  }

  /** The running month counter is the number of consecutive rows without a
      producing day ending at that row: only months with exactly zero days of
      production are counted. */
  lemma {:induction false} MonthsAreZeroStreak(rows: seq<DayCounts>, n: int)
    requires CountsTable(rows) && 0 <= n <= |rows|
    ensures var st := ScanUpTo(rows, n);
      && (n > 0 ==> st.months == Streak(ZeroDays(rows), n - 1))
      && forall k :: 0 <= k < n ==> st.runningMonths[k] == Streak(ZeroDays(rows), k)
  {
    if n > 0 {
      MonthsAreZeroStreak(rows, n - 1);
      NoGapNoCounters(rows, n - 1);
      var st, st' := ScanUpTo(rows, n - 1), ScanUpTo(rows, n);
      StepMonths(st, rows[n - 1]);
      forall k | 0 <= k < n - 1 ensures st'.runningMonths[k] == st.runningMonths[k] {
      }
    }
  }

  /** One row adds one to the month counter when it has no producing day and
      resets it otherwise, and writes the new value to the running column. */
  lemma StepMonths(st: DaysState, c: DayCounts)
    requires ValidCounts(c) && (st.start.Some? ==> st.prevLast.Some?)
    requires st.start.None? ==> st.months == 0
    ensures Step(st, c).months == if c.producing == 0 then st.months + 1 else 0
    ensures Step(st, c).runningMonths == st.runningMonths + [Step(st, c).months]
  {
  }

  /** With no gap open both counters are 0. */
  lemma NoGapNoCounters(rows: seq<DayCounts>, n: int)
    requires CountsTable(rows) && 0 <= n <= |rows|
    ensures var st := ScanUpTo(rows, n);
      st.start.None? ==> st.days == 0 && st.months == 0
  {
    if n > 0 {
      assert ValidCounts(rows[n - 1]);
    }
  }

  /** Which rows have no producing day. */
  function ZeroDays(rows: seq<DayCounts>): (qs: seq<bool>)
    ensures |qs| == |rows|
    ensures forall k :: 0 <= k < |rows| ==> (qs[k] <==> rows[k].producing == 0)
  {
    seq(|rows|, k requires 0 <= k < |rows| => rows[k].producing == 0)
  }

  /** A gap closed at row `n - 1` spans as many days as the day counter holds
      when it closes: the counter plus the row's non-producing days when a
      partly producing row closes it (the value written to the running days
      column for that row), the counter alone when a fully producing row does. */
  lemma ClosedGapTotal(rows: seq<DayCounts>, n: int)
    requires CountsTable(rows) && 0 < n <= |rows|
    ensures var st, st' := ScanUpTo(rows, n - 1), ScanUpTo(rows, n);
      var closes := st.start.Some? && rows[n - 1].producing != 0;
      && |st'.gaps| == |st.gaps| + (if closes then 1 else 0)
      && ValidRanges(st'.gaps)
      && (closes ==>
            TotalDays(st'.gaps[|st.gaps|]) ==
            (if rows[n - 1].notProducing > 0 then st'.runningDays[n - 1] else st.days))
  {
    ScanUpToInv(rows, n - 1);
    ScanUpToInv(rows, n);
    var st := ScanUpTo(rows, n - 1);
    var c := rows[n - 1];
    assert ValidCounts(c);
    if st.start.Some? && c.producing != 0 && c.notProducing > 0 {
      NextRowFollows(rows, n - 1);
    }
  }

  /** The gap still open after the last row spans as many days as the day
      counter holds. */
  lemma FinalGapTotal(rows: seq<DayCounts>)
    requires CountsTable(rows)
    ensures var st := ScanUpTo(rows, |rows|);
      && ValidRanges(DaysScan(rows).gaps)
      && (st.start.Some? ==> TotalDays(DaysScan(rows).gaps[|st.gaps|]) == st.days)
  {
    ScanUpToInv(rows, |rows|);
  }

  // ---------------------------------------------------------------------
  // Whole months: the same gaps as the month-by-month scan.

  /** No row is partly producing. */
  predicate WholeMonthsOnly(rows: seq<DayCounts>) {
    forall k :: 0 <= k < |rows| ==> rows[k].producing == 0 || rows[k].notProducing <= 0
  }

  /** The rows carry the table's months. */
  predicate SameMonths(t: seq<MonthSummary>, rows: seq<DayCounts>) {
    |rows| == |t| && forall k :: 0 <= k < |t| ==> rows[k].month == t[k].month
  }

  /** The scan state matches the run fold on the zero-day rows: the gap open
      starts at the open run's first month, and the gaps are the closed runs'
      ranges. */
  predicate AgreesWithRuns(t: seq<MonthSummary>, rows: seq<DayCounts>, n: int, st: DaysState)
    requires SameMonths(t, rows) && CountsTable(rows) && 0 <= n <= |rows|
  {
    var rs := RunsUpTo(ZeroDays(rows), n);
    && OpenBefore(rs, n)
    && RunsWithin(rs.closed, |t|)
    && st.start == (if rs.open.Some? then Some(t[rs.open.value].month) else None)
    && st.gaps == RunRanges(t, rs.closed)
  }

  lemma {:induction false} ScanAgreesWithRuns(t: seq<MonthSummary>, rows: seq<DayCounts>, n: int)
    requires SameMonths(t, rows) && CountsTable(rows) && WholeMonthsOnly(rows) && 0 <= n <= |rows|
    ensures AgreesWithRuns(t, rows, n, ScanUpTo(rows, n))
  {
    if n > 0 {
      ScanAgreesWithRuns(t, rows, n - 1);
      AgreeStep(t, rows, n);
    }
  }

  lemma AgreeStep(t: seq<MonthSummary>, rows: seq<DayCounts>, n: int)
    requires SameMonths(t, rows) && CountsTable(rows) && WholeMonthsOnly(rows) && 0 < n <= |rows|
    requires AgreesWithRuns(t, rows, n - 1, ScanUpTo(rows, n - 1))
    ensures AgreesWithRuns(t, rows, n, ScanUpTo(rows, n))
  {
    if rows[n - 1].producing == 0 {
      AgreeZeroRow(t, rows, n);
    } else {
      AgreeProducingRow(t, rows, n);
    }
  }

  /** A row without a producing day opens the run, or extends it. */
  lemma AgreeZeroRow(t: seq<MonthSummary>, rows: seq<DayCounts>, n: int)
    requires SameMonths(t, rows) && CountsTable(rows) && 0 < n <= |rows| && rows[n - 1].producing == 0
    requires AgreesWithRuns(t, rows, n - 1, ScanUpTo(rows, n - 1))
    ensures AgreesWithRuns(t, rows, n, ScanUpTo(rows, n))
  {
    assert ValidCounts(rows[n - 1]);
    assert ZeroDays(rows)[n - 1];
  }

  /** A fully producing row closes the run, at the last day of the row before. */
  lemma AgreeProducingRow(t: seq<MonthSummary>, rows: seq<DayCounts>, n: int)
    requires SameMonths(t, rows) && CountsTable(rows) && 0 < n <= |rows|
    requires rows[n - 1].producing != 0 && rows[n - 1].notProducing <= 0
    requires AgreesWithRuns(t, rows, n - 1, ScanUpTo(rows, n - 1))
    ensures AgreesWithRuns(t, rows, n, ScanUpTo(rows, n))
  {
    var qs := ZeroDays(rows);
    var rs := RunsUpTo(qs, n - 1);
    var st := ScanUpTo(rows, n - 1);
    assert ValidCounts(rows[n - 1]);
    assert !qs[n - 1];
    if rs.open.Some? {
      var run := Run(rs.open.value, n - 2);
      PreviousLastDay(rows, n - 1);
      assert st.prevLast == Some(LastDayOfMonth(t[n - 2].month));
      assert RunsUpTo(qs, n).closed == rs.closed + [run];
      assert ScanUpTo(rows, n).gaps == st.gaps + [RunRange(t, run)];
      RunRangesAppend(t, rs.closed, run);
    }
  }

  /** After `n > 0` rows the previous last day is the last day of row `n - 1`. */
  lemma PreviousLastDay(rows: seq<DayCounts>, n: int)
    requires CountsTable(rows) && 0 < n <= |rows|
    ensures ScanUpTo(rows, n).prevLast == Some(LastDayOfMonth(rows[n - 1].month))
  {
    assert ValidCounts(rows[n - 1]);
  }

  /** When no month is partly producing, `gaps_by_producing_days` finds exactly
      the ranges of the maximal runs of months without a producing day. */
  lemma WholeMonthGapsAreRuns(t: seq<MonthSummary>, rows: seq<DayCounts>)
    requires SameMonths(t, rows) && CountsTable(rows) && WholeMonthsOnly(rows)
    ensures RunsWithin(MaximalRuns(ZeroDays(rows)), |t|)
    ensures DaysScan(rows).gaps == RunRanges(t, MaximalRuns(ZeroDays(rows)))
  {
    var n := |rows|;
    ScanAgreesWithRuns(t, rows, n);
    var rs := RunsUpTo(ZeroDays(rows), n);
    RunsInTable(ZeroDays(rows));
    if rs.open.Some? {
      PreviousLastDay(rows, n);
      RunRangesAppend(t, rs.closed, Run(rs.open.value, n - 1));
    }
  }

  // ---------------------------------------------------------------------
  // The worst case of the method's own description.

  /** March 2021 with 21 producing days, April with none and May with 7. */
  const WorstCaseRows: seq<DayCounts> :=
    [DayCounts(Date(2021, 3, 1), 21, 10), DayCounts(Date(2021, 4, 1), 0, 30), DayCounts(Date(2021, 5, 1), 7, 24)]

  /** The scan of those rows: one gap from March 22 to May 24, and May's 24
      non-producing days reported again as a gap at the end of May. The running
      day counter reaches 64 in May; the running month counter counts April
      alone. */
  lemma WorstCaseScan()
    ensures CountsTable(WorstCaseRows)
    ensures DaysScan(WorstCaseRows).gaps == [TimeRange(Date(2021, 3, 22), Date(2021, 5, 24)),
                                             TimeRange(Date(2021, 5, 8), Date(2021, 5, 31))]
    ensures DaysScan(WorstCaseRows).runningDays == [10, 40, 64]
    ensures DaysScan(WorstCaseRows).runningMonths == [0, 1, 0]
  {
    var rows := WorstCaseRows;
    WorstCaseMonths();
    assert ScanUpTo(rows, 1) == Step(Initial, rows[0]);
    assert ScanUpTo(rows, 2) == Step(ScanUpTo(rows, 1), rows[1]);
  }

  /** The state after March, after April and after May. */
  lemma WorstCaseMonths()
    ensures CountsTable(WorstCaseRows)
    ensures Step(Initial, WorstCaseRows[0])
            == DaysState(10, 0, Some(Date(2021, 3, 22)), Some(Date(2021, 3, 31)), [], [10], [0])
    ensures Step(DaysState(10, 0, Some(Date(2021, 3, 22)), Some(Date(2021, 3, 31)), [], [10], [0]), WorstCaseRows[1])
            == DaysState(40, 1, Some(Date(2021, 3, 22)), Some(Date(2021, 4, 30)), [], [10, 40], [0, 1])
    ensures Step(DaysState(40, 1, Some(Date(2021, 3, 22)), Some(Date(2021, 4, 30)), [], [10, 40], [0, 1]), WorstCaseRows[2])
            == DaysState(24, 0, Some(Date(2021, 5, 8)), Some(Date(2021, 5, 31)),
                         [TimeRange(Date(2021, 3, 22), Date(2021, 5, 24))], [10, 40, 64], [0, 1, 0])
  {
    var rows := WorstCaseRows;
    assert ValidCounts(rows[0]) && ValidCounts(rows[1]) && ValidCounts(rows[2]);
  }

  /** Those gaps in the returned table: 64 days (10 in March, 30 in April, 24
      in May) over 3 calendar months, then 24 days in 1 month. */
  lemma WorstCaseTotals()
    ensures var first := TimeRange(Date(2021, 3, 22), Date(2021, 5, 24));
      ValidRange(first) && TotalDays(first) == 64 && TotalMonths(first) == 3
    ensures var second := TimeRange(Date(2021, 5, 8), Date(2021, 5, 31));
      ValidRange(second) && TotalDays(second) == 24 && TotalMonths(second) == 1
  {
    assert DaysBefore(2021, 5) == DaysBefore(2021, 3) + 31 + 30;
  }

  // ---------------------------------------------------------------------
  // The loop.

  /** The head of each iteration: the row's days, overridden for a shut-in
      month counted as producing or a month short of the threshold. */
  method AdjustRow(cfg: Config, s: MonthSummary, shutinAsProducing: bool, considerProduction: bool)
      returns (daysProducing: int, daysNotProducing: int)
    requires SummaryWellFormed(cfg, s) && IsConfiguredDaysProduced(cfg)
    ensures DayCounts(s.month, daysProducing, daysNotProducing) == Adjust(cfg, s, shutinAsProducing, considerProduction)
  {
    var daysInMonth := GetDaysInMonth(s.month);
    daysProducing := s.daysProducing.value;
    daysNotProducing := s.daysNotProducing.value;
    var isShutin := false;
    if IsConfiguredShutin(cfg) {
      isShutin := shutinAsProducing && s.anyShutin;
    }
    if isShutin {
      daysProducing, daysNotProducing := daysInMonth, 0;
    } else if considerProduction {
      if !s.anyActive {
        daysProducing, daysNotProducing := 0, daysInMonth;
      }
    }
  }

  /** The body of the loop for one row, after the adjustment: the new values
      of the loop's variables. */
  method ScanDaysRow(firstDay: Date, daysProducing: int, daysNotProducing: int,
                 daysCounter0: int, monthsCounter0: int, gapStartDate0: Option<Date>, previousLastDay0: Option<Date>,
                 gaps0: seq<TimeRange>, runningDays0: seq<int>, runningMonths0: seq<int>)
      returns (daysCounter: int, monthsCounter: int, gapStartDate: Option<Date>, previousLastDay: Option<Date>,
               gaps: seq<TimeRange>, runningDays: seq<int>, runningMonths: seq<int>)
    requires ValidCounts(DayCounts(firstDay, daysProducing, daysNotProducing))
    requires gapStartDate0.Some? ==> previousLastDay0.Some?
    ensures DaysState(daysCounter, monthsCounter, gapStartDate, previousLastDay, gaps, runningDays, runningMonths)
         == Step(DaysState(daysCounter0, monthsCounter0, gapStartDate0, previousLastDay0, gaps0, runningDays0, runningMonths0),
                 DayCounts(firstDay, daysProducing, daysNotProducing))
  {
    daysCounter, monthsCounter, gapStartDate, gaps, runningDays, runningMonths :=
      daysCounter0, monthsCounter0, gapStartDate0, gaps0, runningDays0, runningMonths0;
    var lastDay := LastDayOfMonth(firstDay);
    daysCounter := daysCounter + daysNotProducing;
    if daysProducing == 0 {
      runningDays := runningDays + [daysCounter];
      monthsCounter := monthsCounter + 1;
      if gapStartDate.None? {
        gapStartDate := Some(firstDay);
      }
    } else if daysNotProducing > 0 {
      runningDays := runningDays + [daysCounter];
      if gapStartDate.None? {
        gapStartDate := Some(Date(lastDay.year, lastDay.month, lastDay.day - (daysNotProducing - 1)));
      } else {
        var gapEndDate := Date(firstDay.year, firstDay.month, firstDay.day + (daysNotProducing - 1));
        gaps := gaps + [TimeRange(gapStartDate.value, gapEndDate)];
        monthsCounter := 0;
        daysCounter := daysNotProducing;
        gapStartDate := Some(Date(lastDay.year, lastDay.month, lastDay.day - (daysNotProducing - 1)));
      }
    } else {
      daysCounter, monthsCounter := 0, 0;
      runningDays := runningDays + [daysCounter];
      if gapStartDate.Some? {
        gaps := gaps + [TimeRange(gapStartDate.value, previousLastDay0.value)];
      }
      gapStartDate := None;
    }
    runningMonths := runningMonths + [monthsCounter];
    previousLastDay := Some(lastDay);
  }

  /** `gaps_by_producing_days` over `prod_df` (with days produced configured):
      the gaps and both running columns, row by row. */
  method ScanProducingDays(cfg: Config, t: seq<MonthSummary>, shutinAsProducing: bool, considerProduction: bool)
      returns (gaps: seq<TimeRange>, runningDays: seq<int>, runningMonths: seq<int>)
    requires ProdTable(cfg, t) && IsConfiguredDaysProduced(cfg)
    ensures CountsTable(AdjustedRows(cfg, t, shutinAsProducing, considerProduction))
    ensures var result := DaysScan(AdjustedRows(cfg, t, shutinAsProducing, considerProduction));
      && gaps == result.gaps && runningDays == result.runningDays && runningMonths == result.runningMonths
    ensures ValidRanges(gaps)
  {
    ghost var rows := AdjustedRows(cfg, t, shutinAsProducing, considerProduction);
    AdjustedRowsTable(cfg, t, shutinAsProducing, considerProduction);
    var daysCounter, monthsCounter := 0, 0;
    var gapStartDate: Option<Date> := None;
    var previousLastDay: Option<Date> := None;
    gaps, runningDays, runningMonths := [], [], [];
    var k := 0;
    while k < |t|
      invariant 0 <= k <= |t|
      invariant ScanUpTo(rows, k) == DaysState(daysCounter, monthsCounter, gapStartDate, previousLastDay, gaps, runningDays, runningMonths)
    {
      var daysProducing, daysNotProducing := AdjustRow(cfg, t[k], shutinAsProducing, considerProduction);
      assert DayCounts(t[k].month, daysProducing, daysNotProducing) == rows[k];
      daysCounter, monthsCounter, gapStartDate, previousLastDay, gaps, runningDays, runningMonths :=
        ScanDaysRow(t[k].month, daysProducing, daysNotProducing,
                daysCounter, monthsCounter, gapStartDate, previousLastDay, gaps, runningDays, runningMonths);
      k := k + 1;
    }
    if gapStartDate.Some? {
      gaps := gaps + [TimeRange(gapStartDate.value, previousLastDay.value)];
    }
    DaysScanValid(rows);
  }
}
