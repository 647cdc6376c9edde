/** The month-by-month scan shared by `gaps_by_production_threshold` and
    `periods_of_shutin`: consecutive qualifying months are merged into one
    (first day, last day) range, and running day and month counters are kept
    for every row. */
module Runs {
  import opened Wrappers
  import opened Calendar
  import opened Records
  import opened Aggregation
  import opened Ranges

  // ---------------------------------------------------------------------
  // Which months qualify.

  /** `gaps_by_production_threshold`: a month is a gap unless it is active, or
      shut-in while shut-in counts as producing (only when shut-in is configured). */
  predicate IsGapMonth(cfg: Config, s: MonthSummary, shutinAsProducing: bool) {
    var isShutin := IsConfiguredShutin(cfg) && shutinAsProducing && s.anyShutin;
    !(s.anyActive || isShutin)
  }

  /** `periods_of_shutin`: a month counts when it is shut-in and not overridden
      by production (production is looked at only when `considerProduction`). */
  predicate IsShutinMonth(s: MonthSummary, considerProduction: bool) {
    var isProducing := considerProduction && s.anyActive;
    s.anyShutin && !isProducing
  }

  function GapMonths(cfg: Config, t: seq<MonthSummary>, shutinAsProducing: bool): (qs: seq<bool>)
    ensures |qs| == |t|
    ensures forall k :: 0 <= k < |t| ==> (qs[k] <==> IsGapMonth(cfg, t[k], shutinAsProducing))
  {
    seq(|t|, k requires 0 <= k < |t| => IsGapMonth(cfg, t[k], shutinAsProducing))
  }

  function ShutinMonths(t: seq<MonthSummary>, considerProduction: bool): (qs: seq<bool>)
    ensures |qs| == |t|
    ensures forall k :: 0 <= k < |t| ==> (qs[k] <==> IsShutinMonth(t[k], considerProduction))
  {
    seq(|t|, k requires 0 <= k < |t| => IsShutinMonth(t[k], considerProduction))
  }

  // ---------------------------------------------------------------------
  // The runs the scan closes, by row index.

  /** Rows `first` to `last` (both included) of the table. */
  datatype Run = Run(first: int, last: int)

  /** The scan after some rows: where the open run started, if one is open,
      and the runs closed so far. */
  datatype RunState = RunState(open: Option<int>, closed: seq<Run>)

  /** The scan's state after the first `n` rows: a qualifying row opens a run
      if none is open; any other row closes the open run at the row before it. */
  function RunsUpTo(qs: seq<bool>, n: int): RunState
    requires 0 <= n <= |qs|
  {
    if n == 0 then RunState(None, [])
    else
      var s := RunsUpTo(qs, n - 1);
      if qs[n - 1] then
        if s.open.None? then RunState(Some(n - 1), s.closed) else s
      else if s.open.Some? then RunState(None, s.closed + [Run(s.open.value, n - 2)])
      else s
  }

  /** All runs, the one still open after the last row closed at that row. */
  function MaximalRuns(qs: seq<bool>): seq<Run> {
    var s := RunsUpTo(qs, |qs|);
    if s.open.Some? then s.closed + [Run(s.open.value, |qs| - 1)] else s.closed
  }

  /** A run of qualifying rows that cannot be extended on either side. */
  predicate MaximalRun(qs: seq<bool>, r: Run) {
    && 0 <= r.first <= r.last < |qs|
    && (forall x :: r.first <= x <= r.last ==> qs[x])
    && (r.first == 0 || !qs[r.first - 1])
    && (r.last == |qs| - 1 || !qs[r.last + 1])
  }

  /** Runs in ascending order with at least one row between neighbours. */
  predicate Separated(runs: seq<Run>) {
    forall k :: 0 < k < |runs| ==> runs[k - 1].last + 1 < runs[k].first
  }

  predicate InSomeRun(runs: seq<Run>, x: int) {
    exists k :: 0 <= k < |runs| && runs[k].first <= x <= runs[k].last
  }

  /** The invariant of the scan after `n` rows. */
  predicate PrefixInv(qs: seq<bool>, n: int, s: RunState)
    requires 0 <= n <= |qs|
  {
    && (forall k :: 0 <= k < |s.closed| ==> MaximalRun(qs, s.closed[k]) && s.closed[k].last + 1 < n)
    && Separated(s.closed)
    && (s.open.None? ==> n == 0 || !qs[n - 1])
    && (s.open.Some? ==> OpenRun(qs, n, s))
  }

  /** The open run: qualifying from its start to the last row seen, not
      extensible to the left, and after every closed run. */
  predicate OpenRun(qs: seq<bool>, n: int, s: RunState)
    requires 0 <= n <= |qs| && s.open.Some?
  {
    var f := s.open.value;
    && 0 <= f < n
    && (forall x :: f <= x < n ==> qs[x])
    && (f == 0 || !qs[f - 1])
    && (|s.closed| > 0 ==> s.closed[|s.closed| - 1].last + 1 < f)
  }

  /** Every qualifying row seen is in a closed run or in the open one. */
  predicate PrefixCovered(qs: seq<bool>, n: int, s: RunState)
    requires 0 <= n <= |qs|
  {
    forall x :: 0 <= x < n && qs[x] ==> InSomeRun(s.closed, x) || (s.open.Some? && s.open.value <= x)
  }

  lemma {:induction false} RunsUpToInv(qs: seq<bool>, n: int)
    requires 0 <= n <= |qs|
    ensures PrefixInv(qs, n, RunsUpTo(qs, n))
  {
    if n > 0 {
      RunsUpToInv(qs, n - 1);
      RunsStepInv(qs, n);
    }
  }

  lemma RunsStepInv(qs: seq<bool>, n: int)
    requires 0 < n <= |qs| && PrefixInv(qs, n - 1, RunsUpTo(qs, n - 1))
    ensures PrefixInv(qs, n, RunsUpTo(qs, n))
  {
    var s := RunsUpTo(qs, n - 1);
    if !qs[n - 1] && s.open.Some? {
      var r := Run(s.open.value, n - 2);
      assert MaximalRun(qs, r);
      var s' := RunsUpTo(qs, n);
      assert s'.closed == s.closed + [r];
      forall k | 0 <= k < |s'.closed| ensures MaximalRun(qs, s'.closed[k]) && s'.closed[k].last + 1 < n {
        if k < |s.closed| {
          assert s'.closed[k] == s.closed[k];
        }
      }
      assert Separated(s'.closed) by {
        forall k | 0 < k < |s'.closed| ensures s'.closed[k - 1].last + 1 < s'.closed[k].first {
          assert s'.closed[k - 1] == s.closed[k - 1];
          if k < |s.closed| {
            assert s'.closed[k] == s.closed[k];
          }
        }
      }
    }
  }

  lemma {:induction false} RunsUpToCovered(qs: seq<bool>, n: int)
    requires 0 <= n <= |qs|
    ensures PrefixCovered(qs, n, RunsUpTo(qs, n))
  {
    if n > 0 {
      RunsUpToCovered(qs, n - 1);
      RunsUpToInv(qs, n - 1);
      var s, s' := RunsUpTo(qs, n - 1), RunsUpTo(qs, n);
      if !qs[n - 1] && s.open.Some? {
        var r := Run(s.open.value, n - 2);
        assert s'.closed == s.closed + [r];
        forall x | 0 <= x < n && qs[x] ensures InSomeRun(s'.closed, x) {
          if InSomeRun(s.closed, x) {
            var k :| 0 <= k < |s.closed| && s.closed[k].first <= x <= s.closed[k].last;
            assert s'.closed[k] == s.closed[k];
          } else {
            assert s'.closed[|s.closed|] == r;
          }
        }
      }
    }
  }

  /** The runs are exactly the maximal runs of qualifying rows: each is
      maximal, they ascend with a non-qualifying row between neighbours, and
      every qualifying row is in one. */
  lemma RunsAreMaximal(qs: seq<bool>)
    ensures forall k :: 0 <= k < |MaximalRuns(qs)| ==> MaximalRun(qs, MaximalRuns(qs)[k])
    ensures Separated(MaximalRuns(qs))
    ensures forall x :: 0 <= x < |qs| && qs[x] ==> InSomeRun(MaximalRuns(qs), x)
  {
    RunsMaximal(qs);
    RunsSeparated(qs);
    RunsCover(qs);
  }

  /** The run left open after the last row, closed there. */
  function FinalRun(qs: seq<bool>): Run
    requires RunsUpTo(qs, |qs|).open.Some?
  {
    Run(RunsUpTo(qs, |qs|).open.value, |qs| - 1)
  }

  /** The run left open after the last row is maximal. */
  lemma FinalRunMaximal(qs: seq<bool>)
    requires RunsUpTo(qs, |qs|).open.Some?
    requires PrefixInv(qs, |qs|, RunsUpTo(qs, |qs|))
    ensures MaximalRun(qs, FinalRun(qs))
  {
    assert OpenRun(qs, |qs|, RunsUpTo(qs, |qs|));
  }

  lemma RunsMaximal(qs: seq<bool>)
    ensures forall k :: 0 <= k < |MaximalRuns(qs)| ==> MaximalRun(qs, MaximalRuns(qs)[k])
  {
    var s := RunsUpTo(qs, |qs|);
    RunsUpToInv(qs, |qs|);
    if s.open.Some? {
      FinalRunMaximal(qs);
      var runs := s.closed + [FinalRun(qs)];
      assert MaximalRuns(qs) == runs;
      forall k | 0 <= k < |runs| ensures MaximalRun(qs, runs[k]) {
        if k < |s.closed| {
          assert runs[k] == s.closed[k];
        }
      }
    }
  }

  lemma RunsSeparated(qs: seq<bool>)
    ensures Separated(MaximalRuns(qs))
  {
    var s := RunsUpTo(qs, |qs|);
    RunsUpToInv(qs, |qs|);
    if s.open.Some? {
      var runs := MaximalRuns(qs);
      forall k | 0 < k < |runs| ensures runs[k - 1].last + 1 < runs[k].first {
        assert runs[k - 1] == s.closed[k - 1];
        if k < |s.closed| {
          assert runs[k] == s.closed[k];
        } else {
          assert runs[k] == FinalRun(qs);
        }
      }
    }
  }

  lemma RunsCover(qs: seq<bool>)
    ensures forall x :: 0 <= x < |qs| && qs[x] ==> InSomeRun(MaximalRuns(qs), x)
  {
    var s := RunsUpTo(qs, |qs|);
    RunsUpToInv(qs, |qs|);
    RunsUpToCovered(qs, |qs|);
    if s.open.Some? {
      var runs := MaximalRuns(qs);
      forall x | 0 <= x < |qs| && qs[x] ensures InSomeRun(runs, x) {
        if InSomeRun(s.closed, x) {
          var k :| 0 <= k < |s.closed| && s.closed[k].first <= x <= s.closed[k].last;
          assert runs[k] == s.closed[k];
        } else {
          assert runs[|s.closed|] == FinalRun(qs);
        }
      }
    }
  }

  /** Two maximal runs that share a row are the same run. */
  lemma MaximalRunsOverlap(qs: seq<bool>, r: Run, r': Run, x: int)
    requires MaximalRun(qs, r) && MaximalRun(qs, r')
    requires r.first <= x <= r.last && r'.first <= x <= r'.last
    ensures r == r'
  {
    if r.first != r'.first || r.last != r'.last {
      assert false;
    }
  }

  /** Conversely, every maximal run of qualifying rows is one of the runs. */
  lemma MaximalRunIsListed(qs: seq<bool>, r: Run)
    requires MaximalRun(qs, r)
    ensures r in MaximalRuns(qs)
  {
    RunsAreMaximal(qs);
    var runs := MaximalRuns(qs);
    assert qs[r.first];
    var k :| 0 <= k < |runs| && runs[k].first <= r.first <= runs[k].last;
    MaximalRunsOverlap(qs, r, runs[k], r.first);
  }

  /** When every row that qualifies under `qs` also qualifies under `qs'`,
      each run of `qs` lies inside a run of `qs'`. */
  lemma RunsRefine(qs: seq<bool>, qs': seq<bool>, r: Run)
    requires |qs| == |qs'| && forall x :: 0 <= x < |qs| && qs[x] ==> qs'[x]
    requires r in MaximalRuns(qs)
    ensures exists r' :: r' in MaximalRuns(qs') && r'.first <= r.first && r.last <= r'.last
  {
    RunsAreMaximal(qs);
    RunsAreMaximal(qs');
    var runs, runs' := MaximalRuns(qs), MaximalRuns(qs');
    var i :| 0 <= i < |runs| && runs[i] == r;
    assert MaximalRun(qs, r);
    assert qs'[r.first];
    var k :| 0 <= k < |runs'| && runs'[k].first <= r.first <= runs'[k].last;
    var r' := runs'[k];
    assert MaximalRun(qs', r');
    if r'.last < r.last {
      assert false;
    }
  }

  // ---------------------------------------------------------------------
  // Running counters.

  /** `months_counter` after row `k`: the qualifying rows ending at `k`. */
  function Streak(qs: seq<bool>, k: int): nat
    requires 0 <= k < |qs|
  {
    if !qs[k] then 0 else if k == 0 then 1 else Streak(qs, k - 1) + 1
  }

  /** `days_counter` after row `k`: the lengths of those rows' months. */
  function StreakDays(t: seq<MonthSummary>, qs: seq<bool>, k: int): int
    requires |qs| == |t| && 0 <= k < |qs|
    requires forall j :: 0 <= j < |t| ==> ValidDate(t[j].month)
  {
    if !qs[k] then 0
    else (if k == 0 then 0 else StreakDays(t, qs, k - 1)) + GetDaysInMonth(t[k].month)
  }

  /** Every row of a contiguous table of first days is the month so many
      months after the first row's. */
  predicate MonthlyTable(t: seq<MonthSummary>) {
    ContiguousMonths(t) && forall k :: 0 <= k < |t| ==> IsFirstOfMonth(t[k].month)
  }

  lemma MonthlyTableAt(t: seq<MonthSummary>, k: int)
    requires MonthlyTable(t) && 0 <= k < |t|
    ensures MinMonthIndex <= MonthIndex(t[0].month) + k < EndMonthIndex
    ensures t[k].month == MonthStart(MonthIndex(t[0].month) + k)
  {
    FirstOfMonthIsMonthStart(t[k].month);
  }

  /** Inside a stretch of qualifying rows, the running days are the lengths
      of the stretch's months so far. */
  lemma {:induction false} StreakDaysSpan(t: seq<MonthSummary>, qs: seq<bool>, i: int, j: int)
    requires MonthlyTable(t) && |qs| == |t| && 0 <= i <= j < |t|
    requires forall x :: i <= x <= j ==> qs[x]
    requires i == 0 || !qs[i - 1]
    decreases j - i
    ensures var base := MonthIndex(t[0].month);
      && MinMonthIndex <= base + i && base + j < EndMonthIndex
      && StreakDays(t, qs, j) == MonthDays(base + i, base + j)
      && Streak(qs, j) == j - i + 1
  {
    StreakSpan(qs, i, j);
    StreakDaysTable(t, qs, i, j);
    TableDaysMonthDays(t, i, j);
  }

  /** The lengths of the months of rows `i` to `j`, added up. */
  function TableDays(t: seq<MonthSummary>, i: int, j: int): int
    requires 0 <= i && j < |t|
    requires forall k :: 0 <= k < |t| ==> ValidDate(t[k].month)
    decreases j - i
  {
    if j < i then 0 else TableDays(t, i, j - 1) + GetDaysInMonth(t[j].month)
  }

  /** Inside a stretch of qualifying rows, the running days add up the
      lengths of the stretch's rows so far. */
  lemma {:induction false} StreakDaysTable(t: seq<MonthSummary>, qs: seq<bool>, i: int, j: int)
    requires |qs| == |t| && 0 <= i <= j < |t|
    requires forall k :: 0 <= k < |t| ==> ValidDate(t[k].month)
    requires forall x :: i <= x <= j ==> qs[x]
    requires i == 0 || !qs[i - 1]
    decreases j - i
    ensures StreakDays(t, qs, j) == TableDays(t, i, j)
  {
    if i < j {
      StreakDaysTable(t, qs, i, j - 1);
    }
  }

  /** In a contiguous table the rows `i` to `j` are the months `base + i` to
      `base + j`. */
  lemma {:induction false} TableDaysMonthDays(t: seq<MonthSummary>, i: int, j: int)
    requires MonthlyTable(t) && 0 <= i <= j < |t|
    decreases j - i
    ensures var base := MonthIndex(t[0].month);
      && MinMonthIndex <= base + i && base + j < EndMonthIndex
      && TableDays(t, i, j) == MonthDays(base + i, base + j)
  {
    MonthlyTableAt(t, j);
    if i < j {
      TableDaysMonthDays(t, i, j - 1);
    }
  }

  /** Inside a stretch of qualifying rows, the running months count the
      stretch's rows so far. */
  lemma {:induction false} StreakSpan(qs: seq<bool>, i: int, j: int)
    requires 0 <= i <= j < |qs|
    requires forall x :: i <= x <= j ==> qs[x]
    requires i == 0 || !qs[i - 1]
    decreases j - i
    ensures Streak(qs, j) == j - i + 1
  {
    if i < j {
      StreakSpan(qs, i, j - 1);
    }
  }

  /** The dates of a run: the first day of its first month to the last day of
      its last month. */
  function RunRange(t: seq<MonthSummary>, r: Run): (range: TimeRange)
    requires 0 <= r.first <= r.last < |t|
    requires forall j :: 0 <= j < |t| ==> ValidDate(t[j].month)
    ensures ValidRange(range)
  {
    TimeRange(t[r.first].month, LastDayOfMonth(t[r.last].month))
  }

  /** The open run, if any, started at one of the first `n` rows. */
  predicate OpenBefore(s: RunState, n: int) {
    s.open.Some? ==> 0 <= s.open.value < n
  }

  predicate RunsWithin(runs: seq<Run>, n: int) {
    forall k :: 0 <= k < |runs| ==> 0 <= runs[k].first <= runs[k].last < n
  }

  function RunRanges(t: seq<MonthSummary>, runs: seq<Run>): (ranges: seq<TimeRange>)
    requires RunsWithin(runs, |t|)
    requires forall j :: 0 <= j < |t| ==> ValidDate(t[j].month)
    ensures |ranges| == |runs|
    ensures forall k :: 0 <= k < |ranges| ==> ValidRange(ranges[k])
  {
    seq(|runs|, k requires 0 <= k < |runs| => RunRange(t, runs[k]))
  }

  lemma RunRangesAppend(t: seq<MonthSummary>, runs: seq<Run>, r: Run)
    requires RunsWithin(runs, |t|) && 0 <= r.first <= r.last < |t|
    requires forall j :: 0 <= j < |t| ==> ValidDate(t[j].month)
    ensures RunsWithin(runs + [r], |t|)
    ensures RunRanges(t, runs + [r]) == RunRanges(t, runs) + [RunRange(t, r)]
  {
    assert forall k :: 0 <= k < |runs| ==> (runs + [r])[k] == runs[k];
  }

  lemma RunsInTable(qs: seq<bool>)
    ensures RunsWithin(MaximalRuns(qs), |qs|)
  {
    RunsAreMaximal(qs);
  }

  /** A run's range is the whole months from its first row's to its last row's. */
  lemma RunRangeIsWholeMonths(t: seq<MonthSummary>, r: Run)
    requires MonthlyTable(t) && 0 <= r.first <= r.last < |t|
    ensures var base := MonthIndex(t[0].month);
      && MinMonthIndex <= base + r.first && base + r.last < EndMonthIndex
      && RunRange(t, r) == WholeMonths(base + r.first, base + r.last)
  {
    MonthlyTableAt(t, r.first);
    MonthlyTableAt(t, r.last);
  }

  /** At the last row of a run the running month counter holds the run's
      `total_months`. */
  lemma MonthsAtRunEnd(t: seq<MonthSummary>, qs: seq<bool>, r: Run)
    requires MonthlyTable(t) && |qs| == |t| && MaximalRun(qs, r)
    ensures TotalMonths(RunRange(t, r)) == Streak(qs, r.last)
  {
    var base := MonthIndex(t[0].month);
    StreakDaysSpan(t, qs, r.first, r.last);
    RunRangeIsWholeMonths(t, r);
    WholeMonthsMonths(base + r.first, base + r.last);
  }

  /** At the last row of a run the running day counter holds the run's
      `total_days`. */
  lemma DaysAtRunEnd(t: seq<MonthSummary>, qs: seq<bool>, r: Run)
    requires MonthlyTable(t) && |qs| == |t| && MaximalRun(qs, r)
    ensures TotalDays(RunRange(t, r)) == StreakDays(t, qs, r.last)
  {
    var base := MonthIndex(t[0].month);
    StreakDaysAtRunEnd(t, qs, r);
    RunRangeIsWholeMonths(t, r);
    WholeMonthsDays(base + r.first, base + r.last);
  }

  /** The running days at the last row of a run add up its months' lengths. */
  lemma StreakDaysAtRunEnd(t: seq<MonthSummary>, qs: seq<bool>, r: Run)
    requires MonthlyTable(t) && |qs| == |t| && MaximalRun(qs, r)
    ensures var base := MonthIndex(t[0].month);
      && MinMonthIndex <= base + r.first && base + r.last < EndMonthIndex
      && StreakDays(t, qs, r.last) == MonthDays(base + r.first, base + r.last)
  {
    StreakDaysSpan(t, qs, r.first, r.last);
  }

  /** The ranges of runs are disjoint and ascending: each ends at least a
      whole month before the next begins. */
  lemma RangesAscend(t: seq<MonthSummary>, qs: seq<bool>, k: int)
    requires MonthlyTable(t) && |qs| == |t|
    requires RunsWithin(MaximalRuns(qs), |t|) && 0 < k < |MaximalRuns(qs)|
    ensures var ranges := RunRanges(t, MaximalRuns(qs));
            MonthIndex(ranges[k - 1].end) + 1 < MonthIndex(ranges[k].start)
  {
    RunsAreMaximal(qs);
    var runs := MaximalRuns(qs);
    var base := MonthIndex(t[0].month);
    MonthlyTableAt(t, runs[k - 1].last);
    MonthlyTableAt(t, runs[k].first);
  }

  // ---------------------------------------------------------------------
  // The scan.

  /** The loop's variables after `k` rows: the ranges of the runs closed so
      far, the first day of the open run, the last day of row `k - 1`, and the
      running counters of every row so far. */
  predicate ScanInv(t: seq<MonthSummary>, qs: seq<bool>, k: int,
                    daysCounter: int, monthsCounter: int, startDate: Option<Date>, previousLastDay: Option<Date>,
                    ranges: seq<TimeRange>, runningDays: seq<int>, runningMonths: seq<int>)
    requires |qs| == |t| && 0 <= k <= |t|
    requires forall j :: 0 <= j < |t| ==> ValidDate(t[j].month)
  {
    var s := RunsUpTo(qs, k);
    && OpenBefore(s, k)
    && RunsWithin(s.closed, |t|)
    && ranges == RunRanges(t, s.closed)
    && startDate == (if s.open.Some? then Some(t[s.open.value].month) else None)
    && previousLastDay == (if k == 0 then None else Some(LastDayOfMonth(t[k - 1].month)))
    && daysCounter == (if k == 0 then 0 else StreakDays(t, qs, k - 1))
    && monthsCounter == (if k == 0 then 0 else Streak(qs, k - 1))
    && |runningDays| == k && |runningMonths| == k
    && (forall j :: 0 <= j < k ==> runningDays[j] == StreakDays(t, qs, j))
    && (forall j :: 0 <= j < k ==> runningMonths[j] == Streak(qs, j))
  }

  /** The body of the loop for row `k`: a qualifying month adds its days and
      opens the range if none is open; any other month closes the open range
      at the last day of the month before and resets the counters. */
  method ScanMonthRow(t: seq<MonthSummary>, qs: seq<bool>, k: int,
                 daysCounter0: int, monthsCounter0: int, startDate0: Option<Date>, previousLastDay0: Option<Date>,
                 ranges0: seq<TimeRange>, runningDays0: seq<int>, runningMonths0: seq<int>)
      returns (daysCounter: int, monthsCounter: int, startDate: Option<Date>, previousLastDay: Option<Date>,
               ranges: seq<TimeRange>, runningDays: seq<int>, runningMonths: seq<int>)
    requires |qs| == |t| && 0 <= k < |t|
    requires forall j :: 0 <= j < |t| ==> ValidDate(t[j].month)
    requires ScanInv(t, qs, k, daysCounter0, monthsCounter0, startDate0, previousLastDay0, ranges0, runningDays0, runningMonths0)
    ensures ScanInv(t, qs, k + 1, daysCounter, monthsCounter, startDate, previousLastDay, ranges, runningDays, runningMonths)
  {
    daysCounter, monthsCounter, startDate, ranges, runningDays, runningMonths :=
      daysCounter0, monthsCounter0, startDate0, ranges0, runningDays0, runningMonths0;
    var firstDay := t[k].month;
    var daysInMonth := GetDaysInMonth(firstDay);
    var lastDay := LastDayOfMonth(firstDay);
    if qs[k] {
      daysCounter := daysCounter + daysInMonth;
      monthsCounter := monthsCounter + 1;
      if startDate.None? {
        startDate := Some(firstDay);
      }
    } else {
      if startDate.Some? {
        var run := Run(RunsUpTo(qs, k).open.value, k - 1);
        RunRangesAppend(t, RunsUpTo(qs, k).closed, run);
        ranges := ranges + [TimeRange(startDate.value, previousLastDay0.value)];
      }
      daysCounter, monthsCounter := 0, 0;
      startDate := None;
    }
    runningDays := runningDays + [daysCounter];
    runningMonths := runningMonths + [monthsCounter];
    previousLastDay := Some(lastDay);
  }

  /** One pass over the table: a qualifying month adds its length and one
      month to the counters and opens a range if none is open; any other month
      closes the open range at the previous month's last day and resets the
      counters. A range still open after the last month is closed there. */
  method ScanRuns(t: seq<MonthSummary>, qs: seq<bool>)
      returns (ranges: seq<TimeRange>, runningDays: seq<int>, runningMonths: seq<int>)
    requires |qs| == |t|
    requires forall j :: 0 <= j < |t| ==> ValidDate(t[j].month)
    ensures RunsWithin(MaximalRuns(qs), |t|)
    ensures ranges == RunRanges(t, MaximalRuns(qs))
    ensures |runningDays| == |t| && |runningMonths| == |t|
    ensures forall k :: 0 <= k < |t| ==> runningDays[k] == StreakDays(t, qs, k)
    ensures forall k :: 0 <= k < |t| ==> runningMonths[k] == Streak(qs, k)
  {
    var daysCounter, monthsCounter := 0, 0;
    var startDate: Option<Date> := None;
    var previousLastDay: Option<Date> := None;
    ranges, runningDays, runningMonths := [], [], [];
    var k := 0;
    while k < |t|
      invariant 0 <= k <= |t|
      invariant ScanInv(t, qs, k, daysCounter, monthsCounter, startDate, previousLastDay, ranges, runningDays, runningMonths)
    {
      daysCounter, monthsCounter, startDate, previousLastDay, ranges, runningDays, runningMonths :=
        ScanMonthRow(t, qs, k, daysCounter, monthsCounter, startDate, previousLastDay, ranges, runningDays, runningMonths);
      k := k + 1;
    }
    if startDate.Some? {
      var run := Run(RunsUpTo(qs, k).open.value, k - 1);
      RunRangesAppend(t, RunsUpTo(qs, k).closed, run);
      ranges := ranges + [TimeRange(startDate.value, previousLastDay.value)];
    }
    RunsInTable(qs);
  }

  // ---------------------------------------------------------------------
  // How the two scans' month tests relate.

  /** Counting shut-in as producing can only remove gap months, so every
      gap found that way lies inside a gap found without it. */
  lemma ShutinAsProducingNarrowsGaps(cfg: Config, t: seq<MonthSummary>, r: Run)
    requires r in MaximalRuns(GapMonths(cfg, t, true))
    ensures exists r' :: r' in MaximalRuns(GapMonths(cfg, t, false)) && r'.first <= r.first && r.last <= r'.last
  {
    RunsRefine(GapMonths(cfg, t, true), GapMonths(cfg, t, false), r);
  }

  /** When production overrides shut-in, every shut-in period lies inside a
      production gap. */
  lemma ShutinPeriodsInsideGaps(cfg: Config, t: seq<MonthSummary>, r: Run)
    requires r in MaximalRuns(ShutinMonths(t, true))
    ensures exists r' :: r' in MaximalRuns(GapMonths(cfg, t, false)) && r'.first <= r.first && r.last <= r'.last
  {
    RunsRefine(ShutinMonths(t, true), GapMonths(cfg, t, false), r);
  }
}
