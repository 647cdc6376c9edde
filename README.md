# og_production_analyzer: the gap-detection core, in Dafny

This project models the core of `og_production_analyzer`: the
`ProductionAnalyzer` class and its module-level calendar helpers. It proves
properties of that model.

The analyzer takes monthly oil and gas production records and builds a monthly
timeline from them. It then scans the timeline for date ranges in which
production falls short, or in which wells are explicitly shut-in.

**Construction.**
- The analyzer stores its column configuration. A single shut-in code is
  turned into a one-element list.
- It snaps every record's date to the first day of its month.
- It adds one zero-valued row for every month from `first_month` to `last_month`.
- It groups the result by month into `prod_df`:
  - oil, gas, and the active and shut-in counts are summed;
  - the active and shut-in flags are OR-ed;
  - days producing takes the largest value and days not producing the
    smallest (only when a days-produced column is configured).
- The model proves that `prod_df` has exactly one row per calendar month from
  `first_month` to `last_month`, ascending, with no month skipped. Each row is
  the fold of that month's records.

**The three scans.** Each walks `prod_df` once. It keeps a running day
counter and a running month counter, and collects (start, end) date pairs.
The pairs become a table with `total_months` and `total_days`.
- `gaps_by_production_threshold` merges maximal runs of months with no well
  at the threshold into one range each. When asked, a shut-in month is not
  a gap.
  - The model proves the ranges are exactly the maximal runs, and that they
    are disjoint and ascending.
  - It proves that the counters at a run's last month equal the range's
    `total_days` and `total_months`.
  - It proves that counting shut-in as producing only narrows the gaps.
- `periods_of_shutin` does the same for shut-in months. Production can
  optionally override shut-in; by default it does when a production column is
  configured. With production considered, every such period lies inside a
  gap found by the production threshold (with `shutin_as_producing` False,
  its default).
- `gaps_by_producing_days` works from the reported days of production and
  takes the worst case for partly producing months:
  - A month that opens a gap is taken to have its non-producing days at its end.
  - A month that closes a gap is taken to have them at its start, and then
    reopens a gap at its end.
  - The model proves the following:
    - every range is a valid date pair;
    - the day counter is the length of the open gap;
    - a gap closed by a partly producing month has as `total_days` the
      counter written for that month; a gap closed by a fully producing month
      has the counter of the month before;
    - the month counter counts only months with no producing day.
  - When no month is partly producing, this scan finds exactly the maximal
    runs of non-producing months.
  - The documented March/April/May example is computed in full: one gap of
    64 days over 3 calendar months, and a second of 24 days.

**Dates.** A date is (year, month, day) with Python's `datetime` year bounds.
Day differences (`(end - start).days`) use a day ordinal defined month by
month. `Calendar.OrdinalIsToOrdinal` proves it equal to the closed formula of
`date.toordinal`.

**Modules and files:**
- `calendar.dfy`: `Calendar`
- `records.dfy`: `Records` (configuration and per-row classification)
- `aggregation.dfy`: `Aggregation` (`_standardize_dates`, `first_month`,
  `last_month`, `group_by_month`)
- `ranges.dfy`: `Ranges` (`_time_ranges_to_dataframe`)
- `runs.dfy`: `Runs` (the scan shared by `gaps_by_production_threshold` and
  `periods_of_shutin`)
- `days_scan.dfy`: `ProducingDaysScan` (`gaps_by_producing_days`)
- `analyzer.dfy`: `Analyzer` (the class)
- `wrappers.dfy`: `Wrappers` (`Option` and `Result`)

**How the scans are written.**
- Each scan is an imperative method whose `while` loop runs the source's loop
  body, one helper method per iteration.
- Each scan is proved equal to a specification function. The properties above
  are lemmas about that function.
- The class's methods call the scans. Their postconditions state:
  - the returned table;
  - that `df` and `prod_df` are unchanged;
  - the columns added under the given headers: days first, then months.

**Where the documentation and the code differ, the model follows the code:**
- `_standardize_dates` adds a zero row for every month in the span, not only
  for the missing months. Its `sort_values` result is discarded, so the table
  is not sorted; `groupby` orders the months anyway.
- In `gaps_by_producing_days` the `total_months` of a returned range counts
  every calendar month from its start to its end, so 3 in the worked example.
  It does not count only the months with zero days of production, as the
  docstring says. Only the running months column counts zero-day months
  (`ProducingDaysScan.MonthsAreZeroStreak`).
- When a partly producing month closes a gap and reopens one, the running
  days value written for it is the closed gap's total, before the counter is
  reset to the new gap's days.

## Model

| member | source | states |
|---|---|---|
| Calendar.GetDaysInMonth | og_production_analyzer/production_analyzer.py:774-783 | a month has 28 to 31 days (the second result of `monthrange`) |
| Calendar.FirstDayOfMonth | og_production_analyzer/production_analyzer.py:759-763 | the result is the first day of the same month |
| Calendar.LastDayOfMonth | og_production_analyzer/production_analyzer.py:766-771 | the result is a valid date in the same month |
| Calendar.FirstDayOfMonthOrdinal | og_production_analyzer/production_analyzer.py:759-763 | `first_day_of_month` moves a date back by its day of the month less one |
| Calendar.LastDayOfMonthIsLast | og_production_analyzer/production_analyzer.py:766-771 | no date of the month is later than `last_day_of_month` |
| Calendar.DaysInMonthIsSpan | og_production_analyzer/production_analyzer.py:766-783 | from the first to the last day of a month, both included, is `get_days_in_month` days |
| Calendar.NextMonthFollowsLastDay | og_production_analyzer/production_analyzer.py:766-771 | the day after a month's last day is the next month's first day |
| Calendar.FirstFollowsLastDay | og_production_analyzer/production_analyzer.py:766-771 | the same, for a first day given by month index |
| Calendar.MonthStart | og_production_analyzer/production_analyzer.py:135-137 | the month-start dates of `date_range(freq='MS')` are first days, one per month index |
| Calendar.OrdinalIsToOrdinal | og_production_analyzer/production_analyzer.py:628 | the month-by-month ordinal used for day differences is `date.toordinal`'s closed formula |
| Calendar.DaysBeforeFormula | og_production_analyzer/production_analyzer.py:628 | days before a month, counted month by month, equal the closed year and month formula |
| Calendar.DaysBeforeNextYear | og_production_analyzer/production_analyzer.py:628 | a year has 366 days when it is a leap year, 365 otherwise |
| Calendar.DateLeMonthIndex | og_production_analyzer/production_analyzer.py:110-119 | an earlier date is never in a later month |
| Records.NormalizeShutinCodes | og_production_analyzer/production_analyzer.py:69-71 | a single code becomes a one-element list; a code is listed iff it was given |
| Records.CheckMinProd | og_production_analyzer/production_analyzer.py:229-241 | 0 for an unconfigured column, a missing cell or a quantity below the minimum; the quantity otherwise |
| Records.RowIsProducing | og_production_analyzer/production_analyzer.py:212-245 | never producing when neither oil nor gas is configured |
| Records.ProducingIffThresholdMet | og_production_analyzer/production_analyzer.py:212-245 | with non-negative quantities, a row is producing iff oil or gas is configured, present, positive and at least its minimum |
| Records.RowIsShutin | og_production_analyzer/production_analyzer.py:247-264 | shut-in iff a status column and codes are configured and the row's status is one of the codes |
| Records.SingleCodeShutin | og_production_analyzer/production_analyzer.py:247-264 | with one code given as a string, shut-in iff the status is exactly that code |
| Records.RowNumUnproducingDays | og_production_analyzer/production_analyzer.py:277-292 | days not producing plus days produced (0 when missing) is the month's length |
| Records.UnproducingDaysNotClamped | og_production_analyzer/production_analyzer.py:277-292 | more days produced than the month has gives a negative count |
| Aggregation.MaxIsGreatest | og_production_analyzer/production_analyzer.py:162-172 | the `max` reduction is an element that no element exceeds |
| Aggregation.MinIsLeast | og_production_analyzer/production_analyzer.py:162-172 | the `min` reduction is an element that exceeds no element |
| Aggregation.AnyTrueIsOr | og_production_analyzer/production_analyzer.py:168-169 | `max` over a boolean column is true iff some cell is true |
| Aggregation.CountTrueIsCount | og_production_analyzer/production_analyzer.py:166-167 | `sum` over a boolean column counts its true cells |
| Aggregation.Summarize | og_production_analyzer/production_analyzer.py:142-178 | a month's fold has oil, gas and the two days fields exactly when their columns are configured |
| Aggregation.SummarizeFields | og_production_analyzer/production_analyzer.py:180-210 | the flags are the OR and the count over the month's rows; days producing is the largest reported and days not producing the smallest |
| Aggregation.InMonth | og_production_analyzer/production_analyzer.py:207 | a `groupby` group holds only rows of its month |
| Aggregation.InMonthComplete | og_production_analyzer/production_analyzer.py:207 | a month's `groupby` group holds every row dated in that month, as many times as the table does, and no other row |
| Aggregation.HasGroupIffInColumn | og_production_analyzer/production_analyzer.py:207 | a month has a non-empty `groupby` group iff some row is dated in that month |
| Aggregation.GroupKeysAreMonths | og_production_analyzer/production_analyzer.py:207-209 | the keys are first days in strictly ascending order, each with rows, and every row's month is a key |
| Aggregation.GroupByMonth | og_production_analyzer/production_analyzer.py:180-210 | one summary per key |
| Aggregation.GroupByMonthRows | og_production_analyzer/production_analyzer.py:180-210 | each row is the fold of exactly its month's rows; months ascend; every record's month has a row |
| Aggregation.MinUnproducingIsComplement | og_production_analyzer/production_analyzer.py:199-204 | within a month, the least days not producing is the month's length less the most days produced |
| Aggregation.EarliestIsLeast | og_production_analyzer/production_analyzer.py:110-113 | the column's `min` is some record's date and no later than any |
| Aggregation.LatestIsGreatest | og_production_analyzer/production_analyzer.py:116-119 | the column's `max` is some record's date and no earlier than any |
| Aggregation.FirstMonth | og_production_analyzer/production_analyzer.py:110-113 | `first_month` is a first day of a month |
| Aggregation.FirstMonthIsLeast | og_production_analyzer/production_analyzer.py:110-113 | `first_month` is the month of some record, and no record is in an earlier month |
| Aggregation.LastMonth | og_production_analyzer/production_analyzer.py:116-119 | `last_month` is a first day of a month |
| Aggregation.LastMonthIsGreatest | og_production_analyzer/production_analyzer.py:116-119 | `last_month` is the month of some record, and no record is in a later month |
| Aggregation.MonthsInOrder | og_production_analyzer/production_analyzer.py:110-119 | `first_month` is no later than `last_month` |
| Aggregation.Stubs | og_production_analyzer/production_analyzer.py:135-137 | one zero row per month of the range |
| Aggregation.StubsAt | og_production_analyzer/production_analyzer.py:135-137 | the `k`-th zero row is for the `k`-th month of the range |
| Aggregation.StandardizeDates | og_production_analyzer/production_analyzer.py:121-140 | every date of the result is the first of its month |
| Aggregation.StandardizedRows | og_production_analyzer/production_analyzer.py:121-140 | the records plus one row per month from `first_month` to `last_month`, all within that span, with every quantity and days cell filled |
| Aggregation.StandardizedMonthSpan | og_production_analyzer/production_analyzer.py:121-140 | the smallest and largest months of the result are `first_month` and `last_month` |
| Aggregation.StandardizedGroup | og_production_analyzer/production_analyzer.py:131-138 | each month's group is its snapped records followed by its zero row |
| Aggregation.StandardizedMonthsPresent | og_production_analyzer/production_analyzer.py:131-138 | every month from `first_month` to `last_month` has a group |
| Aggregation.ProdDfKeys | og_production_analyzer/production_analyzer.py:180-210 | the months of `prod_df` are all the months from `first_month` to `last_month` |
| Aggregation.BuildProdDf | og_production_analyzer/production_analyzer.py:73-74 | `prod_df` has one row per month from `first_month` to `last_month` |
| Aggregation.ProdDfRow | og_production_analyzer/production_analyzer.py:180-210 | row `k` of `prod_df` is the fold of the group of the `k`-th month after `first_month` |
| Aggregation.ProdDfMonths | og_production_analyzer/production_analyzer.py:121-210 | `prod_df` starts at `first_month`, ends at `last_month` and skips no month |
| Aggregation.MaxWithZero | og_production_analyzer/production_analyzer.py:135-138 | a zero row leaves `max` at the larger of 0 and the column's maximum |
| Aggregation.StubbedSummary | og_production_analyzer/production_analyzer.py:135-138 | a month's records with its zero row fold to the month's fold of the records |
| Aggregation.StubRowIsAbsorbed | og_production_analyzer/production_analyzer.py:135-138 | with no negative days reported, the zero row changes no aggregate of the month |
| Aggregation.MonthFoldMeaning | og_production_analyzer/production_analyzer.py:180-210 | a `prod_df` row's flags are the OR and the count over the month's records; days producing is at least 0 and at least each reported value; days not producing is the rest of the month |
| Aggregation.ProdDfMonthFields | og_production_analyzer/production_analyzer.py:121-210 | row `k` of `prod_df` is the month fold of the records of the `k`-th month after `first_month` |
| Aggregation.ProdDfIsProdTable | og_production_analyzer/production_analyzer.py:142-210 | `prod_df` has consecutive months, configured fields only, and days producing plus not producing equal to each month's length |
| Aggregation.MonthFoldWellFormed | og_production_analyzer/production_analyzer.py:199-204 | each month's days producing is at least 0 and adds up with days not producing to the month's length |
| Ranges.TotalMonths | og_production_analyzer/production_analyzer.py:624-627 | `total_months` is the month-index difference plus one |
| Ranges.TotalDaysIsOrdinalSpan | og_production_analyzer/production_analyzer.py:628 | `total_days` is the difference of the two dates' proleptic Gregorian day numbers plus one; a one-day range has one day |
| Ranges.TimeRangesToTable | og_production_analyzer/production_analyzer.py:606-631 | one row per pair in the given order with its start and end, its `total_months` the month-index difference plus one and its `total_days` the day-number difference plus one; no rows for no pairs |
| Ranges.WholeMonthsMonths | og_production_analyzer/production_analyzer.py:624-627 | whole months `lo` to `hi` span `hi - lo + 1` months |
| Ranges.WholeMonthsDays | og_production_analyzer/production_analyzer.py:628 | whole months span the sum of their lengths in days |
| Ranges.OneWholeMonth | og_production_analyzer/production_analyzer.py:628 | one whole month spans its own length |
| Ranges.WithinMonthTotals | og_production_analyzer/production_analyzer.py:624-628 | a range inside one month spans one month and its day difference plus one |
| Runs.GapMonths | og_production_analyzer/production_analyzer.py:341-346 | a month is a gap iff it is not active and not (shut-in configured, shut-in counted as producing, and shut-in) |
| Runs.ShutinMonths | og_production_analyzer/production_analyzer.py:572-577 | a month counts iff it is shut-in and not (production considered and active) |
| Runs.RunsUpToInv | og_production_analyzer/production_analyzer.py:346-359 | after each row the closed runs are maximal and ascending, and the open run is all qualifying up to that row |
| Runs.RunsUpToCovered | og_production_analyzer/production_analyzer.py:346-359 | every qualifying row seen is in a closed run or the open one |
| Runs.RunsAreMaximal | og_production_analyzer/production_analyzer.py:337-365 | the runs are maximal, ascending with a gap between neighbours, and cover every qualifying row |
| Runs.MaximalRunsOverlap | og_production_analyzer/production_analyzer.py:346-357 | two maximal runs that share a row are the same run |
| Runs.MaximalRunIsListed | og_production_analyzer/production_analyzer.py:337-365 | every maximal run of qualifying rows is one of the runs |
| Runs.RunsRefine | og_production_analyzer/production_analyzer.py:346-357 | when fewer rows qualify, each run lies inside a run of the larger selection |
| Runs.MonthlyTableAt | og_production_analyzer/production_analyzer.py:337-340 | row `k` of a contiguous table is the month `k` months after the first row's |
| Runs.StreakDaysSpan | og_production_analyzer/production_analyzer.py:346-359 | inside a run the running days are the lengths of its months so far, and the running months its months so far |
| Runs.RunRange | og_production_analyzer/production_analyzer.py:349-354 | a run's range is a valid date pair |
| Runs.RunRanges | og_production_analyzer/production_analyzer.py:337-365 | one valid range per run |
| Runs.RunRangesAppend | og_production_analyzer/production_analyzer.py:352-354 | appending a run appends its range |
| Runs.RunsInTable | og_production_analyzer/production_analyzer.py:337-365 | every run lies within the table |
| Runs.RunRangeIsWholeMonths | og_production_analyzer/production_analyzer.py:349-354 | a range runs from the first day of its first month to the last day of its last month |
| Runs.MonthsAtRunEnd | og_production_analyzer/production_analyzer.py:346-359 | the running months at a run's last row equal the range's `total_months` |
| Runs.DaysAtRunEnd | og_production_analyzer/production_analyzer.py:346-359 | the running days at a run's last row equal the range's `total_days` |
| Runs.RangesAscend | og_production_analyzer/production_analyzer.py:337-365 | each range ends at least a whole month before the next begins |
| Runs.ScanMonthRow | og_production_analyzer/production_analyzer.py:346-360 | one iteration keeps the loop's variables equal to the run fold's state after one more row |
| Runs.ScanRuns | og_production_analyzer/production_analyzer.py:337-365 | the loop returns the ranges of exactly the maximal runs, and running columns equal to the streak day and month counts of every row |
| Runs.ShutinAsProducingNarrowsGaps | og_production_analyzer/production_analyzer.py:342-346 | every gap found with shut-in counted as producing lies inside a gap found without it |
| Runs.ShutinPeriodsInsideGaps | og_production_analyzer/production_analyzer.py:572-577 | with production considered, every shut-in period lies inside a production-threshold gap found with `shutin_as_producing` False, its default |
| ProducingDaysScan.Adjust | og_production_analyzer/production_analyzer.py:448-463 | the adjusted counts are non-negative producing days adding up with not-producing days to the month's length |
| ProducingDaysScan.AdjustedRows | og_production_analyzer/production_analyzer.py:444-463 | one adjusted row per month of `prod_df` |
| ProducingDaysScan.AdjustedRowsTable | og_production_analyzer/production_analyzer.py:444-463 | the adjusted rows keep consecutive months with valid counts |
| ProducingDaysScan.ShutinMonthFullyProducing | og_production_analyzer/production_analyzer.py:450-457 | a shut-in month counted as producing has no non-producing day |
| ProducingDaysScan.InactiveMonthNotProducing | og_production_analyzer/production_analyzer.py:458-463 | with production considered, a month below the threshold produces on no day |
| ProducingDaysScan.ScanUpTo | og_production_analyzer/production_analyzer.py:444-508 | after `n` rows both running columns have `n` values, and an open gap has a previous last day |
| ProducingDaysScan.DaysScan | og_production_analyzer/production_analyzer.py:444-513 | one running value per row in each column |
| ProducingDaysScan.ScanUpToInv | og_production_analyzer/production_analyzer.py:468-508 | after every row the day counter is the open gap's length up to the previous last day, both counters are 0 with no gap open, and all gaps are valid |
| ProducingDaysScan.StepInv | og_production_analyzer/production_analyzer.py:468-508 | one row keeps that invariant |
| ProducingDaysScan.NextRowFollows | og_production_analyzer/production_analyzer.py:502-508 | a row's first day is the day after the previous row's last day |
| ProducingDaysScan.DaysScanValid | og_production_analyzer/production_analyzer.py:444-513 | every gap is a valid date pair |
| ProducingDaysScan.MonthsAreZeroStreak | og_production_analyzer/production_analyzer.py:469-507 | the running months count consecutive months with no producing day, ending at each row |
| ProducingDaysScan.ZeroDays | og_production_analyzer/production_analyzer.py:469 | a row is selected iff it has no producing day |
| ProducingDaysScan.ClosedGapTotal | og_production_analyzer/production_analyzer.py:468-505 | a gap closes exactly when a producing row meets an open gap; its `total_days` is the running days written for a partly producing closer, or the counter before a fully producing one |
| ProducingDaysScan.FinalGapTotal | og_production_analyzer/production_analyzer.py:510-513 | the gap still open at the end spans the day counter's value |
| ProducingDaysScan.ScanAgreesWithRuns | og_production_analyzer/production_analyzer.py:469-505 | without partly producing months the scan state follows the run fold over zero-day months |
| ProducingDaysScan.PreviousLastDay | og_production_analyzer/production_analyzer.py:508 | after a row the previous last day is that row's last day |
| ProducingDaysScan.WholeMonthGapsAreRuns | og_production_analyzer/production_analyzer.py:444-513 | without partly producing months the gaps are exactly the ranges of the maximal runs of months with no producing day |
| ProducingDaysScan.WorstCaseScan | og_production_analyzer/production_analyzer.py:392-406 | the March/April/May example gives gaps 2021-03-22 to 2021-05-24 and 2021-05-08 to 2021-05-31, running days 10, 40, 64 and running months 0, 1, 0 |
| ProducingDaysScan.WorstCaseTotals | og_production_analyzer/production_analyzer.py:392-406 | those gaps total 64 days over 3 months and 24 days over 1 month |
| ProducingDaysScan.AdjustRow | og_production_analyzer/production_analyzer.py:448-463 | the head of each iteration computes the adjusted counts |
| ProducingDaysScan.ScanDaysRow | og_production_analyzer/production_analyzer.py:468-508 | the loop body computes one step of the scan function |
| ProducingDaysScan.ScanProducingDays | og_production_analyzer/production_analyzer.py:444-513 | the loop returns the scan function's gaps and running columns, all gaps valid |
| Analyzer.AddRunningColumns | og_production_analyzer/production_analyzer.py:367-371 | the days column then the months column are written under their headers when given, the later winning on a shared header; other columns are unchanged |
| Analyzer.ShutinScenarioProdDf | og_production_analyzer/production_analyzer.py:73-74 | the scenario's two-row `prod_df` is the one built from a shut-in mid-January record and a producing mid-February record |
| Analyzer.ShutinScenarioGaps | og_production_analyzer/production_analyzer.py:294-372 | a shut-in January before a producing February is one gap of 1 month and 31 days, and no gap when shut-in counts as producing |
| Analyzer.ProductionAnalyzer.constructor | og_production_analyzer/production_analyzer.py:62-74 | stores the configuration, standardizes `df` and builds `prod_df` from it, with no added columns |
| Analyzer.ProductionAnalyzer.GapsByProductionThreshold | og_production_analyzer/production_analyzer.py:294-372 | returns the table of the maximal gap-month runs and adds the running columns; `df` and `prod_df` are unchanged |
| Analyzer.ProductionAnalyzer.PeriodsOfShutin | og_production_analyzer/production_analyzer.py:522-603 | production is considered by default iff oil or gas is configured; returns the table of the maximal shut-in runs and adds the running columns |
| Analyzer.ProductionAnalyzer.GapsByProducingDays | og_production_analyzer/production_analyzer.py:374-520 | fails with the missing column's key when days produced is not configured, adding nothing; otherwise returns the worst-case gaps and adds the running columns |

## Left out

- `generate_graph` (plotting and file output) and `output_gaps_as_string` (text formatting) are presentation. The report generators, data loaders, configuration loaders and the sample driver are I/O.
- `row_has_any_producing_days` is called by nothing, and its return value contradicts its docstring.
- `configured_fields` is a property nothing in the class reads.
- `is_configured_shutin`, `is_configured_production` and `is_configured_days_produced` are predicates on the configuration in `Records`. They have no contracts of their own.
- Quantities and thresholds are integers, not floating point. Days produced are integers.
- pandas mechanics are modelled as operations on sequences of records with `Option` cells. This covers deep copies, `apply`, `concat`, `fillna(0)`, `groupby().agg` and NaN.
- A status cell that is missing, or filled with 0, is `None`, so it never matches a string code.
- Python's `datetime` is modelled as a (year, month, day) triple in years 1 to 9999. Times of day are not modelled.
- pandas timestamps only reach from September 1677 to April 2262, and `pd.to_datetime` and `pd.date_range` raise an out-of-bounds error outside that span. The model accepts any year from 1 to 9999 and returns a result there.
- `Analyzer.ProductionAnalyzer.GapsByProductionThreshold`: added columns are kept apart from the built-in columns of `prod_df`. A header that names a built-in column (for example `any_active`) replaces that column in pandas, and would change later scans. The model does not capture that.
- `Analyzer.ProductionAnalyzer.PeriodsOfShutin`: the same separation of added and built-in columns applies.
- `Analyzer.ProductionAnalyzer.GapsByProducingDays`: the same separation applies. The `KeyError` is modelled as a `Failure` carrying the missing key.
- `Analyzer.ProductionAnalyzer.constructor`: an empty table, or one without a date column, is outside the model (`requires ValidRecords`). The source does not handle either: a missing date column raises `KeyError`.
