/** The `ProductionAnalyzer` object: it keeps the standardized production table
    `df` and the monthly table `prod_df`, and each scan may add its running-days
    and running-months columns to `prod_df`. */
module Analyzer {
  import opened Wrappers
  import opened Calendar
  import opened Records
  import opened Aggregation
  import opened Ranges
  import opened Runs
  import opened ProducingDaysScan

  /** The columns a scan adds to `prod_df`: the running days under `newDaysCol`,
      then the running months under `newMonthsCol`, each only when a header is
      given; a header already present is overwritten, so when both headers are
      the same the months win. */
  function AddRunningColumns(
    cols: map<string, seq<int>>,
    newDaysCol: Option<string>, days: seq<int>,
    newMonthsCol: Option<string>, months: seq<int>): (r: map<string, seq<int>>)
    ensures forall name :: name in r <==> (name in cols || Some(name) == newDaysCol || Some(name) == newMonthsCol)
    ensures newMonthsCol.Some? ==> r[newMonthsCol.value] == months
    ensures newDaysCol.Some? && newDaysCol != newMonthsCol ==> r[newDaysCol.value] == days
    ensures forall name :: name in cols && Some(name) != newDaysCol && Some(name) != newMonthsCol ==>
              r[name] == cols[name]
  {
    var withDays := if newDaysCol.Some? then cols[newDaysCol.value := days] else cols;
    if newMonthsCol.Some? then withDays[newMonthsCol.value := months] else withDays
  }

  /** The running-days column of a scan over the months selected by `qs`. */
  function StreakDaysColumn(t: seq<MonthSummary>, qs: seq<bool>): seq<int>
    requires |qs| == |t| && forall j :: 0 <= j < |t| ==> ValidDate(t[j].month)
  {
    seq(|t|, k requires 0 <= k < |t| => StreakDays(t, qs, k))
  }

  /** The running-months column of a scan over the months selected by `qs`. */
  function StreakColumn(qs: seq<bool>): seq<int> {
    seq(|qs|, k requires 0 <= k < |qs| => Streak(qs, k))
  }

  /** The table a month-granular scan returns: one row per maximal run. */
  function RunsTable(t: seq<MonthSummary>, qs: seq<bool>): seq<RangeRow>
    requires |qs| == |t| && forall j :: 0 <= j < |t| ==> ValidDate(t[j].month)
  {
    RunsInTable(qs);
    TimeRangesToTable(RunRanges(t, MaximalRuns(qs)))
  }

  /** The table `gaps_by_producing_days` returns. */
  function ProducingDaysTable(cfg: Config, t: seq<MonthSummary>, shutinAsProducing: bool, considerProduction: bool)
    : seq<RangeRow>
    requires ProdTable(cfg, t) && IsConfiguredDaysProduced(cfg)
  {
    AdjustedRowsTable(cfg, t, shutinAsProducing, considerProduction);
    var rows := AdjustedRows(cfg, t, shutinAsProducing, considerProduction);
    DaysScanValid(rows);
    TimeRangesToTable(DaysScan(rows).gaps)
  }

  /** A shut-in January 2020 without production, then a producing February,
      with shut-in configured under the code "SI". The table is given here as
      `prod_df`; `ShutinScenarioProdDf` shows it is what the constructor
      builds from `ShutinScenarioRecords`. */
  const ShutinScenarioConfig: Config :=
    Config("date", Some("oil"), Some("gas"), None, Some("status"), Some(["SI"]), 0, 0)
  const ShutinScenarioTable: seq<MonthSummary> :=
    [MonthSummary(Date(2020, 1, 1), Some(0), Some(0), 0, 1, false, true, None, None),
     MonthSummary(Date(2020, 2, 1), Some(50), Some(0), 1, 0, true, false, None, None)]

  /** The two records behind that table: a shut-in January report with no
      production and a producing February report, each dated mid-month. */
  const ShutinScenarioRecords: seq<Record> :=
    [Record(Date(2020, 1, 15), Some(0), Some(0), None, Some("SI")),
     Record(Date(2020, 2, 10), Some(50), Some(0), None, Some("ON"))]

  /** The scenario's `prod_df` is what the constructor builds from its records. */
  lemma ShutinScenarioProdDf()
    ensures ValidRecords(ShutinScenarioRecords)
    ensures BuildProdDf(ShutinScenarioConfig, ShutinScenarioRecords) == ShutinScenarioTable
  {
    var recs, cfg := ShutinScenarioRecords, ShutinScenarioConfig;
    var jan, feb := Date(2020, 1, 1), Date(2020, 2, 1);
    assert FirstMonth(recs) == jan;
    assert LastMonth(recs) == feb;
    FirstOfMonthIsMonthStart(jan);
    FirstOfMonthIsMonthStart(feb);
    ProdDfMonthFields(cfg, recs, 0);
    ProdDfMonthFields(cfg, recs, 1);
    ShutinScenarioGroups();
    ShutinScenarioFolds();
    var t := BuildProdDf(cfg, recs);
    assert MonthIndex(feb) == MonthIndex(jan) + 1;
    assert |t| == 2;
    assert t[0] == ShutinScenarioTable[0];
    assert t[1] == ShutinScenarioTable[1];
    SameTwoRows(t, ShutinScenarioTable);
  }

  lemma SameTwoRows(t: seq<MonthSummary>, u: seq<MonthSummary>)
    requires |t| == 2 && |u| == 2 && t[0] == u[0] && t[1] == u[1]
    ensures t == u
  {
  }

  /** Snapped to month starts, each scenario month holds its one record. */
  lemma ShutinScenarioGroups()
    ensures MonthRecords(ShutinScenarioRecords, Date(2020, 1, 1)) == [Record(Date(2020, 1, 1), Some(0), Some(0), Some(0), Some("SI"))]
    ensures MonthRecords(ShutinScenarioRecords, Date(2020, 2, 1)) == [Record(Date(2020, 2, 1), Some(50), Some(0), Some(0), Some("ON"))]
  {
    var snapped := Snapped(ShutinScenarioRecords);
    assert snapped == [snapped[0]] + [snapped[1]];
    InMonthPair(snapped[0], snapped[1], Date(2020, 1, 1));
    InMonthPair(snapped[0], snapped[1], Date(2020, 2, 1));
  }

  /** Each month's fold gives the scenario table's row. */
  lemma ShutinScenarioFolds()
    ensures MonthFold(ShutinScenarioConfig, Date(2020, 1, 1), [Record(Date(2020, 1, 1), Some(0), Some(0), Some(0), Some("SI"))]) == ShutinScenarioTable[0]
    ensures MonthFold(ShutinScenarioConfig, Date(2020, 2, 1), [Record(Date(2020, 2, 1), Some(50), Some(0), Some(0), Some("ON"))]) == ShutinScenarioTable[1]
  {
  }

  lemma InMonthPair(a: Record, b: Record, m: Date)
    ensures InMonth([a] + [b], m) == (if a.date == m then [a] else []) + (if b.date == m then [b] else [])
  {
    assert ([a] + [b])[1..] == [b];
    assert [b][1..] == [];
    assert InMonth([b], m) == (if b.date == m then [b] else []) + InMonth([], m);
  }

  /** Not counting shut-in as producing, January alone is a gap of one month
      and 31 days; counting it, there is no gap. */
  lemma ShutinScenarioGaps()
    ensures ProdTable(ShutinScenarioConfig, ShutinScenarioTable)
    ensures RunsTable(ShutinScenarioTable, GapMonths(ShutinScenarioConfig, ShutinScenarioTable, false))
            == [RangeRow(Date(2020, 1, 1), Date(2020, 1, 31), 1, 31)]
    ensures RunsTable(ShutinScenarioTable, GapMonths(ShutinScenarioConfig, ShutinScenarioTable, true)) == []
  {
    var t, cfg := ShutinScenarioTable, ShutinScenarioConfig;
    var qs := GapMonths(cfg, t, false);
    assert qs == [true, false];
    assert RunsUpTo(qs, 1) == RunState(Some(0), []);
    assert RunsUpTo(qs, 2) == RunState(None, [Run(0, 0)]);
    var qs' := GapMonths(cfg, t, true);
    assert qs' == [false, false];
    assert RunsUpTo(qs', 1) == RunState(None, []);
    assert RunsUpTo(qs', 2) == RunState(None, []);
  }

  /** The message of the `KeyError` raised when the days-produced column is
      not configured, so `prod_df` has no days-producing column. */
  const DaysProducingKeyError: string := "max_days_producing"

  class ProductionAnalyzer {
    const config: Config
    /** The production records, with every date snapped to its month's first day
        and a stub row for each month in the span that had none. */
    var df: seq<Record>
    /** One summary row per month from the first month to the last. */
    var prodDf: seq<MonthSummary>
    /** The columns the scans have added to `prod_df`, by header. */
    var addedColumns: map<string, seq<int>>

    ghost predicate Valid()
      reads this
    {
      && ProdTable(config, prodDf)
      && forall name :: name in addedColumns ==> |addedColumns[name]| == |prodDf|
    }

    /** `__init__`: store the configuration (a single shut-in code becomes a
        one-element list), standardize the dates of a copy of the table, and
        group it by month. */
    constructor (
      records: seq<Record>, dateCol: string, oilProdCol: Option<string>, gasProdCol: Option<string>,
      daysProducedCol: Option<string>, statusCol: Option<string>, shutinCodes: ShutinCodesArg,
      oilProdMin: int, gasProdMin: int)
      requires ValidRecords(records)
      ensures config == MakeConfig(dateCol, oilProdCol, gasProdCol, daysProducedCol, statusCol,
                                   shutinCodes, oilProdMin, gasProdMin)
      ensures df == StandardizeDates(records)
      ensures prodDf == BuildProdDf(config, records)
      ensures addedColumns == map[]
      ensures Valid()
    {
      var cfg := MakeConfig(dateCol, oilProdCol, gasProdCol, daysProducedCol, statusCol,
                            shutinCodes, oilProdMin, gasProdMin);
      config := cfg;
      df := StandardizeDates(records);
      prodDf := GroupByMonth(cfg, StandardizeDates(records));
      addedColumns := map[];
      new;
      ProdDfIsProdTable(config, records);
    }

    /** `gaps_by_production_threshold`: the maximal runs of months in which no
        well met the threshold (and, when asked, none was shut-in), one row
        per run, with the running columns added under the given headers. */
    method GapsByProductionThreshold(shutinAsProducing: bool, newDaysCol: Option<string>, newMonthsCol: Option<string>)
      returns (table: seq<RangeRow>)
      requires Valid()
      modifies this
      ensures Valid()
      ensures df == old(df) && prodDf == old(prodDf)
      ensures var qs := GapMonths(config, prodDf, shutinAsProducing);
        && table == RunsTable(prodDf, qs)
        && addedColumns == AddRunningColumns(old(addedColumns), newDaysCol, StreakDaysColumn(prodDf, qs),
                                             newMonthsCol, StreakColumn(qs))
    {
      var qs := GapMonths(config, prodDf, shutinAsProducing);
      var gaps, runningDays, runningMonths := ScanRuns(prodDf, qs);
      assert runningDays == StreakDaysColumn(prodDf, qs);
      assert runningMonths == StreakColumn(qs);
      if newDaysCol.Some? {
        addedColumns := addedColumns[newDaysCol.value := runningDays];
      }
      if newMonthsCol.Some? {
        addedColumns := addedColumns[newMonthsCol.value := runningMonths];
      }
      table := TimeRangesToTable(gaps);
    }

    /** `periods_of_shutin`: the maximal runs of months with a shut-in well,
        ignoring months that met the threshold when production is considered
        (by default, when a production column is configured). */
    method PeriodsOfShutin(considerProduction: Option<bool>, newDaysCol: Option<string>, newMonthsCol: Option<string>)
      returns (table: seq<RangeRow>)
      requires Valid()
      modifies this
      ensures Valid()
      ensures df == old(df) && prodDf == old(prodDf)
      ensures var qs := ShutinMonths(prodDf, considerProduction.GetOr(IsConfiguredProduction(config)));
        && table == RunsTable(prodDf, qs)
        && addedColumns == AddRunningColumns(old(addedColumns), newDaysCol, StreakDaysColumn(prodDf, qs),
                                             newMonthsCol, StreakColumn(qs))
    {
      var cp := if considerProduction.Some? then considerProduction.value else IsConfiguredProduction(config);
      var qs := ShutinMonths(prodDf, cp);
      var periods, runningDays, runningMonths := ScanRuns(prodDf, qs);
      assert runningDays == StreakDaysColumn(prodDf, qs);
      assert runningMonths == StreakColumn(qs);
      if newDaysCol.Some? {
        addedColumns := addedColumns[newDaysCol.value := runningDays];
      }
      if newMonthsCol.Some? {
        addedColumns := addedColumns[newMonthsCol.value := runningMonths];
      }
      table := TimeRangesToTable(periods);
    }

    /** `gaps_by_producing_days`: the worst-case gaps from the reported days of
        production. Without a days-produced column the first row's lookup
        fails before anything is added. */
    method GapsByProducingDays(
      shutinAsProducing: bool, considerProduction: Option<bool>,
      newDaysCol: Option<string>, newMonthsCol: Option<string>)
      returns (result: Result<seq<RangeRow>, string>)
      requires Valid()
      modifies this
      ensures Valid()
      ensures df == old(df) && prodDf == old(prodDf)
      ensures !IsConfiguredDaysProduced(config) ==>
                result == Failure(DaysProducingKeyError) && addedColumns == old(addedColumns)
      ensures IsConfiguredDaysProduced(config) ==>
        var cp := considerProduction.GetOr(IsConfiguredProduction(config));
        var scan := DaysScan(AdjustedRows(config, prodDf, shutinAsProducing, cp));
        && result == Success(ProducingDaysTable(config, prodDf, shutinAsProducing, cp))
        && addedColumns == AddRunningColumns(old(addedColumns), newDaysCol, scan.runningDays,
                                             newMonthsCol, scan.runningMonths)
    {
      if !IsConfiguredDaysProduced(config) {
        return Failure(DaysProducingKeyError);
      }
      var cp := if considerProduction.Some? then considerProduction.value else IsConfiguredProduction(config);
      var gaps, runningDays, runningMonths := ScanProducingDays(config, prodDf, shutinAsProducing, cp);
      if newDaysCol.Some? {
        addedColumns := addedColumns[newDaysCol.value := runningDays];
      }
      if newMonthsCol.Some? {
        addedColumns := addedColumns[newMonthsCol.value := runningMonths];
      }
      result := Success(TimeRangesToTable(gaps));
    }
  }
}
