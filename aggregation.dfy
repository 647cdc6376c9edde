/** Month normalisation (`_standardize_dates`, `first_month`, `last_month`)
    and the monthly fold (`get_relevant_groupby_fields`, `group_by_month`). */
module Aggregation {
  import opened Wrappers
  import opened Calendar
  import opened Records

  // ---------------------------------------------------------------------
  // The reductions `group_by_month` applies per column.

  /** `sum`. */
  function Sum(xs: seq<int>): int {
    if xs == [] then 0 else xs[0] + Sum(xs[1..])
  }

  lemma {:induction false} SumConcat(xs: seq<int>, ys: seq<int>)
    ensures Sum(xs + ys) == Sum(xs) + Sum(ys)
  {
    if xs == [] {
      assert xs + ys == ys;
    } else {
      assert (xs + ys)[0] == xs[0];
      assert (xs + ys)[1..] == xs[1..] + ys;
      SumConcat(xs[1..], ys);
    }
  }

  /** `max`. */
  function Max(xs: seq<int>): int
    requires xs != []
  {
    if |xs| == 1 then xs[0]
    else
      var rest := Max(xs[1..]);
      if xs[0] < rest then rest else xs[0]
  }

  /** `max` is an element that no element exceeds. */
  lemma {:induction false} MaxIsGreatest(xs: seq<int>)
    requires xs != []
    ensures Max(xs) in xs
    ensures forall i :: 0 <= i < |xs| ==> xs[i] <= Max(xs)
  {
    if |xs| > 1 {
      MaxIsGreatest(xs[1..]);
      assert forall i :: 1 <= i < |xs| ==> xs[i] == xs[1..][i - 1];
    }
  }

  /** `min`. */
  function Min(xs: seq<int>): int
    requires xs != []
  {
    if |xs| == 1 then xs[0]
    else
      var rest := Min(xs[1..]);
      if rest < xs[0] then rest else xs[0]
  }

  /** `min` is an element that exceeds no element. */
  lemma {:induction false} MinIsLeast(xs: seq<int>)
    requires xs != []
    ensures Min(xs) in xs
    ensures forall i :: 0 <= i < |xs| ==> Min(xs) <= xs[i]
  {
    if |xs| > 1 {
      MinIsLeast(xs[1..]);
      assert forall i :: 1 <= i < |xs| ==> xs[i] == xs[1..][i - 1];
    }
  }

  /** `max` over a boolean column. */
  function AnyTrue(bs: seq<bool>): bool {
    if bs == [] then false else bs[0] || AnyTrue(bs[1..])
  }

  /** `max` over a boolean column is logical OR. */
  lemma {:induction false} AnyTrueIsOr(bs: seq<bool>)
    ensures AnyTrue(bs) <==> true in bs
  {
    if bs != [] {
      AnyTrueIsOr(bs[1..]);
      assert bs == [bs[0]] + bs[1..];
    }
  }

  /** `sum` over a boolean column. */
  function CountTrue(bs: seq<bool>): nat {
    if bs == [] then 0 else (if bs[0] then 1 else 0) + CountTrue(bs[1..])
  }

  /** `sum` over a boolean column counts its true cells. */
  lemma {:induction false} CountTrueIsCount(bs: seq<bool>)
    ensures CountTrue(bs) == multiset(bs)[true]
  {
    if bs != [] {
      CountTrueIsCount(bs[1..]);
      assert bs == [bs[0]] + bs[1..];
    }
  }

  /** The largest of `xs` and 0: the max of a column to which a 0 row was added. */
  function MaxOrZero(xs: seq<int>): int {
    if xs == [] then 0 else var m := Max(xs); if m < 0 then 0 else m
  }

  // ---------------------------------------------------------------------
  // Columns of a group of records.

  function OilColumn(g: seq<Record>): seq<int> {
    seq(|g|, i requires 0 <= i < |g| => g[i].oil.GetOr(0))
  }

  function GasColumn(g: seq<Record>): seq<int> {
    seq(|g|, i requires 0 <= i < |g| => g[i].gas.GetOr(0))
  }

  function DaysProducedColumn(g: seq<Record>): seq<int> {
    seq(|g|, i requires 0 <= i < |g| => g[i].daysProduced.GetOr(0))
  }

  function ProducingColumn(cfg: Config, g: seq<Record>): seq<bool> {
    seq(|g|, i requires 0 <= i < |g| => RowIsProducing(cfg, g[i]))
  }

  function ShutinColumn(cfg: Config, g: seq<Record>): seq<bool> {
    seq(|g|, i requires 0 <= i < |g| => RowIsShutin(cfg, g[i]))
  }

  function UnproducingColumn(g: seq<Record>): seq<int>
    requires forall i :: 0 <= i < |g| ==> ValidDate(g[i].date)
  {
    seq(|g|, i requires 0 <= i < |g| => RowNumUnproducingDays(g[i]))
  }

  // ---------------------------------------------------------------------
  // The monthly summary table.

  /** One row of the grouped table: the month and its aggregated fields; the
      quantity and days fields are present only when their column is configured. */
  datatype MonthSummary = MonthSummary(
    month: Date,
    oil: Option<int>,
    gas: Option<int>,
    numActive: nat,
    numShutin: nat,
    anyActive: bool,
    anyShutin: bool,
    daysProducing: Option<int>,
    daysNotProducing: Option<int>)

  /** The fold of one month's group, field by field as `get_relevant_groupby_fields`
      pairs each configured column with its reduction. */
  function Summarize(cfg: Config, m: Date, g: seq<Record>): (s: MonthSummary)
    requires g != [] && forall i :: 0 <= i < |g| ==> ValidDate(g[i].date)
    ensures s.month == m
    ensures s.oil.Some? <==> cfg.oilProdCol.Some?
    ensures s.gas.Some? <==> cfg.gasProdCol.Some?
    ensures s.daysProducing.Some? <==> IsConfiguredDaysProduced(cfg)
    ensures s.daysNotProducing.Some? <==> IsConfiguredDaysProduced(cfg)
  {
    var days := IsConfiguredDaysProduced(cfg);
    MonthSummary(
      m,
      if cfg.oilProdCol.Some? then Some(Sum(OilColumn(g))) else None,
      if cfg.gasProdCol.Some? then Some(Sum(GasColumn(g))) else None,
      CountTrue(ProducingColumn(cfg, g)),
      CountTrue(ShutinColumn(cfg, g)),
      AnyTrue(ProducingColumn(cfg, g)),
      AnyTrue(ShutinColumn(cfg, g)),
      if days then Some(Max(DaysProducedColumn(g))) else None,
      if days then Some(Min(UnproducingColumn(g))) else None)
  }

  /** What each aggregated field of a month is, in terms of that month's records:
      OR and count for the flags, the largest days produced and the smallest days
      not producing. */
  lemma SummarizeFields(cfg: Config, m: Date, g: seq<Record>)
    requires g != [] && forall i :: 0 <= i < |g| ==> ValidDate(g[i].date)
    ensures var s := Summarize(cfg, m, g);
      && (s.anyActive <==> exists i :: 0 <= i < |g| && RowIsProducing(cfg, g[i]))
      && (s.anyShutin <==> exists i :: 0 <= i < |g| && RowIsShutin(cfg, g[i]))
      && s.numActive == multiset(ProducingColumn(cfg, g))[true]
      && s.numShutin == multiset(ShutinColumn(cfg, g))[true]
      && (s.daysProducing.Some? ==>
            (exists i :: 0 <= i < |g| && g[i].daysProduced.GetOr(0) == s.daysProducing.value)
            && forall i :: 0 <= i < |g| ==> g[i].daysProduced.GetOr(0) <= s.daysProducing.value)
      && (s.daysNotProducing.Some? ==>
            (exists i :: 0 <= i < |g| && RowNumUnproducingDays(g[i]) == s.daysNotProducing.value)
            && forall i :: 0 <= i < |g| ==> s.daysNotProducing.value <= RowNumUnproducingDays(g[i]))
  {
    var s := Summarize(cfg, m, g);
    var producing := ProducingColumn(cfg, g);
    var shutin := ShutinColumn(cfg, g);
    AnyTrueIsOr(producing);
    AnyTrueIsOr(shutin);
    CountTrueIsCount(producing);
    CountTrueIsCount(shutin);
    assert s.anyActive == AnyTrue(producing);
    assert s.anyActive ==> exists i :: 0 <= i < |g| && RowIsProducing(cfg, g[i]) by {
      if s.anyActive {
        var i :| 0 <= i < |producing| && producing[i];
        assert RowIsProducing(cfg, g[i]);
      }
    }
    assert (exists i :: 0 <= i < |g| && RowIsProducing(cfg, g[i])) ==> s.anyActive by {
      if exists i :: 0 <= i < |g| && RowIsProducing(cfg, g[i]) {
        var i :| 0 <= i < |g| && RowIsProducing(cfg, g[i]);
        assert producing[i];
      }
    }
    assert s.anyShutin == AnyTrue(shutin);
    assert s.anyShutin ==> exists i :: 0 <= i < |g| && RowIsShutin(cfg, g[i]) by {
      if s.anyShutin {
        var i :| 0 <= i < |shutin| && shutin[i];
        assert RowIsShutin(cfg, g[i]);
      }
    }
    assert (exists i :: 0 <= i < |g| && RowIsShutin(cfg, g[i])) ==> s.anyShutin by {
      if exists i :: 0 <= i < |g| && RowIsShutin(cfg, g[i]) {
        var i :| 0 <= i < |g| && RowIsShutin(cfg, g[i]);
        assert shutin[i];
      }
    }
    if s.daysProducing.Some? {
      var column := DaysProducedColumn(g);
      assert s.daysProducing.value == Max(column);
      MaxIsGreatest(column);
      var i :| 0 <= i < |column| && column[i] == Max(column);
      assert g[i].daysProduced.GetOr(0) == s.daysProducing.value;
      forall j | 0 <= j < |g| ensures g[j].daysProduced.GetOr(0) <= s.daysProducing.value {
        assert column[j] == g[j].daysProduced.GetOr(0);
      }
    }
    if s.daysNotProducing.Some? {
      var column := UnproducingColumn(g);
      assert s.daysNotProducing.value == Min(column);
      MinIsLeast(column);
      var i :| 0 <= i < |column| && column[i] == Min(column);
      assert RowNumUnproducingDays(g[i]) == s.daysNotProducing.value;
      forall j | 0 <= j < |g| ensures s.daysNotProducing.value <= RowNumUnproducingDays(g[j]) {
        assert column[j] == RowNumUnproducingDays(g[j]);
      }
    }
  }

  /** `row[date_col]` of each row, as a month index. */
  function MonthIndexColumn(rows: seq<Record>): seq<int> {
    seq(|rows|, i requires 0 <= i < |rows| => MonthIndex(rows[i].date))
  }

  /** The rows dated `m`, in table order: one `groupby` group. */
  function InMonth(rows: seq<Record>, m: Date): (g: seq<Record>)
    ensures forall i :: 0 <= i < |g| ==> g[i].date == m
  {
    if rows == [] then []
    else (if rows[0].date == m then [rows[0]] else []) + InMonth(rows[1..], m)
  }

  /** The group holds every row dated `m`, as many times as the table does,
      and nothing else. */
  lemma {:induction false} InMonthComplete(rows: seq<Record>, m: Date)
    ensures forall r :: multiset(InMonth(rows, m))[r] == (if r.date == m then multiset(rows)[r] else 0)
  {
    if rows != [] {
      InMonthComplete(rows[1..], m);
      assert rows == [rows[0]] + rows[1..];
    }
  }

  /** Every row belongs to the group of its own month. */
  lemma {:induction false} InMonthOwnGroup(rows: seq<Record>, i: int)
    requires 0 <= i < |rows|
    ensures InMonth(rows, rows[i].date) != []
  {
    if i > 0 {
      InMonthOwnGroup(rows[1..], i - 1);
    }
  }

  lemma {:induction false} InMonthConcat(a: seq<Record>, b: seq<Record>, m: Date)
    ensures InMonth(a + b, m) == InMonth(a, m) + InMonth(b, m)
  {
    if a == [] {
      assert a + b == b;
    } else {
      assert (a + b)[0] == a[0];
      assert (a + b)[1..] == a[1..] + b;
      InMonthConcat(a[1..], b, m);
    }
  }

  /** The rows dated `m` are rows of the table. */
  lemma {:induction false} InMonthNonEmpty(rows: seq<Record>, m: Date)
    requires InMonth(rows, m) != []
    ensures exists i :: 0 <= i < |rows| && rows[i].date == m
  {
    if rows[0].date != m {
      InMonthNonEmpty(rows[1..], m);
      var i :| 0 <= i < |rows[1..]| && rows[1..][i].date == m;
      assert rows[i + 1].date == m;
    }
  }

  /** The month indices with a row among [lo, hi], ascending, as first days:
      the keys `groupby` produces, restricted to that range. */
  function KeysFrom(column: seq<int>, lo: int, hi: int): seq<Date>
    requires MinMonthIndex <= lo && hi < EndMonthIndex
    decreases hi - lo + 1
  {
    if lo > hi then []
    else (if lo in column then [MonthStart(lo)] else []) + KeysFrom(column, lo + 1, hi)
  }

  /** Every key is a month start in range that occurs in the column. */
  lemma {:induction false} KeysFromInRange(column: seq<int>, lo: int, hi: int)
    requires MinMonthIndex <= lo && hi < EndMonthIndex
    decreases hi - lo + 1
    ensures forall k :: 0 <= k < |KeysFrom(column, lo, hi)| ==>
              var key := KeysFrom(column, lo, hi)[k];
              IsFirstOfMonth(key) && lo <= MonthIndex(key) <= hi && MonthIndex(key) in column
  {
    if lo <= hi {
      KeysFromInRange(column, lo + 1, hi);
      var rest := KeysFrom(column, lo + 1, hi);
      var keys := KeysFrom(column, lo, hi);
      if lo in column {
        assert keys == [MonthStart(lo)] + rest;
        forall k | 0 <= k < |keys|
          ensures IsFirstOfMonth(keys[k]) && lo <= MonthIndex(keys[k]) <= hi && MonthIndex(keys[k]) in column
        {
          if k > 0 {
            assert keys[k] == rest[k - 1];
          }
        }
      } else {
        assert keys == rest;
      }
    }
  }

  /** The keys ascend strictly, from month `lo` on. */
  lemma {:induction false} KeysFromAscending(column: seq<int>, lo: int, hi: int)
    requires MinMonthIndex <= lo && hi < EndMonthIndex
    decreases hi - lo + 1
    ensures forall k :: 0 <= k < |KeysFrom(column, lo, hi)| ==> lo <= MonthIndex(KeysFrom(column, lo, hi)[k])
    ensures forall k :: 0 < k < |KeysFrom(column, lo, hi)| ==>
              MonthIndex(KeysFrom(column, lo, hi)[k - 1]) < MonthIndex(KeysFrom(column, lo, hi)[k])
  {
    if lo <= hi {
      KeysFromAscending(column, lo + 1, hi);
      AscendingStep(KeysFrom(column, lo, hi), MonthStart(lo), lo in column, KeysFrom(column, lo + 1, hi));
    }
  }

  /** Putting, or not, a month before later ascending months keeps them
      ascending. */
  lemma AscendingStep(keys: seq<Date>, key: Date, present: bool, rest: seq<Date>)
    requires keys == (if present then [key] else []) + rest
    requires forall k :: 0 <= k < |rest| ==> MonthIndex(key) < MonthIndex(rest[k])
    requires forall k :: 0 < k < |rest| ==> MonthIndex(rest[k - 1]) < MonthIndex(rest[k])
    ensures forall k :: 0 <= k < |keys| ==> MonthIndex(key) <= MonthIndex(keys[k])
    ensures forall k :: 0 < k < |keys| ==> MonthIndex(keys[k - 1]) < MonthIndex(keys[k])
  {
    if present {
      forall k | 0 < k < |keys| ensures MonthIndex(keys[k - 1]) < MonthIndex(keys[k]) {
        assert keys[k] == rest[k - 1];
        if k > 1 {
          assert keys[k - 1] == rest[k - 2];
        }
      }
    }
  }

  /** Every month in range that occurs in the column is a key. */
  lemma {:induction false} KeysFromComplete(column: seq<int>, lo: int, hi: int, i: int)
    requires MinMonthIndex <= lo && hi < EndMonthIndex
    requires lo <= i <= hi && i in column
    decreases hi - lo + 1
    ensures MonthStart(i) in KeysFrom(column, lo, hi)
  {
    var rest := KeysFrom(column, lo + 1, hi);
    if i == lo {
      assert KeysFrom(column, lo, hi) == [MonthStart(lo)] + rest;
    } else {
      KeysFromComplete(column, lo + 1, hi, i);
      InSuffix(MonthStart(i), if lo in column then [MonthStart(lo)] else [], rest);
    }
  }

  /** A key after the first is among the keys. */
  lemma InSuffix(x: Date, first: seq<Date>, rest: seq<Date>)
    requires x in rest
    ensures x in first + rest
  {
    var k :| 0 <= k < |rest| && rest[k] == x;
    assert (first + rest)[|first| + k] == x;
  }

  /** Rows whose dates are the first of their month, as the table is after
      `_standardize_dates`. */
  predicate MonthlyRows(rows: seq<Record>) {
    rows != [] && forall i :: 0 <= i < |rows| ==> IsFirstOfMonth(rows[i].date)
  }

  /** The sorted distinct months of the table: `groupby`'s keys. */
  function GroupKeys(rows: seq<Record>): seq<Date>
    requires MonthlyRows(rows)
  {
    var column := MonthIndexColumn(rows);
    MinIsLeast(column);
    MaxIsGreatest(column);
    KeysFrom(column, Min(column), Max(column))
  }

  /** A month has rows exactly when its index is in the month column. */
  lemma HasGroupIffInColumn(rows: seq<Record>, x: int)
    requires MonthlyRows(rows) && MinMonthIndex <= x < EndMonthIndex
    ensures InMonth(rows, MonthStart(x)) != [] <==> x in MonthIndexColumn(rows)
  {
    var column := MonthIndexColumn(rows);
    if InMonth(rows, MonthStart(x)) != [] {
      InMonthNonEmpty(rows, MonthStart(x));
      var i :| 0 <= i < |rows| && rows[i].date == MonthStart(x);
      assert column[i] == x;
    }
    if x in column {
      var i :| 0 <= i < |column| && column[i] == x;
      FirstOfMonthIsMonthStart(rows[i].date);
      InMonthOwnGroup(rows, i);
    }
  }

  /** `groupby` keys: ascending distinct months, each the month of some row, and
      every row's month among them. */
  lemma GroupKeysAreMonths(rows: seq<Record>)
    requires MonthlyRows(rows)
    ensures var keys := GroupKeys(rows);
      && (forall k :: 0 <= k < |keys| ==> IsFirstOfMonth(keys[k]) && InMonth(rows, keys[k]) != [])
      && (forall k :: 0 < k < |keys| ==> MonthIndex(keys[k - 1]) < MonthIndex(keys[k]))
      && (forall i :: 0 <= i < |rows| ==> rows[i].date in keys)
  {
    var column := MonthIndexColumn(rows);
    MinIsLeast(column);
    MaxIsGreatest(column);
    var lo, hi := Min(column), Max(column);
    KeysFromInRange(column, lo, hi);
    KeysFromAscending(column, lo, hi);
    var keys := GroupKeys(rows);
    assert keys == KeysFrom(column, lo, hi);
    forall k | 0 <= k < |keys| ensures InMonth(rows, keys[k]) != [] {
      FirstOfMonthIsMonthStart(keys[k]);
      HasGroupIffInColumn(rows, MonthIndex(keys[k]));
    }
    forall i | 0 <= i < |rows| ensures rows[i].date in keys {
      assert column[i] == MonthIndex(rows[i].date);
      FirstOfMonthIsMonthStart(rows[i].date);
      KeysFromComplete(column, lo, hi, column[i]);
    }
  }

  /** `group_by_month`: one summary per distinct month, ascending. */
  function GroupByMonth(cfg: Config, rows: seq<Record>): (table: seq<MonthSummary>)
    requires MonthlyRows(rows)
    ensures |table| == |GroupKeys(rows)|
  {
    var keys := GroupKeys(rows);
    GroupKeysAreMonths(rows);
    seq(|keys|, k requires 0 <= k < |keys| => Summarize(cfg, keys[k], InMonth(rows, keys[k])))
  }

  /** The grouped table has one row per month present, in ascending order, each
      folding exactly the rows of its month. */
  lemma GroupByMonthRows(cfg: Config, rows: seq<Record>)
    requires MonthlyRows(rows)
    ensures var t := GroupByMonth(cfg, rows);
      && (forall k :: 0 <= k < |t| ==>
            IsFirstOfMonth(t[k].month) && InMonth(rows, t[k].month) != []
            && t[k] == Summarize(cfg, t[k].month, InMonth(rows, t[k].month)))
      && (forall k :: 0 < k < |t| ==> MonthIndex(t[k - 1].month) < MonthIndex(t[k].month))
      && (forall i :: 0 <= i < |rows| ==> exists k :: 0 <= k < |t| && t[k].month == rows[i].date)
  {
    GroupKeysAreMonths(rows);
    var keys := GroupKeys(rows);
    var t := GroupByMonth(cfg, rows);
    forall k | 0 <= k < |t| ensures t[k] == Summarize(cfg, keys[k], InMonth(rows, keys[k])) && t[k].month == keys[k] {
    }
    forall i | 0 <= i < |rows| ensures exists k :: 0 <= k < |t| && t[k].month == rows[i].date {
      var k :| 0 <= k < |keys| && keys[k] == rows[i].date;
      assert t[k].month == rows[i].date;
    }
  }

  /** Row `k` of the grouped table is for the `k`-th key. */
  lemma GroupByMonthMonths(cfg: Config, rows: seq<Record>)
    requires MonthlyRows(rows)
    ensures forall k :: 0 <= k < |GroupKeys(rows)| ==> GroupByMonth(cfg, rows)[k].month == GroupKeys(rows)[k]
  {
  }

  // ---------------------------------------------------------------------
  // Facts about the reductions used below.

  /** A 0 row added to a column leaves `max` at the larger of 0 and the column's max. */
  lemma MaxWithZero(xs: seq<int>)
    ensures Max(xs + [0]) == MaxOrZero(xs)
  {
    var ys := xs + [0];
    var m := Max(ys);
    MaxIsGreatest(ys);
    assert ys[|xs|] == 0;
    if xs != [] {
      MaxIsGreatest(xs);
      var mx := Max(xs);
      var j :| 0 <= j < |xs| && xs[j] == mx;
      assert ys[j] == mx;
      var i :| 0 <= i < |ys| && ys[i] == m;
      if i < |xs| {
        assert xs[i] <= mx;
      }
    }
  }

  /** In a month's group, the smallest days-not-producing is the month's length
      less the largest days-produced. */
  lemma MinUnproducingIsComplement(g: seq<Record>, m: Date)
    requires g != [] && ValidDate(m) && forall i :: 0 <= i < |g| ==> g[i].date == m
    ensures Min(UnproducingColumn(g)) == GetDaysInMonth(m) - Max(DaysProducedColumn(g))
  {
    var produced, unproduced := DaysProducedColumn(g), UnproducingColumn(g);
    var d := GetDaysInMonth(m);
    assert forall i :: 0 <= i < |g| ==> unproduced[i] == d - produced[i];
    MaxIsGreatest(produced);
    MinIsLeast(unproduced);
    var j :| 0 <= j < |produced| && produced[j] == Max(produced);
    var i :| 0 <= i < |unproduced| && unproduced[i] == Min(unproduced);
    assert Min(unproduced) <= unproduced[j];
    assert produced[i] <= Max(produced);
  }

  // ---------------------------------------------------------------------
  // `_standardize_dates`, `first_month` and `last_month`.

  predicate ValidRecords(records: seq<Record>) {
    records != [] && forall i :: 0 <= i < |records| ==> ValidDate(records[i].date)
  }

  /** `min` of the date column. */
  function Earliest(records: seq<Record>): Date
    requires ValidRecords(records)
  {
    if |records| == 1 then records[0].date
    else
      var rest := Earliest(records[1..]);
      if DateLe(records[0].date, rest) then records[0].date else rest
  }

  /** `max` of the date column. */
  function Latest(records: seq<Record>): Date
    requires ValidRecords(records)
  {
    if |records| == 1 then records[0].date
    else
      var rest := Latest(records[1..]);
      if DateLe(rest, records[0].date) then records[0].date else rest
  }

  /** The earliest date is a record's date and no later than any. */
  lemma {:induction false} EarliestIsLeast(records: seq<Record>)
    requires ValidRecords(records)
    ensures exists i :: 0 <= i < |records| && records[i].date == Earliest(records)
    ensures forall i :: 0 <= i < |records| ==> DateLe(Earliest(records), records[i].date)
  {
    if |records| > 1 {
      var tail := records[1..];
      EarliestIsLeast(tail);
      var j :| 0 <= j < |tail| && tail[j].date == Earliest(tail);
      if DateLe(records[0].date, Earliest(tail)) {
        assert records[0].date == Earliest(records);
      } else {
        assert records[j + 1].date == Earliest(records);
      }
      forall i | 1 <= i < |records| ensures DateLe(Earliest(tail), records[i].date) {
        assert records[i] == tail[i - 1];
      }
    } else {
      assert records[0].date == Earliest(records);
    }
  }

  /** The latest date is a record's date and no earlier than any. */
  lemma {:induction false} LatestIsGreatest(records: seq<Record>)
    requires ValidRecords(records)
    ensures exists i :: 0 <= i < |records| && records[i].date == Latest(records)
    ensures forall i :: 0 <= i < |records| ==> DateLe(records[i].date, Latest(records))
  {
    if |records| > 1 {
      var tail := records[1..];
      LatestIsGreatest(tail);
      var j :| 0 <= j < |tail| && tail[j].date == Latest(tail);
      if DateLe(Latest(tail), records[0].date) {
        assert records[0].date == Latest(records);
      } else {
        assert records[j + 1].date == Latest(records);
      }
      forall i | 1 <= i < |records| ensures DateLe(records[i].date, Latest(tail)) {
        assert records[i] == tail[i - 1];
      }
    } else {
      assert records[0].date == Latest(records);
    }
  }

  /** `first_month`: the first day of the earliest record's month. */
  function FirstMonth(records: seq<Record>): (m: Date)
    requires ValidRecords(records)
    ensures IsFirstOfMonth(m)
  {
    EarliestIsLeast(records);
    FirstDayOfMonth(Earliest(records))
  }

  /** `last_month`: the first day of the latest record's month. */
  function LastMonth(records: seq<Record>): (m: Date)
    requires ValidRecords(records)
    ensures IsFirstOfMonth(m)
  {
    LatestIsGreatest(records);
    FirstDayOfMonth(Latest(records))
  }

  /** `first_month` is the month of some record and of none earlier. */
  lemma FirstMonthIsLeast(records: seq<Record>)
    requires ValidRecords(records)
    ensures forall i :: 0 <= i < |records| ==> MonthIndex(FirstMonth(records)) <= MonthIndex(records[i].date)
    ensures exists i :: 0 <= i < |records| && MonthIndex(records[i].date) == MonthIndex(FirstMonth(records))
  {
    EarliestIsLeast(records);
    var e := Earliest(records);
    forall i | 0 <= i < |records| ensures MonthIndex(e) <= MonthIndex(records[i].date) {
      DateLeMonthIndex(e, records[i].date);
    }
  }

  /** `last_month` is the month of some record and of none later. */
  lemma LastMonthIsGreatest(records: seq<Record>)
    requires ValidRecords(records)
    ensures forall i :: 0 <= i < |records| ==> MonthIndex(records[i].date) <= MonthIndex(LastMonth(records))
    ensures exists i :: 0 <= i < |records| && MonthIndex(records[i].date) == MonthIndex(LastMonth(records))
  {
    LatestIsGreatest(records);
    var l := Latest(records);
    forall i | 0 <= i < |records| ensures MonthIndex(records[i].date) <= MonthIndex(l) {
      DateLeMonthIndex(records[i].date, l);
    }
  }

  /** A record snapped to the first of its month, its missing cells filled with 0. */
  function Standardize(r: Record): Record
    requires ValidDate(r.date)
  {
    Record(FirstDayOfMonth(r.date), Some(r.oil.GetOr(0)), Some(r.gas.GetOr(0)),
           Some(r.daysProduced.GetOr(0)), r.status)
  }

  function Snapped(records: seq<Record>): seq<Record>
    requires forall i :: 0 <= i < |records| ==> ValidDate(records[i].date)
  {
    seq(|records|, i requires 0 <= i < |records| => Standardize(records[i]))
  }

  /** The all-zero row added for month `m` (every cell 0 after `fillna`). */
  function Stub(m: Date): Record {
    Record(m, Some(0), Some(0), Some(0), None)
  }

  /** One zero row per month with index in [lo, hi]: the `date_range(freq='MS')` frame. */
  function Stubs(lo: int, hi: int): (rows: seq<Record>)
    requires MinMonthIndex <= lo && hi < EndMonthIndex
    decreases hi - lo + 1
    ensures |rows| == if lo <= hi then hi - lo + 1 else 0
  {
    if lo > hi then [] else [Stub(MonthStart(lo))] + Stubs(lo + 1, hi)
  }

  /** The `k`-th zero row is for the `k`-th month from `lo`. */
  lemma {:induction false} StubsAt(lo: int, hi: int)
    requires MinMonthIndex <= lo && hi < EndMonthIndex
    decreases hi - lo + 1
    ensures forall k :: 0 <= k < |Stubs(lo, hi)| ==> Stubs(lo, hi)[k] == Stub(MonthStart(lo + k))
  {
    forall k | 0 <= k < |Stubs(lo, hi)| ensures Stubs(lo, hi)[k] == Stub(MonthStart(lo + k)) {
      StubAt(lo, hi, lo + k);
    }
  }

  /** The zero row for month `i` sits `i - lo` rows in. */
  lemma {:induction false} StubAt(lo: int, hi: int, i: int)
    requires MinMonthIndex <= lo <= i <= hi < EndMonthIndex
    decreases i - lo
    ensures Stubs(lo, hi)[i - lo] == Stub(MonthStart(i))
  {
    if lo < i {
      StubAt(lo + 1, hi, i);
    }
  }

  /** `_standardize_dates`: the snapped records followed by one zero row for
      every month from the first to the last (all months, not only the missing
      ones), with missing cells filled with 0. */
  function StandardizeDates(records: seq<Record>): (rows: seq<Record>)
    requires ValidRecords(records)
    ensures MonthlyRows(rows)
  {
    var lo, hi := MonthIndex(FirstMonth(records)), MonthIndex(LastMonth(records));
    StubsAt(lo, hi);
    Snapped(records) + Stubs(lo, hi)
  }

  /** The standardised table spans exactly the months from `first_month` to
      `last_month`, and every quantity and days cell is filled. */
  lemma StandardizedRows(records: seq<Record>)
    requires ValidRecords(records)
    ensures var rows := StandardizeDates(records);
            var lo, hi := MonthIndex(FirstMonth(records)), MonthIndex(LastMonth(records));
      && lo <= hi
      && |rows| == |records| + (hi - lo + 1)
      && (forall i :: 0 <= i < |rows| ==> lo <= MonthIndex(rows[i].date) <= hi)
      && (forall i :: 0 <= i < |rows| ==> rows[i].oil.Some? && rows[i].gas.Some? && rows[i].daysProduced.Some?)
  {
    var lo, hi := MonthIndex(FirstMonth(records)), MonthIndex(LastMonth(records));
    FirstMonthIsLeast(records);
    LastMonthIsGreatest(records);
    var i0 :| 0 <= i0 < |records| && MonthIndex(records[i0].date) == lo;
    var rows := StandardizeDates(records);
    var snapped, stubs := Snapped(records), Stubs(lo, hi);
    StubsAt(lo, hi);
    assert rows == snapped + stubs;
    forall i | 0 <= i < |rows| ensures lo <= MonthIndex(rows[i].date) <= hi {
      if i < |snapped| {
        assert rows[i] == Standardize(records[i]);
      } else {
        assert rows[i] == stubs[i - |snapped|];
      }
    }
  }

  /** The smallest and largest months of the standardised table are
      `first_month` and `last_month`. */
  lemma StandardizedMonthSpan(records: seq<Record>)
    requires ValidRecords(records)
    ensures var column := MonthIndexColumn(StandardizeDates(records));
      && Min(column) == MonthIndex(FirstMonth(records))
      && Max(column) == MonthIndex(LastMonth(records))
  {
    StandardizedRows(records);
    var lo, hi := MonthIndex(FirstMonth(records)), MonthIndex(LastMonth(records));
    var rows := StandardizeDates(records);
    var stubs := Stubs(lo, hi);
    StubsAt(lo, hi);
    assert rows[|records|] == stubs[0];
    assert rows[|rows| - 1] == stubs[hi - lo];
    var column := MonthIndexColumn(rows);
    assert column[|records|] == lo;
    assert column[|rows| - 1] == hi;
    MinIsLeast(column);
    MaxIsGreatest(column);
    var mn :| 0 <= mn < |column| && column[mn] == Min(column);
    var mx :| 0 <= mx < |column| && column[mx] == Max(column);
  }

  /** The records of month `m`, snapped and filled, in input order. */
  function MonthRecords(records: seq<Record>, m: Date): seq<Record>
    requires forall i :: 0 <= i < |records| ==> ValidDate(records[i].date)
  {
    InMonth(Snapped(records), m)
  }

  lemma {:induction false} InMonthStubs(lo: int, hi: int, i: int)
    requires MinMonthIndex <= lo && hi < EndMonthIndex && MinMonthIndex <= i < EndMonthIndex
    decreases hi - lo + 1
    ensures InMonth(Stubs(lo, hi), MonthStart(i)) == if lo <= i <= hi then [Stub(MonthStart(i))] else []
  {
    if lo <= hi {
      InMonthStubs(lo + 1, hi, i);
      MonthStartInjective(lo, i);
      InMonthCons(Stub(MonthStart(lo)), Stubs(lo + 1, hi), MonthStart(i));
    }
  }

  /** Filtering a row followed by more rows. */
  lemma InMonthCons(row: Record, rest: seq<Record>, m: Date)
    ensures InMonth([row] + rest, m) == (if row.date == m then [row] else []) + InMonth(rest, m)
  {
    assert ([row] + rest)[1..] == rest;
  }

  /** After standardisation every month in range has a group: its records plus its zero row. */
  lemma StandardizedGroup(records: seq<Record>, i: int)
    requires ValidRecords(records)
    requires MonthIndex(FirstMonth(records)) <= i <= MonthIndex(LastMonth(records))
    ensures InMonth(StandardizeDates(records), MonthStart(i))
            == MonthRecords(records, MonthStart(i)) + [Stub(MonthStart(i))]
  {
    var lo, hi := MonthIndex(FirstMonth(records)), MonthIndex(LastMonth(records));
    InMonthConcat(Snapped(records), Stubs(lo, hi), MonthStart(i));
    InMonthStubs(lo, hi, i);
  }

  /** Keys over a range in which every month has rows: the whole range. */
  lemma {:induction false} KeysFromAllPresent(column: seq<int>, lo: int, hi: int)
    requires MinMonthIndex <= lo && hi < EndMonthIndex && lo <= hi + 1
    requires forall i :: lo <= i <= hi ==> i in column
    decreases hi - lo + 1
    ensures |KeysFrom(column, lo, hi)| == hi - lo + 1
    ensures forall k :: 0 <= k <= hi - lo ==> KeysFrom(column, lo, hi)[k] == MonthStart(lo + k)
  {
    if lo <= hi {
      KeysFromAllPresent(column, lo + 1, hi);
      assert lo in column;
      MonthStartsCons(KeysFrom(column, lo, hi), KeysFrom(column, lo + 1, hi), lo, hi);
    }
  }

  /** Month `lo` followed by the months `lo + 1` to `hi` is the months `lo` to `hi`. */
  lemma MonthStartsCons(keys: seq<Date>, rest: seq<Date>, lo: int, hi: int)
    requires MinMonthIndex <= lo <= hi < EndMonthIndex
    requires keys == [MonthStart(lo)] + rest && |rest| == hi - lo
    requires forall k :: 0 <= k < hi - lo ==> rest[k] == MonthStart(lo + 1 + k)
    ensures |keys| == hi - lo + 1
    ensures forall k :: 0 <= k <= hi - lo ==> keys[k] == MonthStart(lo + k)
  {
    forall k | 0 <= k <= hi - lo ensures keys[k] == MonthStart(lo + k) {
      if k > 0 {
        assert keys[k] == rest[k - 1];
      }
    }
  }

  /** The months of `prod_df`: every month from `first_month` to `last_month`. */
  lemma ProdDfKeys(records: seq<Record>)
    requires ValidRecords(records)
    ensures var keys := GroupKeys(StandardizeDates(records));
            var lo, hi := MonthIndex(FirstMonth(records)), MonthIndex(LastMonth(records));
      && |keys| == hi - lo + 1
      && forall k :: 0 <= k < |keys| ==> keys[k] == MonthStart(lo + k)
  {
    var rows := StandardizeDates(records);
    var lo, hi := MonthIndex(FirstMonth(records)), MonthIndex(LastMonth(records));
    MonthsInOrder(records);
    StandardizedMonthSpan(records);
    StandardizedMonthsPresent(records);
    GroupKeysAllPresent(rows, lo, hi);
  }

  /** `first_month` is no later than `last_month`. */
  lemma MonthsInOrder(records: seq<Record>)
    requires ValidRecords(records)
    ensures MonthIndex(FirstMonth(records)) <= MonthIndex(LastMonth(records))
  {
    FirstMonthIsLeast(records);
    LastMonthIsGreatest(records);
    var i :| 0 <= i < |records| && MonthIndex(records[i].date) == MonthIndex(FirstMonth(records));
  }

  /** Every month from `first_month` to `last_month` has a group. */
  lemma StandardizedMonthsPresent(records: seq<Record>)
    requires ValidRecords(records)
    ensures forall i :: MonthIndex(FirstMonth(records)) <= i <= MonthIndex(LastMonth(records)) ==>
              InMonth(StandardizeDates(records), MonthStart(i)) != []
  {
    forall i | MonthIndex(FirstMonth(records)) <= i <= MonthIndex(LastMonth(records))
      ensures InMonth(StandardizeDates(records), MonthStart(i)) != []
    {
      StandardizedGroup(records, i);
    }
  }

  /** When every month from the smallest to the largest has rows, the keys are
      all those months. */
  lemma GroupKeysAllPresent(rows: seq<Record>, lo: int, hi: int)
    requires MonthlyRows(rows)
    requires Min(MonthIndexColumn(rows)) == lo && Max(MonthIndexColumn(rows)) == hi
    requires MinMonthIndex <= lo <= hi < EndMonthIndex
    requires forall i :: lo <= i <= hi ==> InMonth(rows, MonthStart(i)) != []
    ensures |GroupKeys(rows)| == hi - lo + 1
    ensures forall k :: 0 <= k < |GroupKeys(rows)| ==> GroupKeys(rows)[k] == MonthStart(lo + k)
  {
    var column := MonthIndexColumn(rows);
    forall i | lo <= i <= hi ensures i in column {
      HasGroupIffInColumn(rows, i);
    }
    KeysFromAllPresent(column, lo, hi);
  }

  /** `prod_df`: the standardised records grouped by month. */
  function BuildProdDf(cfg: Config, records: seq<Record>): (t: seq<MonthSummary>)
    requires ValidRecords(records)
    ensures |t| == MonthIndex(LastMonth(records)) - MonthIndex(FirstMonth(records)) + 1
  {
    ProdDfKeys(records);
    GroupByMonth(cfg, StandardizeDates(records))
  }

  /** Row `k` of `prod_df` is the fold of the group of the `k`-th month after
      `first_month`. */
  lemma ProdDfRow(cfg: Config, records: seq<Record>, k: int)
    requires ValidRecords(records) && 0 <= k < |BuildProdDf(cfg, records)|
    ensures var m := MonthStart(MonthIndex(FirstMonth(records)) + k);
      && InMonth(StandardizeDates(records), m) != []
      && BuildProdDf(cfg, records)[k] == Summarize(cfg, m, InMonth(StandardizeDates(records), m))
  {
    ProdDfKeys(records);
    var lo := MonthIndex(FirstMonth(records));
    var rows := StandardizeDates(records);
    var keys := GroupKeys(rows);
    var m := MonthStart(lo + k);
    assert keys[k] == m;
    GroupKeysAreMonths(rows);
  }

  /** `prod_df` has exactly one row per calendar month from `first_month` to
      `last_month`, ascending and with no month skipped. */
  lemma ProdDfMonths(cfg: Config, records: seq<Record>)
    requires ValidRecords(records)
    ensures var t := BuildProdDf(cfg, records);
      && t[0].month == FirstMonth(records)
      && t[|t| - 1].month == LastMonth(records)
      && forall k :: 0 <= k < |t| ==> t[k].month == MonthStart(MonthIndex(FirstMonth(records)) + k)
  {
    ProdDfKeys(records);
    GroupByMonthMonths(cfg, StandardizeDates(records));
    FirstOfMonthIsMonthStart(FirstMonth(records));
    FirstOfMonthIsMonthStart(LastMonth(records));
  }

  /** The columns of a group with the zero row appended. */
  lemma ColumnsWithStub(cfg: Config, g: seq<Record>, m: Date)
    requires ValidDate(m) && forall i :: 0 <= i < |g| ==> g[i].date == m
    ensures ProducingColumn(cfg, g + [Stub(m)]) == ProducingColumn(cfg, g) + [false]
    ensures ShutinColumn(cfg, g + [Stub(m)]) == ShutinColumn(cfg, g) + [false]
    ensures OilColumn(g + [Stub(m)]) == OilColumn(g) + [0]
    ensures GasColumn(g + [Stub(m)]) == GasColumn(g) + [0]
    ensures DaysProducedColumn(g + [Stub(m)]) == DaysProducedColumn(g) + [0]
  {
    var full := g + [Stub(m)];
    assert full[|g|] == Stub(m);
    assert !RowIsProducing(cfg, Stub(m));
    assert !RowIsShutin(cfg, Stub(m));
    assert forall i :: 0 <= i < |g| ==> full[i] == g[i];
  }

  /** What `prod_df` holds for month `m` whose records are `g`: the fold of the
      records with the month's zero row, which leaves sums and flags as the
      records give them and raises the largest days produced to at least 0. */
  function MonthFold(cfg: Config, m: Date, g: seq<Record>): MonthSummary
    requires ValidDate(m)
  {
    var days := IsConfiguredDaysProduced(cfg);
    var produced := MaxOrZero(DaysProducedColumn(g));
    MonthSummary(
      m,
      if cfg.oilProdCol.Some? then Some(Sum(OilColumn(g))) else None,
      if cfg.gasProdCol.Some? then Some(Sum(GasColumn(g))) else None,
      CountTrue(ProducingColumn(cfg, g)),
      CountTrue(ShutinColumn(cfg, g)),
      AnyTrue(ProducingColumn(cfg, g)),
      AnyTrue(ShutinColumn(cfg, g)),
      if days then Some(produced) else None,
      if days then Some(GetDaysInMonth(m) - produced) else None)
  }

  /** The fields of a month's fold, in terms of its records: OR and count for
      the flags, the largest days produced (0 when there are none or all are
      negative) and the month's length less that. */
  lemma MonthFoldMeaning(cfg: Config, m: Date, g: seq<Record>)
    requires ValidDate(m)
    ensures var s := MonthFold(cfg, m, g);
      && s.month == m
      && (s.anyActive <==> exists i :: 0 <= i < |g| && RowIsProducing(cfg, g[i]))
      && (s.anyShutin <==> exists i :: 0 <= i < |g| && RowIsShutin(cfg, g[i]))
      && s.numActive == multiset(ProducingColumn(cfg, g))[true]
      && s.numShutin == multiset(ShutinColumn(cfg, g))[true]
      && (s.daysProducing.Some? ==>
            && s.daysProducing.value >= 0
            && (forall i :: 0 <= i < |g| ==> g[i].daysProduced.GetOr(0) <= s.daysProducing.value)
            && (s.daysProducing.value == 0 || exists i :: 0 <= i < |g| && g[i].daysProduced.GetOr(0) == s.daysProducing.value)
            && s.daysNotProducing == Some(GetDaysInMonth(m) - s.daysProducing.value))
  {
    ProducingFlags(cfg, g);
    ShutinFlags(cfg, g);
    MaxOrZeroBounds(DaysProducedColumn(g));
    assert forall i :: 0 <= i < |g| ==> DaysProducedColumn(g)[i] == g[i].daysProduced.GetOr(0);
  }

  /** OR and count over the producing column. */
  lemma ProducingFlags(cfg: Config, g: seq<Record>)
    ensures AnyTrue(ProducingColumn(cfg, g)) <==> exists i :: 0 <= i < |g| && RowIsProducing(cfg, g[i])
    ensures CountTrue(ProducingColumn(cfg, g)) == multiset(ProducingColumn(cfg, g))[true]
  {
    var producing := ProducingColumn(cfg, g);
    AnyTrueIsOr(producing);
    CountTrueIsCount(producing);
    assert forall i :: 0 <= i < |g| ==> producing[i] == RowIsProducing(cfg, g[i]);
  }

  /** OR and count over the shut-in column. */
  lemma ShutinFlags(cfg: Config, g: seq<Record>)
    ensures AnyTrue(ShutinColumn(cfg, g)) <==> exists i :: 0 <= i < |g| && RowIsShutin(cfg, g[i])
    ensures CountTrue(ShutinColumn(cfg, g)) == multiset(ShutinColumn(cfg, g))[true]
  {
    var shutin := ShutinColumn(cfg, g);
    AnyTrueIsOr(shutin);
    CountTrueIsCount(shutin);
    assert forall i :: 0 <= i < |g| ==> shutin[i] == RowIsShutin(cfg, g[i]);
  }

  /** The larger of 0 and a column's maximum bounds the column, and is 0 or one
      of its cells. */
  lemma MaxOrZeroBounds(xs: seq<int>)
    ensures MaxOrZero(xs) >= 0
    ensures forall i :: 0 <= i < |xs| ==> xs[i] <= MaxOrZero(xs)
    ensures MaxOrZero(xs) == 0 || MaxOrZero(xs) in xs
  {
    if xs != [] {
      MaxIsGreatest(xs);
    }
  }

  /** A month's group with its zero row folds to the month's fold of the
      records alone. */
  lemma StubbedSummary(cfg: Config, m: Date, g: seq<Record>, full: seq<Record>)
    requires ValidDate(m) && forall i :: 0 <= i < |g| ==> g[i].date == m
    requires full == g + [Stub(m)]
    ensures full != [] && Summarize(cfg, m, full) == MonthFold(cfg, m, g)
  {
    assert forall i :: 0 <= i < |full| ==> full[i].date == m;
    ColumnsWithStub(cfg, g, m);
    AnyTrueAppendFalse(ProducingColumn(cfg, g));
    AnyTrueAppendFalse(ShutinColumn(cfg, g));
    SumAppendZero(OilColumn(g));
    SumAppendZero(GasColumn(g));
    MaxWithZero(DaysProducedColumn(g));
    MinUnproducingIsComplement(full, m);
  }

  /** Each `prod_df` row is the fold of the records of its month, the `k`-th
      after `first_month`. */
  lemma ProdDfMonthFields(cfg: Config, records: seq<Record>, k: int)
    requires ValidRecords(records) && 0 <= k < |BuildProdDf(cfg, records)|
    ensures var m := MonthStart(MonthIndex(FirstMonth(records)) + k);
            BuildProdDf(cfg, records)[k] == MonthFold(cfg, m, MonthRecords(records, m))
  {
    var lo := MonthIndex(FirstMonth(records));
    ProdDfKeys(records);
    StandardizedGroup(records, lo + k);
    GroupedMonth(cfg, StandardizeDates(records), records, lo + k, k);
  }

  /** A key of the grouped table whose group is a month's records plus its
      zero row holds that month's fold. */
  lemma GroupedMonth(cfg: Config, rows: seq<Record>, records: seq<Record>, i: int, k: int)
    requires MonthlyRows(rows) && ValidRecords(records)
    requires MinMonthIndex <= i < EndMonthIndex
    requires 0 <= k < |GroupKeys(rows)| && GroupKeys(rows)[k] == MonthStart(i)
    requires InMonth(rows, MonthStart(i)) == MonthRecords(records, MonthStart(i)) + [Stub(MonthStart(i))]
    ensures GroupByMonth(cfg, rows)[k] == MonthFold(cfg, MonthStart(i), MonthRecords(records, MonthStart(i)))
  {
    var m := MonthStart(i);
    StubbedSummary(cfg, m, MonthRecords(records, m), InMonth(rows, m));
  }

  /** The zero row added to a month changes none of its aggregates when the
      month's records report no negative days produced. */
  lemma StubRowIsAbsorbed(cfg: Config, m: Date, g: seq<Record>)
    requires g != [] && ValidDate(m) && forall i :: 0 <= i < |g| ==> g[i].date == m
    requires forall i :: 0 <= i < |g| ==> g[i].daysProduced.GetOr(0) >= 0
    ensures Summarize(cfg, m, g + [Stub(m)]) == Summarize(cfg, m, g)
  {
    StubbedSummary(cfg, m, g, g + [Stub(m)]);
    var produced := DaysProducedColumn(g);
    assert produced[0] >= 0;
    MaxIsGreatest(produced);
    assert MaxOrZero(produced) == Max(produced);
    MinUnproducingIsComplement(g, m);
  }

  lemma SumAppendZero(xs: seq<int>)
    ensures Sum(xs + [0]) == Sum(xs)
  {
    SumConcat(xs, [0]);
    assert [0][1..] == [];
  }

  lemma AnyTrueAppendFalse(bs: seq<bool>)
    ensures AnyTrue(bs + [false]) == AnyTrue(bs)
    ensures CountTrue(bs + [false]) == CountTrue(bs)
  {
    AnyTrueIsOr(bs);
    AnyTrueIsOr(bs + [false]);
    CountTrueIsCount(bs);
    CountTrueIsCount(bs + [false]);
    assert forall b :: b in bs + [false] <==> b in bs || b == false;
  }

  /** A well-formed month row: the month is a first day, each field is present
      iff its column is configured, days producing is at least 0, and days
      producing plus days not producing is the month's length. */
  predicate SummaryWellFormed(cfg: Config, s: MonthSummary) {
    && IsFirstOfMonth(s.month)
    && (s.oil.Some? <==> cfg.oilProdCol.Some?)
    && (s.gas.Some? <==> cfg.gasProdCol.Some?)
    && (s.daysProducing.Some? <==> IsConfiguredDaysProduced(cfg))
    && (s.daysNotProducing.Some? <==> IsConfiguredDaysProduced(cfg))
    && (s.daysProducing.Some? ==>
          s.daysProducing.value >= 0
          && s.daysProducing.value + s.daysNotProducing.value == GetDaysInMonth(s.month))
  }

  /** The months of a table are consecutive, starting from its first row. */
  predicate ContiguousMonths(t: seq<MonthSummary>) {
    t != [] && forall k :: 0 <= k < |t| ==> MonthIndex(t[k].month) == MonthIndex(t[0].month) + k
  }

  /** The shape `prod_df` always has. */
  predicate ProdTable(cfg: Config, t: seq<MonthSummary>) {
    ContiguousMonths(t) && forall k :: 0 <= k < |t| ==> SummaryWellFormed(cfg, t[k])
  }

  lemma ProdDfIsProdTable(cfg: Config, records: seq<Record>)
    requires ValidRecords(records)
    ensures ProdTable(cfg, BuildProdDf(cfg, records))
  {
    ProdDfMonths(cfg, records);
    var t := BuildProdDf(cfg, records);
    forall k | 0 <= k < |t| ensures SummaryWellFormed(cfg, t[k]) {
      ProdDfMonthFields(cfg, records, k);
      var m := MonthStart(MonthIndex(FirstMonth(records)) + k);
      MonthFoldWellFormed(cfg, m, MonthRecords(records, m));
    }
  }

  /** Every month fold is a well-formed row. */
  lemma MonthFoldWellFormed(cfg: Config, m: Date, g: seq<Record>)
    requires IsFirstOfMonth(m)
    ensures SummaryWellFormed(cfg, MonthFold(cfg, m, g))
  {
    MonthFoldMeaning(cfg, m, g);
  }
}
