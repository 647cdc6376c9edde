/** The analyzer's configuration and the per-record classification done by
    `row_is_producing`, `row_is_shutin` and `row_num_unproducing_days`. */
module Records {
  import opened Wrappers
  import opened Calendar

  /** The constructor's `shutin_codes` argument: absent, a single string, or a list. */
  datatype ShutinCodesArg = NoCodes | OneCode(code: string) | CodeList(codes: seq<string>)

  /** The analyzer's column configuration; a column is configured iff its name is present. */
  datatype Config = Config(
    dateCol: string,
    oilProdCol: Option<string>,
    gasProdCol: Option<string>,
    daysProducedCol: Option<string>,
    statusCol: Option<string>,
    shutinCodes: Option<seq<string>>,
    oilProdMin: int,
    gasProdMin: int)

  /** One row of the production table. The optional columns are `None` when the
      cell is missing; a missing status (filled with 0) is `None` as well, since
      0 is never one of the string shut-in codes. */
  datatype Record = Record(
    date: Date,
    oil: Option<int>,
    gas: Option<int>,
    daysProduced: Option<int>,
    status: Option<string>)

  /** A single string code is turned into a one-element list. */
  function NormalizeShutinCodes(arg: ShutinCodesArg): (codes: Option<seq<string>>)
    ensures codes.None? <==> arg.NoCodes?
    ensures forall c :: (codes.Some? && c in codes.value) <==>
                        ((arg.OneCode? && c == arg.code) || (arg.CodeList? && c in arg.codes))
  {
    match arg
    case NoCodes => None
    case OneCode(code) => Some([code])
    case CodeList(codes) => Some(codes)
  }

  /** The configuration the constructor stores. */
  function MakeConfig(
    dateCol: string, oilProdCol: Option<string>, gasProdCol: Option<string>,
    daysProducedCol: Option<string>, statusCol: Option<string>,
    shutinCodes: ShutinCodesArg, oilProdMin: int, gasProdMin: int): Config
  {
    Config(dateCol, oilProdCol, gasProdCol, daysProducedCol, statusCol,
           NormalizeShutinCodes(shutinCodes), oilProdMin, gasProdMin)
  }

  predicate IsConfiguredShutin(cfg: Config) {
    cfg.shutinCodes.Some? && cfg.statusCol.Some?
  }

  predicate IsConfiguredProduction(cfg: Config) {
    cfg.oilProdCol.Some? || cfg.gasProdCol.Some?
  }

  predicate IsConfiguredDaysProduced(cfg: Config) {
    cfg.daysProducedCol.Some?
  }

  /** The quantity that counts towards production: 0 when the column is not
      configured, the cell is missing, or the quantity is below the minimum. */
  function CheckMinProd(col: Option<string>, quantity: Option<int>, minimum: int): (p: int)
    ensures col.None? || quantity.None? ==> p == 0
    ensures col.Some? && quantity.Some? && quantity.value >= minimum ==> p == quantity.value
    ensures col.Some? && quantity.Some? && quantity.value < minimum ==> p == 0
  {
    if col.None? then 0
    else
      var q := quantity.GetOr(0);
      if q < minimum then 0 else q
  }

  /** `row_is_producing`: the surviving oil and gas quantities add up to more than 0. */
  predicate RowIsProducing(cfg: Config, row: Record)
    ensures !IsConfiguredProduction(cfg) ==> !RowIsProducing(cfg, row)
  {
    CheckMinProd(cfg.oilProdCol, row.oil, cfg.oilProdMin)
    + CheckMinProd(cfg.gasProdCol, row.gas, cfg.gasProdMin) > 0
  }

  /** A configured quantity that is present, positive and at least its minimum. */
  predicate MeetsThreshold(col: Option<string>, quantity: Option<int>, minimum: int) {
    col.Some? && quantity.Some? && quantity.value > 0 && quantity.value >= minimum
  }

  /** With non-negative quantities, a record is producing iff oil or gas meets
      its threshold. */
  lemma ProducingIffThresholdMet(cfg: Config, row: Record)
    requires row.oil.Some? ==> row.oil.value >= 0
    requires row.gas.Some? ==> row.gas.value >= 0
    ensures RowIsProducing(cfg, row) <==>
              MeetsThreshold(cfg.oilProdCol, row.oil, cfg.oilProdMin)
              || MeetsThreshold(cfg.gasProdCol, row.gas, cfg.gasProdMin)
  {
  }

  /** `row_is_shutin`: a configured status column whose value is one of the codes. */
  predicate RowIsShutin(cfg: Config, row: Record)
    ensures RowIsShutin(cfg, row) <==>
              IsConfiguredShutin(cfg) && row.status.Some? && row.status.value in cfg.shutinCodes.value
  {
    if cfg.statusCol.None? then false
    else
      var codes := cfg.shutinCodes.GetOr([]);
      row.status.Some? && row.status.value in codes
  }

  /** With a single code given to the constructor, a record is shut-in iff its
      status is exactly that code. */
  lemma SingleCodeShutin(
    dateCol: string, oilProdCol: Option<string>, gasProdCol: Option<string>,
    daysProducedCol: Option<string>, statusCol: string, code: string,
    oilProdMin: int, gasProdMin: int, row: Record)
    ensures var cfg := MakeConfig(dateCol, oilProdCol, gasProdCol, daysProducedCol,
                                  Some(statusCol), OneCode(code), oilProdMin, gasProdMin);
            RowIsShutin(cfg, row) <==> row.status == Some(code)
  {
  }

  /** `row_num_unproducing_days`: the month's length less the days produced;
      a missing count means the whole month. Not clamped. */
  function RowNumUnproducingDays(row: Record): (n: int)
    requires ValidDate(row.date)
    ensures n + row.daysProduced.GetOr(0) == GetDaysInMonth(row.date)
  {
    var daysInMonth := GetDaysInMonth(row.date);
    match row.daysProduced
    case None => daysInMonth
    case Some(daysProduced) => daysInMonth - daysProduced
  }

  /** More days produced than the month has gives a negative count. */
  lemma UnproducingDaysNotClamped(row: Record)
    requires ValidDate(row.date) && row.daysProduced.Some?
    requires row.daysProduced.value > GetDaysInMonth(row.date)
    ensures RowNumUnproducingDays(row) < 0
  {
  }
}
