/** The income-statement fetcher: the quarterly table for `quarter`, the
    finance factors otherwise, and the row pipeline `extract_data` runs on the
    frame the store returns. */
module IncomeStatement {
  import opened Wrappers
  import opened Values
  import opened Frames
  import opened Statements
  import References

  /** The annual and year-to-date factors. */
  const Factors: seq<string> := [
    "营业总收入", "营业总成本", "营业成本", "研发费用", "每股收益", "稀释每股收益",
    "综合收益总额", "其中：利息收入", "利息支出", "其他收益", "持续经营净利润",
    "终止经营净利润", "息税折旧摊销前利润", "折旧与摊销"
  ]

  /** The quarterly-table factors: output field -> source column, in order. */
  const QuarterFactors: seq<(string, string)> := [
    ("total_op_income", "营业总收入"), ("total_operating_costs", "营业总成本"),
    ("operating_costs", "营业成本"), ("rd_costs", "研发费用"), ("eps", "每股收益"),
    ("diluted_eps", "稀释每股收益"), ("total_comprehensive_income", "综合收益总额"),
    ("fi_interest_income", "其中：利息收入"), ("fi_other_income", "其他收益"),
    ("fi_net_profit_continuing_operations", "持续经营净利润"),
    ("fi_iscontinued_operating_net_profit", "终止经营净利润")
  ]

  /** The query `extract_data` sends. */
  function Plan(period: Period, symbol: string, limit: int): Result<Query> {
    StatementPlan(period, symbol, limit, "income_statement_qtr", QuarterFactors, Factors)
  }

  /** The exception formatting the two date columns raises, if any: the
      report period first, then the timestamp. */
  function FormatError(t: Table): (e: Option<Error>)
    ensures e.None? <==> (PeriodColumn in t.columns && "timestamp" in t.columns
      && forall i :: 0 <= i < |t.rows| ==>
        (Cell(t.rows[i], PeriodColumn).DateV? || Cell(t.rows[i], PeriodColumn).Null?)
        && (Cell(t.rows[i], "timestamp").DateV? || Cell(t.rows[i], "timestamp").Null?))
    ensures PeriodColumn !in t.columns ==> e == Some(KeyError(PeriodColumn))
    ensures PeriodColumn in t.columns && "timestamp" !in t.columns ==>
      e == Some(AttributeError) || e == Some(KeyError("timestamp"))
    ensures e.Some? ==> e.value.KeyError? || e.value == AttributeError
  {
    var e := DateFormatError(t, PeriodColumn);
    if e.Some? then e else DateFormatError(t, "timestamp")
  }

  /** `extract_data`: nothing back or an empty frame raises `EmptyDataError`;
      a missing or non-date date column raises; otherwise every row comes back,
      sorted by report period, newest first. */
  method ExtractData(period: Period, symbol: string, limit: int, store: Store) returns (r: Result<seq<Record>>)
    ensures var got := store(Plan(period, symbol, limit).value);
      && ((got.None? || IsEmpty(got.value)) ==> r == Err(EmptyData))
      && (got.Some? && !IsEmpty(got.value) ==> (r.Ok? <==> FormatError(got.value).None?))
      && (got.Some? && !IsEmpty(got.value) && r.Err? ==> r.error == FormatError(got.value).value)
      && (r.Ok? ==> got.Some? && multiset(r.value) == multiset(got.value.rows))
    ensures r.Ok? ==> SortedByPeriodDesc(r.value)
  {
    var q := Plan(period, symbol, limit).value;
    var got := store(q);
    if got.None? || IsEmpty(got.value) {
      return Err(EmptyData);
    }
    var df := new Frame(got.value);
    var err := df.FormatDates(PeriodColumn);
    if err.Some? {
      return Err(err.value);
    }
    err := df.FormatDates("timestamp");
    if err.Some? {
      return Err(err.value);
    }
    df.SortByPeriod();
    r := Ok(df.rows);
  }
}
