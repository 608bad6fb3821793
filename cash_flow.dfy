/** The cash-flow statement fetcher: the quarterly table for `quarter`, the
    finance factors otherwise, and the row pipeline `extract_data` runs on the
    frame the store returns. */
module CashFlow {
  import opened Wrappers
  import opened Values
  import opened Frames
  import opened Statements
  import References

  /** The annual and year-to-date factors. */
  const Factors: seq<string> := [
    "经营活动产生的现金流量净额", "投资活动产生的现金流量净额", "发行债券收到的现金",
    "偿还债务支付的现金", "筹资活动产生的现金流量净额", "折旧与摊销"
  ]

  /** The quarterly-table factors: output field -> source column, in order. */
  const QuarterFactors: seq<(string, string)> := [
    ("net_op_cash_flows", "经营活动产生的现金流量净额"),
    ("net_investing_cash_flows", "投资活动产生的现金流量净额"),
    ("cash_from_issuing_bonds", "发行债券收到的现金"),
    ("cash_to_repay_borrowings", "偿还债务支付的现金")
  ]

  /** The query `extract_data` sends. */
  function Plan(period: Period, symbol: string, limit: int): Result<Query> {
    StatementPlan(period, symbol, limit, "cash_flow_statement_qtr", QuarterFactors, Factors)
  }

  /** `extract_data`: nothing back or an empty frame raises `EmptyDataError`;
      a missing or non-date report period raises; otherwise every row comes
      back, sorted by report period, newest first. */
  method ExtractData(period: Period, symbol: string, limit: int, store: Store) returns (r: Result<seq<Record>>)
    ensures var got := store(Plan(period, symbol, limit).value);
      && ((got.None? || IsEmpty(got.value)) ==> r == Err(EmptyData))
      && (got.Some? && !IsEmpty(got.value) ==> (r.Ok? <==> (PeriodColumn in got.value.columns
        && forall i :: 0 <= i < |got.value.rows| ==> PeriodOf(got.value.rows[i]).DateV? || PeriodOf(got.value.rows[i]).Null?)))
      && (got.Some? && !IsEmpty(got.value) && PeriodColumn !in got.value.columns ==> r == Err(KeyError(PeriodColumn)))
      && (r.Ok? ==> got.Some? && multiset(r.value) == multiset(got.value.rows))
    ensures r.Err? ==> r.error == EmptyData || r.error.KeyError? || r.error == AttributeError
    ensures r.Ok? ==> SortedByPeriodDesc(r.value)
  {
    var q := Plan(period, symbol, limit).value;
    var got := store(q);
    if got.None? || IsEmpty(got.value) {
      return Err(EmptyData);
    }
    var df := new Frame(got.value);
    var err := df.FormatDates(PeriodColumn);
    if err.Some? {
      return Err(err.value);
    }
    df.SortByPeriod();
    r := Ok(df.rows);
  }
}
