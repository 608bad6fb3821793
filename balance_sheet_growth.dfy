/** The balance-sheet growth fetcher: one finance query for the annual or
    year-to-date period, and the row pipeline `extract_data` runs on the frame
    the store returns. */
module BalanceSheetGrowth {
  import opened Wrappers
  import opened Values
  import opened Frames
  import opened Statements
  import References

  /** The query's period is declared `Literal["annual", "ytd"]`. */
  type GrowthPeriod = p: Period | p != Quarter witness Annual

  /** The growth rate the store already computes (`FIN_METRICS_PER_SHARE`). */
  const FinMetrics: seq<string> := ["总资产同比增长率（百分比）"]

  /** `metrics_mapping`: output field -> raw balance-sheet factor. */
  const MetricsMapping: seq<(string, string)> := [
    ("growth_inventory", "存货"),
    ("growth_other_current_assets", "其他流动资产"),
    ("growth_total_current_assets", "流动资产合计"),
    ("growth_goodwill", "商誉"),
    ("growth_intangible_assets", "无形资产"),
    ("growth_other_non_current_assets", "其他非流动资产"),
    ("growth_total_non_current_assets", "非流动资产合计"),
    ("growth_account_payables", "应付账款"),
    ("growth_other_current_liabilities", "其他流动负债"),
    ("growth_total_current_liabilities", "流动负债合计"),
    ("growth_other_non_current_liabilities", "其他非流动负债"),
    ("growth_total_non_current_liabilities", "非流动负债合计"),
    ("growth_total_liabilities", "负债合计"),
    ("growth_retained_earnings", "留存收益"),
    ("growth_total_shareholders_equity", "股东权益合计"),
    ("growth_total_liabilities_and_shareholders_equity", "负债和股东权益合计"),
    ("growth_net_debt", "净债务")
  ]

  /** The finance query for the growth rate and the raw factors. The period is
      never `quarter`, so `get_report_month` cannot raise; the query looks back
      `limit + 1` periods. */
  function Plan(period: GrowthPeriod, symbol: string, limit: int): (r: Result<Query>)
    ensures r.Ok? && r.value.FinanceQuery? && r.value.symbols == [symbol]
    ensures r.value.factors == FinMetrics + DictValues(MetricsMapping)
    ensures References.GetReportMonth(PeriodName(period), -limit - 1) == Ok(r.value.reportMonth)
    ensures ScriptLimit(r.value) == Some(-limit - 1)
  {
    match References.GetReportMonth(PeriodName(period), -limit - 1)
    case Ok(reportMonth) => Ok(FinanceQuery(FinMetrics + DictValues(MetricsMapping), [symbol], reportMonth))
    case Err(e) => Err(e)
  }

  /** The frame less the raw factor columns, as `drop` leaves it. */
  function WithoutRawFactors(t: Table): (r: Table)
    requires forall c :: c in DictValues(MetricsMapping) ==> c in t.columns
    ensures forall c :: c in r.columns <==> c in t.columns && c !in DictValues(MetricsMapping)
    ensures |r.rows| == |t.rows|
    ensures forall i :: 0 <= i < |t.rows| ==> r.rows[i] == t.rows[i] - ColumnSet(DictValues(MetricsMapping))
  {
    var d := DropColumns(t, DictValues(MetricsMapping)).value;
    assert forall i :: 0 <= i < |t.rows| ==> d.rows[i] == t.rows[i] - ColumnSet(DictValues(MetricsMapping));
    d
  }

  /** What the pipeline makes of a non-empty frame before it sorts: the raw
      factor columns dropped, the last `limit` rows kept (all of them for
      `limit == 0`), in order, the growth rate divided by 100; or the
      exception one of these steps raises. */
  function Prepared(t: Table, limit: int): (r: Result<Table>)
    ensures (exists c :: c in DictValues(MetricsMapping) && c !in t.columns) ==> r.Err? && r.error.KeyError?
    ensures r.Ok? ==> forall c :: c in r.value.columns <==> c in t.columns && c !in DictValues(MetricsMapping)
    ensures r.Ok? ==> |r.value.rows| == |TailRows(t, limit).rows| <= |t.rows|
    ensures r.Ok? && limit >= 1 ==> |r.value.rows| == if limit <= |t.rows| then limit else |t.rows|
    ensures r.Ok? ==> IsDividedTail(r.value.rows, WithoutRawFactors(t), ColumnSet(FinMetrics))
    ensures r.Ok? ==> forall i, c :: 0 <= i < |r.value.rows| && c in DictValues(MetricsMapping) ==> c !in r.value.rows[i]
    ensures r.Err? ==> r.error.KeyError? || r.error == AttributeError || r.error == TypeError
  {
    var dropped :- DropColumns(t, DictValues(MetricsMapping));
    assert dropped == WithoutRawFactors(t);
    var tail := TailRows(dropped, limit);
    var e := DateFormatError(tail, PeriodColumn);
    if e.Some? then Err(e.value)
    else
      var divided :- DivideColumns(tail, FinMetrics);
      TailDivided(dropped, limit, FinMetrics);
      Ok(divided)
  }

  /** `extract_data`: nothing back or an empty frame raises `EmptyDataError`;
      otherwise the prepared rows come back sorted by report period, newest
      first, at most `limit` of them and none holding a raw factor. */
  method ExtractData(period: GrowthPeriod, symbol: string, limit: int, store: Store) returns (r: Result<seq<Record>>)
    ensures var got := store(Plan(period, symbol, limit).value);
      && ((got.None? || IsEmpty(got.value)) ==> r == Err(EmptyData))
      && (got.Some? && !IsEmpty(got.value) ==> (r.Ok? <==> Prepared(got.value, limit).Ok?))
      && (got.Some? && !IsEmpty(got.value) && r.Err? ==> r.error == Prepared(got.value, limit).error)
      && (r.Ok? ==> got.Some? && multiset(r.value) == multiset(Prepared(got.value, limit).value.rows))
    ensures r.Ok? ==> SortedByPeriodDesc(r.value)
    ensures r.Ok? && limit >= 1 ==> |r.value| <= limit
    ensures r.Ok? ==> forall i, c :: 0 <= i < |r.value| && c in DictValues(MetricsMapping) ==> c !in r.value[i]
  {
    var q := Plan(period, symbol, limit).value;
    var got := store(q);
    if got.None? || IsEmpty(got.value) {
      return Err(EmptyData);
    }
    var df := new Frame(got.value);
    var err := df.Drop(DictValues(MetricsMapping));
    if err.Some? {
      return Err(err.value);
    }
    df.KeepLast(limit);
    err := df.FormatDates(PeriodColumn);
    if err.Some? {
      return Err(err.value);
    }
    err := df.Divide(FinMetrics);
    if err.Some? {
      return Err(err.value);
    }
    ghost var prepared := df.rows;
    assert prepared == Prepared(got.value, limit).value.rows;
    df.SortByPeriod();
    assert |df.rows| == |multiset(df.rows)| == |multiset(prepared)| == |prepared|;
    ExtractedLacksRawFactors(df.rows, got.value, limit);
    r := Ok(df.rows);
  }

  /** No returned row holds a raw factor: whatever order the sort picks, the
      rows are those of the prepared frame. */
  lemma ExtractedLacksRawFactors(rows: seq<Record>, t: Table, limit: int)
    requires Prepared(t, limit).Ok? && multiset(rows) == multiset(Prepared(t, limit).value.rows)
    ensures forall i, c :: 0 <= i < |rows| && c in DictValues(MetricsMapping) ==> c !in rows[i]
  {
    var prepared := Prepared(t, limit).value.rows;
    forall i | 0 <= i < |rows|
      ensures rows[i] in prepared
    {
      assert rows[i] in multiset(rows);
    }
  }
}
