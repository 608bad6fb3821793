/** The income-statement growth fetcher: its flattened alias dictionary, the
    query it plans for each period, and the row pipeline `extract_data` runs on
    the frame the store returns. */
module IncomeStatementGrowth {
  import opened Wrappers
  import opened Values
  import opened Frames
  import opened Statements
  import opened Lists
  import References

  // ---------------------------------------------------------------------
  // The alias dictionary

  /** What a field of the alias dictionary lists: one source column, or a
      tuple of them. */
  datatype AliasSource = One(name: string) | Several(names: seq<string>)

  function SourceNames(s: AliasSource): seq<string> {
    match s
    case One(n) => [n]
    case Several(ns) => ns
  }

  /** The model's field -> source-column(s) table, in declaration order. */
  const AliasTable: seq<(string, AliasSource)> := [
    ("period_ending", One("报告期")),
    ("growth_revenue", Several(["营业总收入同比增长率（百分比）", "营业总收入"])),
    ("growth_operating_income", Several(["营业收入同比增长率", "营业收入"])),
    ("growth_basic_earings_per_share", Several(["基本每股收益同比增长率（百分比）", "基本每股收益"])),
    ("growth_diluted_earnings_per_share", Several(["稀释每股收益同比增长率（百分比）", "稀释每股收益"])),
    ("growth_cost_of_revenue", One("营业成本")),
    ("growth_gross_profit", One("毛利")),
    ("growth_research_and_development_expense", One("研发费用")),
    ("growth_depreciation_and_amortization", One("折旧与摊销")),
    ("growth_ebitda", One("息税折旧摊销前利润")),
    ("growth_income_tax_expense", One("所得税费用"))
  ]

  /** The inverted dictionary `{orig: alias for alias, values in table for orig
      in values}`: exactly the listed source names are keys. */
  function InvertAliases(table: seq<(string, AliasSource)>): (m: map<string, string>)
    ensures forall i, n :: 0 <= i < |table| && n in SourceNames(table[i].1) ==> n in m
    ensures forall n :: n in m ==> exists i :: 0 <= i < |table| && n in SourceNames(table[i].1)
    decreases |table|
  {
    if table == [] then map[]
    else
      var init := table[..|table| - 1];
      var last := table[|table| - 1];
      assert forall i :: 0 <= i < |init| ==> init[i] == table[i];
      InvertAliases(init) + map n | n in SourceNames(last.1) :: last.0
  }

  /** A source name maps to the field that lists it; when several fields list
      it, the last one wins, as later entries overwrite earlier ones. */
  lemma {:induction false} InvertAliasesAt(table: seq<(string, AliasSource)>, i: nat, n: string)
    requires i < |table| && n in SourceNames(table[i].1)
    requires forall j :: i < j < |table| ==> n !in SourceNames(table[j].1)
    ensures n in InvertAliases(table) && InvertAliases(table)[n] == table[i].0
    decreases |table|
  {
    var init := table[..|table| - 1];
    if i < |table| - 1 {
      assert init[i] == table[i];
      InvertAliasesAt(init, i, n);
    }
  }

  /** Both names of a tuple map back to the same field: the growth-rate column
      and the raw revenue column both become `growth_revenue`. */
  lemma RevenueAliases()
    ensures var m := InvertAliases(AliasTable);
      "营业总收入同比增长率（百分比）" in m && m["营业总收入同比增长率（百分比）"] == "growth_revenue"
    ensures var m := InvertAliases(AliasTable);
      "营业总收入" in m && m["营业总收入"] == "growth_revenue"
  {
    forall j | 1 < j < |AliasTable|
      ensures "营业总收入" !in SourceNames(AliasTable[j].1)
      ensures "营业总收入同比增长率（百分比）" !in SourceNames(AliasTable[j].1)
    {
      var ns := SourceNames(AliasTable[j].1);
      assert |ns| <= 2;
    }
    InvertAliasesAt(AliasTable, 1, "营业总收入同比增长率（百分比）");
    InvertAliasesAt(AliasTable, 1, "营业总收入");
  }

  // ---------------------------------------------------------------------
  // The query

  /** The annual and year-to-date factors (`DDB_DATA`). */
  const DdbData: seq<string> := [
    "营业总收入同比增长率（百分比）", "营业收入同比增长率", "基本每股收益同比增长率（百分比）",
    "稀释每股收益同比增长率（百分比）", "营业成本", "毛利", "研发费用", "折旧与摊销",
    "息税折旧摊销前利润", "减：所得税费用"
  ]

  /** The quarterly-table factors (`CACULATE_DATA_QTR_DIC`), in order. */
  const QuarterFactors: seq<(string, string)> := [
    ("operating_costs", "营业成本"), ("total_op_income", "营业总收入"), ("operating_income", "营业收入"),
    ("eps", "基本每股收益"), ("diluted_eps", "稀释每股收益"), ("rd_costs", "研发费用"),
    ("tax_expense", "所得税费用")
  ]

  /** The query `extract_data` sends: the quarterly table for `quarter`,
      otherwise the finance factors with the report-month clause of the
      period. Both look back `limit + 1` periods, one more than are returned,
      and `get_report_month` never sees `quarter`, so planning never fails. */
  function Plan(period: Period, symbol: string, limit: int): (r: Result<Query>)
    ensures r.Ok? && r.value.symbols == [symbol]
    ensures r.value.QuarterQuery? <==> period == Quarter
    ensures r.value.QuarterQuery? ==> r.value.table == "income_statement_qtr" && r.value.factorNames == QuarterFactors
    ensures r.value.FinanceQuery? ==> r.value.factors == DdbData
    ensures r.value.FinanceQuery? ==> References.GetReportMonth(PeriodName(period), -limit - 1) == Ok(r.value.reportMonth)
    ensures ScriptLimit(r.value) == Some(-limit - 1)
  {
    if period == Quarter then Ok(QuarterQuery(QuarterFactors, [symbol], "income_statement_qtr", -limit - 1))
    else
      match References.GetReportMonth(PeriodName(period), -limit - 1)
      case Ok(reportMonth) => Ok(FinanceQuery(DdbData, [symbol], reportMonth))
      case Err(e) => Err(e)
  }

  // ---------------------------------------------------------------------
  // The row pipeline

  /** `list(set(col for col in DDB_DATA + list(CACULATE_DATA_QTR_DIC.values())
      if col in df.columns))`: the listed factor names the frame has, once each. */
  function ColumnsToDivide(columns: seq<string>): (r: seq<string>)
    ensures Distinct(r)
    ensures forall c :: c in r <==> (c in DdbData || c in DictValues(QuarterFactors)) && c in columns
  {
    Dedupe(Within(DdbData + DictValues(QuarterFactors), ColumnSet(columns)))
  }

  /** What the pipeline makes of a non-empty frame before it sorts: the last
      `limit` rows (all of them for `limit == 0`), in order, each with the
      present factor columns divided by 100; or the exception the division or
      the date formatting raises. */
  function Prepared(t: Table, limit: int): (r: Result<Table>)
    ensures r.Ok? ==> r.value.columns == t.columns
    ensures r.Ok? ==> |r.value.rows| == |TailRows(t, limit).rows| <= |t.rows|
    ensures r.Ok? && limit >= 1 ==> |r.value.rows| == if limit <= |t.rows| then limit else |t.rows|
    ensures r.Ok? ==> IsDividedTail(r.value.rows, t, ColumnSet(ColumnsToDivide(t.columns)))
    ensures r.Err? ==> r.error == TypeError || r.error == KeyError(PeriodColumn) || r.error == AttributeError
  {
    var tail := TailRows(t, limit);
    var cols := ColumnsToDivide(tail.columns);
    var divided :- DivideColumns(tail, cols);
    TailDivided(t, limit, cols);
    var e := DateFormatError(divided, PeriodColumn);
    if e.Some? then Err(e.value) else Ok(divided)
  }

  /** `extract_data`: nothing back or an empty frame raises pandas' `EmptyDataError`;
      otherwise the prepared rows come back sorted by report period,
      newest first, at most `limit` of them. */
  method ExtractData(period: Period, symbol: string, limit: int, store: Store) returns (r: Result<seq<Record>>)
    ensures var got := store(Plan(period, symbol, limit).value);
      && ((got.None? || IsEmpty(got.value)) ==> r == Err(PandasEmptyData))
      && (got.Some? && !IsEmpty(got.value) ==> (r.Ok? <==> Prepared(got.value, limit).Ok?))
      && (got.Some? && !IsEmpty(got.value) && r.Err? ==> r.error == Prepared(got.value, limit).error)
      && (r.Ok? ==> got.Some? && multiset(r.value) == multiset(Prepared(got.value, limit).value.rows))
    ensures r.Ok? ==> SortedByPeriodDesc(r.value)
    ensures r.Ok? && limit >= 1 ==> |r.value| <= limit
  {
    var q := Plan(period, symbol, limit).value;
    var got := store(q);
    if got.None? || IsEmpty(got.value) {
      return Err(PandasEmptyData);
    }
    var df := new Frame(got.value);
    df.KeepLast(limit);
    ghost var tail := df.View();
    var err := df.Divide(ColumnsToDivide(df.columns));
    if err.Some? {
      assert Prepared(got.value, limit) == Err(err.value) by {
        assert DivideColumns(tail, ColumnsToDivide(tail.columns)) == Err(err.value);
      }
      return Err(err.value);
    }
    ghost var divided := df.View();
    assert DivideColumns(tail, ColumnsToDivide(tail.columns)) == Ok(divided);
    err := df.FormatDates(PeriodColumn);
    if err.Some? {
      return Err(err.value);
    }
    assert Prepared(got.value, limit) == Ok(divided);
    df.SortByPeriod();
    assert |df.rows| == |multiset(df.rows)| == |multiset(divided.rows)| == |divided.rows|;
    r := Ok(df.rows);
  }
}
