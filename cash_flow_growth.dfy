/** The cash-flow growth fetcher: a quarterly query merged with an annual
    one for `quarter`, a single finance query otherwise, and the row pipeline
    `extract_data` runs on the result. */
module CashFlowGrowth {
  import opened Wrappers
  import opened Values
  import opened Frames
  import opened Statements
  import References

  /** The growth rate the store already computes (`DDB_DATA`). */
  const DdbData: seq<string> := ["净利润同比增长率（百分比）"]

  /** `CACULATE_DATA_DIC`: output field -> raw annual factor. */
  const CalcFactors: seq<(string, string)> := [
    ("growth_depreciation_and_amortization", "折旧与摊销"),
    ("growth_account_receivables", "应收账款"),
    ("growth_inventory", "存货"),
    ("growth_account_payable", "应付账款")
  ]

  /** `CACULATE_DATA_QTR_DIC`: output field -> raw quarterly factor. */
  const QuarterFactors: seq<(string, string)> := [
    ("net_op_cash_flows", "经营活动产生的现金流量净额"),
    ("net_investing_cash_flows", "投资活动产生的现金流量净额"),
    ("foreign_exchange_rate_effect", "汇率变动对现金及现金等价物的影响"),
    ("net_cash_increase", "现金及现金等价物净增加额"),
    ("cash_at_beginning", "加：期初现金及现金等价物余额"),
    ("cash", "期末现金及现金等价物余额")
  ]

  /** The columns the quarterly and annual frames are merged on. */
  const MergeKeys: seq<string> := [PeriodColumn, "symbol", "timestamp"]

  /** The columns that become the index before the final selection. */
  const IndexColumns: seq<string> := [PeriodColumn, "timestamp", "symbol"]

  /** The non-index columns the output may keep. */
  function KeptColumns(): (r: seq<string>)
    ensures forall c :: c in r <==> c in DdbData || c in DictKeys(CalcFactors) || c in DictKeys(QuarterFactors)
  {
    DdbData + DictKeys(CalcFactors) + DictKeys(QuarterFactors)
  }

  /** Every raw factor the store is asked for, quarterly then annual. */
  function RawFactors(): (r: seq<string>)
    ensures forall c :: c in r <==> c in DictValues(QuarterFactors) || c in DictValues(CalcFactors)
  {
    DictValues(QuarterFactors) + DictValues(CalcFactors)
  }

  /** The two dictionaries share no output field, so their union lists the
      quarterly raw factors, then the annual ones. */
  lemma RawUnion()
    ensures DictValues(DictUnion(QuarterFactors, CalcFactors)) == RawFactors()
  {
    forall k | k in DictKeys(QuarterFactors)
      ensures k !in DictKeys(CalcFactors)
    {
      assert k[0] != 'g';
    }
    DisjointUnion(QuarterFactors, CalcFactors);
    assert DictValues(QuarterFactors + CalcFactors) == DictValues(QuarterFactors) + DictValues(CalcFactors);
  }

  /** A raw factor ends unlike a label pandas suffixed with `_x` or `_y`. */
  lemma RawEnds()
    ensures forall c :: c in RawFactors() ==> c != [] && c[|c| - 1] != 'x' && c[|c| - 1] != 'y'
  {
    forall c | c in RawFactors()
      ensures c != [] && c[|c| - 1] != 'x' && c[|c| - 1] != 'y'
    {
      RawFactorShape(c);
    }
  }

  /** No raw factor is an index or a kept column. */
  lemma RawNotSelected()
    ensures forall c :: c in RawFactors() ==> c !in IndexColumns && c !in KeptColumns()
  {
    forall c | c in RawFactors()
      ensures c !in IndexColumns && c !in KeptColumns()
    {
      RawFactorShape(c);
      RawLikeNotSelected(c);
    }
  }

  /** No quarterly raw factor is an annual one. */
  lemma QuarterNotAnnual()
    ensures forall c :: c in DictValues(QuarterFactors) ==> c !in DictValues(CalcFactors)
  {
    forall c | c in DictValues(QuarterFactors)
      ensures c !in DictValues(CalcFactors)
    {
      QuarterRawLike(c);
      forall d | d in DictValues(CalcFactors)
        ensures |d| <= 5
      {
        AnnualRawLike(d);
      }
    }
  }

  lemma RawFactorShape(c: string)
    requires c in RawFactors()
    ensures RawLike(c)
  {
    if c in DictValues(QuarterFactors) {
      QuarterRawLike(c);
    } else {
      AnnualRawLike(c);
    }
  }

  lemma QuarterRawLike(c: string)
    requires c in DictValues(QuarterFactors)
    ensures RawLike(c) && |c| > 5
  {
    QuarterRawShape();
  }

  lemma AnnualRawLike(c: string)
    requires c in DictValues(CalcFactors)
    ensures RawLike(c) && |c| <= 5
  {
    AnnualRawShape();
  }

  lemma RawLikeNotSelected(c: string)
    requires RawLike(c)
    ensures c !in IndexColumns && c !in KeptColumns()
  {
    forall k | k in DictKeys(QuarterFactors) || k in DictKeys(CalcFactors)
      ensures !RawLike(k)
    {
      FieldEnd(k);
    }
    assert c != DdbData[0] by {
      assert DdbData[0][0] == '净';
    }
  }

  lemma FieldEnd(k: string)
    requires k in DictKeys(QuarterFactors) || k in DictKeys(CalcFactors)
    ensures k != [] && k[|k| - 1] <= 'z'
  {
    FieldShape();
  }

  /** The output fields are ASCII names: they end in a character no later
      than `z`. */
  lemma FieldShape()
    ensures forall k :: k in DictKeys(QuarterFactors) || k in DictKeys(CalcFactors) ==> k != [] && k[|k| - 1] <= 'z'
  {
    var q := DictKeys(QuarterFactors);
    forall i | 0 <= i < |q|
      ensures q[i] != [] && q[i][|q[i]| - 1] <= 'z'
    {
      if i == 0 {
      } else if i == 1 {
      } else if i == 2 {
      } else if i == 3 {
      } else if i == 4 {
      }
    }
    var a := DictKeys(CalcFactors);
    forall i | 0 <= i < |a|
      ensures a[i] != [] && a[i][|a[i]| - 1] <= 'z'
    {
      if i == 0 {
      } else if i == 1 {
      } else if i == 2 {
      }
    }
  }

  /** The shape of a raw factor name: it ends in a character beyond ASCII,
      so it is no English field and no suffixed label; it is not three
      characters long, as the report-period column is; and it does not start
      as the growth rate does. */
  predicate RawLike(c: string) {
    c != [] && c[|c| - 1] > 'z' && |c| != 3 && c[0] != '净'
  }

  lemma QuarterRawShape()
    ensures forall c :: c in DictValues(QuarterFactors) ==> RawLike(c) && |c| > 5
  {
    var q := DictValues(QuarterFactors);
    forall i | 0 <= i < |q|
      ensures RawLike(q[i]) && |q[i]| > 5
    {
      if i == 0 {
      } else if i == 1 {
      } else if i == 2 {
      } else if i == 3 {
      } else if i == 4 {
      }
    }
  }

  lemma AnnualRawShape()
    ensures forall c :: c in DictValues(CalcFactors) ==> RawLike(c) && |c| <= 5
  {
    var a := DictValues(CalcFactors);
    forall i | 0 <= i < |a|
      ensures RawLike(a[i]) && |a[i]| <= 5
    {
      if i == 0 {
      } else if i == 1 {
      } else if i == 2 {
      }
    }
  }

  /** The queries `extract_data` sends, in order. For `quarter`: the
      quarterly table, then the annual finance factors, whose report-month
      clause is always the December-only one whatever the period. Otherwise a
      single finance query for the period. Every query looks back `limit + 1`
      periods. */
  function Plan(period: Period, symbol: string, limit: int): (r: Result<seq<Query>>)
    ensures r.Ok? && |r.value| == (if period == Quarter then 2 else 1)
    ensures r.value[0].symbols == [symbol] && ScriptLimit(r.value[0]) == Some(-limit - 1)
    ensures period == Quarter ==> r.value[1].symbols == [symbol] && ScriptLimit(r.value[1]) == Some(-limit - 1)
    ensures period == Quarter ==> r.value[0].QuarterQuery? && r.value[0].table == "cash_flow_statement_qtr"
    ensures period == Quarter ==> (r.value[1].FinanceQuery?
      && |r.value[1].reportMonth| >= |References.AnnualFilter|
      && r.value[1].reportMonth[..|References.AnnualFilter|] == References.AnnualFilter)
    ensures period == Quarter ==> r.value[0].factorNames == QuarterFactors && r.value[1].factors == DictValues(CalcFactors)
    ensures period == Quarter ==> References.GetReportMonth("annual", -limit - 1) == Ok(r.value[1].reportMonth)
    ensures period != Quarter ==> r.value[0].FinanceQuery? && r.value[0].factors == DdbData + RawFactors()
    ensures period != Quarter ==> References.GetReportMonth(PeriodName(period), -limit - 1) == Ok(r.value[0].reportMonth)
  {
    if period == Quarter then
      match References.GetReportMonth("annual", -limit - 1)
      case Ok(annual) =>
        Ok([QuarterQuery(QuarterFactors, [symbol], "cash_flow_statement_qtr", -limit - 1),
            FinanceQuery(DictValues(CalcFactors), [symbol], annual)])
      case Err(e) => Err(e)
    else
      match References.GetReportMonth(PeriodName(period), -limit - 1)
      case Ok(reportMonth) =>
        var raw := DictValues(DictUnion(QuarterFactors, CalcFactors));
        RawUnion();
        Ok([FinanceQuery(DdbData + raw, [symbol], reportMonth)])
      case Err(e) => Err(e)
  }

  /** The frame the branches leave behind, with the columns the pipeline will
      divide: for `quarter`, the quarterly frame less its raw factors,
      left-merged with the annual frame less its raw factors, dividing
      nothing; otherwise the single frame less all raw factors, dividing
      `DDB_DATA`. `drop` on a `None` frame raises `AttributeError`. */
  function Combined(period: Period, symbol: string, limit: int, store: Store): (r: Result<(Table, seq<string>)>)
    ensures period == Quarter && r.Ok? ==> r.value.1 == []
    ensures period != Quarter && r.Ok? ==> r.value.1 == DdbData
    ensures var qs := Plan(period, symbol, limit).value;
      && (store(qs[0]).None? ==> r == Err(AttributeError))
      && (period != Quarter && r.Ok? ==> store(qs[0]).Some? && WithoutRaw(r.value.0, store(qs[0]).value))
      && (period == Quarter && r.Ok? ==> store(qs[0]).Some? && |r.value.0.rows| >= |store(qs[0]).value.rows|)
      && (period == Quarter && r.Ok? ==> (store(qs[0]).Some? && store(qs[1]).Some?
        && RawFromOtherSide(r.value.0.rows, store(qs[0]).value, store(qs[1]).value)))
  {
    Merged(period, Plan(period, symbol, limit).value, store)
  }

  /** The branches on the planned queries `qs`: what the frames the store
      answers with become. */
  function Merged(period: Period, qs: seq<Query>, store: Store): (r: Result<(Table, seq<string>)>)
    requires |qs| == if period == Quarter then 2 else 1
    ensures period == Quarter && r.Ok? ==> r.value.1 == []
    ensures period != Quarter && r.Ok? ==> r.value.1 == DdbData
    ensures store(qs[0]).None? ==> r == Err(AttributeError)
    ensures period != Quarter && store(qs[0]).Some? ==>
      (r.Ok? <==> forall c :: c in RawFactors() ==> c in store(qs[0]).value.columns)
    ensures period != Quarter && r.Ok? ==> store(qs[0]).Some? && WithoutRaw(r.value.0, store(qs[0]).value)
    ensures period == Quarter && r.Ok? ==> store(qs[0]).Some? && |r.value.0.rows| >= |store(qs[0]).value.rows|
    ensures period == Quarter && r.Ok? ==> (store(qs[0]).Some? && store(qs[1]).Some?
      && RawFromOtherSide(r.value.0.rows, store(qs[0]).value, store(qs[1]).value))
  {
    if period == Quarter then
      var merged :- QuarterMerge(store(qs[0]), store(qs[1]));
      Ok((merged, []))
    else
      var raw := DictValues(DictUnion(QuarterFactors, CalcFactors));
      RawUnion();
      var dropped :- DropAnswer(store(qs[0]), raw);
      assert WithoutRaw(dropped, store(qs[0]).value);
      Ok((dropped, DdbData))
  }

  /** The `quarter` branch on the two answers: each loses its own raw
      factors, then the quarterly rows are left-merged with the annual ones.
      No quarterly row is lost, and a raw factor label survives only where
      the other answer has that column. */
  function QuarterMerge(quarterly: Option<Table>, annual: Option<Table>): (r: Result<Table>)
    ensures quarterly.None? ==> r == Err(AttributeError)
    ensures r.Ok? ==> quarterly.Some? && annual.Some? && |r.value.rows| >= |quarterly.value.rows|
    ensures r.Ok? ==> RawFromOtherSide(r.value.rows, quarterly.value, annual.value)
  {
    var q :- DropAnswer(quarterly, DictValues(QuarterFactors));
    var a :- DropAnswer(annual, DictValues(CalcFactors));
    var merged :- LeftMerge(q, a, MergeKeys);
    MergedRawFactors(quarterly.value, annual.value, q, a, merged.rows);
    Ok(merged)
  }

  /** `t` is `source` with every raw factor column dropped: the same rows, in
      order, each less its raw factor cells. */
  ghost predicate WithoutRaw(t: Table, source: Table) {
    && (forall c :: c in t.columns <==> c in source.columns && c !in RawFactors())
    && |t.rows| == |source.rows|
    && forall i :: 0 <= i < |t.rows| ==> t.rows[i] == source.rows[i] - ColumnSet(RawFactors())
  }

  /** In the merged rows, a quarterly raw factor can only be a column of the
      annual answer, and an annual raw factor only a column of the quarterly
      answer: each side's own raw factors are gone. */
  ghost predicate RawFromOtherSide(rows: seq<Record>, quarterly: Table, annual: Table) {
    forall i, c :: 0 <= i < |rows| && c in rows[i] ==>
      && (c in DictValues(QuarterFactors) ==> c in annual.columns)
      && (c in DictValues(CalcFactors) ==> c in quarterly.columns)
  }

  lemma MergedRawFactors(q0: Table, a0: Table, quarterly: Table, annual: Table, rows: seq<Record>)
    requires forall c :: c in quarterly.columns <==> c in q0.columns && c !in DictValues(QuarterFactors)
    requires forall c :: c in annual.columns <==> c in a0.columns && c !in DictValues(CalcFactors)
    requires forall x, k :: x in rows && k in x ==> MergedLabel(k, quarterly, annual, MergeKeys)
    ensures RawFromOtherSide(rows, q0, a0)
  {
    forall i, c | 0 <= i < |rows| && c in rows[i] && c in RawFactors()
      ensures c in DictValues(QuarterFactors) ==> c in a0.columns
      ensures c in DictValues(CalcFactors) ==> c in q0.columns
    {
      RawFactorShape(c);
      assert rows[i] in rows;
      MergedLabelOrigin(c, quarterly, annual, MergeKeys);
    }
  }

  /** When each quarterly row matches at most one annual row on the merge
      keys and no label clashes with a suffixed one, the quarterly branch
      gives one row per quarterly row, in order, each keeping that row's
      cells (under `_x` where the annual side has the same label). */
  lemma QuarterRowsKept(quarterly: Option<Table>, annual: Option<Table>)
    requires QuarterMerge(quarterly, annual).Ok?
    requires var q := DropAnswer(quarterly, DictValues(QuarterFactors));
      var a := DropAnswer(annual, DictValues(CalcFactors));
      && q.Ok? && a.Ok? && NoSuffixClash(q.value.columns + a.value.columns)
      && forall l :: l in q.value.rows ==> |Matches(l, a.value.rows, MergeKeys)| <= 1
    ensures var q := DropAnswer(quarterly, DictValues(QuarterFactors)).value;
      var a := DropAnswer(annual, DictValues(CalcFactors)).value;
      var rows := QuarterMerge(quarterly, annual).value.rows;
      && |rows| == |q.rows|
      && forall i :: 0 <= i < |rows| ==> KeepsLeft(rows[i], q.rows[i], q, a, MergeKeys)
  {
    var q := DropAnswer(quarterly, DictValues(QuarterFactors)).value;
    var a := DropAnswer(annual, DictValues(CalcFactors)).value;
    assert QuarterMerge(quarterly, annual).value.rows == MergeRows(q.rows, q, a, MergeKeys);
    MergeUniqueKeepsLeft(q.rows, q, a, MergeKeys);
  }


  /** `df.drop(columns=cols, inplace=True)` on the frame the store answered
      with: `None` raises `AttributeError`, a missing column `KeyError`, and
      otherwise every row is kept. */
  function DropAnswer(got: Option<Table>, cols: seq<string>): (r: Result<Table>)
    ensures got.None? ==> r == Err(AttributeError)
    ensures got.Some? ==> (r.Ok? <==> forall c :: c in cols ==> c in got.value.columns)
    ensures r.Ok? ==> got.Some? && |r.value.rows| == |got.value.rows|
    ensures r.Ok? ==> forall c :: c in r.value.columns <==> c in got.value.columns && c !in cols
    ensures r.Ok? ==> forall i :: 0 <= i < |r.value.rows| ==> r.value.rows[i] == got.value.rows[i] - ColumnSet(cols)
  {
    if got.None? then Err(AttributeError) else DropColumns(got.value, cols)
  }

  /** The in-place drop on a fresh frame over the store's answer. */
  method DropInPlace(got: Option<Table>, cols: seq<string>) returns (r: Result<Table>)
    ensures r == DropAnswer(got, cols)
  {
    if got.None? {
      return Err(AttributeError);
    }
    var df := new Frame(got.value);
    var err := df.Drop(cols);
    if err.Some? {
      return Err(err.value);
    }
    r := Ok(df.View());
  }

  /** The rows before sorting and the final column selection: the last
      `limit` rows (all of them for `limit == 0`), in order, with `cols`
      divided by 100; or the exception a step raises. */
  function Prepared(t: Table, cols: seq<string>, limit: int): (r: Result<Table>)
    ensures r.Ok? ==> r.value.columns == t.columns
    ensures r.Ok? ==> |r.value.rows| == |TailRows(t, limit).rows| <= |t.rows|
    ensures r.Ok? && limit >= 1 ==> |r.value.rows| == if limit <= |t.rows| then limit else |t.rows|
    ensures r.Ok? ==> IsDividedTail(r.value.rows, t, ColumnSet(cols))
    ensures r.Err? ==> r.error.KeyError? || r.error == AttributeError || r.error == TypeError
  {
    var tail := TailRows(t, limit);
    var e := DateFormatError(tail, PeriodColumn);
    if e.Some? then Err(e.value)
    else
      var divided :- DivideColumns(tail, cols);
      TailDivided(t, limit, cols);
      Ok(divided)
  }

  /** In the quarterly branch nothing is divided: the prepared rows are the
      last `limit` rows as they came. */
  lemma QuarterUndivided(t: Table, limit: int)
    requires DateFormatError(TailRows(t, limit), PeriodColumn).None?
    ensures Prepared(t, [], limit) == Ok(TailRows(t, limit))
  {
    DivideNothing(TailRows(t, limit));
  }

  /** The labels the final selection keeps of a frame with `columns`: the
      index columns and the kept columns it has. */
  function Selection(columns: seq<string>): (s: set<string>)
    ensures forall c :: c in s <==> c in IndexColumns || (c in columns && c in KeptColumns())
  {
    ColumnSet(IndexColumns) + (ColumnSet(columns) * ColumnSet(KeptColumns()))
  }

  /** The column selection after `set_index`: the index labels must be
      columns (`KeyError`); every row keeps only its index and kept cells. */
  function Selected(t: Table): (r: Result<Table>)
    ensures r.Ok? <==> forall c :: c in IndexColumns ==> c in t.columns
    ensures r.Ok? ==> |r.value.rows| == |t.rows|
    ensures r.Ok? ==> forall i :: 0 <= i < |t.rows| ==> r.value.rows[i] == RestrictRow(t.rows[i], Selection(t.columns))
    ensures r.Ok? ==> forall i, c :: 0 <= i < |r.value.rows| && c in r.value.rows[i] ==>
      c in IndexColumns || c in KeptColumns()
  {
    var s :- RestrictColumns(t, IndexColumns, KeptColumns());
    assert ColumnSet(s.columns) == Selection(t.columns);
    Ok(s)
  }

  /** The rows the pipeline leaves of `t`, in order: the last ones, each
      divided under `cols` and cut down to the selection. */
  ghost predicate IsFinishedTail(rows: seq<Record>, t: Table, cols: seq<string>) {
    |rows| <= |t.rows| && forall i :: 0 <= i < |rows| ==> FinishedAt(rows, t, cols, i)
  }

  /** Row `i` of `rows` is its matching row from the end of `t`, divided
      under `cols` and cut down to the selection. */
  ghost predicate FinishedAt(rows: seq<Record>, t: Table, cols: seq<string>, i: int)
    requires 0 <= i < |rows| <= |t.rows|
  {
    var row := t.rows[|t.rows| - |rows| + i];
    Divisible(row, ColumnSet(cols)) && rows[i] == RestrictRow(DivideRow(row, ColumnSet(cols)), Selection(t.columns))
  }

  /** What becomes of a non-empty frame, up to the sort, which only reorders:
      the last `limit` rows, divided under `cols`, holding only the index and
      kept columns. */
  function Finished(t: Table, cols: seq<string>, limit: int): (r: Result<Table>)
    ensures r.Ok? ==> |r.value.rows| == |TailRows(t, limit).rows|
    ensures r.Ok? && limit >= 1 ==> |r.value.rows| == if limit <= |t.rows| then limit else |t.rows|
    ensures r.Ok? ==> IsFinishedTail(r.value.rows, t, cols)
    ensures r.Ok? ==> forall i, c :: 0 <= i < |r.value.rows| && c in r.value.rows[i] ==>
      c in IndexColumns || c in KeptColumns()
    ensures r.Err? ==> r.error.KeyError? || r.error == AttributeError || r.error == TypeError
  {
    var prepared :- Prepared(t, cols, limit);
    var selected :- Selected(prepared);
    SelectedTail(t, cols, prepared, selected);
    Ok(selected)
  }

  /** Selecting the columns of divided last rows gives finished last rows. */
  lemma SelectedTail(t: Table, cols: seq<string>, prepared: Table, selected: Table)
    requires prepared.columns == t.columns && IsDividedTail(prepared.rows, t, ColumnSet(cols))
    requires |selected.rows| == |prepared.rows|
    requires forall i :: 0 <= i < |prepared.rows| ==> selected.rows[i] == RestrictRow(prepared.rows[i], Selection(prepared.columns))
    ensures IsFinishedTail(selected.rows, t, cols)
  {
    forall i | 0 <= i < |selected.rows|
      ensures FinishedAt(selected.rows, t, cols, i)
    {
      DividedTailAt(prepared.rows, t, ColumnSet(cols), i);
    }
  }

  /** The whole pipeline up to the sort: the frame the branches leave must
      not be empty (`EmptyDataError`), and then its last `limit` rows are
      finished. */
  function Expected(period: Period, symbol: string, limit: int, store: Store): (r: Result<Table>)
    ensures var c := Combined(period, symbol, limit, store);
      && (c.Err? ==> r == Err(c.error))
      && (c.Ok? && IsEmpty(c.value.0) ==> r == Err(EmptyData))
      && (r.Ok? ==> c.Ok? && !IsEmpty(c.value.0) && IsFinishedTail(r.value.rows, c.value.0, c.value.1))
      && (r.Ok? && limit >= 1 ==> |r.value.rows| == if limit <= |c.value.0.rows| then limit else |c.value.0.rows|)
    ensures r.Ok? ==> forall i, c :: 0 <= i < |r.value.rows| && c in r.value.rows[i] ==>
      c in IndexColumns || c in KeptColumns()
  {
    var (t, cols) :- Combined(period, symbol, limit, store);
    if IsEmpty(t) then Err(EmptyData) else Finished(t, cols, limit)
  }

  /** The two branches of `extract_data`, up to the emptiness check: the
      frame they leave behind and the columns the pipeline will divide. */
  method Fetch(period: Period, symbol: string, limit: int, store: Store) returns (r: Result<(Table, seq<string>)>)
    ensures r == Combined(period, symbol, limit, store)
  {
    var qs := Plan(period, symbol, limit).value;
    r := FetchPlanned(period, qs, store);
  }

  /** The in-place steps of the two branches on the planned queries. */
  method FetchPlanned(period: Period, qs: seq<Query>, store: Store) returns (r: Result<(Table, seq<string>)>)
    requires |qs| == if period == Quarter then 2 else 1
    ensures r == Merged(period, qs, store)
  {
    if period == Quarter {
      var quarterly := DropInPlace(store(qs[0]), DictValues(QuarterFactors));
      if quarterly.Err? {
        return Err(quarterly.error);
      }
      var annual := DropInPlace(store(qs[1]), DictValues(CalcFactors));
      if annual.Err? {
        return Err(annual.error);
      }
      var df := new Frame(quarterly.value);
      var err := df.MergeLeft(annual.value, MergeKeys);
      if err.Some? {
        return Err(err.value);
      }
      r := Ok((df.View(), []));
    } else {
      var dropped := DropInPlace(store(qs[0]), DictValues(DictUnion(QuarterFactors, CalcFactors)));
      if dropped.Err? {
        return Err(dropped.error);
      }
      r := Ok((dropped.value, DdbData));
    }
  }

  /** `extract_data`: the rows come back sorted by report period, newest
      first, at most `limit` of them, holding only the index and kept columns,
      so no raw factor. */
  method ExtractData(period: Period, symbol: string, limit: int, store: Store) returns (r: Result<seq<Record>>)
    ensures r.Ok? <==> Expected(period, symbol, limit, store).Ok?
    ensures r.Err? ==> r.error == Expected(period, symbol, limit, store).error
    ensures r.Ok? ==> multiset(r.value) == multiset(Expected(period, symbol, limit, store).value.rows)
    ensures r.Ok? ==> |r.value| == |Expected(period, symbol, limit, store).value.rows|
    ensures r.Ok? ==> SortedByPeriodDesc(r.value)
    ensures r.Ok? && limit >= 1 ==> |r.value| <= limit
    ensures r.Ok? ==> forall i, c :: 0 <= i < |r.value| && c in r.value[i] ==> c in IndexColumns || c in KeptColumns()
    ensures r.Ok? ==> forall i, c :: 0 <= i < |r.value| && c in RawFactors() ==> c !in r.value[i]
  {
    var fetched := Fetch(period, symbol, limit, store);
    if fetched.Err? {
      return Err(fetched.error);
    }
    var (t, cols) := fetched.value;
    if IsEmpty(t) {
      return Err(EmptyData);
    }
    r := Finish(t, cols, limit);
    if r.Ok? {
      PermutedSelection(r.value, Expected(period, symbol, limit, store).value.rows);
    }
  }

  /** A permutation of rows cut down to the selection is cut down to it too,
      so it holds no raw factor. */
  lemma PermutedSelection(rows: seq<Record>, selected: seq<Record>)
    requires multiset(rows) == multiset(selected)
    requires forall i, c :: 0 <= i < |selected| && c in selected[i] ==> c in IndexColumns || c in KeptColumns()
    ensures forall i, c :: 0 <= i < |rows| && c in rows[i] ==> c in IndexColumns || c in KeptColumns()
    ensures forall i, c :: 0 <= i < |rows| && c in RawFactors() ==> c !in rows[i]
  {
    forall i | 0 <= i < |rows|
      ensures forall c :: c in rows[i] ==> c in IndexColumns || c in KeptColumns()
    {
      assert rows[i] in multiset(selected);
    }
    RawNotSelected();
  }

  /** The frame work after the emptiness check: the last `limit` rows, dates
      formatted, growth columns divided, rows sorted by report period and
      the columns restricted. */
  method Finish(t: Table, cols: seq<string>, limit: int) returns (r: Result<seq<Record>>)
    ensures r.Ok? <==> Finished(t, cols, limit).Ok?
    ensures r.Err? ==> r.error == Finished(t, cols, limit).error
    ensures r.Ok? ==> multiset(r.value) == multiset(Finished(t, cols, limit).value.rows)
    ensures r.Ok? ==> |r.value| == |Finished(t, cols, limit).value.rows|
    ensures r.Ok? ==> SortedByPeriodDesc(r.value)
  {
    var prepared := Prepare(t, cols, limit);
    if prepared.Err? {
      return Err(prepared.error);
    }
    assert Finished(t, cols, limit) == RestrictColumns(prepared.value, IndexColumns, KeptColumns());
    r := SortAndSelect(prepared.value, IndexColumns, KeptColumns());
  }

  /** `sort_values` by report period, newest first, then `set_index` and the
      column selection: the selected rows, reordered. */
  method SortAndSelect(t: Table, index: seq<string>, keep: seq<string>) returns (r: Result<seq<Record>>)
    requires PeriodColumn in index
    ensures r.Ok? <==> RestrictColumns(t, index, keep).Ok?
    ensures r.Err? ==> r.error == RestrictColumns(t, index, keep).error
    ensures r.Ok? ==> multiset(r.value) == multiset(RestrictColumns(t, index, keep).value.rows)
    ensures r.Ok? ==> |r.value| == |RestrictColumns(t, index, keep).value.rows|
    ensures r.Ok? ==> SortedByPeriodDesc(r.value)
  {
    var df := new Frame(t);
    df.SortByPeriod();
    ghost var sorted := df.rows;
    var err := df.Restrict(index, keep);
    if err.Some? {
      return Err(err.value);
    }
    ghost var kept := ColumnSet(df.columns);
    assert df.rows == RestrictRows(sorted, kept);
    assert RestrictColumns(t, index, keep).value.rows == RestrictRows(t.rows, kept);
    RestrictRowsPermutation(sorted, t.rows, kept);
    RestrictKeepsSorted(sorted, kept);
    assert |df.rows| == |sorted| == |multiset(sorted)| == |t.rows|;
    r := Ok(df.rows);
  }

  /** The last `limit` rows, the date check and the division, on a frame. */
  method Prepare(t: Table, cols: seq<string>, limit: int) returns (r: Result<Table>)
    ensures r == Prepared(t, cols, limit)
  {
    var df := new Frame(t);
    df.KeepLast(limit);
    var err := df.FormatDates(PeriodColumn);
    if err.Some? {
      return Err(err.value);
    }
    err := df.Divide(cols);
    if err.Some? {
      return Err(err.value);
    }
    r := Ok(df.View());
  }
}
