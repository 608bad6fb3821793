/** What the financial-statement fetchers have in common: the query they send
    to the data store (by the builder that renders it and the arguments it is
    given), the ordered factor dictionaries they pass, and their
    `transform_data`, which reverts the symbols in place and then validates
    each record. */
module Statements {
  import opened Wrappers
  import opened Values
  import opened Frames
  import References
  import Validators

  /** A query script: `get_query_cnzvt_sql(factors, symbols, table, limit)`
      for the quarterly tables, or `get_query_finance_sql(factors, symbols,
      report_month)` for the annual and year-to-date factors. */
  datatype Query =
    | QuarterQuery(factorNames: seq<(string, string)>, symbols: seq<string>, table: string, limit: int)
    | FinanceQuery(factors: seq<string>, symbols: seq<string>, reportMonth: string)

  /** `reader._run_query`: the store's answer to a query, a frame or `None`. */
  type Store = Query -> Option<Table>

  /** The row limit a query's script ends with: the quarterly query's own
      `limit`, or the one the report-month clause carries. A negative limit
      makes the store keep the most recent report periods. */
  function ScriptLimit(q: Query): Option<int> {
    match q
    case QuarterQuery(_, _, _, limit) => Some(limit)
    case FinanceQuery(_, _, reportMonth) => References.ClauseLimit(reportMonth)
  }

  /** The query the plain statement fetchers (income statement, cash flow)
      send: the quarterly table `table` with `quarterFactors` for `quarter`,
      otherwise `factors` under the period's report-month clause. It looks
      back exactly `limit` periods, and planning never fails. */
  function StatementPlan(period: Period, symbol: string, limit: int, table: string,
                         quarterFactors: seq<(string, string)>, factors: seq<string>): (r: Result<Query>)
    ensures r.Ok? && r.value.symbols == [symbol]
    ensures r.value.QuarterQuery? <==> period == Quarter
    ensures r.value.QuarterQuery? ==> r.value.table == table && r.value.factorNames == quarterFactors
    ensures r.value.FinanceQuery? ==> r.value.factors == factors
    ensures r.value.FinanceQuery? ==> References.GetReportMonth(PeriodName(period), -limit) == Ok(r.value.reportMonth)
    ensures ScriptLimit(r.value) == Some(-limit)
  {
    if period == Quarter then Ok(QuarterQuery(quarterFactors, [symbol], table, -limit))
    else
      match References.GetReportMonth(PeriodName(period), -limit)
      case Ok(reportMonth) => Ok(FinanceQuery(factors, [symbol], reportMonth))
      case Err(e) => Err(e)
  }

  /** `list(d.keys())` of an ordered dictionary. */
  function DictKeys(d: seq<(string, string)>): (r: seq<string>)
    ensures |r| == |d| && forall i :: 0 <= i < |d| ==> r[i] == d[i].0
  {
    seq(|d|, i requires 0 <= i < |d| => d[i].0)
  }

  /** `list(d.values())` of an ordered dictionary. */
  function DictValues(d: seq<(string, string)>): (r: seq<string>)
    ensures |r| == |d| && forall i :: 0 <= i < |d| ==> r[i] == d[i].1
  {
    seq(|d|, i requires 0 <= i < |d| => d[i].1)
  }

  function Lookup(d: seq<(string, string)>, k: string): Option<string> {
    if d == [] then None
    else if d[|d| - 1].0 == k then Some(d[|d| - 1].1)
    else Lookup(d[..|d| - 1], k)
  }

  /** Python `a | b` on dictionaries: `a`'s keys in their order with `b`'s value
      where `b` has the key too, then `b`'s other keys in their order. */
  function DictUnion(a: seq<(string, string)>, b: seq<(string, string)>): (r: seq<(string, string)>)
    ensures |r| >= |a|
    ensures forall i :: 0 <= i < |a| ==> r[i].0 == a[i].0
    ensures forall i :: 0 <= i < |a| ==> r[i].1 == if Lookup(b, a[i].0).Some? then Lookup(b, a[i].0).value else a[i].1
    ensures forall k :: k in DictKeys(r) <==> k in DictKeys(a) || k in DictKeys(b)
  {
    var fromA := Overridden(a, b);
    var fromB := NewEntries(b, DictKeys(a));
    assert DictKeys(fromA) == DictKeys(a);
    assert DictKeys(fromA + fromB) == DictKeys(fromA) + DictKeys(fromB);
    fromA + fromB
  }

  /** `a`'s entries, each with `b`'s value where `b` has its key. */
  function Overridden(a: seq<(string, string)>, b: seq<(string, string)>): (r: seq<(string, string)>)
    ensures |r| == |a|
    ensures forall i :: 0 <= i < |a| ==> r[i].0 == a[i].0
    ensures forall i :: 0 <= i < |a| ==> r[i].1 == if Lookup(b, a[i].0).Some? then Lookup(b, a[i].0).value else a[i].1
  {
    seq(|a|, i requires 0 <= i < |a| =>
      (a[i].0, if Lookup(b, a[i].0).Some? then Lookup(b, a[i].0).value else a[i].1))
  }

  /** The entries of `b` whose key is not in `seen`, in their order. */
  function NewEntries(b: seq<(string, string)>, seen: seq<string>): (r: seq<(string, string)>)
    ensures forall k :: k in DictKeys(r) <==> k in DictKeys(b) && k !in seen
  {
    if b == [] then []
    else
      var rest := NewEntries(b[1..], seen);
      assert DictKeys(b) == [b[0].0] + DictKeys(b[1..]);
      if b[0].0 in seen then rest
      else
        assert DictKeys([b[0]] + rest) == [b[0].0] + DictKeys(rest);
        [b[0]] + rest
  }

  /** Union of dictionaries with no key in common is concatenation. */
  lemma {:induction false} DisjointUnion(a: seq<(string, string)>, b: seq<(string, string)>)
    requires forall k :: k in DictKeys(a) ==> k !in DictKeys(b)
    ensures DictUnion(a, b) == a + b
  {
    forall i | 0 <= i < |a|
      ensures Lookup(b, a[i].0).None?
    {
      assert a[i].0 in DictKeys(a);
      LookupAbsent(b, a[i].0);
    }
    assert Overridden(a, b) == a;
    NewEntriesAllNew(b, DictKeys(a));
  }

  lemma {:induction false} LookupAbsent(d: seq<(string, string)>, k: string)
    requires k !in DictKeys(d)
    ensures Lookup(d, k).None?
    decreases |d|
  {
    if d != [] {
      assert DictKeys(d[..|d| - 1]) == DictKeys(d)[..|d| - 1];
      LookupAbsent(d[..|d| - 1], k);
    }
  }

  lemma {:induction false} NewEntriesAllNew(b: seq<(string, string)>, seen: seq<string>)
    requires forall k :: k in DictKeys(b) ==> k !in seen
    ensures NewEntries(b, seen) == b
    decreases |b|
  {
    if b != [] {
      assert DictKeys(b) == [b[0].0] + DictKeys(b[1..]);
      NewEntriesAllNew(b[1..], seen);
    }
  }

  /** `transform_data` of the fetchers whose data model runs `replace_zero`
      before validation (income statement, cash flow, balance-sheet growth and
      income-statement growth): `revert_stock_code_format(data)` rewrites the
      symbols of the caller's list in place, then each record is handed to the
      validator. When a record makes the revert raise, the records before it
      have already been rewritten and the rest are untouched. */
  method RevertAndValidate(data: array<Record>) returns (r: Result<seq<Payload>>)
    modifies data
    ensures var k := References.FirstUnrevertable(old(data[..]));
      && (r.Ok? <==> k == data.Length)
      && (r.Err? ==> r.error == References.RevertRecord(old(data[k])).error)
      && (r.Ok? ==> (|r.value| == data.Length
        && forall i :: 0 <= i < data.Length ==>
          r.value[i] == Validators.ReplaceZero(Dict(References.RevertRecord(old(data[i])).value))))
      && (forall i :: 0 <= i < k ==> data[i] == References.RevertRecord(old(data[i])).value)
      && (forall i :: k <= i < data.Length ==> data[i] == old(data[i]))
  {
    var err := References.RevertStockCodeFormat(data);
    if err.Some? {
      return Err(err.value);
    }
    r := Ok(seq(data.Length, i reads data requires 0 <= i < data.Length => Validators.ReplaceZero(Dict(data[i]))));
  }
}
