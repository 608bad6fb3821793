/** The ETF search fetcher: the listing script, filtered by the requested
    codes whenever there are some, the optional filter on actively traded
    funds, the emptiness check and the removal of the listing columns. */
module EtfSearch {
  import opened Wrappers
  import opened Strs
  import opened Values
  import opened Frames
  import opened Lists

  /** `etf_listing_info`: the fund table bound to `t`. */
  const Listing: string := "\n        t = select upper(split(entity_id,'_')[1])+split(entity_id,'_')[2] as symbol,\n        name,exchange,list_date,end_date from loadTable(\"dfs://cn_zvt\", `etf_detail) \n        "

  /** The start of `query_etf`; the requested codes follow as a Python list. */
  const CodeFilter: string := "where upper(split(entity_id,'_')[1])+split(entity_id,'_')[2] in "

  const EndDate: string := "end_date"

  /** The columns removed from the surviving rows. */
  const Dropped: seq<string> := ["list_date", EndDate, "exchange"]

  /** `reader._run_query`: the store's answer to a script, a frame or `None`. */
  type Reader = string -> Option<Table>

  /** The script `aextract_data` runs. `rest` is `other_data`, which depends on
      the clock and the store's calendar; the code filter sits between the
      listing and it exactly when the query is non-empty. */
  function Script(query: string, rest: string): (r: string)
    ensures |Listing| <= |r| && r[..|Listing|] == Listing
    ensures |r| >= |rest| && r[|r| - |rest|..] == rest
    ensures query != "" ==> r == Listing + CodeFilter + ListRepr(Split(query, ',')) + rest
    ensures query == "" ==> r == Listing + rest
  {
    if query != "" then Listing + CodeFilter + ListRepr(Split(query, ',')) + rest
    else Listing + rest
  }

  /** The `is_active` step: only a true flag filters; `query` on a `None`
      frame raises `AttributeError`. */
  function ActiveOnly(got: Option<Table>, isActive: Option<bool>): (r: Result<Option<Table>>)
    ensures isActive != Some(true) ==> r == Ok(got)
    ensures isActive == Some(true) && got.None? ==> r == Err(AttributeError)
    ensures isActive == Some(true) && got.Some? ==> (r.Ok? <==> EndDate in got.value.columns)
    ensures isActive == Some(true) && r.Ok? ==> got.Some? && r.value.Some?
    ensures isActive == Some(true) && r.Ok? ==> r.value.value.columns == got.value.columns
    ensures isActive == Some(true) && r.Ok? ==>
      forall x :: x in r.value.value.rows <==> x in got.value.rows && Cell(x, EndDate) == Null
    ensures isActive == Some(true) && r.Ok? ==> forall x ::
      multiset(r.value.value.rows)[x] == if Cell(x, EndDate) == Null then multiset(got.value.rows)[x] else 0
    ensures isActive == Some(true) && r.Ok? ==> IsSubsequence(r.value.value.rows, got.value.rows)
  {
    if isActive == Some(true) then
      if got.None? then Err(AttributeError)
      else
        var t :- QueryNull(got.value, EndDate);
        Ok(Some(t))
    else Ok(got)
  }

  /** What `aextract_data` returns for the store's answer `got`: after the
      active filter, nothing or an empty frame raises `EmptyDataError`;
      otherwise every row loses exactly the listing date, end date and
      exchange. */
  function Answered(got: Option<Table>, isActive: Option<bool>): (r: Result<Table>)
    ensures var f := ActiveOnly(got, isActive);
      && (f.Ok? && (f.value.None? || IsEmpty(f.value.value)) ==> r == Err(EmptyData))
      && (f.Ok? && f.value.Some? && !IsEmpty(f.value.value) ==>
        (r.Ok? <==> forall c :: c in Dropped ==> c in f.value.value.columns))
      && (r.Ok? ==> f.Ok? && f.value.Some? && |r.value.rows| == |f.value.value.rows| > 0)
      && (r.Ok? ==> forall i :: 0 <= i < |r.value.rows| ==> r.value.rows[i] == f.value.value.rows[i] - ColumnSet(Dropped))
    ensures r.Ok? ==> forall c :: c in r.value.columns ==> c !in Dropped
  {
    var f :- ActiveOnly(got, isActive);
    if f.None? || IsEmpty(f.value) then Err(EmptyData)
    else
      var t :- DropColumns(f.value, Dropped);
      assert forall i :: 0 <= i < |t.rows| ==> t.rows[i] == f.value.rows[i] - ColumnSet(Dropped);
      Ok(t)
  }

  /** With `is_active` true, every returned row is a fund row without an end
      date, less the removed columns. */
  lemma ActiveRowsHaveNoEndDate(got: Option<Table>)
    requires Answered(got, Some(true)).Ok?
    ensures got.Some? && forall x :: x in Answered(got, Some(true)).value.rows ==>
      exists y :: y in got.value.rows && Cell(y, EndDate) == Null && x == y - ColumnSet(Dropped)
  {
    var f := ActiveOnly(got, Some(true));
    var r := Answered(got, Some(true));
    forall x | x in r.value.rows
      ensures exists y :: y in got.value.rows && Cell(y, EndDate) == Null && x == y - ColumnSet(Dropped)
    {
      var i :| 0 <= i < |r.value.rows| && r.value.rows[i] == x;
      var y := f.value.value.rows[i];
      assert y in f.value.value.rows;
    }
  }

  /** Without the flag every fund row comes back, one output row for each. */
  lemma InactiveKeepsAllRows(got: Option<Table>, isActive: Option<bool>)
    requires isActive != Some(true)
    requires Answered(got, isActive).Ok?
    ensures got.Some? && |Answered(got, isActive).value.rows| == |got.value.rows|
  {
  }

  /** The frame steps of `aextract_data` on the store's answer: filtered
      and stripped of the listing columns in place. */
  method FilterAndDrop(got: Option<Table>, isActive: Option<bool>) returns (r: Result<seq<Record>>)
    ensures r.Ok? <==> Answered(got, isActive).Ok?
    ensures r.Err? ==> r.error == Answered(got, isActive).error
    ensures r.Ok? ==> r.value == Answered(got, isActive).value.rows
  {
    var df: Frame? := null;
    if got.Some? {
      df := new Frame(got.value);
    }
    if isActive == Some(true) {
      if df == null {
        return Err(AttributeError);
      }
      var err := df.KeepNull(EndDate);
      if err.Some? {
        return Err(err.value);
      }
    }
    if df == null || IsEmpty(df.View()) {
      return Err(EmptyData);
    }
    var err := df.Drop(Dropped);
    if err.Some? {
      return Err(err.value);
    }
    r := Ok(df.rows);
  }

  /** `aextract_data` from the query onwards: the script goes to the store,
      whose answer is filtered and stripped. */
  method ExtractData(query: string, isActive: Option<bool>, rest: string, reader: Reader) returns (r: Result<seq<Record>>)
    ensures r.Ok? <==> Answered(reader(Script(query, rest)), isActive).Ok?
    ensures r.Err? ==> r.error == Answered(reader(Script(query, rest)), isActive).error
    ensures r.Ok? ==> r.value == Answered(reader(Script(query, rest)), isActive).value.rows
  {
    var got := reader(Script(query, rest));
    r := FilterAndDrop(got, isActive);
  }
}
