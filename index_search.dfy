/** The index search fetcher: the listing query, filtered by the requested
    codes only when there are some and they are symbols, the emptiness check
    on what comes back, and `transform_data`, which reverts the symbols and
    gives every record an `end_date`. */
module IndexSearch {
  import opened Wrappers
  import opened Strs
  import opened Values
  import opened Frames
  import References

  /** `Index_listing_info`: every index with its listing data. */
  const Listing: string := "\n        select upper(split(entity_id,'_')[1])+split(entity_id,'_')[2] as symbol,\n        name,exchange,list_date,end_date from loadTable(\"dfs://cn_zvt\", `index)\n        "

  /** The start of `query_Index`; the requested codes follow as a Python list. */
  const CodeFilter: string := "where upper(split(entity_id,'_')[1])+split(entity_id,'_')[2] in "

  /** `reader._run_query`: the store's answer to a script, a frame or `None`. */
  type Reader = string -> Option<Table>

  /** `query.query and query.is_symbol`. */
  predicate FiltersBySymbol(query: string, isSymbol: bool) {
    query != "" && isSymbol
  }

  /** The script `aextract_data` runs: the listing, followed by the code
      filter exactly when the query names codes and they are symbols. */
  function Script(query: string, isSymbol: bool): (r: string)
    ensures |Listing| <= |r| && r[..|Listing|] == Listing
    ensures FiltersBySymbol(query, isSymbol) ==> r[|Listing|..] == CodeFilter + ListRepr(Split(query, ','))
    ensures !FiltersBySymbol(query, isSymbol) ==> r == Listing
  {
    if FiltersBySymbol(query, isSymbol) then Listing + (CodeFilter + ListRepr(Split(query, ',')))
    else Listing
  }

  /** A single requested code is named in the filter as a one-element list. */
  lemma ScriptForOneCode(code: string)
    requires code != "" && ',' !in code
    ensures Script(code, true) == Listing + CodeFilter + "['" + code + "']"
  {
    SplitNoSeparator(code, ',');
    ListReprSingle(code);
    var filter := CodeFilter + ListRepr([code]);
    assert Script(code, true) == Listing + filter;
    assert filter == CodeFilter + "['" + code + "']";
  }

  /** `aextract_data`: nothing back or an empty frame raises
      `EmptyDataError`; both date columns must hold dates for `.dt` to work. */
  function ExtractData(query: string, isSymbol: bool, reader: Reader): (r: Result<seq<Record>>)
    ensures var got := reader(Script(query, isSymbol));
      && ((got.None? || IsEmpty(got.value)) ==> r == Err(EmptyData))
      && (got.Some? && !IsEmpty(got.value) ==>
        (r.Ok? <==> DateFormatError(got.value, "list_date").None? && DateFormatError(got.value, "end_date").None?))
      && (r.Ok? ==> got.Some? && r.value == got.value.rows && |r.value| > 0)
    ensures r.Err? ==> r.error == EmptyData || r.error == AttributeError || r.error.KeyError?
  {
    var got := reader(Script(query, isSymbol));
    if got.None? || IsEmpty(got.value) then Err(EmptyData)
    else
      var e := DateFormatError(got.value, "list_date");
      if e.Some? then Err(e.value)
      else
        var e2 := DateFormatError(got.value, "end_date");
        if e2.Some? then Err(e2.value)
        else Ok(got.value.rows)
  }

  /** What `transform_data` hands to validation: a record without a string
      `symbol` stops the revert; otherwise every record has its symbol
      reverted and an `end_date`, null when it was missing. */
  function Transformed(data: seq<Record>): (r: Result<seq<Record>>)
    ensures r.Ok? <==> forall i :: 0 <= i < |data| ==> "symbol" in data[i] && data[i]["symbol"].Str?
    ensures r.Err? ==> r.error.KeyError? || r.error == TypeError
    ensures r.Ok? ==> |r.value| == |data|
    ensures r.Ok? ==> forall i :: 0 <= i < |data| ==>
      && r.value[i].Keys == data[i].Keys + {"end_date"}
      && r.value[i]["symbol"] == Str(References.RevertSymbol(data[i]["symbol"].s))
      && (r.value[i]["end_date"] == Null <==> "end_date" !in data[i] || data[i]["end_date"] == Null)
      && forall k :: k in data[i] && k != "symbol" ==> r.value[i][k] == data[i][k]
  {
    var k := References.FirstUnrevertable(data);
    if k < |data| then Err(References.RevertRecord(data[k]).error)
    else Ok(seq(|data|, i requires 0 <= i < |data| => NullMissing(References.RevertRecord(data[i]).value, "end_date")))
  }

  /** `transform_data`: the caller's records get their symbols reverted in
      place, then the comprehension builds the new records. */
  method TransformData(data: array<Record>) returns (r: Result<seq<Record>>)
    modifies data
    ensures r == Transformed(old(data[..]))
    ensures var k := References.FirstUnrevertable(old(data[..]));
      && (forall i :: 0 <= i < k ==> data[i] == References.RevertRecord(old(data[i])).value)
      && (forall i :: k <= i < data.Length ==> data[i] == old(data[i]))
  {
    ghost var before := data[..];
    var err := References.RevertStockCodeFormat(data);
    if err.Some? {
      return Err(err.value);
    }
    r := Ok(seq(data.Length, i reads data requires 0 <= i < data.Length => NullMissing(data[i], "end_date")));
    assert r.value == Transformed(before).value;
  }
}
