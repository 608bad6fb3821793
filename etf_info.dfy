/** The ETF profile fetcher: the symbol list its query script is given, and
    `transform_data`, which reverts the symbols, gives every record a
    `close_date`, moves the exchange prefix of `index_symbol` to a suffix and
    validates each record. */
module EtfInfo {
  import opened Wrappers
  import opened Strs
  import opened Values
  import References
  import Validators

  // ---------------------------------------------------------------------
  // The symbol list

  /** `query.symbol.split(",")` on the already converted symbol. */
  function SymbolList(symbol: string): (r: seq<string>)
    ensures |r| >= 1
    ensures forall i :: 0 <= i < |r| ==> ',' !in r[i]
  {
    Split(symbol, ',')
  }

  /** Each code the conversion produced is one element of the symbol list,
      in the order of the requested items; a blank request leaves the single
      empty code. */
  lemma SymbolListPerItem(symbol: string)
    requires References.ConvertStockCodeFormat(symbol).Ok?
    ensures var items := References.StrippedNonBlank(Split(symbol, ','));
      var list := SymbolList(References.ConvertStockCodeFormat(symbol).value);
      && (items == [] ==> list == [""])
      && (items != [] ==>
        |list| == |items| && forall i :: 0 <= i < |items| ==> References.ConvertItem(items[i]) == Ok(list[i]))
  {
    References.ConvertOnePerItem(symbol);
  }

  // ---------------------------------------------------------------------
  // index_symbol

  /** The rewrite of `index_symbol`: "SH" is tested first, then "SZ", then
      "OF"; every occurrence of the first one found is removed and the
      matching suffix appended. A symbol holding none of them is kept. */
  function IndexSuffix(sym: string): (r: string)
    ensures Contains(sym, "SH") ==> |r| >= 3 && r[|r| - 3..] == ".SS"
    ensures !Contains(sym, "SH") && Contains(sym, "SZ") ==> |r| >= 3 && r[|r| - 3..] == ".SZ"
    ensures !Contains(sym, "SH") && !Contains(sym, "SZ") && Contains(sym, "OF") ==> |r| >= 3 && r[|r| - 3..] == ".OF"
    ensures !Contains(sym, "SH") && !Contains(sym, "SZ") && !Contains(sym, "OF") ==> r == sym
  {
    if Contains(sym, "SH") then Replace(sym, "SH", "") + ".SS"
    else if Contains(sym, "SZ") then Replace(sym, "SZ", "") + ".SZ"
    else if Contains(sym, "OF") then Replace(sym, "OF", "") + ".OF"
    else sym
  }

  /** On the two stock-exchange prefixes the rewrite is the one
      `revert_stock_code_format` applies to `symbol`. */
  lemma IndexSuffixAgreesWithRevert(sym: string)
    requires Contains(sym, "SH") || Contains(sym, "SZ")
    ensures IndexSuffix(sym) == References.RevertSymbol(sym)
  {
  }

  /** A prefixed index code gets the matching suffix, the fund prefix
      included, and keeps its digits. */
  lemma {:induction false} IndexSuffixPrefixed(c: string)
    requires 'S' !in c && 'O' !in c
    ensures IndexSuffix("SH" + c) == c + ".SS"
    ensures IndexSuffix("SZ" + c) == c + ".SZ"
    ensures IndexSuffix("OF" + c) == c + ".OF"
  {
    References.RevertPrefixed(c);
    ContainsPrefix("SH", c);
    ContainsPrefix("SZ", c);
    IndexSuffixAgreesWithRevert("SH" + c);
    IndexSuffixAgreesWithRevert("SZ" + c);
    var f := "OF" + c;
    assert 'S' !in f;
    NotContainsWithoutFirst(f, "SH");
    NotContainsWithoutFirst(f, "SZ");
    ContainsPrefix("OF", c);
    NotContainsWithoutFirst(c, "OF");
    assert f[..2] == "OF" && f[2..] == c;
    assert Replace(f, "OF", "") == Replace(c, "OF", "");
  }

  /** The loop body on one record: a missing `index_symbol` raises
      `KeyError`, and a value that is not a string (a null included) makes
      the substring test raise `TypeError`. */
  function SuffixRecord(d: Record): (r: Result<Record>)
    ensures r.Ok? <==> "index_symbol" in d && d["index_symbol"].Str?
    ensures "index_symbol" !in d ==> r == Err(KeyError("index_symbol"))
    ensures r.Ok? ==> r.value.Keys == d.Keys
    ensures r.Ok? ==> r.value["index_symbol"] == Str(IndexSuffix(d["index_symbol"].s))
    ensures r.Ok? ==> forall k :: k in d && k != "index_symbol" ==> r.value[k] == d[k]
  {
    if "index_symbol" !in d then Err(KeyError("index_symbol"))
    else match d["index_symbol"]
      case Str(s) => Ok(d["index_symbol" := Str(IndexSuffix(s))])
      case _ => Err(TypeError)
  }

  /** The position of the first record the loop raises on (|data| when none does). */
  function FirstUnsuffixable(data: seq<Record>): (k: nat)
    ensures k <= |data|
    ensures forall i :: 0 <= i < k ==> SuffixRecord(data[i]).Ok?
    ensures k < |data| ==> SuffixRecord(data[k]).Err?
  {
    if data == [] then 0
    else if SuffixRecord(data[0]).Err? then 0
    else 1 + FirstUnsuffixable(data[1..])
  }

  lemma {:induction false} FirstUnsuffixableAt(data: seq<Record>, i: nat)
    requires i <= |data|
    requires forall j :: 0 <= j < i ==> SuffixRecord(data[j]).Ok?
    requires i < |data| ==> SuffixRecord(data[i]).Err?
    ensures FirstUnsuffixable(data) == i
    decreases i
  {
    if i > 0 {
      FirstUnsuffixableAt(data[1..], i - 1);
    }
  }

  /** The `for i in data` loop: every record's `index_symbol` is rewritten
      in place; when one raises, those before it are already rewritten and
      the rest are untouched. */
  method SuffixIndexSymbols(data: array<Record>) returns (err: Option<Error>)
    modifies data
    ensures var k := FirstUnsuffixable(old(data[..]));
      && (err.None? <==> k == data.Length)
      && (err.Some? ==> err == Some(SuffixRecord(old(data[k])).error))
      && (forall i :: 0 <= i < k ==> data[i] == SuffixRecord(old(data[i])).value)
      && (forall i :: k <= i < data.Length ==> data[i] == old(data[i]))
  {
    ghost var before := data[..];
    var i := 0;
    while i < data.Length
      invariant 0 <= i <= data.Length
      invariant forall j :: 0 <= j < i ==> SuffixRecord(before[j]).Ok? && data[j] == SuffixRecord(before[j]).value
      invariant forall j :: i <= j < data.Length ==> data[j] == before[j]
    {
      var res := SuffixRecord(data[i]);
      if res.Err? {
        FirstUnsuffixableAt(before, i);
        return Some(res.error);
      }
      data[i] := res.value;
      i := i + 1;
    }
    FirstUnsuffixableAt(before, data.Length);
    err := None;
  }

  // ---------------------------------------------------------------------
  // transform_data

  /** The records after the revert and the `close_date` comprehension. */
  function Nulled(data: seq<Record>): (r: seq<Record>)
    requires References.FirstUnrevertable(data) == |data|
    ensures |r| == |data|
    ensures forall i :: 0 <= i < |data| ==>
      r[i] == NullMissing(References.RevertRecord(data[i]).value, "close_date")
  {
    seq(|data|, i requires 0 <= i < |data| => NullMissing(References.RevertRecord(data[i]).value, "close_date"))
  }

  /** What the loop and validation make of the records the comprehension
      built: each with its `index_symbol` moved to suffix form and the
      empty-string validator applied. */
  function Finished(records: seq<Record>): (r: Result<seq<Payload>>)
    ensures r.Ok? <==> forall i :: 0 <= i < |records| ==> SuffixRecord(records[i]).Ok?
    ensures r.Ok? ==> |r.value| == |records|
    ensures r.Ok? ==> forall i :: 0 <= i < |records| ==>
      r.value[i] == Validators.ReplaceEmptyStrings(Dict(SuffixRecord(records[i]).value))
  {
    var j := FirstUnsuffixable(records);
    if j < |records| then Err(SuffixRecord(records[j]).error)
    else Ok(seq(|records|, i requires 0 <= i < |records| => Validators.ReplaceEmptyStrings(Dict(SuffixRecord(records[i]).value))))
  }

  /** The loop, then validation of every record. */
  method SuffixAndValidate(records: array<Record>) returns (r: Result<seq<Payload>>)
    modifies records
    ensures r == Finished(old(records[..]))
  {
    ghost var before := records[..];
    var err := SuffixIndexSymbols(records);
    if err.Some? {
      return Err(err.value);
    }
    r := Ok(seq(records.Length, i reads records requires 0 <= i < records.Length => Validators.ReplaceEmptyStrings(Dict(records[i]))));
    assert Finished(before).value == r.value;
  }

  /** What becomes of one record whose `symbol` and `index_symbol` are
      strings: the symbol reverted, a `close_date` that is null when it was
      missing, `index_symbol` in suffix form, then empty strings nulled. */
  function Cleaned(d: Record): (p: Payload)
    requires "symbol" in d && d["symbol"].Str? && "index_symbol" in d && d["index_symbol"].Str?
    ensures p.Dict? && p.fields.Keys == d.Keys + {"close_date"}
    ensures p.fields["close_date"] == Null <==>
      "close_date" !in d || d["close_date"] == Null || Validators.IsEmptyMarker(d["close_date"])
    ensures var s := Str(References.RevertSymbol(d["symbol"].s));
      p.fields["symbol"] == if Validators.IsEmptyMarker(s) then Null else s
    ensures var s := Str(IndexSuffix(d["index_symbol"].s));
      p.fields["index_symbol"] == if Validators.IsEmptyMarker(s) then Null else s
    ensures forall k :: k in d && k !in {"symbol", "index_symbol"} && !Validators.IsEmptyMarker(d[k]) ==> p.fields[k] == d[k]
    ensures forall k :: k in d && k !in {"symbol", "index_symbol", "close_date"} ==>
      p.fields[k] == if Validators.IsEmptyMarker(d[k]) then Null else d[k]
  {
    var reverted := References.RevertRecord(d).value;
    var nulled := NullMissing(reverted, "close_date");
    Validators.ReplaceEmptyStrings(Dict(SuffixRecord(nulled).value))
  }

  /** What `transform_data` hands to validation, or the exception it raises:
      a record without a string `symbol` stops the revert, and one without a
      string `index_symbol` stops the suffix loop; otherwise every record is
      cleaned. */
  function Transformed(data: seq<Record>): (r: Result<seq<Payload>>)
    ensures r.Ok? <==> forall i :: 0 <= i < |data| ==>
      "symbol" in data[i] && data[i]["symbol"].Str? && "index_symbol" in data[i] && data[i]["index_symbol"].Str?
    ensures r.Ok? ==> |r.value| == |data| && forall i :: 0 <= i < |data| ==> r.value[i] == Cleaned(data[i])
  {
    var k := References.FirstUnrevertable(data);
    if k < |data| then Err(References.RevertRecord(data[k]).error)
    else
      NulledKeepsIndexSymbol(data);
      Finished(Nulled(data))
  }

  /** Reverting and adding `close_date` leave `index_symbol` as it was. */
  lemma NulledKeepsIndexSymbol(data: seq<Record>)
    requires References.FirstUnrevertable(data) == |data|
    ensures forall i :: 0 <= i < |data| ==>
      (SuffixRecord(Nulled(data)[i]).Ok? <==> "index_symbol" in data[i] && data[i]["index_symbol"].Str?)
  {
    var nulled := Nulled(data);
    forall i | 0 <= i < |data|
      ensures SuffixRecord(nulled[i]).Ok? <==> "index_symbol" in data[i] && data[i]["index_symbol"].Str?
    {
      IndexSymbolKept(data[i]);
    }
  }

  lemma IndexSymbolKept(d: Record)
    requires "symbol" in d && d["symbol"].Str?
    ensures var n := NullMissing(References.RevertRecord(d).value, "close_date");
      ("index_symbol" in n <==> "index_symbol" in d)
      && ("index_symbol" in d ==> n["index_symbol"] == d["index_symbol"])
  {
    assert |"index_symbol"| != |"symbol"| && |"index_symbol"| != |"close_date"|;
  }

  /** `transform_data`: the caller's records get their symbols reverted in
      place; the comprehension then builds new records, whose `index_symbol`
      the loop rewrites. */
  method TransformData(data: array<Record>) returns (r: Result<seq<Payload>>)
    modifies data
    ensures r == Transformed(old(data[..]))
    ensures var k := References.FirstUnrevertable(old(data[..]));
      && (forall i :: 0 <= i < k ==> data[i] == References.RevertRecord(old(data[i])).value)
      && (forall i :: k <= i < data.Length ==> data[i] == old(data[i]))
  {
    ghost var before := data[..];
    var err := References.RevertStockCodeFormat(data);
    if err.Some? {
      return Err(err.value);
    }
    var records := new Record[data.Length](i reads data requires 0 <= i < data.Length => NullMissing(data[i], "close_date"));
    assert records[..] == Nulled(before);
    r := SuffixAndValidate(records);
  }
}
