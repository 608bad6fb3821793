/** The price-performance fetcher: the `replace_zero` validator, which
    rewrites a row dictionary in place, turning percentages into fractions,
    and `transform_data`, which works out which requested symbols have no row
    before validating every row. */
module PricePerformance {
  import opened Wrappers
  import opened Strs
  import opened Values
  import opened Lists

  const SymbolKey: string := "symbol"

  // ---------------------------------------------------------------------
  // replace_zero

  /** `None if v == 0 else float(v) / 100` for one value. A number equal to
      zero becomes null and any other number is divided by 100; a string goes
      through `float` (`floatOf`, which gives nothing for text that is not a
      number) and a date makes `float` raise. A null stays null. */
  function Percent(v: Value, floatOf: string -> Option<real>): (r: Result<Value>)
    ensures r.Ok? && r.value == Null <==> v == Null || IsZero(v)
    ensures v.Num? && v.x != 0.0 ==> r == Ok(Num(v.x / 100.0))
    ensures v.Str? ==> (r.Ok? <==> floatOf(v.s).Some?)
    ensures v.Str? && r.Ok? ==> r == Ok(Num(floatOf(v.s).value / 100.0))
    ensures v.DateV? ==> r == Err(TypeError)
    ensures r.Err? ==> r.error == TypeError || r.error.ValueError?
  {
    match v
    case Null => Ok(Null)
    case Num(x) => if x == 0.0 then Ok(Null) else Ok(Num(x / 100.0))
    case Str(s) =>
      (match floatOf(s)
      case Some(x) => Ok(Num(x / 100.0))
      case None => Err(ValueError("could not convert string to float: '" + s + "'")))
    case DateV(_) => Err(TypeError)
  }

  /** Rescaling undoes the percentage: a non-zero `100 * y` comes back as `y`. */
  lemma PercentOfHundredfold(y: real, floatOf: string -> Option<real>)
    requires y != 0.0
    ensures Percent(Num(100.0 * y), floatOf) == Ok(Num(y))
  {
  }

  /** Only the number zero is nulled: the string `"0"`, which is not equal to
      `0`, becomes the fraction `0.0`. */
  lemma PercentOfZeroString(floatOf: string -> Option<real>)
    requires floatOf("0") == Some(0.0)
    ensures Percent(Str("0"), floatOf) == Ok(Num(0.0))
  {
  }

  /** The new value of one key: `symbol` is never touched and never makes
      the validator raise; any other value is rescaled, becoming null exactly
      when it is null or zero. */
  function Rescale(k: string, v: Value, floatOf: string -> Option<real>): (r: Result<Value>)
    ensures k == SymbolKey ==> r == Ok(v)
    ensures k != SymbolKey ==> (r.Ok? && r.value == Null <==> v == Null || IsZero(v))
    ensures k != SymbolKey && r.Err? ==> r.error == TypeError || r.error.ValueError?
  {
    if k == SymbolKey then Ok(v) else Percent(v, floatOf)
  }

  /** The dictionary `replace_zero` leaves when no value makes it raise, or
      nothing when one does. */
  function Rescaled(d: Record, floatOf: string -> Option<real>): (r: Option<Record>)
    ensures r.Some? <==> forall k :: k in d ==> Rescale(k, d[k], floatOf).Ok?
    ensures r.Some? ==> r.value.Keys == d.Keys
    ensures r.Some? && SymbolKey in d ==> r.value[SymbolKey] == d[SymbolKey]
    ensures r.Some? ==> forall k :: k in d && k != SymbolKey ==> r.value[k] == Percent(d[k], floatOf).value
  {
    if forall k :: k in d ==> Rescale(k, d[k], floatOf).Ok? then
      Some(map k | k in d :: Rescale(k, d[k], floatOf).value)
    else None
  }

  /** A row dictionary handed to the validator, which assigns its values in place. */
  class Row {
    var entries: Record

    constructor(d: Record)
      ensures entries == d
    {
      entries := d;
    }

    /** `replace_zero`: every value but the symbol is rescaled in place, key
        by key; the model leaves the order of the keys open. When a value
        makes `float` raise, the values visited before it are already
        rewritten and the rest are not; the keys never change. */
    method ReplaceZero(floatOf: string -> Option<real>) returns (err: Option<Error>)
      modifies this
      ensures entries.Keys == old(entries).Keys
      ensures SymbolKey in entries ==> entries[SymbolKey] == old(entries)[SymbolKey]
      ensures err.None? <==> Rescaled(old(entries), floatOf).Some?
      ensures err.None? ==> entries == Rescaled(old(entries), floatOf).value
      ensures err.Some? ==> exists k :: k in old(entries) && Rescale(k, old(entries)[k], floatOf) == Err(err.value)
      ensures forall k :: k in entries ==>
        entries[k] == old(entries)[k] || Rescale(k, old(entries)[k], floatOf) == Ok(entries[k])
    {
      ghost var before := entries;
      var keys := entries.Keys;
      while keys != {}
        invariant keys <= before.Keys && entries.Keys == before.Keys
        invariant forall k :: k in keys ==> entries[k] == before[k]
        invariant forall k :: k in before && k !in keys ==> Rescale(k, before[k], floatOf) == Ok(entries[k])
        decreases keys
      {
        var k :| k in keys;
        if k != SymbolKey {
          var p := Percent(entries[k], floatOf);
          if p.Err? {
            return Some(p.error);
          }
          entries := entries[k := p.value];
        }
        keys := keys - {k};
      }
      assert entries == Rescaled(before, floatOf).value;
      err := None;
    }
  }

  // ---------------------------------------------------------------------
  // transform_data

  /** `c.upper()` on ASCII letters. */
  function UpperChar(c: char): (u: char)
    ensures 'a' <= c <= 'z' ==> u as int == c as int - 32
    ensures !('a' <= c <= 'z') ==> u == c
  {
    if 'a' <= c <= 'z' then (c as int - 32) as char else c
  }

  /** `s.upper()`: every lower-case letter raised, nothing else changed. */
  function Upper(s: string): (r: string)
    ensures |r| == |s|
    ensures forall i :: 0 <= i < |s| ==> !('a' <= r[i] <= 'z')
    ensures forall i :: 0 <= i < |s| ==> r[i] == s[i] || 'a' <= s[i] <= 'z'
  {
    seq(|s|, i requires 0 <= i < |s| => UpperChar(s[i]))
  }

  lemma UpperIdempotent(s: string)
    ensures Upper(Upper(s)) == Upper(s)
  {
  }

  /** `list(dict.fromkeys(symbol.upper().split(",")))`: the upper-cased
      codes, each once, in the order they were first requested. */
  function RequestedSymbols(symbol: string): (r: seq<string>)
    ensures Distinct(r) && |r| >= 1
    ensures forall s :: s in r <==> s in Split(Upper(symbol), ',')
    ensures forall i, j :: 0 <= i < j < |r| ==>
      IndexOf(Split(Upper(symbol), ','), r[i]) < IndexOf(Split(Upper(symbol), ','), r[j])
  {
    var xs := Split(Upper(symbol), ',');
    assert xs[0] in xs;
    Dedupe(xs)
  }

  /** `[d["symbol"] for d in data]`; a row without the key raises `KeyError`. */
  function DataSymbols(data: seq<Record>): (r: Result<seq<Value>>)
    ensures r.Ok? <==> forall i :: 0 <= i < |data| ==> SymbolKey in data[i]
    ensures r.Err? ==> r.error == KeyError(SymbolKey)
    ensures r.Ok? ==> |r.value| == |data| && forall i :: 0 <= i < |data| ==> r.value[i] == data[i][SymbolKey]
  {
    if data == [] then Ok([])
    else if SymbolKey !in data[0] then Err(KeyError(SymbolKey))
    else
      var tail :- DataSymbols(data[1..]);
      assert forall i :: 1 <= i < |data| ==> data[i] == data[1..][i - 1];
      Ok([data[0][SymbolKey]] + tail)
  }

  /** `[s for s in symbols if s not in data_symbols]`: the requested symbols
      no row carries. */
  function MissingSymbols(symbols: seq<string>, dataSymbols: seq<Value>): (r: seq<string>)
    ensures forall s :: s in r <==> s in symbols && Str(s) !in dataSymbols
    ensures |r| <= |symbols|
  {
    if symbols == [] then []
    else (if Str(symbols[0]) !in dataSymbols then [symbols[0]] else []) + MissingSymbols(symbols[1..], dataSymbols)
  }

  /** The comprehension keeps request order: out of distinct requests the
      missing symbols come out distinct, each after the ones requested
      before it. */
  lemma {:induction false} MissingSymbolsInOrder(symbols: seq<string>, dataSymbols: seq<Value>)
    requires Distinct(symbols)
    ensures var r := MissingSymbols(symbols, dataSymbols);
      Distinct(r) && forall i, j :: 0 <= i < j < |r| ==> IndexOf(symbols, r[i]) < IndexOf(symbols, r[j])
    decreases |symbols|
  {
    if symbols != [] {
      var tail := symbols[1..];
      var rest := MissingSymbols(tail, dataSymbols);
      MissingSymbolsInOrder(tail, dataSymbols);
      forall x | x in rest
        ensures x != symbols[0] && IndexOf(symbols, x) == IndexOf(tail, x) + 1
      {
        var k := IndexOf(tail, x);
        assert symbols[k + 1] == x;
      }
      var r := MissingSymbols(symbols, dataSymbols);
      var missing := Str(symbols[0]) !in dataSymbols;
      assert r == (if missing then [symbols[0]] else []) + rest;
      var d := if missing then 1 else 0;
      forall i, j | 0 <= i < j < |r|
        ensures IndexOf(symbols, r[i]) < IndexOf(symbols, r[j])
      {
        var y := rest[j - d];
        assert y in rest && r[j] == y;
        if i >= d {
          var x := rest[i - d];
          assert x in rest && r[i] == x;
          assert IndexOf(tail, x) < IndexOf(tail, y);
        } else {
          assert r[i] == symbols[0] && IndexOf(symbols, symbols[0]) == 0;
        }
      }
      assert Distinct(r) by {
        forall i, j | 0 <= i < j < |r|
          ensures r[i] != r[j]
        {
          assert IndexOf(symbols, r[i]) < IndexOf(symbols, r[j]);
        }
      }
    }
  }

  /** The missing-symbol warning: looked for only when the number of rows
      differs from the number of requested symbols; it names the requested
      symbols no row carries. */
  function Warning(symbol: string, data: seq<Record>): (r: Result<Option<seq<string>>>)
    ensures |data| == |RequestedSymbols(symbol)| ==> r == Ok(None)
    ensures |data| != |RequestedSymbols(symbol)| ==>
      (r.Ok? <==> forall i :: 0 <= i < |data| ==> SymbolKey in data[i])
    ensures r.Err? ==> r.error == KeyError(SymbolKey)
    ensures r.Ok? && r.value.Some? ==> forall s :: s in r.value.value <==>
      s in RequestedSymbols(symbol) && forall i :: 0 <= i < |data| ==> data[i][SymbolKey] != Str(s)
  {
    var symbols := RequestedSymbols(symbol);
    if |data| != |symbols| then
      var dataSymbols :- DataSymbols(data);
      Ok(Some(MissingSymbols(symbols, dataSymbols)))
    else Ok(None)
  }

  /** `[model_validate(i) for i in data]`: each row handed to the validator
      in turn; the first row whose values make it raise stops the list. */
  method ValidateRows(data: seq<Record>, floatOf: string -> Option<real>) returns (r: Result<seq<Record>>)
    ensures r.Ok? <==> forall i :: 0 <= i < |data| ==> Rescaled(data[i], floatOf).Some?
    ensures r.Ok? ==> |r.value| == |data| && forall i :: 0 <= i < |data| ==> r.value[i] == Rescaled(data[i], floatOf).value
    ensures r.Err? ==> r.error == TypeError || r.error.ValueError?
  {
    var rows: seq<Record> := [];
    var i := 0;
    while i < |data|
      invariant 0 <= i <= |data| && |rows| == i
      invariant forall j :: 0 <= j < i ==> Rescaled(data[j], floatOf).Some? && rows[j] == Rescaled(data[j], floatOf).value
    {
      var row := new Row(data[i]);
      var err := row.ReplaceZero(floatOf);
      if err.Some? {
        ghost var k :| k in data[i] && Rescale(k, data[i][k], floatOf) == Err(err.value);
        return Err(err.value);
      }
      rows := rows + [row.entries];
      i := i + 1;
    }
    r := Ok(rows);
  }

  /** `transform_data`: the warning (if any), then one validated row per row
      of data, in order; the warning never drops a row. */
  method TransformData(symbol: string, data: seq<Record>, floatOf: string -> Option<real>)
    returns (r: Result<(Option<seq<string>>, seq<Record>)>)
    ensures Warning(symbol, data).Err? ==> r == Err(Warning(symbol, data).error)
    ensures Warning(symbol, data).Ok? ==> (r.Ok? <==> forall i :: 0 <= i < |data| ==> Rescaled(data[i], floatOf).Some?)
    ensures r.Ok? ==> r.value.0 == Warning(symbol, data).value
    ensures r.Ok? ==> |r.value.1| == |data| && forall i :: 0 <= i < |data| ==> r.value.1[i] == Rescaled(data[i], floatOf).value
    ensures r.Err? ==> r.error == KeyError(SymbolKey) || r.error == TypeError || r.error.ValueError?
  {
    var warning := Warning(symbol, data);
    if warning.Err? {
      return Err(warning.error);
    }
    var rows := ValidateRows(data, floatOf);
    if rows.Err? {
      return Err(rows.error);
    }
    r := Ok((warning.value, rows.value));
  }
}
