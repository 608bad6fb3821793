/** Stock-code conversion between the public suffix form (`600519.SS`) and
    the data store's prefix form (`SH600519`), and the query-text builders
    whose output depends on their arguments. */
module References {
  import opened Wrappers
  import opened Strs
  import opened Values

  // ---------------------------------------------------------------------
  // Suffix form -> prefix form

  /** `[s.strip() for s in items if s.strip()]`: the non-blank items, stripped, in order. */
  function StrippedNonBlank(items: seq<string>): (r: seq<string>)
    ensures |r| <= |items|
    ensures forall i :: 0 <= i < |r| ==> r[i] != []
  {
    if items == [] then []
    else
      var s := Strip(items[0]);
      (if s != [] then [s] else []) + StrippedNonBlank(items[1..])
  }

  /** One item: `.SS` becomes `.SH` (the `.SZ` rewrite leaves the text as it
      was), then the part after the first dot is put before the part ahead of
      it. An item converts exactly when it holds a dot; without one it fails
      like `split(".")[1]` does. */
  function ConvertItem(item: string): (r: Result<string>)
    ensures r.Err? <==> '.' !in item
    ensures r.Err? ==> r.error == IndexError
  {
    var s1 := Replace(item, ".SS", ".SH");
    var s := Replace(s1, ".SZ", ".SZ");
    ReplaceKeepsChar(item, ".SS", ".SH", '.');
    ReplaceKeepsChar(s1, ".SZ", ".SZ", '.');
    SplitOnePieceIff(s, '.');
    var parts := Split(s, '.');
    if |parts| < 2 then Err(IndexError) else Ok(parts[1] + parts[0])
  }

  /** The list comprehension over the items: the first item that fails makes the whole conversion fail. */
  function ConvertAll(items: seq<string>): (r: Result<seq<string>>)
    ensures r.Ok? ==> (|r.value| == |items|
      && forall i :: 0 <= i < |items| ==> ConvertItem(items[i]) == Ok(r.value[i]))
    ensures r.Err? <==> exists i :: 0 <= i < |items| && ConvertItem(items[i]).Err?
    ensures r.Err? ==> r.error == IndexError
  {
    if items == [] then Ok([])
    else
      var head :- ConvertItem(items[0]);
      var tail :- ConvertAll(items[1..]);
      assert forall i :: 1 <= i < |items| ==> items[i] == items[1..][i - 1];
      Ok([head] + tail)
  }

  /** Some comma item is not blank and has no dot. */
  predicate HasDotlessItem(pieces: seq<string>) {
    exists j :: 0 <= j < |pieces| && !IsBlank(pieces[j]) && '.' !in pieces[j]
  }

  /** `convert_stock_code_format`: `"600519.SS,002415.SZ"` becomes
      `"SH600519,SZ002415"`. It fails, with the `IndexError` of
      `split(".")[1]`, exactly when some non-blank comma item has no dot. */
  function ConvertStockCodeFormat(symbol: string): (r: Result<string>)
    ensures r.Err? <==> HasDotlessItem(Split(symbol, ','))
    ensures r.Err? ==> r.error == IndexError
  {
    var items := StrippedNonBlank(Split(symbol, ','));
    ConvertAllFailsIff(Split(symbol, ','));
    var codes :- ConvertAll(items);
    Ok(Join(codes, ","))
  }

  /** Stripping and dropping blanks works item by item, so it keeps the input order. */
  lemma {:induction false} StrippedNonBlankAppend(a: seq<string>, b: seq<string>)
    ensures StrippedNonBlank(a + b) == StrippedNonBlank(a) + StrippedNonBlank(b)
    decreases |a|
  {
    if a != [] {
      var ab := a + b;
      assert ab[0] == a[0] && ab[1..] == a[1..] + b;
      StrippedNonBlankAppend(a[1..], b);
      var h := if Strip(a[0]) != [] then [Strip(a[0])] else [];
      assert StrippedNonBlank(ab) == h + StrippedNonBlank(a[1..] + b);
      assert StrippedNonBlank(a) == h + StrippedNonBlank(a[1..]);
    } else {
      assert a + b == b;
    }
  }

  /** With no blank item, there is one stripped item per input item, in order. */
  lemma StrippedNonBlankNoneBlank(items: seq<string>)
    requires forall i :: 0 <= i < |items| ==> !IsBlank(items[i])
    ensures var r := StrippedNonBlank(items);
      |r| == |items| && forall i :: 0 <= i < |items| ==> r[i] == Strip(items[i])
  {
    forall i | 0 <= i < |items|
      ensures Strip(items[i]) != []
    {
      StripEmptyIffBlank(items[i]);
    }
    StrippedNonBlankKeepsAll(items);
  }

  /** When no item strips to nothing, every stripped item is kept, in order. */
  lemma {:induction false} StrippedNonBlankKeepsAll(items: seq<string>)
    requires forall i :: 0 <= i < |items| ==> Strip(items[i]) != []
    ensures var r := StrippedNonBlank(items);
      |r| == |items| && forall i :: 0 <= i < |items| ==> r[i] == Strip(items[i])
    decreases |items|
  {
    if items != [] {
      var t := StrippedNonBlank(items[1..]);
      assert StrippedNonBlank(items) == [Strip(items[0])] + t;
      StrippedNonBlankKeepsAll(items[1..]);
      assert forall i :: 1 <= i < |items| ==> items[i] == items[1..][i - 1];
    }
  }

  /** With only blank items, nothing is left. */
  lemma {:induction false} StrippedNonBlankAllBlank(items: seq<string>)
    requires forall i :: 0 <= i < |items| ==> IsBlank(items[i])
    ensures StrippedNonBlank(items) == []
    decreases |items|
  {
    if items != [] {
      StripEmptyIffBlank(items[0]);
      StrippedNonBlankAllBlank(items[1..]);
    }
  }

  /** The stripped items are exactly the strips of the non-blank input items. */
  lemma StrippedNonBlankMember(items: seq<string>, x: string)
    ensures x in StrippedNonBlank(items)
      <==> exists j :: 0 <= j < |items| && !IsBlank(items[j]) && x == Strip(items[j])
  {
    if x in StrippedNonBlank(items) {
      var j := StrippedNonBlankSource(items, x);
    }
    if exists j :: 0 <= j < |items| && !IsBlank(items[j]) && x == Strip(items[j]) {
      var j :| 0 <= j < |items| && !IsBlank(items[j]) && x == Strip(items[j]);
      StripEmptyIffBlank(items[j]);
      StrippedNonBlankKeeps(items, j);
    }
  }

  /** Every kept item is the strip of some non-blank input item. */
  lemma {:induction false} StrippedNonBlankSource(items: seq<string>, x: string) returns (j: nat)
    requires x in StrippedNonBlank(items)
    ensures j < |items| && !IsBlank(items[j]) && x == Strip(items[j])
    decreases |items|
  {
    var t := items[1..];
    var h := if Strip(items[0]) != [] then [Strip(items[0])] else [];
    assert StrippedNonBlank(items) == h + StrippedNonBlank(t);
    if x in h {
      j := 0;
      StripEmptyIffBlank(items[0]);
    } else {
      var k := StrippedNonBlankSource(t, x);
      j := k + 1;
      assert items[j] == t[k];
    }
  }

  /** The strip of an item that does not strip to nothing is kept. */
  lemma {:induction false} StrippedNonBlankKeeps(items: seq<string>, j: nat)
    requires j < |items| && Strip(items[j]) != []
    ensures Strip(items[j]) in StrippedNonBlank(items)
    decreases j
  {
    var t := items[1..];
    var h := if Strip(items[0]) != [] then [Strip(items[0])] else [];
    assert StrippedNonBlank(items) == h + StrippedNonBlank(t);
    if j > 0 {
      StrippedNonBlankKeeps(t, j - 1);
      assert t[j - 1] == items[j];
    }
  }

  /** Only the dot and the letters of the exchange codes are rewritten: any
      other character of a converted code comes from the item. */
  lemma ConvertItemNoNewChars(item: string, ch: char)
    requires ConvertItem(item).Ok? && ch in ConvertItem(item).value
    requires ch != '.' && ch != 'S' && ch != 'H' && ch != 'Z'
    ensures ch in item
  {
    var s1 := Replace(item, ".SS", ".SH");
    var s := Replace(s1, ".SZ", ".SZ");
    ReplaceKeepsChar(item, ".SS", ".SH", ch);
    ReplaceKeepsChar(s1, ".SZ", ".SZ", ch);
    var parts := Split(s, '.');
    if ch in parts[1] {
      SplitHasNoNewChars(s, '.', 1, ch);
    } else {
      assert ch in parts[0];
      SplitHasNoNewChars(s, '.', 0, ch);
    }
  }

  /** The two suffix rewrites on a bare `.SS`, `.SH` and `.SZ`. */
  lemma SuffixRewrites()
    ensures Replace(".SS", ".SS", ".SH") == ".SH"
    ensures Replace(".SH", ".SZ", ".SZ") == ".SH"
    ensures Replace(".SZ", ".SS", ".SH") == ".SZ"
    ensures Replace(".SZ", ".SZ", ".SZ") == ".SZ"
  {
    assert ".SS"[..3] == ".SS" && ".SS"[3..] == "";
    assert ".SH"[..3] != ".SZ" && ".SH"[1..] == "SH";
    assert ".SZ"[..3] != ".SS" && ".SZ"[1..] == "SZ";
    assert ".SZ"[..3] == ".SZ" && ".SZ"[3..] == "";
  }

  /** An item `c.SS` or `c.SZ` keeps its code and swaps the suffix to the front. */
  lemma ConvertWithSuffix(c: string, x: string, y: string)
    requires '.' !in c && '.' !in y
    requires Replace(Replace(x, ".SS", ".SH"), ".SZ", ".SZ") == "." + y
    ensures ConvertItem(c + x) == Ok(y + c)
  {
    assert ".SS"[0] == '.' && ".SZ"[0] == '.';
    ReplaceSkip(c, x, ".SS", ".SH");
    ReplaceSkip(c, Replace(x, ".SS", ".SH"), ".SZ", ".SZ");
    var s := c + ("." + y);
    assert Replace(Replace(c + x, ".SS", ".SH"), ".SZ", ".SZ") == s;
    assert s == c + ['.'] + y;
    SplitAfterPiece(c, y, '.');
    SplitNoSeparator(y, '.');
    assert Split(s, '.') == [c, y];
  }

  /** An exchange suffix becomes a prefix, and the code in front of it is kept verbatim. */
  lemma ConvertSuffixed(c: string)
    requires '.' !in c
    ensures ConvertItem(c + ".SS") == Ok("SH" + c)
    ensures ConvertItem(c + ".SZ") == Ok("SZ" + c)
  {
    SuffixRewrites();
    ConvertWithSuffix(c, ".SS", "SH");
    ConvertWithSuffix(c, ".SZ", "SZ");
  }

  /** A single item with no comma and no surrounding whitespace converts on its own. */
  lemma ConvertSingle(x: string)
    requires ',' !in x && x != [] && !IsSpace(x[0]) && !IsSpace(x[|x| - 1])
    ensures ConvertItem(x).Ok? ==> ConvertStockCodeFormat(x) == ConvertItem(x)
    ensures ConvertItem(x).Err? ==> ConvertStockCodeFormat(x).Err?
  {
    SplitNoSeparator(x, ',');
    StripUnchanged(x);
    assert StrippedNonBlank([x]) == [x] by {
      assert [x][1..] == [];
    }
  }

  /** Two clean items separated by a comma convert to their codes separated by a comma. */
  lemma ConvertPair(a: string, b: string, x: string, y: string)
    requires ',' !in a && a != [] && !IsSpace(a[0]) && !IsSpace(a[|a| - 1])
    requires ',' !in b && b != [] && !IsSpace(b[0]) && !IsSpace(b[|b| - 1])
    requires ConvertItem(a) == Ok(x) && ConvertItem(b) == Ok(y)
    ensures ConvertStockCodeFormat(a + "," + b) == Ok(x + "," + y)
  {
    PairItems(a, b);
    ConvertAllPair(a, b, x, y);
    JoinPair(x, y);
  }

  /** The two clean items of `a,b` survive splitting and stripping as they are. */
  lemma PairItems(a: string, b: string)
    requires ',' !in a && a != [] && !IsSpace(a[0]) && !IsSpace(a[|a| - 1])
    requires ',' !in b && b != [] && !IsSpace(b[0]) && !IsSpace(b[|b| - 1])
    ensures StrippedNonBlank(Split(a + "," + b, ',')) == [a, b]
  {
    assert a + "," + b == a + [','] + b;
    SplitAfterPiece(a, b, ',');
    SplitNoSeparator(b, ',');
    StripUnchanged(a);
    StripUnchanged(b);
    var items := [a, b];
    assert items[1..] == [b] && [b][1..] == [];
    assert Split(a + "," + b, ',') == items;
  }

  lemma ConvertAllPair(a: string, b: string, x: string, y: string)
    requires ConvertItem(a) == Ok(x) && ConvertItem(b) == Ok(y)
    ensures ConvertAll([a, b]) == Ok([x, y])
  {
    var items := [a, b];
    assert ConvertItem(items[0]).Ok? && ConvertItem(items[1]).Ok?;
    var v := ConvertAll(items).value;
    assert |v| == 2 && v[0] == x && v[1] == y;
    assert v == [x, y];
  }

  lemma JoinPair(x: string, y: string)
    ensures Join([x, y], ",") == x + "," + y
  {
    assert [x, y][1..] == [y];
  }

  /** The documented example, for any two digit codes: `c.SS,d.SZ` becomes `SHc,SZd`. */
  lemma ConvertTwoSuffixed(c: string, d: string)
    requires AllDigits(c) && AllDigits(d)
    ensures ConvertStockCodeFormat((c + ".SS") + "," + (d + ".SZ")) == Ok(("SH" + c) + "," + ("SZ" + d))
  {
    assert '.' !in c && ',' !in c && '.' !in d && ',' !in d;
    ConvertSuffixed(c);
    ConvertSuffixed(d);
    var a, b := c + ".SS", d + ".SZ";
    CodeEndsClean(c, ".SS");
    CodeEndsClean(d, ".SZ");
    ConvertPair(a, b, "SH" + c, "SZ" + d);
  }

  /** A digit code with an exchange suffix has no comma and no whitespace at either end. */
  lemma CodeEndsClean(c: string, suffix: string)
    requires AllDigits(c) && (suffix == ".SS" || suffix == ".SZ")
    ensures var a := c + suffix; ',' !in a && a != [] && !IsSpace(a[0]) && !IsSpace(a[|a| - 1])
  {
    var a := c + suffix;
    assert a[|a| - 1] == suffix[2];
    assert a[0] == '.' || IsDigit(a[0]);
  }

  /** A blank or empty input converts to the empty string. */
  lemma ConvertBlank(symbol: string)
    requires IsBlank(symbol)
    ensures ConvertStockCodeFormat(symbol) == Ok("")
  {
    var items := Split(symbol, ',');
    forall i | 0 <= i < |items|
      ensures IsBlank(items[i])
    {
      forall k | 0 <= k < |items[i]|
        ensures IsSpace(items[i][k])
      {
        SplitHasNoNewChars(symbol, ',', i, items[i][k]);
      }
    }
    StrippedNonBlankAllBlank(items);
  }

  /** The comprehension over the comma items fails exactly when some
      non-blank item has no dot. */
  lemma ConvertAllFailsIff(items: seq<string>)
    ensures ConvertAll(StrippedNonBlank(items)).Err? <==> HasDotlessItem(items)
  {
    if ConvertAll(StrippedNonBlank(items)).Err? {
      var j := ConvertFailsWitness(items);
    } else if exists j :: 0 <= j < |items| && !IsBlank(items[j]) && '.' !in items[j] {
      var j :| 0 <= j < |items| && !IsBlank(items[j]) && '.' !in items[j];
      ConvertFailsAt(items, j);
    }
  }

  /** The item a failing conversion trips over. */
  lemma ConvertFailsWitness(items: seq<string>) returns (j: nat)
    requires ConvertAll(StrippedNonBlank(items)).Err?
    ensures j < |items| && !IsBlank(items[j]) && '.' !in items[j]
  {
    var x := ConvertAllFailsOn(StrippedNonBlank(items));
    j := StrippedLacksDot(items, x);
  }

  /** A kept item with no dot was stripped from an item with no dot. */
  lemma StrippedLacksDot(items: seq<string>, x: string) returns (j: nat)
    requires x in StrippedNonBlank(items) && '.' !in x
    ensures j < |items| && !IsBlank(items[j]) && '.' !in items[j]
  {
    StrippedNonBlankMember(items, x);
    j :| 0 <= j < |items| && !IsBlank(items[j]) && x == Strip(items[j]);
    DotIsNotSpace();
    StripLacks(items[j], '.');
  }

  lemma DotIsNotSpace()
    ensures !IsSpace('.')
  {
  }

  /** The comprehension fails on an item with no dot. */
  lemma ConvertAllFailsOn(r: seq<string>) returns (x: string)
    requires ConvertAll(r).Err?
    ensures x in r && '.' !in x
  {
    var i :| 0 <= i < |r| && ConvertItem(r[i]).Err?;
    x := r[i];
  }

  lemma ConvertFailsAt(items: seq<string>, j: nat)
    requires j < |items| && !IsBlank(items[j]) && '.' !in items[j]
    ensures ConvertAll(StrippedNonBlank(items)).Err?
  {
    var r := StrippedNonBlank(items);
    var x := Strip(items[j]);
    StrippedNonBlankMember(items, x);
    var i :| 0 <= i < |r| && r[i] == x;
    if '.' in x {
      StripHasNoNewChars(items[j], '.');
    }
  }

  /** A successful conversion yields one code per non-blank item, in order:
      splitting the output on commas gives back exactly the converted items. */
  lemma ConvertOnePerItem(symbol: string)
    requires ConvertStockCodeFormat(symbol).Ok?
    ensures var items := StrippedNonBlank(Split(symbol, ','));
      var out := ConvertStockCodeFormat(symbol).value;
      (items == [] ==> out == "")
      && (items != [] ==> (var codes := Split(out, ',');
        |codes| == |items| && forall i :: 0 <= i < |items| ==> ConvertItem(items[i]) == Ok(codes[i])))
  {
    var pieces := Split(symbol, ',');
    var items := StrippedNonBlank(pieces);
    var codes := ConvertAll(items).value;
    if items != [] {
      forall i | 0 <= i < |codes|
        ensures ',' !in codes[i]
      {
        if ',' in codes[i] {
          ConvertItemNoNewChars(items[i], ',');
          StrippedNonBlankMember(pieces, items[i]);
          var j :| 0 <= j < |pieces| && !IsBlank(pieces[j]) && items[i] == Strip(pieces[j]);
          StripHasNoNewChars(pieces[j], ',');
          assert false;
        }
      }
      SplitJoin(codes, ',');
    }
  }

  // ---------------------------------------------------------------------
  // Prefix form -> suffix form

  /** One symbol back to suffix form; "SH" is tested before "SZ", and a symbol
      holding neither (such as a fund code `OF000001`) is left as it is. */
  function RevertSymbol(sym: string): (r: string)
    ensures !Contains(sym, "SH") && !Contains(sym, "SZ") ==> r == sym
    ensures Contains(sym, "SH") ==> |r| >= 3 && r[|r| - 3..] == ".SS"
    ensures !Contains(sym, "SH") && Contains(sym, "SZ") ==> |r| >= 3 && r[|r| - 3..] == ".SZ"
  {
    if Contains(sym, "SH") then Replace(sym, "SH", "") + ".SS"
    else if Contains(sym, "SZ") then Replace(sym, "SZ", "") + ".SZ"
    else sym
  }

  /** The loop body of `revert_stock_code_format` on one record: only the
      `symbol` entry changes; a missing key or a non-string symbol raises. */
  function RevertRecord(r: Record): (res: Result<Record>)
    ensures res.Ok? <==> "symbol" in r && r["symbol"].Str?
    ensures res.Ok? ==> (res.value.Keys == r.Keys
      && res.value["symbol"] == Str(RevertSymbol(r["symbol"].s))
      && forall k :: k in r && k != "symbol" ==> res.value[k] == r[k])
  {
    if "symbol" !in r then Err(KeyError("symbol"))
    else match r["symbol"]
      case Str(s) => Ok(r["symbol" := Str(RevertSymbol(s))])
      case _ => Err(TypeError)
  }

  /** The position of the first record the loop raises on (|data| when none does). */
  function FirstUnrevertable(data: seq<Record>): (k: nat)
    ensures k <= |data|
    ensures forall i :: 0 <= i < k ==> RevertRecord(data[i]).Ok?
    ensures k < |data| ==> RevertRecord(data[k]).Err?
  {
    if data == [] then 0
    else if RevertRecord(data[0]).Err? then 0
    else 1 + FirstUnrevertable(data[1..])
  }

  /** `revert_stock_code_format`: rewrites the `symbol` of every record of the
      list in place and hands the same list back. When a record makes the loop
      raise, the records before it have already been rewritten and the rest are
      untouched. */
  method RevertStockCodeFormat(data: array<Record>) returns (err: Option<Error>)
    modifies data
    ensures var k := FirstUnrevertable(old(data[..]));
      && (err.None? <==> k == data.Length)
      && (err.Some? ==> err == Some(RevertRecord(old(data[k])).error))
      && (forall i :: 0 <= i < k ==> data[i] == RevertRecord(old(data[i])).value)
      && (forall i :: k <= i < data.Length ==> data[i] == old(data[i]))
  {
    ghost var before := data[..];
    var i := 0;
    while i < data.Length
      invariant 0 <= i <= data.Length
      invariant forall j :: 0 <= j < i ==> RevertRecord(before[j]).Ok? && data[j] == RevertRecord(before[j]).value
      invariant forall j :: i <= j < data.Length ==> data[j] == before[j]
    {
      var res := RevertRecord(data[i]);
      if res.Err? {
        FirstUnrevertableAt(before, i);
        return Some(res.error);
      }
      data[i] := res.value;
      i := i + 1;
    }
    FirstUnrevertableAt(before, data.Length);
    err := None;
  }

  lemma {:induction false} FirstUnrevertableAt(data: seq<Record>, i: nat)
    requires i <= |data|
    requires forall j :: 0 <= j < i ==> RevertRecord(data[j]).Ok?
    requires i < |data| ==> RevertRecord(data[i]).Err?
    ensures FirstUnrevertable(data) == i
    decreases i
  {
    if i > 0 {
      FirstUnrevertableAt(data[1..], i - 1);
    }
  }

  /** A prefixed digit code reverts to the matching suffix. */
  lemma RevertPrefixed(c: string)
    requires 'S' !in c
    ensures RevertSymbol("SH" + c) == c + ".SS"
    ensures RevertSymbol("SZ" + c) == c + ".SZ"
  {
    NotContainsWithoutFirst(c, "SH");
    NotContainsWithoutFirst(c, "SZ");
    ContainsPrefix("SH", c);
    ContainsPrefix("SZ", c);
    assert ("SH" + c)[..2] == "SH" && ("SH" + c)[2..] == c;
    assert ("SZ" + c)[..2] == "SZ" && ("SZ" + c)[2..] == c;
    assert !Contains("SZ" + c, "SH") by {
      assert ("SZ" + c)[1..] == "Z" + c;
      NotContainsWithoutFirst("Z" + c, "SH");
    }
  }

  /** Round trip: reverting the converted form of `c.SS` / `c.SZ` gives it back. */
  lemma RevertConverted(c: string)
    requires AllDigits(c)
    ensures ConvertStockCodeFormat(c + ".SS") == Ok("SH" + c) && RevertSymbol("SH" + c) == c + ".SS"
    ensures ConvertStockCodeFormat(c + ".SZ") == Ok("SZ" + c) && RevertSymbol("SZ" + c) == c + ".SZ"
  {
    assert '.' !in c && 'S' !in c;
    ConvertSuffixed(c);
    CodeEndsClean(c, ".SS");
    CodeEndsClean(c, ".SZ");
    ConvertSingle(c + ".SS");
    ConvertSingle(c + ".SZ");
    RevertPrefixed(c);
  }

  /** A fund code such as `OF000001` holds neither exchange prefix and is left alone. */
  lemma RevertFundCode()
    ensures RevertSymbol("OF000001") == "OF000001"
  {
    NotContainsWithoutFirst("OF000001", "SH");
    NotContainsWithoutFirst("OF000001", "SZ");
  }

  // ---------------------------------------------------------------------
  // Period filter

  const PeriodToMonth: map<string, string> := map["ytd" := "", "annual" := "12"]

  /** The grouping and ordering, up to the `limit` keyword, that every
      report-month clause ends with before the row limit itself. */
  const GroupOrder: string := "context by symbol,factor_name,extractMonthDayFromTime(报告期) order by 报告期 limit"

  /** The month filter a non-empty month puts in front of the grouping. */
  const MonthFilter: string := " and monthOfYear(报告期) = "

  const AnnualFilter: string := MonthFilter + "12"

  /** `get_report_month`: the period filter of a finance query. `annual` keeps
      December reports only, `ytd` adds no month filter, anything else raises
      `ValueError`; both clauses end by limiting the rows to `limit`. */
  function GetReportMonth(period: string, limit: int): (r: Result<string>)
    ensures r.Err? <==> period != "ytd" && period != "annual"
    ensures r.Err? ==> r.error.ValueError?
    ensures period == "annual" ==> |r.value| >= |AnnualFilter| && r.value[..|AnnualFilter|] == AnnualFilter
    ensures period == "ytd" ==> |r.value| >= |GroupOrder| && r.value[..|GroupOrder|] == GroupOrder
    ensures r.Ok? ==> ClauseLimit(r.value) == Some(limit)
  {
    if period !in PeriodToMonth then Err(ValueError("Invalid period: " + period))
    else
      var month := PeriodToMonth[period];
      if month != "" then Ok(MonthClause(month, limit)) else Ok(YtdClause(limit))
  }

  /** The clause for a month: the month filter, then the grouping and the limit. */
  function MonthClause(month: string, limit: int): (r: string)
    ensures |r| >= |MonthFilter + month| && r[..|MonthFilter + month|] == MonthFilter + month
    ensures ClauseLimit(r) == Some(limit)
  {
    ClauseLimitOf(MonthFilter + month + "  " + GroupOrder, limit, true);
    StartsWithHead(MonthFilter + month, "  ", GroupOrder, " ", IntToString(limit), " ;");
    MonthFilter + month + "  " + GroupOrder + " " + IntToString(limit) + " ;"
  }

  /** Text appended after a head leaves the head in front. */
  lemma StartsWithHead(head: string, a: string, b: string, c: string, d: string, e: string)
    ensures var s := head + a + b + c + d + e; |s| >= |head| && s[..|head|] == head
  {
    var s := head + a + b + c + d + e;
    assert s == head + (a + b + c + d + e);
  }

  /** The clause without a month: the grouping and the limit alone. */
  function YtdClause(limit: int): (r: string)
    ensures |r| >= |GroupOrder| && r[..|GroupOrder|] == GroupOrder
    ensures ClauseLimit(r) == Some(limit)
  {
    ClauseLimitOf(GroupOrder, limit, false);
    GroupOrder + " " + IntToString(limit) + ";"
  }

  /** The integer a report-month clause limits the rows to: the last word
      before the closing `;` (or ` ;`). */
  function ClauseLimit(clause: string): Option<int> {
    var body :=
      if |clause| >= 2 && clause[|clause| - 2..] == " ;" then clause[..|clause| - 2]
      else if |clause| >= 1 && clause[|clause| - 1] == ';' then clause[..|clause| - 1]
      else clause;
    ParseInt(LastWord(body))
  }

  /** The trailing run of non-space characters. */
  function LastWord(s: string): (w: string)
    ensures ' ' !in w
  {
    if s == [] || s[|s| - 1] == ' ' then [] else LastWord(s[..|s| - 1]) + [s[|s| - 1]]
  }

  lemma {:induction false} LastWordAfterSpace(a: string, w: string)
    requires ' ' !in w
    ensures LastWord(a + " " + w) == w
    decreases |w|
  {
    if w == [] {
      assert (a + " " + w)[|a + " " + w| - 1] == ' ';
    } else {
      var s := a + " " + w;
      assert s[..|s| - 1] == a + " " + w[..|w| - 1];
      assert ' ' !in w[..|w| - 1];
      LastWordAfterSpace(a, w[..|w| - 1]);
      assert w[..|w| - 1] + [w[|w| - 1]] == w;
    }
  }

  /** A clause that ends with a space, the rendered limit and its terminator gives that limit back. */
  lemma ClauseLimitOf(pre: string, limit: int, spaced: bool)
    ensures ClauseLimit(pre + " " + IntToString(limit) + (if spaced then " ;" else ";")) == Some(limit)
  {
    var n := IntToString(limit);
    IntToStringHasNoSpace(limit);
    IntToStringRoundTrip(limit);
    var body := pre + " " + n;
    assert body[|body| - 1] == n[|n| - 1];
    ClauseBody(body, spaced);
    LastWordAfterSpace(pre, n);
  }

  lemma IntToStringHasNoSpace(limit: int)
    ensures |IntToString(limit)| >= 1 && ' ' !in IntToString(limit)
  {
    if limit < 0 {
      assert IntToString(limit) == "-" + NatToString(-limit);
    }
  }

  /** The terminator is cut off a clause whose body does not end in a space. */
  lemma ClauseBody(body: string, spaced: bool)
    requires |body| >= 1 && body[|body| - 1] != ' '
    ensures ClauseLimit(body + (if spaced then " ;" else ";")) == ParseInt(LastWord(body))
  {
    if spaced {
      var clause := body + " ;";
      assert clause[|clause| - 2..] == " ;";
      assert clause[..|clause| - 2] == body;
    } else {
      var clause := body + ";";
      var tail := clause[|clause| - 2..];
      assert tail[0] == body[|body| - 1];
      assert tail[0] != " ;"[0];
      assert tail != " ;";
      assert clause[|clause| - 1] == ';';
      assert clause[..|clause| - 1] == body;
    }
  }


  // ---------------------------------------------------------------------
  // Query-text builders

  const IndexConstituentsHead: string := "\n        t1 = select stock_code+\".\"+upper(case when exchange = \"sh\" then \"ss\" else exchange end as exchange) as symbol, into_date, stock_code \n        from loadTable(\"dfs://cn_zvt\",\"index_stock\") \n        where code = '"
  const IndexConstituentsTail: string := "' and out_date is null;\n        t2 = select code,list_date,name \n        from loadTable(\"dfs://cn_zvt\",\"stock\") \n        where exchange in [\"sh\",\"sz\"];\n        t3 = select code,block_type,block_name \n        from loadTable(\"dfs://cn_zvt\",\"stock_block_change\") \n        where block_type in [\"sw_l1\",\"sw_l2\"];\n        t3 = select block_name from t3 pivot by code,block_type;\n        rename!(t3,`code`sector`subSector);\n        res = select symbol,name,sector,subSector,into_date as dateFirstAdded,list_date as founded \n        from t1 left join t2 on t1.stock_code = t2.code join t3 on t1.stock_code = t3.code;\n        undef(`t1`t2`t3);\n        res;\n        "

  /** Python `s[2:]`. */
  function DropTwo(s: string): string {
    if |s| >= 2 then s[2..] else ""
  }

  /** `get_index_constituents_sql`: a single index only (a comma raises), and
      the index code is the symbol with its two-letter exchange prefix cut off. */
  function IndexConstituentsSql(symbol: string): (r: Result<string>)
    ensures r.Err? <==> ',' in symbol
  {
    if ',' in symbol then Err(Failure("Because result can't show out index symbol, index symbol can not be more than one"))
    else Ok(IndexConstituentsHead + DropTwo(symbol) + IndexConstituentsTail)
  }

  /** A prefixed code such as `SH000300` is looked up by its bare code `000300`. */
  lemma IndexConstituentsOfPrefixed(prefix: string, c: string)
    requires |prefix| == 2 && ',' !in prefix && ',' !in c
    ensures IndexConstituentsSql(prefix + c) == Ok(IndexConstituentsHead + c + IndexConstituentsTail)
  {
    assert (prefix + c)[2..] == c;
  }

  const DividendHead: string := "\n        select upper(split(entity_id,'_')[1])+split(entity_id,'_')[2] as symbol, \n        dividend_per_share_before_tax as dividend,\n        record_date as recordDate,\n        dividend_date as paymentDate,\n        dividend_date as date \n        from loadTable(\"dfs://cn_zvt\", `"

  /** The fixed text of the dividend query, before the optional code filter. */
  function DividendBase(startDate: string, endDate: string, tableName: string): string {
    DividendHead + tableName + ") \n        where dividend_date between " + startDate + " and " + endDate + " \n        "
  }

  /** Python `s[-6:]`: the last six characters, or all of a shorter string. */
  function LastSix(s: string): (r: string)
    ensures |r| == if |s| < 6 then |s| else 6
    ensures r == s[|s| - |r|..]
  {
    if |s| >= 6 then s[|s| - 6..] else s
  }

  /** `get_dividend_sql`: the code filter is appended exactly when `code` is
      truthy (neither `None` nor empty). */
  function DividendSql(startDate: string, endDate: string, code: Option<string>, tableName: string): (r: string)
    ensures var base := DividendBase(startDate, endDate, tableName);
      |r| >= |base| && r[..|base|] == base
      && (r == base <==> code.None? || code.value == "")
  {
    var base := DividendBase(startDate, endDate, tableName);
    if code.Some? && code.value != "" then base + " and code = '" + LastSix(code.value) + "'" else base
  }

  /** The filter keeps only the last six characters: a six-digit code keeps
      no more of an exchange prefix in front of it than the code itself. */
  lemma DividendCodeFilter(startDate: string, endDate: string, tableName: string, prefix: string, c: string)
    requires |c| == 6
    ensures DividendSql(startDate, endDate, Some(prefix + c), tableName)
      == DividendBase(startDate, endDate, tableName) + " and code = '" + c + "'"
  {
    assert (prefix + c)[|prefix + c| - 6..] == c;
  }

  /** The select list of `get_query_cnzvt_sql`: `key as value` for every
      entry of the (ordered) factor dictionary, joined by `", "`. */
  function CnzvtSelectList(factorNames: seq<(string, string)>): string {
    Join(FactorItems(factorNames), ", ")
  }

  /** The `key as value` items of the select list, in dictionary order. */
  function FactorItems(factorNames: seq<(string, string)>): (r: seq<string>)
    ensures |r| == |factorNames|
    ensures forall i :: 0 <= i < |r| ==> r[i] == factorNames[i].0 + " as " + factorNames[i].1
  {
    seq(|factorNames|, i requires 0 <= i < |factorNames| => factorNames[i].0 + " as " + factorNames[i].1)
  }

  /** Every factor becomes one `key as value` item of the select list, in
      dictionary order; the items after the first carry the space of the `", "` separator. */
  lemma {:induction false} CnzvtSelectListItems(factorNames: seq<(string, string)>)
    requires |factorNames| >= 1
    requires forall i :: 0 <= i < |factorNames| ==> ',' !in factorNames[i].0 && ',' !in factorNames[i].1
    ensures var items := Split(CnzvtSelectList(factorNames), ',');
      |items| == |factorNames|
      && items[0] == factorNames[0].0 + " as " + factorNames[0].1
      && forall i :: 1 <= i < |items| ==> items[i] == " " + (factorNames[i].0 + " as " + factorNames[i].1)
  {
    var xs := FactorItems(factorNames);
    forall i | 0 <= i < |xs|
      ensures ',' !in xs[i]
    {
      ItemHasNoComma(factorNames[i].0, factorNames[i].1);
    }
    SplitCommaSpaceJoin(xs);
  }

  /** One `key as value` item has no comma when its key and value have none. */
  lemma ItemHasNoComma(k: string, v: string)
    requires ',' !in k && ',' !in v
    ensures ',' !in k + " as " + v
  {
    assert ',' !in " as ";
  }
}
