/** The part of a pandas DataFrame the statement fetchers use: labelled
    columns and a list of row records, and the operations the fetchers apply
    to it (`drop`, `iloc[-n:]`, `/= 100`, `sort_values`, a left `merge`, and
    a column selection between `set_index` and `reset_index`). The frame a
    fetcher holds is a `Frame` object whose operations change it in place;
    each operation is specified by a function on the frame's contents. */
module Frames {
  import opened Wrappers
  import opened Values
  import opened Lists

  /** The report-period column of every financial frame. */
  const PeriodColumn: string := "报告期"

  /** The contents of a frame: its column labels, in order, and its rows. */
  datatype Table = Table(columns: seq<string>, rows: seq<Record>)

  function ColumnSet(cs: seq<string>): set<string> {
    set c | c in cs
  }

  /** `df.empty`: no rows, or no columns. */
  predicate IsEmpty(t: Table) {
    |t.rows| == 0 || |t.columns| == 0
  }

  /** How an in-place operation leaves the frame: the new contents when it
      succeeds, and the old contents together with the exception when it raises. */
  predicate Outcome(r: Result<Table>, err: Option<Error>, before: Table, after: Table) {
    if r.Ok? then err.None? && after == r.value else err == Some(r.error) && after == before
  }

  // ---------------------------------------------------------------------
  // Column labels

  /** The first label of `cols` that is not a column. */
  function FirstMissing(columns: seq<string>, cols: seq<string>): (r: Option<string>)
    ensures r.None? <==> forall c :: c in cols ==> c in columns
    ensures r.Some? ==> r.value in cols && r.value !in columns
  {
    if cols == [] then None
    else if cols[0] !in columns then Some(cols[0])
    else FirstMissing(columns, cols[1..])
  }

  /** The labels of `cs` outside `gone`, in their order. */
  function Without(cs: seq<string>, gone: set<string>): (r: seq<string>)
    ensures forall c :: c in r <==> c in cs && c !in gone
    ensures |r| <= |cs|
  {
    if cs == [] then []
    else (if cs[0] in gone then [] else [cs[0]]) + Without(cs[1..], gone)
  }

  /** The labels of `cs` inside `kept`, in their order. */
  function Within(cs: seq<string>, kept: set<string>): (r: seq<string>)
    ensures forall c :: c in r <==> c in cs && c in kept
    ensures |r| <= |cs|
  {
    if cs == [] then []
    else (if cs[0] in kept then [cs[0]] else []) + Within(cs[1..], kept)
  }

  // ---------------------------------------------------------------------
  // df.drop(columns=cols)

  /** `df.drop(columns=cols)`: every label must be a column (otherwise
      `KeyError`); the columns and every row's cells under them are removed. */
  function DropColumns(t: Table, cols: seq<string>): (r: Result<Table>)
    ensures r.Err? <==> exists c :: c in cols && c !in t.columns
    ensures r.Err? ==> r.error.KeyError? && r.error.key in cols && r.error.key !in t.columns
    ensures r.Ok? ==> |r.value.rows| == |t.rows|
    ensures r.Ok? ==> forall c :: c in r.value.columns <==> c in t.columns && c !in cols
    ensures r.Ok? ==> forall i :: 0 <= i < |t.rows| ==>
      r.value.rows[i].Keys == t.rows[i].Keys - ColumnSet(cols)
      && forall c :: c in r.value.rows[i] ==> r.value.rows[i][c] == t.rows[i][c]
  {
    match FirstMissing(t.columns, cols)
    case Some(c) => Err(KeyError(c))
    case None =>
      var gone := ColumnSet(cols);
      Ok(Table(Without(t.columns, gone), seq(|t.rows|, i requires 0 <= i < |t.rows| => t.rows[i] - gone)))
  }

  // ---------------------------------------------------------------------
  // df.iloc[-limit:]

  /** Where Python's slice `s[k:]` starts on a sequence of length `n`. */
  function SliceStart(n: nat, k: int): (s: nat)
    ensures s <= n
    ensures k >= 0 ==> s == if k <= n then k else n
    ensures k < 0 ==> s == if n + k >= 0 then n + k else 0
  {
    if k >= 0 then (if k <= n then k else n)
    else (if n + k >= 0 then n + k else 0)
  }

  /** `df.iloc[-limit:]`: the last `limit` rows; with `limit == 0` the slice
      `[-0:]` is `[0:]` and every row is kept. */
  function TailRows(t: Table, limit: int): (r: Table)
    ensures r.columns == t.columns
    ensures |r.rows| <= |t.rows| && r.rows == t.rows[|t.rows| - |r.rows|..]
    ensures limit >= 1 ==> |r.rows| == if limit <= |t.rows| then limit else |t.rows|
    ensures limit == 0 ==> r.rows == t.rows
  {
    Table(t.columns, t.rows[SliceStart(|t.rows|, -limit)..])
  }

  // ---------------------------------------------------------------------
  // df[cols] /= 100

  /** One cell divided by 100: numbers scale, missing values stay missing,
      and text or dates make pandas raise `TypeError`. */
  function DivideCell(v: Value): (r: Result<Value>)
    ensures r.Ok? <==> v.Num? || v.Null?
    ensures v.Num? ==> r == Ok(Num(v.x / 100.0))
    ensures v.Null? ==> r == Ok(Null)
  {
    match v
    case Num(x) => Ok(Num(x / 100.0))
    case Null => Ok(Null)
    case _ => Err(TypeError)
  }

  predicate Divisible(row: Record, cols: set<string>) {
    forall c :: c in cols && c in row ==> DivideCell(row[c]).Ok?
  }

  function DivideRow(row: Record, cols: set<string>): (r: Record)
    requires Divisible(row, cols)
    ensures r.Keys == row.Keys
    ensures forall c :: c in row && c in cols ==> r[c] == DivideCell(row[c]).value
    ensures forall c :: c in row && c !in cols ==> r[c] == row[c]
  {
    map c | c in row :: if c in cols then DivideCell(row[c]).value else row[c]
  }

  /** `df[cols] /= 100`: every label must be a column (`KeyError`), every
      cell under them must be a number or missing (`TypeError`); those cells
      are divided and every other cell is left alone. */
  function DivideColumns(t: Table, cols: seq<string>): (r: Result<Table>)
    ensures r.Ok? <==> ((forall c :: c in cols ==> c in t.columns)
      && forall i :: 0 <= i < |t.rows| ==> Divisible(t.rows[i], ColumnSet(cols)))
    ensures r.Err? && (exists c :: c in cols && c !in t.columns) ==> r.error.KeyError?
    ensures r.Err? && (forall c :: c in cols ==> c in t.columns) ==> r.error == TypeError
    ensures r.Ok? ==> r.value.columns == t.columns && |r.value.rows| == |t.rows|
    ensures r.Ok? ==> forall i :: 0 <= i < |t.rows| ==> r.value.rows[i] == DivideRow(t.rows[i], ColumnSet(cols))
  {
    match FirstMissing(t.columns, cols)
    case Some(c) => Err(KeyError(c))
    case None =>
      var s := ColumnSet(cols);
      if exists i :: 0 <= i < |t.rows| && !Divisible(t.rows[i], s) then Err(TypeError)
      else Ok(Table(t.columns, seq(|t.rows|, i requires 0 <= i < |t.rows| => DivideRow(t.rows[i], s))))
  }

  /** `rows` are the last `|rows|` rows of `t`, in order, each with the
      columns `cols` divided by 100. */
  predicate IsDividedTail(rows: seq<Record>, t: Table, cols: set<string>) {
    |rows| <= |t.rows| && forall i :: 0 <= i < |rows| ==>
      var row := t.rows[|t.rows| - |rows| + i];
      Divisible(row, cols) && rows[i] == DivideRow(row, cols)
  }

  lemma DividedTailAt(rows: seq<Record>, t: Table, cols: set<string>, i: int)
    requires IsDividedTail(rows, t, cols) && 0 <= i < |rows|
    ensures Divisible(t.rows[|t.rows| - |rows| + i], cols)
    ensures rows[i] == DivideRow(t.rows[|t.rows| - |rows| + i], cols)
  {
  }

  /** Dividing the last rows gives the last rows, divided. */
  lemma TailDivided(t: Table, limit: int, cols: seq<string>)
    requires DivideColumns(TailRows(t, limit), cols).Ok?
    ensures IsDividedTail(DivideColumns(TailRows(t, limit), cols).value.rows, t, ColumnSet(cols))
  {
    var tail := TailRows(t, limit);
    assert forall i :: 0 <= i < |tail.rows| ==> tail.rows[i] == t.rows[|t.rows| - |tail.rows| + i];
  }

  // ---------------------------------------------------------------------
  // df["报告期"].dt.strftime(...) and df.sort_values(by="报告期", ascending=False)

  /** A row's value under `c`, missing when it has none. */
  function Cell(row: Record, c: string): Value {
    if c in row then row[c] else Null
  }

  function PeriodOf(row: Record): Value {
    Cell(row, PeriodColumn)
  }

  /** What the `.dt` accessor on column `col` raises, if anything: `KeyError`
      without the column, `AttributeError` when it holds something other than
      dates and missing values. */
  function DateFormatError(t: Table, col: string): (e: Option<Error>)
    ensures e.None? <==> (col in t.columns
      && forall i :: 0 <= i < |t.rows| ==> Cell(t.rows[i], col).DateV? || Cell(t.rows[i], col).Null?)
    ensures e.Some? && col !in t.columns ==> e == Some(KeyError(col))
    ensures e.Some? && col in t.columns ==> e == Some(AttributeError)
  {
    if col !in t.columns then Some(KeyError(col))
    else if exists i :: 0 <= i < |t.rows| && !(Cell(t.rows[i], col).DateV? || Cell(t.rows[i], col).Null?) then Some(AttributeError)
    else None
  }

  /** `a` may come before `b` in a descending sort on the report period; rows
      without a date go last (pandas' `na_position="last"`). */
  predicate PeriodBefore(a: Record, b: Record) {
    match (PeriodOf(a), PeriodOf(b))
    case (DateV(x), DateV(y)) => DateLe(y, x)
    case (DateV(_), _) => true
    case (_, DateV(_)) => false
    case (_, _) => true
  }

  predicate SortedByPeriodDesc(rows: seq<Record>) {
    forall i, j :: 0 <= i < j < |rows| ==> PeriodBefore(rows[i], rows[j])
  }

  lemma PeriodBeforeTotal(a: Record, b: Record)
    ensures PeriodBefore(a, b) || PeriodBefore(b, a)
  {
  }

  function InsertByPeriod(x: Record, s: seq<Record>): (r: seq<Record>)
    requires SortedByPeriodDesc(s)
    ensures SortedByPeriodDesc(r)
    ensures multiset(r) == multiset(s) + multiset{x}
    ensures forall i :: 0 <= i < |r| ==> r[i] == x || r[i] in s
  {
    if s == [] then [x]
    else if PeriodBefore(x, s[0]) then
      HeadBeforeAll(x, s);
      ConsSorted(x, s);
      [x] + s
    else
      var t := InsertByPeriod(x, s[1..]);
      PeriodBeforeTotal(x, s[0]);
      assert s == [s[0]] + s[1..];
      FirstBeforeAll(s, x, t);
      ConsSorted(s[0], t);
      [s[0]] + t
  }

  lemma PeriodBeforeTrans(a: Record, b: Record, c: Record)
    requires PeriodBefore(a, b) && PeriodBefore(b, c)
    ensures PeriodBefore(a, c)
  {
  }

  /** A row that may come before the first row of a sorted list may come before all of them. */
  lemma HeadBeforeAll(x: Record, s: seq<Record>)
    requires s != [] && SortedByPeriodDesc(s) && PeriodBefore(x, s[0])
    ensures forall j :: 0 <= j < |s| ==> PeriodBefore(x, s[j])
  {
    forall j | 0 < j < |s|
      ensures PeriodBefore(x, s[j])
    {
      PeriodBeforeTrans(x, s[0], s[j]);
    }
  }

  /** The first row of a sorted list may come before `x` and before every
      other row of the list, so before every row of `t`. */
  lemma FirstBeforeAll(s: seq<Record>, x: Record, t: seq<Record>)
    requires s != [] && SortedByPeriodDesc(s) && PeriodBefore(s[0], x)
    requires forall j :: 0 <= j < |t| ==> t[j] == x || t[j] in s[1..]
    ensures forall j :: 0 <= j < |t| ==> PeriodBefore(s[0], t[j])
  {
    forall j | 0 <= j < |t|
      ensures PeriodBefore(s[0], t[j])
    {
      if t[j] != x {
        var k :| 0 <= k < |s[1..]| && s[1..][k] == t[j];
        assert s[k + 1] == t[j];
      }
    }
  }

  lemma ConsSorted(x: Record, s: seq<Record>)
    requires SortedByPeriodDesc(s) && forall j :: 0 <= j < |s| ==> PeriodBefore(x, s[j])
    ensures SortedByPeriodDesc([x] + s)
  {
    var r := [x] + s;
    forall i, j | 0 <= i < j < |r|
      ensures PeriodBefore(r[i], r[j])
    {
      assert r[j] == s[j - 1];
      if i > 0 {
        assert r[i] == s[i - 1];
      }
    }
  }

  /** A descending sort on the report period: the rows come back ordered,
      and as a permutation of the input. */
  function SortByPeriodDesc(s: seq<Record>): (r: seq<Record>)
    ensures SortedByPeriodDesc(r)
    ensures multiset(r) == multiset(s)
  {
    if s == [] then []
    else
      assert s == [s[0]] + s[1..];
      InsertByPeriod(s[0], SortByPeriodDesc(s[1..]))
  }

  // ---------------------------------------------------------------------
  // df.merge(other, on=on, how="left")

  predicate KeysMatch(l: Record, r: Record, on: seq<string>) {
    forall c :: c in on ==> Cell(l, c) == Cell(r, c)
  }

  /** The non-key labels both sides have; pandas suffixes them `_x` and `_y`. */
  function Overlap(left: Table, right: Table, on: seq<string>): set<string> {
    set c | c in left.columns && c in right.columns && c !in on
  }

  function OutName(c: string, overlap: set<string>, suffix: string): string {
    if c in overlap then c + suffix else c
  }

  /** The cells of `row` under `cols`, each under its output name. */
  function Renamed(row: Record, cols: seq<string>, overlap: set<string>, suffix: string): (r: Record)
    ensures r.Keys == set c | c in cols :: OutName(c, overlap, suffix)
    decreases |cols|
  {
    if cols == [] then map[]
    else
      var c := cols[|cols| - 1];
      Renamed(row, cols[..|cols| - 1], overlap, suffix)[OutName(c, overlap, suffix) := Cell(row, c)]
  }

  /** The right rows whose keys match `l`: each as often as it occurs, in
      their order. */
  function Matches(l: Record, rows: seq<Record>, on: seq<string>): (r: seq<Record>)
    ensures forall x :: x in r <==> x in rows && KeysMatch(l, x, on)
    ensures forall x :: multiset(r)[x] == if KeysMatch(l, x, on) then multiset(rows)[x] else 0
    ensures IsSubsequence(r, rows)
    ensures |r| <= |rows|
  {
    if rows == [] then []
    else
      var rest := Matches(l, rows[1..], on);
      assert rows == [rows[0]] + rows[1..];
      if KeysMatch(l, rows[0], on) then
        assert ([rows[0]] + rest)[1..] == rest;
        [rows[0]] + rest
      else rest
  }

  /** The output rows one left row gives: one per matching right row, in the
      right rows' order, or a single row with missing right-hand cells when
      nothing matches. */
  function MergeGroup(l: Record, left: Table, right: Table, on: seq<string>): (g: seq<Record>)
    ensures var ms := Matches(l, right.rows, on); |g| == if ms == [] then 1 else |ms|
  {
    var ov := Overlap(left, right, on);
    var extra := Without(right.columns, ColumnSet(on));
    var ms := Matches(l, right.rows, on);
    if ms == [] then [Renamed(l, left.columns, ov, "_x") + Renamed(map[], extra, ov, "_y")]
    else seq(|ms|, i requires 0 <= i < |ms| => Renamed(l, left.columns, ov, "_x") + Renamed(ms[i], extra, ov, "_y"))
  }

  /** `k` is the output name of a left column or of a non-key right column. */
  predicate MergedLabel(k: string, left: Table, right: Table, on: seq<string>) {
    || (exists c :: c in left.columns && k == OutName(c, Overlap(left, right, on), "_x"))
    || (exists c :: c in right.columns && c !in on && k == OutName(c, Overlap(left, right, on), "_y"))
  }

  /** A merged label that does not end the way pandas' suffixes do is a
      column of one side as it was. */
  lemma MergedLabelOrigin(k: string, left: Table, right: Table, on: seq<string>)
    requires MergedLabel(k, left, right, on)
    requires k == [] || (k[|k| - 1] != 'x' && k[|k| - 1] != 'y')
    ensures k in left.columns || k in right.columns
  {
    var ov := Overlap(left, right, on);
    if exists c :: c in left.columns && k == OutName(c, ov, "_x") {
      var c :| c in left.columns && k == OutName(c, ov, "_x");
      SuffixedEnd(c, ov, "_x");
    } else {
      var c :| c in right.columns && c !in on && k == OutName(c, ov, "_y");
      SuffixedEnd(c, ov, "_y");
    }
  }

  lemma SuffixedEnd(c: string, ov: set<string>, suffix: string)
    requires suffix != []
    ensures var k := OutName(c, ov, suffix); c in ov ==> k != [] && k[|k| - 1] == suffix[|suffix| - 1]
  {
  }

  /** Every label of a row of a merge group is a merged label. */
  lemma GroupLabels(l: Record, left: Table, right: Table, on: seq<string>)
    ensures forall x, k :: x in MergeGroup(l, left, right, on) && k in x ==> MergedLabel(k, left, right, on)
  {
    var ov := Overlap(left, right, on);
    var extra := Without(right.columns, ColumnSet(on));
    var g := MergeGroup(l, left, right, on);
    var ms := Matches(l, right.rows, on);
    forall x, k | x in g && k in x
      ensures MergedLabel(k, left, right, on)
    {
      var i :| 0 <= i < |g| && g[i] == x;
      var m := if ms == [] then map[] else ms[i];
      var a := Renamed(l, left.columns, ov, "_x");
      var b := Renamed(m, extra, ov, "_y");
      assert x == a + b;
      if k in a {
        assert k in a.Keys;
        var c :| c in left.columns && k == OutName(c, ov, "_x");
      } else {
        assert k in b.Keys;
        var c :| c in extra && k == OutName(c, ov, "_y");
        assert c in right.columns && c !in on;
      }
    }
  }

  /** The groups of the left rows, one after the other: every left row gives
      at least one output row, and every output row belongs to the group of
      some left row. */
  function MergeRows(lrows: seq<Record>, left: Table, right: Table, on: seq<string>): (r: seq<Record>)
    ensures |r| >= |lrows|
    ensures forall x :: x in r <==> exists l :: l in lrows && x in MergeGroup(l, left, right, on)
    ensures forall x, k :: x in r && k in x ==> MergedLabel(k, left, right, on)
  {
    if lrows == [] then []
    else
      var g := MergeGroup(lrows[0], left, right, on);
      var rest := MergeRows(lrows[1..], left, right, on);
      GroupLabels(lrows[0], left, right, on);
      assert lrows == [lrows[0]] + lrows[1..];
      assert forall l :: l in lrows <==> l == lrows[0] || l in lrows[1..];
      g + rest
  }

  function MergedColumns(left: Table, right: Table, on: seq<string>): seq<string> {
    var ov := Overlap(left, right, on);
    var extra := Without(right.columns, ColumnSet(on));
    seq(|left.columns|, i requires 0 <= i < |left.columns| => OutName(left.columns[i], ov, "_x"))
      + seq(|extra|, i requires 0 <= i < |extra| => OutName(extra[i], ov, "_y"))
  }

  /** `left.merge(right, on=on, how="left")`: every key label must be a
      column on both sides (`KeyError`); every left row is kept, in order. */
  function LeftMerge(left: Table, right: Table, on: seq<string>): (r: Result<Table>)
    ensures r.Ok? <==> forall c :: c in on ==> c in left.columns && c in right.columns
    ensures r.Ok? ==> |r.value.rows| >= |left.rows|
    ensures r.Ok? ==> forall x :: x in r.value.rows <==> exists l :: l in left.rows && x in MergeGroup(l, left, right, on)
    ensures r.Ok? ==> forall x, k :: x in r.value.rows && k in x ==> MergedLabel(k, left, right, on)
  {
    match FirstMissing(left.columns, on)
    case Some(c) => Err(KeyError(c))
    case None =>
      match FirstMissing(right.columns, on)
      case Some(c) => Err(KeyError(c))
      case None => Ok(Table(MergedColumns(left, right, on), MergeRows(left.rows, left, right, on)))
  }

  /** No label is another label with pandas' `_x` or `_y` suffix appended,
      so the suffixed names cannot collide with existing ones. */
  predicate NoSuffixClash(cols: seq<string>) {
    forall c, d :: c in cols && d in cols ==> c + "_x" != d && c + "_y" != d
  }

  /** The same suffix keeps two different labels apart. */
  lemma SuffixInjective(c: string, d: string, suffix: string)
    requires c != d
    ensures c + suffix != d + suffix
  {
    if |c| == |d| {
      assert (c + suffix)[..|c|] == c && (d + suffix)[..|d|] == d;
    }
  }

  /** A left-suffixed name is never a right-suffixed one. */
  lemma SuffixesDiffer(c: string, d: string)
    ensures c + "_x" != d + "_y"
  {
    assert (c + "_x")[|c| + 1] == 'x';
    if |c| == |d| {
      assert (d + "_y")[|d| + 1] == 'y';
    }
  }

  /** Without a suffix clash, different labels get different output names. */
  lemma OutNameInjective(cols: seq<string>, overlap: set<string>, suffix: string, c: string, d: string)
    requires NoSuffixClash(cols) && (suffix == "_x" || suffix == "_y")
    requires c in cols && d in cols && c != d
    ensures OutName(c, overlap, suffix) != OutName(d, overlap, suffix)
  {
    if c in overlap && d in overlap {
      SuffixInjective(c, d, suffix);
    } else if c in overlap {
      assert c + "_x" != d && c + "_y" != d;
    } else if d in overlap {
      assert d + "_x" != c && d + "_y" != c;
    }
  }

  /** A label whose output name no other label shares finds its cell under that name. */
  lemma {:induction false} RenamedAt(row: Record, cols: seq<string>, overlap: set<string>, suffix: string, c: string)
    requires c in cols
    requires forall d :: d in cols && d != c ==> OutName(d, overlap, suffix) != OutName(c, overlap, suffix)
    ensures OutName(c, overlap, suffix) in Renamed(row, cols, overlap, suffix)
      && Renamed(row, cols, overlap, suffix)[OutName(c, overlap, suffix)] == Cell(row, c)
    decreases |cols|
  {
    var e := cols[|cols| - 1];
    var init := cols[..|cols| - 1];
    if e != c {
      assert cols == init + [e];
      assert c in init;
      RenamedAt(row, init, overlap, suffix, c);
    }
  }

  /** Without a suffix clash every label finds its cell under its output name. */
  lemma RenamedCells(row: Record, cols: seq<string>, overlap: set<string>, suffix: string)
    requires NoSuffixClash(cols) && (suffix == "_x" || suffix == "_y")
    ensures forall c :: c in cols ==>
      OutName(c, overlap, suffix) in Renamed(row, cols, overlap, suffix)
      && Renamed(row, cols, overlap, suffix)[OutName(c, overlap, suffix)] == Cell(row, c)
  {
    forall c | c in cols
      ensures OutName(c, overlap, suffix) in Renamed(row, cols, overlap, suffix)
        && Renamed(row, cols, overlap, suffix)[OutName(c, overlap, suffix)] == Cell(row, c)
    {
      forall d | d in cols && d != c
        ensures OutName(d, overlap, suffix) != OutName(c, overlap, suffix)
      {
        OutNameInjective(cols, overlap, suffix, d, c);
      }
      RenamedAt(row, cols, overlap, suffix, c);
    }
  }

  /** `x` carries every cell of the left row `l`, under its output name
      (suffixed `_x` when the right side has the label too). */
  predicate KeepsLeft(x: Record, l: Record, left: Table, right: Table, on: seq<string>) {
    forall c :: c in left.columns ==>
      OutName(c, Overlap(left, right, on), "_x") in x && x[OutName(c, Overlap(left, right, on), "_x")] == Cell(l, c)
  }

  /** `x` carries every non-key cell of the right row `m`, under its output
      name (suffixed `_y` when the left side has the label too). */
  predicate KeepsRight(x: Record, m: Record, left: Table, right: Table, on: seq<string>) {
    forall c :: c in right.columns && c !in on ==>
      OutName(c, Overlap(left, right, on), "_y") in x && x[OutName(c, Overlap(left, right, on), "_y")] == Cell(m, c)
  }

  /** One output row, a left row beside a right row, keeps the cells of both. */
  lemma PairKeepsBoth(l: Record, m: Record, left: Table, right: Table, on: seq<string>)
    requires NoSuffixClash(left.columns + right.columns)
    ensures var ov := Overlap(left, right, on);
      var x := Renamed(l, left.columns, ov, "_x") + Renamed(m, Without(right.columns, ColumnSet(on)), ov, "_y");
      KeepsLeft(x, l, left, right, on) && KeepsRight(x, m, left, right, on)
  {
    PairKeepsLeft(l, m, left, right, on);
    PairKeepsRight(l, m, left, right, on);
  }

  /** The left row's cells survive beside the right row: no `_y` name is an `_x` name. */
  lemma PairKeepsLeft(l: Record, m: Record, left: Table, right: Table, on: seq<string>)
    requires NoSuffixClash(left.columns + right.columns)
    ensures var ov := Overlap(left, right, on);
      var x := Renamed(l, left.columns, ov, "_x") + Renamed(m, Without(right.columns, ColumnSet(on)), ov, "_y");
      KeepsLeft(x, l, left, right, on)
  {
    var ov := Overlap(left, right, on);
    var extra := Without(right.columns, ColumnSet(on));
    var lx := Renamed(l, left.columns, ov, "_x");
    var ry := Renamed(m, extra, ov, "_y");
    assert forall d :: d in left.columns ==> d in left.columns + right.columns;
    RenamedCells(l, left.columns, ov, "_x");
    forall c | c in left.columns
      ensures OutName(c, ov, "_x") in lx + ry && (lx + ry)[OutName(c, ov, "_x")] == Cell(l, c)
    {
      forall d | d in extra
        ensures OutName(d, ov, "_y") != OutName(c, ov, "_x")
      {
        XNameNotYName(c, d, left, right, on);
      }
      assert OutName(c, ov, "_x") !in ry;
    }
  }

  /** A left label's output name is never a right label's output name. */
  lemma XNameNotYName(c: string, d: string, left: Table, right: Table, on: seq<string>)
    requires NoSuffixClash(left.columns + right.columns)
    requires c in left.columns && d in right.columns && d !in on
    ensures OutName(d, Overlap(left, right, on), "_y") != OutName(c, Overlap(left, right, on), "_x")
  {
    assert c in left.columns + right.columns && d in left.columns + right.columns;
    if c in Overlap(left, right, on) && d in Overlap(left, right, on) {
      SuffixesDiffer(c, d);
    }
  }

  /** The right row's non-key cells sit on the right of the union, so they win. */
  lemma PairKeepsRight(l: Record, m: Record, left: Table, right: Table, on: seq<string>)
    requires NoSuffixClash(left.columns + right.columns)
    ensures var ov := Overlap(left, right, on);
      var x := Renamed(l, left.columns, ov, "_x") + Renamed(m, Without(right.columns, ColumnSet(on)), ov, "_y");
      KeepsRight(x, m, left, right, on)
  {
    var ov := Overlap(left, right, on);
    var extra := Without(right.columns, ColumnSet(on));
    assert forall d :: d in extra ==> d in left.columns + right.columns;
    RenamedCells(m, extra, ov, "_y");
  }

  /** Row `i` of the group a left row gives keeps that left row's cells and
      the cells of the `i`-th matching right row (all missing when nothing
      matches). */
  lemma GroupKeepsBoth(l: Record, left: Table, right: Table, on: seq<string>)
    requires NoSuffixClash(left.columns + right.columns)
    ensures var ms := Matches(l, right.rows, on);
      var g := MergeGroup(l, left, right, on);
      forall i :: 0 <= i < |g| ==>
        KeepsLeft(g[i], l, left, right, on) && KeepsRight(g[i], if ms == [] then map[] else ms[i], left, right, on)
  {
    var ms := Matches(l, right.rows, on);
    var g := MergeGroup(l, left, right, on);
    forall i | 0 <= i < |g|
      ensures KeepsLeft(g[i], l, left, right, on) && KeepsRight(g[i], if ms == [] then map[] else ms[i], left, right, on)
    {
      PairKeepsBoth(l, if ms == [] then map[] else ms[i], left, right, on);
    }
  }

  /** A left row that matches at most one right row gives one row, which
      keeps the left row's cells. */
  lemma UniqueGroupKeepsLeft(l: Record, left: Table, right: Table, on: seq<string>)
    requires NoSuffixClash(left.columns + right.columns)
    requires |Matches(l, right.rows, on)| <= 1
    ensures |MergeGroup(l, left, right, on)| == 1
    ensures KeepsLeft(MergeGroup(l, left, right, on)[0], l, left, right, on)
  {
    GroupKeepsBoth(l, left, right, on);
  }

  /** When every left row matches at most one right row, the merge has one
      row per left row, in order, and each keeps that left row's cells (the
      keys among them). */
  lemma {:induction false} MergeUniqueKeepsLeft(lrows: seq<Record>, left: Table, right: Table, on: seq<string>)
    requires NoSuffixClash(left.columns + right.columns)
    requires forall l :: l in lrows ==> |Matches(l, right.rows, on)| <= 1
    ensures |MergeRows(lrows, left, right, on)| == |lrows|
    ensures forall i :: 0 <= i < |lrows| ==> KeepsLeft(MergeRows(lrows, left, right, on)[i], lrows[i], left, right, on)
    decreases |lrows|
  {
    if lrows != [] {
      var g := MergeGroup(lrows[0], left, right, on);
      var rest := MergeRows(lrows[1..], left, right, on);
      MergeUniqueKeepsLeft(lrows[1..], left, right, on);
      assert lrows[0] in lrows;
      UniqueGroupKeepsLeft(lrows[0], left, right, on);
      assert MergeRows(lrows, left, right, on) == g + rest;
      assert g == [g[0]];
      ConsKeepsLeft(g[0], rest, lrows, left, right, on);
    }
  }

  lemma ConsKeepsLeft(x: Record, rest: seq<Record>, lrows: seq<Record>, left: Table, right: Table, on: seq<string>)
    requires |lrows| == |rest| + 1 && KeepsLeft(x, lrows[0], left, right, on)
    requires forall i :: 0 <= i < |rest| ==> KeepsLeft(rest[i], lrows[1..][i], left, right, on)
    ensures forall i :: 0 <= i < |lrows| ==> KeepsLeft(([x] + rest)[i], lrows[i], left, right, on)
  {
    forall i | 0 <= i < |lrows|
      ensures KeepsLeft(([x] + rest)[i], lrows[i], left, right, on)
    {
      if i > 0 {
        assert ([x] + rest)[i] == rest[i - 1];
        assert lrows[i] == lrows[1..][i - 1];
      }
    }
  }

  // ---------------------------------------------------------------------
  // set_index(index); loc[:, columns.isin(keep)]; reset_index()

  function RestrictRow(row: Record, cols: set<string>): (r: Record)
    ensures r.Keys == row.Keys * cols
    ensures forall c :: c in r ==> r[c] == row[c]
  {
    map c | c in row && c in cols :: row[c]
  }

  function RestrictRows(rows: seq<Record>, cols: set<string>): (r: seq<Record>)
    ensures |r| == |rows| && forall i :: 0 <= i < |rows| ==> r[i] == RestrictRow(rows[i], cols)
  {
    if rows == [] then [] else [RestrictRow(rows[0], cols)] + RestrictRows(rows[1..], cols)
  }

  /** The index labels must be columns (`KeyError`); the result has the index
      columns first, then only those other columns that are in `keep`. */
  function RestrictColumns(t: Table, index: seq<string>, keep: seq<string>): (r: Result<Table>)
    ensures r.Ok? <==> forall c :: c in index ==> c in t.columns
    ensures r.Ok? ==> |index| <= |r.value.columns| && r.value.columns[..|index|] == index
    ensures r.Ok? ==> forall c :: c in r.value.columns <==> c in index || (c in t.columns && c in keep)
    ensures r.Ok? ==> r.value.rows == RestrictRows(t.rows, ColumnSet(r.value.columns))
  {
    match FirstMissing(t.columns, index)
    case Some(c) => Err(KeyError(c))
    case None =>
      var cols := index + Within(Without(t.columns, ColumnSet(index)), ColumnSet(keep));
      var s := ColumnSet(cols);
      Ok(Table(cols, RestrictRows(t.rows, s)))
  }

  lemma RestrictRowsAppend(a: seq<Record>, b: seq<Record>, cols: set<string>)
    ensures RestrictRows(a + b, cols) == RestrictRows(a, cols) + RestrictRows(b, cols)
  {
  }

  /** Restricting two permutations of the same rows gives two permutations. */
  lemma {:induction false} RestrictRowsPermutation(a: seq<Record>, b: seq<Record>, cols: set<string>)
    requires multiset(a) == multiset(b)
    ensures multiset(RestrictRows(a, cols)) == multiset(RestrictRows(b, cols))
    decreases |a|
  {
    if a == [] {
      assert |b| == |multiset(b)| == 0;
    } else {
      var x := a[0];
      assert x in multiset(b);
      var k :| 0 <= k < |b| && b[k] == x;
      var rest := b[..k] + b[k + 1..];
      RemoveAtMultiset(b, k);
      assert multiset(a[1..]) == multiset(rest) by {
        assert a == [x] + a[1..];
      }
      RestrictRowsPermutation(a[1..], rest, cols);
      RestrictPermutationStep(a, b, k, cols);
    }
  }

  /** One step of the permutation proof: matching the first row of `a` with
      row `k` of `b` and the rest of `a` with the rest of `b`. */
  lemma RestrictPermutationStep(a: seq<Record>, b: seq<Record>, k: nat, cols: set<string>)
    requires a != [] && k < |b| && b[k] == a[0]
    requires multiset(RestrictRows(a[1..], cols)) == multiset(RestrictRows(b[..k] + b[k + 1..], cols))
    ensures multiset(RestrictRows(a, cols)) == multiset(RestrictRows(b, cols))
  {
    RestrictRowsRemoveAt(b, k, cols);
    RestrictRowsCons(a, cols);
  }

  /** The first row's restriction and the rest's make up the whole. */
  lemma RestrictRowsCons(a: seq<Record>, cols: set<string>)
    requires a != []
    ensures multiset(RestrictRows(a, cols)) == multiset{RestrictRow(a[0], cols)} + multiset(RestrictRows(a[1..], cols))
  {
    assert RestrictRows(a, cols) == [RestrictRow(a[0], cols)] + RestrictRows(a[1..], cols);
  }

  /** Taking out the element at `k` takes one copy of it out of the multiset. */
  lemma RemoveAtMultiset(b: seq<Record>, k: nat)
    requires k < |b|
    ensures multiset(b[..k] + b[k + 1..]) == multiset(b) - multiset{b[k]}
  {
    assert b == b[..k] + [b[k]] + b[k + 1..];
  }

  /** Restricting, then taking out row `k`, is taking out its restriction. */
  lemma RestrictRowsRemoveAt(b: seq<Record>, k: nat, cols: set<string>)
    requires k < |b|
    ensures multiset(RestrictRows(b, cols))
      == multiset(RestrictRows(b[..k] + b[k + 1..], cols)) + multiset{RestrictRow(b[k], cols)}
  {
    assert b == b[..k] + [b[k]] + b[k + 1..];
    RestrictRowsAppend(b[..k], b[k + 1..], cols);
    RestrictRowsAppend(b[..k] + [b[k]], b[k + 1..], cols);
    RestrictRowsAppend(b[..k], [b[k]], cols);
  }

  /** Keeping the report period keeps a descending order on it. */
  lemma RestrictKeepsSorted(rows: seq<Record>, cols: set<string>)
    requires PeriodColumn in cols && SortedByPeriodDesc(rows)
    ensures SortedByPeriodDesc(RestrictRows(rows, cols))
  {
    var r := RestrictRows(rows, cols);
    assert forall i :: 0 <= i < |rows| ==> PeriodOf(r[i]) == PeriodOf(rows[i]);
  }

  /** Dividing no column changes nothing. */
  lemma DivideNothing(t: Table)
    ensures DivideColumns(t, []) == Ok(t)
  {
    var r := DivideColumns(t, []);
    assert ColumnSet([]) == {};
    assert forall i :: 0 <= i < |t.rows| ==> DivideRow(t.rows[i], {}) == t.rows[i];
    assert r.value.rows == t.rows;
  }

  // ---------------------------------------------------------------------
  // df.query("col.isnull()")

  /** The rows whose `col` cell is null: each as often as it occurs, in
      their order. */
  function NullRows(rows: seq<Record>, col: string): (r: seq<Record>)
    ensures |r| <= |rows|
    ensures forall x :: x in r <==> x in rows && Cell(x, col) == Null
    ensures forall x :: multiset(r)[x] == if Cell(x, col) == Null then multiset(rows)[x] else 0
    ensures IsSubsequence(r, rows)
  {
    if rows == [] then []
    else
      var rest := NullRows(rows[1..], col);
      assert rows == [rows[0]] + rows[1..];
      if Cell(rows[0], col) == Null then
        assert ([rows[0]] + rest)[1..] == rest;
        [rows[0]] + rest
      else rest
  }

  /** `df.query("col.isnull()")`: a label that is no column is an undefined
      name; otherwise the columns stay and only the rows with a null `col` do. */
  function QueryNull(t: Table, col: string): (r: Result<Table>)
    ensures r.Err? <==> col !in t.columns
    ensures r.Err? ==> r.error == UndefinedName(col)
    ensures r.Ok? ==> r.value.columns == t.columns && r.value.rows == NullRows(t.rows, col)
  {
    if col in t.columns then Ok(Table(t.columns, NullRows(t.rows, col))) else Err(UndefinedName(col))
  }

  // ---------------------------------------------------------------------
  // The frame object

  class Frame {
    var columns: seq<string>
    var rows: seq<Record>

    function View(): Table
      reads this
    {
      Table(columns, rows)
    }

    constructor (t: Table)
      ensures View() == t
    {
      columns, rows := t.columns, t.rows;
    }

    /** `df.drop(columns=cols, inplace=True)`. */
    method Drop(cols: seq<string>) returns (err: Option<Error>)
      modifies this
      ensures Outcome(DropColumns(old(View()), cols), err, old(View()), View())
    {
      var r := DropColumns(View(), cols);
      if r.Err? {
        return Some(r.error);
      }
      columns, rows := r.value.columns, r.value.rows;
      return None;
    }

    /** `df = df.iloc[-limit:]`. */
    method KeepLast(limit: int)
      modifies this
      ensures View() == TailRows(old(View()), limit)
    {
      rows := rows[SliceStart(|rows|, -limit)..];
    }

    /** `df[cols] /= 100`. */
    method Divide(cols: seq<string>) returns (err: Option<Error>)
      modifies this
      ensures Outcome(DivideColumns(old(View()), cols), err, old(View()), View())
    {
      var r := DivideColumns(View(), cols);
      if r.Err? {
        return Some(r.error);
      }
      rows := r.value.rows;
      return None;
    }

    /** `df[col] = df[col].dt.strftime("%Y-%m-%d")`: only its failure is
        modelled; the dates are kept as dates. */
    method FormatDates(col: string) returns (err: Option<Error>)
      ensures err == DateFormatError(View(), col)
    {
      err := DateFormatError(View(), col);
    }

    /** `df = df.query("col.isnull()")`. */
    method KeepNull(col: string) returns (err: Option<Error>)
      modifies this
      ensures Outcome(QueryNull(old(View()), col), err, old(View()), View())
    {
      var r := QueryNull(View(), col);
      if r.Err? {
        return Some(r.error);
      }
      rows := r.value.rows;
      return None;
    }

    /** `df.sort_values(by="报告期", ascending=False, inplace=True)`: pandas'
        default sort is not stable, so only the order and the permutation are
        promised. */
    method SortByPeriod()
      modifies this
      ensures columns == old(columns)
      ensures SortedByPeriodDesc(rows) && multiset(rows) == multiset(old(rows))
    {
      rows := SortByPeriodDesc(rows);
    }

    /** `df = df.merge(right, on=on, how="left")`. */
    method MergeLeft(right: Table, on: seq<string>) returns (err: Option<Error>)
      modifies this
      ensures Outcome(LeftMerge(old(View()), right, on), err, old(View()), View())
    {
      var r := LeftMerge(View(), right, on);
      if r.Err? {
        return Some(r.error);
      }
      columns, rows := r.value.columns, r.value.rows;
      return None;
    }

    /** `df.set_index(index)`, `df.loc[:, df.columns.isin(keep)]`, `df.reset_index()`. */
    method Restrict(index: seq<string>, keep: seq<string>) returns (err: Option<Error>)
      modifies this
      ensures Outcome(RestrictColumns(old(View()), index, keep), err, old(View()), View())
    {
      var r := RestrictColumns(View(), index, keep);
      if r.Err? {
        return Some(r.error);
      }
      columns, rows := r.value.columns, r.value.rows;
      return None;
    }
  }
}
