/** The government-trades fetcher: the endpoints each chamber reads, the
    URLs `aextract_data` requests (one per symbol and endpoint, or one per
    page and feed endpoint), and the clean-up every returned entry goes
    through. The HTTP responses are a parameter. */
module GovernmentTrades {
  import opened Wrappers
  import opened Strs
  import opened Values

  datatype Chamber = House | Senate | All

  /** The query parameters that shape the requests. */
  datatype Query = Query(symbol: Option<string>, chamber: Chamber, limit: int, page: int)

  /** One requested URL, by the endpoint and the query's `symbol` and `page`
      at the moment `create_url` reads them. */
  datatype Url = Url(endpoint: string, symbol: Option<string>, page: int)

  /** `chamber_url_dict`: the House reads the disclosure endpoint, the Senate
      the trading endpoint, and `all` both, in that order. */
  function Endpoints(chamber: Chamber): (r: seq<string>)
    ensures |r| == (if chamber == All then 2 else 1)
  {
    match chamber
    case House => ["senate-disclosure"]
    case Senate => ["senate-trading"]
    case All => ["senate-disclosure", "senate-trading"]
  }

  // ---------------------------------------------------------------------
  // Entry clean-up (`get_one`)

  const RemovedKeys: seq<string> := ["comment", "district", "capitalGainsOver200USD", "disclosureYear"]

  /** `keys_to_rename`, in dictionary order. */
  const RenamedKeys: seq<(string, string)> := [("dateRecieved", "date"), ("disclosureDate", "date")]

  /** `{k: v for k, v in entry.items() if k not in keys_to_remove}`. */
  function WithoutRemoved(entry: Record): (r: Record)
    ensures forall k :: k in r <==> k in entry && k !in RemovedKeys
    ensures forall k :: k in r ==> r[k] == entry[k]
  {
    map k | k in entry && k !in RemovedKeys :: entry[k]
  }

  /** `d[to] = d.pop(from)` when `from` is a key; otherwise nothing. */
  function Rename(d: Record, from: string, to: string): (r: Record)
    requires from != to
    ensures from !in r
    ensures from in d ==> to in r && r[to] == d[from]
    ensures forall k :: k != from && k != to && k in d ==> k in r && r[k] == d[k]
    ensures forall k :: k in r ==> k in d || (k == to && from in d)
    ensures from !in d ==> r == d
  {
    if from in d then (d - {from})[to := d[from]] else d
  }

  /** The renames applied in order: every key of the result is a key of `d`
      or the target of a rename, and a key no rename mentions keeps its
      value. */
  function RenameAll(d: Record, renames: seq<(string, string)>): (r: Record)
    requires forall i :: 0 <= i < |renames| ==> renames[i].0 != renames[i].1
    ensures forall k :: k in r ==> k in d || exists i :: 0 <= i < |renames| && renames[i].1 == k
    ensures forall k :: k in d && !Mentioned(k, renames) ==> k in r && r[k] == d[k]
    decreases |renames|
  {
    if renames == [] then d
    else
      var last := renames[|renames| - 1];
      Rename(RenameAll(d, renames[..|renames| - 1]), last.0, last.1)
  }

  /** Some rename moves `k` away or onto it. */
  predicate Mentioned(k: string, renames: seq<(string, string)>) {
    exists i :: 0 <= i < |renames| && (renames[i].0 == k || renames[i].1 == k)
  }

  /** What `get_one` makes of one entry: the four dropped keys are gone,
      neither date key survives, and `date` holds `disclosureDate` when the
      entry has it (the later rename overwrites the earlier one), otherwise
      `dateRecieved`; every other key keeps its value. */
  function Processed(entry: Record): (r: Record)
    ensures forall k :: k in RemovedKeys ==> k !in r
    ensures "dateRecieved" !in r && "disclosureDate" !in r
    ensures "disclosureDate" in entry ==> "date" in r && r["date"] == entry["disclosureDate"]
    ensures "disclosureDate" !in entry && "dateRecieved" in entry ==> "date" in r && r["date"] == entry["dateRecieved"]
    ensures "disclosureDate" !in entry && "dateRecieved" !in entry ==>
      ("date" in r <==> "date" in entry) && ("date" in entry ==> r["date"] == entry["date"])
    ensures forall k :: k in entry && k !in RemovedKeys && k != "dateRecieved" && k != "disclosureDate" && k != "date" ==>
      k in r && r[k] == entry[k]
    ensures forall k :: k in r ==> k in entry || k == "date"
  {
    var cleaned := WithoutRemoved(entry);
    var once := Rename(cleaned, "dateRecieved", "date");
    assert RenamedKeys[..1] == [("dateRecieved", "date")];
    assert RenameAll(cleaned, RenamedKeys[..1]) == once;
    RenameAll(cleaned, RenamedKeys)
  }

  /** The loop body over one entry: the comprehension, then the renames one
      after the other. */
  method ProcessEntry(entry: Record) returns (e: Record)
    ensures e == Processed(entry)
  {
    e := map k | k in entry && k !in RemovedKeys :: entry[k];
    var i := 0;
    while i < |RenamedKeys|
      invariant 0 <= i <= |RenamedKeys|
      invariant e == RenameAll(WithoutRemoved(entry), RenamedKeys[..i])
    {
      var (from, to) := RenamedKeys[i];
      if from in e {
        var v := e[from];
        e := e - {from};
        e := e[to := v];
      }
      assert RenamedKeys[..i + 1][..i] == RenamedKeys[..i];
      i := i + 1;
    }
    assert RenamedKeys[..i] == RenamedKeys;
  }

  /** `get_one` on one response: one processed entry per returned entry, in
      order. */
  method GetOne(response: seq<Record>) returns (processed: seq<Record>)
    ensures |processed| == |response|
    ensures forall i :: 0 <= i < |response| ==> processed[i] == Processed(response[i])
  {
    processed := [];
    var i := 0;
    while i < |response|
      invariant 0 <= i <= |response|
      invariant |processed| == i
      invariant forall j :: 0 <= j < i ==> processed[j] == Processed(response[j])
    {
      var e := ProcessEntry(response[i]);
      processed := processed + [e];
      i := i + 1;
    }
  }

  // ---------------------------------------------------------------------
  // URL enumeration

  /** `query.symbol.split(",")` when the symbol is truthy, else no symbols. */
  function Symbols(symbol: Option<string>): (r: seq<string>)
    ensures symbol.Some? && symbol.value != "" ==> |r| >= 1
    ensures symbol.None? || symbol.value == "" ==> r == []
  {
    if symbol.Some? && symbol.value != "" then Split(symbol.value, ',') else []
  }

  /** `math.ceil(limit / 100)`: the fewest pages of 100 that cover `limit`. */
  function Pages(limit: int): (p: int)
    ensures 100 * (p - 1) < limit <= 100 * p
  {
    -((-limit) / 100)
  }

  /** The URLs one target (a symbol and a page) yields, one per endpoint. */
  function Row(target: (Option<string>, int), endpoints: seq<string>): (r: seq<Url>)
    ensures |r| == |endpoints|
    ensures forall j :: 0 <= j < |endpoints| ==> r[j] == Url(endpoints[j], target.0, target.1)
  {
    seq(|endpoints|, j requires 0 <= j < |endpoints| => Url(endpoints[j], target.0, target.1))
  }

  /** Where row `i` of a grid with rows of `m` URLs starts: `i * m`, by
      repeated addition (see `OffsetIsProduct`). */
  function Offset(i: nat, m: nat): nat {
    if i == 0 then 0 else Offset(i - 1, m) + m
  }

  /** The position of column `j` of row `i`. */
  function CellIndex(i: nat, j: nat, m: nat): nat {
    Offset(i, m) + j
  }

  lemma {:induction false} OffsetIsProduct(i: nat, m: nat)
    ensures Offset(i, m) == i * m
  {
    if i > 0 {
      OffsetIsProduct(i - 1, m);
      assert i * m == (i - 1) * m + m;
    }
  }

  lemma {:induction false} OffsetMonotone(i: nat, n: nat, m: nat)
    requires i <= n
    ensures Offset(i, m) <= Offset(n, m)
    decreases n - i
  {
    if i < n {
      OffsetMonotone(i + 1, n, m);
    }
  }

  /** `r` lists, targets in the outer loop and endpoints in the inner one,
      one URL per target and endpoint. */
  predicate IsGrid(r: seq<Url>, targets: seq<(Option<string>, int)>, endpoints: seq<string>) {
    && |r| == Offset(|targets|, |endpoints|)
    && forall i, j :: 0 <= i < |targets| && 0 <= j < |endpoints| ==>
      CellIndex(i, j, |endpoints|) < |r| && r[CellIndex(i, j, |endpoints|)] == Url(endpoints[j], targets[i].0, targets[i].1)
  }

  /** One cell of a grid. */
  lemma {:induction false} GridCell(r: seq<Url>, targets: seq<(Option<string>, int)>, endpoints: seq<string>, i: nat, j: nat)
    requires IsGrid(r, targets, endpoints) && i < |targets| && j < |endpoints|
    ensures CellIndex(i, j, |endpoints|) < |r| && r[CellIndex(i, j, |endpoints|)] == Url(endpoints[j], targets[i].0, targets[i].1)
  {
  }

  function UrlGrid(targets: seq<(Option<string>, int)>, endpoints: seq<string>): (r: seq<Url>)
    ensures IsGrid(r, targets, endpoints)
    decreases |targets|
  {
    if targets == [] then []
    else
      var n := |targets| - 1;
      var init := UrlGrid(targets[..n], endpoints);
      GridAppendRow(init, targets, endpoints);
      init + Row(targets[n], endpoints)
  }

  /** Appending the last target's row to the grid of the others gives the
      grid of all of them. */
  lemma GridAppendRow(init: seq<Url>, targets: seq<(Option<string>, int)>, endpoints: seq<string>)
    requires targets != [] && IsGrid(init, targets[..|targets| - 1], endpoints)
    ensures IsGrid(init + Row(targets[|targets| - 1], endpoints), targets, endpoints)
  {
    var n := |targets| - 1;
    var row := Row(targets[n], endpoints);
    var m := |endpoints|;
    var r := init + row;
    forall i, j | 0 <= i < |targets| && 0 <= j < m
      ensures CellIndex(i, j, m) < |r| && r[CellIndex(i, j, m)] == Url(endpoints[j], targets[i].0, targets[i].1)
    {
      var k := CellIndex(i, j, m);
      if i < n {
        OffsetMonotone(i + 1, n, m);
        assert targets[..n][i] == targets[i];
        assert k < |init| && init[k] == Url(endpoints[j], targets[i].0, targets[i].1);
        assert r[k] == init[k];
      } else {
        assert k == |init| + j;
        assert r[k] == row[j];
      }
    }
  }

  function SymbolTargets(symbols: seq<string>, page: int): (r: seq<(Option<string>, int)>)
    ensures |r| == |symbols|
    ensures forall i :: 0 <= i < |symbols| ==> r[i] == (Some(symbols[i]), page)
  {
    seq(|symbols|, i requires 0 <= i < |symbols| => (Some(symbols[i]), page))
  }

  function PageTargets(symbol: Option<string>, pages: nat): (r: seq<(Option<string>, int)>)
    ensures |r| == pages
    ensures forall i :: 0 <= i < pages ==> r[i] == (symbol, i)
  {
    seq(pages, i requires 0 <= i < pages => (symbol, i))
  }

  function Feeds(endpoints: seq<string>): (r: seq<string>)
    ensures |r| == |endpoints|
    ensures forall j :: 0 <= j < |endpoints| ==> r[j] == endpoints[j] + "-rss-feed"
  {
    seq(|endpoints|, j requires 0 <= j < |endpoints| => endpoints[j] + "-rss-feed")
  }

  /** The URLs for given symbols: one per symbol and endpoint, symbols in
      the outer loop, all at the query's own page. */
  function SymbolUrls(symbols: seq<string>, endpoints: seq<string>, page: int): (r: seq<Url>)
    ensures |r| == |symbols| * |endpoints|
    ensures forall i, j :: 0 <= i < |symbols| && 0 <= j < |endpoints| ==>
      CellIndex(i, j, |endpoints|) < |r| && r[CellIndex(i, j, |endpoints|)] == Url(endpoints[j], Some(symbols[i]), page)
  {
    OffsetIsProduct(|symbols|, |endpoints|);
    var r := UrlGrid(SymbolTargets(symbols, page), endpoints);
    SymbolGrid(symbols, endpoints, page, r);
    r
  }

  lemma {:induction false} SymbolGrid(symbols: seq<string>, endpoints: seq<string>, page: int, r: seq<Url>)
    requires IsGrid(r, SymbolTargets(symbols, page), endpoints)
    ensures forall i, j :: 0 <= i < |symbols| && 0 <= j < |endpoints| ==>
      CellIndex(i, j, |endpoints|) < |r| && r[CellIndex(i, j, |endpoints|)] == Url(endpoints[j], Some(symbols[i]), page)
  {
    var targets := SymbolTargets(symbols, page);
    forall i, j | 0 <= i < |symbols| && 0 <= j < |endpoints|
      ensures CellIndex(i, j, |endpoints|) < |r| && r[CellIndex(i, j, |endpoints|)] == Url(endpoints[j], Some(symbols[i]), page)
    {
      GridCell(r, targets, endpoints, i, j);
    }
  }

  /** The URLs without symbols: one per page from 0 to `pages - 1` and feed
      endpoint, pages in the outer loop. */
  function PageUrls(symbol: Option<string>, pages: nat, endpoints: seq<string>): (r: seq<Url>)
    ensures |r| == pages * |endpoints|
    ensures forall i, j :: 0 <= i < pages && 0 <= j < |endpoints| ==>
      CellIndex(i, j, |endpoints|) < |r| && r[CellIndex(i, j, |endpoints|)] == Url(endpoints[j] + "-rss-feed", symbol, i)
  {
    OffsetIsProduct(pages, |endpoints|);
    var r := UrlGrid(PageTargets(symbol, pages), Feeds(endpoints));
    PageGrid(symbol, pages, endpoints, r);
    r
  }

  lemma {:induction false} PageGrid(symbol: Option<string>, pages: nat, endpoints: seq<string>, r: seq<Url>)
    requires IsGrid(r, PageTargets(symbol, pages), Feeds(endpoints))
    ensures forall i, j :: 0 <= i < pages && 0 <= j < |endpoints| ==>
      CellIndex(i, j, |endpoints|) < |r| && r[CellIndex(i, j, |endpoints|)] == Url(endpoints[j] + "-rss-feed", symbol, i)
  {
    var targets := PageTargets(symbol, pages);
    var feeds := Feeds(endpoints);
    forall i, j | 0 <= i < pages && 0 <= j < |endpoints|
      ensures CellIndex(i, j, |endpoints|) < |r| && r[CellIndex(i, j, |endpoints|)] == Url(endpoints[j] + "-rss-feed", symbol, i)
    {
      GridCell(r, targets, feeds, i, j);
    }
  }

  /** `range(math.ceil(limit / 100))`: no pages at all when the limit is not positive. */
  function PageCount(limit: int): (n: nat)
    ensures limit <= 0 ==> n == 0
    ensures limit > 0 ==> 100 * (n - 1) < limit <= 100 * n
  {
    if Pages(limit) < 0 then 0 else Pages(limit)
  }

  /** Every URL `aextract_data` requests, in order: by symbol when the query
      names symbols, by page otherwise. */
  function PlannedUrls(q: Query): (r: seq<Url>)
    ensures var symbols := Symbols(q.symbol); var endpoints := Endpoints(q.chamber);
      symbols != [] ==> (|r| == |symbols| * |endpoints|
        && forall i, j :: 0 <= i < |symbols| && 0 <= j < |endpoints| ==>
          CellIndex(i, j, |endpoints|) < |r| && r[CellIndex(i, j, |endpoints|)] == Url(endpoints[j], Some(symbols[i]), q.page))
    ensures var symbols := Symbols(q.symbol); var endpoints := Endpoints(q.chamber);
      symbols == [] ==> (|r| == PageCount(q.limit) * |endpoints|
        && forall i, j :: 0 <= i < PageCount(q.limit) && 0 <= j < |endpoints| ==>
          CellIndex(i, j, |endpoints|) < |r| && r[CellIndex(i, j, |endpoints|)] == Url(endpoints[j] + "-rss-feed", q.symbol, i))
  {
    var symbols := Symbols(q.symbol);
    if symbols != [] then SymbolUrls(symbols, Endpoints(q.chamber), q.page)
    else PageUrls(q.symbol, PageCount(q.limit), Endpoints(q.chamber))
  }

  lemma UrlGridAppend(targets: seq<(Option<string>, int)>, t: (Option<string>, int), endpoints: seq<string>)
    ensures UrlGrid(targets + [t], endpoints) == UrlGrid(targets, endpoints) + Row(t, endpoints)
  {
    assert (targets + [t])[..|targets|] == targets;
  }

  /** The two loops of `aextract_data` that collect `urls_list`; each
      iteration sets `query.symbol` or `query.page` before building its URLs. */
  method CollectUrls(q: Query) returns (urls: seq<Url>)
    ensures urls == PlannedUrls(q)
  {
    var symbols := Symbols(q.symbol);
    var endpoints := Endpoints(q.chamber);
    if symbols != [] {
      urls := SymbolLoop(symbols, endpoints, q.page);
    } else {
      urls := PageLoop(q.symbol, q.limit, endpoints);
    }
  }

  /** The loop over the symbols: one URL per endpoint for each symbol in
      turn, all at the query's page. */
  method SymbolLoop(symbols: seq<string>, endpoints: seq<string>, page: int) returns (urls: seq<Url>)
    ensures urls == SymbolUrls(symbols, endpoints, page)
  {
    urls := [];
    var i := 0;
    while i < |symbols|
      invariant 0 <= i <= |symbols|
      invariant urls == UrlGrid(SymbolTargets(symbols[..i], page), endpoints)
    {
      UrlGridAppend(SymbolTargets(symbols[..i], page), (Some(symbols[i]), page), endpoints);
      assert SymbolTargets(symbols[..i + 1], page) == SymbolTargets(symbols[..i], page) + [(Some(symbols[i]), page)];
      urls := urls + Row((Some(symbols[i]), page), endpoints);
      i := i + 1;
    }
    assert symbols[..i] == symbols;
  }

  /** The loop over the pages: one feed URL per endpoint for each page in
      turn, for as many pages as the limit needs. */
  method PageLoop(symbol: Option<string>, limit: int, endpoints: seq<string>) returns (urls: seq<Url>)
    ensures urls == PageUrls(symbol, PageCount(limit), endpoints)
  {
    urls := [];
    var pages := Pages(limit);
    var feeds := Feeds(endpoints);
    var page := 0;
    while page < pages
      invariant 0 <= page && (pages >= 0 ==> page <= pages) && (pages < 0 ==> page == 0)
      invariant urls == UrlGrid(PageTargets(symbol, page), feeds)
    {
      UrlGridAppend(PageTargets(symbol, page), (symbol, page), feeds);
      assert PageTargets(symbol, page + 1) == PageTargets(symbol, page) + [(symbol, page)];
      urls := urls + Row((symbol, page), feeds);
      page := page + 1;
    }
    assert page == PageCount(limit);
  }

  // ---------------------------------------------------------------------
  // Gathering the responses

  /** The processed entries of one response, in order. */
  function ProcessedAll(entries: seq<Record>): (r: seq<Record>)
    ensures |r| == |entries|
    ensures forall i :: 0 <= i < |entries| ==> r[i] == Processed(entries[i])
  {
    seq(|entries|, i requires 0 <= i < |entries| => Processed(entries[i]))
  }

  /** The processed entries of every response, in URL order. */
  function Gathered(urls: seq<Url>, fetch: Url -> seq<Record>): (r: seq<Record>)
    ensures r == [] <==> forall u :: u in urls ==> fetch(u) == []
  {
    if urls == [] then []
    else
      var n := |urls| - 1;
      var init := Gathered(urls[..n], fetch);
      assert urls == urls[..n] + [urls[n]];
      init + ProcessedAll(fetch(urls[n]))
  }

  lemma GatheredAppend(urls: seq<Url>, u: Url, fetch: Url -> seq<Record>)
    ensures Gathered(urls + [u], fetch) == Gathered(urls, fetch) + ProcessedAll(fetch(u))
  {
    assert (urls + [u])[..|urls|] == urls;
  }

  /** One more URL adds its processed entries at the end. */
  lemma GatheredStep(urls: seq<Url>, i: nat, fetch: Url -> seq<Record>)
    requires i < |urls|
    ensures Gathered(urls[..i + 1], fetch) == Gathered(urls[..i], fetch) + ProcessedAll(fetch(urls[i]))
  {
    GatheredAppend(urls[..i], urls[i], fetch);
    assert urls[..i + 1] == urls[..i] + [urls[i]];
  }

  /** The `asyncio.gather` over the URLs: every response fetched and its
      entries processed, in URL order. */
  method FetchAll(urls: seq<Url>, fetch: Url -> seq<Record>) returns (results: seq<Record>)
    ensures results == Gathered(urls, fetch)
  {
    results := [];
    var i := 0;
    while i < |urls|
      invariant 0 <= i <= |urls|
      invariant results == Gathered(urls[..i], fetch)
    {
      var processed := GetOne(fetch(urls[i]));
      GatheredStep(urls, i, fetch);
      results := results + processed;
      i := i + 1;
    }
    assert urls[..i] == urls;
  }

  /** `aextract_data`: every planned URL is fetched and its entries
      processed; nothing at all coming back raises `EmptyDataError`. */
  method ExtractData(q: Query, fetch: Url -> seq<Record>) returns (r: Result<seq<Record>>)
    ensures r.Err? <==> forall u :: u in PlannedUrls(q) ==> fetch(u) == []
    ensures r.Err? ==> r.error == EmptyData
    ensures r.Ok? ==> r.value == Gathered(PlannedUrls(q), fetch)
  {
    var urls := CollectUrls(q);
    var results := FetchAll(urls, fetch);
    if results == [] {
      return Err(EmptyData);
    }
    r := Ok(results);
  }
}
