# XiaoYuan and FMP fetchers, modelled in Dafny

This project models the data-shaping core of two OpenBB provider extensions:

- **XiaoYuan**. These fetchers talk to a proprietary time-series store.
  - Stock codes are converted between the public suffix form (`600519.SS`) and the store's prefix form (`SH600519`).
  - Query scripts are assembled from fixed text plus a few arguments.
  - The frames that come back go through the row pipelines of the financial-statement fetchers: dropping columns, keeping the last `limit` rows, dividing percentages by 100, sorting by report period newest first, a left merge, and a column selection.
  - The "before" validators (`replace_zero`, `replace_empty_strings`, `validate_date`) clean row dictionaries.
  - Each fetcher's `transform_query` and `transform_data` is modelled. For ETF search and cash-flow growth, `transform_data` is the symbol revert `References.RevertStockCodeFormat`, since their data models carry no before-validator.
- **FMP government trades**.
  - Each chamber maps to its endpoints.
  - The URL list is enumerated by symbol, or by page when no symbol is given.
  - Each returned entry has some keys removed and others renamed.
  - An empty overall result is an error.

The model's structure:

- **Values.** A database value is the datatype `Value`: `Null`, a real number, a string or a date. A row is a `map<string, Value>`.
- **Frames.** A frame is a `Table` of column labels and rows. The pandas operations that change a frame in place are methods of the class `Frames.Frame`. Each is specified by a function on the frame's contents.
- **Lists of records.** Lists the source mutates record by record are arrays.
- **Validators.** The price-performance validator rewrites its dictionary in place. It is the class `PricePerformance.Row`.
- **Errors.** Python exceptions are values of `Wrappers.Error` inside a `Result`.

The modules:

| module | what it holds |
|---|---|
| `Wrappers` | the error datatype |
| `Strs` | Python string operations |
| `Dates` | ISO dates |
| `Lists` | first occurrence and de-duplication |
| `Values` | values and records |
| `References` | `references.py` |
| `Validators` | the shared validators and `transform_query` |
| `Frames` | the pandas operations |
| `Statements` | what the statement fetchers share |
| one module per fetcher file | that fetcher |

## Model

| member | source | states |
|---|---|---|
| References.StrippedNonBlank | xiaoyuan/openbb_xiaoyuan/utils/references.py:149 | No more items than went in, and none of them empty. Whitespace is what Python's `str.isspace` accepts, Unicode spaces such as U+3000 included. |
| References.ConvertAll | xiaoyuan/openbb_xiaoyuan/utils/references.py:151 | Succeeds iff every item converts. The result has one code per item, each the item's own conversion. |
| References.StrippedNonBlankAppend | xiaoyuan/openbb_xiaoyuan/utils/references.py:149 | The blank filter works item by item: filtering a concatenation is concatenating the filtered parts. |
| References.StrippedNonBlankNoneBlank | xiaoyuan/openbb_xiaoyuan/utils/references.py:149 | With no blank item, the filter yields one stripped item per input item, in order. |
| References.StrippedNonBlankAllBlank | xiaoyuan/openbb_xiaoyuan/utils/references.py:149 | With only blank items, nothing is left. |
| References.StrippedNonBlankMember | xiaoyuan/openbb_xiaoyuan/utils/references.py:149 | The kept items are exactly the strips of the non-blank input items. |
| References.ConvertItem | xiaoyuan/openbb_xiaoyuan/utils/references.py:150-151 | One item converts iff it holds a dot; without one, `split(".")[1]` raises `IndexError`. |
| References.ConvertItemNoNewChars | xiaoyuan/openbb_xiaoyuan/utils/references.py:150-151 | A converted code holds no character the item lacked, apart from the dot and the exchange letters. |
| References.SuffixRewrites | xiaoyuan/openbb_xiaoyuan/utils/references.py:150 | `.SS` becomes `.SH`; the `.SZ` rewrite leaves the text as it was. |
| References.ConvertWithSuffix | xiaoyuan/openbb_xiaoyuan/utils/references.py:150-151 | A code followed by a rewritten suffix comes out with the suffix first and the code after it. |
| References.ConvertSuffixed | xiaoyuan/openbb_xiaoyuan/utils/references.py:150-151 | `c.SS` becomes `SHc` and `c.SZ` becomes `SZc`, with the code kept verbatim. |
| References.ConvertSingle | xiaoyuan/openbb_xiaoyuan/utils/references.py:146-153 | A single clean item converts as that item alone, failing when it fails. |
| References.ConvertPair | xiaoyuan/openbb_xiaoyuan/utils/references.py:146-153 | Two clean items separated by a comma convert to their two codes joined by a comma. |
| References.ConvertTwoSuffixed | xiaoyuan/openbb_xiaoyuan/utils/references.py:146-153 | For any digit codes, `c.SS,d.SZ` converts to `SHc,SZd`. |
| References.ConvertBlank | xiaoyuan/openbb_xiaoyuan/utils/references.py:146-153 | An empty or whitespace-only input converts to the empty string. |
| References.ConvertStockCodeFormat | xiaoyuan/openbb_xiaoyuan/utils/references.py:146-153 | Conversion fails iff some non-blank comma item has no dot (both directions), and the error is `IndexError`. |
| References.ConvertFailsWitness | xiaoyuan/openbb_xiaoyuan/utils/references.py:149-151 | A failing conversion names a non-blank, dotless input item. |
| References.ConvertFailsAt | xiaoyuan/openbb_xiaoyuan/utils/references.py:149-151 | A non-blank, dotless input item makes the conversion fail. |
| References.ConvertOnePerItem | xiaoyuan/openbb_xiaoyuan/utils/references.py:148-152 | A successful conversion has one code per non-blank item, in input order. Splitting it on commas gives back exactly the converted items; no items gives `""`. |
| References.RevertSymbol | xiaoyuan/openbb_xiaoyuan/utils/references.py:158-161 | "SH" is tested first and gives a `.SS` suffix; otherwise "SZ" gives `.SZ`. A symbol holding neither is unchanged. |
| References.RevertRecord | xiaoyuan/openbb_xiaoyuan/utils/references.py:157-161 | Succeeds iff the record has a string `symbol`. Only `symbol` changes, to its reverted form; the keys stay. |
| References.FirstUnrevertable | xiaoyuan/openbb_xiaoyuan/utils/references.py:157 | Gives the first record the loop raises on: every earlier record reverts and this one does not. |
| References.RevertStockCodeFormat | xiaoyuan/openbb_xiaoyuan/utils/references.py:156-162 | Rewrites the array in place. With no error, every record is reverted. On an error, the records before the failing one are reverted, the rest untouched, and that record's exception is returned. |
| References.FirstUnrevertableAt | xiaoyuan/openbb_xiaoyuan/utils/references.py:157-161 | Characterises the first failing position: a position with everything before it reverting and itself failing is that position. |
| References.RevertPrefixed | xiaoyuan/openbb_xiaoyuan/utils/references.py:158-161 | `SHc` reverts to `c.SS` and `SZc` to `c.SZ` for a code with no `S`. |
| References.RevertConverted | xiaoyuan/openbb_xiaoyuan/utils/references.py:146-162 | Round trip: for a digit code, converting `c.SS` or `c.SZ` and reverting gives it back. |
| References.RevertFundCode | xiaoyuan/openbb_xiaoyuan/utils/references.py:158-161 | The fund code `OF000001` holds neither exchange prefix and is left alone. |
| References.GetReportMonth | xiaoyuan/openbb_xiaoyuan/utils/references.py:92-108 | Raises `ValueError` iff the period is neither `ytd` nor `annual`. `annual` starts with the December filter; `ytd` starts with no month filter. Both clauses end by limiting the rows to `limit`. |
| References.LastWord | xiaoyuan/openbb_xiaoyuan/utils/references.py:103 | The trailing word of a clause holds no space. |
| References.LastWordAfterSpace | xiaoyuan/openbb_xiaoyuan/utils/references.py:103 | The word after the last space is read back exactly. |
| References.ClauseLimitOf | xiaoyuan/openbb_xiaoyuan/utils/references.py:102-107 | A clause ending in a space, the rendered limit and `;` or ` ;` reads back that limit. |
| References.IndexConstituentsSql | xiaoyuan/openbb_xiaoyuan/utils/references.py:26-32 | Raises iff the symbol contains a comma. |
| References.IndexConstituentsOfPrefixed | xiaoyuan/openbb_xiaoyuan/utils/references.py:29-32 | The code filtered on is the symbol with its two-letter prefix cut off. |
| References.LastSix | xiaoyuan/openbb_xiaoyuan/utils/references.py:142 | `code[-6:]`: the last six characters, or all of a shorter code. |
| References.DividendSql | xiaoyuan/openbb_xiaoyuan/utils/references.py:126-143 | Always starts with the fixed query. A code filter is appended iff `code` is truthy. |
| References.DividendCodeFilter | xiaoyuan/openbb_xiaoyuan/utils/references.py:141-142 | Any prefix in front of a six-character code is cut off by the filter. |
| References.CnzvtSelectListItems | xiaoyuan/openbb_xiaoyuan/utils/references.py:51 | The select list has one `key as value` item per factor entry, in dictionary order. |
| Validators.ReplaceZero | xiaoyuan/openbb_xiaoyuan/models/income_statement_growth.py:150-156 | A dict keeps its keys, and a value becomes `None` iff it was `None` or equal to 0; other values are kept. A non-dict passes through. |
| Validators.ReplaceZeroIdempotent | xiaoyuan/openbb_xiaoyuan/models/balance_sheet_growth.py:232-238 | Running the validator twice changes nothing more. |
| Validators.ReplaceEmptyStrings | xiaoyuan/openbb_xiaoyuan/models/etf_info.py:87-95 | A dict keeps its keys, and a value becomes `None` iff it was `None`, `""` or `"NA"`; other values are kept. A non-dict passes through. |
| Validators.ReplaceEmptyStringsIdempotent | xiaoyuan/openbb_xiaoyuan/models/equity_profile.py:76-84 | Running the validator twice changes nothing more. |
| Validators.ValidateDate | xiaoyuan/openbb_xiaoyuan/models/equity_profile.py:68-74 | A date or `None` comes back as is, and a falsy value becomes `None`. A non-empty string succeeds iff it is an ISO date, and gives that date. A non-zero number raises `TypeError`. |
| Validators.ValidateFormattedDate | xiaoyuan/openbb_xiaoyuan/models/equity_profile.py:72-74 | A date validated from its own ISO text comes back unchanged. |
| Validators.TransformSymbolParam | xiaoyuan/openbb_xiaoyuan/models/equity_profile.py:96-99 | A missing symbol becomes `""`. A present one succeeds iff it is a string that converts. Then `symbol` holds the converted form and no other parameter changes. |
| Validators.TransformSearchQuery | xiaoyuan/openbb_xiaoyuan/models/index_search.py:56-58 | A falsy or missing `query` leaves the parameters unchanged. A truthy one succeeds iff it converts, and is then replaced by its prefix form. |
| Dates.FormatThenParse | xiaoyuan/openbb_xiaoyuan/models/equity_profile.py:74 | `fromisoformat` reads back every date written in ISO form. |
| Dates.ParseThenFormat | xiaoyuan/openbb_xiaoyuan/models/equity_profile.py:74 | Every text `fromisoformat` accepts is the ISO form of the date it reads. |
| Values.NullMissing | xiaoyuan/openbb_xiaoyuan/models/index_search.py:96-99 | The record gains the key, and its value is null iff it was missing or null. Nothing else changes. |
| Frames.DropColumns | xiaoyuan/openbb_xiaoyuan/models/balance_sheet_growth.py:307 | Raises `KeyError` naming a missing label iff some label is not a column. Otherwise exactly those columns and cells go, and every row keeps the rest. |
| Frames.SliceStart | xiaoyuan/openbb_xiaoyuan/models/balance_sheet_growth.py:308 | Where Python's `s[k:]` starts, for positive and negative `k`. |
| Frames.TailRows | xiaoyuan/openbb_xiaoyuan/models/balance_sheet_growth.py:308 | Gives a suffix of the rows: `min(limit, rows)` of them for `limit >= 1`, and all of them for `limit == 0`. The columns are unchanged. |
| Frames.DivideCell | xiaoyuan/openbb_xiaoyuan/models/balance_sheet_growth.py:311 | A number is divided by 100 and a null stays null; anything else fails. |
| Frames.DivideColumns | xiaoyuan/openbb_xiaoyuan/models/balance_sheet_growth.py:311 | Succeeds iff every label is a column and every cell under them is numeric or null. A missing label raises `KeyError`, anything else `TypeError`. Otherwise exactly those cells are divided. |
| Frames.DateFormatError | xiaoyuan/openbb_xiaoyuan/models/balance_sheet_growth.py:309 | No error iff the column exists and holds only dates and nulls. A missing column raises `KeyError`, and any other value `AttributeError`. |
| Frames.InsertByPeriod | xiaoyuan/openbb_xiaoyuan/models/balance_sheet_growth.py:312 | Inserting into a sorted list keeps it sorted and adds exactly that row. |
| Frames.SortByPeriodDesc | xiaoyuan/openbb_xiaoyuan/models/balance_sheet_growth.py:312 | The rows come back ordered newest period first, missing periods last, and as a permutation of the input. |
| Frames.Matches | xiaoyuan/openbb_xiaoyuan/models/cash_flow_growth.py:193 | The right rows matching a left row on the keys: each with its multiplicity in the right frame, in the right frame's order (a subsequence). |
| Frames.MergeGroup | xiaoyuan/openbb_xiaoyuan/models/cash_flow_growth.py:193 | One output row per matching right row, or exactly one when nothing matches. |
| Frames.LeftMerge | xiaoyuan/openbb_xiaoyuan/models/cash_flow_growth.py:193 | Succeeds iff every key is a column on both sides. No left row is lost, every output row is some left row's group, and every label is a left column or a non-key right column, suffixed as pandas does. |
| Frames.MergeRows | xiaoyuan/openbb_xiaoyuan/models/cash_flow_growth.py:193 | The merged rows are exactly the groups of the left rows, at least one row per left row, every label a suffixed or plain column of one side. |
| Frames.GroupLabels | xiaoyuan/openbb_xiaoyuan/models/cash_flow_growth.py:193 | Every label of a merged row is a left column or a non-key right column, under its pandas name. |
| Frames.MergedLabelOrigin | xiaoyuan/openbb_xiaoyuan/models/cash_flow_growth.py:193 | A merged label not ending in `x` or `y` was not suffixed: it is a column of one of the two frames. |
| Frames.GroupKeepsBoth | xiaoyuan/openbb_xiaoyuan/models/cash_flow_growth.py:193 | Output row `i` of a left row's group keeps the left row's cells and the cells of matching right row `i` (none when nothing matches), under the labels pandas gives them. |
| Frames.MergeUniqueKeepsLeft | xiaoyuan/openbb_xiaoyuan/models/cash_flow_growth.py:193 | When keys match at most once, the merge has one row per left row, in order, each keeping that row's cells. |
| Frames.RestrictColumns | xiaoyuan/openbb_xiaoyuan/models/cash_flow_growth.py:222-231 | Succeeds iff the index labels are columns. The result is the index labels first, then only the kept columns the frame has; every row is cut to them. |
| Frames.RestrictRowsPermutation | xiaoyuan/openbb_xiaoyuan/models/cash_flow_growth.py:221-231 | Cutting two permutations of the same rows gives two permutations. |
| Frames.RestrictKeepsSorted | xiaoyuan/openbb_xiaoyuan/models/cash_flow_growth.py:221-231 | Keeping the report period keeps the descending order on it. |
| Frames.TailDivided | xiaoyuan/openbb_xiaoyuan/models/balance_sheet_growth.py:308-311 | Dividing the last `limit` rows gives, at each position, the matching row from the end of the frame, divided. |
| Frames.DivideNothing | xiaoyuan/openbb_xiaoyuan/models/cash_flow_growth.py:160-161 | Dividing no columns changes nothing. |
| Frames.NullRows | xiaoyuan/openbb_xiaoyuan/models/etf_search.py:109 | Exactly the rows whose cell is null, each with its multiplicity in the input, in input order (a subsequence). |
| Frames.QueryNull | xiaoyuan/openbb_xiaoyuan/models/etf_search.py:109 | A label that is not a column is an undefined name. Otherwise the columns stay and only the null rows are kept. |
| Frames.Frame.Drop | xiaoyuan/openbb_xiaoyuan/models/balance_sheet_growth.py:307 | In place: the new contents are `DropColumns` of the old. On an error the frame is unchanged. |
| Frames.Frame.KeepLast | xiaoyuan/openbb_xiaoyuan/models/balance_sheet_growth.py:308 | In place: the new contents are `TailRows` of the old. |
| Frames.Frame.Divide | xiaoyuan/openbb_xiaoyuan/models/balance_sheet_growth.py:311 | In place: the new contents are `DivideColumns` of the old. On an error the frame is unchanged. |
| Frames.Frame.FormatDates | xiaoyuan/openbb_xiaoyuan/models/balance_sheet_growth.py:309 | Reports the exception the `.dt` accessor raises. |
| Frames.Frame.KeepNull | xiaoyuan/openbb_xiaoyuan/models/etf_search.py:109 | In place: the new contents are `QueryNull` of the old. On an error the frame is unchanged. |
| Frames.Frame.SortByPeriod | xiaoyuan/openbb_xiaoyuan/models/balance_sheet_growth.py:312 | In place: the rows become sorted newest first, as a permutation of the old rows, with the same columns. |
| Frames.Frame.MergeLeft | xiaoyuan/openbb_xiaoyuan/models/cash_flow_growth.py:193 | In place: the new contents are `LeftMerge` of the old and the right frame. |
| Frames.Frame.Restrict | xiaoyuan/openbb_xiaoyuan/models/cash_flow_growth.py:222-231 | In place: the new contents are `RestrictColumns` of the old. |
| Statements.DictUnion | xiaoyuan/openbb_xiaoyuan/models/cash_flow_growth.py:198 | Python's union of two dictionaries: `a`'s keys in order, each with `b`'s value where `b` has the key. The key set is the union. |
| Statements.DisjointUnion | xiaoyuan/openbb_xiaoyuan/models/cash_flow_growth.py:198 | The union of dictionaries with no key in common is concatenation. |
| Statements.RevertAndValidate | xiaoyuan/openbb_xiaoyuan/models/income_statement_growth.py:256-261 | The `transform_data` of the income statement, cash flow, balance-sheet growth and income-statement growth fetchers. The first `k` records are reverted in place and the rest untouched, `k` being all of them unless a record cannot be reverted; then each record has `replace_zero` applied. The first unrevertable record's exception is raised. |
| IncomeStatementGrowth.InvertAliases | xiaoyuan/openbb_xiaoyuan/models/income_statement_growth.py:69-73 | Exactly the listed source names are keys of the inverted dictionary. |
| IncomeStatementGrowth.InvertAliasesAt | xiaoyuan/openbb_xiaoyuan/models/income_statement_growth.py:69-73 | A source name maps to the last field that lists it. |
| IncomeStatementGrowth.RevenueAliases | xiaoyuan/openbb_xiaoyuan/models/income_statement_growth.py:50-73 | Both the growth-rate column and the raw revenue column map to `growth_revenue`. |
| IncomeStatementGrowth.Plan | xiaoyuan/openbb_xiaoyuan/models/income_statement_growth.py:209-239 | The quarterly table iff the period is `quarter`, for the one symbol, with the quarterly factors. Otherwise a finance query for `DDB_DATA` whose month clause is `get_report_month` of the period. All look back `limit + 1` periods. |
| IncomeStatementGrowth.ColumnsToDivide | xiaoyuan/openbb_xiaoyuan/models/income_statement_growth.py:244-250 | Exactly the listed factors the frame has, each once. |
| IncomeStatementGrowth.Prepared | xiaoyuan/openbb_xiaoyuan/models/income_statement_growth.py:243-251 | The columns are unchanged. The rows are the last `limit` rows (all for `limit == 0`), in order, each with exactly the listed factor columns divided by 100. Only the division or the date format can raise. |
| IncomeStatementGrowth.ExtractData | xiaoyuan/openbb_xiaoyuan/models/income_statement_growth.py:176-253 | Nothing back or an empty frame raises pandas' `EmptyDataError`, not openbb's. Otherwise it succeeds iff preparation does, and returns a permutation of the prepared rows, newest first, at most `limit` of them. |
| BalanceSheetGrowth.Plan | xiaoyuan/openbb_xiaoyuan/models/balance_sheet_growth.py:268-300 | One finance query for the growth rates plus the raw factors, for the one symbol, whose month clause is `get_report_month` of the period, looking back `limit + 1` periods. |
| BalanceSheetGrowth.Prepared | xiaoyuan/openbb_xiaoyuan/models/balance_sheet_growth.py:307-311 | The raw-factor columns are dropped; a missing one raises `KeyError`. The rows are the last `limit` rows of what is left, in order, with the growth columns divided by 100. |
| BalanceSheetGrowth.ExtractData | xiaoyuan/openbb_xiaoyuan/models/balance_sheet_growth.py:258-314 | Nothing back or an empty frame raises `EmptyDataError`. Otherwise it returns a sorted permutation of the prepared rows: at most `limit`, none holding a raw factor. |
| BalanceSheetGrowth.ExtractedLacksRawFactors | xiaoyuan/openbb_xiaoyuan/models/balance_sheet_growth.py:307-312 | Whatever order the sort picks, no returned row holds a raw factor. |
| CashFlowGrowth.KeptColumns | xiaoyuan/openbb_xiaoyuan/models/cash_flow_growth.py:225-229 | Exactly the growth rate and the keys of both factor dictionaries. |
| CashFlowGrowth.RawFactors | xiaoyuan/openbb_xiaoyuan/models/cash_flow_growth.py:176-206 | Exactly the values of the two factor dictionaries. |
| CashFlowGrowth.RawUnion | xiaoyuan/openbb_xiaoyuan/models/cash_flow_growth.py:198-206 | The values of the dictionary union are the quarterly raw factors, then the annual ones. |
| CashFlowGrowth.RawNotSelected | xiaoyuan/openbb_xiaoyuan/models/cash_flow_growth.py:222-231 | No raw factor is an index or a kept column, so the selection never keeps one. |
| CashFlowGrowth.RawEnds | xiaoyuan/openbb_xiaoyuan/models/cash_flow_growth.py:193 | No raw factor ends like a label pandas suffixed with `_x` or `_y`. |
| CashFlowGrowth.QuarterNotAnnual | xiaoyuan/openbb_xiaoyuan/models/cash_flow_growth.py:176-192 | No quarterly raw factor is an annual one. |
| CashFlowGrowth.Plan | xiaoyuan/openbb_xiaoyuan/models/cash_flow_growth.py:160-205 | Two queries for `quarter`: the quarterly table with the quarterly factors, then a finance query for the annual raw factors with the `annual` month clause. Otherwise one finance query for `DDB_DATA` and all raw factors with the period's month clause. All look back `limit + 1` periods. |
| CashFlowGrowth.Combined | xiaoyuan/openbb_xiaoyuan/models/cash_flow_growth.py:160-215 | A missing first answer raises `AttributeError`. The `quarter` branch divides nothing, loses no quarterly row, and leaves a raw factor label only where the other frame has that column. The other branch divides `DDB_DATA` and leaves the answer with every raw factor column dropped, row by row. |
| CashFlowGrowth.Prepared | xiaoyuan/openbb_xiaoyuan/models/cash_flow_growth.py:218-220 | The columns are unchanged. The rows are the last `limit` rows, in order, each with the given columns divided by 100. |
| CashFlowGrowth.QuarterUndivided | xiaoyuan/openbb_xiaoyuan/models/cash_flow_growth.py:160-161 | In the `quarter` branch the prepared rows are the last `limit` rows as they came. |
| CashFlowGrowth.Selected | xiaoyuan/openbb_xiaoyuan/models/cash_flow_growth.py:222-231 | Succeeds iff the index columns are present. Row `i` is row `i` cut to the index and kept columns; no row is lost. |
| CashFlowGrowth.Selection | xiaoyuan/openbb_xiaoyuan/models/cash_flow_growth.py:222-231 | The labels kept: the index labels and the kept columns the frame has. |
| CashFlowGrowth.Finished | xiaoyuan/openbb_xiaoyuan/models/cash_flow_growth.py:218-231 | The rows are the last `limit` rows, in order, each divided and cut to the index and kept columns. |
| CashFlowGrowth.Expected | xiaoyuan/openbb_xiaoyuan/models/cash_flow_growth.py:160-232 | A branch error is raised as is, and an empty frame raises `EmptyDataError`. Otherwise the rows are the last `limit` rows of the branch's frame, divided and cut to the index and kept columns. |
| CashFlowGrowth.Merged | xiaoyuan/openbb_xiaoyuan/models/cash_flow_growth.py:161-215 | On the frames the store answered. The other branch succeeds iff every raw factor is a column, and then drops exactly those columns from every row and divides `DDB_DATA`. The `quarter` branch divides nothing, keeps every quarterly row, and leaves a raw factor label only where the other frame has that column. |
| CashFlowGrowth.QuarterMerge | xiaoyuan/openbb_xiaoyuan/models/cash_flow_growth.py:161-193 | A missing quarterly answer raises `AttributeError`. No quarterly row is lost, and a raw factor label survives only where the other answer has that column. |
| CashFlowGrowth.MergedRawFactors | xiaoyuan/openbb_xiaoyuan/models/cash_flow_growth.py:176-193 | After both drops and the merge, a quarterly raw factor label can only come from the annual frame, and an annual one only from the quarterly frame. |
| CashFlowGrowth.QuarterRowsKept | xiaoyuan/openbb_xiaoyuan/models/cash_flow_growth.py:176-193 | When every quarterly row matches at most one annual row, the merge has one row per quarterly row, in order, each keeping that row's cells. |
| CashFlowGrowth.DropAnswer | xiaoyuan/openbb_xiaoyuan/models/cash_flow_growth.py:176 | A missing frame raises `AttributeError`. Otherwise the drop succeeds iff every listed column exists; then exactly those columns go and every row keeps its other cells. |
| CashFlowGrowth.DropInPlace | xiaoyuan/openbb_xiaoyuan/models/cash_flow_growth.py:176 | The in-place drop on a frame computes exactly `DropAnswer`, error included. |
| CashFlowGrowth.FetchPlanned | xiaoyuan/openbb_xiaoyuan/models/cash_flow_growth.py:161-215 | The in-place drops and merge compute exactly `Merged`, error included. |
| CashFlowGrowth.Fetch | xiaoyuan/openbb_xiaoyuan/models/cash_flow_growth.py:160-215 | The in-place branch steps compute exactly `Combined`. |
| CashFlowGrowth.Prepare | xiaoyuan/openbb_xiaoyuan/models/cash_flow_growth.py:218-220 | The in-place frame steps compute exactly `Prepared`, error included. |
| CashFlowGrowth.SortAndSelect | xiaoyuan/openbb_xiaoyuan/models/cash_flow_growth.py:221-231 | Succeeds iff the index columns are present. Returns a permutation of the selected rows, newest first. |
| CashFlowGrowth.Finish | xiaoyuan/openbb_xiaoyuan/models/cash_flow_growth.py:218-232 | Succeeds iff `Finished` does, with the same error. Returns a permutation of its rows, newest first. |
| CashFlowGrowth.ExtractData | xiaoyuan/openbb_xiaoyuan/models/cash_flow_growth.py:132-232 | Succeeds iff `Expected` does, with the same error. Returns a permutation of its rows, newest first, at most `limit`, every cell under an index or kept column, and no raw factor. |
| CashFlowGrowth.PermutedSelection | xiaoyuan/openbb_xiaoyuan/models/cash_flow_growth.py:221-231 | Reordering selected rows keeps them selected, so no raw factor comes back. |
| Statements.StatementPlan | xiaoyuan/openbb_xiaoyuan/models/income_statement.py:171-181 | The quarterly table iff the period is `quarter`, for the one symbol. Otherwise a finance query whose month clause is `get_report_month` of the period. Both look back exactly `limit` periods. Income statement and cash flow (`cash_flow.py:126-136`) differ only in the table and factors. |
| IncomeStatement.FormatError | xiaoyuan/openbb_xiaoyuan/models/income_statement.py:184-185 | No error iff both date columns exist and hold only dates and nulls. A missing period column raises `KeyError`. |
| IncomeStatement.ExtractData | xiaoyuan/openbb_xiaoyuan/models/income_statement.py:133-188 | Nothing back or an empty frame raises `EmptyDataError`. Otherwise it succeeds iff the dates format, and returns a permutation of the rows, newest first. |
| CashFlow.ExtractData | xiaoyuan/openbb_xiaoyuan/models/cash_flow.py:102-141 | Nothing back or an empty frame raises `EmptyDataError`. Otherwise it succeeds iff the period column exists and holds dates, and returns a permutation of the rows, newest first. |
| EtfInfo.SymbolList | xiaoyuan/openbb_xiaoyuan/models/etf_info.py:128 | At least one piece, and none holds a comma. |
| EtfInfo.SymbolListPerItem | xiaoyuan/openbb_xiaoyuan/models/etf_info.py:128 | The list has one converted code per requested item, in order; a blank request leaves `[""]`. |
| EtfInfo.IndexSuffix | xiaoyuan/openbb_xiaoyuan/models/etf_info.py:201-207 | "SH" is tested first and gives `.SS`, then "SZ" gives `.SZ`, then "OF" gives `.OF`. A symbol holding none is unchanged. |
| EtfInfo.IndexSuffixAgreesWithRevert | xiaoyuan/openbb_xiaoyuan/models/etf_info.py:201-205 | On the exchange prefixes the rewrite is the one applied to `symbol`. |
| EtfInfo.IndexSuffixPrefixed | xiaoyuan/openbb_xiaoyuan/models/etf_info.py:201-207 | `SHc`, `SZc` and `OFc` become `c.SS`, `c.SZ` and `c.OF`. |
| EtfInfo.SuffixRecord | xiaoyuan/openbb_xiaoyuan/models/etf_info.py:201-207 | Succeeds iff `index_symbol` is a string. A missing key raises `KeyError`. Only `index_symbol` changes. |
| EtfInfo.FirstUnsuffixable | xiaoyuan/openbb_xiaoyuan/models/etf_info.py:200 | Gives the first record the loop raises on. |
| EtfInfo.FirstUnsuffixableAt | xiaoyuan/openbb_xiaoyuan/models/etf_info.py:200-207 | Characterises the first failing position. |
| EtfInfo.SuffixIndexSymbols | xiaoyuan/openbb_xiaoyuan/models/etf_info.py:200-207 | Rewrites the array in place. On an error, the records before the failing one are rewritten, the rest untouched, and its exception is returned. |
| EtfInfo.Nulled | xiaoyuan/openbb_xiaoyuan/models/etf_info.py:193-199 | One record per input record: reverted, with `close_date` nulled when missing. |
| EtfInfo.Finished | xiaoyuan/openbb_xiaoyuan/models/etf_info.py:200-208 | Succeeds iff every `index_symbol` is a string. Each record is suffixed, then has its empty strings nulled. |
| EtfInfo.SuffixAndValidate | xiaoyuan/openbb_xiaoyuan/models/etf_info.py:200-208 | The loop and the validation compute exactly `Finished`. |
| EtfInfo.Cleaned | xiaoyuan/openbb_xiaoyuan/models/etf_info.py:192-208 | Keys gain `close_date`, which is null iff it was missing, null or an empty marker. `symbol` becomes its reverted code and `index_symbol` its suffixed code, each null iff that rewritten text is `""` or `"NA"`. Every other value becomes null iff it is `""` or `"NA"`, and is kept otherwise. |
| EtfInfo.Transformed | xiaoyuan/openbb_xiaoyuan/models/etf_info.py:185-208 | Succeeds iff every record has a string `symbol` and a string `index_symbol`. Each record is then `Cleaned`. |
| EtfInfo.TransformData | xiaoyuan/openbb_xiaoyuan/models/etf_info.py:185-208 | Computes `Transformed` of the input, and leaves the caller's records reverted in place. |
| EquityProfile.ValidateProfile | xiaoyuan/openbb_xiaoyuan/models/equity_profile.py:68-84 | Keys are kept and empty markers nulled. A date, null or marker listing date succeeds, giving the date or null. Any other listing date becomes what `validate_date` gives: a string succeeds iff it is an ISO date and becomes the parsed date; `0` becomes null and another number raises `TypeError`. A missing one succeeds. |
| EquityProfile.ValidateAll | xiaoyuan/openbb_xiaoyuan/models/equity_profile.py:169 | Succeeds iff every record validates. Elementwise the validated records. |
| EquityProfile.TransformData | xiaoyuan/openbb_xiaoyuan/models/equity_profile.py:162-169 | The first unrevertable record's exception is raised. Otherwise the reverted records are validated; the reverts stay in place. |
| PricePerformance.Percent | xiaoyuan/openbb_xiaoyuan/models/price_performance.py:51 | Null iff the value was null or equal to 0. A number becomes `x/100`. A string goes through `float`, failing iff it is not a number. A date raises `TypeError`. |
| PricePerformance.Rescale | xiaoyuan/openbb_xiaoyuan/models/price_performance.py:48-52 | `symbol` is kept as is. Any other value becomes null iff it was null or 0, and fails only with `TypeError` or `ValueError`. |
| PricePerformance.PercentOfHundredfold | xiaoyuan/openbb_xiaoyuan/models/price_performance.py:51 | Rescaling a non-zero `100*y` gives `y`. |
| PricePerformance.PercentOfZeroString | xiaoyuan/openbb_xiaoyuan/models/price_performance.py:51 | The string `"0"` is not nulled: it becomes `0.0`. |
| PricePerformance.Rescaled | xiaoyuan/openbb_xiaoyuan/models/price_performance.py:48-52 | Defined iff every non-symbol value rescales. Then the keys and `symbol` stay and every other value is rescaled. |
| PricePerformance.Row.constructor | xiaoyuan/openbb_xiaoyuan/models/price_performance.py:48 | Holds the given dictionary. |
| PricePerformance.Row.ReplaceZero | xiaoyuan/openbb_xiaoyuan/models/price_performance.py:48-52 | In place, with the keys and symbol unchanged. No error iff `Rescaled` is defined, and then the entries are exactly it. An error comes from some key. Every entry is either old or rescaled. |
| PricePerformance.UpperChar | xiaoyuan/openbb_xiaoyuan/models/price_performance.py:104 | A lower-case letter is raised and nothing else changes. |
| PricePerformance.Upper | xiaoyuan/openbb_xiaoyuan/models/price_performance.py:104 | Same length, no lower-case letter left, and only lower-case letters changed. |
| PricePerformance.UpperIdempotent | xiaoyuan/openbb_xiaoyuan/models/price_performance.py:104 | Upper-casing twice changes nothing more. |
| PricePerformance.RequestedSymbols | xiaoyuan/openbb_xiaoyuan/models/price_performance.py:104-105 | Distinct, the same members as the split, in order of first request. |
| PricePerformance.DataSymbols | xiaoyuan/openbb_xiaoyuan/models/price_performance.py:107 | Succeeds iff every row has `symbol`, and gives each row's symbol in order. Otherwise `KeyError`. |
| PricePerformance.MissingSymbols | xiaoyuan/openbb_xiaoyuan/models/price_performance.py:108-110 | Exactly the requested symbols no row carries, never more than were requested. |
| PricePerformance.MissingSymbolsInOrder | xiaoyuan/openbb_xiaoyuan/models/price_performance.py:108-110 | From distinct requests, the missing symbols come out distinct and in request order. |
| PricePerformance.Warning | xiaoyuan/openbb_xiaoyuan/models/price_performance.py:106-111 | No warning when the counts match. Otherwise it succeeds iff every row has `symbol`, and names exactly the missing symbols. |
| PricePerformance.ValidateRows | xiaoyuan/openbb_xiaoyuan/models/price_performance.py:113 | Succeeds iff every row rescales, and then gives each row's `Rescaled` in order. |
| PricePerformance.TransformData | xiaoyuan/openbb_xiaoyuan/models/price_performance.py:104-113 | The warning's `KeyError`, or else it succeeds iff every row rescales. It gives the warning and every row rescaled, none dropped. |
| IndexSearch.Script | xiaoyuan/openbb_xiaoyuan/models/index_search.py:72-80 | Always starts with the listing. The code filter follows iff the query is non-empty and is a symbol. |
| IndexSearch.ScriptForOneCode | xiaoyuan/openbb_xiaoyuan/models/index_search.py:77-78 | One code is filtered as a one-element list. |
| IndexSearch.ExtractData | xiaoyuan/openbb_xiaoyuan/models/index_search.py:81-85 | Nothing back or an empty frame raises `EmptyDataError`. Otherwise it succeeds iff both date columns hold dates, giving the frame's rows. |
| IndexSearch.Transformed | xiaoyuan/openbb_xiaoyuan/models/index_search.py:95-100 | Succeeds iff every symbol is a string. Each record is reverted and gains `end_date`, which is null iff it was missing or null. Nothing else changes. |
| IndexSearch.TransformData | xiaoyuan/openbb_xiaoyuan/models/index_search.py:95-100 | Computes `Transformed` of the input, and leaves the caller's records reverted in place. |
| EtfSearch.Script | xiaoyuan/openbb_xiaoyuan/models/etf_search.py:88-107 | Always starts with the listing and ends with the rest of the script. The code filter sits between them iff the query is non-empty. |
| EtfSearch.ActiveOnly | xiaoyuan/openbb_xiaoyuan/models/etf_search.py:108-109 | Filters only when `is_active` is true. `None` raises `AttributeError`; otherwise it succeeds iff `end_date` is a column, keeping exactly the rows with a null end date. |
| EtfSearch.Answered | xiaoyuan/openbb_xiaoyuan/models/etf_search.py:108-113 | After the active filter, no frame or an empty one raises `EmptyDataError`. Otherwise it succeeds iff the three listing columns exist, and every row loses exactly them and keeps its place. |
| EtfSearch.ActiveRowsHaveNoEndDate | xiaoyuan/openbb_xiaoyuan/models/etf_search.py:108-112 | With `is_active`, every returned row is a row with no end date, less the dropped columns. |
| EtfSearch.InactiveKeepsAllRows | xiaoyuan/openbb_xiaoyuan/models/etf_search.py:108-112 | Without the flag, every row comes back. |
| EtfSearch.FilterAndDrop | xiaoyuan/openbb_xiaoyuan/models/etf_search.py:108-113 | The in-place frame steps on the store's answer give exactly the rows, or the error, of `Answered`. |
| EtfSearch.ExtractData | xiaoyuan/openbb_xiaoyuan/models/etf_search.py:104-113 | The script built from the query goes to the store, and the result is `Answered` on the store's reply. |
| GovernmentTrades.Endpoints | fmp-extension/openbb_fmp_extension/models/government_trades.py:85-89 | Two endpoints for `all`, one otherwise. |
| GovernmentTrades.WithoutRemoved | fmp-extension/openbb_fmp_extension/models/government_trades.py:94-99 | Exactly the keys not listed for removal, with their values. |
| GovernmentTrades.Rename | fmp-extension/openbb_fmp_extension/models/government_trades.py:111-113 | The old key goes and its value moves to the new key. Other keys are untouched; nothing happens without the old key. |
| GovernmentTrades.RenameAll | fmp-extension/openbb_fmp_extension/models/government_trades.py:109-113 | Every key of the result was a key of the entry or a rename target. A key no rename mentions keeps its value. |
| GovernmentTrades.Processed | fmp-extension/openbb_fmp_extension/models/government_trades.py:107-114 | The removed and renamed keys are gone. `date` takes `disclosureDate`, else `dateRecieved`, else what it was. Every other key is kept. |
| GovernmentTrades.ProcessEntry | fmp-extension/openbb_fmp_extension/models/government_trades.py:109-113 | The loop over the renames computes `Processed`. |
| GovernmentTrades.GetOne | fmp-extension/openbb_fmp_extension/models/government_trades.py:106-114 | One processed entry per returned entry, in order. |
| GovernmentTrades.ProcessedAll | fmp-extension/openbb_fmp_extension/models/government_trades.py:106-114 | One processed entry per entry, in order. |
| GovernmentTrades.Symbols | fmp-extension/openbb_fmp_extension/models/government_trades.py:81-83 | No symbols iff the symbol is missing or empty. |
| GovernmentTrades.Pages | fmp-extension/openbb_fmp_extension/models/government_trades.py:138 | `ceil(limit/100)`: the fewest pages of 100 covering the limit. |
| GovernmentTrades.PageCount | fmp-extension/openbb_fmp_extension/models/government_trades.py:138-139 | No pages for a non-positive limit. Otherwise `ceil(limit/100)`. |
| GovernmentTrades.Row | fmp-extension/openbb_fmp_extension/models/government_trades.py:124-133 | One URL per endpoint, in order. |
| GovernmentTrades.OffsetIsProduct | fmp-extension/openbb_fmp_extension/models/government_trades.py:134 | Row `i` starts at `i*m`. |
| GovernmentTrades.UrlGrid | fmp-extension/openbb_fmp_extension/models/government_trades.py:121-134 | Targets outer, endpoints inner: cell `(i, j)` is endpoint `j` for target `i`. |
| GovernmentTrades.GridAppendRow | fmp-extension/openbb_fmp_extension/models/government_trades.py:134 | Extending by one target's row extends the grid. |
| GovernmentTrades.SymbolUrls | fmp-extension/openbb_fmp_extension/models/government_trades.py:120-134 | One URL per symbol and endpoint, symbols outer, each with that symbol. |
| GovernmentTrades.PageUrls | fmp-extension/openbb_fmp_extension/models/government_trades.py:136-151 | One URL per page and feed endpoint, pages from 0 outer. |
| GovernmentTrades.PlannedUrls | fmp-extension/openbb_fmp_extension/models/government_trades.py:120-151 | With symbols, cell `(i, j)` is endpoint `j` for symbol `i` at the query's page. Without, cell `(i, j)` is feed endpoint `j` at page `i`, for `ceil(limit/100)` pages. |
| GovernmentTrades.CollectUrls | fmp-extension/openbb_fmp_extension/models/government_trades.py:120-151 | The loops that mutate the query collect exactly the planned URLs. |
| GovernmentTrades.SymbolLoop | fmp-extension/openbb_fmp_extension/models/government_trades.py:120-134 | The loop over the symbols collects one URL per symbol and endpoint, symbols outermost, all at the query's page. |
| GovernmentTrades.PageLoop | fmp-extension/openbb_fmp_extension/models/government_trades.py:137-151 | The loop over `ceil(limit / 100)` pages collects one feed URL per page and endpoint, pages outermost. |
| GovernmentTrades.Gathered | fmp-extension/openbb_fmp_extension/models/government_trades.py:117-118 | Empty iff every fetch returned nothing. |
| GovernmentTrades.GatheredAppend | fmp-extension/openbb_fmp_extension/models/government_trades.py:117-118 | One more URL appends its processed entries. |
| GovernmentTrades.FetchAll | fmp-extension/openbb_fmp_extension/models/government_trades.py:116-117 | The results are the processed entries of every response, URL by URL. |
| GovernmentTrades.ExtractData | fmp-extension/openbb_fmp_extension/models/government_trades.py:120-157 | `EmptyDataError` iff every planned URL returned nothing. Otherwise all processed entries, in URL order. |

## Left out

- **The store and the network.** The data store's query language and `reader._run_query`, `get_jindata_reader`, `get_adjacent_trade_day`, `convert_to_db_date_format`, `amake_request` and `create_url` are outside the model.
  - Each answer of the store is a parameter: a function from script (or query) to an optional frame.
  - Each HTTP response is a function from URL to its entries.
  - A URL is the endpoint together with the query's `symbol` and `page` at the time it is built.
- **The clock.** `datetime.now()` and everything derived from it (the ETF search `other_data` tail, start dates) is a parameter or left out.
- **Concurrency.** `asyncio.gather` runs `get_one` concurrently, and results are appended in completion order. The model gathers them in URL order, so `GovernmentTrades.ExtractData` does not promise the source's order.
- **The missing-data warning.** In government trades, `warn` on a URL that returned nothing is not modelled. In price performance, the `warn` call is the returned warning list.
- **Floating point.** Numbers are reals. Division by 100 and `float(...)` have no rounding, and NaN is not distinguished from `None`: both are `Null`.
- **Pydantic.** `model_validate`, alias resolution and field coercion are left out. Only the "before" validators are modelled.
  - `validate_date` in `etf_info.py` carries no validator decorator, so nothing applies it, and the model does not apply it there.
- **Other pandas details.**
  - `strftime` is modelled only through its failure: `Frames.Frame.FormatDates` leaves the dates as dates and reports what the `.dt` accessor would raise.
  - `to_dict`, `astype` and `set_index`/`reset_index` as index operations are left out. The last pair is modelled only as the column selection it performs.
  - The ETF profile and equity profile `aextract_data` column drops, renames and script building are left out, because they depend on the store and the clock.
- **Sorting ties.** `sort_values` is not stable, so the order of rows with equal report periods is unspecified; `Frames.Frame.SortByPeriod` promises only sortedness and permutation.
- **`calculateGrowth` and `caculate_sql`** are imported by the growth fetchers, but their definitions are not part of this model. The scripts are modelled only through their factors, symbols and limits.
- **Price-performance extraction.** `aextract_data` of price performance returns the frame itself, while `transform_data` is declared to take a list of dictionaries. The model follows the declared type.
  - `PricePerformance.Row.ReplaceZero`: the non-dict passthrough is not modelled, because the class always holds a dictionary.
  - Python dictionaries iterate in insertion order, but the model leaves the order of the loop over keys open; the result does not depend on it when no value raises.
- **Aliasing.** Records updated in place are array slots. A record dictionary shared between two list positions is not captured.
- **Characters and quoting.**
  - `PricePerformance.UpperChar` and `PricePerformance.Upper` raise ASCII letters only.
  - `Strs.ListRepr` renders a list of strings as Python does only when the strings hold no quote or backslash.
- **Error details.** Exception messages are not modelled, except where the source builds them from the input. In a `KeyError` from `drop` listing several missing labels, the model names the first. Two `EmptyDataError` classes are told apart: `IncomeStatementGrowth.ExtractData` raises pandas' class (`PandasEmptyData`), every other fetcher openbb's (`EmptyData`).
- `Frames.LeftMerge`: the output order is stated only as a whole (every output row belongs to some left row's group); the position of each group in the output is proved only when keys match at most once (`Frames.MergeUniqueKeepsLeft`).
- CashFlowGrowth.QuarterRowsKept: keeps quarterly rows by position only when every quarterly row matches at most one annual row; with repeated keys, pandas repeats the row and only the count and the group contents are stated.
- ValidateDate: `Dates.ParseIsoDate` accepts only the `YYYY-MM-DD` form. Python 3.11 and later also accept forms such as `20240131` and week dates like `2024-W05-3`; strings in those forms are rejected here with `ValueError`.
- PricePerformance.Percent: `Null` stands for both Python `None` and pandas NaN and is kept as null. For a real `None`, `float(None)` would raise `TypeError`; for NaN, NaN/100 is NaN. Rows built from a frame hold NaN, which is the case modelled.
- `Frames.Frame.FormatDates` does not change the column to text; see `strftime` above.
