# SuiteQL query tools: query execution, pagination and result rendering

This project models the core of a NetSuite SuiteQL tool set:

- **The SuiteQL Query Tool suitelet.** It covers:
  - the server-side `queryExecute` handler:
    - the query gets a trailing newline;
    - `#name` view tokens are rewritten into `( contents ) AS name` sub-queries, from `name.sql` files in the query folder;
    - the result set is read either through a windowed `ROWNUMBER BETWEEN` loop in 5000-row pages or with a single plain run;
    - an optional total row count is added;
    - any error becomes an `{ error }` payload.
  - The same windowed loop inside `documentGenerate`.
  - The browser-side `querySubmit` row bounds, and the CSV and HTML-table renderers of the results.
- **The SuiteQL RESTlet.** It covers:
  - the `post` dispatcher;
  - the unpaged and paged SuiteQL handlers (page-size and page-number normalisation, the wrap to page 1, offset arithmetic);
  - the saved-search handler, which reads ranges of 1000 rows until an empty one.
- **The employee directory library.** It covers:
  - `recordsTableGenerate`, which builds a table from the first record's keys and can drop the `rownumber` column;
  - `queryExecute`, whose windowed loop keeps its upper bound fixed at 5000.

The host is passed in as functions. Its SuiteQL primitive is an `Executor` from SQL text to rows or a thrown message. The paged primitive, the saved-search range reader and the query folder's file lookup are passed in the same way. Every fetch loop is proved against a numbered result set. The proofs show that the loop returns that set's rows, or fails with what its last call threw. Every call before that last one returned rows, and a failed loop never returns a partial list.

Modules:

| file | module | covers |
|---|---|---|
| `text.dfy` | `Text` | `join`, string concatenation, `\w`/`\s`, ASCII `toLowerCase`, integer rendering |
| `rows.dfy` | `Rows` | mapped result rows, `row[key]`, host call outcomes |
| `paged_fetch.dfy` | `PagedFetch` | the shared windowed fetch loop and its properties |
| `view_macros.dfy` | `ViewMacros` | `#view` token matching and rewriting |
| `query_tool.dfy` | `QueryTool` | `queryExecute` and the `documentGenerate` loop |
| `query_tool_client.dfy` | `QueryToolClient` | `querySubmit`, the CSV builder and the table builder |
| `suiteql_api.dfy` | `SuiteQLApi` | the RESTlet handlers and dispatcher |
| `employee_directory.dfy` | `EmployeeDirectory` | `recordsTableGenerate` and the directory `queryExecute` |

## Model

| member | source | states |
|---|---|---|
| Rows.Keys | src/native/suiteql-query-tool.suitelet.js:1771 | The column names of a row are its pair names, one per pair, in order. |
| Rows.Lookup | src/native/suiteql-query-tool.suitelet.js:1785 | A cell lookup is undefined exactly when the key is not among the row's keys. |
| Rows.LookupFindsFirst | src/native/suiteql-query-tool.suitelet.js:1785 | A lookup yields the value of the first pair with that name. |
| Rows.TextOrEmpty | src/ts-pack/employee-directory.library.module.ts:49 | Null and undefined cells read as empty text. Any other value reads as its string form. |
| Text.JoinSnoc | src/native/suiteql-query-tool.suitelet.js:1772 | Joining one more part appends the separator and that part. |
| Text.LowerCase | src/ts-pack/employee-directory.library.module.ts:38 | Lower-casing keeps the length. It maps each character on its own, and no upper-case ASCII letter remains. |
| Text.NatToStringRoundTrip | src/native/suiteql-query-tool.suitelet.js:2497 | The decimal digits put in the window SQL read back as the same number, so the bound loses nothing. |
| Text.IntToString | src/native/suiteql-query-tool.suitelet.js:2497 | An interpolated bound is non-empty and starts with `-` exactly when it is negative. |
| PagedFetch.Window | src/native/suiteql-query-tool.suitelet.js:2497-2499 | A window returns at most 5000 rows. A full window means the numbered rows reach at least 5000 past its start. |
| PagedFetch.FetchPages | src/native/suiteql-query-tool.suitelet.js:2493-2507 | Lower bounds start at rowBegin and step by 5000, and the upper bound is always rowEnd. On success the records are every page concatenated, fetched in PageCount calls. On failure the outcome is what the last call threw, and every earlier call succeeded. |
| PagedFetch.PagedIsRowRange | src/native/suiteql-query-tool.suitelet.js:2493-2507 | For rowBegin ≥ 1 the loop yields exactly the rows numbered rowBegin..rowEnd. |
| PagedFetch.PageCountFormula | src/native/suiteql-query-tool.suitelet.js:2493-2507 | The loop makes (rows in the window) / 5000 + 1 calls, so a multiple of 5000 costs one more, empty call. |
| PagedFetch.RowBeginZeroRepeatsRow5000 | src/native/suiteql-query-tool.suitelet.js:2495-2506 | With rowBegin 0 the second window starts at 5000, so row 5000 is returned twice. |
| PagedFetch.FixedUpperBoundStopsAtFirstPage | src/ts-pack/employee-directory.library.module.ts:64-79 | With bounds starting at [1, 5000] and a fixed upper bound, the loop yields the first min(5000, n) rows. It makes at most two calls, and two exactly when n ≥ 5000. |
| ViewMacros.WordEnd | src/native/suiteql-query-tool.suitelet.js:2452 | The greedy `\w+` ends at the first non-word character or at the end of the text. |
| ViewMacros.WordStart | src/native/suiteql-query-tool.suitelet.js:2452 | A token's word starts right after its `#`, one character further when the match starts with white space. |
| ViewMacros.MatchesEmptyIff | src/native/suiteql-query-tool.suitelet.js:2452-2456 | The token scan finds nothing exactly when no position starts a `#word` token. |
| ViewMacros.NoHashNoMatches | src/native/suiteql-query-tool.suitelet.js:2452-2456 | A query without `#` has no view tokens. |
| ViewMacros.RemoveSpacesOfWord | src/native/suiteql-query-tool.suitelet.js:2460 | Removing white space leaves a word unchanged. |
| ViewMacros.MatchIsToken | src/native/suiteql-query-tool.suitelet.js:2452 | Every match is the text of a token starting at or after the scan position. |
| ViewMacros.ViewOfToken | src/native/suiteql-query-tool.suitelet.js:2460 | Without its white space, a token is its `#` and its word, as they appear in the query. |
| ViewMacros.MatchShape | src/native/suiteql-query-tool.suitelet.js:2454-2462 | Every view name is `#` followed by a non-empty run of word characters. |
| ViewMacros.IndexOf | src/native/suiteql-query-tool.suitelet.js:2474 | `indexOf` finds the first occurrence at or after the start position, or reports that there is none. |
| ViewMacros.SubstituteWithoutDollar | src/native/suiteql-query-tool.suitelet.js:2474 | A replacement with no `$` is inserted literally. |
| ViewMacros.ReplaceFirstSpec | src/native/suiteql-query-tool.suitelet.js:2474 | `replace` with a string pattern changes only the first occurrence, and changes nothing when there is none. |
| ViewMacros.FileNames | src/native/suiteql-query-tool.suitelet.js:2460-2462 | Each match names the file `word.sql`, in match order. |
| ViewMacros.FirstUnresolved | src/native/suiteql-query-tool.suitelet.js:2464-2481 | Every token before the first unresolved one resolves to exactly one file, and that token does not. |
| ViewMacros.ExpandFailsIffUnresolved | src/native/suiteql-query-tool.suitelet.js:2458-2483 | The rewrite fails exactly when some token's file is not found exactly once. It then reports `Unresolved View` for the first such file, whatever the SQL text. |
| ViewMacros.LookupsStopAtFirstUnresolved | src/native/suiteql-query-tool.suitelet.js:2458-2483 | File lookups happen in match order and stop at the first unresolved token. |
| ViewMacros.ExpandWithoutTokens | src/native/suiteql-query-tool.suitelet.js:2452-2456 | A text with no token comes back unchanged, with no lookups, whatever the folder holds. |
| ViewMacros.ResolveStep | src/native/suiteql-query-tool.suitelet.js:2458-2481 | A resolved token replaces its first occurrence and the rewrite continues. An unresolved one stops it with its file's name. |
| ViewMacros.ResolveViews | src/native/suiteql-query-tool.suitelet.js:2458-2485 | The loop over the matches computes the token-by-token rewrite and performs exactly the lookups of the specification. |
| ViewMacros.RewriteViews | src/native/suiteql-query-tool.suitelet.js:2448-2489 | With views off or no query folder, the SQL is the query plus a newline and nothing is looked up. Otherwise the tokens of that text are resolved in match order. |
| QueryTool.WindowCalls | src/native/suiteql-query-tool.suitelet.js:2497 | There is one windowed statement per lower bound, in order, each with the fixed upper bound. |
| QueryTool.DataCalls | src/native/suiteql-query-tool.suitelet.js:2491-2517 | With pagination on, the data statements are one window per lower bound. With it off, they are one plain run of the rewritten SQL. |
| QueryTool.TotalRecordCount | src/native/suiteql-query-tool.suitelet.js:2523-2535 | The total is absent unless totals were asked for and some record came back. When it is asked for and the count query returns a row, the total is that row's `totalrecordcount`. A count query that throws gives its message as the error, and one that returns no row gives the missing-row error. |
| QueryTool.FetchRecords | src/native/suiteql-query-tool.suitelet.js:2491-2517 | The statements run are exactly the data statements: strided windows from rowBegin with pagination on, or one plain run with it off. Every statement but the last returned rows. The fetch succeeds exactly when the last one did too, and otherwise fails with what it threw. With pagination on, success yields the paged rows in PageCount calls. |
| QueryTool.WindowCallsServed | src/native/suiteql-query-tool.suitelet.js:2495-2506 | When every window before the last returned rows, so did every windowed statement before the last. |
| QueryTool.RunRewritten | src/native/suiteql-query-tool.suitelet.js:2491-2545 | The statements run are the data statements, every one but the last having returned rows. A paginated fetch succeeds only after exactly PageCount windows, ending at its short page. After a successful fetch, the count query follows exactly when totals were asked for and some record came back. The response is then the records with the optional total, or the count's error. After a failed fetch nothing more runs, and the response is only the message the last data statement threw. |
| QueryTool.FailedFetchAnswered | src/native/suiteql-query-tool.suitelet.js:2539-2545 | A data statement that throws leaves a payload holding only its message, and no count query runs. |
| QueryTool.FetchedAnswered | src/native/suiteql-query-tool.suitelet.js:2519-2545 | Rows that came back are answered with the optional total, and the count query runs last exactly when it was asked for. A failing count leaves only its error. |
| QueryTool.QueryExecute | src/native/suiteql-query-tool.suitelet.js:2430-2549 | An unresolved view fails the request before any data statement runs. Otherwise the request is answered as RunRewritten states, over the rewritten SQL: every data statement but the last returned rows, and a paginated success took exactly PageCount windows. |
| QueryTool.DocumentWindowsServed | src/native/suiteql-query-tool.suitelet.js:150-162 | When every window before the last returned rows, so did every document query before the last. |
| QueryTool.DocumentGenerate | src/native/suiteql-query-tool.suitelet.js:139-163 | The stored query is fetched in windows from rowBegin, stepping by 5000, each up to rowEnd. Every window but the last returned rows. The fetch succeeds exactly when the last window did too, and then the rows are the paged rows, fetched in PageCount calls. Otherwise the error is what the last window threw. |
| QueryToolClient.Substring | src/native/suiteql-query-tool.suitelet.js:1432 | The selected text is a slice of the editor text, and exactly [start, end) for an in-range selection. |
| QueryToolClient.QuerySubmit | src/native/suiteql-query-tool.suitelet.js:1416-1487 | An empty editor or a non-integer bound gives an alert and no post; these are the only alerts. "Return all" posts bounds 1 and 999999, and otherwise the typed bounds are posted. The posted query is the non-empty selection, or else the whole text. The flags are copied through, and views count as on only when the checkbox exists and is ticked. |
| QueryToolClient.ReturnAllFetchesEverything | src/native/suiteql-query-tool.suitelet.js:1442-1446 | "Return all" with pagination fetches the whole result set of at most 999999 rows, in n / 5000 + 1 calls. |
| QueryToolClient.TypedBoundsFetchTheirRows | src/native/suiteql-query-tool.suitelet.js:1449-1463 | Typed bounds 1 ≤ b ≤ e ≤ n fetch exactly rows b..e. |
| QueryToolClient.CsvField | src/native/suiteql-query-tool.suitelet.js:1785-1793 | A null or undefined cell gives `""`. Any other cell gives its text in double quotes. |
| QueryToolClient.CsvFieldsAt | src/native/suiteql-query-tool.suitelet.js:1779-1795 | A record has one field per column, and field c is the field of column c. |
| QueryToolClient.CellTexts | src/native/suiteql-query-tool.suitelet.js:1785-1793 | There is one text per column, each the cell's text, or empty for null or undefined. |
| QueryToolClient.ResponseCsv | src/native/suiteql-query-tool.suitelet.js:1767-1800 | No records gives no CSV, because reading `records[0]` throws. Otherwise the text is the header of the first record's keys, then one line per record, each ended by CR LF. |
| QueryToolClient.CsvRow | src/native/suiteql-query-tool.suitelet.js:1779-1797 | A record's line is its quoted fields joined by commas. |
| QueryToolClient.JoinQuoted | src/native/suiteql-query-tool.suitelet.js:1772-1797 | Quoting each field and joining with `,` is the same as joining with `","` inside one pair of quotes. |
| QueryToolClient.CsvLineShape | src/native/suiteql-query-tool.suitelet.js:1772-1797 | Every record line has the header's shape: one quoted field per column, in header order. |
| QueryToolClient.CsvLinesLineFeeds | src/native/suiteql-query-tool.suitelet.js:1771-1798 | The header and the first n records, each ended by CR LF, hold exactly n + 1 line feeds. |
| QueryToolClient.CsvLineCount | src/native/suiteql-query-tool.suitelet.js:1771-1798 | When no name or cell contains a line feed, the CSV has exactly records.length + 1 lines. |
| QueryToolClient.CsvWithoutColumns | src/native/suiteql-query-tool.suitelet.js:1771-1798 | A first record with no keys gives the header `""` and one empty line per record. |
| QueryToolClient.CellText | src/native/suiteql-query-tool.suitelet.js:1892-1902 | A null renders as a dimmed `null` span, as blank or as `null`, according to the option. Undefined renders as `undefined`, and any other value as its text. |
| QueryToolClient.ResponseTable | src/native/suiteql-query-tool.suitelet.js:1856-1938 | No records gives exactly the "No Records Were Found" message. Otherwise the markup is the table over the first record's columns, wrapped in a `table-responsive` block. |
| QueryToolClient.TableHead | src/native/suiteql-query-tool.suitelet.js:1874-1886 | The header loop appends one header cell per column, in order. |
| QueryToolClient.TableRow | src/native/suiteql-query-tool.suitelet.js:1891-1910 | The cell loop appends one cell per column of the record, in order. |
| QueryToolClient.HeaderFirstColumn | src/native/suiteql-query-tool.suitelet.js:1876-1884 | The header is the first column's cell followed by the other columns as ordinary cells. |
| QueryToolClient.RowFirstColumn | src/native/suiteql-query-tool.suitelet.js:1891-1910 | A row is the first column's cell followed by the other columns as ordinary cells. |
| QueryToolClient.HiddenRowNumbersHeader | src/native/suiteql-query-tool.suitelet.js:1876-1884 | With pagination on and row numbers hidden, the header is the header of the table without column 0. |
| QueryToolClient.HiddenRowNumbersRow | src/native/suiteql-query-tool.suitelet.js:1891-1910 | With pagination on and row numbers hidden, every row is the row of the table without column 0. |
| QueryToolClient.ShownRowNumbersHeader | src/native/suiteql-query-tool.suitelet.js:1876-1884 | With pagination on and row numbers shown, column 0 is a centred `#` and the rest is unchanged. |
| SuiteQLApi.SqlRunUnpaged | src/lib/suiteqlApi.restlet.ts:133-148 | A missing or empty `sql` is "No SQL specified.". Otherwise the items are the rows of one run, or the error is the message the run threw. |
| SuiteQLApi.RequestedPageSize | src/lib/suiteqlApi.restlet.ts:156-161 | The page size is 5000 when absent or negative, and otherwise the given value unchanged. |
| SuiteQLApi.RequestedPageNumber | src/lib/suiteqlApi.restlet.ts:163-166 | The page number is 1 when absent or below 1, and otherwise the given value. |
| SuiteQLApi.SqlRunPaged | src/lib/suiteqlApi.restlet.ts:151-192 | The reply is the requested page, or page 1 when that page does not exist, and `hasMore` is the negation of its `isLast`. With no pages there are no items and the page number is kept. The count is the number of items, the offset is (pageNumber − 1) × pageSize, and totalResults and pageSize come from the host. The request fails exactly when the paged run throws or the fetch of the chosen page throws, and then with that message. |
| SuiteQLApi.FullPagesBefore | src/lib/suiteqlApi.restlet.ts:179-186 | In a consistent paged result, the pages before page k hold k × pageSize rows. |
| SuiteQLApi.OffsetCountsEarlierRows | src/lib/suiteqlApi.restlet.ts:168-187 | The reported offset is the number of rows on earlier pages, and `hasMore` holds exactly when later pages exist. |
| SuiteQLApi.RangeStep | src/lib/suiteqlApi.restlet.ts:119-124 | Each range extends the items read so far, and a range is empty exactly when it starts past the last row. |
| SuiteQLApi.RangeCountAtStop | src/lib/suiteqlApi.restlet.ts:119-124 | The loop stops at range ceil(n / 1000), so it reads ceil(n / 1000) + 1 ranges. |
| SuiteQLApi.SavedSearchRunUnpaged | src/lib/suiteqlApi.restlet.ts:107-130 | A missing id is "No saved search specified.", and a load failure reports its message. In either case no range is read. Otherwise ranges start at 0, 1000, 2000 and so on, every range but the last returned a non-empty page, and at most ceil(n / 1000) + 1 ranges are read. The call succeeds exactly when the last range came back, and then the items are every row of the search in order, after exactly ceil(n / 1000) + 1 reads. Otherwise it fails with the message the last range threw. |
| SuiteQLApi.ReadRanges | src/lib/suiteqlApi.restlet.ts:112-124 | The `do … while` loop reads ranges of 1000 from 0 and stops after the first empty one or the first that throws. Every range but the last returned a non-empty page, and at most ceil(n / 1000) + 1 ranges are read. Success yields every row, in exactly ceil(n / 1000) + 1 reads, and failure is the last range's message. |
| SuiteQLApi.ReadOn | src/lib/suiteqlApi.restlet.ts:119-124 | A non-empty range extends the rows read by its rows, and its start lies before the end of the search, so the loop goes on. |
| SuiteQLApi.ReadEnd | src/lib/suiteqlApi.restlet.ts:119-129 | A range that is empty or throws, after non-empty ones, ends the loop. At most ceil(n / 1000) + 1 ranges were read. An empty range completes every row, after exactly ceil(n / 1000) + 1 reads. |
| SuiteQLApi.LastRangeRead | src/lib/suiteqlApi.restlet.ts:119-129 | A range after non-empty ones is the last range read. The read succeeds exactly when that range came back. |
| SuiteQLApi.RangeBound | src/lib/suiteqlApi.restlet.ts:119-124 | A range read while every earlier range started before the end is within the ceil(n / 1000) + 1 reads. |
| SuiteQLApi.AllServedAt | src/lib/suiteqlApi.restlet.ts:119-124 | Ranges that came back non-empty one after another each came back non-empty. |
| SuiteQLApi.Post | src/lib/suiteqlApi.restlet.ts:84-104 | A missing or empty `function` is "No function was specified.", and an unknown one is "Unsupported function.". The three names dispatch to their handlers, whose errors come back as `{ error }`. For a saved search, a load failure reads no range and replies with its message. Otherwise ranges start at 0, 1000, 2000 and so on, at most ceil(n / 1000) + 1 are read, and every range but the last returned a non-empty page. The reply carries items exactly when the last range came back, after exactly ceil(n / 1000) + 1 reads. An error reply is what the last range threw. No other function reads a range. |
| EmployeeDirectory.ShownColumns | src/ts-pack/employee-directory.library.module.ts:37-38 | Without exclusion the columns are exactly the first record's keys, in order. With it they are never more. |
| EmployeeDirectory.ShownColumnsSnoc | src/ts-pack/employee-directory.library.module.ts:38 | One more key adds itself as the last column when shown, and nothing otherwise. |
| EmployeeDirectory.ShownColumnsAppend | src/ts-pack/employee-directory.library.module.ts:38 | Filtering keeps key order: the columns of two runs of keys are those of the first run followed by those of the second. |
| EmployeeDirectory.ShownColumnsOne | src/ts-pack/employee-directory.library.module.ts:38 | A single key gives itself as the column when shown, and no column otherwise. |
| EmployeeDirectory.DropsRowNumberKey | src/ts-pack/employee-directory.library.module.ts:38 | With exclusion on, a `rownumber` key among shown keys is removed, and the keys before and after it keep their order. |
| EmployeeDirectory.ShownColumnsMembers | src/ts-pack/employee-directory.library.module.ts:38 | A key is kept exactly when it is not named `rownumber` in any letter case, or when nothing is excluded. |
| EmployeeDirectory.AllShownKeepsKeys | src/ts-pack/employee-directory.library.module.ts:38 | When no key is a row-number column, the columns are the keys in their order. |
| EmployeeDirectory.RecordsTableGenerate | src/ts-pack/employee-directory.library.module.ts:32-57 | The result is empty text exactly for null or no records. Otherwise it is the table with the given id, whose header and rows are built from the shown columns. |
| EmployeeDirectory.HeadLoop | src/ts-pack/employee-directory.library.module.ts:42 | The header `forEach` appends one header cell per column. |
| EmployeeDirectory.CellLoop | src/ts-pack/employee-directory.library.module.ts:49 | The row `forEach` appends one cell per column. |
| EmployeeDirectory.BodyLoop | src/ts-pack/employee-directory.library.module.ts:47-51 | The record loop appends one `<tr>` row per record. |
| EmployeeDirectory.HeadCellList | src/ts-pack/employee-directory.library.module.ts:42 | There is one `<th>` per column, holding that column's name. |
| EmployeeDirectory.DataCellList | src/ts-pack/employee-directory.library.module.ts:49 | There is one `<td>` per column in header order, holding the cell's text, or empty for null or undefined. |
| EmployeeDirectory.HeadIsOneCellPerColumn | src/ts-pack/employee-directory.library.module.ts:40-44 | The header is exactly one `<th>` per column, in order. |
| EmployeeDirectory.RowIsOneCellPerColumn | src/ts-pack/employee-directory.library.module.ts:49 | A row is exactly one `<td>` per column, in header order. |
| EmployeeDirectory.RowList | src/ts-pack/employee-directory.library.module.ts:47-51 | There is one row per record, in record order. |
| EmployeeDirectory.RowAfter | src/ts-pack/employee-directory.library.module.ts:48-50 | `<tr>`, the cells and `</tr>` together append exactly the record's row. |
| EmployeeDirectory.BodyStep | src/ts-pack/employee-directory.library.module.ts:47-51 | One more turn of the record loop adds exactly the next record's row. |
| EmployeeDirectory.BodyIsOneRowPerRecord | src/ts-pack/employee-directory.library.module.ts:46-52 | The body is exactly records.length rows, one per record, in order. |
| EmployeeDirectory.QueryExecute | src/ts-pack/employee-directory.library.module.ts:59-87 | The lower bounds are 1, then 5001; the upper bound stays 5000; there are one or two calls, never more than PageCount. The window before the last returned rows. Success yields the first min(5000, n) rows, after exactly PageCount calls, with a second call exactly when n ≥ 5000. The result is null exactly when the last call threw, never a partial list. |
| EmployeeDirectory.DirectoryWindowsServed | src/ts-pack/employee-directory.library.module.ts:64-79 | When every window before the last returned rows, so did every directory query before the last. |

## Left out

- Browser UI: the DOM, jQuery, DataTables, modals and toggles, and the status line with the row count and elapsed time. They are presentation and clock reading. The renderers are modelled up to the markup or text they produce.
- XHR and promises: requests between page and suitelet, and the RESTlet's `await`s, are treated as sequential calls.
- `parseInt`: a row-bound field that does not parse as an integer is an absent input (`None`). Partial parses such as `"12abc"` are not modelled, and neither is the RESTlet's `parseInt` of a non-numeric page size or page number.
- Older editors: the branch of `querySubmit` for editors without `selectionStart` is not modelled. The model takes the standard selection API.
- File storage: the query folder is an abstract map from file name to the contents of each file with that name, and lookups through it cannot fail.
- Error payloads: `{ error: e }` serialises the whole error object, but the model keeps only its message. JSON stringification is not modelled.
- QueryTool.TotalRecordCount: a count query that returns no row fails with an abstract message (`MissingCountRow`), not with the engine's exact text. The code reads `queryResults[0]` without a check, but a `COUNT(*)` query always returns one row, so this path never happens against a real host.
- Number formatting: values are strings, integers, booleans and null. Floating-point values, and JavaScript's rendering of them, are left out. So is `toLowerCase` beyond ASCII letters.
- SQL semantics: `ROWNUM`, `BETWEEN` and `COUNT(*)` are not evaluated. The host is assumed to answer every window from one numbered result set. The host's own row caps (5000 for an unpaged run, 4000 for a saved-search run) and its paging are inputs.
- `documentGenerate`: rendering through `N/render` and the session storage are not modelled, only the fetch loop. Documents never apply view rewriting, and the model follows that.
- Logging (`log.error`) and `throwError`: throwing is modelled as a failure result carrying the message.
- SuiteQLApi.RequestedPageSize: the page size is not clamped to the range 1..5000. A size of 0 or above 5000 is passed to the host unchanged, as the code does, whatever the documented behaviour says.
- SuiteQLApi.SqlRunUnpaged: a host that throws "No SQL specified." looks the same as a missing `sql`. So the missing-`sql` case is stated as an implication, not as an if-and-only-if.
- QueryTool.QueryExecute: in paginated mode the loop is not bounded by a check on rowBegin. A rowBegin below 1 makes the second window start at rowBegin + 5000 ≤ 5000. When the result set and rowEnd reach past row 5000, rows max(1, rowBegin + 5000) through 5000 are then returned twice: 1 − rowBegin rows for rowBegin ≥ −4999, and all 5000 below that. PagedFetch.RowBeginZeroRepeatsRow5000 shows the case rowBegin = 0. The model keeps this behaviour.
- Other files: the employee directory's list view, detail view and core suitelet are not part of this model, nor are the suitelet's file, workbook and records-catalog operations and the build configuration.
