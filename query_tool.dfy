// Server side of the SuiteQL Query Tool suitelet: `queryExecute` (view rewriting, the windowed
// fetch loop or a single plain run, the optional total-row count) and the fetch loop of
// `documentGenerate`.

module QueryTool {
  import opened Text
  import opened Rows
  import opened PagedFetch
  import opened ViewMacros

  /** The script-wide setting `queryFolderID` (null unless the deployment sets it). */
  datatype Config = Config(queryFolderID: Option<int>)

  /** The JSON payload `querySubmit` posts with function `queryExecute`. */
  datatype QueryRequest = QueryRequest(
    query: string,
    rowBegin: int,
    rowEnd: int,
    paginationEnabled: bool,
    viewsEnabled: bool,
    returnTotals: bool)

  /** The JSON the handler writes back: the records and, when present, `totalRecordCount`; or only `error`. */
  datatype QueryResponse = Records(records: seq<Row>, totalRecordCount: Option<Value>) | Failed(error: string)

  const WindowHead := "SELECT * FROM ( SELECT ROWNUM AS ROWNUMBER, * FROM ( "
  const DocumentHead := "SELECT * FROM ( SELECT ROWNUM AS ROWNUMBER, * FROM ("
  const WindowMiddle := " ) ) WHERE ( ROWNUMBER BETWEEN "
  const CountHead := "SELECT COUNT(*) AS TotalRecordCount FROM ( "

  /** The windowed SQL of `queryExecute`. */
  function WindowedSql(nested: string, begin: int, end: int): string
  {
    WindowHead + nested + WindowMiddle
      + IntToString(begin) + " AND " + IntToString(end) + ")"
  }

  /** The windowed SQL of `documentGenerate` (spaced slightly differently). */
  function DocumentSql(query: string, begin: int, end: int): string
  {
    DocumentHead + query + WindowMiddle
      + IntToString(begin) + " AND " + IntToString(end) + ")"
  }

  /** The total-row count query. */
  function CountSql(nested: string): string
  {
    CountHead + nested + " )"
  }

  /**
   * The failure of reading `queryResults[0].totalrecordcount` when the count query returns no
   * row. The wording stands for whatever the engine throws; a `COUNT(*)` query always returns
   * one row, so a host that evaluates it never takes this path.
   */
  const MissingCountRow := "no count row"

  /**
   * The host answers every windowed query the handler builds from the numbered result set of
   * the SQL inside it; `resultOf(sql)` is that result set.
   */
  ghost predicate ServesWindows(run: Executor, resultOf: string -> seq<Row>)
  {
    forall nested, b, e :: run(WindowedSql(nested, b, e)).Page? ==>
      run(WindowedSql(nested, b, e)).rows == Window(resultOf(nested), b, e)
  }

  ghost predicate ServesDocuments(run: Executor, resultOf: string -> seq<Row>)
  {
    forall query, b, e :: run(DocumentSql(query, b, e)).Page? ==>
      run(DocumentSql(query, b, e)).rows == Window(resultOf(query), b, e)
  }

  /** The SQL the data queries run: the query plus a newline, rewritten only when views are on and a folder is set. */
  function Rewritten(config: Config, request: QueryRequest, folder: Folder): Result<string>
  {
    Rewrite(request.query, request.viewsEnabled, config.queryFolderID, folder)
  }

  /** A statement the handler runs against the host, kept apart from its SQL text. */
  datatype Statement = WindowQuery(nested: string, begin: int, end: int) | PlainQuery(sql: string) | CountQuery(of: string)

  /** The SQL text the host receives for a statement. */
  function SqlOf(st: Statement): string
  {
    match st
    case WindowQuery(nested, b, e) => WindowedSql(nested, b, e)
    case PlainQuery(sql) => sql
    case CountQuery(nested) => CountSql(nested)
  }

  /** The windowed statements run for the given lower bounds. */
  function WindowCalls(nested: string, begins: seq<int>, end: int): (calls: seq<Statement>)
    ensures |calls| == |begins|
    ensures forall i :: 0 <= i < |begins| ==> calls[i] == WindowQuery(nested, begins[i], end)
  {
    if begins == [] then [] else [WindowQuery(nested, begins[0], end)] + WindowCalls(nested, begins[1..], end)
  }

  /**
   * The optional total: asked for only when `returnTotals` is set and some record came back; then
   * the first row's `totalrecordcount` (absent when the row has no such column). A count query
   * that throws, or returns no row, fails the whole request.
   */
  function TotalRecordCount(run: Executor, nested: string, returnTotals: bool, records: seq<Row>): (r: Result<Option<Value>>)
    ensures !returnTotals || records == [] ==> r == Ok(None)
    ensures r.Err? ==> (run(CountSql(nested)).Thrown? && r.message == run(CountSql(nested)).message)
                       || (run(CountSql(nested)) == Page([]) && r.message == MissingCountRow)
    ensures r.Ok? && r.value.Some? ==>
      (returnTotals && records != [] && run(CountSql(nested)).Page? && run(CountSql(nested)).rows != []
       && r.value == Lookup(run(CountSql(nested)).rows[0], "totalrecordcount"))
    ensures returnTotals && records != [] && run(CountSql(nested)).Page? && run(CountSql(nested)).rows != [] ==>
      r == Ok(Lookup(run(CountSql(nested)).rows[0], "totalrecordcount"))
    ensures returnTotals && records != [] && run(CountSql(nested)).Thrown? ==> r == Err(run(CountSql(nested)).message)
    ensures returnTotals && records != [] && run(CountSql(nested)) == Page([]) ==> r == Err(MissingCountRow)
  {
    if returnTotals && |records| > 0 then
      match run(CountSql(nested))
      case Thrown(m) => Err(m)
      case Page(rows) => if rows == [] then Err(MissingCountRow) else Ok(Lookup(rows[0], "totalrecordcount"))
    else Ok(None)
  }

  /** The data statements run for these lower bounds: the windows with pagination on, otherwise one plain run. */
  function DataCalls(nested: string, paginationEnabled: bool, rowEnd: int, begins: seq<int>): (calls: seq<Statement>)
    ensures paginationEnabled ==> |calls| == |begins|
    ensures !paginationEnabled ==> calls == [PlainQuery(nested)]
  {
    if paginationEnabled then WindowCalls(nested, begins, rowEnd) else [PlainQuery(nested)]
  }

  /** Every statement but the last one came back with rows. */
  ghost predicate ServedBeforeLast(run: Executor, calls: seq<Statement>)
  {
    forall i :: 0 <= i < |calls| - 1 ==> run(SqlOf(calls[i])).Page?
  }

  /**
   * What the data fetch of `queryExecute` over the rewritten SQL `nested` did. `executed` lists
   * the statements run, in order: with pagination on, one window per lower bound in `begins`
   * (which starts at `rowBegin` and steps by 5000); otherwise one plain run of `nested`. Every
   * statement but the last came back; the fetch succeeds exactly when the last one did too,
   * and otherwise fails with what that one threw.
   */
  ghost predicate Fetched(run: Executor, resultOf: string -> seq<Row>, nested: string, paginationEnabled: bool,
                          rowBegin: int, rowEnd: int, outcome: Fetch, begins: seq<int>, executed: seq<Statement>)
  {
    executed == DataCalls(nested, paginationEnabled, rowEnd, begins)
    && executed != []
    && ServedBeforeLast(run, executed)
    && (outcome.Page? <==> run(SqlOf(executed[|executed| - 1])).Page?)
    && (outcome.Thrown? ==> run(SqlOf(executed[|executed| - 1])) == outcome)
    && (paginationEnabled ==>
      Strided(begins, rowBegin) && |begins| <= PageCount(resultOf(nested), rowBegin, rowEnd)
      && (outcome.Page? ==>
        outcome.rows == Paged(resultOf(nested), rowBegin, rowEnd) && |begins| == PageCount(resultOf(nested), rowBegin, rowEnd)))
    && (!paginationEnabled ==> begins == [] && outcome == run(nested))
  }

  /** The windows read before the last one all came back with rows. */
  lemma WindowCallsServed(run: Executor, nested: string, rowEnd: int, window: WindowRun, begins: seq<int>)
    requires forall b, e :: window(b, e) == run(WindowedSql(nested, b, e))
    requires begins != [] && AllServed(window, begins[..|begins| - 1], rowEnd)
    ensures ServedBeforeLast(run, WindowCalls(nested, begins, rowEnd))
  {
    var calls := WindowCalls(nested, begins, rowEnd);
    forall i | 0 <= i < |calls| - 1
      ensures run(SqlOf(calls[i])).Page?
    {
      assert begins[..|begins| - 1][i] == begins[i];
    }
  }

  /** The data fetch: the windowed loop with pagination on, otherwise one plain run. */
  method FetchRecords(run: Executor, nested: string, paginationEnabled: bool, rowBegin: int, rowEnd: int,
                      ghost resultOf: string -> seq<Row>)
    returns (outcome: Fetch, ghost begins: seq<int>, ghost executed: seq<Statement>)
    requires ServesWindows(run, resultOf)
    ensures paginationEnabled && outcome.Page? ==> outcome.rows == Paged(resultOf(nested), rowBegin, rowEnd)
    ensures !paginationEnabled ==> outcome == run(nested)
    ensures Fetched(run, resultOf, nested, paginationEnabled, rowBegin, rowEnd, outcome, begins, executed)
  {
    if paginationEnabled {
      var window := (b: int, e: int) => run(WindowedSql(nested, b, e));
      assert Serves(window, resultOf(nested));
      outcome, begins := FetchPages(window, rowBegin, rowEnd, resultOf(nested));
      executed := WindowCalls(nested, begins, rowEnd);
      WindowCallsServed(run, nested, rowEnd, window, begins);
      assert window(begins[|begins| - 1], rowEnd) == run(SqlOf(executed[|executed| - 1]));
    } else {
      outcome := run(nested);
      begins, executed := [], [PlainQuery(nested)];
    }
  }

  /** The rows of the data fetch when it succeeds: the paged rows, or the rows of the plain run. */
  ghost function DataRows(run: Executor, resultOf: string -> seq<Row>, nested: string, request: QueryRequest): seq<Row>
  {
    if request.paginationEnabled then Paged(resultOf(nested), request.rowBegin, request.rowEnd)
    else if run(nested).Page? then run(nested).rows
    else []
  }

  /**
   * What `queryExecute` promises once the SQL has been rewritten to `nested`. The data
   * statements are those of the fetch (`begins` gives the lower bounds of the windows), every
   * one but the last came back, and the fetch succeeded exactly when the last one did; a
   * successful paginated fetch stopped only after its short page, PageCount windows in all. After
   * a successful fetch the count query runs, as the last statement, exactly when totals were
   * asked for and some record came back; the response is then the records with the optional
   * total, or the count's failure. After a failed fetch nothing more runs and the response is
   * only what the last data statement threw.
   */
  ghost predicate Answered(run: Executor, resultOf: string -> seq<Row>, nested: string, request: QueryRequest,
                           response: QueryResponse, begins: seq<int>, executed: seq<Statement>)
  {
    var calls := DataCalls(nested, request.paginationEnabled, request.rowEnd, begins);
    var rows := DataRows(run, resultOf, nested, request);
    calls != []
    && ServedBeforeLast(run, calls)
    && (request.paginationEnabled ==>
      Strided(begins, request.rowBegin) && |begins| <= PageCount(resultOf(nested), request.rowBegin, request.rowEnd)
      && (run(SqlOf(calls[|calls| - 1])).Page? ==> |begins| == PageCount(resultOf(nested), request.rowBegin, request.rowEnd)))
    && (!request.paginationEnabled ==> begins == [])
    && (run(SqlOf(calls[|calls| - 1])).Page? ==>
      executed == calls + (if request.returnTotals && rows != [] then [CountQuery(nested)] else [])
      && response == (match TotalRecordCount(run, nested, request.returnTotals, rows)
                      case Ok(total) => Records(rows, total)
                      case Err(m) => Failed(m)))
    && (run(SqlOf(calls[|calls| - 1])).Thrown? ==>
      executed == calls && response == Failed(run(SqlOf(calls[|calls| - 1])).message))
  }

  /** `queryExecute` after the rewrite: fetch the records, then the optional total. */
  method RunRewritten(run: Executor, ghost resultOf: string -> seq<Row>, nested: string, request: QueryRequest)
    returns (response: QueryResponse, ghost begins: seq<int>, ghost executed: seq<Statement>)
    requires ServesWindows(run, resultOf)
    ensures response.Records? && request.paginationEnabled ==>
      response.records == Paged(resultOf(nested), request.rowBegin, request.rowEnd)
    ensures response.Records? && !request.paginationEnabled ==> run(nested) == Page(response.records)
    ensures response.Records? ==> TotalRecordCount(run, nested, request.returnTotals, response.records) == Ok(response.totalRecordCount)
    ensures Answered(run, resultOf, nested, request, response, begins, executed)
  {
    var fetched;
    fetched, begins, executed := FetchRecords(run, nested, request.paginationEnabled, request.rowBegin, request.rowEnd, resultOf);
    if fetched.Thrown? {
      FailedFetchAnswered(run, resultOf, nested, request, fetched, begins, executed);
      return Failed(fetched.message), begins, executed;
    }
    var records := fetched.rows;
    var total := TotalRecordCount(run, nested, request.returnTotals, records);
    ghost var data := executed;
    if request.returnTotals && |records| > 0 {
      executed := executed + [CountQuery(nested)];
    }
    if total.Err? {
      response := Failed(total.message);
    } else {
      response := Records(records, total.value);
    }
    FetchedAnswered(run, resultOf, nested, request, records, begins, data);
  }

  /** A data statement that threw leaves only its message. */
  lemma FailedFetchAnswered(run: Executor, resultOf: string -> seq<Row>, nested: string, request: QueryRequest,
                            fetched: Fetch, begins: seq<int>, executed: seq<Statement>)
    requires Fetched(run, resultOf, nested, request.paginationEnabled, request.rowBegin, request.rowEnd, fetched, begins, executed)
    requires fetched.Thrown?
    ensures Answered(run, resultOf, nested, request, Failed(fetched.message), begins, executed)
  {
  }

  /**
   * Rows that came back are answered with the optional total, the count query running last
   * exactly when it is asked for; a failing count leaves only its error.
   */
  lemma FetchedAnswered(run: Executor, resultOf: string -> seq<Row>, nested: string, request: QueryRequest,
                        records: seq<Row>, begins: seq<int>, data: seq<Statement>)
    requires Fetched(run, resultOf, nested, request.paginationEnabled, request.rowBegin, request.rowEnd, Page(records), begins, data)
    ensures records == DataRows(run, resultOf, nested, request)
    ensures var total := TotalRecordCount(run, nested, request.returnTotals, records);
      Answered(run, resultOf, nested, request,
               if total.Err? then Failed(total.message) else Records(records, total.value), begins,
               if request.returnTotals && records != [] then data + [CountQuery(nested)] else data)
  {
  }

  /**
   * `queryExecute`: rewrite the views, then run. A view that does not resolve fails the request
   * before any data statement runs.
   */
  method QueryExecute(config: Config, request: QueryRequest, folder: Folder, run: Executor, ghost resultOf: string -> seq<Row>)
    returns (response: QueryResponse, ghost begins: seq<int>, ghost executed: seq<Statement>)
    requires ServesWindows(run, resultOf)
    ensures Rewritten(config, request, folder).Err? ==> response == Failed(Rewritten(config, request, folder).message)
    ensures Rewritten(config, request, folder).Ok? && response.Records? ==>
      var nested := Rewritten(config, request, folder).value;
      (request.paginationEnabled ==> response.records == Paged(resultOf(nested), request.rowBegin, request.rowEnd))
      && (!request.paginationEnabled ==> run(nested) == Page(response.records))
      && TotalRecordCount(run, nested, request.returnTotals, response.records) == Ok(response.totalRecordCount)
    ensures Rewritten(config, request, folder).Err? ==> executed == []
    ensures Rewritten(config, request, folder).Ok? ==>
      Answered(run, resultOf, Rewritten(config, request, folder).value, request, response, begins, executed)
  {
    ghost var lookups;
    var nestedSQL;
    nestedSQL, lookups := RewriteViews(request.query, request.viewsEnabled, config.queryFolderID, folder);
    if nestedSQL.Err? {
      return Failed(nestedSQL.message), [], [];
    }
    response, begins, executed := RunRewritten(run, resultOf, nestedSQL.value, request);
  }

  /** The document windows read before the last one all came back with rows. */
  lemma DocumentWindowsServed(run: Executor, query: string, rowEnd: int, window: WindowRun, begins: seq<int>)
    requires forall b, e :: window(b, e) == run(DocumentSql(query, b, e))
    requires begins != [] && AllServed(window, begins[..|begins| - 1], rowEnd)
    ensures forall i :: 0 <= i < |begins| - 1 ==> run(DocumentSql(query, begins[i], rowEnd)).Page?
  {
    forall i | 0 <= i < |begins| - 1
      ensures run(DocumentSql(query, begins[i], rowEnd)).Page?
    {
      assert begins[..|begins| - 1][i] == begins[i];
    }
  }

  /**
   * The fetch loop of `documentGenerate`: the stored query (never view-rewritten) is fetched
   * window by window from `rowBegin` with upper bound `rowEnd`; the rows go to the renderer,
   * or the error is written out instead.
   */
  method DocumentGenerate(query: string, rowBegin: int, rowEnd: int, run: Executor, ghost resultOf: string -> seq<Row>)
    returns (records: Result<seq<Row>>, ghost begins: seq<int>)
    requires ServesDocuments(run, resultOf)
    ensures records.Ok? ==> records.value == Paged(resultOf(query), rowBegin, rowEnd)
    ensures records.Err? ==> exists b :: run(DocumentSql(query, b, rowEnd)) == Thrown(records.message)
    ensures Strided(begins, rowBegin) && |begins| <= PageCount(resultOf(query), rowBegin, rowEnd)
    ensures forall i :: 0 <= i < |begins| - 1 ==> run(DocumentSql(query, begins[i], rowEnd)).Page?
    ensures records.Ok? <==> run(DocumentSql(query, begins[|begins| - 1], rowEnd)).Page?
    ensures records.Err? ==> run(DocumentSql(query, begins[|begins| - 1], rowEnd)) == Thrown(records.message)
    ensures records.Ok? ==> |begins| == PageCount(resultOf(query), rowBegin, rowEnd)
  {
    var window := (b: int, e: int) => run(DocumentSql(query, b, e));
    assert Serves(window, resultOf(query));
    var fetched;
    fetched, begins := FetchPages(window, rowBegin, rowEnd, resultOf(query));
    DocumentWindowsServed(run, query, rowEnd, window, begins);
    ghost var last := begins[|begins| - 1];
    assert window(last, rowEnd) == run(DocumentSql(query, last, rowEnd));
    if fetched.Thrown? {
      assert run(DocumentSql(query, last, rowEnd)) == Thrown(fetched.message);
      return Err(fetched.message), begins;
    }
    records := Ok(fetched.rows);
  }
}
