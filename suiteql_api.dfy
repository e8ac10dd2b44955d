// The SuiteQL RESTlet: an RPC-style `post` entry point that dispatches on `function` to an
// unpaged SuiteQL run, a paged SuiteQL run, or an unpaged saved-search run, and turns every
// failure into an `{ error }` reply.

module SuiteQLApi {
  import opened Rows

  /** The request body; absent properties are None. */
  datatype Request = Request(
    functionName: Option<string>,  // the `function` property
    sql: Option<string>,
    pageSize: Option<int>,
    pageNumber: Option<int>,
    searchId: Option<string>)

  /** The JSON the RESTlet answers with. */
  datatype Reply =
    | Items(items: seq<Row>)
    | PagedItems(result: PagedResult)
    | Error(error: string)

  datatype PagedResult = PagedResult(
    totalResults: int,
    count: int,
    offset: int,
    hasMore: bool,
    pageSize: int,
    pageNumber: int,
    items: seq<Row>)

  const NoFunction := "No function was specified."
  const UnsupportedFunction := "Unsupported function."
  const NoSql := "No SQL specified."
  const NoSavedSearch := "No saved search specified."

  /** The largest page the paged handler asks for by default. */
  const MaxPageSize := 5000

  /** The width of one saved-search range. */
  const RangeSize := 1000

  /** A request property that is present and not the empty string. */
  predicate Specified(s: Option<string>)
  {
    s.Some? && s.value != ""
  }

  // ---------------------------------------------------------------------------------------
  // The host

  /**
   * What fetching one page of a paged query gives: its rows and whether it is the last page,
   * or the message of what the fetch threw.
   */
  datatype PageData = PageData(rows: seq<Row>, isLast: bool) | FetchThrows(message: string)

  /**
   * What the host's paged run gives back: the total row count, the page size it settled on
   * and its pages (one per page range); or the message of what it threw.
   */
  datatype PagedOutcome = Handle(count: int, pageSize: int, pages: seq<PageData>) | Failure(message: string)

  /** The host's `query.runSuiteQLPaged` for a query and a requested page size. */
  type PagedRun = (string, int) -> PagedOutcome

  /**
   * A handle whose pages are consistent: every page can be fetched, every page but the last is
   * full, and only the last is marked last.
   */
  ghost predicate WellFormedHandle(h: PagedOutcome)
    requires h.Handle?
  {
    h.pageSize >= 0
    && (forall i :: 0 <= i < |h.pages| ==> h.pages[i].PageData?)
    && (forall i :: 0 <= i < |h.pages| - 1 ==> |h.pages[i].rows| == h.pageSize && !h.pages[i].isLast)
    && (|h.pages| > 0 ==> h.pages[|h.pages| - 1].isLast)
  }

  // ---------------------------------------------------------------------------------------
  // sqlRunUnpaged

  /** `sqlRunUnpaged`: one run of the SQL, all its mapped rows (the host caps them at 5000). */
  function SqlRunUnpaged(request: Request, run: Executor): (r: Result<seq<Row>>)
    ensures !Specified(request.sql) ==> r == Err(NoSql)
    ensures Specified(request.sql) ==>
      (r.Ok? <==> run(request.sql.value).Page?)
      && (r.Ok? ==> r.value == run(request.sql.value).rows)
      && (r.Err? ==> r.message == run(request.sql.value).message)
  {
    if !Specified(request.sql) then Err(NoSql)
    else match run(request.sql.value)
      case Page(rows) => Ok(rows)
      case Thrown(m) => Err(m)
  }

  // ---------------------------------------------------------------------------------------
  // sqlRunPaged

  /** The page size asked of the host: 5000 when absent or negative, anything else unchanged (0 and above 5000 included). */
  function RequestedPageSize(pageSize: Option<int>): (n: int)
    ensures n >= 0
    ensures n == MaxPageSize <==> pageSize.None? || pageSize.value < 0 || pageSize.value == MaxPageSize
    ensures pageSize.Some? && pageSize.value >= 0 ==> n == pageSize.value
  {
    if pageSize.None? then MaxPageSize
    else if pageSize.value < 0 then MaxPageSize
    else pageSize.value
  }

  /** The page number asked for: 1 when absent or below 1. */
  function RequestedPageNumber(pageNumber: Option<int>): (n: int)
    ensures n >= 1
    ensures n == 1 <==> pageNumber.None? || pageNumber.value <= 1
    ensures pageNumber.Some? && pageNumber.value >= 1 ==> n == pageNumber.value
  {
    if pageNumber.None? then 1
    else if pageNumber.value < 1 then 1
    else pageNumber.value
  }

  /**
   * `sqlRunPaged`: run the SQL paged with the normalised page size and return the one page
   * asked for. A page number beyond the last page wraps to page 1; with no pages at all the
   * items are empty. The count, offset and total are derived from the handle, not from the host.
   * A paged run that throws, or a fetch of the page that throws, gives its message.
   */
  function SqlRunPaged(request: Request, runPaged: PagedRun): (r: Result<PagedResult>)
    ensures !Specified(request.sql) ==> r == Err(NoSql)
    ensures Specified(request.sql) ==>
      var h := runPaged(request.sql.value, RequestedPageSize(request.pageSize));
      var wanted := RequestedPageNumber(request.pageNumber);
      var page := if h.Handle? && wanted <= |h.pages| then wanted else 1;
      (h.Failure? ==> r == Err(h.message))
      && (h.Handle? && |h.pages| > 0 && h.pages[page - 1].FetchThrows? ==> r == Err(h.pages[page - 1].message))
      && (r.Err? <==> h.Failure? || (|h.pages| > 0 && h.pages[page - 1].FetchThrows?))
      && (r.Ok? ==>
        r.value.count == |r.value.items|
        && r.value.offset == (r.value.pageNumber - 1) * h.pageSize
        && r.value.totalResults == h.count
        && r.value.pageSize == h.pageSize
        && (|h.pages| > 0 ==>
          1 <= r.value.pageNumber <= |h.pages|
          && r.value.pageNumber == (if wanted <= |h.pages| then wanted else 1)
          && r.value.items == h.pages[r.value.pageNumber - 1].rows
          && r.value.hasMore == !h.pages[r.value.pageNumber - 1].isLast)
        && (|h.pages| == 0 ==> r.value.items == [] && !r.value.hasMore && r.value.pageNumber == wanted))
  {
    if !Specified(request.sql) then Err(NoSql)
    else
      var pageSize := RequestedPageSize(request.pageSize);
      var pageNumber := RequestedPageNumber(request.pageNumber);
      match runPaged(request.sql.value, pageSize)
      case Failure(m) => Err(m)
      case Handle(count, actualPageSize, pages) =>
        var n := if |pages| > 0 && pageNumber > |pages| then 1 else pageNumber;
        if |pages| > 0 && pages[n - 1].FetchThrows? then Err(pages[n - 1].message)
        else
          var items := if |pages| > 0 then pages[n - 1].rows else [];
          var hasMore := if |pages| > 0 then !pages[n - 1].isLast else false;
          Ok(PagedResult(count, |items|, (n - 1) * actualPageSize, hasMore, actualPageSize, n, items))
  }

  /** The number of rows on the first `k` pages. */
  function RowsBefore(pages: seq<PageData>, k: nat): nat
    requires k <= |pages|
    requires forall i :: 0 <= i < k ==> pages[i].PageData?
  {
    if k == 0 then 0 else RowsBefore(pages, k - 1) + |pages[k - 1].rows|
  }

  lemma {:induction false} FullPagesBefore(h: PagedOutcome, k: nat)
    requires h.Handle? && WellFormedHandle(h) && k < |h.pages|
    ensures RowsBefore(h.pages, k) == k * h.pageSize
    decreases k
  {
    if k > 0 {
      FullPagesBefore(h, k - 1);
      assert |h.pages[k - 1].rows| == h.pageSize;
    }
  }

  /**
   * Over a consistent handle the arithmetic offset is the number of rows on the pages before
   * the one returned, and `hasMore` says exactly that later pages exist.
   */
  lemma OffsetCountsEarlierRows(request: Request, runPaged: PagedRun)
    requires Specified(request.sql)
    requires var h := runPaged(request.sql.value, RequestedPageSize(request.pageSize));
      h.Handle? && WellFormedHandle(h) && |h.pages| > 0
    ensures var h := runPaged(request.sql.value, RequestedPageSize(request.pageSize));
      var r := SqlRunPaged(request, runPaged);
      r.Ok? && r.value.offset == RowsBefore(h.pages, r.value.pageNumber - 1)
      && (r.value.hasMore <==> r.value.pageNumber < |h.pages|)
  {
    var h := runPaged(request.sql.value, RequestedPageSize(request.pageSize));
    var r := SqlRunPaged(request, runPaged);
    FullPagesBefore(h, r.value.pageNumber - 1);
  }

  // ---------------------------------------------------------------------------------------
  // savedSearchRunUnpaged

  /** The host's `getRange` on the loaded search `searchId`: rows [start, end). */
  type RangeRun = (string, int, int) -> Fetch

  /** The rows of `results` whose index lies in [start, end). */
  function Range(results: seq<Row>, start: int, end: int): seq<Row>
  {
    var lo := if start < 0 then 0 else if start > |results| then |results| else start;
    var hi := if end < lo then lo else if end > |results| then |results| else end;
    results[lo..hi]
  }

  /** Every range the host does not reject is the slice of the search's result list `resultsOf(id)`. */
  ghost predicate ServesRanges(getRange: RangeRun, resultsOf: string -> seq<Row>)
  {
    forall id, s, e :: getRange(id, s, e).Page? ==> getRange(id, s, e).rows == Range(resultsOf(id), s, e)
  }

  /** The number of ranges read when none fails: one per started thousand, plus the empty one that stops the loop. */
  function RangeCount(total: nat): nat
  {
    (total + RangeSize - 1) / RangeSize + 1
  }

  /**
   * `savedSearchRunUnpaged`: load the search (`loadFailure(id)` is the message when loading
   * throws), then read ranges of 1000 from 0 on until one comes back empty. The result is
   * every row of the search in order; a failing range fails the whole request. `starts` lists
   * the start of every range read.
   */
  method SavedSearchRunUnpaged(searchId: Option<string>, loadFailure: string -> Option<string>,
                               getRange: RangeRun, ghost resultsOf: string -> seq<Row>)
    returns (r: Result<seq<Row>>, ghost starts: seq<int>)
    requires ServesRanges(getRange, resultsOf)
    ensures !Specified(searchId) ==> r == Err(NoSavedSearch)
    ensures Specified(searchId) && loadFailure(searchId.value).Some? ==> r == Err(loadFailure(searchId.value).value)
    ensures r.Ok? ==> Specified(searchId) && r.value == resultsOf(searchId.value)
    ensures !Specified(searchId) || loadFailure(searchId.value).Some? ==> starts == []
    ensures forall k :: 0 <= k < |starts| ==> starts[k] == k * RangeSize
    ensures r.Ok? ==> |starts| == RangeCount(|resultsOf(searchId.value)|)
    ensures Specified(searchId) ==> |starts| <= RangeCount(|resultsOf(searchId.value)|)
    ensures r.Err? && starts != [] ==>
      getRange(searchId.value, starts[|starts| - 1], starts[|starts| - 1] + RangeSize) == Thrown(r.message)
    ensures Specified(searchId) && loadFailure(searchId.value).None? ==> RangesRead(getRange, searchId.value, r.Ok?, starts)
  {
    if !Specified(searchId) {
      return Err(NoSavedSearch), [];
    }
    var id := searchId.value;
    var failure := loadFailure(id);
    if failure.Some? {
      return Err(failure.value), [];
    }
    r, starts := ReadRanges(id, getRange, resultsOf(id));
  }

  /** The range starting at `start` came back, and it was not empty, so the loop went on. */
  ghost predicate Continued(getRange: RangeRun, id: string, start: int)
  {
    getRange(id, start, start + RangeSize).Page? && getRange(id, start, start + RangeSize).rows != []
  }

  /**
   * Once the search has loaded, at least one range is read; every range before the last one
   * came back non-empty, and the call succeeds exactly when the last one came back (empty).
   */
  ghost predicate RangesRead(getRange: RangeRun, id: string, succeeded: bool, starts: seq<int>)
  {
    starts != []
    && (forall k :: 0 <= k < |starts| - 1 ==> Continued(getRange, id, starts[k]))
    && (succeeded <==> getRange(id, starts[|starts| - 1], starts[|starts| - 1] + RangeSize).Page?)
  }

  /** The `do ... while` over the ranges of the loaded search `id`, whose rows are `all`. */
  method ReadRanges(id: string, getRange: RangeRun, ghost all: seq<Row>)
    returns (r: Result<seq<Row>>, ghost starts: seq<int>)
    requires forall s, e :: getRange(id, s, e).Page? ==> getRange(id, s, e).rows == Range(all, s, e)
    ensures forall k :: 0 <= k < |starts| ==> starts[k] == k * RangeSize
    ensures RangesRead(getRange, id, r.Ok?, starts)
    ensures r.Ok? ==> r.value == all && |starts| == RangeCount(|all|)
    ensures |starts| <= RangeCount(|all|)
    ensures r.Err? ==> getRange(id, starts[|starts| - 1], starts[|starts| - 1] + RangeSize) == Thrown(r.message)
  {
    var items: seq<Row> := [];
    var start := 0;
    starts := [];
    while true
      invariant ReadSoFar(getRange, id, all, starts, items) && start == |starts| * RangeSize
      decreases |all| + RangeSize - start
    {
      var results := getRange(id, start, start + RangeSize);
      if results.Thrown? || results.rows == [] {
        ReadEnd(getRange, id, all, starts, items, start);
      } else {
        ReadOn(getRange, id, all, starts, items, start);
      }
      starts := starts + [start];
      if results.Thrown? {
        return Err(results.message), starts;
      }
      start := start + RangeSize;
      items := items + results.rows;
      if |results.rows| == 0 {
        break;
      }
    }
    r := Ok(items);
  }

  /**
   * The state of the loop before reading the next range: the ranges read so far start at 0,
   * 1000, 2000, ..., each came back non-empty, and `items` holds the rows they covered.
   */
  ghost predicate ReadSoFar(getRange: RangeRun, id: string, all: seq<Row>, starts: seq<int>, items: seq<Row>)
  {
    (forall k :: 0 <= k < |starts| ==> starts[k] == k * RangeSize)
    && AllServed(getRange, id, starts)
    && items == Range(all, 0, |starts| * RangeSize)
    && (starts == [] || (|starts| - 1) * RangeSize < |all|)
  }

  /** A non-empty range extends the rows read and the loop goes on. */
  lemma ReadOn(getRange: RangeRun, id: string, all: seq<Row>, starts: seq<int>, items: seq<Row>, start: int)
    requires ReadSoFar(getRange, id, all, starts, items) && start == |starts| * RangeSize
    requires getRange(id, start, start + RangeSize).Page? ==> getRange(id, start, start + RangeSize).rows == Range(all, start, start + RangeSize)
    requires Continued(getRange, id, start)
    ensures ReadSoFar(getRange, id, all, starts + [start], items + getRange(id, start, start + RangeSize).rows)
    ensures start < |all|
  {
    StartsSnoc(starts, start);
    RangeStep(all, start);
  }

  /**
   * A range that is empty or throws ends the loop: every range before it came back non-empty,
   * at most RangeCount ranges were read, and an empty one leaves exactly every row, after
   * exactly RangeCount reads.
   */
  lemma ReadEnd(getRange: RangeRun, id: string, all: seq<Row>, starts: seq<int>, items: seq<Row>, start: int)
    requires ReadSoFar(getRange, id, all, starts, items) && start == |starts| * RangeSize
    requires getRange(id, start, start + RangeSize).Page? ==> getRange(id, start, start + RangeSize).rows == Range(all, start, start + RangeSize)
    requires !Continued(getRange, id, start)
    ensures var read := starts + [start];
      (forall k :: 0 <= k < |read| ==> read[k] == k * RangeSize)
      && RangesRead(getRange, id, getRange(id, start, start + RangeSize).Page?, read)
      && |read| <= RangeCount(|all|)
      && (getRange(id, start, start + RangeSize).Page? ==>
        items + getRange(id, start, start + RangeSize).rows == all && |read| == RangeCount(|all|))
  {
    StartsSnoc(starts, start);
    LastRangeRead(getRange, id, starts, start);
    RangeBound(|all|, |starts|);
    if getRange(id, start, start + RangeSize).Page? {
      RangeStep(all, start);
      RangeCountAtStop(|all|, |starts|);
    }
  }

  /** The next range starts 1000 rows after the previous one. */
  lemma StartsSnoc(before: seq<int>, start: int)
    requires forall k :: 0 <= k < |before| ==> before[k] == k * RangeSize
    requires start == |before| * RangeSize
    ensures forall k :: 0 <= k < |before| + 1 ==> (before + [start])[k] == k * RangeSize
    ensures (before + [start])[..|before|] == before && (before + [start])[|before|] == start
  {
  }

  /** Every range read so far came back non-empty, stated range by range from the last one backwards. */
  ghost predicate AllServed(getRange: RangeRun, id: string, starts: seq<int>)
    decreases |starts|
  {
    starts != [] ==>
      AllServed(getRange, id, starts[..|starts| - 1]) && Continued(getRange, id, starts[|starts| - 1])
  }

  /** Every range of a served list came back non-empty. */
  lemma {:induction false} AllServedAt(getRange: RangeRun, id: string, starts: seq<int>)
    requires AllServed(getRange, id, starts)
    ensures forall k :: 0 <= k < |starts| ==> Continued(getRange, id, starts[k])
    decreases |starts|
  {
    if starts != [] {
      var init := starts[..|starts| - 1];
      AllServedAt(getRange, id, init);
      assert forall k :: 0 <= k < |init| ==> starts[k] == init[k];
    }
  }

  /**
   * A range that is empty or throws, after ranges that all came back non-empty, ends the
   * reading: as a success when it came back, as a failure when it threw.
   */
  lemma LastRangeRead(getRange: RangeRun, id: string, before: seq<int>, start: int)
    requires AllServed(getRange, id, before)
    ensures RangesRead(getRange, id, getRange(id, start, start + RangeSize).Page?, before + [start])
  {
    var starts := before + [start];
    AllServedAt(getRange, id, before);
    assert forall k :: 0 <= k < |starts| - 1 ==> starts[k] == before[k];
  }

  /** A range read while the earlier ones were all non-empty is within the RangeCount reads. */
  lemma RangeBound(total: nat, k: nat)
    requires k == 0 || (k - 1) * RangeSize < total
    ensures k + 1 <= RangeCount(total)
  {
  }

  /** Reading the next range extends the rows read so far by that range; a range starting past the end is empty. */
  lemma RangeStep(all: seq<Row>, start: nat)
    ensures Range(all, 0, start) + Range(all, start, start + RangeSize) == Range(all, 0, start + RangeSize)
    ensures Range(all, start, start + RangeSize) == [] <==> start >= |all|
    ensures start >= |all| ==> Range(all, 0, start) == all
  {
  }

  /** The loop stops at the first range starting at or past the end: that is range number RangeCount - 1. */
  lemma RangeCountAtStop(total: nat, k: nat)
    requires k * RangeSize >= total && (k == 0 || (k - 1) * RangeSize < total)
    ensures k + 1 == RangeCount(total)
  {
  }

  // ---------------------------------------------------------------------------------------
  // post

  /**
   * `post`: dispatch on `function`. A missing or empty name and an unknown name are errors;
   * every failure of a handler comes back as an `{ error }` reply rather than being thrown.
   */
  method Post(request: Request, run: Executor, runPaged: PagedRun, loadFailure: string -> Option<string>,
              getRange: RangeRun, ghost resultsOf: string -> seq<Row>)
    returns (reply: Reply, ghost starts: seq<int>)
    requires ServesRanges(getRange, resultsOf)
    ensures !Specified(request.functionName) ==> reply == Error(NoFunction)
    ensures (Specified(request.functionName)
             && request.functionName.value !in {"sqlRunUnpaged", "sqlRunPaged", "savedSearchRunUnpaged"}) ==>
      reply == Error(UnsupportedFunction)
    ensures request.functionName == Some("sqlRunUnpaged") ==>
      match SqlRunUnpaged(request, run)
      case Ok(items) => reply == Items(items)
      case Err(m) => reply == Error(m)
    ensures request.functionName == Some("sqlRunPaged") ==>
      match SqlRunPaged(request, runPaged)
      case Ok(result) => reply == PagedItems(result)
      case Err(m) => reply == Error(m)
    ensures request.functionName == Some("savedSearchRunUnpaged") ==>
      (!Specified(request.searchId) ==> reply == Error(NoSavedSearch))
      && (reply.Items? ==> Specified(request.searchId) && reply.items == resultsOf(request.searchId.value))
      && !reply.PagedItems?
    ensures request.functionName == Some("savedSearchRunUnpaged") && Specified(request.searchId) ==>
      var id := request.searchId.value;
      (loadFailure(id).Some? ==> reply == Error(loadFailure(id).value) && starts == [])
      && (forall k :: 0 <= k < |starts| ==> starts[k] == k * RangeSize)
      && |starts| <= RangeCount(|resultsOf(id)|)
      && (reply.Items? ==> |starts| == RangeCount(|resultsOf(id)|))
      && (loadFailure(id).None? ==>
        RangesRead(getRange, id, reply.Items?, starts)
        && (reply.Error? ==> getRange(id, starts[|starts| - 1], starts[|starts| - 1] + RangeSize) == Thrown(reply.error)))
    ensures request.functionName != Some("savedSearchRunUnpaged") ==> starts == []
  {
    starts := [];
    if !Specified(request.functionName) {
      return Error(NoFunction), starts;
    }
    var name := request.functionName.value;
    if name == "sqlRunUnpaged" {
      var r := SqlRunUnpaged(request, run);
      reply := if r.Ok? then Items(r.value) else Error(r.message);
    } else if name == "sqlRunPaged" {
      var r := SqlRunPaged(request, runPaged);
      reply := if r.Ok? then PagedItems(r.value) else Error(r.message);
    } else if name == "savedSearchRunUnpaged" {
      var r;
      r, starts := SavedSearchRunUnpaged(request.searchId, loadFailure, getRange, resultsOf);
      reply := if r.Ok? then Items(r.value) else Error(r.message);
    } else {
      reply := Error(UnsupportedFunction);
    }
  }
}
