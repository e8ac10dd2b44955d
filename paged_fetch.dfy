// The windowed fetch loop shared by the query tool's `queryExecute` and `documentGenerate`
// and by the employee directory's `queryExecute`: run the query wrapped as
// `... WHERE ROWNUMBER BETWEEN begin AND end`, append the page, move `begin` on by 5000,
// and stop after the first page with fewer than 5000 rows.

module PagedFetch {
  import opened Rows

  /** The host's per-call row ceiling, which is also the loop's "page is full" threshold and stride. */
  const PageLimit := 5000

  function Min(a: int, b: int): int { if a <= b then a else b }

  /**
   * What the host returns for the windowed query over the numbered result set `data`
   * (row k of `data` has ROWNUMBER k + 1): the rows whose number lies in [begin, end],
   * at most PageLimit of them, in order.
   */
  function Window(data: seq<Row>, begin: int, end: int): (page: seq<Row>)
    ensures |page| <= PageLimit
    ensures |page| == PageLimit ==> begin + PageLimit <= |data| + 1
  {
    var lo := if begin < 1 then 0 else begin - 1;
    var hi := Min(Min(end, |data|), lo + PageLimit);
    if lo < hi then data[lo..hi] else []
  }

  /**
   * One call of the host for the window [b, e]: the caller builds the windowed SQL text for
   * those bounds and hands it to the host's query primitive.
   */
  type WindowRun = (int, int) -> Fetch

  /** The host answers every windowed query it does not reject from the one numbered result set `data`. */
  ghost predicate Serves(window: WindowRun, data: seq<Row>)
  {
    forall b, e :: window(b, e).Page? ==> window(b, e).rows == Window(data, b, e)
  }

  /** The rows the loop accumulates when no call throws: page after page until a short one. */
  function Paged(data: seq<Row>, begin: int, end: int): seq<Row>
    decreases |data| + PageLimit - begin
  {
    var page := Window(data, begin, end);
    if |page| < PageLimit then page else page + Paged(data, begin + PageLimit, end)
  }

  /** The number of calls the loop makes when no call throws. */
  function PageCount(data: seq<Row>, begin: int, end: int): (n: nat)
    ensures n >= 1
    decreases |data| + PageLimit - begin
  {
    if |Window(data, begin, end)| < PageLimit then 1 else 1 + PageCount(data, begin + PageLimit, end)
  }

  /** The rows numbered `begin` through `end` (for `begin >= 1`): what the caller asks for. */
  function RowRange(data: seq<Row>, begin: int, end: int): seq<Row>
    requires begin >= 1
  {
    var hi := Min(end, |data|);
    if begin - 1 < hi then data[begin - 1..hi] else []
  }

  /** The lower bounds of successive calls: `rowBegin` first, then 5000 further on each time. */
  ghost predicate Strided(begins: seq<int>, rowBegin: int)
    decreases |begins|
  {
    begins != [] && begins[0] == rowBegin && (|begins| == 1 || Strided(begins[1..], rowBegin + PageLimit))
  }

  /** Every call made with these lower bounds (and upper bound `end`) returned rows. */
  ghost predicate AllServed(window: WindowRun, begins: seq<int>, end: int)
  {
    forall i :: 0 <= i < |begins| ==> window(begins[i], end).Page?
  }

  /**
   * The loop itself. `begins` records the lower bound of every call made, in order; the upper
   * bound of every call is `rowEnd`. Either every call succeeds and the result is
   * Paged(data, rowBegin, rowEnd) after PageCount calls, or the last call made threw, every
   * earlier one succeeded, and what it threw is the outcome: no partial row list is ever returned.
   */
  method FetchPages(window: WindowRun, rowBegin: int, rowEnd: int, ghost data: seq<Row>)
    returns (outcome: Fetch, ghost begins: seq<int>)
    requires Serves(window, data)
    ensures outcome.Page? ==> outcome.rows == Paged(data, rowBegin, rowEnd)
    ensures Strided(begins, rowBegin) && |begins| <= PageCount(data, rowBegin, rowEnd)
    ensures AllServed(window, begins[..|begins| - 1], rowEnd)
    ensures outcome == if outcome.Page? then Page(Paged(data, rowBegin, rowEnd))
                       else window(begins[|begins| - 1], rowEnd)
    ensures outcome.Page? <==> window(begins[|begins| - 1], rowEnd).Page?
    ensures outcome.Page? ==> |begins| == PageCount(data, rowBegin, rowEnd)
  {
    var moreRecords := true;
    var records: seq<Row> := [];
    var paginatedRowBegin := rowBegin;
    begins := [];
    while moreRecords
      invariant Strided(begins + [paginatedRowBegin], rowBegin)
      invariant AllServed(window, begins, rowEnd)
      invariant moreRecords ==>
        (records + Paged(data, paginatedRowBegin, rowEnd) == Paged(data, rowBegin, rowEnd)
         && |begins| + PageCount(data, paginatedRowBegin, rowEnd) == PageCount(data, rowBegin, rowEnd))
      invariant !moreRecords ==> records == Paged(data, rowBegin, rowEnd) && |begins| == PageCount(data, rowBegin, rowEnd)
      decreases moreRecords, |data| + PageLimit - paginatedRowBegin
    {
      var queryResults := window(paginatedRowBegin, rowEnd);
      ghost var before := begins;
      begins := begins + [paginatedRowBegin];
      if queryResults.Thrown? {
        assert begins[..|begins| - 1] == before;
        outcome := queryResults;
        return;
      }
      assert queryResults.rows == Window(data, paginatedRowBegin, rowEnd);
      StridedSnoc(begins, rowBegin, paginatedRowBegin + PageLimit);
      ServedSnoc(window, before, paginatedRowBegin, rowEnd);
      LoopStep(data, records, |before|, paginatedRowBegin, rowBegin, rowEnd);
      records := records + queryResults.rows;
      if |queryResults.rows| < PageLimit {
        moreRecords := false;
      }
      paginatedRowBegin := paginatedRowBegin + PageLimit;
    }
    outcome := Page(records);
    StridedPrefix(begins, paginatedRowBegin, rowBegin);
    assert begins[..|begins| - 1] <= begins;
  }

  /** The next lower bound keeps the stride. */
  lemma {:induction false} StridedSnoc(begins: seq<int>, rowBegin: int, next: int)
    requires Strided(begins, rowBegin) && next == begins[|begins| - 1] + PageLimit
    ensures Strided(begins + [next], rowBegin)
    decreases |begins|
  {
    assert (begins + [next])[1..] == begins[1..] + [next];
    if |begins| > 1 {
      StridedSnoc(begins[1..], rowBegin + PageLimit, next);
    }
  }

  /** Dropping the bound not yet used keeps the stride. */
  lemma {:induction false} StridedPrefix(begins: seq<int>, next: int, rowBegin: int)
    requires begins != [] && Strided(begins + [next], rowBegin)
    ensures Strided(begins, rowBegin)
    decreases |begins|
  {
    assert (begins + [next])[1..] == begins[1..] + [next];
    if |begins| > 1 {
      StridedPrefix(begins[1..], next, rowBegin + PageLimit);
    }
  }

  /** One more call that returned rows. */
  lemma ServedSnoc(window: WindowRun, begins: seq<int>, next: int, end: int)
    requires AllServed(window, begins, end) && window(next, end).Page?
    ensures AllServed(window, begins + [next], end)
  {
  }

  /** What one turn of the loop does to the rows and the call count still to come. */
  lemma LoopStep(data: seq<Row>, records: seq<Row>, calls: nat, begin: int, rowBegin: int, end: int)
    requires records + Paged(data, begin, end) == Paged(data, rowBegin, end)
    requires calls + PageCount(data, begin, end) == PageCount(data, rowBegin, end)
    ensures |Window(data, begin, end)| < PageLimit ==>
      records + Window(data, begin, end) == Paged(data, rowBegin, end)
      && calls + 1 == PageCount(data, rowBegin, end)
    ensures |Window(data, begin, end)| == PageLimit ==>
      (records + Window(data, begin, end)) + Paged(data, begin + PageLimit, end) == Paged(data, rowBegin, end)
      && (calls + 1) + PageCount(data, begin + PageLimit, end) == PageCount(data, rowBegin, end)
  {
    PagedStep(data, begin, end);
    if |Window(data, begin, end)| == PageLimit {
      AppendAssoc(records, Window(data, begin, end), Paged(data, begin + PageLimit, end));
    }
  }

  lemma AppendAssoc<T>(a: seq<T>, b: seq<T>, c: seq<T>)
    ensures a + (b + c) == (a + b) + c
  {
  }

  /** One turn of the loop: the first page, then (when it is full) the rest from the next window on. */
  lemma PagedStep(data: seq<Row>, begin: int, end: int)
    ensures |Window(data, begin, end)| < PageLimit ==>
      Paged(data, begin, end) == Window(data, begin, end) && PageCount(data, begin, end) == 1
    ensures |Window(data, begin, end)| == PageLimit ==>
      Paged(data, begin, end) == Window(data, begin, end) + Paged(data, begin + PageLimit, end) &&
      PageCount(data, begin, end) == 1 + PageCount(data, begin + PageLimit, end)
  {
  }

  /** For a caller's window starting at row 1 or later, the loop returns exactly the rows of that window. */
  lemma {:induction false} PagedIsRowRange(data: seq<Row>, begin: int, end: int)
    requires begin >= 1
    ensures Paged(data, begin, end) == RowRange(data, begin, end)
    decreases |data| + PageLimit - begin
  {
    var page := Window(data, begin, end);
    if |page| == PageLimit {
      PagedIsRowRange(data, begin + PageLimit, end);
      var hi := Min(end, |data|);
      assert page == data[begin - 1..begin - 1 + PageLimit];
      assert RowRange(data, begin, end) == page + RowRange(data, begin + PageLimit, end);
    }
  }

  /**
   * For a window starting at row 1 or later the loop makes one call per full page plus one:
   * ceil(n / 5000) calls when the window holds n rows and 5000 does not divide n, and
   * n / 5000 + 1 when it does (the last, empty page is still fetched).
   */
  lemma {:induction false} PageCountFormula(data: seq<Row>, begin: int, end: int)
    requires begin >= 1
    ensures PageCount(data, begin, end) == |RowRange(data, begin, end)| / PageLimit + 1
    decreases |data| + PageLimit - begin
  {
    var page := Window(data, begin, end);
    if |page| == PageLimit {
      PageCountFormula(data, begin + PageLimit, end);
      assert |RowRange(data, begin, end)| == PageLimit + |RowRange(data, begin + PageLimit, end)|;
    } else {
      assert |RowRange(data, begin, end)| == |page|;
    }
  }

  /**
   * With the upper bound fixed at PageLimit and the lower bound starting at 1, the second window
   * [5001, 5000] is empty: the loop returns the first min(5000, |data|) rows and makes at most two
   * calls, the second one only when the first page came back full.
   */
  lemma FixedUpperBoundStopsAtFirstPage(data: seq<Row>)
    ensures Paged(data, 1, PageLimit) == data[..Min(PageLimit, |data|)]
    ensures PageCount(data, 1, PageLimit) <= 2
    ensures PageCount(data, 1, PageLimit) == 2 <==> |data| >= PageLimit
  {
    PagedIsRowRange(data, 1, PageLimit);
    PageCountFormula(data, 1, PageLimit);
    assert RowRange(data, 1, PageLimit) == data[..Min(PageLimit, |data|)];
  }

  /**
   * A lower bound of 0 (which the form lets through: it only rejects non-integers) makes the
   * second window start at 5000, so row 5000 comes back twice when the window reaches past it.
   */
  lemma RowBeginZeroRepeatsRow5000(data: seq<Row>, end: int)
    requires |data| > PageLimit && end > PageLimit
    ensures |Paged(data, 0, end)| > PageLimit
    ensures Paged(data, 0, end)[PageLimit - 1] == data[PageLimit - 1] == Paged(data, 0, end)[PageLimit]
  {
    var first := Window(data, 0, end);
    assert |first| == PageLimit;
    var rest := Paged(data, PageLimit, end);
    assert Paged(data, 0, end) == first + rest;
    PagedIsRowRange(data, PageLimit, end);
    assert rest[0] == data[PageLimit - 1];
  }
}
