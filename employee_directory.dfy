// The employee directory's shared library: `recordsTableGenerate` (an HTML table over mapped
// rows, optionally without the ROWNUMBER column) and `queryExecute` (the windowed fetch loop
// with its upper bound fixed at 5000).

module EmployeeDirectory {
  import opened Text
  import opened Rows
  import opened PagedFetch

  // ---------------------------------------------------------------------------------------
  // recordsTableGenerate

  const RowNumberColumn := "rownumber"
  const HeadOpen := "<thead class=\"thead-light\">"

  /** Whether column `name` is shown: every column, or with `excludeRowNumber` all but those whose lower-case name is `rownumber`. */
  predicate Shown(name: string, excludeRowNumber: bool)
  {
    !excludeRowNumber || LowerCase(name) != RowNumberColumn
  }

  /** The columns of the table: the shown keys of the first record, in key order. */
  function ShownColumns(keys: seq<string>, excludeRowNumber: bool): (columns: seq<string>)
    ensures |columns| <= |keys|
    ensures !excludeRowNumber ==> columns == keys
    decreases |keys|
  {
    if keys == [] then []
    else
      var init := ShownColumns(keys[..|keys| - 1], excludeRowNumber);
      if Shown(keys[|keys| - 1], excludeRowNumber) then init + [keys[|keys| - 1]] else init
  }

  /** Exactly the keys not named `rownumber` (in any letter case) are kept when excluding, and nothing else is dropped. */
  lemma {:induction false} ShownColumnsMembers(keys: seq<string>, excludeRowNumber: bool)
    ensures forall name :: name in ShownColumns(keys, excludeRowNumber) <==> name in keys && Shown(name, excludeRowNumber)
    decreases |keys|
  {
    if keys != [] {
      var init := keys[..|keys| - 1];
      ShownColumnsMembers(init, excludeRowNumber);
      assert keys == init + [keys[|keys| - 1]];
    }
  }

  /** When no key is a row-number column, no column is dropped and the order is the keys' order. */
  lemma {:induction false} AllShownKeepsKeys(keys: seq<string>, excludeRowNumber: bool)
    requires forall i :: 0 <= i < |keys| ==> Shown(keys[i], excludeRowNumber)
    ensures ShownColumns(keys, excludeRowNumber) == keys
    decreases |keys|
  {
    if keys != [] {
      var init := keys[..|keys| - 1];
      forall i | 0 <= i < |init| ensures Shown(init[i], excludeRowNumber) {
        assert init[i] == keys[i];
      }
      AllShownKeepsKeys(init, excludeRowNumber);
      assert keys == init + [keys[|keys| - 1]];
    }
  }

  /** One more key adds that key as the last column when it is shown, and nothing otherwise. */
  lemma ShownColumnsSnoc(keys: seq<string>, name: string, excludeRowNumber: bool)
    ensures ShownColumns(keys + [name], excludeRowNumber)
      == ShownColumns(keys, excludeRowNumber) + (if Shown(name, excludeRowNumber) then [name] else [])
  {
    assert (keys + [name])[..|keys|] == keys;
  }

  /**
   * Filtering keeps the key order: the columns of two runs of keys are the columns of the
   * first run followed by those of the second.
   */
  lemma {:induction false} ShownColumnsAppend(a: seq<string>, b: seq<string>, excludeRowNumber: bool)
    ensures ShownColumns(a + b, excludeRowNumber) == ShownColumns(a, excludeRowNumber) + ShownColumns(b, excludeRowNumber)
    decreases |b|
  {
    if b == [] {
      assert a + b == a;
    } else {
      var init, last := b[..|b| - 1], b[|b| - 1];
      var tail := if Shown(last, excludeRowNumber) then [last] else [];
      assert b == init + [last];
      assert a + b == (a + init) + [last];
      ShownColumnsAppend(a, init, excludeRowNumber);
      ShownColumnsSnoc(a + init, last, excludeRowNumber);
      ShownColumnsSnoc(init, last, excludeRowNumber);
      assert (ShownColumns(a, excludeRowNumber) + ShownColumns(init, excludeRowNumber)) + tail
        == ShownColumns(a, excludeRowNumber) + (ShownColumns(init, excludeRowNumber) + tail);
    }
  }

  /** The columns of a single key: the key itself when shown, none otherwise. */
  lemma ShownColumnsOne(name: string, excludeRowNumber: bool)
    ensures ShownColumns([name], excludeRowNumber) == if Shown(name, excludeRowNumber) then [name] else []
  {
    assert [name][..0] == [];
  }

  /**
   * A row-number key among shown keys is dropped, and the keys before and after it stay in
   * their order.
   */
  lemma DropsRowNumberKey(before: seq<string>, name: string, after: seq<string>)
    requires !Shown(name, true)
    requires forall i :: 0 <= i < |before| ==> Shown(before[i], true)
    requires forall i :: 0 <= i < |after| ==> Shown(after[i], true)
    ensures ShownColumns(before + [name] + after, true) == before + after
  {
    AllShownKeepsKeys(before, true);
    AllShownKeepsKeys(after, true);
    ShownColumnsOne(name, true);
    ShownColumnsAppend(before, [name], true);
    ShownColumnsAppend(before + [name], after, true);
    assert before + [] == before;
  }

  function HeadCell(name: string): string
  {
    "<th>" + name + "</th>"
  }

  /** A body cell: the value's text, empty for null or undefined (`?? ''`). */
  function DataCell(record: Row, name: string): string
  {
    "<td>" + TextOrEmpty(Lookup(record, name)) + "</td>"
  }

  /** `prefix` followed by the header cells of the first `n` columns. */
  function HeadCells(prefix: string, columns: seq<string>, n: nat): string
    requires n <= |columns|
    decreases n
  {
    if n == 0 then prefix else HeadCells(prefix, columns, n - 1) + HeadCell(columns[n - 1])
  }

  /** `prefix` followed by the cells of one record for the first `n` columns. */
  function DataCells(prefix: string, record: Row, columns: seq<string>, n: nat): string
    requires n <= |columns|
    decreases n
  {
    if n == 0 then prefix else DataCells(prefix, record, columns, n - 1) + DataCell(record, columns[n - 1])
  }

  /** The markup of one record's row. */
  function RowMarkup(record: Row, columns: seq<string>): string
  {
    DataCells("<tr>", record, columns, |columns|) + "</tr>"
  }

  /** `prefix` followed by the rows of the first `n` records. */
  function BodyRows(prefix: string, records: seq<Row>, columns: seq<string>, n: nat): string
    requires n <= |records|
    decreases n
  {
    if n == 0 then prefix
    else DataCells(BodyRows(prefix, records, columns, n - 1) + "<tr>", records[n - 1], columns, |columns|) + "</tr>"
  }

  /** The table, or "" for null or no records. */
  function RecordsTable(records: Option<seq<Row>>, tableID: string, excludeRowNumber: bool): string
  {
    if records.None? || records.value == [] then ""
    else
      var columns := ShownColumns(Keys(records.value[0]), excludeRowNumber);
      var thead := HeadCells(HeadOpen + "<tr>", columns, |columns|) + "</tr>" + "</thead>";
      var tbody := BodyRows("<tbody>", records.value, columns, |records.value|) + "</tbody>";
      "<table id=\"" + tableID + "\" class=\"styled-table\">" + thead + tbody + "</table>"
  }

  /** `recordsTableGenerate`; `records` None stands for null. */
  method RecordsTableGenerate(records: Option<seq<Row>>, tableID: string, excludeRowNumber: bool) returns (html: string)
    ensures html == RecordsTable(records, tableID, excludeRowNumber)
    ensures html == "" <==> records.None? || records.value == []
  {
    if records.None? || |records.value| == 0 {
      return "";
    }
    var rows := records.value;
    var rawColumnNames := Keys(rows[0]);
    var columnNames := ShownColumns(rawColumnNames, excludeRowNumber);
    var thead := HeadOpen;
    thead := thead + "<tr>";
    thead := HeadLoop(thead, columnNames);
    thead := thead + "</tr>";
    thead := thead + "</thead>";
    var tbody := "<tbody>";
    tbody := BodyLoop(tbody, rows, columnNames);
    tbody := tbody + "</tbody>";
    html := "<table id=\"" + tableID + "\" class=\"styled-table\">" + thead + tbody + "</table>";
    assert |html| > 0;
  }

  /** The row loop: for each record, `<tr>`, its cells and `</tr>` appended to `tbody`. */
  method BodyLoop(tbody0: string, records: seq<Row>, columnNames: seq<string>) returns (tbody: string)
    ensures tbody == BodyRows(tbody0, records, columnNames, |records|)
  {
    tbody := tbody0;
    for r := 0 to |records|
      invariant tbody == BodyRows(tbody0, records, columnNames, r)
    {
      tbody := tbody + "<tr>";
      tbody := CellLoop(tbody, records[r], columnNames);
      tbody := tbody + "</tr>";
    }
  }

  /** The header `forEach`: one `<th>` per column appended to `thead`. */
  method HeadLoop(thead0: string, columnNames: seq<string>) returns (thead: string)
    ensures thead == HeadCells(thead0, columnNames, |columnNames|)
  {
    thead := thead0;
    for i := 0 to |columnNames|
      invariant thead == HeadCells(thead0, columnNames, i)
    {
      thead := thead + ("<th>" + columnNames[i] + "</th>");
    }
  }

  /** The row `forEach`: one `<td>` per column appended to `tbody`. */
  method CellLoop(tbody0: string, record: Row, columnNames: seq<string>) returns (tbody: string)
    ensures tbody == DataCells(tbody0, record, columnNames, |columnNames|)
  {
    tbody := tbody0;
    for i := 0 to |columnNames|
      invariant tbody == DataCells(tbody0, record, columnNames, i)
    {
      var value := Lookup(record, columnNames[i]);
      var text := if value.Some? && !value.value.Null? then ValueString(value.value) else "";
      tbody := tbody + ("<td>" + text + "</td>");
    }
  }

  /** The header cells, one per column in column order. */
  function HeadCellList(columns: seq<string>): (cells: seq<string>)
    ensures |cells| == |columns|
    ensures forall i :: 0 <= i < |columns| ==> cells[i] == "<th>" + columns[i] + "</th>"
  {
    seq(|columns|, i requires 0 <= i < |columns| => HeadCell(columns[i]))
  }

  /** The body cells of one record, one per column in header order. */
  function DataCellList(record: Row, columns: seq<string>): (cells: seq<string>)
    ensures |cells| == |columns|
    ensures forall i :: 0 <= i < |columns| ==> cells[i] == "<td>" + TextOrEmpty(Lookup(record, columns[i])) + "</td>"
  {
    seq(|columns|, i requires 0 <= i < |columns| => DataCell(record, columns[i]))
  }

  /** The header is the prefix followed by one `<th>` per column, in order. */
  lemma HeadIsOneCellPerColumn(prefix: string, columns: seq<string>)
    ensures HeadCells(prefix, columns, |columns|) == prefix + Concat(HeadCellList(columns))
  {
    var cells := HeadCellList(columns);
    assert prefix + Concat(cells[..0]) == prefix;
    for k := 0 to |columns|
      invariant HeadCells(prefix, columns, k) == prefix + Concat(cells[..k])
    {
      ConcatPrefixStep(cells, k);
      AppendAssoc(prefix, Concat(cells[..k]), cells[k]);
    }
    assert cells[..|columns|] == cells;
  }

  /** A row is the prefix followed by one `<td>` per column, in header order. */
  lemma RowIsOneCellPerColumn(prefix: string, record: Row, columns: seq<string>)
    ensures DataCells(prefix, record, columns, |columns|) == prefix + Concat(DataCellList(record, columns))
  {
    var cells := DataCellList(record, columns);
    assert prefix + Concat(cells[..0]) == prefix;
    for k := 0 to |columns|
      invariant DataCells(prefix, record, columns, k) == prefix + Concat(cells[..k])
    {
      ConcatPrefixStep(cells, k);
      AppendAssoc(prefix, Concat(cells[..k]), cells[k]);
    }
    assert cells[..|columns|] == cells;
  }

  /** The rows of the records, one per record in order. */
  function RowList(records: seq<Row>, columns: seq<string>): (rows: seq<string>)
    ensures |rows| == |records|
    ensures forall r :: 0 <= r < |records| ==> rows[r] == RowMarkup(records[r], columns)
  {
    seq(|records|, r requires 0 <= r < |records| => RowMarkup(records[r], columns))
  }

  /** Appending `<tr>`, the cells and `</tr>` to a prefix is appending the row's markup. */
  lemma RowAfter(before: string, record: Row, columns: seq<string>)
    ensures DataCells(before + "<tr>", record, columns, |columns|) + "</tr>" == before + RowMarkup(record, columns)
  {
    var cells := Concat(DataCellList(record, columns));
    RowIsOneCellPerColumn(before + "<tr>", record, columns);
    RowIsOneCellPerColumn("<tr>", record, columns);
    AppendAssoc(before, "<tr>", cells);
    AppendAssoc(before, "<tr>" + cells, "</tr>");
  }

  /** One more record adds its row to the body and to the list of rows. */
  lemma BodyStep(prefix: string, records: seq<Row>, columns: seq<string>, n: nat)
    requires 1 <= n <= |records|
    requires BodyRows(prefix, records, columns, n - 1) == prefix + Concat(RowList(records, columns)[..n - 1])
    ensures BodyRows(prefix, records, columns, n) == prefix + Concat(RowList(records, columns)[..n])
  {
    var rows := RowList(records, columns);
    RowAfter(BodyRows(prefix, records, columns, n - 1), records[n - 1], columns);
    ConcatPrefixStep(rows, n - 1);
    AppendAssoc(prefix, Concat(rows[..n - 1]), rows[n - 1]);
  }

  /** The body is the prefix followed by exactly one row per record, in order. */
  lemma BodyIsOneRowPerRecord(prefix: string, records: seq<Row>, columns: seq<string>)
    ensures BodyRows(prefix, records, columns, |records|) == prefix + Concat(RowList(records, columns))
  {
    var rows := RowList(records, columns);
    assert prefix + Concat(rows[..0]) == prefix;
    for k := 0 to |records|
      invariant BodyRows(prefix, records, columns, k) == prefix + Concat(rows[..k])
    {
      BodyStep(prefix, records, columns, k + 1);
    }
    assert rows[..|records|] == rows;
  }

  // ---------------------------------------------------------------------------------------
  // queryExecute

  /** The upper bound of every window: fixed, never advanced with the lower bound. */
  const FixedRowEnd := 5000

  const DirectoryHead := "SELECT * FROM ( SELECT ROWNUM AS ROWNUMBER, * FROM ("
  const DirectoryMiddle := ") ) WHERE ( ROWNUMBER BETWEEN "

  /** The windowed SQL of the library's `queryExecute`. */
  function DirectorySql(sql: string, begin: int, end: int): string
  {
    DirectoryHead + sql + DirectoryMiddle + IntToString(begin) + " AND " + IntToString(end) + ")"
  }

  /** The host answers every windowed query it does not reject from the numbered result set `resultOf(sql)`. */
  ghost predicate ServesDirectory(run: Executor, resultOf: string -> seq<Row>)
  {
    forall sql, b, e :: run(DirectorySql(sql, b, e)).Page? ==>
      run(DirectorySql(sql, b, e)).rows == Window(resultOf(sql), b, e)
  }

  /** The directory windows read before the last one all came back with rows. */
  lemma DirectoryWindowsServed(run: Executor, sql: string, window: WindowRun, begins: seq<int>)
    requires forall b, e :: window(b, e) == run(DirectorySql(sql, b, e))
    requires begins != [] && AllServed(window, begins[..|begins| - 1], FixedRowEnd)
    ensures forall i :: 0 <= i < |begins| - 1 ==> run(DirectorySql(sql, begins[i], FixedRowEnd)).Page?
  {
    forall i | 0 <= i < |begins| - 1
      ensures run(DirectorySql(sql, begins[i], FixedRowEnd)).Page?
    {
      assert begins[..|begins| - 1][i] == begins[i];
    }
  }

  /**
   * `queryExecute`: windows [1, 5000], [5001, 5000], ... until a short page. Because the upper
   * bound stays at 5000 the result is at most the first 5000 rows, after at most two calls; any
   * failure gives null (None) and never a partial list.
   */
  method QueryExecute(sql: string, run: Executor, ghost resultOf: string -> seq<Row>)
    returns (records: Option<seq<Row>>, ghost begins: seq<int>)
    requires ServesDirectory(run, resultOf)
    ensures Strided(begins, 1) && 1 <= |begins| <= 2
    ensures records.Some? ==> records.value == resultOf(sql)[..Min(FixedRowEnd, |resultOf(sql)|)]
    ensures records.Some? ==> (|begins| == 2 <==> |resultOf(sql)| >= FixedRowEnd)
    ensures records.None? <==> run(DirectorySql(sql, begins[|begins| - 1], FixedRowEnd)).Thrown?
    ensures |begins| <= PageCount(resultOf(sql), 1, FixedRowEnd)
    ensures records.Some? ==> |begins| == PageCount(resultOf(sql), 1, FixedRowEnd)
    ensures forall i :: 0 <= i < |begins| - 1 ==> run(DirectorySql(sql, begins[i], FixedRowEnd)).Page?
  {
    var window := (b: int, e: int) => run(DirectorySql(sql, b, e));
    assert Serves(window, resultOf(sql));
    var fetched;
    fetched, begins := FetchPages(window, 1, FixedRowEnd, resultOf(sql));
    DirectoryWindowsServed(run, sql, window, begins);
    FixedUpperBoundStopsAtFirstPage(resultOf(sql));
    if fetched.Thrown? {
      return None, begins;
    }
    records := Some(fetched.rows);
  }
}
