// The browser side of the SuiteQL Query Tool, which the suitelet serves as script text:
// `querySubmit` (what is posted, or which alert is shown instead), `responseGenerateCSV` and
// `responseGenerateTable` (the result shapers).

module QueryToolClient {
  import opened Text
  import opened Rows
  import opened PagedFetch
  import opened QueryTool

  // ---------------------------------------------------------------------------------------
  // querySubmit

  /** What pressing "Submit" does: an alert and nothing posted, or the `queryExecute` payload. */
  datatype Submission = Alert(message: string) | Post(request: QueryRequest)

  /** The row bounds used when "Return all rows" is ticked. */
  const ReturnAllBegin := 1
  const ReturnAllEnd := 999999

  function Clamp(n: int, hi: nat): (r: nat)
    ensures r <= hi && (0 <= n <= hi ==> r == n)
  {
    if n < 0 then 0 else if n > hi then hi else n
  }

  /** `text.substring(a, b)`: both ends clamped to the text, swapped when out of order. */
  function Substring(text: string, a: int, b: int): (r: string)
    ensures exists i, j :: 0 <= i <= j <= |text| && r == text[i..j]
    ensures 0 <= a <= b <= |text| ==> r == text[a..b]
  {
    var x := Clamp(a, |text|);
    var y := Clamp(b, |text|);
    if x <= y then text[x..y] else text[y..x]
  }

  /**
   * `querySubmit`. `selectionStart`/`selectionEnd` are the editor's selection; the row-bound
   * inputs are what `parseInt` made of the two fields (None where it is not an integer);
   * `enableViews` is the views checkbox, None when the page has no such checkbox.
   */
  function QuerySubmit(queryText: string, selectionStart: int, selectionEnd: int, returnAll: bool,
                       rowBeginInput: Option<int>, rowEndInput: Option<int>, enableViews: Option<bool>,
                       paginationEnabled: bool, returnTotals: bool): (s: Submission)
    ensures queryText == [] <==> s == Alert("Please enter a query.")
    ensures s.Post? ==> queryText != [] && s.request.query != []
    ensures s.Post? ==>
      var selected := Substring(queryText, selectionStart, selectionEnd);
      s.request.query == (if selected == [] then queryText else selected)
    ensures s.Post? && returnAll ==> s.request.rowBegin == ReturnAllBegin && s.request.rowEnd == ReturnAllEnd
    ensures s.Post? && !returnAll ==>
      rowBeginInput == Some(s.request.rowBegin) && rowEndInput == Some(s.request.rowEnd)
    ensures queryText != [] && !returnAll && rowBeginInput.None? ==>
      s == Alert("Enter an integer for the beginning row.")
    ensures queryText != [] && !returnAll && rowBeginInput.Some? && rowEndInput.None? ==>
      s == Alert("Enter an integer for the ending row.")
    ensures s.Alert? <==> queryText == [] || (!returnAll && (rowBeginInput.None? || rowEndInput.None?))
    ensures s.Post? ==>
      (s.request.viewsEnabled <==> enableViews == Some(true))
      && s.request.paginationEnabled == paginationEnabled && s.request.returnTotals == returnTotals
  {
    if queryText == [] then Alert("Please enter a query.")
    else
      var selected := Substring(queryText, selectionStart, selectionEnd);
      var theQuery := if selected == [] then queryText else selected;
      if returnAll then
        Post(QueryRequest(theQuery, ReturnAllBegin, ReturnAllEnd, paginationEnabled,
                          enableViews == Some(true), returnTotals))
      else if rowBeginInput.None? then Alert("Enter an integer for the beginning row.")
      else if rowEndInput.None? then Alert("Enter an integer for the ending row.")
      else
        Post(QueryRequest(theQuery, rowBeginInput.value, rowEndInput.value, paginationEnabled,
                          enableViews == Some(true), returnTotals))
  }

  /**
   * "Return all rows" with pagination on fetches the whole result set whenever it has at most
   * 999999 rows, and that many windowed calls: one per full page plus one.
   */
  lemma ReturnAllFetchesEverything(data: seq<Row>)
    requires |data| <= ReturnAllEnd
    ensures Paged(data, ReturnAllBegin, ReturnAllEnd) == data
    ensures PageCount(data, ReturnAllBegin, ReturnAllEnd) == |data| / PageLimit + 1
  {
    PagedIsRowRange(data, ReturnAllBegin, ReturnAllEnd);
    PageCountFormula(data, ReturnAllBegin, ReturnAllEnd);
    assert RowRange(data, ReturnAllBegin, ReturnAllEnd) == data;
  }

  /** Typed bounds from row 1 on fetch exactly the rows numbered `rowBegin` through `rowEnd`. */
  lemma TypedBoundsFetchTheirRows(data: seq<Row>, rowBegin: int, rowEnd: int)
    requires 1 <= rowBegin <= rowEnd <= |data|
    ensures Paged(data, rowBegin, rowEnd) == data[rowBegin - 1..rowEnd]
  {
    PagedIsRowRange(data, rowBegin, rowEnd);
  }

  // ---------------------------------------------------------------------------------------
  // responseGenerateCSV

  const DoubleQuote := "\""
  const FieldSeparator := ","
  const QuotedSeparator := "\",\""
  const LineBreak := "\r\n"

  function Quote(t: string): (r: string)
    ensures |r| == |t| + 2 && r[0] == '"' && r[|r| - 1] == '"' && r[1..|r| - 1] == t
  {
    DoubleQuote + t + DoubleQuote
  }

  /** The field of one cell: the value's text in double quotes; null and undefined give `""`. */
  function CsvField(record: Row, column: string): (f: string)
    ensures Lookup(record, column).None? || Lookup(record, column).value.Null? ==> f == "\"\""
    ensures Lookup(record, column).Some? && !Lookup(record, column).value.Null? ==>
      f == Quote(ValueString(Lookup(record, column).value))
  {
    Quote(TextOrEmpty(Lookup(record, column)))
  }

  /** The fields of one record, in column order: exactly one per column. */
  function CsvFields(record: Row, columns: seq<string>): (fs: seq<string>)
    ensures |fs| == |columns|
  {
    if columns == [] then []
    else CsvFields(record, columns[..|columns| - 1]) + [CsvField(record, columns[|columns| - 1])]
  }

  /** Field `c` of a record is the field of column `c`. */
  lemma {:induction false} CsvFieldsAt(record: Row, columns: seq<string>)
    ensures forall c :: 0 <= c < |columns| ==> CsvFields(record, columns)[c] == CsvField(record, columns[c])
  {
    if columns != [] {
      var init := columns[..|columns| - 1];
      CsvFieldsAt(record, init);
      forall c | 0 <= c < |columns| - 1 ensures CsvFields(record, columns)[c] == CsvField(record, columns[c]) {
        assert init[c] == columns[c];
      }
    }
  }

  /** The unquoted texts of one record, in column order. */
  function CellTexts(record: Row, columns: seq<string>): (ts: seq<string>)
    ensures |ts| == |columns|
    ensures forall c :: 0 <= c < |columns| ==> ts[c] == TextOrEmpty(Lookup(record, columns[c]))
  {
    if columns == [] then [] else [TextOrEmpty(Lookup(record, columns[0]))] + CellTexts(record, columns[1..])
  }

  /** The header line (without its line break): the column names joined by `","`, in outer quotes. */
  function CsvHeader(columns: seq<string>): string
  {
    DoubleQuote + Join(columns, QuotedSeparator) + DoubleQuote
  }

  function CsvLine(record: Row, columns: seq<string>): string
  {
    Join(CsvFields(record, columns), FieldSeparator)
  }

  /** The header line and the lines of the first `n` records, each followed by CR LF. */
  function CsvLines(records: seq<Row>, columns: seq<string>, n: nat): string
    requires n <= |records|
    decreases n
  {
    if n == 0 then CsvHeader(columns) + LineBreak
    else CsvLines(records, columns, n - 1) + CsvLine(records[n - 1], columns) + LineBreak
  }

  /** The whole CSV text: the columns are the first record's keys. */
  function CsvText(records: seq<Row>): string
    requires records != []
  {
    CsvLines(records, Keys(records[0]), |records|)
  }

  /**
   * `responseGenerateCSV` up to the text it puts in the text area. With no records it fails
   * (reading the keys of `records[0]` throws), which is None here.
   */
  method ResponseCsv(records: seq<Row>) returns (csv: Option<string>)
    ensures records == [] <==> csv.None?
    ensures records != [] ==> csv == Some(CsvText(records))
  {
    if records == [] {
      return None;
    }
    var columnNames := Keys(records[0]);
    var row := DoubleQuote + Join(columnNames, QuotedSeparator) + DoubleQuote;
    var text := row + LineBreak;
    for r := 0 to |records|
      invariant text == CsvLines(records, columnNames, r)
    {
      row := CsvRow(records[r], columnNames);
      text := text + row + LineBreak;
    }
    csv := Some(text);
  }

  /** One record's line (the inner loop of `responseGenerateCSV`): its fields joined by commas. */
  method CsvRow(record: Row, columnNames: seq<string>) returns (row: string)
    ensures row == CsvLine(record, columnNames)
  {
    var values: seq<string> := [];
    for c := 0 to |columnNames|
      invariant values == CsvFields(record, columnNames[..c])
    {
      var value := Lookup(record, columnNames[c]);
      var shown: string;
      if value.Some? && !value.value.Null? {
        shown := ValueString(value.value);
      } else {
        shown := "";
      }
      assert columnNames[..c + 1][..c] == columnNames[..c];
      values := values + [DoubleQuote + shown + DoubleQuote];
    }
    assert columnNames[..|columnNames|] == columnNames;
    row := Join(values, FieldSeparator);
  }

  /** Quoting each part and joining with `,` is joining with `","` inside one pair of quotes. */
  lemma {:induction false} JoinQuoted(parts: seq<string>, quoted: seq<string>)
    requires |parts| > 0 && |quoted| == |parts|
    requires forall i :: 0 <= i < |parts| ==> quoted[i] == Quote(parts[i])
    ensures Join(quoted, FieldSeparator) == DoubleQuote + Join(parts, QuotedSeparator) + DoubleQuote
  {
    if |parts| > 1 {
      JoinQuoted(parts[1..], quoted[1..]);
      Regroup(DoubleQuote, parts[0], FieldSeparator, Join(parts[1..], QuotedSeparator));
      assert DoubleQuote + FieldSeparator + DoubleQuote == QuotedSeparator;
    }
  }

  /** Two quoted pieces around a separator are one quoted piece with the quotes moved inside the separator. */
  lemma Regroup<T>(q: seq<T>, a: seq<T>, sep: seq<T>, b: seq<T>)
    ensures (q + a + q) + sep + (q + b + q) == q + (a + (q + sep + q) + b) + q
  {
  }

  /**
   * With at least one column, every record line has the header's shape: the cells' texts (empty
   * for null or undefined) joined by `","` inside one pair of quotes, one per column.
   */
  lemma CsvLineShape(record: Row, columns: seq<string>)
    requires |columns| > 0
    ensures CsvLine(record, columns) == DoubleQuote + Join(CellTexts(record, columns), QuotedSeparator) + DoubleQuote
  {
    CsvFieldsAt(record, columns);
    JoinQuoted(CellTexts(record, columns), CsvFields(record, columns));
  }

  /** The number of line feeds in a text. */
  function LineFeeds(s: string): nat
  {
    if s == [] then 0 else LineFeeds(s[..|s| - 1]) + (if s[|s| - 1] == '\n' then 1 else 0)
  }

  lemma {:induction false} LineFeedsAppend(a: string, b: string)
    ensures LineFeeds(a + b) == LineFeeds(a) + LineFeeds(b)
    decreases |b|
  {
    if b != [] {
      var init := b[..|b| - 1];
      LineFeedsAppend(a, init);
      assert (a + b)[..|a + b| - 1] == a + init;
    } else {
      assert a + b == a;
    }
  }

  lemma {:induction false} JoinWithoutLineFeeds(parts: seq<string>, sep: string)
    requires LineFeeds(sep) == 0 && forall i :: 0 <= i < |parts| ==> LineFeeds(parts[i]) == 0
    ensures LineFeeds(Join(parts, sep)) == 0
  {
    if |parts| > 1 {
      JoinWithoutLineFeeds(parts[1..], sep);
      assert LineFeeds(parts[0]) == 0;
      LineFeedsAppend(parts[0], sep);
      LineFeedsAppend(parts[0] + sep, Join(parts[1..], sep));
    } else if |parts| == 1 {
      assert LineFeeds(parts[0]) == 0;
    }
  }

  /** No column name and no cell text of these records contains a line feed. */
  ghost predicate SingleLineCells(records: seq<Row>, columns: seq<string>)
  {
    (forall c :: 0 <= c < |columns| ==> LineFeeds(columns[c]) == 0)
    && forall r, c :: 0 <= r < |records| && 0 <= c < |columns| ==>
         LineFeeds(TextOrEmpty(Lookup(records[r], columns[c]))) == 0
  }

  lemma CsvLineWithoutLineFeeds(record: Row, columns: seq<string>)
    requires forall c :: 0 <= c < |columns| ==> LineFeeds(TextOrEmpty(Lookup(record, columns[c]))) == 0
    ensures LineFeeds(CsvLine(record, columns)) == 0
  {
    var fields := CsvFields(record, columns);
    CsvFieldsAt(record, columns);
    forall c | 0 <= c < |fields| ensures LineFeeds(fields[c]) == 0 {
      var t := TextOrEmpty(Lookup(record, columns[c]));
      LineFeedsAppend(DoubleQuote, t);
      LineFeedsAppend(DoubleQuote + t, DoubleQuote);
    }
    LiteralLineFeeds();
    JoinWithoutLineFeeds(fields, FieldSeparator);
  }

  lemma LiteralLineFeeds()
    ensures LineFeeds(LineBreak) == 1
    ensures LineFeeds(QuotedSeparator) == 0 && LineFeeds(DoubleQuote) == 0 && LineFeeds(FieldSeparator) == 0
  {
    assert LineBreak == ['\r'] + ['\n'];
  }

  lemma HeaderWithoutLineFeeds(columns: seq<string>)
    requires forall c :: 0 <= c < |columns| ==> LineFeeds(columns[c]) == 0
    ensures LineFeeds(CsvHeader(columns)) == 0
  {
    LiteralLineFeeds();
    JoinWithoutLineFeeds(columns, QuotedSeparator);
    LineFeedsAppend(DoubleQuote, Join(columns, QuotedSeparator));
    LineFeedsAppend(DoubleQuote + Join(columns, QuotedSeparator), DoubleQuote);
  }

  /** The header line contributes exactly its CR LF. */
  lemma HeaderLineFeeds(records: seq<Row>, columns: seq<string>)
    requires forall c :: 0 <= c < |columns| ==> LineFeeds(columns[c]) == 0
    ensures LineFeeds(CsvLines(records, columns, 0)) == 1
  {
    LiteralLineFeeds();
    HeaderWithoutLineFeeds(columns);
    LineFeedsAppend(CsvHeader(columns), LineBreak);
  }

  /** Each record line contributes exactly its CR LF. */
  lemma RecordLineFeeds(records: seq<Row>, columns: seq<string>, n: nat)
    requires 1 <= n <= |records| && SingleLineCells(records, columns)
    ensures LineFeeds(CsvLines(records, columns, n)) == LineFeeds(CsvLines(records, columns, n - 1)) + 1
  {
    LiteralLineFeeds();
    var record := records[n - 1];
    var before := CsvLines(records, columns, n - 1);
    assert forall c :: 0 <= c < |columns| ==> LineFeeds(TextOrEmpty(Lookup(record, columns[c]))) == 0;
    CsvLineWithoutLineFeeds(record, columns);
    LineFeedsAppend(before, CsvLine(record, columns));
    LineFeedsAppend(before + CsvLine(record, columns), LineBreak);
  }

  lemma CsvLinesLineFeeds(records: seq<Row>, columns: seq<string>, n: nat)
    requires n <= |records| && SingleLineCells(records, columns)
    ensures LineFeeds(CsvLines(records, columns, n)) == n + 1
  {
    HeaderLineFeeds(records, columns);
    for k := 0 to n
      invariant LineFeeds(CsvLines(records, columns, k)) == k + 1
    {
      RecordLineFeeds(records, columns, k + 1);
    }
  }

  /**
   * When no column name and no cell text contains a line break, the CSV has one line per
   * record plus the header line, each ended by CR LF.
   */
  lemma CsvLineCount(records: seq<Row>)
    requires records != [] && SingleLineCells(records, Keys(records[0]))
    ensures LineFeeds(CsvText(records)) == |records| + 1
  {
    CsvLinesLineFeeds(records, Keys(records[0]), |records|);
  }

  /** The header line `""` followed by `n` line breaks more. */
  function EmptyLines(n: nat): string
  {
    if n == 0 then "\"\"" + LineBreak else EmptyLines(n - 1) + LineBreak
  }

  /**
   * A first record without columns gives the header `""` and an empty line per record: the
   * cells of later records are dropped entirely, since the columns come from the first record alone.
   */
  lemma {:induction false} CsvWithoutColumns(records: seq<Row>, n: nat)
    requires n <= |records|
    ensures CsvLines(records, [], n) == EmptyLines(n)
    decreases n
  {
    if n > 0 {
      CsvWithoutColumns(records, n - 1);
      assert CsvLine(records[n - 1], []) == "";
    } else {
      assert CsvHeader([]) == "\"\"";
    }
  }

  // ---------------------------------------------------------------------------------------
  // responseGenerateTable

  const NoRecordsFound := "<h5 class=\"text-warning\">No Records Were Found</h5>"
  const RowNumberHeader := "<th style=\"text-align: center;\">&nbsp;#&nbsp;</th>"
  const CenteredCellOpen := "<td style=\"text-align: center;\">"
  const DimmedNull := "<span style=\"color: #ccc;\">null</span>"
  const ResponsiveOpen := "<div class=\"table-responsive\">"
  const TableOpen := "<table class=\"table table-sm table-bordered table-hover table-responsive-sm\" id=\"resultsTable\">"
  const TheadOpen := "<thead class=\"thead-light\">"

  /**
   * The text of a cell: a null according to the null-format option (`dimmed`, `blank`, anything
   * else shows `null`); a missing key is `undefined`, which is not `=== null` and prints as such.
   */
  function CellText(v: Option<Value>, nullFormat: string): (t: string)
    ensures v.None? ==> t == "undefined"
    ensures v == Some(Null) ==>
      t == (if nullFormat == "dimmed" then DimmedNull else if nullFormat == "blank" then "" else "null")
    ensures v.Some? && !v.value.Null? ==> t == ValueString(v.value)
  {
    match v
    case None => "undefined"
    case Some(Null) =>
      if nullFormat == "dimmed" then "<span style=\"color: #ccc;\">" + ValueString(Null) + "</span>"
      else if nullFormat == "blank" then ""
      else "null"
    case Some(x) => ValueString(x)
  }

  /** Header cell `i`; the row-number column (index 0 under pagination) is centred as `#`, or left out. */
  function HeaderCell(i: nat, name: string, rowNumberColumn: bool, hidden: bool): string
  {
    if i == 0 && rowNumberColumn && !hidden then RowNumberHeader
    else if i == 0 && rowNumberColumn && hidden then ""
    else "<th>" + name + "</th>"
  }

  function BodyCell(i: nat, text: string, rowNumberColumn: bool, hidden: bool): string
  {
    if i == 0 && rowNumberColumn && !hidden then CenteredCellOpen + text + "</td>"
    else if i == 0 && rowNumberColumn && hidden then ""
    else "<td>" + text + "</td>"
  }

  /** `prefix` followed by the header cells of the first `n` columns. */
  function HeaderCells(prefix: string, columns: seq<string>, rowNumberColumn: bool, hidden: bool, n: nat): string
    requires n <= |columns|
    decreases n
  {
    if n == 0 then prefix
    else HeaderCells(prefix, columns, rowNumberColumn, hidden, n - 1) + HeaderCell(n - 1, columns[n - 1], rowNumberColumn, hidden)
  }

  /** `prefix` followed by the cells of one record for the first `n` columns. */
  function RowCells(prefix: string, record: Row, columns: seq<string>, rowNumberColumn: bool, hidden: bool,
                    nullFormat: string, n: nat): string
    requires n <= |columns|
    decreases n
  {
    if n == 0 then prefix
    else
      RowCells(prefix, record, columns, rowNumberColumn, hidden, nullFormat, n - 1)
      + BodyCell(n - 1, CellText(Lookup(record, columns[n - 1]), nullFormat), rowNumberColumn, hidden)
  }

  /** `prefix` followed by the rows of the first `n` records. */
  function BodyRows(prefix: string, records: seq<Row>, columns: seq<string>, rowNumberColumn: bool, hidden: bool,
                    nullFormat: string, n: nat): string
    requires n <= |records|
    decreases n
  {
    if n == 0 then prefix
    else
      var before := BodyRows(prefix, records, columns, rowNumberColumn, hidden, nullFormat, n - 1);
      RowCells(before + "<tr>", records[n - 1], columns, rowNumberColumn, hidden, nullFormat, |columns|) + "</tr>"
  }

  /**
   * The results markup: the message for no records, or the table, wrapped in a responsive
   * block, whose columns are the first record's keys.
   */
  function TableHtml(records: seq<Row>, paginationEnabled: bool, hideRowNumbers: bool, nullFormat: string): string
  {
    if records == [] then NoRecordsFound
    else
      var columns := Keys(records[0]);
      var hidden := paginationEnabled && hideRowNumbers;
      var thead := HeaderCells(TheadOpen + "<tr>", columns, paginationEnabled, hidden, |columns|) + "</tr>" + "</thead>";
      var tbody := BodyRows("<tbody>", records, columns, paginationEnabled, hidden, nullFormat, |records|) + "</tbody>";
      ResponsiveOpen + TableOpen + thead + tbody + "</table>" + "</div>"
  }

  /**
   * `responseGenerateTable` up to the markup it puts in the results area (the status line with
   * the row count and elapsed time is not modelled). Under pagination the first column holds the
   * row numbers: centred, or skipped in the header and in every row when they are hidden.
   */
  method ResponseTable(records: seq<Row>, paginationEnabled: bool, hideRowNumbers: bool, nullFormat: string)
    returns (html: string)
    ensures html == TableHtml(records, paginationEnabled, hideRowNumbers, nullFormat)
    ensures records == [] <==> html == NoRecordsFound
  {
    if |records| == 0 {
      return NoRecordsFound;
    }
    var columnNames := Keys(records[0]);
    var firstColumnIsRowNumber := false;
    var rowNumbersHidden := false;
    if paginationEnabled {
      firstColumnIsRowNumber := true;
      if hideRowNumbers {
        rowNumbersHidden := true;
      }
    }
    var thead := TheadOpen;
    thead := thead + "<tr>";
    thead := TableHead(thead, columnNames, firstColumnIsRowNumber, rowNumbersHidden);
    thead := thead + "</tr>";
    thead := thead + "</thead>";
    var tbody := "<tbody>";
    for r := 0 to |records|
      invariant tbody == BodyRows("<tbody>", records, columnNames, firstColumnIsRowNumber, rowNumbersHidden, nullFormat, r)
    {
      tbody := tbody + "<tr>";
      tbody := TableRow(tbody, records[r], columnNames, firstColumnIsRowNumber, rowNumbersHidden, nullFormat);
      tbody := tbody + "</tr>";
    }
    tbody := tbody + "</tbody>";
    html := ResponsiveOpen + TableOpen + thead + tbody + "</table>" + "</div>";
  }

  /** The header loop of `responseGenerateTable`: one header cell per column appended to `thead`. */
  method TableHead(thead0: string, columnNames: seq<string>, firstColumnIsRowNumber: bool, rowNumbersHidden: bool)
    returns (thead: string)
    ensures thead == HeaderCells(thead0, columnNames, firstColumnIsRowNumber, rowNumbersHidden, |columnNames|)
  {
    thead := thead0;
    for i := 0 to |columnNames|
      invariant thead == HeaderCells(thead0, columnNames, firstColumnIsRowNumber, rowNumbersHidden, i)
    {
      if i == 0 && firstColumnIsRowNumber && !rowNumbersHidden {
        thead := thead + RowNumberHeader;
      } else if i == 0 && firstColumnIsRowNumber && rowNumbersHidden {
        assert thead + "" == thead;
        continue;
      } else {
        thead := thead + ("<th>" + columnNames[i] + "</th>");
      }
    }
  }

  /** The cell loop of `responseGenerateTable` for one record: one cell per column appended to `tbody`. */
  method TableRow(tbody0: string, record: Row, columnNames: seq<string>, firstColumnIsRowNumber: bool,
                  rowNumbersHidden: bool, nullFormat: string)
    returns (tbody: string)
    ensures tbody == RowCells(tbody0, record, columnNames, firstColumnIsRowNumber, rowNumbersHidden, nullFormat, |columnNames|)
  {
    tbody := tbody0;
    for i := 0 to |columnNames|
      invariant tbody == RowCells(tbody0, record, columnNames, firstColumnIsRowNumber, rowNumbersHidden, nullFormat, i)
    {
      var value := CellText(Lookup(record, columnNames[i]), nullFormat);
      if i == 0 && firstColumnIsRowNumber && !rowNumbersHidden {
        tbody := tbody + (CenteredCellOpen + value + "</td>");
      } else if i == 0 && firstColumnIsRowNumber && rowNumbersHidden {
        assert tbody + "" == tbody;
        continue;
      } else {
        tbody := tbody + ("<td>" + value + "</td>");
      }
    }
  }

  /**
   * Split off the first column: its cell, then the remaining columns rendered as ordinary
   * columns. Hidden row numbers therefore drop exactly column 0 from the header.
   */
  lemma {:induction false} HeaderFirstColumn(prefix: string, first: string, columns: seq<string>, rowNumberColumn: bool,
                                             hidden: bool, n: nat)
    requires 1 <= n <= |columns|
    requires first == prefix + HeaderCell(0, columns[0], rowNumberColumn, hidden)
    ensures HeaderCells(prefix, columns, rowNumberColumn, hidden, n) == HeaderCells(first, columns[1..], false, false, n - 1)
    decreases n
  {
    if n > 1 {
      HeaderFirstColumn(prefix, first, columns, rowNumberColumn, hidden, n - 1);
      assert columns[1..][n - 2] == columns[n - 1];
    }
  }

  lemma {:induction false} RowFirstColumn(prefix: string, record: Row, columns: seq<string>,
                                          rowNumberColumn: bool, hidden: bool, nullFormat: string, n: nat)
    requires 1 <= n <= |columns|
    ensures RowCells(prefix, record, columns, rowNumberColumn, hidden, nullFormat, n)
      == RowCells(RowCells(prefix, record, columns, rowNumberColumn, hidden, nullFormat, 1),
                  record, columns[1..], false, false, nullFormat, n - 1)
    decreases n
  {
    if n > 1 {
      RowFirstColumn(prefix, record, columns, rowNumberColumn, hidden, nullFormat, n - 1);
      assert columns[1..][n - 2] == columns[n - 1];
    }
  }

  /** With pagination on and row numbers hidden, the header is that of the table without its first column. */
  lemma HiddenRowNumbersHeader(prefix: string, columns: seq<string>)
    requires |columns| >= 1
    ensures HeaderCells(prefix, columns, true, true, |columns|) == HeaderCells(prefix, columns[1..], false, false, |columns| - 1)
  {
    var cell := HeaderCell(0, columns[0], true, true);
    assert cell == [];
    assert prefix + cell == prefix;
    HeaderFirstColumn(prefix, prefix, columns, true, true, |columns|);
  }

  /** A hidden row-number cell adds nothing to the row. */
  lemma HiddenFirstCell(prefix: string, record: Row, columns: seq<string>, nullFormat: string)
    requires |columns| >= 1
    ensures RowCells(prefix, record, columns, true, true, nullFormat, 1) == prefix
  {
    assert BodyCell(0, CellText(Lookup(record, columns[0]), nullFormat), true, true) == [];
  }

  /** With pagination on and row numbers hidden, every row is that of the table without its first column. */
  lemma HiddenRowNumbersRow(prefix: string, record: Row, columns: seq<string>, nullFormat: string)
    requires |columns| >= 1
    ensures RowCells(prefix, record, columns, true, true, nullFormat, |columns|)
      == RowCells(prefix, record, columns[1..], false, false, nullFormat, |columns| - 1)
  {
    HiddenFirstCell(prefix, record, columns, nullFormat);
    RowFirstColumn(prefix, record, columns, true, true, nullFormat, |columns|);
  }

  /** With pagination on and row numbers shown, column 0 is the centred `#` header and the rest is unchanged. */
  lemma ShownRowNumbersHeader(prefix: string, columns: seq<string>)
    requires |columns| >= 1
    ensures HeaderCells(prefix, columns, true, false, |columns|)
      == HeaderCells(prefix + RowNumberHeader, columns[1..], false, false, |columns| - 1)
  {
    assert HeaderCell(0, columns[0], true, false) == RowNumberHeader;
    HeaderFirstColumn(prefix, prefix + RowNumberHeader, columns, true, false, |columns|);
  }
}
