/** ExcelDocumentParser: accepts spreadsheets by extension and lays their
    cells out as text, one "Sheet: <name>" block per sheet, one line per row,
    cells separated by " | ". */
module ExcelParser {
  import opened JavaText
  import opened Formats

  const CellSeparator := " | "

  /** supports(file): the lower-cased name ends with ".xlsx" or ".xls", that
      is, its last five or last four characters spell one of them in any
      letter case. */
  predicate Supports(name: string): (b: bool)
    ensures b <==> (|name| >= 5 && Lower(name[|name| - 5..]) == ".xlsx") ||
                   (|name| >= 4 && Lower(name[|name| - 4..]) == ".xls")
  {
    assert |name| >= 5 ==> Lower(name)[|name| - 5..] == Lower(name[|name| - 5..]);
    assert |name| >= 4 ==> Lower(name)[|name| - 4..] == Lower(name[|name| - 4..]);
    EndsWith(Lower(name), ".xlsx") || EndsWith(Lower(name), ".xls")
  }

  /** getCellValueAsString(cell); None is a null cell. */
  function CellValueAsString(cell: Option<Cell>): (r: string)
    ensures cell.None? ==> r == ""
    ensures cell.Some? && cell.value.StringCell? ==> r == cell.value.text
    ensures cell.Some? && cell.value.BooleanCell? ==> r == (if cell.value.flag then "true" else "false")
    ensures cell.Some? && cell.value.NumericCell? ==> r == cell.value.valueText
    ensures cell.Some? && cell.value.FormulaCell? ==> r == cell.value.formula
    ensures cell.Some? && (cell.value.BlankCell? || cell.value.ErrorCell?) ==> r == ""
  {
    match cell
    case None => ""
    case Some(StringCell(text)) => text
    case Some(NumericCell(valueText, _)) => valueText
    case Some(BooleanCell(flag)) => if flag then "true" else "false"
    case Some(FormulaCell(formula)) => formula
    case Some(_) => ""
  }

  function CellStrings(cells: seq<Cell>): seq<string> {
    seq(|cells|, i requires 0 <= i < |cells| => CellValueAsString(Some(cells[i])))
  }

  /** The line a row contributes: its cell strings joined, then a newline. */
  function RowLine(row: Row): string {
    Join(CellStrings(row.cells), CellSeparator) + "\n"
  }

  function RowsText(rows: seq<Row>): string {
    if |rows| == 0 then "" else RowLine(rows[0]) + RowsText(rows[1..])
  }

  function SheetHeader(sheet: Sheet): string {
    "Sheet: " + sheet.name + "\n"
  }

  /** The block a sheet contributes: header line, row lines, blank line. */
  function SheetBlock(sheet: Sheet): string {
    SheetHeader(sheet) + RowsText(sheet.rows) + "\n"
  }

  function WorkbookText(sheets: seq<Sheet>): string {
    if |sheets| == 0 then "" else SheetBlock(sheets[0]) + WorkbookText(sheets[1..])
  }

  /** The row text of consecutive runs of rows is the concatenation of theirs. */
  lemma {:induction false} RowsTextAppend(a: seq<Row>, b: seq<Row>)
    ensures RowsText(a + b) == RowsText(a) + RowsText(b)
    decreases |a|
  {
    if |a| == 0 {
      assert a + b == b;
    } else {
      assert (a + b)[1..] == a[1..] + b;
      RowsTextAppend(a[1..], b);
    }
  }

  /** The text of a workbook is the concatenation of its sheets' blocks, so
      appending a sheet appends exactly that sheet's block. */
  lemma {:induction false} WorkbookTextAppend(a: seq<Sheet>, b: seq<Sheet>)
    ensures WorkbookText(a + b) == WorkbookText(a) + WorkbookText(b)
    decreases |a|
  {
    if |a| == 0 {
      assert a + b == b;
    } else {
      assert (a + b)[1..] == a[1..] + b;
      WorkbookTextAppend(a[1..], b);
    }
  }

  /** A workbook without sheets yields "", and a row without cells yields
      just a line break. */
  lemma EmptyLayouts(row: Row)
    requires |row.cells| == 0
    ensures WorkbookText([]) == ""
    ensures RowLine(row) == "\n"
  {
  }

  /** The separator and the line break are the only characters the layout
      adds around cell strings, so if no cell string holds a line break the
      row's line holds exactly one. */
  lemma {:induction false} JoinNoNewline(parts: seq<string>)
    requires forall i :: 0 <= i < |parts| ==> CountChar(parts[i], '\n') == 0
    ensures CountChar(Join(parts, CellSeparator), '\n') == 0
    decreases |parts|
  {
    if |parts| >= 2 {
      var init := parts[..|parts| - 1];
      JoinNoNewline(init);
      CountCharAppend(Join(init, CellSeparator), CellSeparator, '\n');
      CountCharAppend(Join(init, CellSeparator) + CellSeparator, parts[|parts| - 1], '\n');
      CountCharAbsent(CellSeparator, '\n');
    }
  }

  /** No cell string of the row holds a line break. */
  predicate SingleLineRow(row: Row) {
    forall i :: 0 <= i < |row.cells| ==> CountChar(CellValueAsString(Some(row.cells[i])), '\n') == 0
  }

  /** One line per row: with single-line cells, the rows' text holds exactly
      as many line breaks as there are rows. */
  lemma {:induction false} RowsTextLines(rows: seq<Row>)
    requires forall i :: 0 <= i < |rows| ==> SingleLineRow(rows[i])
    ensures CountChar(RowsText(rows), '\n') == |rows|
    decreases |rows|
  {
    if |rows| > 0 {
      var cells := CellStrings(rows[0].cells);
      JoinNoNewline(cells);
      CountCharAppend(Join(cells, CellSeparator), "\n", '\n');
      RowsTextLines(rows[1..]);
      CountCharAppend(RowLine(rows[0]), RowsText(rows[1..]), '\n');
    }
  }

  /** The sheet's block is its header line, one line per row and a blank
      line: |rows| + 2 line breaks when the name and the cells are single-line. */
  lemma SheetBlockLines(sheet: Sheet)
    requires CountChar(sheet.name, '\n') == 0
    requires forall i :: 0 <= i < |sheet.rows| ==> SingleLineRow(sheet.rows[i])
    ensures CountChar(SheetBlock(sheet), '\n') == |sheet.rows| + 2
  {
    RowsTextLines(sheet.rows);
    CountCharAppend("Sheet: ", sheet.name, '\n');
    CountCharAbsent("Sheet: ", '\n');
    CountCharAppend("Sheet: " + sheet.name, "\n", '\n');
    CountCharAppend(SheetHeader(sheet), RowsText(sheet.rows), '\n');
    CountCharAppend(SheetHeader(sheet) + RowsText(sheet.rows), "\n", '\n');
  }

  /** What parseDocument returns for a file: the exception of opening the
      workbook, or its laid-out text. */
  function ParseResult(data: FileData): Result<string, Exception> {
    match data.workbook
    case Err(e) => Err(e)
    case Ok(wb) => Ok(WorkbookText(wb.sheets))
  }

  lemma RowsTextStep(rows: seq<Row>, j: nat)
    requires j < |rows|
    ensures RowsText(rows[..j + 1]) == RowsText(rows[..j]) + RowLine(rows[j])
  {
    RowsTextAppend(rows[..j], [rows[j]]);
    assert rows[..j + 1] == rows[..j] + [rows[j]];
  }

  lemma WorkbookTextStep(sheets: seq<Sheet>, i: nat)
    requires i < |sheets|
    ensures WorkbookText(sheets[..i + 1]) == WorkbookText(sheets[..i]) + SheetBlock(sheets[i])
  {
    WorkbookTextAppend(sheets[..i], [sheets[i]]);
    assert sheets[..i + 1] == sheets[..i] + [sheets[i]];
  }

  /** The StringJoiner of one row: each cell's string added in order, then
      the joined text and a line break appended. */
  method JoinCells(row: Row) returns (line: string)
    ensures line == RowLine(row)
  {
    var joiner: seq<string> := [];
    var k := 0;
    while k < |row.cells|
      invariant 0 <= k <= |row.cells|
      invariant joiner == CellStrings(row.cells[..k])
    {
      joiner := joiner + [CellValueAsString(Some(row.cells[k]))];
      k := k + 1;
    }
    assert row.cells[..k] == row.cells;
    line := Join(joiner, CellSeparator) + "\n";
  }

  /** The row loop of one sheet: each row's line in iterator order. */
  method AppendRows(rows: seq<Row>) returns (text: string)
    ensures text == RowsText(rows)
  {
    text := "";
    var j := 0;
    while j < |rows|
      invariant 0 <= j <= |rows|
      invariant text == RowsText(rows[..j])
    {
      var line := JoinCells(rows[j]);
      RowsTextStep(rows, j);
      text := text + line;
      j := j + 1;
    }
    assert rows[..j] == rows;
  }

  /** What one pass of parseDocument's sheet loop appends: the header, each
      row's line in iterator order, and the closing blank line. */
  method RenderSheet(sheet: Sheet) returns (block: string)
    ensures block == SheetBlock(sheet)
  {
    block := SheetHeader(sheet);
    var lines := AppendRows(sheet.rows);
    block := block + lines;
    block := block + "\n";
  }

  /** parseDocument: a StringBuilder filled sheet by sheet in index order;
      an exception while opening the workbook propagates. */
  method ParseDocument(data: FileData) returns (r: Result<string, Exception>)
    ensures r == ParseResult(data)
  {
    if data.workbook.Err? {
      return Err(data.workbook.error);
    }
    var sheets := data.workbook.value.sheets;
    var content := "";
    var i := 0;
    while i < |sheets|
      invariant 0 <= i <= |sheets|
      invariant content == WorkbookText(sheets[..i])
    {
      var block := RenderSheet(sheets[i]);
      WorkbookTextStep(sheets, i);
      content := content + block;
      i := i + 1;
    }
    assert sheets[..i] == sheets;
    return Ok(content);
  }
}
