/** FileProcessingService: an uploaded file is dispatched on its declared
    content type, its text extracted (Tika for PDF, a tab-separated dump of
    the workbook for Excel), and the text appended to the output file. */
module FileProcessing {
  import opened JavaText
  import opened Formats
  import ExcelParser

  const UnsupportedMessage := "Unsupported file format. Only PDF and Excel files are allowed."
  const SuccessMessage := "File processed successfully! Extracted content saved."

  /** Cell.toString() of POI: the text of a string cell, TRUE or FALSE, the
      cell's own rendering of a number or date, the formula source, the error text, or "" for a blank. */
  function CellToString(cell: Cell): (r: string)
    ensures cell.StringCell? ==> r == cell.text
    ensures cell.BooleanCell? ==> r == (if cell.flag then "TRUE" else "FALSE")
    ensures cell.NumericCell? ==> r == cell.cellText
    ensures cell.FormulaCell? ==> r == cell.formula
    ensures cell.BlankCell? ==> r == ""
    ensures cell.ErrorCell? ==> r == cell.errorText
  {
    match cell
    case StringCell(text) => text
    case NumericCell(_, cellText) => cellText
    case BooleanCell(flag) => if flag then "TRUE" else "FALSE"
    case FormulaCell(formula) => formula
    case BlankCell => ""
    case ErrorCell(errorText) => errorText
  }

  /** Each cell's string followed by a tab. */
  function CellsText(cells: seq<Cell>): string {
    if |cells| == 0 then "" else CellsText(cells[..|cells| - 1]) + CellToString(cells[|cells| - 1]) + "\t"
  }

  /** Each row's cells, then a line break. */
  function RowsTabText(rows: seq<Row>): string {
    if |rows| == 0 then "" else RowsTabText(rows[..|rows| - 1]) + CellsText(rows[|rows| - 1].cells) + "\n"
  }

  /** The sheets' rows in order; sheets are not marked off. */
  function SheetsTabText(sheets: seq<Sheet>): string {
    if |sheets| == 0 then "" else SheetsTabText(sheets[..|sheets| - 1]) + RowsTabText(sheets[|sheets| - 1].rows)
  }

  /** What extractTextFromExcel returns: the exception of opening the
      workbook, or its tab-separated text. */
  function ExcelText(upload: FileData): (r: Result<string, Exception>)
    ensures r.Err? <==> upload.workbook.Err?
    ensures r.Err? ==> r.error == upload.workbook.error
    ensures r.Ok? && SingleLineCells(upload.workbook.value.sheets) ==>
              CountChar(r.value, '\n') == TotalRows(upload.workbook.value.sheets)
  {
    match upload.workbook
    case Err(e) => Err(e)
    case Ok(wb) =>
      SheetsTabTextLines(wb.sheets);
      Ok(SheetsTabText(wb.sheets))
  }

  /** The number of rows over all sheets. */
  function TotalRows(sheets: seq<Sheet>): nat {
    if |sheets| == 0 then 0 else TotalRows(sheets[..|sheets| - 1]) + |sheets[|sheets| - 1].rows|
  }

  /** No cell string holds a line break. */
  ghost predicate SingleLineCells(sheets: seq<Sheet>) {
    forall s, k, i :: 0 <= s < |sheets| && 0 <= k < |sheets[s].rows| && 0 <= i < |sheets[s].rows[k].cells| ==>
      CountChar(CellToString(sheets[s].rows[k].cells[i]), '\n') == 0
  }

  /** With single-line cells, the workbook's text holds one line per row. */
  lemma {:induction false} SheetsTabTextLines(sheets: seq<Sheet>)
    ensures SingleLineCells(sheets) ==> CountChar(SheetsTabText(sheets), '\n') == TotalRows(sheets)
    decreases |sheets|
  {
    if |sheets| > 0 && SingleLineCells(sheets) {
      var init := sheets[..|sheets| - 1];
      var last := sheets[|sheets| - 1];
      assert SingleLineCells(init) by {
        forall s, k, i | 0 <= s < |init| && 0 <= k < |init[s].rows| && 0 <= i < |init[s].rows[k].cells|
          ensures CountChar(CellToString(init[s].rows[k].cells[i]), '\n') == 0
        {
          assert init[s] == sheets[s];
        }
      }
      SheetsTabTextLines(init);
      RowsTabTextLines(last.rows);
      CountCharAppend(SheetsTabText(init), RowsTabText(last.rows), '\n');
    }
  }

  /** No cell string holds a tab. */
  predicate TabFree(cells: seq<Cell>) {
    forall i :: 0 <= i < |cells| ==> CountChar(CellToString(cells[i]), '\t') == 0
  }

  /** Every cell is followed by exactly one tab: a row of tab-free cells
      yields as many tabs as cells. */
  lemma {:induction false} CellsTextTabs(cells: seq<Cell>)
    requires TabFree(cells)
    ensures CountChar(CellsText(cells), '\t') == |cells|
    decreases |cells|
  {
    if |cells| > 0 {
      var init := cells[..|cells| - 1];
      var last := CellToString(cells[|cells| - 1]);
      assert TabFree(init) by {
        forall i | 0 <= i < |init| ensures CountChar(CellToString(init[i]), '\t') == 0 {
          assert init[i] == cells[i];
        }
      }
      CellsTextTabs(init);
      CountCharAppend(CellsText(init), last, '\t');
      CountCharAppend(CellsText(init) + last, "\t", '\t');
    }
  }

  /** Every row ends with one line break: with no line break inside the
      cells, the rows' text holds exactly as many as there are rows. */
  lemma {:induction false} RowsTabTextLines(rows: seq<Row>)
    requires forall r, i :: 0 <= r < |rows| && 0 <= i < |rows[r].cells| ==>
               CountChar(CellToString(rows[r].cells[i]), '\n') == 0
    ensures CountChar(RowsTabText(rows), '\n') == |rows|
    decreases |rows|
  {
    if |rows| > 0 {
      var init := rows[..|rows| - 1];
      var cells := rows[|rows| - 1].cells;
      RowsTabTextLines(init);
      CellsTextNoNewline(cells);
      CountCharAppend(RowsTabText(init), CellsText(cells), '\n');
      CountCharAppend(RowsTabText(init) + CellsText(cells), "\n", '\n');
    }
  }

  lemma {:induction false} CellsTextNoNewline(cells: seq<Cell>)
    requires forall i :: 0 <= i < |cells| ==> CountChar(CellToString(cells[i]), '\n') == 0
    ensures CountChar(CellsText(cells), '\n') == 0
    decreases |cells|
  {
    if |cells| > 0 {
      var init := cells[..|cells| - 1];
      assert forall i :: 0 <= i < |init| ==> init[i] == cells[i];
      CellsTextNoNewline(init);
      CountCharAppend(CellsText(init), CellToString(cells[|cells| - 1]), '\n');
      CountCharAppend(CellsText(init) + CellToString(cells[|cells| - 1]), "\t", '\n');
      CountCharAbsent("\t", '\n');
    }
  }

  /** A row without cells yields a bare line break, and an empty workbook "". */
  lemma EmptyTabLayouts(row: Row)
    requires |row.cells| == 0
    ensures RowsTabText([row]) == "\n"
    ensures SheetsTabText([]) == ""
  {
    assert [row][..0] == [];
  }

  /** The spreadsheet text of the upload and of the directory ingestion
      differ on the same row: here cells end with a tab, there they are
      joined with " | "; booleans print upper-case here; a number or date
      prints as the cell's own text here and as the value's text there. */
  lemma LayoutsDiffer(valueText: string, cellText: string)
    ensures RowsTabText([Row([BooleanCell(true)])]) == "TRUE\t\n"
    ensures ExcelParser.RowsText([Row([BooleanCell(true)])]) == "true\n"
    ensures RowsTabText([Row([NumericCell(valueText, cellText)])]) == cellText + "\t\n"
    ensures ExcelParser.RowsText([Row([NumericCell(valueText, cellText)])]) == valueText + "\n"
  {
    var rows := [Row([BooleanCell(true)])];
    assert rows[..0] == [];
    assert rows[0].cells[..0] == [];
    var numbers := [Row([NumericCell(valueText, cellText)])];
    assert numbers[..0] == [];
    assert numbers[0].cells[..0] == [];
  }

  /** The branch processFile takes on the declared content type. */
  datatype Branch = PdfBranch | ExcelBranch | UnsupportedBranch

  function ContentTypeBranch(contentType: Option<string>): (b: Branch)
    ensures b == PdfBranch <==> contentType.Some? && Contains(contentType.value, "pdf")
    ensures b == ExcelBranch <==>
              contentType.Some? && !Contains(contentType.value, "pdf") && Contains(contentType.value, "excel")
  {
    if contentType.Some? && Contains(contentType.value, "pdf") then PdfBranch
    else if contentType.Some? && Contains(contentType.value, "excel") then ExcelBranch
    else UnsupportedBranch
  }

  /** The PDF type and the legacy spreadsheet type reach their branches; a
      missing content type is refused. */
  lemma ContentTypeExamples()
    ensures ContentTypeBranch(Some("application/pdf")) == PdfBranch
    ensures ContentTypeBranch(Some("application/vnd.ms-excel")) == ExcelBranch
    ensures ContentTypeBranch(None) == UnsupportedBranch
  {
    assert MatchesAt("application/pdf", "pdf", 12);
    ExcelTypeNotPdf();
  }

  /** The legacy spreadsheet type names Excel and does not name PDF. */
  lemma ExcelTypeNotPdf()
    ensures Contains("application/vnd.ms-excel", "excel")
    ensures !Contains("application/vnd.ms-excel", "pdf")
  {
    var xls := "application/vnd.ms-excel";
    assert MatchesAt(xls, "excel", 19);
    assert 'f' !in xls;
    forall k | 0 <= k <= |xls| - 3 ensures !MatchesAt(xls, "pdf", k) {
      assert xls[k..k + 3][2] == xls[k + 2] != 'f';
    }
  }

  /** The text processFile extracts, or None on the unsupported branch. */
  function Extraction(contentType: Option<string>, upload: FileData): Option<Result<string, Exception>> {
    match ContentTypeBranch(contentType)
    case PdfBranch => Some(upload.tikaText)
    case ExcelBranch => Some(ExcelText(upload))
    case UnsupportedBranch => None
  }

  class FileProcessingService {
    /** The contents of extracted_data.txt, opened for appending. */
    var output: string

    constructor (existing: string)
      ensures output == existing
    {
      output := existing;
    }

    /** processFile(file): refused content types and failed extractions
        leave the output as it was; a success appends the text and a line
        break, keeping what was there. */
    method ProcessFile(contentType: Option<string>, upload: FileData) returns (r: Result<string, Exception>)
      modifies this
      ensures match Extraction(contentType, upload)
              case None => r == Ok(UnsupportedMessage) && output == old(output)
              case Some(Err(e)) => r == Err(e) && output == old(output)
              case Some(Ok(text)) => r == Ok(SuccessMessage) && output == old(output) + text + "\n"
    {
      var extracted: Result<string, Exception>;
      if contentType.Some? && Contains(contentType.value, "pdf") {
        extracted := upload.tikaText;
      } else if contentType.Some? && Contains(contentType.value, "excel") {
        extracted := ExtractTextFromExcel(upload);
      } else {
        return Ok(UnsupportedMessage);
      }
      if extracted.Err? {
        return Err(extracted.error);
      }
      SaveToFile(extracted.value);
      return Ok(SuccessMessage);
    }

    /** saveToFile(content): the content and a line break appended. */
    method SaveToFile(content: string)
      modifies this
      ensures output == old(output) + content + "\n"
    {
      output := output + content + "\n";
    }
  }

  /** One pass of the row loop: each cell's string and a tab, then a line
      break. */
  method AppendRow(row: Row) returns (line: string)
    ensures line == CellsText(row.cells) + "\n"
  {
    var cells := row.cells;
    line := "";
    for j := 0 to |cells|
      invariant line == CellsText(cells[..j])
    {
      assert cells[..j + 1][..j] == cells[..j];
      line := line + CellToString(cells[j]) + "\t";
    }
    assert cells[..|cells|] == cells;
    line := line + "\n";
  }

  /** One pass of the sheet loop: the sheet's rows in iterator order. */
  method AppendSheet(sheet: Sheet) returns (text: string)
    ensures text == RowsTabText(sheet.rows)
  {
    var rows := sheet.rows;
    text := "";
    for i := 0 to |rows|
      invariant text == RowsTabText(rows[..i])
    {
      var line := AppendRow(rows[i]);
      assert rows[..i + 1][..i] == rows[..i];
      text := text + line;
    }
    assert rows[..|rows|] == rows;
  }

  /** extractTextFromExcel(file): a StringBuilder filled by three nested
      for-each loops; an exception opening the workbook propagates. */
  method ExtractTextFromExcel(upload: FileData) returns (r: Result<string, Exception>)
    ensures r == ExcelText(upload)
  {
    if upload.workbook.Err? {
      return Err(upload.workbook.error);
    }
    var sheets := upload.workbook.value.sheets;
    var extractedText := "";
    for s := 0 to |sheets|
      invariant extractedText == SheetsTabText(sheets[..s])
    {
      var text := AppendSheet(sheets[s]);
      assert sheets[..s + 1][..s] == sheets[..s];
      extractedText := extractedText + text;
    }
    assert sheets[..|sheets|] == sheets;
    return Ok(extractedText);
  }
}
