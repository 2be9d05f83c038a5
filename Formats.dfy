/** What the document libraries (Apache Tika, Apache POI) make of a file's
    bytes. The libraries themselves are not part of this model: a file is
    described by the answers they give. */
module Formats {
  import opened JavaText

  /** A spreadsheet cell by POI cell type. A numeric cell (a date included)
      carries the two texts the libraries print for it, since that formatting
      is theirs: `valueText` is what String.valueOf of the number, or
      Date.toString for a date-formatted cell, gives; `cellText` is what the
      cell's own toString gives (dd-MMM-yyyy for a date). The two differ in
      general. */
  datatype Cell =
    | StringCell(text: string)
    | NumericCell(valueText: string, cellText: string)
    | BooleanCell(flag: bool)
    | FormulaCell(formula: string)
    | BlankCell
    | ErrorCell(errorText: string)

  /** The cells a row iterator yields, in column order. */
  datatype Row = Row(cells: seq<Cell>)

  /** A sheet: its name and the rows its row iterator yields, in order. */
  datatype Sheet = Sheet(name: string, rows: seq<Row>)

  /** A workbook: its sheets in index order. */
  datatype Workbook = Workbook(sheets: seq<Sheet>)

  /** One file as the libraries see it: the text Tika extracts from it, and
      the workbook POI opens from it; Err is the exception each would throw. */
  datatype FileData = FileData(tikaText: Result<string, Exception>, workbook: Result<Workbook, Exception>)
}
