/** DocumentParserFactory: the registered parsers, asked in registration
    order; the first that supports a file is used. */
module ParserFactory {
  import opened JavaText
  import opened Formats
  import PdfParser
  import ExcelParser

  /** The DocumentParser implementations of the repository. */
  datatype ParserKind = PdfDocumentParser | ExcelDocumentParser

  /** DocumentParser.supports, by implementation. */
  predicate Supports(p: ParserKind, name: string) {
    match p
    case PdfDocumentParser => PdfParser.Supports(name)
    case ExcelDocumentParser => ExcelParser.Supports(name)
  }

  /** DocumentParser.parseDocument, by implementation. */
  function Parse(p: ParserKind, data: FileData): Result<string, Exception> {
    match p
    case PdfDocumentParser => PdfParser.ParseDocument(data)
    case ExcelDocumentParser => ExcelParser.ParseResult(data)
  }

  /** getParser(file): the first parser in list order whose supports holds,
      and None (null) exactly when no parser supports the file. */
  function GetParser(parsers: seq<ParserKind>, name: string): (r: Option<ParserKind>)
    ensures r.None? <==> forall i :: 0 <= i < |parsers| ==> !Supports(parsers[i], name)
    ensures r.Some? ==> exists i :: 0 <= i < |parsers| && parsers[i] == r.value && Supports(r.value, name) &&
                           forall j :: 0 <= j < i ==> !Supports(parsers[j], name)
  {
    if |parsers| == 0 then None
    else if Supports(parsers[0], name) then Some(parsers[0])
    else
      var r := GetParser(parsers[1..], name);
      assert r.Some? ==> exists i :: 1 <= i < |parsers| && parsers[i] == r.value && Supports(r.value, name) &&
                           forall j :: 0 <= j < i ==> !Supports(parsers[j], name) by {
        if r.Some? {
          var i :| 0 <= i < |parsers[1..]| && parsers[1..][i] == r.value && Supports(r.value, name) &&
                   forall j :: 0 <= j < i ==> !Supports(parsers[1..][j], name);
          assert parsers[i + 1] == r.value;
          assert forall j :: 0 <= j < i + 1 ==> !Supports(parsers[j], name) by {
            forall j | 0 <= j < i + 1 ensures !Supports(parsers[j], name) {
              if j > 0 { assert parsers[j] == parsers[1..][j - 1]; }
            }
          }
        }
      }
      r
  }

  /** No file name is accepted by both the PDF and the spreadsheet parser:
      the lower-cased name cannot end in "f" and in "s" or "x" at once. */
  lemma SupportsDisjoint(name: string)
    ensures !(Supports(PdfDocumentParser, name) && Supports(ExcelDocumentParser, name))
  {
    var l := Lower(name);
    if EndsWith(l, ".pdf") { assert l[|l| - 1] == ".pdf"[3]; }
    if EndsWith(l, ".xlsx") { assert l[|l| - 1] == ".xlsx"[4]; }
    if EndsWith(l, ".xls") { assert l[|l| - 1] == ".xls"[3]; }
  }

  /** Because at most one of the parsers supports any name, the parser found
      is the one in the list that supports the file, whatever the order of
      registration. */
  lemma {:induction false} GetParserIgnoresOrder(parsers: seq<ParserKind>, name: string, p: ParserKind)
    ensures GetParser(parsers, name) == Some(p) <==> p in parsers && Supports(p, name)
    decreases |parsers|
  {
    SupportsDisjoint(name);
    if |parsers| > 0 && !Supports(parsers[0], name) {
      GetParserIgnoresOrder(parsers[1..], name, p);
      assert p in parsers <==> p == parsers[0] || p in parsers[1..];
    }
  }
}
