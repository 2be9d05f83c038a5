/** PdfDocumentParser: accepts files by extension and hands them to Tika. */
module PdfParser {
  import opened JavaText
  import opened Formats

  /** supports(file): the lower-cased file name ends with ".pdf", that is,
      the name's last four characters spell ".pdf" in any letter case. */
  predicate Supports(name: string): (b: bool)
    ensures b <==> |name| >= 4 && Lower(name[|name| - 4..]) == ".pdf"
  {
    assert |name| >= 4 ==> Lower(name)[|name| - 4..] == Lower(name[|name| - 4..]);
    EndsWith(Lower(name), ".pdf")
  }

  /** parseDocument(file): whatever Tika's auto-detecting parser extracts. */
  function ParseDocument(data: FileData): Result<string, Exception> {
    data.tikaText
  }

  /** The test is case-insensitive: a name and its lower-cased form are
      accepted alike. */
  lemma SupportsIgnoresCase(name: string)
    ensures Supports(name) <==> Supports(Lower(name))
  {
    LowerIdempotent(name);
  }

  /** An upper-case extension is accepted; a later suffix hides ".pdf". */
  lemma SupportsExamples()
    ensures Supports("REPORT.PDF")
    ensures !Supports("a.pdf.bak")
  {
    var upper := Lower("REPORT.PDF");
    assert upper[6..] == ".pdf";
    var bak := Lower("a.pdf.bak");
    assert bak[8] == 'k';
  }
}
