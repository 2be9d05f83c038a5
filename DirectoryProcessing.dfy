/** DirectoryProcessingService: schedules a directory for ingestion (a job
    row and a Kafka message), reports a job's status, and processes a
    directory: the job goes to PROCESSING, the tree is walked depth-first,
    and the job ends COMPLETED, or FAILED when the walk itself throws. */
module DirectoryProcessing {
  import opened JavaText
  import opened Uuids
  import opened Formats
  import opened Jobs
  import opened VectorDb
  import opened ParserFactory
  import PdfParser
  import ExcelParser

  const Topic := "directory-processing-topic"

  /** An entry of a directory as java.io.File reports it. A file also carries
      what the outside services answer when it is processed: the Milvus insert
      outcome and whether the metadata save throws. */
  datatype Entry =
    | FileEntry(name: string, data: FileData, insert: InsertOutcome, metadataSaveFails: bool)
    | DirEntry(name: string, listing: Listing)

  /** listFiles() of a directory: null, a SecurityException, or the entries
      in the order the filesystem returns them. */
  datatype Listing = Unlistable | Forbidden(message: Option<string>) | Listed(entries: seq<Entry>)

  /** What exists at each path. */
  type FileSystem = map<string, Entry>

  predicate IsDirectory(fs: FileSystem, path: string) {
    path in fs && fs[path].DirEntry?
  }

  /** listFiles() of new File(path): null unless a directory is there. */
  function ListingAt(fs: FileSystem, path: string): Listing {
    if IsDirectory(fs, path) then fs[path].listing else Unlistable
  }

  /** The path of an entry listed in directory `dir`. */
  function ChildPath(dir: string, name: string): string {
    dir + "/" + name
  }

  /** getFileType(file): the tag agrees with the parser that accepts the
      name, and is "UNKNOWN" when neither does. */
  function GetFileType(name: string): (r: string)
    ensures r == "PDF" <==> PdfParser.Supports(name)
    ensures r == "EXCEL" <==> ExcelParser.Supports(name)
    ensures r == "UNKNOWN" <==> !PdfParser.Supports(name) && !ExcelParser.Supports(name)
  {
    SupportsDisjoint(name);
    var fileName := Lower(name);
    if EndsWith(fileName, ".pdf") then "PDF"
    else if EndsWith(fileName, ".xlsx") || EndsWith(fileName, ".xls") then "EXCEL"
    else "UNKNOWN"
  }

  /** How a walk ends: normally, or with an exception that escapes it. Either
      way the stores keep what was written before. */
  datatype WalkOutcome = Finished(store: StoreState) | Aborted(store: StoreState, error: Exception)

  /** The per-file block of processFilesRecursively, inside its try/catch: no
      parser means nothing is written; a parse exception is caught before any
      write; a parsed file gets one storeEmbedding, then one
      storeDocumentMetadata with the id that call returned. */
  function FileStep(st: StoreState, e: Entry, path: string, parsers: seq<ParserKind>,
                    embed: string -> seq<real>): (out: StoreState)
    requires e.FileEntry?
    ensures Extends(st, out)
    ensures |out.documents| == |st.documents| + (if Ingested(e, parsers) then 1 else 0)
  {
    match GetParser(parsers, e.name)
    case None => st
    case Some(p) =>
      match Parse(p, e.data)
      case Err(_) => st
      case Ok(content) =>
        var (st1, vectorId) := StoreEmbeddingSpec(st, embed(content), path, e.insert);
        StoreMetadataSpec(st1, path, content, GetFileType(e.name), vectorId, e.metadataSaveFails)
  }

  /** processFilesRecursively(directory), given its listing. */
  function WalkListing(st: StoreState, listing: Listing, dir: string, parsers: seq<ParserKind>,
                       embed: string -> seq<real>): (r: WalkOutcome)
    ensures r.Aborted? ==> r.error.name == "SecurityException"
    decreases listing
  {
    match listing
    case Unlistable => Finished(st)
    case Forbidden(m) => Aborted(st, Exception("SecurityException", m))
    case Listed(entries) => WalkEntries(st, entries, dir, parsers, embed)
  }

  /** The for loop over the listed entries: a subdirectory is walked outside
      the per-file try, so what escapes it ends the loop. */
  function WalkEntries(st: StoreState, entries: seq<Entry>, dir: string, parsers: seq<ParserKind>,
                       embed: string -> seq<real>): (r: WalkOutcome)
    ensures r.Aborted? ==> r.error.name == "SecurityException"
    decreases entries
  {
    if |entries| == 0 then Finished(st)
    else
      var e := entries[0];
      var path := ChildPath(dir, e.name);
      var first := if e.DirEntry? then WalkListing(st, e.listing, path, parsers, embed)
                   else Finished(FileStep(st, e, path, parsers, embed));
      match first
      case Aborted(_, _) => first
      case Finished(st1) => WalkEntries(st1, entries[1..], dir, parsers, embed)
  }

  /** The job row after processDirectory found it and the walk ended. The
      status is set with no check of the old one; the error message is only
      ever set, never cleared. */
  function FinalRecord(row: JobRecord, outcome: WalkOutcome): (r: JobRecord)
    ensures r.id == row.id && r.directoryPath == row.directoryPath
    ensures r.status == COMPLETED <==> outcome.Finished?
    ensures r.status == FAILED <==> outcome.Aborted?
    ensures r.errorMessage == (if outcome.Aborted? then outcome.error.message else row.errorMessage)
  {
    match outcome
    case Finished(_) => row.(status := COMPLETED)
    case Aborted(_, error) => row.(status := FAILED, errorMessage := error.message)
  }

  /** The first entry of a loop: an escaped exception ends it, otherwise the
      rest runs on the stores the entry left. */
  lemma WalkEntriesFirst(st: StoreState, entries: seq<Entry>, dir: string, parsers: seq<ParserKind>,
                         embed: string -> seq<real>)
    requires |entries| > 0
    ensures var e := entries[0];
            var path := ChildPath(dir, e.name);
            var first := if e.DirEntry? then WalkListing(st, e.listing, path, parsers, embed)
                         else Finished(FileStep(st, e, path, parsers, embed));
            WalkEntries(st, entries, dir, parsers, embed) ==
              (if first.Aborted? then first else WalkEntries(first.store, entries[1..], dir, parsers, embed))
  {
  }

  /** A run's writes only add: rows already written stay, the counter only
      grows, and every metadata row the run adds carries an id taken during
      the run, each larger than the one before. */
  ghost predicate Extends(st: StoreState, out: StoreState) {
    st.counter <= out.counter &&
    st.vectors <= out.vectors &&
    st.documents <= out.documents &&
    (forall k :: |st.documents| <= k < |out.documents| ==>
       out.documents[k].vectorId.Some? && st.counter <= out.documents[k].vectorId.value < out.counter) &&
    (forall k, l :: |st.documents| <= k < l < |out.documents| ==>
       out.documents[k].vectorId.value < out.documents[l].vectorId.value)
  }

  lemma ExtendsTransitive(a: StoreState, b: StoreState, c: StoreState)
    requires Extends(a, b) && Extends(b, c)
    ensures Extends(a, c)
  {
    forall k, l | |a.documents| <= k < l < |c.documents|
      ensures c.documents[k].vectorId.value < c.documents[l].vectorId.value
    {
      if l < |b.documents| {
        assert c.documents[k] == b.documents[k] && c.documents[l] == b.documents[l];
      } else if k < |b.documents| {
        assert c.documents[k] == b.documents[k];
      }
    }
    forall k | |a.documents| <= k < |c.documents|
      ensures c.documents[k].vectorId.Some? && a.counter <= c.documents[k].vectorId.value < c.counter
    {
      if k < |b.documents| {
        assert c.documents[k] == b.documents[k];
      }
    }
  }

  /** Every walk, however it ends, only adds rows, with fresh increasing ids. */
  lemma {:induction false} WalkListingExtends(st: StoreState, listing: Listing, dir: string,
                                              parsers: seq<ParserKind>, embed: string -> seq<real>)
    ensures Extends(st, WalkListing(st, listing, dir, parsers, embed).store)
    decreases listing
  {
    if listing.Listed? {
      WalkEntriesExtends(st, listing.entries, dir, parsers, embed);
    }
  }

  lemma {:induction false} WalkEntriesExtends(st: StoreState, entries: seq<Entry>, dir: string,
                                              parsers: seq<ParserKind>, embed: string -> seq<real>)
    ensures Extends(st, WalkEntries(st, entries, dir, parsers, embed).store)
    decreases entries
  {
    if |entries| > 0 {
      var e := entries[0];
      var path := ChildPath(dir, e.name);
      var first := if e.DirEntry? then WalkListing(st, e.listing, path, parsers, embed)
                   else Finished(FileStep(st, e, path, parsers, embed));
      if e.DirEntry? {
        WalkListingExtends(st, e.listing, path, parsers, embed);
      }
      if first.Finished? {
        WalkEntriesExtends(first.store, entries[1..], dir, parsers, embed);
        ExtendsTransitive(st, first.store, WalkEntries(first.store, entries[1..], dir, parsers, embed).store);
      }
    }
  }

  /** No listFiles() in the tree throws. */
  predicate ListingSafe(listing: Listing)
    decreases listing
  {
    match listing
    case Unlistable => true
    case Forbidden(_) => false
    case Listed(entries) => EntriesSafe(entries)
  }

  predicate EntriesSafe(entries: seq<Entry>)
    decreases entries
  {
    |entries| == 0 || ((entries[0].DirEntry? ==> ListingSafe(entries[0].listing)) && EntriesSafe(entries[1..]))
  }

  /** A file that ends up with a metadata row: a parser accepts it, parses
      it, and the save goes through. */
  predicate Ingested(e: Entry, parsers: seq<ParserKind>) {
    e.FileEntry? && GetParser(parsers, e.name).Some? &&
    Parse(GetParser(parsers, e.name).value, e.data).Ok? && !e.metadataSaveFails
  }

  /** Path and type tag of every row a safe tree yields, in depth-first
      listing order. */
  function ListingRows(listing: Listing, dir: string, parsers: seq<ParserKind>): seq<(string, string)>
    decreases listing
  {
    match listing
    case Listed(entries) => EntriesRows(entries, dir, parsers)
    case _ => []
  }

  function EntriesRows(entries: seq<Entry>, dir: string, parsers: seq<ParserKind>): seq<(string, string)>
    decreases entries
  {
    if |entries| == 0 then []
    else
      var e := entries[0];
      var path := ChildPath(dir, e.name);
      if e.DirEntry? then ListingRows(e.listing, path, parsers) + EntriesRows(entries[1..], dir, parsers)
      else if Ingested(e, parsers) then [(path, GetFileType(e.name))] + EntriesRows(entries[1..], dir, parsers)
      else EntriesRows(entries[1..], dir, parsers)
  }

  function RowsOf(docs: seq<DocumentRecord>): seq<(string, string)> {
    seq(|docs|, i requires 0 <= i < |docs| => (docs[i].filePath, docs[i].fileType))
  }

  lemma RowsOfAppend(a: seq<DocumentRecord>, b: seq<DocumentRecord>)
    ensures RowsOf(a + b) == RowsOf(a) + RowsOf(b)
  {
  }

  lemma FileStepRows(st: StoreState, e: Entry, path: string, parsers: seq<ParserKind>, embed: string -> seq<real>)
    requires e.FileEntry?
    ensures RowsOf(FileStep(st, e, path, parsers, embed).documents) ==
            RowsOf(st.documents) + (if Ingested(e, parsers) then [(path, GetFileType(e.name))] else [])
  {
    var out := FileStep(st, e, path, parsers, embed);
    if Ingested(e, parsers) {
      assert out.documents == st.documents + [out.documents[|st.documents|]];
      RowsOfAppend(st.documents, [out.documents[|st.documents|]]);
    } else {
      assert out.documents == st.documents;
    }
  }

  /** When no listing throws, the walk finishes, however many files fail to
      parse or to save, and it writes one row per ingested file, in
      depth-first order; an unlistable directory contributes nothing. */
  lemma {:induction false} WalkListingRows(st: StoreState, listing: Listing, dir: string,
                                           parsers: seq<ParserKind>, embed: string -> seq<real>)
    requires ListingSafe(listing)
    ensures WalkListing(st, listing, dir, parsers, embed).Finished?
    ensures RowsOf(WalkListing(st, listing, dir, parsers, embed).store.documents) ==
            RowsOf(st.documents) + ListingRows(listing, dir, parsers)
    decreases listing
  {
    if listing.Listed? {
      WalkEntriesRows(st, listing.entries, dir, parsers, embed);
    }
  }

  lemma {:induction false} WalkEntriesRows(st: StoreState, entries: seq<Entry>, dir: string,
                                           parsers: seq<ParserKind>, embed: string -> seq<real>)
    requires EntriesSafe(entries)
    ensures WalkEntries(st, entries, dir, parsers, embed).Finished?
    ensures RowsOf(WalkEntries(st, entries, dir, parsers, embed).store.documents) ==
            RowsOf(st.documents) + EntriesRows(entries, dir, parsers)
    decreases entries
  {
    if |entries| > 0 {
      var e := entries[0];
      var path := ChildPath(dir, e.name);
      var first := if e.DirEntry? then WalkListing(st, e.listing, path, parsers, embed)
                   else Finished(FileStep(st, e, path, parsers, embed));
      if e.DirEntry? {
        WalkListingRows(st, e.listing, path, parsers, embed);
      } else {
        FileStepRows(st, e, path, parsers, embed);
      }
      WalkEntriesRows(first.store, entries[1..], dir, parsers, embed);
    }
  }

  /** The file names of the example below: "a.pdf" is a PDF, "b.bin" matches
      no parser. */
  lemma ExampleNames()
    ensures PdfParser.Supports("a.pdf") && GetFileType("a.pdf") == "PDF"
    ensures !PdfParser.Supports("b.bin") && !ExcelParser.Supports("b.bin")
  {
    assert Lower("a.pdf")[1..] == ".pdf";
    assert Lower("b.bin")[4] == 'n';
  }

  /** The entries of the example below: a PDF whose text Tika extracts, and a
      ".bin" file. */
  function ExamplePdf(text: string): Entry {
    FileEntry("a.pdf", FileData(Ok(text), Err(Exception("IOException", None))), InsertAnswered(SuccessStatus), false)
  }

  function ExampleBin(other: FileData): Entry {
    FileEntry("b.bin", other, InsertAnswered(SuccessStatus), false)
  }

  /** The PDF is ingested, whatever else is registered, and the other file
      is skipped. */
  lemma ExampleIngested(text: string, other: FileData, parsers: seq<ParserKind>)
    requires PdfDocumentParser in parsers
    ensures Ingested(ExamplePdf(text), parsers) && !Ingested(ExampleBin(other), parsers)
    ensures GetFileType("a.pdf") == "PDF"
  {
    ExampleNames();
    GetParserIgnoresOrder(parsers, "a.pdf", PdfDocumentParser);
    assert GetParser(parsers, "b.bin").None?;
  }

  /** Two files side by side, the first ingested and the second not: one
      row, for the first. */
  lemma OneOfTwoRows(a: Entry, b: Entry, dir: string, parsers: seq<ParserKind>)
    requires a.FileEntry? && b.FileEntry? && Ingested(a, parsers) && !Ingested(b, parsers)
    ensures EntriesSafe([a, b])
    ensures EntriesRows([a, b], dir, parsers) == [(ChildPath(dir, a.name), GetFileType(a.name))]
  {
    assert [a, b][1..] == [b];
    assert [b][1..] == [];
    assert EntriesRows([b], dir, parsers) == [];
  }

  /** A directory holding one PDF that parses and one ".bin" file: the walk
      finishes and writes exactly one row, tagged "PDF", for the PDF. */
  lemma OnePdfOneBin(st: StoreState, dir: string, text: string, other: FileData, parsers: seq<ParserKind>,
                     embed: string -> seq<real>)
    requires PdfDocumentParser in parsers
    ensures var out := WalkListing(st, Listed([ExamplePdf(text), ExampleBin(other)]), dir, parsers, embed);
            out.Finished? && RowsOf(out.store.documents) == RowsOf(st.documents) + [(ChildPath(dir, "a.pdf"), "PDF")]
  {
    ExampleIngested(text, other, parsers);
    OneOfTwoRows(ExamplePdf(text), ExampleBin(other), dir, parsers);
    WalkListingRows(st, Listed([ExamplePdf(text), ExampleBin(other)]), dir, parsers, embed);
  }

  /** KafkaTemplate: the messages sent, in order. */
  class KafkaTemplate {
    var sent: seq<(string, string, string)>

    constructor ()
      ensures sent == []
    {
      sent := [];
    }

    /** send(topic, key, value) */
    method Send(topic: string, key: string, value: string)
      modifies this
      ensures sent == old(sent) + [(topic, key, value)]
    {
      sent := sent + [(topic, key, value)];
    }
  }

  class DirectoryProcessingService {
    const jobs: JobRepository
    const kafka: KafkaTemplate
    const parsers: seq<ParserKind>
    /** EmbeddingService.generateEmbedding: never throws; its result is opaque here. */
    const embed: string -> seq<real>
    const vectorDb: VectorDbService

    ghost predicate Valid()
      reads this, jobs, vectorDb
    {
      jobs.Valid() && vectorDb.Valid()
    }

    constructor (jobs: JobRepository, kafka: KafkaTemplate, parsers: seq<ParserKind>,
                 embed: string -> seq<real>, vectorDb: VectorDbService)
      ensures this.jobs == jobs && this.kafka == kafka && this.parsers == parsers
      ensures this.embed == embed && this.vectorDb == vectorDb
    {
      this.jobs := jobs;
      this.kafka := kafka;
      this.parsers := parsers;
      this.embed := embed;
      this.vectorDb := vectorDb;
    }

    /** scheduleDirectoryProcessing(directoryPath); UUID.randomUUID() is
        passed in as newId. A path that is not an existing directory throws
        before anything is written or sent; otherwise one QUEUED row is saved
        and one message sent, keyed by the job id and carrying the path. */
    method ScheduleDirectoryProcessing(directoryPath: string, fs: FileSystem, newId: Uuid)
      returns (r: Result<Uuid, Exception>)
      requires Valid()
      modifies jobs, kafka
      ensures Valid()
      ensures !IsDirectory(fs, directoryPath) ==>
                r == Err(IllegalArgument("Invalid directory path: " + directoryPath)) &&
                jobs.jobs == old(jobs.jobs) && jobs.saved == old(jobs.saved) && kafka.sent == old(kafka.sent)
      ensures IsDirectory(fs, directoryPath) ==>
                var row := JobRecord(newId, directoryPath, QUEUED, None);
                r == Ok(newId) &&
                jobs.jobs == old(jobs.jobs)[newId := row] && jobs.saved == old(jobs.saved) + [row] &&
                kafka.sent == old(kafka.sent) + [(Topic, ToString(newId), directoryPath)]
    {
      if !IsDirectory(fs, directoryPath) {
        return Err(IllegalArgument("Invalid directory path: " + directoryPath));
      }
      var job := new ProcessingJob(newId, directoryPath, QUEUED);
      jobs.Save(job);
      kafka.Send(Topic, ToString(newId), directoryPath);
      return Ok(newId);
    }

    /** getProcessingStatus(processId): the stored status, or the exception
        for an unknown id. */
    function GetProcessingStatus(processId: Uuid): (r: Result<ProcessingStatus, Exception>)
      reads jobs
      ensures r.Ok? <==> processId in jobs.jobs
      ensures r.Ok? ==> r.value == jobs.jobs[processId].status
      ensures r.Err? ==> r.error == IllegalArgument("Processing job not found")
    {
      if processId in jobs.jobs then Ok(jobs.jobs[processId].status)
      else Err(IllegalArgument("Processing job not found"))
    }

    /** processDirectory(jobId, directoryPath). A missing job: the exception
        is caught, the second lookup finds nothing, nothing is written. An
        existing job, whatever its status: PROCESSING is saved, the tree is
        walked, then COMPLETED, or FAILED with the escaped exception's
        message, is saved. */
    method ProcessDirectory(jobId: Uuid, directoryPath: string, fs: FileSystem)
      requires Valid()
      modifies jobs, vectorDb
      ensures Valid()
      ensures jobId !in old(jobs.jobs) ==>
                jobs.jobs == old(jobs.jobs) && jobs.saved == old(jobs.saved) &&
                vectorDb.State() == old(vectorDb.State())
      ensures jobId in old(jobs.jobs) ==>
                var row := old(jobs.jobs[jobId]);
                var outcome := WalkListing(old(vectorDb.State()), ListingAt(fs, directoryPath), directoryPath,
                                           parsers, embed);
                vectorDb.State() == outcome.store &&
                jobs.saved == old(jobs.saved) + [row.(status := PROCESSING), FinalRecord(row, outcome)] &&
                jobs.jobs == old(jobs.jobs)[jobId := FinalRecord(row, outcome)]
    {
      var job := jobs.FindById(jobId);
      if job == null {
        // orElseThrow: the exception is caught and the job looked up again
        var again := jobs.FindById(jobId);
        return;
      }
      ghost var row := jobs.jobs[jobId];
      job.SetStatus(PROCESSING);
      jobs.Save(job);
      ghost var outcome := WalkListing(vectorDb.State(), ListingAt(fs, directoryPath), directoryPath, parsers, embed);
      var error := ProcessFilesRecursively(ListingAt(fs, directoryPath), directoryPath);
      RecordOutcome(job, error, outcome);
    }

    /** The end of processDirectory's try block, or its catch block: the job
        saved COMPLETED, or looked up again and saved FAILED with the
        exception's message. */
    method RecordOutcome(job: ProcessingJob, error: Option<Exception>, ghost outcome: WalkOutcome)
      requires jobs.Valid() && job.id in jobs.jobs && jobs.jobs[job.id] == job.Record()
      requires error.None? <==> outcome.Finished?
      requires error.Some? ==> error.value == outcome.error
      modifies jobs, job
      ensures jobs.Valid()
      ensures jobs.jobs == old(jobs.jobs)[job.id := FinalRecord(old(job.Record()), outcome)]
      ensures jobs.saved == old(jobs.saved) + [FinalRecord(old(job.Record()), outcome)]
    {
      if error.None? {
        job.SetStatus(COMPLETED);
        jobs.Save(job);
      } else {
        var failed := jobs.FindById(job.id);
        failed.SetStatus(FAILED);
        failed.SetErrorMessage(error.value.message);
        jobs.Save(failed);
      }
    }

    /** processFilesRecursively(directory), given the directory's listing. */
    method ProcessFilesRecursively(listing: Listing, dir: string) returns (error: Option<Exception>)
      requires vectorDb.Valid()
      modifies vectorDb
      ensures vectorDb.Valid()
      ensures var outcome := WalkListing(old(vectorDb.State()), listing, dir, parsers, embed);
              vectorDb.State() == outcome.store &&
              (error.None? <==> outcome.Finished?) &&
              (error.Some? ==> error.value == outcome.error)
      decreases listing
    {
      match listing {
        case Unlistable =>
          return None;
        case Forbidden(m) =>
          return Some(Exception("SecurityException", m));
        case Listed(entries) =>
          ghost var st0 := vectorDb.State();
          var i := 0;
          while i < |entries|
            invariant 0 <= i <= |entries|
            invariant vectorDb.Valid()
            invariant WalkEntries(vectorDb.State(), entries[i..], dir, parsers, embed) ==
                      WalkEntries(st0, entries, dir, parsers, embed)
          {
            var e := entries[i];
            assert entries[i..][0] == e && entries[i..][1..] == entries[i + 1..];
            var path := ChildPath(dir, e.name);
            WalkEntriesFirst(vectorDb.State(), entries[i..], dir, parsers, embed);
            if e.DirEntry? {
              var sub := ProcessFilesRecursively(e.listing, path);
              if sub.Some? {
                return sub;
              }
            } else {
              ProcessFile(e, path);
            }
            i := i + 1;
          }
          return None;
      }
    }

    /** One file, inside the per-file try/catch of processFilesRecursively. */
    method ProcessFile(e: Entry, path: string)
      requires e.FileEntry? && vectorDb.Valid()
      modifies vectorDb
      ensures vectorDb.Valid()
      ensures vectorDb.State() == FileStep(old(vectorDb.State()), e, path, parsers, embed)
    {
      var parser := GetParser(parsers, e.name);
      if parser.None? {
        return;
      }
      var content: Result<string, Exception>;
      if parser.value == ExcelDocumentParser {
        content := ExcelParser.ParseDocument(e.data);
      } else {
        content := PdfParser.ParseDocument(e.data);
      }
      if content.Err? {
        // caught and logged
        return;
      }
      var embedding := embed(content.value);
      var vectorId := vectorDb.StoreEmbedding(embedding, path, e.insert);
      var thrown := vectorDb.StoreDocumentMetadata(path, content.value, GetFileType(e.name), vectorId,
                                                   e.metadataSaveFails);
      // a thrown save is caught and logged; the id stays consumed
    }
  }

  /** Redelivering the message of a job that already COMPLETED runs it again:
      its status goes back to PROCESSING before it ends COMPLETED again. */
  method RedeliveryReprocesses(service: DirectoryProcessingService, jobId: Uuid, path: string)
    requires service.Valid()
    requires jobId in service.jobs.jobs && service.jobs.jobs[jobId].status == COMPLETED
    modifies service.jobs, service.vectorDb
    ensures |service.jobs.saved| == |old(service.jobs.saved)| + 2
    ensures service.jobs.saved[|old(service.jobs.saved)|].status == PROCESSING
    ensures jobId in service.jobs.jobs && service.jobs.jobs[jobId].status == COMPLETED
  {
    service.ProcessDirectory(jobId, path, map[]);
  }
}
