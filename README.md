# NeuraSearch ingestion and search core, in Dafny

This project models the core of NeuraSearch, a Spring service that ingests directories of PDF and Excel files into a Milvus vector collection and searches them.

**Ingestion**
- `DirectoryProcessingService` validates a directory, records a `ProcessingJob` as QUEUED and sends a Kafka message.
- `DirectoryProcessingConsumer` parses that message and calls `processDirectory`.
- `processDirectory` moves the job to PROCESSING and walks the tree depth-first.
  - For each file that a parser from `DocumentParserFactory` accepts, it parses the text, has `VectorDbService` insert an embedding under a fresh vector id, and writes a metadata row. The row holds the path, a 5000-character preview, the type tag and the vector id.
  - Finally the job ends COMPLETED, or FAILED when an exception escapes the walk.

**Search** (`SearchService`)
- It joins the hits of a Milvus search with the metadata rows by vector id, keeps the rows scoring at least the minimum, and sorts them by descending score.
- Whenever that path has nothing to join, or throws, it falls back to a keyword search. The keyword search counts non-overlapping occurrences of the lower-cased query.

**Upload** (`FileProcessingService`)
- It dispatches an upload on its content type, extracts its text and appends the text to an output file.

**How the model is built**
- Everything outside the JVM is passed in as a value:
  - the directory tree, with the per-file answers of the stores;
  - what Tika and POI make of each file;
  - the Milvus answers;
  - the embedding function.
- Objects whose fields the code updates in place are classes with `modifies` frames: the job, the job repository, the vector service, the Kafka template, the services themselves.
- Each imperative operation is proved equal to a specification function. The specification functions carry the lemmas.

**Files**

| file | models |
|---|---|
| `JavaText.dfy` | `Option`, `Result`, exceptions; `String.toLowerCase` (ASCII), `endsWith`, `contains`, `indexOf`, `trim().isEmpty()`, `StringJoiner` |
| `Uuids.dfy` | `UUID.toString` and `UUID.fromString` |
| `Formats.dfy` | the library answers for one file: Tika text and POI workbook |
| `PdfParser.dfy`, `ExcelParser.dfy`, `ParserFactory.dfy` | the parsers and the registry |
| `Jobs.dfy` | `ProcessingJob`, `ProcessingJobRepository` |
| `VectorDb.dfy` | `VectorDbService` |
| `DirectoryProcessing.dfy` | `DirectoryProcessingService` and the file tree |
| `Consumer.dfy` | `DirectoryProcessingConsumer` |
| `Search.dfy` | `SearchService` |
| `FileProcessing.dfy` | `FileProcessingService` |

**Producer/consumer mismatch, modelled as written**
- `scheduleDirectoryProcessing` sends the job id as the Kafka record key and only the directory path as the value.
- `consume` reads only the value and expects `"<job id>,<path>"` in it.
- `Consumer.ProducerValueNeverDispatches` shows that a value the producer sends never reaches `processDirectory` when the path has no comma or is absolute.
- `Consumer.WellFormedMessageDispatches` shows the format the consumer does accept.

**Vector ids are reused after a restart**
- The vector id counter lives only in memory and restarts at 1.
- A restarted service hands out ids that rows written earlier already carry (`VectorDb.RestartReusesIds`).

**The vector path only gets through a single hit**
- `search` sends one target vector, and the hit loop runs `numQueries` times, where `numQueries` is `getRowRecords().size()`.
- The SDK is taken to count the first target's hits there, and to throw from `getIDScore(i)` for an index with no target.
- With two or more hits, `getIDScore(1)` therefore throws, and the search answers with the keyword search (`Search.ManyHitsFallBack`).
- `Search.VectorResultsSound` and `Search.VectorResultsComplete` describe the answers the loops do get through.

## Model

| member | source | states |
|---|---|---|
| JavaText.IndexOf | src/main/java/com/example/neura_search/service/SearchService.java:197 | the result is -1 or a position at or after the start where the whole term fits in the text |
| JavaText.IndexOfFirstMatch | src/main/java/com/example/neura_search/service/SearchService.java:197 | -1 means no match at or after the start; otherwise the term occurs at the result and at no position between the start and the result |
| Uuids.ToString | src/main/java/com/example/neura_search/service/DirectoryProcessingService.java:56 | the text form of a job id is 36 characters long |
| Uuids.FromString | src/main/java/com/example/neura_search/kafka/DirectoryProcessingConsumer.java:23 | parsing succeeds exactly on the canonical 8-4-4-4-12 hexadecimal form |
| Uuids.FromStringToString | src/main/java/com/example/neura_search/kafka/DirectoryProcessingConsumer.java:23 | parsing the text of a UUID gives that UUID back |
| Uuids.ToStringFromString | src/main/java/com/example/neura_search/kafka/DirectoryProcessingConsumer.java:23 | a parsed UUID prints as the lower-cased input, so parsing loses only letter case |
| PdfParser.Supports | src/main/java/com/example/neura_search/parser/PdfDocumentParser.java:26-29 | a name is accepted exactly when its last four characters spell ".pdf" in any letter case |
| PdfParser.SupportsIgnoresCase | src/main/java/com/example/neura_search/parser/PdfDocumentParser.java:26-29 | the PDF test accepts a name exactly when it accepts its lower-cased form |
| PdfParser.SupportsExamples | src/main/java/com/example/neura_search/parser/PdfDocumentParser.java:27-28 | "REPORT.PDF" is accepted and "a.pdf.bak" is not |
| ExcelParser.CellValueAsString | src/main/java/com/example/neura_search/parser/ExcelDocumentParser.java:43-63 | a null cell gives ""; a string cell gives its text; a number or date gives the value's own text (`String.valueOf` or `Date.toString`); a boolean gives "true"/"false"; a formula gives its source; blank and error cells give "" |
| ExcelParser.Supports | src/main/java/com/example/neura_search/parser/ExcelDocumentParser.java:66-69 | a name is accepted exactly when its last five characters spell ".xlsx" or its last four spell ".xls", in any letter case |
| ExcelParser.RowsTextAppend | src/main/java/com/example/neura_search/parser/ExcelDocumentParser.java:25-35 | the text of consecutive runs of rows is the concatenation of their texts |
| ExcelParser.WorkbookTextAppend | src/main/java/com/example/neura_search/parser/ExcelDocumentParser.java:20-37 | the workbook text is the concatenation of the sheet blocks, so appending a sheet appends its block |
| ExcelParser.EmptyLayouts | src/main/java/com/example/neura_search/parser/ExcelDocumentParser.java:15-40 | a workbook without sheets yields "", and a row without cells yields a bare line break |
| ExcelParser.JoinNoNewline | src/main/java/com/example/neura_search/parser/ExcelDocumentParser.java:27-34 | joining single-line cell strings with " \| " adds no line break |
| ExcelParser.RowsTextLines | src/main/java/com/example/neura_search/parser/ExcelDocumentParser.java:25-35 | with single-line cells, each row yields exactly one line |
| ExcelParser.SheetBlockLines | src/main/java/com/example/neura_search/parser/ExcelDocumentParser.java:20-37 | a sheet block holds its header line, one line per row and one blank line |
| ExcelParser.JoinCells | src/main/java/com/example/neura_search/parser/ExcelDocumentParser.java:27-34 | the joiner loop yields the cell strings joined with " \| ", then a line break |
| ExcelParser.AppendRows | src/main/java/com/example/neura_search/parser/ExcelDocumentParser.java:25-35 | the row loop appends each row's line, in iterator order |
| ExcelParser.RenderSheet | src/main/java/com/example/neura_search/parser/ExcelDocumentParser.java:22-36 | one pass of the sheet loop appends the header, the row lines in order and a blank line |
| ExcelParser.ParseDocument | src/main/java/com/example/neura_search/parser/ExcelDocumentParser.java:14-41 | the result is the sheet blocks in index order, or the exception from opening the workbook |
| ParserFactory.GetParser | src/main/java/com/example/neura_search/parser/DocumentParserFactory.java:16-21 | null exactly when no parser supports the file; otherwise a parser that supports it, with no earlier parser in the list supporting it |
| ParserFactory.SupportsDisjoint | src/main/java/com/example/neura_search/parser/PdfDocumentParser.java:28 | no name is accepted by both the PDF and the spreadsheet parser |
| ParserFactory.GetParserIgnoresOrder | src/main/java/com/example/neura_search/parser/DocumentParserFactory.java:16-21 | the parser chosen is the registered one that supports the name, whatever the registration order |
| Jobs.ProcessingJob.constructor | src/main/java/com/example/neura_search/model/ProcessingJob.java:34-40 | id, path and status are the arguments, and the error message starts null |
| Jobs.ProcessingJob.SetStatus | src/main/java/com/example/neura_search/model/ProcessingJob.java:60-62 | sets the status to any value and changes nothing else |
| Jobs.ProcessingJob.SetErrorMessage | src/main/java/com/example/neura_search/model/ProcessingJob.java:68-70 | sets the error message and changes nothing else |
| Jobs.NoTransitionGuard | src/main/java/com/example/neura_search/model/ProcessingJob.java:60-62 | a COMPLETED job can be set back to QUEUED; id and path stay as constructed |
| Jobs.JobRepository.Save | src/main/java/com/example/neura_search/repository/ProcessingJobRepository.java:10 | save inserts or overwrites the job's row and is logged in order |
| Jobs.JobRepository.FindById | src/main/java/com/example/neura_search/repository/ProcessingJobRepository.java:10 | null exactly for an unknown id; otherwise a new entity holding the stored row |
| VectorDb.Preview | src/main/java/com/example/neura_search/service/VectorDbService.java:131 | content of at most 5000 characters is kept; longer content becomes its first 5000 characters plus "..." |
| VectorDb.PreviewIdempotent | src/main/java/com/example/neura_search/service/VectorDbService.java:131 | a preview is at most 5003 characters long, and the preview of a preview is itself |
| VectorDb.StoreEmbeddingSpec | src/main/java/com/example/neura_search/service/VectorDbService.java:83-124 | an answered insert returns the reserved id and advances the counter by 1; an exception returns a second id and advances it by 2; a row lands exactly on Success; metadata is untouched |
| VectorDb.StoreMetadataSpec | src/main/java/com/example/neura_search/service/VectorDbService.java:127-138 | one row is appended carrying the path, the preview, the type and the vector id, or nothing when the save throws |
| VectorDb.VectorDbService.constructor | src/main/java/com/example/neura_search/service/VectorDbService.java:29-35 | the counter starts at 1; the collection is created only when the probe reports it absent and the create succeeds |
| VectorDb.VectorDbService.InitializeCollection | src/main/java/com/example/neura_search/service/VectorDbService.java:37-80 | an existing collection is never touched; one is created exactly when the probe answers that it is absent and the create succeeds; every error is swallowed |
| VectorDb.VectorDbService.StoreEmbedding | src/main/java/com/example/neura_search/service/VectorDbService.java:83-124 | the new state and the returned id are those of the specification function, and every id returned exceeds all ids returned before |
| VectorDb.VectorDbService.StoreDocumentMetadata | src/main/java/com/example/neura_search/service/VectorDbService.java:127-138 | the stored rows are those of the specification function; reports whether the save threw |
| VectorDb.SequentialIds | src/main/java/com/example/neura_search/service/VectorDbService.java:83-124 | two calls in a row return strictly increasing ids; a throwing insert returns the attempted id plus one |
| VectorDb.RestartReusesIds | src/main/java/com/example/neura_search/service/VectorDbService.java:29 | after a restart the first id handed out is 1, which a stored row may already carry |
| DirectoryProcessing.GetFileType | src/main/java/com/example/neura_search/service/DirectoryProcessingService.java:122-127 | "PDF" exactly when the PDF parser accepts the name; "EXCEL" exactly when the spreadsheet parser does; "UNKNOWN" otherwise |
| DirectoryProcessing.FileStep | src/main/java/com/example/neura_search/service/DirectoryProcessingService.java:102-117 | processing one file only adds rows, each with a vector id taken during that step, and adds exactly one row when the file is ingested and none otherwise |
| DirectoryProcessing.WalkListing | src/main/java/com/example/neura_search/service/DirectoryProcessingService.java:94-120 | the only exception that escapes a walk is the `SecurityException` of a listing; every per-file failure is caught |
| DirectoryProcessing.WalkEntries | src/main/java/com/example/neura_search/service/DirectoryProcessingService.java:97-119 | the same for the loop over a directory's entries |
| DirectoryProcessing.FinalRecord | src/main/java/com/example/neura_search/service/DirectoryProcessingService.java:79-88 | the job keeps its id and path; it ends COMPLETED exactly when the walk finished and FAILED exactly when it aborted; the error message becomes the exception's message only on failure |
| DirectoryProcessing.WalkListingExtends | src/main/java/com/example/neura_search/service/DirectoryProcessingService.java:94-120 | a walk, finished or aborted, keeps earlier rows and adds rows whose vector ids are fresh and strictly increasing |
| DirectoryProcessing.WalkEntriesExtends | src/main/java/com/example/neura_search/service/DirectoryProcessingService.java:98-119 | the same for the loop over a directory's entries |
| DirectoryProcessing.FileStepRows | src/main/java/com/example/neura_search/service/DirectoryProcessingService.java:103-113 | a file yields one row with its path and type when a parser accepts it, parses it and the save succeeds; otherwise it yields none |
| DirectoryProcessing.WalkListingRows | src/main/java/com/example/neura_search/service/DirectoryProcessingService.java:94-120 | when no listing throws, the walk finishes despite per-file failures and writes one row per ingested file, in depth-first order; an unlistable directory adds nothing |
| DirectoryProcessing.WalkEntriesRows | src/main/java/com/example/neura_search/service/DirectoryProcessingService.java:98-119 | the same for the loop over a directory's entries |
| DirectoryProcessing.OnePdfOneBin | src/main/java/com/example/neura_search/service/DirectoryProcessingService.java:94-120 | a directory holding a parsable "a.pdf" and a "b.bin" finishes and writes exactly one row, for "<dir>/a.pdf", tagged "PDF" |
| DirectoryProcessing.KafkaTemplate.Send | src/main/java/com/example/neura_search/service/DirectoryProcessingService.java:56 | the message is appended to those sent |
| DirectoryProcessing.DirectoryProcessingService.ScheduleDirectoryProcessing | src/main/java/com/example/neura_search/service/DirectoryProcessingService.java:43-59 | an invalid path gives IllegalArgumentException("Invalid directory path: " + path) and writes and sends nothing; a valid path saves one QUEUED job, sends (topic, id text, path) and returns the id |
| DirectoryProcessing.DirectoryProcessingService.GetProcessingStatus | src/main/java/com/example/neura_search/service/DirectoryProcessingService.java:62-66 | the stored status for a known id; IllegalArgumentException("Processing job not found") for an unknown one |
| DirectoryProcessing.DirectoryProcessingService.ProcessDirectory | src/main/java/com/example/neura_search/service/DirectoryProcessingService.java:69-92 | an unknown job changes nothing; a known job, in any status, is saved PROCESSING, the tree is walked, then the job is saved COMPLETED, or FAILED with the escaped exception's message |
| DirectoryProcessing.DirectoryProcessingService.RecordOutcome | src/main/java/com/example/neura_search/service/DirectoryProcessingService.java:79-91 | a finished walk saves the job COMPLETED; an escaped exception saves the re-read job FAILED with the exception's message; the saved row replaces the job's row |
| DirectoryProcessing.DirectoryProcessingService.ProcessFilesRecursively | src/main/java/com/example/neura_search/service/DirectoryProcessingService.java:94-120 | the stores end as the walk function says; an exception is reported exactly when the walk aborts |
| DirectoryProcessing.DirectoryProcessingService.ProcessFile | src/main/java/com/example/neura_search/service/DirectoryProcessingService.java:102-117 | the stores end as the per-file step says: no parser or a parse exception writes nothing; otherwise one embedding is stored, then one metadata row with the returned id |
| DirectoryProcessing.RedeliveryReprocesses | src/main/java/com/example/neura_search/service/DirectoryProcessingService.java:69-81 | a COMPLETED job whose message arrives again goes back through PROCESSING |
| Consumer.SplitFirstComma | src/main/java/com/example/neura_search/kafka/DirectoryProcessingConsumer.java:21 | one part, the whole value, exactly when it has no comma; otherwise a comma-free head and the rest after the first comma |
| Consumer.SplitUnique | src/main/java/com/example/neura_search/kafka/DirectoryProcessingConsumer.java:21 | a value splits at its first comma in only one way |
| Consumer.ParseMessage | src/main/java/com/example/neura_search/kafka/DirectoryProcessingConsumer.java:21-25 | a value without a comma is ignored; a dispatched job id and path re-form the value up to letter case |
| Consumer.WellFormedMessageDispatches | src/main/java/com/example/neura_search/kafka/DirectoryProcessingConsumer.java:21-25 | "<id>,<path>" dispatches that id and that path, commas in the path included |
| Consumer.TrailingCommaDispatchesEmptyPath | src/main/java/com/example/neura_search/kafka/DirectoryProcessingConsumer.java:21-25 | "<id>," dispatches the id with an empty path |
| Consumer.ProducerValueNeverDispatches | src/main/java/com/example/neura_search/kafka/DirectoryProcessingConsumer.java:21-23 | a value holding only a path without a comma, or an absolute path, never reaches processDirectory |
| Consumer.DirectoryProcessingConsumer.Consume | src/main/java/com/example/neura_search/kafka/DirectoryProcessingConsumer.java:19-30 | processDirectory runs exactly for a dispatched message, with its effect; otherwise nothing changes |
| Search.OccurrencesBound | src/main/java/com/example/neura_search/service/SearchService.java:194-202 | the counted matches do not overlap: n matches take n times the term's length |
| Search.ContainsIffOccurs | src/main/java/com/example/neura_search/service/SearchService.java:166-172 | the count is at least one exactly when the text contains the term |
| Search.CountFromOccurrences | src/main/java/com/example/neura_search/service/SearchService.java:194-202 | counting from the match indexOf finds gives the same number as the scan from the start position |
| Search.CountOccurrences | src/main/java/com/example/neura_search/service/SearchService.java:194-202 | the loop counts the non-overlapping left-to-right matches |
| Search.Insert | src/main/java/com/example/neura_search/service/SearchService.java:139 | insertion adds exactly the one element |
| Search.InsertSorted | src/main/java/com/example/neura_search/service/SearchService.java:139 | inserting into a descending list keeps it descending |
| Search.SortByScore | src/main/java/com/example/neura_search/service/SearchService.java:139 | the result is in non-increasing score order and a permutation of the input |
| Search.InsertWithScore | src/main/java/com/example/neura_search/service/SearchService.java:139 | insertion puts the element first among those of equal score |
| Search.SortStable | src/main/java/com/example/neura_search/service/SearchService.java:182 | the sort keeps the input order among results of equal score |
| Search.FallbackScoreBounds | src/main/java/com/example/neura_search/service/SearchService.java:173 | a match scores between 0.75 and 0.95, never less for more occurrences, and 0.95 exactly from five on |
| Search.NonBlankLower | src/main/java/com/example/neura_search/service/SearchService.java:154-160 | a query that is not blank lower-cases to a non-empty term |
| Search.KeywordMatchesMembers | src/main/java/com/example/neura_search/service/SearchService.java:164-181 | the filter and map keep exactly the rows whose lower-cased content (null as "") contains the query, each mapped to its result |
| Search.KeywordScores | src/main/java/com/example/neura_search/service/SearchService.java:169-181 | every keyword result scores between 0.75 and 0.95 |
| Search.FallbackSearch | src/main/java/com/example/neura_search/service/SearchService.java:151-192 | the fallback is sorted by descending score, empty for a blank query, and holds at most `limit` results, none for a negative limit |
| Search.FallbackSearchProperties | src/main/java/com/example/neura_search/service/SearchService.java:151-192 | every fallback result is the result of a row whose lower-cased content holds the query, with a score between 0.75 and 0.95 |
| Search.FallbackKeepsTop | src/main/java/com/example/neura_search/service/SearchService.java:182-186 | for a non-negative limit, exactly min(limit, matches) results come back, the first ones of the sorted matches, and no match left out scores above one kept; when the limit leaves room, every match is returned |
| Search.IdsLength | src/main/java/com/example/neura_search/service/SearchService.java:97-105 | one id is collected per hit |
| Search.CollectedHits | src/main/java/com/example/neura_search/service/SearchService.java:89-105 | with the single target search sends, the loops get through exactly when at most one hit came back, and then collect that hit list |
| Search.ScoreMapLastWins | src/main/java/com/example/neura_search/service/SearchService.java:97-105 | an id has a score exactly when the store returned it, and the score is that of its last hit |
| Search.MatchingDocsMembers | src/main/java/com/example/neura_search/service/SearchService.java:114-117 | the join keeps exactly the stored rows whose vector id was returned |
| Search.ScoredMembers | src/main/java/com/example/neura_search/service/SearchService.java:125-136 | a result is built exactly for a joined row whose score is present and at least the minimum |
| Search.VectorResultsSound | src/main/java/com/example/neura_search/service/SearchService.java:97-143 | vector results are sorted, and each comes from a stored row whose id the store returned, carrying that id's last score, which is at least the minimum |
| Search.VectorResultsComplete | src/main/java/com/example/neura_search/service/SearchService.java:97-143 | every stored row whose returned id scores at least the minimum is among the vector results |
| Search.BelowMinimumNoFallback | src/main/java/com/example/neura_search/service/SearchService.java:119-143 | when the loops collected hits, rows joined, and every score is below the minimum, search returns [] and does not fall back |
| Search.NothingJoinedFallsBack | src/main/java/com/example/neura_search/service/SearchService.java:89-122 | when the loops throw, or no stored row carries a collected id (no hits included), search returns the keyword search |
| Search.ManyHitsFallBack | src/main/java/com/example/neura_search/service/SearchService.java:90-105 | for the single target search sends, two or more hits make getIDScore(1) throw and search returns the keyword search; one hit reaches the join |
| Search.VectorPath | src/main/java/com/example/neura_search/service/SearchService.java:47-143 | a vector answer exists only for a non-empty embedding and a successful answer whose hits the loops collected, and it is sorted by descending score |
| Search.SearchSpec | src/main/java/com/example/neura_search/service/SearchService.java:40-149 | [] for a blank query, and the results are sorted by descending score in every case |
| Search.CollectScores | src/main/java/com/example/neura_search/service/SearchService.java:97-105 | the loop throws exactly when numQueries exceeds the number of targets; otherwise it collects every hit id of the first numQueries targets in order, with the last score per id |
| Search.BuildResults | src/main/java/com/example/neura_search/service/SearchService.java:125-136 | the loop builds one result per joined row scoring at least the minimum, in order |
| Search.Search | src/main/java/com/example/neura_search/service/SearchService.java:40-149 | [] for a blank query; the vector results when the vector path joins rows; the keyword search otherwise |
| FileProcessing.CellToString | src/main/java/com/example/neura_search/service/FileProcessingService.java:44 | cell text by type: string text, TRUE/FALSE, the cell's own rendering of a number or date, the formula source, "" for blank, the error text |
| FileProcessing.CellsTextTabs | src/main/java/com/example/neura_search/service/FileProcessingService.java:43-45 | with tab-free cells, a row's text holds one tab per cell |
| FileProcessing.CellsTextNoNewline | src/main/java/com/example/neura_search/service/FileProcessingService.java:43-45 | with single-line cells, a row's cells add no line break |
| FileProcessing.RowsTabTextLines | src/main/java/com/example/neura_search/service/FileProcessingService.java:42-47 | with single-line cells, each row yields exactly one line |
| FileProcessing.SheetsTabTextLines | src/main/java/com/example/neura_search/service/FileProcessingService.java:40-49 | with single-line cells, the workbook text holds one line per row over all sheets |
| FileProcessing.EmptyTabLayouts | src/main/java/com/example/neura_search/service/FileProcessingService.java:41-48 | a row without cells yields a bare line break, and a workbook without sheets yields "" |
| FileProcessing.LayoutsDiffer | src/main/java/com/example/neura_search/service/FileProcessingService.java:43-46 | the same one-cell boolean row reads "TRUE\t\n" on upload and "true\n" in directory ingestion |
| FileProcessing.ContentTypeBranch | src/main/java/com/example/neura_search/service/FileProcessingService.java:20-26 | PDF exactly when the content type contains "pdf"; Excel exactly when it contains "excel" but not "pdf"; otherwise unsupported |
| FileProcessing.ContentTypeExamples | src/main/java/com/example/neura_search/service/FileProcessingService.java:20-26 | "application/pdf" takes the PDF branch; "application/vnd.ms-excel" takes the Excel branch; a null type is refused |
| FileProcessing.FileProcessingService.ProcessFile | src/main/java/com/example/neura_search/service/FileProcessingService.java:16-30 | unsupported gives the refusal message and writes nothing; an extraction exception propagates and writes nothing; success appends the text and a line break and gives the success message |
| FileProcessing.FileProcessingService.SaveToFile | src/main/java/com/example/neura_search/service/FileProcessingService.java:53-59 | the content and a line break are appended after what the output held |
| FileProcessing.AppendRow | src/main/java/com/example/neura_search/service/FileProcessingService.java:42-47 | each cell's string followed by a tab, then a line break |
| FileProcessing.AppendSheet | src/main/java/com/example/neura_search/service/FileProcessingService.java:41-48 | a sheet's rows in iterator order |
| FileProcessing.ExtractTextFromExcel | src/main/java/com/example/neura_search/service/FileProcessingService.java:36-51 | the sheets' tab-separated rows in order, or the exception from opening the workbook |
| FileProcessing.ExcelText | src/main/java/com/example/neura_search/service/FileProcessingService.java:36-51 | the exception of opening the workbook propagates unchanged, and only then is there an error; otherwise, with single-line cells, the text holds one line per row of the workbook |

## Left out

- Uuids.FromString: accepts only the canonical 36-character 8-4-4-4-12 hexadecimal form. Every non-canonical form `UUID.fromString` accepts is rejected here: shorter groups such as "1-2-3-4-5", and 36-character values whose dash-delimited groups `Long.parseLong` still reads, such as a group with a leading `+` or `-` sign or dashes at other positions. Values over 36 characters are rejected in both, with a different message in the JDK.
- Java `float`/`double` arithmetic is modelled with reals. For example, `0.7f + n * 0.05f` only approximates 0.7 + 0.05·n. NaN scores and their ordering under `Double.compare` are not modelled.
- Strings are sequences of Unicode scalar values, while Java's `length()`, `substring` and `indexOf` count UTF-16 code units. For text with characters outside the Basic Multilingual Plane, the model therefore counts lengths and positions differently from the JVM:
  - VectorDb.Preview cuts at 5000 characters, not 5000 code units. Java's `substring(0, 5000)` may split a surrogate pair; the model never does.
  - JavaText.IndexOf and Search.Occurrences report positions in characters, so the occurrence count's positions, and the lengths in Search.OccurrencesBound, are in characters. The count itself agrees for well-formed text.
- `String.toLowerCase` is modelled on ASCII letters only, and `trim().isEmpty()` as "every character is at most U+0020". The JDK's locale-dependent case mapping can change lengths; that is not modelled.
- EmbeddingService is an opaque function from text to a vector. Its HTTP call, its 8000-character input truncation and its random 1536-length fallback are not modelled. A null embedding is folded into the empty one.
- Milvus is replaced by answers passed in:
  - the probe and create of `initializeCollection`;
  - the outcome of each insert;
  - the search response.
  - Builder validation, such as an out-of-range topK, and every other exception of the vector path are folded into `SearchRaised`.
  - The Milvus SDK's `SearchResultsWrapper` is modelled by Search.CollectedHits, taken to behave as follows: `getRowRecords()` reads the first target's hits, and `getIDScore(i)` throws for an index with no target. The SDK is not part of this model, so this reading of it is an assumption. Under it, `numQueries` counts the hits of the single target `search` sends, and two or more hits make the loop throw, so the search falls back to the keyword search (Search.ManyHitsFallBack).
- The limit passed to Milvus as topK bounds the number of hits the store returns. The model takes whatever hits the response carries.
- Tika and POI are replaced by their answers for each file: the extracted text, the workbook, or an exception. Number and date rendering is the libraries': a numeric cell carries both texts, the value's (`String.valueOf` or `Date.toString`, read by the ingestion parser) and the cell's own `toString` (read on upload), since the two differ, for dates in particular. The distinction between `WorkbookFactory` (ingestion) and `XSSFWorkbook` (upload) lies in those answers.
- PdfParser.ParseDocument: passes on Tika's answer for the file, the extracted text or the exception, with nothing of its own to state beyond that.
- Transactions (`@Transactional`) are not modelled:
  - Every save takes effect at once and is never rolled back.
  - A metadata save that throws inside the shared transaction would mark it rollback-only. That effect is not modelled.
  - Readers do not see PROCESSING before commit; the model does not capture that either.
- Failures of the job repository, of the metadata repository's reads, of Kafka sends and of the output file writes are not modelled.
- Concurrency is not modelled: the atomic counter, concurrent consumers and Kafka's asynchrony. Everything runs sequentially.
- Paths are modelled as follows:
  - `file.getAbsolutePath()` is modelled as the directory path, "/" and the entry name; normalisation and relative paths are not modelled.
  - `Files.exists`/`Files.isDirectory` are modelled by the file tree; symbolic links, and walks over link cycles, are not modelled.
  - A `SecurityException` is modelled only where `listFiles` raises it.
- The `createdAt`/`updatedAt` timestamps and the 1000-character limit of the error message column are not modelled.
- `BufferedWriter.newLine()` is modelled as "\n", whatever the platform separator.
- Logging and `System.err` output are not modelled.
- Controllers, authentication, bean configuration, the role seeding and the DTO accessors are not modelled; they only delegate or wire.
