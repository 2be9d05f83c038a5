/** VectorDbService: the Milvus collection "documents", the process-wide
    vector id counter, and the metadata rows written next to each vector.
    Milvus answers are passed in as outcomes; the collection and the metadata
    repository are modelled as in-memory sequences. */
module VectorDb {
  import opened JavaText

  /** R.Status.Success.getCode() */
  const SuccessStatus := 0
  const CollectionName := "documents"
  const VectorDimension := 1536
  const PathMaxLength := 1024
  const PreviewLimit := 5000

  /** The collection layout initializeCollection creates. */
  datatype Schema = Schema(name: string, idField: string, pathField: string, pathMaxLength: nat,
                           vectorField: string, dimension: nat)

  const DocumentsSchema := Schema(CollectionName, "id", "path", PathMaxLength, "embedding", VectorDimension)

  /** One row of the Milvus collection. */
  datatype VectorEntry = VectorEntry(id: int, path: string, embedding: seq<real>)

  /** DocumentEmbedding: a metadata row. Content and vector id are nullable
      columns, hence options. */
  datatype DocumentRecord = DocumentRecord(filePath: string, content: Option<string>, fileType: string,
                                           vectorId: Option<int>)

  /** What hasCollection does: answer truthfully, answer with null data (the
      unboxing then throws), or throw. */
  datatype Probe = ProbeAnswered | ProbeNoData | ProbeRaised

  /** What milvusClient.insert does for one call. */
  datatype InsertOutcome = InsertAnswered(status: int) | InsertRaised(message: Option<string>)

  /** The service's state as a value: the counter, the collection's rows and
      the metadata rows. */
  datatype StoreState = StoreState(counter: int, vectors: seq<VectorEntry>, documents: seq<DocumentRecord>)

  /** The content column of storeDocumentMetadata: at most 5000 characters
      kept, "..." marking a cut. */
  function Preview(content: string): (r: string)
    ensures |content| <= PreviewLimit ==> r == content
    ensures |content| > PreviewLimit ==> |r| == PreviewLimit + 3 && r == content[..PreviewLimit] + "..."
  {
    if |content| > PreviewLimit then content[..PreviewLimit] + "..." else content
  }

  /** A preview is never longer than 5003 characters, and taking the preview
      of a preview changes nothing. */
  lemma PreviewIdempotent(content: string)
    ensures |Preview(content)| <= PreviewLimit + 3
    ensures Preview(Preview(content)) == Preview(content)
  {
    if |content| > PreviewLimit {
      var p := Preview(content);
      assert p[..PreviewLimit] == content[..PreviewLimit];
    }
  }

  /** storeEmbedding on the state value: the id is reserved before the insert;
      the row lands only on a Success status, a failed status is only logged
      and the reserved id is still returned; an exception reserves a second id
      and returns that one. */
  function StoreEmbeddingSpec(st: StoreState, embedding: seq<real>, path: string, outcome: InsertOutcome)
    : (res: (StoreState, int))
    ensures res.0.documents == st.documents
    ensures outcome.InsertAnswered? ==> res.1 == st.counter && res.0.counter == st.counter + 1
    ensures outcome.InsertRaised? ==> res.1 == st.counter + 1 && res.0.counter == st.counter + 2
    ensures res.0.vectors == st.vectors + [VectorEntry(res.1, path, embedding)] <==> outcome == InsertAnswered(SuccessStatus)
    ensures res.0.vectors != st.vectors ==> res.0.vectors == st.vectors + [VectorEntry(res.1, path, embedding)]
  {
    var attempted := st.counter;
    match outcome
    case InsertAnswered(status) =>
      var vectors := if status == SuccessStatus then st.vectors + [VectorEntry(attempted, path, embedding)] else st.vectors;
      (StoreState(attempted + 1, vectors, st.documents), attempted)
    case InsertRaised(_) =>
      (StoreState(attempted + 2, st.vectors, st.documents), attempted + 1)
  }

  /** storeDocumentMetadata on the state value: one row appended, whose path,
      type and vector id are the arguments, or nothing when the save throws. */
  function StoreMetadataSpec(st: StoreState, path: string, content: string, fileType: string, vectorId: int,
                             saveFails: bool): (r: StoreState)
    ensures r.counter == st.counter && r.vectors == st.vectors
    ensures saveFails ==> r.documents == st.documents
    ensures !saveFails ==> |r.documents| == |st.documents| + 1 && r.documents[..|st.documents|] == st.documents
    ensures !saveFails ==> var d := r.documents[|st.documents|];
              d.filePath == path && d.fileType == fileType && d.vectorId == Some(vectorId) &&
              d.content == Some(Preview(content))
  {
    if saveFails then st
    else st.(documents := st.documents + [DocumentRecord(path, Some(Preview(content)), fileType, Some(vectorId))])
  }

  class VectorDbService {
    /** idCounter: the next id getAndIncrement hands out. */
    var idCounter: int
    /** The Milvus collection, if it exists. */
    var collection: Option<Schema>
    var vectors: seq<VectorEntry>
    /** DocumentEmbeddingRepository's rows. */
    var documents: seq<DocumentRecord>
    /** Every id storeEmbedding returned in this process, in order. */
    ghost var issued: seq<int>

    ghost predicate Valid()
      reads this
    {
      1 <= idCounter &&
      (forall i, j :: 0 <= i < j < |issued| ==> issued[i] < issued[j]) &&
      (forall i :: 0 <= i < |issued| ==> issued[i] < idCounter)
    }

    function State(): StoreState
      reads this
    {
      StoreState(idCounter, vectors, documents)
    }

    /** A service starting over the collection and rows that already exist:
        the counter starts at 1 and initializeCollection runs once. */
    constructor (existing: Option<Schema>, storedVectors: seq<VectorEntry>, storedDocuments: seq<DocumentRecord>,
                 probe: Probe, createFails: bool)
      ensures Valid() && idCounter == 1 && issued == []
      ensures vectors == storedVectors && documents == storedDocuments
      ensures collection == (if existing.None? && probe == ProbeAnswered && !createFails then Some(DocumentsSchema)
                             else existing)
    {
      idCounter := 1;
      collection := existing;
      vectors := storedVectors;
      documents := storedDocuments;
      issued := [];
      new;
      InitializeCollection(probe, createFails);
    }

    /** initializeCollection: creates the collection only when hasCollection
        reports it absent; every error (null data, an exception, a failed
        create) is swallowed, so an existing collection is never touched. */
    method InitializeCollection(probe: Probe, createFails: bool)
      modifies this`collection
      ensures old(collection).Some? ==> collection == old(collection)
      ensures collection != old(collection) <==> old(collection).None? && probe == ProbeAnswered && !createFails
      ensures collection != old(collection) ==> collection == Some(DocumentsSchema)
    {
      if probe == ProbeAnswered {
        var collectionExists := collection.Some?;
        if !collectionExists {
          if !createFails {
            collection := Some(DocumentsSchema);
          }
        }
      }
    }

    /** storeEmbedding(embedding, filePath) */
    method StoreEmbedding(embedding: seq<real>, filePath: string, outcome: InsertOutcome) returns (vectorId: int)
      requires Valid()
      modifies this`idCounter, this`vectors, this`issued
      ensures Valid()
      ensures (State(), vectorId) == StoreEmbeddingSpec(old(State()), embedding, filePath, outcome)
      ensures issued == old(issued) + [vectorId]
    {
      var attempted := idCounter;
      idCounter := idCounter + 1;
      match outcome {
        case InsertAnswered(status) =>
          if status == SuccessStatus {
            vectors := vectors + [VectorEntry(attempted, filePath, embedding)];
          }
          vectorId := attempted;
        case InsertRaised(_) =>
          vectorId := idCounter;
          idCounter := idCounter + 1;
      }
      issued := issued + [vectorId];
    }

    /** storeDocumentMetadata(filePath, content, fileType, vectorId); the
        outcome of the repository save is passed in. */
    method StoreDocumentMetadata(filePath: string, content: string, fileType: string, vectorId: int,
                                 saveFails: bool) returns (thrown: bool)
      modifies this`documents
      ensures thrown == saveFails
      ensures State() == StoreMetadataSpec(old(State()), filePath, content, fileType, vectorId, saveFails)
    {
      var contentPreview := if |content| > PreviewLimit then content[..PreviewLimit] + "..." else content;
      var document := DocumentRecord(filePath, Some(contentPreview), fileType, Some(vectorId));
      if saveFails {
        return true;
      }
      documents := documents + [document];
      return false;
    }
  }

  /** Ids returned by sequential storeEmbedding calls strictly increase, so no
      id is handed out twice in one process; a call that throws inside takes
      a second id, distinct from the one it attempted. */
  method SequentialIds(db: VectorDbService, e: seq<real>, p: string, o1: InsertOutcome, o2: InsertOutcome)
    returns (a: int, b: int)
    requires db.Valid()
    modifies db
    ensures a < b
    ensures o1.InsertRaised? ==> a == old(db.idCounter) + 1
  {
    a := db.StoreEmbedding(e, p, o1);
    b := db.StoreEmbedding(e, p, o2);
  }

  /** The counter is not persisted: a restarted service over rows written
      before the restart hands out id 1 again, which an existing row may
      already carry. */
  method RestartReusesIds(old1: DocumentRecord, e: seq<real>, p: string) returns (db: VectorDbService, id: int)
    requires old1.vectorId == Some(1)
    ensures id == 1 && db.documents == [old1]
  {
    db := new VectorDbService(Some(DocumentsSchema), [], [old1], ProbeAnswered, false);
    id := db.StoreEmbedding(e, p, InsertAnswered(SuccessStatus));
  }
}
