/** The document routes: the listing with each document's chunk count, the
    upload that records one documents row, the content lookup, the delete that
    cascades to chunks and citations, and the chunk listing of one document. */
module Documents {
  import opened Relational
  import opened Schema
  import opened Http

  const UploadFailedError := "File upload failed"
  const NoFileError := "No file uploaded"
  const SaveFailedError := "Failed to save document"
  const DocumentNotFound := "Document not found"
  const PlaceholderContent := "Text extraction will be implemented with document processing pipeline"

  // ---------------------------------------------------------------------------
  // GET /

  /** A documents row with `COUNT(de.id) AS chunk_count`. */
  datatype DocumentListing = DocumentListing(document: Document, chunkCount: nat)

  function ChunkCount(embeddings: seq<Embedding>, documentId: Id): nat
  {
    |Filter(embeddings, ChunkOfDocument(documentId))|
  }

  /** The LEFT JOIN grouped by document, in table order. */
  function Listings(t: Tables): (r: seq<DocumentListing>)
    ensures |r| == |t.documents|
    ensures forall i | 0 <= i < |r| ::
              r[i] == DocumentListing(t.documents[i], ChunkCount(t.embeddings, t.documents[i].id))
  {
    seq(|t.documents|, i requires 0 <= i < |t.documents| =>
      DocumentListing(t.documents[i], ChunkCount(t.embeddings, t.documents[i].id)))
  }

  function UploadedAt(l: DocumentListing): int { l.document.uploadedAt }

  /** Every document once, with its chunk count, newest upload first. */
  function ListDocuments(t: Tables): (r: seq<DocumentListing>)
    ensures SortedDesc(r, UploadedAt)
    ensures multiset(r) == multiset(Listings(t))
    ensures |r| == |t.documents|
    ensures forall l | l in r ::
              l.document in t.documents && l.chunkCount == ChunkCount(t.embeddings, l.document.id)
    ensures forall d | d in t.documents :: DocumentListing(d, ChunkCount(t.embeddings, d.id)) in r
  {
    var rows := Listings(t);
    var r := SortDesc(rows, UploadedAt);
    SameMembers(r, rows);
    ListingsMembers(t);
    r
  }

  lemma ListingsMembers(t: Tables)
    ensures forall l | l in Listings(t) ::
              l.document in t.documents && l.chunkCount == ChunkCount(t.embeddings, l.document.id)
    ensures forall d | d in t.documents :: DocumentListing(d, ChunkCount(t.embeddings, d.id)) in Listings(t)
  {
    var rows := Listings(t);
    forall d | d in t.documents ensures DocumentListing(d, ChunkCount(t.embeddings, d.id)) in rows {
      var i :| 0 <= i < |t.documents| && t.documents[i] == d;
      assert rows[i] in rows;
    }
  }

  /** A document without chunk rows is listed with chunk count 0. */
  lemma ListedWithoutChunks(t: Tables, d: Document)
    requires d in t.documents
    requires forall e | e in t.embeddings :: e.documentId != d.id
    ensures DocumentListing(d, 0) in ListDocuments(t)
  {
    FilterNone(t.embeddings, ChunkOfDocument(d.id));
  }

  // ---------------------------------------------------------------------------
  // POST /upload

  /** The file multer stored, as the handler reads it from `req.file`. */
  datatype UploadedFile = UploadedFile(
    filename: string, originalName: string, path: string, size: int, mimeType: string)

  /** What the multer middleware hands to the handler: an error, no file, or a file. */
  datatype UploadOutcome = UploadError | NoFile | Received(file: UploadedFile)

  /** Records a received file as a new documents row and returns that row. */
  method UploadDocument(db: Database, upload: UploadOutcome, newId: Id, now: Timestamp)
    returns (resp: Response<Document>)
    requires db.Valid()
    modifies db
    ensures db.Valid()
    ensures upload == UploadError ==> resp == BadRequest400(UploadFailedError)
    ensures upload == NoFile ==> resp == BadRequest400(NoFileError)
    ensures upload.Received? && newId in DocumentIds(old(db.documents)) ==>
              resp == Failed500(SaveFailedError)
    ensures upload.Received? && newId !in DocumentIds(old(db.documents)) ==>
              var f := upload.file;
              && resp == Ok(Document(newId, f.filename, f.originalName, f.path, f.size, f.mimeType,
                                     now, false, None))
              && db.Snapshot() == old(db.Snapshot()).(documents := old(db.documents) + [resp.value])
    ensures !resp.Ok? ==> db.Snapshot() == old(db.Snapshot())
  {
    match upload
    case UploadError =>
      return BadRequest400(UploadFailedError);
    case NoFile =>
      return BadRequest400(NoFileError);
    case Received(f) =>
      var ok := db.InsertDocument(newId, f.filename, f.originalName, f.path, f.size, f.mimeType, now);
      if !ok {
        return Failed500(SaveFailedError);
      }
      resp := Ok(Document(newId, f.filename, f.originalName, f.path, f.size, f.mimeType,
                          now, false, None));
  }

  /** Uploading and then listing shows the new document, unprocessed and without chunks. */
  lemma UploadThenList(t: Tables, d: Document)
    requires Consistent(t)
    requires d.id !in DocumentIds(t.documents)
    ensures DocumentListing(d, 0) in ListDocuments(t.(documents := t.documents + [d]))
  {
    var t' := t.(documents := t.documents + [d]);
    forall e | e in t'.embeddings ensures e.documentId != d.id {
      assert e.documentId in DocumentIds(t.documents);
    }
    ListedWithoutChunks(t', d);
  }

  // ---------------------------------------------------------------------------
  // GET /:documentId/content

  datatype DocumentContent = DocumentContent(document: Document, content: string)

  function FindDocument(documents: seq<Document>, id: Id): (r: Option<Document>)
    ensures r.None? <==> id !in DocumentIds(documents)
    ensures r.Some? ==> r.value in documents && r.value.id == id
  {
    var matching := Filter(documents, DocumentWithId(id));
    if |matching| == 0 then
      assert forall d | d in documents :: d.id != id;
      None
    else
      assert matching[0] in matching;
      Some(matching[0])
  }

  /** The document row and a fixed placeholder text; 404 for an unknown id. */
  function GetDocumentContent(documents: seq<Document>, id: Id): (r: Response<DocumentContent>)
    ensures r.NotFound404? <==> id !in DocumentIds(documents)
    ensures r.NotFound404? ==> r.error == DocumentNotFound
    ensures r.Ok? ==> r.value.document in documents && r.value.document.id == id
                      && r.value.content == PlaceholderContent
    ensures r.Ok? || r.NotFound404?
  {
    match FindDocument(documents, id)
    case None => NotFound404(DocumentNotFound)
    case Some(d) => Ok(DocumentContent(d, PlaceholderContent))
  }

  /** With unique ids the document found is the one with that id. */
  lemma ContentOfUploaded(documents: seq<Document>, d: Document)
    requires UniqueBy(documents + [d], DocumentKey)
    ensures GetDocumentContent(documents + [d], d.id) == Ok(DocumentContent(d, PlaceholderContent))
  {
    var s := documents + [d];
    var found := FindDocument(s, d.id).value;
    var i :| 0 <= i < |s| && s[i] == found;
    assert s[|s| - 1] == d;
  }

  // ---------------------------------------------------------------------------
  // DELETE /:documentId

  /** 404 for an unknown id; otherwise the row goes, and with it every chunk of
      the document and every message_context row citing it. Removing the stored
      file is I/O whose failure the handler ignores, so it does not appear here. */
  method DeleteDocument(db: Database, id: Id) returns (resp: Response<Success>)
    requires db.Valid()
    modifies db
    ensures db.Valid()
    ensures resp == NotFound404(DocumentNotFound) <==> id !in DocumentIds(old(db.documents))
    ensures resp.NotFound404? ==> db.Snapshot() == old(db.Snapshot())
    ensures resp.Ok? ==> db.Snapshot() == DeleteDocumentCascade(old(db.Snapshot()), id)
    ensures resp.Ok? || resp.NotFound404?
  {
    if FindDocument(db.documents, id).None? {
      return NotFound404(DocumentNotFound);
    }
    db.DeleteDocument(id);
    resp := Ok(Success);
  }

  /** After the cascade the id is unknown, and nothing refers to it any more. */
  lemma DeletedDocumentIsGone(t: Tables, id: Id)
    requires Consistent(t)
    ensures var r := DeleteDocumentCascade(t, id);
            && id !in DocumentIds(r.documents)
            && ChunkCount(r.embeddings, id) == 0
            && GetDocumentContent(r.documents, id) == NotFound404(DocumentNotFound)
  {
    var r := DeleteDocumentCascade(t, id);
    FilterNone(r.embeddings, ChunkOfDocument(id));
  }

  // ---------------------------------------------------------------------------
  // GET /:documentId/embeddings

  /** SELECT id, chunk_text, chunk_index, created_at. */
  datatype ChunkRow = ChunkRow(id: Id, chunkText: string, chunkIndex: int, createdAt: Timestamp)

  function ChunkRowOf(e: Embedding): ChunkRow
  {
    ChunkRow(e.id, e.chunkText, e.chunkIndex, e.createdAt)
  }

  function ChunkRows(chunks: seq<Embedding>): (r: seq<ChunkRow>)
    ensures |r| == |chunks|
    ensures forall i | 0 <= i < |r| :: r[i] == ChunkRowOf(chunks[i])
  {
    seq(|chunks|, i requires 0 <= i < |chunks| => ChunkRowOf(chunks[i]))
  }

  function ChunkIndexOf(c: ChunkRow): int { c.chunkIndex }

  /** The document's chunks, projected, by ascending chunk_index. */
  function DocumentChunks(embeddings: seq<Embedding>, documentId: Id): (r: seq<ChunkRow>)
    ensures SortedAsc(r, ChunkIndexOf)
    ensures multiset(r) == multiset(ChunkRows(Filter(embeddings, ChunkOfDocument(documentId))))
    ensures |r| == ChunkCount(embeddings, documentId)
    ensures forall c | c in r :: exists e | e in embeddings ::
              e.documentId == documentId && c == ChunkRowOf(e)
    ensures forall e | e in embeddings && e.documentId == documentId :: ChunkRowOf(e) in r
  {
    var own := Filter(embeddings, ChunkOfDocument(documentId));
    var rows := ChunkRows(own);
    var r := SortAsc(rows, ChunkIndexOf);
    SameMembers(r, rows);
    ChunkRowsMembers(embeddings, documentId);
    r
  }

  lemma ChunkRowsMembers(embeddings: seq<Embedding>, documentId: Id)
    ensures var rows := ChunkRows(Filter(embeddings, ChunkOfDocument(documentId)));
            && (forall c | c in rows :: exists e | e in embeddings ::
                  e.documentId == documentId && c == ChunkRowOf(e))
            && (forall e | e in embeddings && e.documentId == documentId :: ChunkRowOf(e) in rows)
  {
    var own := Filter(embeddings, ChunkOfDocument(documentId));
    var rows := ChunkRows(own);
    forall c | c in rows ensures exists e | e in embeddings :: e.documentId == documentId && c == ChunkRowOf(e) {
      var i :| 0 <= i < |rows| && rows[i] == c;
      assert own[i] in own;
    }
    forall e | e in embeddings && e.documentId == documentId ensures ChunkRowOf(e) in rows {
      assert e in own;
      var i :| 0 <= i < |own| && own[i] == e;
      assert rows[i] in rows;
    }
  }
}
