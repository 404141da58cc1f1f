/** The embeddings routes. Search is a text filter over the chunk rows joined
    with their documents, newest chunks first, cut to a limit; there is no
    vector similarity. Stats aggregates the documents LEFT JOIN chunks rows. */
module Embeddings {
  import opened Relational
  import opened Schema
  import opened Http
  import opened Text
  import Documents

  const QueryRequired := "Query is required"
  const DefaultSearchLimit := 5

  // ---------------------------------------------------------------------------
  // POST /search

  /** A chunk row with its document's original_name and filename. */
  datatype SearchHit = SearchHit(chunk: Embedding, originalName: string, filename: string)

  datatype SearchRequest = SearchRequest(query: Option<string>, limit: Option<int>)

  /** The join rows of one chunk: one per document with the chunk's document_id. */
  function HitsFor(e: Embedding, documents: seq<Document>): (r: seq<SearchHit>)
    ensures forall h | h in r :: h.chunk == e && exists d | d in documents ::
              d.id == e.documentId && h.originalName == d.originalName && h.filename == d.filename
    ensures forall d | d in documents && d.id == e.documentId ::
              SearchHit(e, d.originalName, d.filename) in r
  {
    var owners := Filter(documents, DocumentWithId(e.documentId));
    var r := seq(|owners|, i requires 0 <= i < |owners| =>
                  SearchHit(e, owners[i].originalName, owners[i].filename));
    forall h | h in r ensures h.chunk == e && exists d | d in documents ::
      d.id == e.documentId && h.originalName == d.originalName && h.filename == d.filename
    {
      var i :| 0 <= i < |r| && r[i] == h;
      assert owners[i] in owners;
    }
    forall d | d in documents && d.id == e.documentId
      ensures SearchHit(e, d.originalName, d.filename) in r
    {
      assert d in owners;
      var i :| 0 <= i < |owners| && owners[i] == d;
      assert r[i] == SearchHit(e, d.originalName, d.filename);
    }
    r
  }

  /** `FROM document_embeddings de JOIN documents d ON de.document_id = d.id
      WHERE de.chunk_text LIKE '%query%'`, in table order. */
  function MatchingHits(embeddings: seq<Embedding>, documents: seq<Document>, query: string)
    : (r: seq<SearchHit>)
    ensures forall h | h in r ::
              && h.chunk in embeddings && Contains(h.chunk.chunkText, query)
              && exists d | d in documents ::
                   d.id == h.chunk.documentId && h.originalName == d.originalName
                   && h.filename == d.filename
    ensures forall e, d | e in embeddings && d in documents && d.id == e.documentId
                          && Contains(e.chunkText, query) ::
              SearchHit(e, d.originalName, d.filename) in r
  {
    if embeddings == [] then []
    else
      var e := embeddings[0];
      var rest := MatchingHits(embeddings[1..], documents, query);
      assert forall x | x in embeddings :: x == e || x in embeddings[1..];
      (if Contains(e.chunkText, query) then HitsFor(e, documents) else []) + rest
  }

  function ChunkCreatedAt(h: SearchHit): int { h.chunk.createdAt }

  /** 400 without a query; otherwise the matching chunks newest first, at most
      `limit` of them (5 when absent; none cut for a negative limit). */
  function Search(t: Tables, req: SearchRequest): (r: Response<seq<SearchHit>>)
    ensures r.BadRequest400? <==> Missing(req.query)
    ensures r.BadRequest400? ==> r.error == QueryRequired
    ensures r.Ok? || r.BadRequest400?
    ensures r.Ok? ==>
              var all := MatchingHits(t.embeddings, t.documents, req.query.value);
              var n := req.limit.GetOr(DefaultSearchLimit);
              && SortedDesc(r.value, ChunkCreatedAt)
              && |r.value| == (if n < 0 then |all| else Min(n, |all|))
              && multiset(r.value) <= multiset(all)
              && (forall h | h in r.value :: h in all)
              && (forall x, y | x in r.value && y in multiset(all) - multiset(r.value) ::
                    x.chunk.createdAt >= y.chunk.createdAt)
  {
    if Missing(req.query) then BadRequest400(QueryRequired)
    else
      var all := MatchingHits(t.embeddings, t.documents, req.query.value);
      var sorted := SortDesc(all, ChunkCreatedAt);
      var n := req.limit.GetOr(DefaultSearchLimit);
      var hits := SqlLimit(sorted, n);
      LimitKeepsLargest(sorted, n, ChunkCreatedAt);
      PrefixSortedDesc(sorted, hits, ChunkCreatedAt);
      MultisetMembers(hits, all);
      Ok(hits)
  }

  /** Every hit contains the query and belongs to an existing document; a chunk
      whose document is gone never comes back. */
  lemma SearchHitsAreOwnedMatches(t: Tables, req: SearchRequest)
    requires !Missing(req.query)
    ensures forall h | h in Search(t, req).value ::
              && h.chunk in t.embeddings && Contains(h.chunk.chunkText, req.query.value)
              && h.chunk.documentId in DocumentIds(t.documents)
  {
  }

  /** With a limit large enough every matching chunk of an existing document is found. */
  lemma SearchFindsAll(t: Tables, req: SearchRequest, e: Embedding, d: Document)
    requires !Missing(req.query)
    requires req.limit.Some? && (req.limit.value < 0 ||
             req.limit.value >= |MatchingHits(t.embeddings, t.documents, req.query.value)|)
    requires e in t.embeddings && d in t.documents && d.id == e.documentId
    requires Contains(e.chunkText, req.query.value)
    ensures SearchHit(e, d.originalName, d.filename) in Search(t, req).value
  {
    var all := MatchingHits(t.embeddings, t.documents, req.query.value);
    var hits := Search(t, req).value;
    assert |hits| == |all|;
    assert multiset(hits) == multiset(all) by {
      assert multiset(hits) <= multiset(all);
      assert |multiset(hits)| == |multiset(all)|;
      MultisetEqualBySize(multiset(hits), multiset(all));
    }
    assert SearchHit(e, d.originalName, d.filename) in multiset(all);
  }

  lemma MultisetEqualBySize<T>(a: multiset<T>, b: multiset<T>)
    requires a <= b && |a| == |b|
    ensures a == b
  {
    var c := b - a;
    assert b == a + c;
    assert |c| == 0;
  }

  // ---------------------------------------------------------------------------
  // GET /stats

  /** A row of `documents d LEFT JOIN document_embeddings de`. */
  datatype JoinRow = JoinRow(document: Document, chunk: Option<Embedding>)

  /** The join rows of one document: one per chunk, or a single row with NULL
      chunk columns when it has none. */
  function RowsFor(d: Document, embeddings: seq<Embedding>): (r: seq<JoinRow>)
    ensures |r| >= 1
    ensures forall x | x in r :: x.document == d
    ensures |Filter(r, HasChunk)| == Documents.ChunkCount(embeddings, d.id)
    ensures |r| == Max1(Documents.ChunkCount(embeddings, d.id))
  {
    var own := Filter(embeddings, ChunkOfDocument(d.id));
    if own == [] then
      assert Filter([JoinRow(d, None)], HasChunk) == [];
      [JoinRow(d, None)]
    else
      var r := seq(|own|, i requires 0 <= i < |own| => JoinRow(d, Some(own[i])));
      FilterAll(r, HasChunk);
      r
  }

  predicate HasChunk(x: JoinRow) { x.chunk.Some? }

  function RowDocumentId(x: JoinRow): Id { x.document.id }

  function Max1(n: int): int { if n < 1 then 1 else n }

  function LeftJoin(documents: seq<Document>, embeddings: seq<Embedding>): seq<JoinRow>
  {
    if documents == [] then []
    else RowsFor(documents[0], embeddings) + LeftJoin(documents[1..], embeddings)
  }

  function SumFileSize(rows: seq<JoinRow>): int
  {
    if rows == [] then 0 else rows[0].document.fileSize + SumFileSize(rows[1..])
  }

  /** total_documents, total_chunks and total_file_size (NULL over no rows). */
  datatype EmbeddingStats = EmbeddingStats(
    totalDocuments: nat, totalChunks: nat, totalFileSize: Option<int>)

  /** COUNT(DISTINCT d.id), COUNT(de.id) and SUM(d.file_size) over the join rows. */
  function Stats(t: Tables): (r: EmbeddingStats)
    ensures r.totalFileSize.None? <==> t.documents == []
  {
    var rows := LeftJoin(t.documents, t.embeddings);
    LeftJoinEmpty(t.documents, t.embeddings);
    EmbeddingStats(
      |KeySet(rows, RowDocumentId)|,
      |Filter(rows, HasChunk)|,
      if rows == [] then None else Some(SumFileSize(rows)))
  }

  lemma {:induction false} LeftJoinEmpty(documents: seq<Document>, embeddings: seq<Embedding>)
    ensures LeftJoin(documents, embeddings) == [] <==> documents == []
  {
    if documents != [] {
      var first := RowsFor(documents[0], embeddings);
      assert |LeftJoin(documents, embeddings)| >= |first| >= 1;
    }
  }

  // Reference aggregates, one term per document.

  function ChunkTotal(documents: seq<Document>, embeddings: seq<Embedding>): nat
  {
    if documents == [] then 0
    else Documents.ChunkCount(embeddings, documents[0].id) + ChunkTotal(documents[1..], embeddings)
  }

  function WeightedFileSize(documents: seq<Document>, embeddings: seq<Embedding>): int
  {
    if documents == [] then 0
    else documents[0].fileSize * Max1(Documents.ChunkCount(embeddings, documents[0].id))
         + WeightedFileSize(documents[1..], embeddings)
  }

  lemma {:induction false} SumFileSizeAppend(a: seq<JoinRow>, b: seq<JoinRow>)
    ensures SumFileSize(a + b) == SumFileSize(a) + SumFileSize(b)
  {
    if a != [] {
      assert (a + b)[0] == a[0];
      assert (a + b)[1..] == a[1..] + b;
      SumFileSizeAppend(a[1..], b);
    } else {
      assert a + b == b;
    }
  }

  lemma {:induction false} SumSameDocument(rows: seq<JoinRow>, d: Document)
    requires forall x | x in rows :: x.document == d
    ensures SumFileSize(rows) == d.fileSize * |rows|
  {
    if rows != [] {
      assert rows[0] in rows;
      SumSameDocument(rows[1..], d);
    }
  }

  /** Each document's file_size enters the SUM once per join row, that is
      max(1, chunk count) times. */
  lemma {:induction false} FileSizeIsWeighted(documents: seq<Document>, embeddings: seq<Embedding>)
    ensures SumFileSize(LeftJoin(documents, embeddings)) == WeightedFileSize(documents, embeddings)
  {
    if documents != [] {
      var first := RowsFor(documents[0], embeddings);
      SumFileSizeAppend(first, LeftJoin(documents[1..], embeddings));
      SumSameDocument(first, documents[0]);
      FileSizeIsWeighted(documents[1..], embeddings);
    }
  }

  /** COUNT(de.id) adds up the chunk counts of the documents. */
  lemma {:induction false} ChunksAreSummed(documents: seq<Document>, embeddings: seq<Embedding>)
    ensures |Filter(LeftJoin(documents, embeddings), HasChunk)| == ChunkTotal(documents, embeddings)
  {
    if documents != [] {
      var first := RowsFor(documents[0], embeddings);
      FilterAppend(first, LeftJoin(documents[1..], embeddings), HasChunk);
      ChunksAreSummed(documents[1..], embeddings);
    }
  }

  /** The join rows carry exactly the document ids. */
  lemma {:induction false} JoinDocumentIds(documents: seq<Document>, embeddings: seq<Embedding>)
    ensures KeySet(LeftJoin(documents, embeddings), RowDocumentId) == DocumentIds(documents)
  {
    if documents != [] {
      var d := documents[0];
      var rest := documents[1..];
      var first := RowsFor(d, embeddings);
      var tail := LeftJoin(rest, embeddings);
      assert LeftJoin(documents, embeddings) == first + tail;
      KeySetConcat(first, tail, RowDocumentId);
      JoinDocumentIds(rest, embeddings);
      OneDocumentKeys(first, d);
      SplitFirst(documents);
    }
  }

  lemma OneDocumentKeys(rows: seq<JoinRow>, d: Document)
    requires |rows| >= 1 && forall x | x in rows :: x.document == d
    ensures KeySet(rows, RowDocumentId) == {d.id}
  {
    assert rows[0] in rows;
  }

  /** The ids of a table are its first row's id and the ids of the rest; with
      unique ids the rest is unique and lacks the first id. */
  lemma SplitFirst(documents: seq<Document>)
    requires documents != []
    ensures DocumentIds(documents) == {documents[0].id} + DocumentIds(documents[1..])
    ensures UniqueBy(documents, DocumentKey) ==>
              UniqueBy(documents[1..], DocumentKey) && documents[0].id !in DocumentIds(documents[1..])
  {
    var d := documents[0];
    var rest := documents[1..];
    assert documents == [d] + rest;
    KeySetConcat([d], rest, DocumentKey);
    assert KeySet([d], DocumentKey) == {d.id} by {
      assert d in [d];
    }
    if UniqueBy(documents, DocumentKey) {
      forall i, j | 0 <= i < j < |rest| ensures rest[i].id != rest[j].id {
        assert rest[i] == documents[i + 1] && rest[j] == documents[j + 1];
      }
      forall x | x in rest ensures x.id != d.id {
        var k :| 0 <= k < |rest| && rest[k] == x;
        assert documents[k + 1] == x;
      }
      assert UniqueBy(rest, DocumentKey);
      assert d.id !in DocumentIds(rest);
    }
  }

  function ChunkOfAny(ids: set<Id>): Embedding -> bool { (e: Embedding) => e.documentId in ids }

  lemma CountSplit(embeddings: seq<Embedding>, k: Id, others: set<Id>)
    requires k !in others
    ensures |Filter(embeddings, ChunkOfAny({k} + others))| ==
            Documents.ChunkCount(embeddings, k) + |Filter(embeddings, ChunkOfAny(others))|
  {
    FilterDisjointCount(embeddings, ChunkOfDocument(k), ChunkOfAny(others), ChunkOfAny({k} + others));
  }

  /** With unique document ids, the chunk counts add up to the chunks that belong
      to some listed document. */
  lemma {:induction false} ChunkTotalCountsOwned(documents: seq<Document>, embeddings: seq<Embedding>)
    requires UniqueBy(documents, DocumentKey)
    ensures ChunkTotal(documents, embeddings) ==
            |Filter(embeddings, ChunkOfAny(DocumentIds(documents)))|
  {
    if documents == [] {
      assert DocumentIds(documents) == {};
      FilterNone(embeddings, ChunkOfAny({}));
    } else {
      var d := documents[0];
      var rest := documents[1..];
      SplitFirst(documents);
      ChunkTotalCountsOwned(rest, embeddings);
      CountSplit(embeddings, d.id, DocumentIds(rest));
    }
  }

  /** total_file_size is the weighted sum whatever the constraints. */
  lemma TotalFileSizeIsWeighted(t: Tables)
    requires t.documents != []
    ensures Stats(t).totalFileSize == Some(WeightedFileSize(t.documents, t.embeddings))
  {
    LeftJoinEmpty(t.documents, t.embeddings);
    FileSizeIsWeighted(t.documents, t.embeddings);
  }

  /** The stats of a consistent database: total_documents is the number of
      documents, total_chunks the number of chunk rows, and total_file_size the
      file sizes weighted by max(1, chunk count). */
  lemma StatsMeaning(t: Tables)
    requires Consistent(t)
    ensures Stats(t).totalDocuments == |t.documents|
    ensures Stats(t).totalChunks == ChunkTotal(t.documents, t.embeddings) == |t.embeddings|
    ensures t.documents != [] ==>
              Stats(t).totalFileSize == Some(WeightedFileSize(t.documents, t.embeddings))
  {
    JoinDocumentIds(t.documents, t.embeddings);
    UniqueKeyCount(t.documents, DocumentKey);
    ChunksAreSummed(t.documents, t.embeddings);
    ChunkTotalCountsOwned(t.documents, t.embeddings);
    FilterAll(t.embeddings, ChunkOfAny(DocumentIds(t.documents)));
    FileSizeIsWeighted(t.documents, t.embeddings);
  }

  lemma WeightedSingle(d: Document, embeddings: seq<Embedding>)
    ensures WeightedFileSize([d], embeddings) == d.fileSize * Max1(Documents.ChunkCount(embeddings, d.id))
  {
    assert [d][1..] == [];
  }

  /** A concrete case of the duplication: a database whose only document has
      100 bytes and three chunks reports a total file size of 300. */
  lemma FileSizeCountedPerChunk(t: Tables, d: Document)
    requires t.documents == [d] && d.fileSize == 100
    requires |t.embeddings| == 3 && forall e | e in t.embeddings :: e.documentId == d.id
    ensures Stats(t).totalFileSize == Some(300)
  {
    TotalFileSizeIsWeighted(t);
    var count := Documents.ChunkCount(t.embeddings, d.id);
    assert count == 3 by {
      FilterAll(t.embeddings, ChunkOfDocument(d.id));
    }
    WeightedSingle(d, t.embeddings);
  }
}
