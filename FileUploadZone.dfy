/** The upload list of the FileUploadZone component: the icon chosen for a MIME
    type, the record created for each picked file, the per-id updates that move
    a record through uploading, processing and completed, and removal. The
    timers, the random progress steps and the random chunk and embedding
    counts are inputs. */
module FileUploadZone {
  import opened Relational
  import opened Text

  // ---------------------------------------------------------------------------
  // getFileIcon

  datatype Icon = FileTextIcon | ImageIcon | MusicIcon | VideoIcon | ArchiveIcon | FileIcon

  predicate IsDocumentType(t: string) { Contains(t, "pdf") || Contains(t, "text") }
  predicate IsArchiveType(t: string) { Contains(t, "zip") || Contains(t, "rar") }

  /** The first matching test wins: pdf/text, image, audio, video, zip/rar;
      anything else gets the generic file icon. */
  function GetFileIcon(t: string): (r: Icon)
    ensures r == FileTextIcon <==> IsDocumentType(t)
    ensures r == ImageIcon <==> !IsDocumentType(t) && Contains(t, "image")
    ensures r == MusicIcon <==> !IsDocumentType(t) && !Contains(t, "image") && Contains(t, "audio")
    ensures r == VideoIcon <==>
              !IsDocumentType(t) && !Contains(t, "image") && !Contains(t, "audio") && Contains(t, "video")
    ensures r == ArchiveIcon <==>
              && !IsDocumentType(t) && !Contains(t, "image") && !Contains(t, "audio")
              && !Contains(t, "video") && IsArchiveType(t)
    ensures r == FileIcon <==>
              && !IsDocumentType(t) && !Contains(t, "image") && !Contains(t, "audio")
              && !Contains(t, "video") && !IsArchiveType(t)
  {
    if IsDocumentType(t) then FileTextIcon
    else if Contains(t, "image") then ImageIcon
    else if Contains(t, "audio") then MusicIcon
    else if Contains(t, "video") then VideoIcon
    else if IsArchiveType(t) then ArchiveIcon
    else FileIcon
  }

  /** An occurrence at a known position makes the word contained. */
  lemma OccursAt(s: string, w: string, i: nat)
    requires i <= |s| && w <= s[i..]
    ensures Contains(s, w)
  {
    ContainsIffOccurs(s, w);
  }

  /** A word with a letter that does not occur in s is not contained in s. */
  lemma NotContained(s: string, w: string, k: nat)
    requires k < |w| && w[k] !in s
    ensures !Contains(s, w)
  {
    assert forall i | 0 <= i <= |s| :: !(w <= s[i..]);
    ContainsIffOccurs(s, w);
  }

  /** Common MIME types, and two where the order of the tests decides. */
  lemma PdfIcon(t: string)
    requires t == "application/pdf"
    ensures GetFileIcon(t) == FileTextIcon
  {
    OccursAt(t, "pdf", 12);
  }

  lemma AudioIcon(t: string)
    requires t == "audio/wav"
    ensures GetFileIcon(t) == MusicIcon
  {
    OccursAt(t, "audio", 0);
    assert !IsDocumentType(t) by {
      NotContained(t, "pdf", 0);
      NotContained(t, "text", 0);
    }
    assert !Contains(t, "image") by { NotContained(t, "image", 1); }
  }

  lemma VideoIconExample(t: string)
    requires t == "video/mp4"
    ensures GetFileIcon(t) == VideoIcon
  {
    OccursAt(t, "video", 0);
    assert !IsDocumentType(t) by {
      NotContained(t, "pdf", 2);
      NotContained(t, "text", 0);
    }
    assert !Contains(t, "image") by { NotContained(t, "image", 2); }
    assert !Contains(t, "audio") by { NotContained(t, "audio", 0); }
  }

  lemma UnknownTypeIcon(t: string)
    requires t == ""
    ensures GetFileIcon(t) == FileIcon
  {
    NotContained(t, "pdf", 0);
    NotContained(t, "text", 0);
    NotContained(t, "image", 0);
    NotContained(t, "audio", 0);
    NotContained(t, "video", 0);
    NotContained(t, "zip", 0);
    NotContained(t, "rar", 0);
  }

  /** "text" is tested before "video", and "image" before "zip". */
  lemma TextBeforeVideo(t: string)
    requires t == "video/vnd.text"
    ensures GetFileIcon(t) == FileTextIcon
  {
    OccursAt(t, "text", 10);
  }

  lemma ImageBeforeZip(t: string)
    requires t == "image/zip"
    ensures GetFileIcon(t) == ImageIcon
  {
    OccursAt(t, "image", 0);
    NotContained(t, "pdf", 1);
    NotContained(t, "text", 0);
  }

  // ---------------------------------------------------------------------------
  // Upload records.

  datatype UploadStatus = Uploading | Processing | Completed | Error

  datatype UploadRecord = UploadRecord(
    id: string, name: string, size: int, mimeType: string, status: UploadStatus,
    progress: real, chunks: Option<int>, embeddings: Option<int>)

  /** A file as the browser's FileList yields it. */
  datatype PickedFile = PickedFile(name: string, size: int, mimeType: string)

  /** The record a picked file starts with. */
  function NewRecord(id: string, f: PickedFile): (r: UploadRecord)
    ensures r.status == Uploading && r.progress == 0.0
    ensures r.id == id && r.name == f.name && r.size == f.size && r.mimeType == f.mimeType
    ensures r.chunks.None? && r.embeddings.None?
  {
    UploadRecord(id, f.name, f.size, f.mimeType, Uploading, 0.0, None, None)
  }

  function NewRecords(ids: seq<string>, files: seq<PickedFile>): (r: seq<UploadRecord>)
    requires |ids| == |files|
    ensures |r| == |files|
    ensures forall i | 0 <= i < |r| :: r[i] == NewRecord(ids[i], files[i])
  {
    seq(|files|, i requires 0 <= i < |files| => NewRecord(ids[i], files[i]))
  }

  /** The per-id update pattern `prev.map(f => f.id === id ? change(f) : f)`. */
  predicate UpdatedOnly(before: seq<UploadRecord>, after: seq<UploadRecord>, id: string)
  {
    && |after| == |before|
    && forall i | 0 <= i < |before| :: before[i].id != id ==> after[i] == before[i]
  }

  /** `Math.floor(draw * span) + base` for a draw in [0, 1). */
  function RandomCount(draw: real, span: int, base: int): (n: int)
    requires 0.0 <= draw < 1.0 && span > 0
    ensures base <= n < base + span
  {
    (draw * span as real).Floor + base
  }

  /** Finishing an upload: status processing, progress 100, and random chunk and
      embedding counts in [10, 59] and [5, 24]. */
  function MarkProcessing(files: seq<UploadRecord>, id: string, chunkDraw: real, embeddingDraw: real)
    : (r: seq<UploadRecord>)
    requires 0.0 <= chunkDraw < 1.0 && 0.0 <= embeddingDraw < 1.0
    ensures UpdatedOnly(files, r, id)
    ensures forall i | 0 <= i < |files| && files[i].id == id ::
              && r[i].status == Processing && r[i].progress == 100.0
              && r[i].chunks.Some? && 10 <= r[i].chunks.value <= 59
              && r[i].embeddings.Some? && 5 <= r[i].embeddings.value <= 24
              && r[i] == files[i].(status := Processing, progress := 100.0,
                                   chunks := r[i].chunks, embeddings := r[i].embeddings)
  {
    var chunks := RandomCount(chunkDraw, 50, 10);
    var embeddings := RandomCount(embeddingDraw, 20, 5);
    seq(|files|, i requires 0 <= i < |files| =>
      if files[i].id == id
      then files[i].(status := Processing, progress := 100.0,
                     chunks := Some(chunks), embeddings := Some(embeddings))
      else files[i])
  }

  /** The processing timeout: status completed, everything else kept. */
  function MarkCompleted(files: seq<UploadRecord>, id: string): (r: seq<UploadRecord>)
    ensures UpdatedOnly(files, r, id)
    ensures forall i | 0 <= i < |files| && files[i].id == id ::
              r[i] == files[i].(status := Completed)
  {
    seq(|files|, i requires 0 <= i < |files| =>
      if files[i].id == id then files[i].(status := Completed) else files[i])
  }

  /** An intermediate progress report. */
  function SetProgress(files: seq<UploadRecord>, id: string, progress: real): (r: seq<UploadRecord>)
    ensures UpdatedOnly(files, r, id)
    ensures forall i | 0 <= i < |files| && files[i].id == id ::
              r[i] == files[i].(progress := progress)
  {
    seq(|files|, i requires 0 <= i < |files| =>
      if files[i].id == id then files[i].(progress := progress) else files[i])
  }

  function HasOtherId(id: string): UploadRecord -> bool { (f: UploadRecord) => f.id != id }

  /** `prev.filter(f => f.id !== id)`. */
  function RemoveFile(files: seq<UploadRecord>, id: string): (r: seq<UploadRecord>)
    ensures forall f | f in r :: f in files && f.id != id
    ensures forall f | f in files && f.id != id :: f in r
    ensures |r| <= |files|
  {
    Filter(files, HasOtherId(id))
  }

  /** Removal by an id nobody has changes nothing; removing twice is removing once. */
  lemma RemoveAbsent(files: seq<UploadRecord>, id: string)
    requires forall f | f in files :: f.id != id
    ensures RemoveFile(files, id) == files
  {
    FilterAll(files, HasOtherId(id));
  }

  lemma RemoveIdempotent(files: seq<UploadRecord>, id: string)
    ensures RemoveFile(RemoveFile(files, id), id) == RemoveFile(files, id)
  {
    RemoveAbsent(RemoveFile(files, id), id);
  }

  /** Adding a record with a fresh id and removing it gives the list back. */
  lemma AddThenRemove(files: seq<UploadRecord>, id: string, f: PickedFile)
    requires forall g | g in files :: g.id != id
    ensures RemoveFile(files + [NewRecord(id, f)], id) == files
  {
    FilterAppend(files, [NewRecord(id, f)], HasOtherId(id));
    RemoveAbsent(files, id);
  }

  /** Removal keeps the other records in their order: it commutes with appending. */
  lemma RemoveDistributes(a: seq<UploadRecord>, b: seq<UploadRecord>, id: string)
    ensures RemoveFile(a + b, id) == RemoveFile(a, id) + RemoveFile(b, id)
  {
    FilterAppend(a, b, HasOtherId(id));
  }

  /** The lifecycle of a fresh upload: after processing and completion its record
      is completed at progress 100 with counts in range, and the other records
      are as they were. */
  lemma Lifecycle(files: seq<UploadRecord>, id: string, f: PickedFile, chunkDraw: real, embeddingDraw: real)
    requires 0.0 <= chunkDraw < 1.0 && 0.0 <= embeddingDraw < 1.0
    ensures var added := files + [NewRecord(id, f)];
            var done := MarkCompleted(MarkProcessing(added, id, chunkDraw, embeddingDraw), id);
            && |done| == |files| + 1
            && done[|files|].status == Completed && done[|files|].progress == 100.0
            && 10 <= done[|files|].chunks.value <= 59 && 5 <= done[|files|].embeddings.value <= 24
            && done[|files|].name == f.name
            && forall i | 0 <= i < |files| && files[i].id != id :: done[i] == files[i]
  {
    var added := files + [NewRecord(id, f)];
    assert added[|files|].id == id;
    assert forall i | 0 <= i < |files| :: added[i] == files[i];
  }

  /** React's `uploadedFiles` state, updated by the handlers. */
  class UploadList {
    var files: seq<UploadRecord>

    constructor ()
      ensures files == []
    {
      files := [];
    }

    /** handleFileUpload: each picked file, in order, gets a new record at the
        end of the list; the ids are inputs. */
    method AddUploads(picked: seq<PickedFile>, ids: seq<string>)
      requires |ids| == |picked|
      modifies this
      ensures files == old(files) + NewRecords(ids, picked)
    {
      var i := 0;
      while i < |picked|
        invariant 0 <= i <= |picked|
        invariant files == old(files) + NewRecords(ids[..i], picked[..i])
      {
        assert NewRecords(ids[..i + 1], picked[..i + 1]) ==
               NewRecords(ids[..i], picked[..i]) + [NewRecord(ids[i], picked[i])];
        files := files + [NewRecord(ids[i], picked[i])];
        i := i + 1;
      }
      assert ids[..i] == ids && picked[..i] == picked;
    }

    /** One 200 ms interval tick of a file's upload: the closure's progress
        grows by a random step below 30; at 100 or more the record moves to
        processing, otherwise it shows the new progress. The random draws are
        inputs. */
    method UploadTick(id: string, progress: real, draw: real, chunkDraw: real, embeddingDraw: real)
      returns (next: real, finished: bool)
      requires 0.0 <= draw < 1.0 && 0.0 <= chunkDraw < 1.0 && 0.0 <= embeddingDraw < 1.0
      modifies this
      ensures next == progress + draw * 30.0
      ensures progress <= next < progress + 30.0
      ensures finished <==> next >= 100.0
      ensures finished ==> files == MarkProcessing(old(files), id, chunkDraw, embeddingDraw)
      ensures !finished ==> files == SetProgress(old(files), id, next)
    {
      next := progress + draw * 30.0;
      if next >= 100.0 {
        finished := true;
        files := MarkProcessing(files, id, chunkDraw, embeddingDraw);
      } else {
        finished := false;
        files := SetProgress(files, id, next);
      }
    }

    method CompleteProcessing(id: string)
      modifies this
      ensures files == MarkCompleted(old(files), id)
    {
      files := MarkCompleted(files, id);
    }

    method Remove(id: string)
      modifies this
      ensures files == RemoveFile(old(files), id)
    {
      files := RemoveFile(files, id);
    }
  }
}
