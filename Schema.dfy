/** The SQLite database that initializeDatabase creates: one datatype per table
    row, the CHECK-constrained text columns as enumerations, the PRIMARY KEY and
    FOREIGN KEY constraints (foreign keys are switched on) as the predicate
    Consistent, the ON DELETE CASCADE rules as functions on the whole database,
    and the database handle as a class whose methods are the SQL statements the
    route handlers run. Identifiers and CURRENT_TIMESTAMP values are supplied by
    the caller. */
module Schema {
  import opened Relational

  type Id = string

  /** A CURRENT_TIMESTAMP value, in seconds. */
  type Timestamp = int

  /** messages.role: CHECK (role IN ('user', 'assistant')). */
  datatype Role = User | Assistant

  /** live_copilot_sessions.mode: CHECK (mode IN ('live', 'periodic', 'off')). */
  datatype Mode = Live | Periodic | Off

  /** transcript_entries.speaker: CHECK (speaker IN ('user', 'other')). */
  datatype Speaker = UserSpeaker | OtherSpeaker

  function ModeText(m: Mode): string
  {
    match m
    case Live => "live"
    case Periodic => "periodic"
    case Off => "off"
  }

  /** The mode a text names, if it names one. */
  function ParseMode(s: string): (r: Option<Mode>)
    ensures r.Some? ==> ModeText(r.value) == s
    ensures r.None? ==> forall m: Mode :: ModeText(m) != s
  {
    if s == "live" then Some(Live)
    else if s == "periodic" then Some(Periodic)
    else if s == "off" then Some(Off)
    else None
  }

  function SpeakerText(sp: Speaker): string
  {
    match sp
    case UserSpeaker => "user"
    case OtherSpeaker => "other"
  }

  /** The speaker a text names, if the CHECK constraint admits it. */
  function ParseSpeaker(s: string): (r: Option<Speaker>)
    ensures r.Some? ==> SpeakerText(r.value) == s
    ensures r.None? ==> forall sp: Speaker :: SpeakerText(sp) != s
  {
    if s == "user" then Some(UserSpeaker)
    else if s == "other" then Some(OtherSpeaker)
    else None
  }

  // ---------------------------------------------------------------------------
  // Rows. A nullable column is an Option; NOT NULL columns are plain values.

  datatype Chat = Chat(id: Id, title: string, createdAt: Timestamp, updatedAt: Timestamp)

  datatype Message = Message(
    id: Id, chatId: Id, role: Role, content: string, timestamp: Timestamp,
    tokens: Option<int>, processingTime: Option<real>)

  datatype Document = Document(
    id: Id, filename: string, originalName: string, filePath: string, fileSize: int,
    mimeType: string, uploadedAt: Timestamp, processed: bool, processingError: Option<string>)

  /** A document_embeddings row: one chunk of a document. */
  datatype Embedding = Embedding(
    id: Id, documentId: Id, chunkText: string, chunkIndex: int, embeddingVector: string,
    createdAt: Timestamp)

  /** A message_context row: a chunk of a document cited by a message. */
  datatype MessageContext = MessageContext(
    id: Id, messageId: Id, documentId: Id, relevanceScore: real, chunkText: string)

  /** A live_copilot_sessions row; it is active while endedAt is None. */
  datatype Session = Session(
    id: Id, mode: Mode, startedAt: Timestamp, endedAt: Option<Timestamp>, totalSuggestions: int)

  /** A live_suggestions row. */
  datatype Suggestion = Suggestion(
    id: Id, sessionId: Id, suggestionText: string, suggestionType: string,
    confidenceScore: real, createdAt: Timestamp)

  datatype TranscriptEntry = TranscriptEntry(
    id: Id, sessionId: Id, speaker: Speaker, text: string, confidence: Option<real>,
    timestamp: Timestamp)

  /** The contents of all eight tables. */
  datatype Tables = Tables(
    chats: seq<Chat>, messages: seq<Message>, documents: seq<Document>,
    embeddings: seq<Embedding>, contexts: seq<MessageContext>, sessions: seq<Session>,
    suggestions: seq<Suggestion>, transcripts: seq<TranscriptEntry>)

  const EmptyTables := Tables([], [], [], [], [], [], [], [])

  // ---------------------------------------------------------------------------
  // Keys and the row predicates the statements select with.

  function ChatKey(c: Chat): Id { c.id }
  function MessageKey(m: Message): Id { m.id }
  function DocumentKey(d: Document): Id { d.id }
  function EmbeddingKey(e: Embedding): Id { e.id }
  function ContextKey(c: MessageContext): Id { c.id }
  function SessionKey(s: Session): Id { s.id }
  function SuggestionKey(s: Suggestion): Id { s.id }
  function TranscriptKey(e: TranscriptEntry): Id { e.id }

  function ChatIds(rows: seq<Chat>): set<Id> { KeySet(rows, ChatKey) }
  function MessageIds(rows: seq<Message>): set<Id> { KeySet(rows, MessageKey) }
  function DocumentIds(rows: seq<Document>): set<Id> { KeySet(rows, DocumentKey) }
  function SessionIds(rows: seq<Session>): set<Id> { KeySet(rows, SessionKey) }
  function SuggestionIds(rows: seq<Suggestion>): set<Id> { KeySet(rows, SuggestionKey) }
  function TranscriptIds(rows: seq<TranscriptEntry>): set<Id> { KeySet(rows, TranscriptKey) }

  function ChatWithId(id: Id): Chat -> bool { (c: Chat) => c.id == id }
  function DocumentWithId(id: Id): Document -> bool { (d: Document) => d.id == id }
  function SessionWithId(id: Id): Session -> bool { (s: Session) => s.id == id }
  function MessageOfChat(chatId: Id): Message -> bool { (m: Message) => m.chatId == chatId }
  function ChunkOfDocument(documentId: Id): Embedding -> bool { (e: Embedding) => e.documentId == documentId }
  function ContextOfDocument(documentId: Id): MessageContext -> bool { (c: MessageContext) => c.documentId == documentId }
  function ContextOfMessage(messageId: Id): MessageContext -> bool { (c: MessageContext) => c.messageId == messageId }
  function ContextOfMessageIn(ids: set<Id>): MessageContext -> bool { (c: MessageContext) => c.messageId in ids }
  function SuggestionOfSession(sessionId: Id): Suggestion -> bool { (s: Suggestion) => s.sessionId == sessionId }
  function EntryOfSession(sessionId: Id): TranscriptEntry -> bool { (e: TranscriptEntry) => e.sessionId == sessionId }

  predicate IsActive(s: Session) { s.endedAt.None? }

  // ---------------------------------------------------------------------------
  // Constraints.

  /** Every id column is a PRIMARY KEY. */
  predicate PrimaryKeysHold(t: Tables)
  {
    && UniqueBy(t.chats, ChatKey)
    && UniqueBy(t.messages, MessageKey)
    && UniqueBy(t.documents, DocumentKey)
    && UniqueBy(t.embeddings, EmbeddingKey)
    && UniqueBy(t.contexts, ContextKey)
    && UniqueBy(t.sessions, SessionKey)
    && UniqueBy(t.suggestions, SuggestionKey)
    && UniqueBy(t.transcripts, TranscriptKey)
  }

  /** Every FOREIGN KEY column names an existing parent row. */
  predicate ForeignKeysHold(t: Tables)
  {
    && (forall m | m in t.messages :: m.chatId in ChatIds(t.chats))
    && (forall e | e in t.embeddings :: e.documentId in DocumentIds(t.documents))
    && (forall c | c in t.contexts ::
          c.messageId in MessageIds(t.messages) && c.documentId in DocumentIds(t.documents))
    && (forall s | s in t.suggestions :: s.sessionId in SessionIds(t.sessions))
    && (forall e | e in t.transcripts :: e.sessionId in SessionIds(t.sessions))
  }

  predicate Consistent(t: Tables)
  {
    PrimaryKeysHold(t) && ForeignKeysHold(t)
  }

  lemma EmptyTablesConsistent()
    ensures Consistent(EmptyTables)
  {
  }

  // ---------------------------------------------------------------------------
  // INSERT: each one is accepted exactly when the constraints still hold after it.

  lemma InsertChatConsistency(t: Tables, c: Chat)
    requires Consistent(t)
    ensures Consistent(t.(chats := t.chats + [c])) <==> c.id !in ChatIds(t.chats)
  {
    AppendUnique(t.chats, c, ChatKey);
    KeySetAppend(t.chats, c, ChatKey);
  }

  lemma InsertMessageConsistency(t: Tables, m: Message)
    requires Consistent(t)
    ensures Consistent(t.(messages := t.messages + [m])) <==>
            m.id !in MessageIds(t.messages) && m.chatId in ChatIds(t.chats)
  {
    AppendUnique(t.messages, m, MessageKey);
    KeySetAppend(t.messages, m, MessageKey);
    assert m in t.messages + [m];
  }

  lemma InsertDocumentConsistency(t: Tables, d: Document)
    requires Consistent(t)
    ensures Consistent(t.(documents := t.documents + [d])) <==> d.id !in DocumentIds(t.documents)
  {
    AppendUnique(t.documents, d, DocumentKey);
    KeySetAppend(t.documents, d, DocumentKey);
  }

  lemma InsertSessionConsistency(t: Tables, s: Session)
    requires Consistent(t)
    ensures Consistent(t.(sessions := t.sessions + [s])) <==> s.id !in SessionIds(t.sessions)
  {
    AppendUnique(t.sessions, s, SessionKey);
    KeySetAppend(t.sessions, s, SessionKey);
  }

  lemma InsertSuggestionConsistency(t: Tables, s: Suggestion)
    requires Consistent(t)
    ensures Consistent(t.(suggestions := t.suggestions + [s])) <==>
            s.id !in SuggestionIds(t.suggestions) && s.sessionId in SessionIds(t.sessions)
  {
    AppendUnique(t.suggestions, s, SuggestionKey);
    KeySetAppend(t.suggestions, s, SuggestionKey);
    assert s in t.suggestions + [s];
  }

  lemma InsertTranscriptConsistency(t: Tables, e: TranscriptEntry)
    requires Consistent(t)
    ensures Consistent(t.(transcripts := t.transcripts + [e])) <==>
            e.id !in TranscriptIds(t.transcripts) && e.sessionId in SessionIds(t.sessions)
  {
    AppendUnique(t.transcripts, e, TranscriptKey);
    KeySetAppend(t.transcripts, e, TranscriptKey);
    assert e in t.transcripts + [e];
  }

  // ---------------------------------------------------------------------------
  // UPDATE statements.

  /** UPDATE live_copilot_sessions SET ended_at = now WHERE ended_at IS NULL. */
  function EndActive(sessions: seq<Session>, now: Timestamp): (r: seq<Session>)
    ensures |r| == |sessions|
    ensures forall s | s in r :: !IsActive(s)
    ensures forall i | 0 <= i < |r| ::
              && r[i].id == sessions[i].id && r[i].mode == sessions[i].mode
              && r[i].startedAt == sessions[i].startedAt
              && r[i].totalSuggestions == sessions[i].totalSuggestions
              && (IsActive(sessions[i]) ==> r[i].endedAt == Some(now))
              && (!IsActive(sessions[i]) ==> r[i] == sessions[i])
  {
    seq(|sessions|, i requires 0 <= i < |sessions| =>
      if IsActive(sessions[i]) then sessions[i].(endedAt := Some(now)) else sessions[i])
  }

  /** UPDATE live_copilot_sessions SET total_suggestions = total_suggestions + 1 WHERE id = ?. */
  function IncrementTotal(sessions: seq<Session>, id: Id): (r: seq<Session>)
    ensures |r| == |sessions|
    ensures forall i | 0 <= i < |r| ::
              if sessions[i].id == id
              then r[i] == sessions[i].(totalSuggestions := sessions[i].totalSuggestions + 1)
              else r[i] == sessions[i]
  {
    seq(|sessions|, i requires 0 <= i < |sessions| =>
      if sessions[i].id == id
      then sessions[i].(totalSuggestions := sessions[i].totalSuggestions + 1)
      else sessions[i])
  }

  /** UPDATE chats SET updated_at = now WHERE id = ?. */
  function Touch(chats: seq<Chat>, id: Id, now: Timestamp): (r: seq<Chat>)
    ensures |r| == |chats|
    ensures forall i | 0 <= i < |r| ::
              if chats[i].id == id then r[i] == chats[i].(updatedAt := now) else r[i] == chats[i]
  {
    seq(|chats|, i requires 0 <= i < |chats| =>
      if chats[i].id == id then chats[i].(updatedAt := now) else chats[i])
  }

  lemma EndActiveConsistency(t: Tables, now: Timestamp)
    requires Consistent(t)
    ensures Consistent(t.(sessions := EndActive(t.sessions, now)))
  {
    SameKeys(t.sessions, EndActive(t.sessions, now), SessionKey);
  }

  lemma IncrementTotalConsistency(t: Tables, id: Id)
    requires Consistent(t)
    ensures Consistent(t.(sessions := IncrementTotal(t.sessions, id)))
  {
    SameKeys(t.sessions, IncrementTotal(t.sessions, id), SessionKey);
  }

  lemma TouchConsistency(t: Tables, id: Id, now: Timestamp)
    requires Consistent(t)
    ensures Consistent(t.(chats := Touch(t.chats, id, now)))
  {
    SameKeys(t.chats, Touch(t.chats, id, now), ChatKey);
  }

  // ---------------------------------------------------------------------------
  // DELETE with ON DELETE CASCADE.

  /** DELETE FROM chats WHERE id = ?: the chat's messages go with it
      (messages.chat_id), and with them their message_context rows
      (message_context.message_id). */
  function DeleteChatCascade(t: Tables, id: Id): (r: Tables)
    ensures forall c | c in r.chats :: c in t.chats && c.id != id
    ensures forall c | c in t.chats && c.id != id :: c in r.chats
    ensures forall m | m in r.messages :: m in t.messages && m.chatId != id
    ensures forall m | m in t.messages && m.chatId != id :: m in r.messages
    ensures forall c | c in r.contexts :: c in t.contexts
    ensures forall c, m | c in t.contexts && m in t.messages && m.chatId == id && c.messageId == m.id ::
              c !in r.contexts
    ensures forall c | c in t.contexts && (forall m | m in t.messages && m.chatId == id :: c.messageId != m.id) ::
              c in r.contexts
    ensures r.documents == t.documents && r.embeddings == t.embeddings
    ensures r.sessions == t.sessions && r.suggestions == t.suggestions
    ensures r.transcripts == t.transcripts
  {
    var gone := MessageIds(Filter(t.messages, MessageOfChat(id)));
    assert forall c | c in t.contexts && c.messageId in gone ::
             exists m | m in t.messages && m.chatId == id :: c.messageId == m.id;
    t.(chats := Filter(t.chats, Not(ChatWithId(id))),
       messages := Filter(t.messages, Not(MessageOfChat(id))),
       contexts := Filter(t.contexts, Not(ContextOfMessageIn(gone))))
  }

  /** DELETE FROM documents WHERE id = ?: its chunks (document_embeddings.document_id)
      and the message_context rows citing it (message_context.document_id) go with it. */
  function DeleteDocumentCascade(t: Tables, id: Id): (r: Tables)
    ensures forall d | d in r.documents :: d in t.documents && d.id != id
    ensures forall d | d in t.documents && d.id != id :: d in r.documents
    ensures forall e | e in r.embeddings :: e in t.embeddings && e.documentId != id
    ensures forall e | e in t.embeddings && e.documentId != id :: e in r.embeddings
    ensures forall c | c in r.contexts :: c in t.contexts && c.documentId != id
    ensures forall c | c in t.contexts && c.documentId != id :: c in r.contexts
    ensures r.chats == t.chats && r.messages == t.messages
    ensures r.sessions == t.sessions && r.suggestions == t.suggestions
    ensures r.transcripts == t.transcripts
  {
    t.(documents := Filter(t.documents, Not(DocumentWithId(id))),
       embeddings := Filter(t.embeddings, Not(ChunkOfDocument(id))),
       contexts := Filter(t.contexts, Not(ContextOfDocument(id))))
  }

  /** Deleting a live_copilot_sessions row takes its live_suggestions and
      transcript_entries rows with it. No route deletes sessions. */
  function DeleteSessionCascade(t: Tables, id: Id): (r: Tables)
    ensures forall s | s in r.sessions :: s in t.sessions && s.id != id
    ensures forall s | s in t.sessions && s.id != id :: s in r.sessions
    ensures forall s | s in r.suggestions :: s in t.suggestions && s.sessionId != id
    ensures forall s | s in t.suggestions && s.sessionId != id :: s in r.suggestions
    ensures forall e | e in r.transcripts :: e in t.transcripts && e.sessionId != id
    ensures forall e | e in t.transcripts && e.sessionId != id :: e in r.transcripts
    ensures r.chats == t.chats && r.messages == t.messages && r.documents == t.documents
    ensures r.embeddings == t.embeddings && r.contexts == t.contexts
  {
    t.(sessions := Filter(t.sessions, Not(SessionWithId(id))),
       suggestions := Filter(t.suggestions, Not(SuggestionOfSession(id))),
       transcripts := Filter(t.transcripts, Not(EntryOfSession(id))))
  }

  lemma DeleteChatConsistency(t: Tables, id: Id)
    requires Consistent(t)
    ensures Consistent(DeleteChatCascade(t, id))
  {
    var r := DeleteChatCascade(t, id);
    FilterKeepsUnique(t.chats, Not(ChatWithId(id)), ChatKey);
    FilterKeepsUnique(t.messages, Not(MessageOfChat(id)), MessageKey);
    var gone := MessageIds(Filter(t.messages, MessageOfChat(id)));
    FilterKeepsUnique(t.contexts, Not(ContextOfMessageIn(gone)), ContextKey);
    forall m | m in r.messages ensures m.chatId in ChatIds(r.chats) {
      var c :| c in t.chats && c.id == m.chatId;
      assert c in r.chats;
    }
    forall c | c in r.contexts ensures c.messageId in MessageIds(r.messages) {
      var m :| m in t.messages && m.id == c.messageId;
      assert m.chatId == id ==> m in Filter(t.messages, MessageOfChat(id));
      assert m in r.messages;
    }
  }

  /** The number of chats rows with an id is zero exactly when the id is unknown. */
  lemma ChatCountZero(chats: seq<Chat>, id: Id)
    ensures |Filter(chats, ChatWithId(id))| == 0 <==> id !in ChatIds(chats)
  {
    if id in ChatIds(chats) {
      var c :| c in chats && c.id == id;
      assert c in Filter(chats, ChatWithId(id));
    } else {
      FilterNone(chats, ChatWithId(id));
    }
  }

  /** Deleting a chat id that no row has changes nothing. */
  lemma DeleteAbsentChat(t: Tables, id: Id)
    requires Consistent(t)
    requires id !in ChatIds(t.chats)
    ensures DeleteChatCascade(t, id) == t
  {
    var r := DeleteChatCascade(t, id);
    FilterAll(t.chats, Not(ChatWithId(id)));
    assert r.chats == t.chats;
    forall m | m in t.messages ensures Not(MessageOfChat(id))(m) {
      assert m.chatId in ChatIds(t.chats);
    }
    FilterAll(t.messages, Not(MessageOfChat(id)));
    assert r.messages == t.messages;
    var gone := MessageIds(Filter(t.messages, MessageOfChat(id)));
    assert gone == {};
    FilterAll(t.contexts, Not(ContextOfMessageIn(gone)));
    assert r.contexts == t.contexts;
  }

  lemma DeleteDocumentConsistency(t: Tables, id: Id)
    requires Consistent(t)
    ensures Consistent(DeleteDocumentCascade(t, id))
  {
    var r := DeleteDocumentCascade(t, id);
    FilterKeepsUnique(t.documents, Not(DocumentWithId(id)), DocumentKey);
    FilterKeepsUnique(t.embeddings, Not(ChunkOfDocument(id)), EmbeddingKey);
    FilterKeepsUnique(t.contexts, Not(ContextOfDocument(id)), ContextKey);
    forall e | e in r.embeddings ensures e.documentId in DocumentIds(r.documents) {
      var d :| d in t.documents && d.id == e.documentId;
      assert d in r.documents;
    }
    forall c | c in r.contexts ensures c.documentId in DocumentIds(r.documents) {
      var d :| d in t.documents && d.id == c.documentId;
      assert d in r.documents;
    }
  }

  lemma DeleteSessionConsistency(t: Tables, id: Id)
    requires Consistent(t)
    ensures Consistent(DeleteSessionCascade(t, id))
  {
    var r := DeleteSessionCascade(t, id);
    FilterKeepsUnique(t.sessions, Not(SessionWithId(id)), SessionKey);
    FilterKeepsUnique(t.suggestions, Not(SuggestionOfSession(id)), SuggestionKey);
    FilterKeepsUnique(t.transcripts, Not(EntryOfSession(id)), TranscriptKey);
    forall s | s in r.suggestions ensures s.sessionId in SessionIds(r.sessions) {
      var p :| p in t.sessions && p.id == s.sessionId;
      assert p in r.sessions;
    }
    forall e | e in r.transcripts ensures e.sessionId in SessionIds(r.sessions) {
      var p :| p in t.sessions && p.id == e.sessionId;
      assert p in r.sessions;
    }
  }

  // ---------------------------------------------------------------------------
  // The database handle. Each method is one SQL statement; a statement that a
  // constraint rejects changes nothing and reports failure (better-sqlite3
  // throws, and the route handler's catch turns that into a 500 response).

  class Database {
    var chats: seq<Chat>
    var messages: seq<Message>
    var documents: seq<Document>
    var embeddings: seq<Embedding>
    var contexts: seq<MessageContext>
    var sessions: seq<Session>
    var suggestions: seq<Suggestion>
    var transcripts: seq<TranscriptEntry>

    function Snapshot(): Tables
      reads this
    {
      Tables(chats, messages, documents, embeddings, contexts, sessions, suggestions, transcripts)
    }

    predicate Valid()
      reads this
    {
      Consistent(Snapshot())
    }

    /** The freshly initialised database: every table exists and is empty. */
    constructor ()
      ensures Valid() && Snapshot() == EmptyTables
    {
      chats, messages, documents, embeddings := [], [], [], [];
      contexts, sessions, suggestions, transcripts := [], [], [], [];
    }

    /** INSERT INTO chats (id, title) VALUES (?, ?); both timestamps default to now. */
    method InsertChat(id: Id, title: string, now: Timestamp) returns (ok: bool)
      requires Valid()
      modifies this
      ensures Valid()
      ensures ok <==> id !in ChatIds(old(chats))
      ensures Snapshot() == if ok then old(Snapshot()).(chats := old(chats) + [Chat(id, title, now, now)])
                            else old(Snapshot())
    {
      var row := Chat(id, title, now, now);
      InsertChatConsistency(Snapshot(), row);
      ok := id !in ChatIds(chats);
      if ok {
        chats := chats + [row];
      }
    }

    /** INSERT INTO messages; content is NOT NULL, chat_id must name a chat. */
    method InsertMessage(id: Id, chatId: Id, role: Role, content: Option<string>,
                         tokens: Option<int>, processingTime: Option<real>, now: Timestamp)
      returns (ok: bool)
      requires Valid()
      modifies this
      ensures Valid()
      ensures ok <==> content.Some? && id !in MessageIds(old(messages)) && chatId in ChatIds(old(chats))
      ensures Snapshot() ==
              if ok then old(Snapshot()).(messages := old(messages) +
                           [Message(id, chatId, role, content.value, now, tokens, processingTime)])
              else old(Snapshot())
    {
      ok := content.Some? && id !in MessageIds(messages) && chatId in ChatIds(chats);
      if ok {
        var row := Message(id, chatId, role, content.value, now, tokens, processingTime);
        InsertMessageConsistency(Snapshot(), row);
        messages := messages + [row];
      }
    }

    /** UPDATE chats SET updated_at = CURRENT_TIMESTAMP WHERE id = ?. */
    method TouchChat(id: Id, now: Timestamp)
      requires Valid()
      modifies this
      ensures Valid()
      ensures Snapshot() == old(Snapshot()).(chats := Touch(old(chats), id, now))
    {
      TouchConsistency(Snapshot(), id, now);
      chats := Touch(chats, id, now);
    }

    /** DELETE FROM chats WHERE id = ?; changes counts the chats rows removed
        (rows removed by the cascade are not counted). */
    method DeleteChat(id: Id) returns (changes: nat)
      requires Valid()
      modifies this
      ensures Valid()
      ensures changes == |Filter(old(chats), ChatWithId(id))|
      ensures Snapshot() == DeleteChatCascade(old(Snapshot()), id)
    {
      changes := |Filter(chats, ChatWithId(id))|;
      var r := DeleteChatCascade(Snapshot(), id);
      DeleteChatConsistency(Snapshot(), id);
      chats, messages, contexts := r.chats, r.messages, r.contexts;
      assert Snapshot() == r;
      assert Consistent(Snapshot());
    }

    /** INSERT INTO documents (id, filename, original_name, file_path, file_size, mime_type);
        uploaded_at defaults to now, processed to FALSE, processing_error to NULL. */
    method InsertDocument(id: Id, filename: string, originalName: string, filePath: string,
                          fileSize: int, mimeType: string, now: Timestamp)
      returns (ok: bool)
      requires Valid()
      modifies this
      ensures Valid()
      ensures ok <==> id !in DocumentIds(old(documents))
      ensures Snapshot() ==
              if ok then old(Snapshot()).(documents := old(documents) +
                           [Document(id, filename, originalName, filePath, fileSize, mimeType,
                                     now, false, None)])
              else old(Snapshot())
    {
      var row := Document(id, filename, originalName, filePath, fileSize, mimeType, now, false, None);
      InsertDocumentConsistency(Snapshot(), row);
      ok := id !in DocumentIds(documents);
      if ok {
        documents := documents + [row];
      }
    }

    /** DELETE FROM documents WHERE id = ?, with its cascades. */
    method DeleteDocument(id: Id)
      requires Valid()
      modifies this
      ensures Valid()
      ensures Snapshot() == DeleteDocumentCascade(old(Snapshot()), id)
    {
      var r := DeleteDocumentCascade(Snapshot(), id);
      DeleteDocumentConsistency(Snapshot(), id);
      documents, embeddings, contexts := r.documents, r.embeddings, r.contexts;
      assert Snapshot() == r;
      assert Consistent(Snapshot());
    }

    /** UPDATE live_copilot_sessions SET ended_at = CURRENT_TIMESTAMP WHERE ended_at IS NULL. */
    method EndActiveSessions(now: Timestamp)
      requires Valid()
      modifies this
      ensures Valid()
      ensures Snapshot() == old(Snapshot()).(sessions := EndActive(old(sessions), now))
    {
      EndActiveConsistency(Snapshot(), now);
      sessions := EndActive(sessions, now);
    }

    /** INSERT INTO live_copilot_sessions (id, mode); started_at defaults to now,
        ended_at to NULL and total_suggestions to 0. */
    method InsertSession(id: Id, mode: Mode, now: Timestamp) returns (ok: bool)
      requires Valid()
      modifies this
      ensures Valid()
      ensures ok <==> id !in SessionIds(old(sessions))
      ensures Snapshot() ==
              if ok then old(Snapshot()).(sessions := old(sessions) + [Session(id, mode, now, None, 0)])
              else old(Snapshot())
    {
      var row := Session(id, mode, now, None, 0);
      InsertSessionConsistency(Snapshot(), row);
      ok := id !in SessionIds(sessions);
      if ok {
        sessions := sessions + [row];
      }
    }

    /** INSERT INTO transcript_entries (id, session_id, speaker, text, confidence);
        the speaker text must pass the CHECK and timestamp defaults to now. */
    method InsertTranscriptEntry(id: Id, sessionId: Id, speaker: string, text: string,
                                 confidence: Option<real>, now: Timestamp)
      returns (ok: bool)
      requires Valid()
      modifies this
      ensures Valid()
      ensures ok <==> && id !in TranscriptIds(old(transcripts))
                      && sessionId in SessionIds(old(sessions))
                      && ParseSpeaker(speaker).Some?
      ensures Snapshot() ==
              if ok then old(Snapshot()).(transcripts := old(transcripts) +
                           [TranscriptEntry(id, sessionId, ParseSpeaker(speaker).value, text,
                                            confidence, now)])
              else old(Snapshot())
    {
      var sp := ParseSpeaker(speaker);
      ok := id !in TranscriptIds(transcripts) && sessionId in SessionIds(sessions) && sp.Some?;
      if ok {
        var row := TranscriptEntry(id, sessionId, sp.value, text, confidence, now);
        InsertTranscriptConsistency(Snapshot(), row);
        transcripts := transcripts + [row];
      }
    }

    /** INSERT INTO live_suggestions; created_at defaults to now. */
    method InsertSuggestion(id: Id, sessionId: Id, text: string, suggestionType: string,
                            confidenceScore: real, now: Timestamp)
      returns (ok: bool)
      requires Valid()
      modifies this
      ensures Valid()
      ensures ok <==> id !in SuggestionIds(old(suggestions)) && sessionId in SessionIds(old(sessions))
      ensures Snapshot() ==
              if ok then old(Snapshot()).(suggestions := old(suggestions) +
                           [Suggestion(id, sessionId, text, suggestionType, confidenceScore, now)])
              else old(Snapshot())
    {
      var row := Suggestion(id, sessionId, text, suggestionType, confidenceScore, now);
      InsertSuggestionConsistency(Snapshot(), row);
      ok := id !in SuggestionIds(suggestions) && sessionId in SessionIds(sessions);
      if ok {
        suggestions := suggestions + [row];
      }
    }

    /** UPDATE live_copilot_sessions SET total_suggestions = total_suggestions + 1 WHERE id = ?. */
    method IncrementSuggestionCount(id: Id)
      requires Valid()
      modifies this
      ensures Valid()
      ensures Snapshot() == old(Snapshot()).(sessions := IncrementTotal(old(sessions), id))
    {
      IncrementTotalConsistency(Snapshot(), id);
      sessions := IncrementTotal(sessions, id);
    }
  }
}
