# cluely-local-mind: the server routes and the front-end helpers, in Dafny

cluely-local-mind is a local meeting and document assistant. Its Express
server keeps its state in SQLite. This project models that state and the
route handlers that change and read it:

- the eight tables created by `initializeDatabase`;
- the live-copilot session routes;
- the document routes and the chunk ("embeddings") routes;
- the chat routes.

It also models the pure helpers of four React components:

- the ten-entry transcript window and the phrase cycle of `TranscriptStream`;
- the icon classifier and the upload-list updaters of `FileUploadZone`;
- the relative-time formatter, which `AppSidebar` and `ChatSidebar` each carry.

The modules follow the repository's files:

| module | file | what it holds |
|---|---|---|
| `Relational` | helpers | Option, filters, key sets, sorting by a key (a sorted permutation, ties unordered), SQLite `LIMIT` |
| `Text` | helpers | substring containment (the model of `LIKE '%q%'`), decimal rendering of integers and its parse-back |
| `Schema` | server/database/init.js | one datatype per row and an enumeration per CHECK column; `Consistent` (primary and foreign keys hold); the cascade rules as functions; the class `Database`, whose methods are the individual SQL statements |
| `Http` | route plumbing | the reply datatype (Ok / 400 / 404 / 500) and JavaScript's falsy defaults (`x \|\| d`) |
| `LiveCopilot` | server/routes/liveCopilot.js | the mode switch, the current session, the transcript and suggestion appends, the recent transcript, the session statistics |
| `Documents` | server/routes/documents.js | listing, upload, content, cascading delete, chunk listing |
| `Embeddings` | server/routes/embeddings.js | substring search and the aggregate statistics |
| `Chat` | server/routes/chat.js | chat list, create, message list with context, post, delete |
| `TranscriptStream` | src/components/TranscriptStream.tsx | the bounded window and the phrase cycle |
| `FileUploadZone` | src/components/FileUploadZone.tsx | the icon classifier, the upload records and the list updaters |
| `AppSidebar` | src/components/AppSidebar.tsx | `formatTimestamp` |
| `ChatSidebar` | src/components/ChatSidebar.tsx | its copy of `formatTimestamp`, proved equal to the `AppSidebar` one |

Route handlers that change the database are methods taking the `Database` object:

- Each handler is proved against the new table contents, stated as functions of the old ones.
- The `Database` invariant is `Consistent`.
- `SetMode` and `AddSuggestion` preserve `SessionsWellFormed`: at most one session is active, and every `total_suggestions` equals its session's number of suggestion rows.

Read-only handlers are functions over the tables. uuids and `CURRENT_TIMESTAMP` values are parameters.

## Model

| member | source | states |
|---|---|---|
| Schema.ParseMode | server/database/init.js:77 | a text names a mode exactly when it is 'live', 'periodic' or 'off', and the mode's text is that text |
| Schema.ParseSpeaker | server/database/init.js:102 | a text names a speaker exactly when it is 'user' or 'other' |
| Schema.EmptyTablesConsistent | server/database/init.js:9-108 | the freshly created empty tables satisfy every key constraint |
| Schema.InsertChatConsistency | server/database/init.js:10-15 | a chats insert keeps the constraints exactly when its id is new |
| Schema.InsertMessageConsistency | server/database/init.js:20-29 | a messages insert keeps the constraints exactly when its id is new and its chat_id names a chat (foreign keys are on, line 6) |
| Schema.InsertDocumentConsistency | server/database/init.js:34-44 | a documents insert keeps the constraints exactly when its id is new |
| Schema.InsertSessionConsistency | server/database/init.js:75-81 | a sessions insert keeps the constraints exactly when its id is new |
| Schema.InsertSuggestionConsistency | server/database/init.js:86-94 | a live_suggestions insert keeps the constraints exactly when its id is new and its session exists |
| Schema.InsertTranscriptConsistency | server/database/init.js:99-107 | a transcript_entries insert keeps the constraints exactly when its id is new and its session exists |
| Schema.EndActive | server/routes/liveCopilot.js:17-18 | afterwards no session is active; each active session ends at `now`; ended sessions and all other columns are unchanged |
| Schema.IncrementTotal | server/routes/liveCopilot.js:128-129 | the named session's total_suggestions goes up by one; every other row is unchanged |
| Schema.Touch | server/routes/chat.js:94-95 | the named chat's updated_at becomes `now`; every other row is unchanged |
| Schema.EndActiveConsistency | server/routes/liveCopilot.js:17-18 | ending sessions keeps the constraints |
| Schema.IncrementTotalConsistency | server/routes/liveCopilot.js:128-129 | the counter update keeps the constraints |
| Schema.TouchConsistency | server/routes/chat.js:94-95 | the updated_at update keeps the constraints |
| Schema.DeleteChatCascade | server/database/init.js:20-29 | deleting a chat removes exactly it and its messages, and through message_context.message_id (line 68) exactly their context rows (a row citing no deleted message stays); other tables are untouched |
| Schema.DeleteDocumentCascade | server/database/init.js:49-57 | deleting a document removes exactly it, its chunk rows and, through line 69, the message_context rows citing it; other tables are untouched |
| Schema.DeleteSessionCascade | server/database/init.js:86-107 | deleting a session removes exactly it, its suggestions (line 93) and its transcript entries (line 106) |
| Schema.DeleteChatConsistency | server/database/init.js:28 | the chat cascade leaves no dangling foreign key |
| Schema.DeleteDocumentConsistency | server/database/init.js:56 | the document cascade leaves no dangling foreign key |
| Schema.DeleteSessionConsistency | server/database/init.js:93 | the session cascade leaves no dangling foreign key |
| Schema.ChatCountZero | server/routes/chat.js:125-128 | the DELETE reports zero changes exactly when no chat has the id |
| Schema.DeleteAbsentChat | server/routes/chat.js:125-130 | in a consistent database, deleting an unknown chat id changes nothing |
| Schema.Database.constructor | server/database/init.js:2-108 | the database starts with all eight tables empty, and consistent |
| Schema.Database.InsertChat | server/routes/chat.js:34-35 | `INSERT INTO chats`: succeeds exactly when the id is new; the row takes `now` for both timestamps (init.js:13-14); a rejected insert changes nothing |
| Schema.Database.InsertMessage | server/routes/chat.js:90-91 | `INSERT INTO messages`: succeeds exactly when content is not NULL, the id is new and the chat exists |
| Schema.Database.TouchChat | server/routes/chat.js:94-95 | the chats table becomes `Touch` of the old one |
| Schema.Database.DeleteChat | server/routes/chat.js:125-126 | the tables become the chat cascade of the old ones; `changes` counts the deleted chats rows |
| Schema.Database.InsertDocument | server/routes/documents.js:46-58 | `INSERT INTO documents`: succeeds exactly when the id is new; processed defaults to false and processing_error to NULL (init.js:42-43) |
| Schema.Database.DeleteDocument | server/routes/documents.js:117-118 | the tables become the document cascade of the old ones |
| Schema.Database.EndActiveSessions | server/routes/liveCopilot.js:17-18 | the sessions table becomes `EndActive` of the old one |
| Schema.Database.InsertSession | server/routes/liveCopilot.js:23-24 | `INSERT INTO live_copilot_sessions`: succeeds exactly when the id is new; ended_at NULL, total_suggestions 0 (init.js:78-80) |
| Schema.Database.InsertTranscriptEntry | server/routes/liveCopilot.js:66-71 | succeeds exactly when the id is new, the session exists and the speaker passes the CHECK |
| Schema.Database.InsertSuggestion | server/routes/liveCopilot.js:114-125 | succeeds exactly when the id is new and the session exists |
| Schema.Database.IncrementSuggestionCount | server/routes/liveCopilot.js:128-129 | the sessions table becomes `IncrementTotal` of the old one |
| Http.TextOr | server/routes/chat.js:35 | `x \|\| fallback` for a text: an absent or empty text gives the fallback; any other gives the text |
| Http.NumberOr | server/routes/liveCopilot.js:124 | `x \|\| fallback` for a number: an absent or zero number gives the fallback |
| Http.NumberOrNull | server/routes/liveCopilot.js:71 | `x \|\| null`: NULL exactly when the number is absent or zero |
| LiveCopilot.EmptySessionsWellFormed | server/database/init.js:75-81 | an empty database has no active session and all counters match |
| LiveCopilot.EndActiveLeavesNoneActive | server/routes/liveCopilot.js:17-18 | after ending the active sessions, none is active |
| LiveCopilot.StartLeavesOnlyNewActive | server/routes/liveCopilot.js:17-24 | ending sessions and then inserting one leaves exactly the new session active |
| LiveCopilot.EndActiveKeepsWellFormed | server/routes/liveCopilot.js:17-18 | ending sessions keeps both session facts |
| LiveCopilot.StartKeepsWellFormed | server/routes/liveCopilot.js:21-24 | a new session, inserted when none is active, keeps both facts; its counter 0 equals its suggestion count |
| LiveCopilot.SuggestionKeepsWellFormed | server/routes/liveCopilot.js:114-129 | a suggestion row plus the increment keeps every counter equal to its session's suggestion rows |
| LiveCopilot.CounterAfterSuggestion | server/routes/liveCopilot.js:128-129 | after the row and the increment, one session's counter still equals its suggestion count |
| LiveCopilot.SetMode | server/routes/liveCopilot.js:7-34 | invalid mode: 400 and nothing changes; 'off': sessions ended and no row added; otherwise sessions ended, and the new session inserted with its id returned, or 500 for a taken id; on success the active sessions are exactly the new one, or none for off |
| LiveCopilot.CurrentSession | server/routes/liveCopilot.js:41-48 | `{mode:'off'}` exactly when no session is active; otherwise an active session whose started_at is the greatest |
| LiveCopilot.CurrentAfterStart | server/routes/liveCopilot.js:17-24 | after switching to live or periodic, GET session returns the new session |
| LiveCopilot.CurrentAfterOff | server/routes/liveCopilot.js:17-28 | after switching off, GET session returns `{mode:'off'}` |
| LiveCopilot.AddTranscriptEntry | server/routes/liveCopilot.js:56-80 | missing sessionId, speaker or text: 400 with nothing inserted; success exactly when the insert's conditions hold; the row stored and returned has a falsy confidence as NULL; every failure leaves the tables unchanged |
| LiveCopilot.EffectiveLimit | server/routes/liveCopilot.js:86 | `parseInt(limit) \|\| 10`: NaN or 0 gives 10, any other number itself |
| LiveCopilot.RecentTranscript | server/routes/liveCopilot.js:89-96 | the session's newest min(limit, n) entries (all for a negative limit), in ascending timestamp order: a sub-multiset of the session's entries, and no omitted entry is newer than a returned one |
| LiveCopilot.RecentTranscriptFull | server/routes/liveCopilot.js:89-94 | with 0 < limit <= n, exactly `limit` entries come back |
| LiveCopilot.AddSuggestion | server/routes/liveCopilot.js:104-138 | missing sessionId or suggestionText: 400; on success, one row is added (type 'general' and score 0.8 when falsy) and its session's counter is incremented; failures change nothing; both session facts are kept |
| LiveCopilot.IncrementChangesOneCounter | server/routes/liveCopilot.js:128-129 | the counter moves by exactly one for the named session and by none for the others; at most one row has that id |
| LiveCopilot.SessionStatistics | server/routes/liveCopilot.js:146-160 | `{}` exactly when no session has the id; otherwise that session's mode, started_at and total_suggestions |
| LiveCopilot.StatisticsAgree | server/routes/liveCopilot.js:151-152 | the two COUNT(DISTINCT) figures are the session's transcript and suggestion row counts, and total_suggestions equals the suggestion count |
| Documents.Listings | server/routes/documents.js:12-17 | one listing per document, with its number of chunk rows |
| Documents.ListDocuments | server/routes/documents.js:12-19 | every document exactly once, with chunk_count its chunk rows, sorted by uploaded_at descending (a permutation of the grouped rows) |
| Documents.ListingsMembers | server/routes/documents.js:12-17 | the grouped rows are exactly the documents with their chunk counts |
| Documents.ListedWithoutChunks | server/routes/documents.js:14-16 | a document without chunk rows is listed with chunk_count 0 |
| Documents.UploadDocument | server/routes/documents.js:29-71 | upload error or no file: 400 with nothing inserted; otherwise one row with the file's fields (processed false) inserted and returned, or 500 for a taken id |
| Documents.UploadThenList | server/routes/documents.js:46-65 | an uploaded document is listed with chunk_count 0 |
| Documents.FindDocument | server/routes/documents.js:79 | None exactly when no document has the id; otherwise a document with that id |
| Documents.GetDocumentContent | server/routes/documents.js:74-95 | 404 exactly for an unknown id; otherwise the row and the fixed placeholder text |
| Documents.ContentOfUploaded | server/routes/documents.js:79-90 | with unique ids, the content lookup of a just-added document returns that document |
| Documents.DeleteDocument | server/routes/documents.js:98-125 | 404 exactly for an unknown id, with nothing changed; otherwise the document cascade |
| Documents.DeletedDocumentIsGone | server/routes/documents.js:117-118 | after the delete the id is unknown, it has no chunks, and the content lookup gives 404 |
| Documents.ChunkRows | server/routes/documents.js:134 | projects each chunk row to id, chunk_text, chunk_index and created_at |
| Documents.DocumentChunks | server/routes/documents.js:133-138 | exactly that document's chunks (as a multiset), sorted by chunk_index ascending |
| Documents.ChunkRowsMembers | server/routes/documents.js:133-136 | the projected rows are exactly those of the document's chunks |
| Embeddings.HitsFor | server/routes/embeddings.js:18-20 | a chunk's join rows pair it with exactly the documents that have its document_id |
| Embeddings.MatchingHits | server/routes/embeddings.js:17-21 | every row's chunk contains the query and has an owning document; every such pair is a row |
| Embeddings.Search | server/routes/embeddings.js:6-37 | 400 exactly when the query is missing or empty; otherwise the matches sorted by created_at descending, min(limit, n) of them (limit 5 when absent), and none omitted that is newer than one kept |
| Embeddings.SearchHitsAreOwnedMatches | server/routes/embeddings.js:17-24 | every result contains the query and belongs to an existing document |
| Embeddings.SearchFindsAll | server/routes/embeddings.js:17-24 | with a limit of at least the number of matches, every matching chunk of an existing document is returned |
| Embeddings.RowsFor | server/routes/embeddings.js:50-51 | a document's LEFT JOIN rows: one per chunk, or one NULL-chunk row when it has none |
| Embeddings.Stats | server/routes/embeddings.js:44-52 | total_file_size is NULL exactly when there are no documents |
| Embeddings.LeftJoinEmpty | server/routes/embeddings.js:50-51 | the join has no rows exactly when there are no documents |
| Embeddings.SumFileSizeAppend | server/routes/embeddings.js:49 | SUM over two row lists is the sum of the SUMs |
| Embeddings.SumSameDocument | server/routes/embeddings.js:49 | SUM over rows of one document is its file_size times the row count |
| Embeddings.FileSizeIsWeighted | server/routes/embeddings.js:49-51 | SUM(d.file_size) over the join counts each document max(1, chunk count) times |
| Embeddings.ChunksAreSummed | server/routes/embeddings.js:47 | COUNT(de.id) is the sum of the documents' chunk counts |
| Embeddings.JoinDocumentIds | server/routes/embeddings.js:46 | the join rows carry exactly the document ids |
| Embeddings.ChunkTotalCountsOwned | server/routes/embeddings.js:47 | with unique ids, the summed chunk counts are the chunks owned by some document |
| Embeddings.TotalFileSizeIsWeighted | server/routes/embeddings.js:49-51 | with at least one document, total_file_size is the weighted sum |
| Embeddings.StatsMeaning | server/routes/embeddings.js:44-52 | in a consistent database: total_documents is the number of documents, total_chunks the number of chunk rows, total_file_size the weighted sum |
| Embeddings.FileSizeCountedPerChunk | server/routes/embeddings.js:49-51 | worked example, not a general property: one 100-byte document with three chunks reports a total file size of 300 |
| Chat.LatestTimestamp | server/routes/chat.js:13 | MAX(m.timestamp): NULL exactly for no messages; otherwise the largest timestamp |
| Chat.Listings | server/routes/chat.js:10-16 | one listing per chat |
| Chat.ListChats | server/routes/chat.js:10-18 | every chat exactly once, with its message count and last message time, sorted by updated_at descending (a permutation of the grouped rows) |
| Chat.ListingsMembers | server/routes/chat.js:10-16 | the grouped rows are exactly the chats' listings |
| Chat.ListingCounts | server/routes/chat.js:12-13 | message_count is the number of the chat's messages; last_message_at is NULL exactly when it has none, and no message is later |
| Chat.CreateChat | server/routes/chat.js:28-43 | inserts the chat titled as given, or 'New Chat' when the title is missing or empty, and returns it; 500 with nothing changed for a taken id |
| Chat.CitedName | server/routes/chat.js:55 | d.original_name is NULL exactly when no document has the id |
| Chat.MessageContextItems | server/routes/chat.js:53-71 | one item per message_context row of the message, in order |
| Chat.ContextAsWritten | server/routes/chat.js:51-71 | as the query is written: an uncited message gets the one-item list `[{filename:null,content:null,relevance:null}]` |
| Chat.UncitedMessageGetsNullContext | server/routes/chat.js:61-71 | for a message without context rows, the as-written list is one null item where the intended list is empty |
| Chat.ContextMatchesCitations | server/routes/chat.js:69-71 | the intended list is empty exactly when nothing cites the message; in a consistent database every item has all three fields |
| Chat.ViewsOf | server/routes/chat.js:69-72 | each message paired, in order, with the context the given builder assigns its id |
| Chat.SortedViews | server/routes/chat.js:50-72 | exactly the chat's messages (as a multiset), each with the builder's context, sorted by timestamp ascending |
| Chat.ViewsMembers | server/routes/chat.js:60-64 | the views are exactly the chat's messages with the builder's contexts |
| Chat.ListMessages | server/routes/chat.js:45-79 | as written: exactly the chat's messages (as a multiset), sorted by timestamp ascending, each with the context the route sends (a single null item for an uncited message) |
| Chat.ListMessagesIntended | server/routes/chat.js:45-79 | as intended: exactly the chat's messages (as a multiset), sorted by timestamp ascending, each with exactly its citations |
| Chat.ListingsDifferOnlyWhenUncited | server/routes/chat.js:51-71 | the two listings agree on a cited message; an uncited one is listed with a null item as written and with an empty context as intended |
| Chat.AssistantReply | server/routes/chat.js:100 | the placeholder reply contains the user's content |
| Chat.PostMessage | server/routes/chat.js:82-117 | if the user insert fails (no content, taken id, unknown chat), 500 and nothing changes; if the reply insert fails, 500, keeping the user message and the touch; otherwise both messages are appended, the chat is touched, and the pair is returned |
| Chat.PostKeepsConsistent | server/routes/chat.js:89-103 | a successful post keeps the constraints |
| Chat.PostedMessages | server/routes/chat.js:89-103 | a post appends the user message and then the assistant message (tokens 150) |
| Chat.PostAddsTwoMessages | server/routes/chat.js:89-103 | the chat's messages grow by exactly those two, in that order |
| Chat.PostLeavesOtherChats | server/routes/chat.js:89-103 | every other chat's messages are unchanged |
| Chat.PostTouchesOnlyItsChat | server/routes/chat.js:94-95 | only the posted chat's updated_at changes, to the post time |
| Chat.DeleteChat | server/routes/chat.js:120-137 | 404 exactly for an unknown chat, with nothing changed; the tables become the chat cascade of the old ones |
| Chat.DeletedChatHasNoMessages | server/routes/chat.js:125-126 | after the delete, the chat is gone and listing its messages gives nothing |
| TranscriptStream.LastN | src/components/TranscriptStream.tsx:51 | the last min(n, \|s\|) elements, in order |
| TranscriptStream.AppendKeepingLast10 | src/components/TranscriptStream.tsx:51 | the length is min(old + 1, 10); the new entry is last; before it are the last min(old, 9) old entries, in order |
| TranscriptStream.AppendIsLast10 | src/components/TranscriptStream.tsx:51 | an append gives the last ten of the old list plus the entry |
| TranscriptStream.LastOfLast | src/components/TranscriptStream.tsx:51 | trimming to the last n before appending more changes nothing afterwards |
| TranscriptStream.FeedAllIsLast10 | src/components/TranscriptStream.tsx:51 | from at most ten entries, any run of appends shows the last ten of all entries |
| TranscriptStream.IndexAfterIsMod | src/components/TranscriptStream.tsx:40-52 | after k ticks the phrase index is k mod 5 |
| TranscriptStream.TranscriptFeed.constructor | src/components/TranscriptStream.tsx:21-40 | the feed starts inactive with no entries and phrase index 0 |
| TranscriptStream.TranscriptFeed.SetActive | src/components/TranscriptStream.tsx:37-57 | a change of isActive restarts the interval; the entries are kept; activation resets the phrase index to 0 |
| TranscriptStream.TranscriptFeed.Tick | src/components/TranscriptStream.tsx:41-54 | inactive: nothing changes; active: the current phrase is appended through the ten-entry window with confidence in [0.8, 1), and the index advances by one mod 5 |
| TranscriptStream.TickTextsCycle | src/components/TranscriptStream.tsx:46-52 | the k-th tick shows phrase k mod 5, and the cycle repeats every five ticks |
| FileUploadZone.GetFileIcon | src/components/FileUploadZone.tsx:38-45 | each icon exactly when its test is the first to pass: pdf/text, image, audio, video, zip/rar; the generic icon when none does |
| FileUploadZone.PdfIcon | src/components/FileUploadZone.tsx:39 | worked example, not a general property: "application/pdf" gets the text icon |
| FileUploadZone.AudioIcon | src/components/FileUploadZone.tsx:41 | worked example, not a general property: "audio/wav" gets the music icon |
| FileUploadZone.VideoIconExample | src/components/FileUploadZone.tsx:42 | worked example, not a general property: "video/mp4" gets the video icon |
| FileUploadZone.UnknownTypeIcon | src/components/FileUploadZone.tsx:44 | worked example, not a general property: the empty type gets the generic file icon |
| FileUploadZone.TextBeforeVideo | src/components/FileUploadZone.tsx:39-42 | "video/vnd.text" gets the text icon, because that test comes first |
| FileUploadZone.ImageBeforeZip | src/components/FileUploadZone.tsx:40-43 | "image/zip" gets the image icon, because the image test comes before the archive test |
| FileUploadZone.NewRecord | src/components/FileUploadZone.tsx:49-56 | a new record has the file's name, size and type, status uploading, progress 0 and no counts |
| FileUploadZone.NewRecords | src/components/FileUploadZone.tsx:48-56 | one new record per picked file, in order |
| FileUploadZone.RandomCount | src/components/FileUploadZone.tsx:72-73 | `Math.floor(r * span) + base` lies in [base, base + span) |
| FileUploadZone.MarkProcessing | src/components/FileUploadZone.tsx:66-76 | only records with the id change, to processing at progress 100, with chunks in [10, 59] and embeddings in [5, 24] and every other field (name, size, type) kept; length and order kept |
| FileUploadZone.MarkCompleted | src/components/FileUploadZone.tsx:80-84 | only records with the id change, to status completed |
| FileUploadZone.SetProgress | src/components/FileUploadZone.tsx:91-95 | only records with the id change, to the new progress |
| FileUploadZone.RemoveFile | src/components/FileUploadZone.tsx:120-122 | keeps exactly the records with another id |
| FileUploadZone.RemoveAbsent | src/components/FileUploadZone.tsx:120-122 | removing an id no record has changes nothing |
| FileUploadZone.RemoveIdempotent | src/components/FileUploadZone.tsx:120-122 | removing twice is removing once |
| FileUploadZone.AddThenRemove | src/components/FileUploadZone.tsx:58 | appending a record with a fresh id and removing that id gives the list back |
| FileUploadZone.RemoveDistributes | src/components/FileUploadZone.tsx:120-122 | removal keeps the others in order: it distributes over concatenation |
| FileUploadZone.Lifecycle | src/components/FileUploadZone.tsx:49-84 | a fresh upload ends completed at progress 100 with counts in range; the other records are unchanged |
| FileUploadZone.UploadList.constructor | src/components/FileUploadZone.tsx:34 | the list starts empty |
| FileUploadZone.UploadList.AddUploads | src/components/FileUploadZone.tsx:47-58 | the list becomes the old list followed by one new record per picked file |
| FileUploadZone.UploadList.UploadTick | src/components/FileUploadZone.tsx:62-96 | progress grows by a step in [0, 30); the upload finishes exactly when it reaches 100; the list is updated by `MarkProcessing` or `SetProgress` |
| FileUploadZone.UploadList.CompleteProcessing | src/components/FileUploadZone.tsx:79-84 | the list becomes `MarkCompleted` of the old one |
| FileUploadZone.UploadList.Remove | src/components/FileUploadZone.tsx:120-122 | the list becomes `RemoveFile` of the old one |
| AppSidebar.FloorBelow | src/components/AppSidebar.tsx:73-75 | floor(diff / size) < b exactly when diff < b * size |
| AppSidebar.RelativeTime | src/components/AppSidebar.tsx:72-79 | the unit is minutes exactly when diff < 1 h (every negative diff too), hours exactly when 1 h <= diff < 1 d, days otherwise; the amount is the floor in that unit, with hours in [1, 23] and days >= 1 |
| AppSidebar.RenderRoundTrip | src/components/AppSidebar.tsx:77-79 | a rendered amount and unit parse back to themselves |
| AppSidebar.FormatMeaning | src/components/AppSidebar.tsx:70-80 | the text is a decimal integer followed by exactly one unit letter, and parses back to the relative time of the difference |
| AppSidebar.FormatCases | src/components/AppSidebar.tsx:73-79 | below an hour, "<floor(diff/60000)>m"; below a day, "<floor(diff/3600000)>h" with hours in [1, 23]; otherwise "<floor(diff/86400000)>d" with days >= 1 |
| AppSidebar.FloorUnique | src/components/AppSidebar.tsx:73-75 | the floor of a quotient is unique |
| ChatSidebar.SameAsAppSidebar | src/components/ChatSidebar.tsx:68-78 | for every pair of times, the chat sidebar's text equals the application sidebar's |
| ChatSidebar.FormatCases | src/components/ChatSidebar.tsx:70-77 | the same three branches and bounds; a negative difference is shown in minutes; the text parses back to the relative time |
| Relational.SortDesc | server/routes/chat.js:17 | `ORDER BY … DESC`: sorted descending and a permutation of its input |
| Relational.SqlLimit | server/routes/embeddings.js:23 | `LIMIT n`: the first min(n, length) rows, or all of them for a negative n |
| Relational.NewestAscending | server/routes/liveCopilot.js:92-96 | `ORDER BY … DESC LIMIT n` then `reverse()`: the newest rows, in ascending order |
| Text.ContainsIffOccurs | server/routes/embeddings.js:21 | containment (the model of `LIKE '%q%'`) holds exactly when the query occurs at some position |
| Text.DecimalRoundTrip | src/components/AppSidebar.tsx:77-79 | the decimal text of an integer parses back to it |

## Left out

- Timestamps are integers: whole seconds for `CURRENT_TIMESTAMP`, milliseconds for the front end.
  - `CURRENT_TIMESTAMP` values and uuids are method parameters. The clock and uuid generation are not modelled.
  - In the front end, `Date.now()`, `Math.random()` and timer callbacks are inputs.
- The search relevance score (embeddings.js:27-30) is random, so it is not modelled.
- `LIKE` is modelled as case-sensitive substring containment. SQLite's ASCII case folding, and `%` and `_` inside the query acting as wildcards, are left out.
- Ties under `ORDER BY` are left unordered. Each ordered result is specified as a sorted permutation (or a sorted sub-multiset under `LIMIT`), so no tie order is chosen.
- `AVG(LENGTH(chunk_text))` (embeddings.js:48) is a real-valued average and is not modelled.
- Embeddings.Stats: its own contract only says when total_file_size is NULL. The count and sum meanings are in StatsMeaning and FileSizeIsWeighted.
- `GROUP_CONCAT` and `JSON.parse` (chat.js:53-71) are not modelled as strings. Context is a list of records. Its order is the table order, which SQLite does not promise.
- Multer, the upload directory and `fs.unlink` (documents.js:30-36, 110-114) are I/O.
  - The middleware's outcome is an input (error, no file, or a file).
  - A failed unlink does not affect the row delete, so the unlink does not appear.
- `parseInt(req.query.limit)` is not modelled as string parsing. The limit arrives parsed, with None standing for NaN.
  - The search limit arrives likewise.
  - The `limit = 5` default applies only when the field is absent. A non-numeric limit sent to SQLite is not modelled.
- Request bodies are modelled as optional strings and numbers. Fields of other JSON types (arrays, objects, booleans) are not modelled.
- Failed500 is modelled only for statements the constraints reject (a taken id, a missing parent, a NOT NULL or CHECK violation). A failure in a read-only handler (the 500 branches at chat.js:21-24, documents.js:22-25, embeddings.js:33-36 and others) needs a database error, which the model does not have.
- No shown code writes `embedding_vector`, `processed` or `processing_error` (init.js:42-43, 54). Nothing creates chunk rows either.
  - The tables carry these columns, but no operation changes them.
  - Search is a substring match, not a vector search: embeddings.js:15 leaves vector similarity as a TODO, and ContextPanel.tsx:13 shows mock context for the same reason. The model follows the code.
- Each handler takes one `now`, used for every `CURRENT_TIMESTAMP` its statements evaluate, whether written in the statement or as a column default. A post's three statements (chat.js:90-103) and a mode switch's two (liveCopilot.js:17-25) are thus taken to run within one second. A second boundary falling between them is not modelled.
- No route deletes a session. Schema.DeleteSessionCascade models the cascade the schema declares.
- better-sqlite3 runs each statement separately, with no transaction around a handler. The model keeps this: a failure after an earlier statement leaves that statement's effect in place (`SetMode`, `PostMessage`).
- `formatFileSize` (FileUploadZone.tsx:124-130) uses floating-point logarithms and is not modelled. The drag-and-drop handlers, the toast and the rendering are not modelled either.
- Upload progress is modelled one tick at a time (`UploadTick`). The 200 ms interval and the 2 s timeout that drive the ticks are not modelled.
- The `error` upload status is declared but never set by the component, so no operation produces it.
- The locale time formatting in TranscriptStream.tsx:72-79 is not modelled.
- The other components (ChatInterface, ContextPanel, DebugMetrics, LiveNudgeBox, PerformanceTipToast, SettingsDialog, IntegrationsSection, ObservationModeToggle, MessageBubble) are not modelled. Neither are src/lib/api.ts, server/index.js and server/scripts/setup.js.
- TranscriptStream.TranscriptFeed.Tick: the `phraseIndex < samplePhrases.length` guard always holds, since the index stays in [0, 5). The model keeps the guard but proves it always passes (the `Valid` invariant).

## Findings

| source | as written | input that shows it | evidently intended | confidence | as-written member | corrected member |
|---|---|---|---|---|---|---|
| server/routes/chat.js:51-71 | the messages query LEFT JOINs message_context and builds `context_json` with `GROUP_CONCAT(json_object(...))`; `json_object` over the all-NULL join row of an uncited message is a non-NULL text, so `context_json` is truthy and the message's context is `[{filename:null,content:null,relevance:null}]` | a chat with one message that no message_context row cites | an empty context list for an uncited message, which line 71's `: []` branch and MessageBubble.tsx:63 (`context.length > 0`) expect | not executed | Chat.ContextAsWritten, Chat.UncitedMessageGetsNullContext, Chat.ListMessages | Chat.MessageContextItems, Chat.ContextMatchesCitations, Chat.ListMessagesIntended |
