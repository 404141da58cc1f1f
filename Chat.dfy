/** The chat routes: the chat list with message counts, creating a chat,
    listing a chat's messages with the document context they cite, posting a
    message (the user's message, a touch of the chat, and a placeholder
    assistant reply), and deleting a chat with its messages. */
module Chat {
  import opened Relational
  import opened Schema
  import opened Http
  import opened Text
  import Documents

  const CreateFailed := "Failed to create chat"
  const PostFailed := "Failed to process message"
  const ChatNotFound := "Chat not found"
  const DefaultTitle := "New Chat"
  const ReplyTokens := 150
  const ReplyProcessingTime := 0.8
  /** The text around the quoted content in the placeholder reply. */
  const ReplyPrefix := "I understand you're asking about \""
  const ReplySuffix := "\". This is a placeholder response. Once Ollama is configured, I'll be able to provide intelligent responses using your local LLM and retrieved document context."

  // ---------------------------------------------------------------------------
  // GET /

  /** A chats row with `COUNT(m.id) AS message_count` and
      `MAX(m.timestamp) AS last_message_at` (NULL for a chat without messages). */
  datatype ChatListing = ChatListing(chat: Chat, messageCount: nat, lastMessageAt: Option<Timestamp>)

  function MessagesOf(messages: seq<Message>, chatId: Id): seq<Message>
  {
    Filter(messages, MessageOfChat(chatId))
  }

  /** MAX over the timestamps of some messages. */
  function LatestTimestamp(messages: seq<Message>): (r: Option<Timestamp>)
    ensures r.None? <==> messages == []
    ensures r.Some? ==> (exists m | m in messages :: m.timestamp == r.value)
                        && forall m | m in messages :: m.timestamp <= r.value
  {
    if messages == [] then None
    else
      var rest := LatestTimestamp(messages[1..]);
      assert forall m | m in messages :: m == messages[0] || m in messages[1..];
      if rest.None? || rest.value <= messages[0].timestamp then Some(messages[0].timestamp)
      else rest
  }

  function ListingOf(t: Tables, c: Chat): ChatListing
  {
    var own := MessagesOf(t.messages, c.id);
    ChatListing(c, |own|, LatestTimestamp(own))
  }

  function Listings(t: Tables): (r: seq<ChatListing>)
    ensures |r| == |t.chats|
    ensures forall i | 0 <= i < |r| :: r[i] == ListingOf(t, t.chats[i])
  {
    seq(|t.chats|, i requires 0 <= i < |t.chats| => ListingOf(t, t.chats[i]))
  }

  function UpdatedAt(l: ChatListing): int { l.chat.updatedAt }

  /** Every chat once, with its message count and latest message time, most
      recently updated first. */
  function ListChats(t: Tables): (r: seq<ChatListing>)
    ensures SortedDesc(r, UpdatedAt)
    ensures multiset(r) == multiset(Listings(t))
    ensures |r| == |t.chats|
    ensures forall l | l in r :: l.chat in t.chats && l == ListingOf(t, l.chat)
    ensures forall c | c in t.chats :: ListingOf(t, c) in r
  {
    var rows := Listings(t);
    var r := SortDesc(rows, UpdatedAt);
    SameMembers(r, rows);
    ListingsMembers(t);
    r
  }

  lemma ListingsMembers(t: Tables)
    ensures forall l | l in Listings(t) :: l.chat in t.chats && l == ListingOf(t, l.chat)
    ensures forall c | c in t.chats :: ListingOf(t, c) in Listings(t)
  {
    var rows := Listings(t);
    forall c | c in t.chats ensures ListingOf(t, c) in rows {
      var i :| 0 <= i < |t.chats| && t.chats[i] == c;
      assert rows[i] in rows;
    }
  }

  /** message_count counts the chat's messages, and last_message_at is the latest
      of their timestamps. */
  lemma ListingCounts(t: Tables, c: Chat)
    ensures ListingOf(t, c).messageCount == |Filter(t.messages, MessageOfChat(c.id))|
    ensures ListingOf(t, c).lastMessageAt.None? <==> forall m | m in t.messages :: m.chatId != c.id
    ensures ListingOf(t, c).lastMessageAt.Some? ==>
              forall m | m in t.messages && m.chatId == c.id ::
                m.timestamp <= ListingOf(t, c).lastMessageAt.value
  {
    var own := MessagesOf(t.messages, c.id);
    if own != [] {
      assert own[0] in own;
    }
  }

  // ---------------------------------------------------------------------------
  // POST /

  /** Inserts a chat titled as given, or 'New Chat' when the title is missing or empty. */
  method CreateChat(db: Database, title: Option<string>, newId: Id, now: Timestamp)
    returns (resp: Response<Chat>)
    requires db.Valid()
    modifies db
    ensures db.Valid()
    ensures resp.Ok? <==> newId !in ChatIds(old(db.chats))
    ensures resp.Ok? ==>
              && resp.value == Chat(newId, TextOr(title, DefaultTitle), now, now)
              && db.Snapshot() == old(db.Snapshot()).(chats := old(db.chats) + [resp.value])
    ensures !resp.Ok? ==> resp == Failed500(CreateFailed) && db.Snapshot() == old(db.Snapshot())
  {
    var ok := db.InsertChat(newId, TextOr(title, DefaultTitle), now);
    if !ok {
      return Failed500(CreateFailed);
    }
    resp := Ok(Chat(newId, TextOr(title, DefaultTitle), now, now));
  }

  // ---------------------------------------------------------------------------
  // GET /:chatId/messages

  /** One cited chunk: the document's original name, the chunk text and the
      relevance score. Each is NULL when the joined row has no value. */
  datatype ContextItem = ContextItem(
    filename: Option<string>, content: Option<string>, relevance: Option<real>)

  const NullContext := ContextItem(None, None, None)

  /** d.original_name of the LEFT JOINed document; NULL when no document has the id. */
  function CitedName(documents: seq<Document>, documentId: Id): (r: Option<string>)
    ensures r.None? <==> documentId !in DocumentIds(documents)
  {
    match Documents.FindDocument(documents, documentId)
    case None => None
    case Some(d) => Some(d.originalName)
  }

  function ContextsOf(contexts: seq<MessageContext>, messageId: Id): seq<MessageContext>
  {
    Filter(contexts, ContextOfMessage(messageId))
  }

  function ItemOf(documents: seq<Document>, c: MessageContext): ContextItem
  {
    ContextItem(CitedName(documents, c.documentId), Some(c.chunkText), Some(c.relevanceScore))
  }

  /** One item per message_context row of the message. */
  function MessageContextItems(t: Tables, messageId: Id): (r: seq<ContextItem>)
    ensures |r| == |ContextsOf(t.contexts, messageId)|
    ensures forall i | 0 <= i < |r| :: r[i] == ItemOf(t.documents, ContextsOf(t.contexts, messageId)[i])
  {
    var own := ContextsOf(t.contexts, messageId);
    seq(|own|, i requires 0 <= i < |own| => ItemOf(t.documents, own[i]))
  }

  /** The `context` list the handler builds: GROUP_CONCAT of one json_object per
      join row, parsed back. A message without context rows still has one join
      row whose columns are all NULL, and json_object over it is a non-NULL
      string, so its list holds one all-null item. */
  function ContextAsWritten(t: Tables, messageId: Id): (r: seq<ContextItem>)
    ensures |r| >= 1
    ensures ContextsOf(t.contexts, messageId) == [] ==> r == [NullContext]
    ensures ContextsOf(t.contexts, messageId) != [] ==> r == MessageContextItems(t, messageId)
  {
    if ContextsOf(t.contexts, messageId) == [] then [NullContext]
    else MessageContextItems(t, messageId)
  }

  /** The discrepancy: a message that cites nothing gets a one-element context
      list instead of an empty one. */
  lemma UncitedMessageGetsNullContext(t: Tables, messageId: Id)
    requires forall c | c in t.contexts :: c.messageId != messageId
    ensures ContextAsWritten(t, messageId) == [NullContext]
    ensures MessageContextItems(t, messageId) == []
  {
    FilterNone(t.contexts, ContextOfMessage(messageId));
  }

  /** The intended context: exactly the message's citations, each with its
      document's name when the constraints hold, and empty when there are none. */
  lemma ContextMatchesCitations(t: Tables, messageId: Id)
    requires Consistent(t)
    ensures MessageContextItems(t, messageId) == [] <==>
            forall c | c in t.contexts :: c.messageId != messageId
    ensures forall item | item in MessageContextItems(t, messageId) ::
              item.filename.Some? && item.content.Some? && item.relevance.Some?
  {
    var own := ContextsOf(t.contexts, messageId);
    var r := MessageContextItems(t, messageId);
    if r != [] {
      assert own[0] in own;
    }
    forall item | item in r ensures item.filename.Some? && item.content.Some? && item.relevance.Some? {
      var i :| 0 <= i < |r| && r[i] == item;
      assert own[i] in own;
    }
  }

  datatype MessageView = MessageView(message: Message, context: seq<ContextItem>)

  function Timestamp(m: Message): int { m.timestamp }

  /** Each message paired with the context that `context` gives its id. */
  function ViewsOf(messages: seq<Message>, context: Id -> seq<ContextItem>): (r: seq<MessageView>)
    ensures |r| == |messages|
    ensures forall i | 0 <= i < |r| :: r[i].message == messages[i] && r[i].context == context(messages[i].id)
  {
    seq(|messages|, i requires 0 <= i < |messages| => MessageView(messages[i], context(messages[i].id)))
  }

  function ViewTimestamp(v: MessageView): int { v.message.timestamp }

  /** The chat's messages by ascending timestamp, each paired by `context`. */
  function SortedViews(t: Tables, chatId: Id, context: Id -> seq<ContextItem>): (r: seq<MessageView>)
    ensures SortedAsc(r, ViewTimestamp)
    ensures |r| == |MessagesOf(t.messages, chatId)|
    ensures multiset(r) == multiset(ViewsOf(MessagesOf(t.messages, chatId), context))
    ensures forall v | v in r ::
              && v.message in t.messages && v.message.chatId == chatId
              && v.context == context(v.message.id)
    ensures forall m | m in t.messages && m.chatId == chatId :: MessageView(m, context(m.id)) in r
  {
    var views := ViewsOf(MessagesOf(t.messages, chatId), context);
    var r := SortAsc(views, ViewTimestamp);
    SameMembers(r, views);
    ViewsMembers(t, chatId, context);
    r
  }

  lemma ViewsMembers(t: Tables, chatId: Id, context: Id -> seq<ContextItem>)
    ensures var views := ViewsOf(MessagesOf(t.messages, chatId), context);
            && (forall v | v in views ::
                  && v.message in t.messages && v.message.chatId == chatId
                  && v.context == context(v.message.id))
            && (forall m | m in t.messages && m.chatId == chatId :: MessageView(m, context(m.id)) in views)
  {
    var own := MessagesOf(t.messages, chatId);
    var views := ViewsOf(own, context);
    forall v | v in views
      ensures && v.message in t.messages && v.message.chatId == chatId
              && v.context == context(v.message.id)
    {
      var i :| 0 <= i < |views| && views[i] == v;
      assert own[i] in own;
    }
    forall m | m in t.messages && m.chatId == chatId
      ensures MessageView(m, context(m.id)) in views
    {
      assert m in own;
      var i :| 0 <= i < |own| && own[i] == m;
      assert views[i] == MessageView(m, context(m.id));
      assert views[i] in views;
    }
  }

  /** The context the route sends: a null item for an uncited message. */
  function ContextSent(t: Tables): Id -> seq<ContextItem>
  {
    (messageId: Id) => ContextAsWritten(t, messageId)
  }

  /** The intended context: exactly the message's citations. */
  function ContextIntended(t: Tables): Id -> seq<ContextItem>
  {
    (messageId: Id) => MessageContextItems(t, messageId)
  }

  /** GET /:chatId/messages as written: the chat's messages by ascending
      timestamp, each with the context the route builds for it. */
  function ListMessages(t: Tables, chatId: Id): (r: seq<MessageView>)
    ensures SortedAsc(r, ViewTimestamp)
    ensures |r| == |MessagesOf(t.messages, chatId)|
    ensures multiset(r) == multiset(ViewsOf(MessagesOf(t.messages, chatId), ContextSent(t)))
    ensures forall v | v in r ::
              && v.message in t.messages && v.message.chatId == chatId
              && v.context == ContextAsWritten(t, v.message.id)
    ensures forall m | m in t.messages && m.chatId == chatId ::
              MessageView(m, ContextAsWritten(t, m.id)) in r
  {
    SortedViews(t, chatId, ContextSent(t))
  }

  /** The listing as intended: every message carries exactly its citations. */
  function ListMessagesIntended(t: Tables, chatId: Id): (r: seq<MessageView>)
    ensures SortedAsc(r, ViewTimestamp)
    ensures |r| == |MessagesOf(t.messages, chatId)|
    ensures multiset(r) == multiset(ViewsOf(MessagesOf(t.messages, chatId), ContextIntended(t)))
    ensures forall v | v in r ::
              && v.message in t.messages && v.message.chatId == chatId
              && v.context == MessageContextItems(t, v.message.id)
    ensures forall m | m in t.messages && m.chatId == chatId ::
              MessageView(m, MessageContextItems(t, m.id)) in r
  {
    SortedViews(t, chatId, ContextIntended(t))
  }

  /** The two listings agree on every cited message; an uncited one is
      listed with a null item as written and with nothing as intended. */
  lemma ListingsDifferOnlyWhenUncited(t: Tables, chatId: Id, m: Message)
    requires m in t.messages && m.chatId == chatId
    ensures ContextsOf(t.contexts, m.id) != [] ==>
              MessageView(m, MessageContextItems(t, m.id)) in ListMessages(t, chatId)
    ensures ContextsOf(t.contexts, m.id) == [] ==>
              && MessageView(m, [NullContext]) in ListMessages(t, chatId)
              && MessageView(m, []) in ListMessagesIntended(t, chatId)
  {
    var asWritten := ListMessages(t, chatId);
    var intended := ListMessagesIntended(t, chatId);
    assert MessageView(m, ContextAsWritten(t, m.id)) in asWritten;
    assert MessageView(m, MessageContextItems(t, m.id)) in intended;
    if ContextsOf(t.contexts, m.id) == [] {
      assert MessageContextItems(t, m.id) == [];
    }
  }

  // ---------------------------------------------------------------------------
  // POST /:chatId/messages

  /** The placeholder assistant reply quoting the user's content. */
  function AssistantReply(content: string): (r: string)
    ensures Contains(r, content)
  {
    var r := ReplyPrefix + content + ReplySuffix;
    assert content <= r[|ReplyPrefix|..];
    ContainsIffOccurs(r, content);
    r
  }

  datatype PostedPair = PostedPair(userMessage: Message, assistantMessage: Message)

  function UserMessage(id: Id, chatId: Id, content: string, now: Timestamp): Message
  {
    Message(id, chatId, User, content, now, None, None)
  }

  function AssistantMessage(id: Id, chatId: Id, content: string, now: Timestamp): Message
  {
    Message(id, chatId, Assistant, AssistantReply(content), now, Some(ReplyTokens), Some(ReplyProcessingTime))
  }

  /** The tables after the user's message and the touch. */
  function AfterUserMessage(t: Tables, chatId: Id, content: string, userId: Id, now: Timestamp): Tables
  {
    t.(chats := Touch(t.chats, chatId, now),
       messages := t.messages + [UserMessage(userId, chatId, content, now)])
  }

  /** The tables after a post whose three statements all succeed. */
  function AfterPost(t: Tables, chatId: Id, content: string, userId: Id, assistantId: Id,
                     now: Timestamp): Tables
  {
    var t1 := AfterUserMessage(t, chatId, content, userId, now);
    t1.(messages := t1.messages + [AssistantMessage(assistantId, chatId, content, now)])
  }

  /** Inserts the user's message, sets the chat's updated_at, then inserts the
      placeholder reply. The first insert fails without content, for a taken id
      or for an unknown chat (foreign keys are on); the second for a taken id.
      There is no transaction: when the reply insert fails, the user's message
      and the touch remain. */
  method PostMessage(db: Database, chatId: Id, content: Option<string>,
                     userId: Id, assistantId: Id, now: Timestamp)
    returns (resp: Response<PostedPair>)
    requires db.Valid()
    modifies db
    ensures db.Valid()
    ensures resp.Ok? || resp == Failed500(PostFailed)
    ensures !(content.Some? && userId !in MessageIds(old(db.messages)) && chatId in ChatIds(old(db.chats))) ==>
              resp.Failed500? && db.Snapshot() == old(db.Snapshot())
    ensures content.Some? && userId !in MessageIds(old(db.messages)) && chatId in ChatIds(old(db.chats)) ==>
              if assistantId == userId || assistantId in MessageIds(old(db.messages)) then
                && resp.Failed500?
                && db.Snapshot() == AfterUserMessage(old(db.Snapshot()), chatId, content.value, userId, now)
              else
                && resp == Ok(PostedPair(UserMessage(userId, chatId, content.value, now),
                                         AssistantMessage(assistantId, chatId, content.value, now)))
                && db.Snapshot() == AfterPost(old(db.Snapshot()), chatId, content.value,
                                              userId, assistantId, now)
  {
    var t0 := db.Snapshot();
    var ok := db.InsertMessage(userId, chatId, User, content, None, None, now);
    if !ok {
      return Failed500(PostFailed);
    }
    var userMessage := UserMessage(userId, chatId, content.value, now);
    KeySetAppend(t0.messages, userMessage, MessageKey);
    var chats0 := db.chats;
    db.TouchChat(chatId, now);
    SameKeys(chats0, db.chats, ChatKey);
    assert db.Snapshot() == AfterUserMessage(t0, chatId, content.value, userId, now);
    var reply := AssistantReply(content.value);
    ok := db.InsertMessage(assistantId, chatId, Assistant, Some(reply),
                           Some(ReplyTokens), Some(ReplyProcessingTime), now);
    if !ok {
      return Failed500(PostFailed);
    }
    resp := Ok(PostedPair(userMessage, AssistantMessage(assistantId, chatId, content.value, now)));
  }

  /** A successful post keeps the constraints. */
  lemma PostKeepsConsistent(t: Tables, chatId: Id, content: string, userId: Id, assistantId: Id,
                            now: Timestamp)
    requires Consistent(t)
    requires chatId in ChatIds(t.chats)
    requires userId != assistantId
    requires userId !in MessageIds(t.messages) && assistantId !in MessageIds(t.messages)
    ensures Consistent(AfterPost(t, chatId, content, userId, assistantId, now))
  {
    var u := UserMessage(userId, chatId, content, now);
    var a := AssistantMessage(assistantId, chatId, content, now);
    var t1 := t.(messages := t.messages + [u]);
    InsertMessageConsistency(t, u);
    KeySetAppend(t.messages, u, MessageKey);
    InsertMessageConsistency(t1, a);
    var t2 := t1.(messages := t1.messages + [a]);
    TouchConsistency(t2, chatId, now);
    assert AfterPost(t, chatId, content, userId, assistantId, now) == t2.(chats := Touch(t.chats, chatId, now));
  }

  lemma PostedMessages(t: Tables, chatId: Id, content: string, userId: Id, assistantId: Id,
                       now: Timestamp)
    ensures AfterPost(t, chatId, content, userId, assistantId, now).messages ==
            t.messages + [UserMessage(userId, chatId, content, now),
                          AssistantMessage(assistantId, chatId, content, now)]
  {
    var u := UserMessage(userId, chatId, content, now);
    var a := AssistantMessage(assistantId, chatId, content, now);
    assert t.messages + [u] + [a] == t.messages + [u, a];
  }

  /** A successful post adds two messages to the chat, the user's then the assistant's. */
  lemma PostAddsTwoMessages(t: Tables, chatId: Id, content: string, userId: Id, assistantId: Id,
                            now: Timestamp)
    ensures MessagesOf(AfterPost(t, chatId, content, userId, assistantId, now).messages, chatId) ==
            MessagesOf(t.messages, chatId) + [UserMessage(userId, chatId, content, now),
                                              AssistantMessage(assistantId, chatId, content, now)]
  {
    var u := UserMessage(userId, chatId, content, now);
    var a := AssistantMessage(assistantId, chatId, content, now);
    PostedMessages(t, chatId, content, userId, assistantId, now);
    FilterAppend(t.messages, [u, a], MessageOfChat(chatId));
    FilterAll([u, a], MessageOfChat(chatId));
  }

  /** A post leaves the messages of every other chat alone. */
  lemma PostLeavesOtherChats(t: Tables, chatId: Id, content: string, userId: Id, assistantId: Id,
                             now: Timestamp, other: Id)
    requires other != chatId
    ensures MessagesOf(AfterPost(t, chatId, content, userId, assistantId, now).messages, other) ==
            MessagesOf(t.messages, other)
  {
    var u := UserMessage(userId, chatId, content, now);
    var a := AssistantMessage(assistantId, chatId, content, now);
    PostedMessages(t, chatId, content, userId, assistantId, now);
    FilterAppend(t.messages, [u, a], MessageOfChat(other));
    FilterNone([u, a], MessageOfChat(other));
    assert MessagesOf(t.messages, other) + [] == MessagesOf(t.messages, other);
  }

  /** Posting moves the chat's updated_at to the post time and no other chat's. */
  lemma PostTouchesOnlyItsChat(t: Tables, chatId: Id, content: string, userId: Id, assistantId: Id,
                               now: Timestamp)
    ensures var t' := AfterPost(t, chatId, content, userId, assistantId, now);
            && |t'.chats| == |t.chats|
            && forall i | 0 <= i < |t.chats| ::
                 t'.chats[i].id == t.chats[i].id && t'.chats[i].title == t.chats[i].title
                 && t'.chats[i].updatedAt == (if t.chats[i].id == chatId then now else t.chats[i].updatedAt)
  {
  }

  // ---------------------------------------------------------------------------
  // DELETE /:chatId

  /** 404 when no chats row was deleted; otherwise the chat, its messages and
      their context rows are gone. */
  method DeleteChat(db: Database, chatId: Id) returns (resp: Response<Success>)
    requires db.Valid()
    modifies db
    ensures db.Valid()
    ensures resp.Ok? || resp == NotFound404(ChatNotFound)
    ensures resp.NotFound404? <==> chatId !in ChatIds(old(db.chats))
    ensures resp.NotFound404? ==> db.Snapshot() == old(db.Snapshot())
    ensures db.Snapshot() == DeleteChatCascade(old(db.Snapshot()), chatId)
  {
    var before := db.Snapshot();
    var changes := db.DeleteChat(chatId);
    ChatCountZero(before.chats, chatId);
    if chatId !in ChatIds(before.chats) {
      DeleteAbsentChat(before, chatId);
    }
    if changes == 0 {
      return NotFound404(ChatNotFound);
    }
    resp := Ok(Success);
  }

  /** After deleting a chat, listing its messages gives nothing. */
  lemma DeletedChatHasNoMessages(t: Tables, chatId: Id)
    ensures ListMessages(DeleteChatCascade(t, chatId), chatId) == []
    ensures chatId !in ChatIds(DeleteChatCascade(t, chatId).chats)
  {
    var r := DeleteChatCascade(t, chatId);
    FilterNone(r.messages, MessageOfChat(chatId));
  }
}
