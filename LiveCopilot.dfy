/** The live-copilot routes: switching the observation mode opens and closes
    sessions, transcript lines and suggestions are appended to a session, and
    the current session, the recent transcript and the session statistics are
    read back. The routes keep two facts about the sessions table: at most one
    session is active, and every session's total_suggestions counter equals
    the number of its live_suggestions rows. */
module LiveCopilot {
  import opened Relational
  import opened Schema
  import opened Http

  const InvalidModeError := "Invalid mode. Must be live, periodic, or off"
  const SetModeFailed := "Failed to set copilot mode"
  const TranscriptFieldsRequired := "sessionId, speaker, and text are required"
  const TranscriptFailed := "Failed to add transcript entry"
  const SuggestionFieldsRequired := "sessionId and suggestionText are required"
  const SuggestionFailed := "Failed to add suggestion"

  // ---------------------------------------------------------------------------
  // The session invariant.

  function ActiveSessions(sessions: seq<Session>): seq<Session>
  {
    Filter(sessions, IsActive)
  }

  predicate AtMostOneActive(sessions: seq<Session>)
  {
    |ActiveSessions(sessions)| <= 1
  }

  /** total_suggestions starts at 0 and counts the session's suggestion rows. */
  predicate CountersMatch(t: Tables)
  {
    forall s | s in t.sessions ::
      s.totalSuggestions == |Filter(t.suggestions, SuggestionOfSession(s.id))|
  }

  predicate SessionsWellFormed(t: Tables)
  {
    AtMostOneActive(t.sessions) && CountersMatch(t)
  }

  lemma EmptySessionsWellFormed()
    ensures SessionsWellFormed(EmptyTables)
  {
  }

  /** After ending the active sessions none is active. */
  lemma EndActiveLeavesNoneActive(sessions: seq<Session>, now: Timestamp)
    ensures ActiveSessions(EndActive(sessions, now)) == []
  {
    FilterNone(EndActive(sessions, now), IsActive);
  }

  /** Ending the active sessions and then opening one leaves exactly that one active. */
  lemma StartLeavesOnlyNewActive(sessions: seq<Session>, id: Id, mode: Mode, now: Timestamp)
    ensures ActiveSessions(EndActive(sessions, now) + [Session(id, mode, now, None, 0)]) ==
            [Session(id, mode, now, None, 0)]
  {
    var ended := EndActive(sessions, now);
    FilterAppend(ended, [Session(id, mode, now, None, 0)], IsActive);
    EndActiveLeavesNoneActive(sessions, now);
  }

  lemma EndActiveKeepsWellFormed(t: Tables, now: Timestamp)
    requires CountersMatch(t)
    ensures SessionsWellFormed(t.(sessions := EndActive(t.sessions, now)))
  {
    EndActiveLeavesNoneActive(t.sessions, now);
    var ended := EndActive(t.sessions, now);
    forall s | s in ended
      ensures s.totalSuggestions == |Filter(t.suggestions, SuggestionOfSession(s.id))|
    {
      var i :| 0 <= i < |ended| && ended[i] == s;
      assert t.sessions[i] in t.sessions;
    }
  }

  /** A new session starts with no suggestions: no suggestion row can name an id
      that no session has. */
  lemma StartKeepsWellFormed(t: Tables, row: Session)
    requires Consistent(t) && CountersMatch(t)
    requires ActiveSessions(t.sessions) == []
    requires row.id !in SessionIds(t.sessions) && row.totalSuggestions == 0
    ensures SessionsWellFormed(t.(sessions := t.sessions + [row]))
  {
    FilterAppend(t.sessions, [row], IsActive);
    forall x | x in t.suggestions ensures !SuggestionOfSession(row.id)(x) {
      assert x.sessionId in SessionIds(t.sessions);
    }
    FilterNone(t.suggestions, SuggestionOfSession(row.id));
  }

  /** A suggestion row plus the counter increment keeps both session facts. */
  lemma SuggestionKeepsWellFormed(t: Tables, sug: Suggestion)
    requires SessionsWellFormed(t)
    ensures SessionsWellFormed(t.(suggestions := t.suggestions + [sug],
                                  sessions := IncrementTotal(t.sessions, sug.sessionId)))
  {
    var sessions' := IncrementTotal(t.sessions, sug.sessionId);
    FilterCountPointwise(t.sessions, sessions', IsActive);
    forall s | s in sessions'
      ensures s.totalSuggestions == |Filter(t.suggestions + [sug], SuggestionOfSession(s.id))|
    {
      var i :| 0 <= i < |sessions'| && sessions'[i] == s;
      CounterAfterSuggestion(t, sug, i);
    }
  }

  /** The counter of one session after a suggestion row and the increment. */
  lemma CounterAfterSuggestion(t: Tables, sug: Suggestion, i: int)
    requires CountersMatch(t) && 0 <= i < |t.sessions|
    ensures var s := IncrementTotal(t.sessions, sug.sessionId)[i];
            s.totalSuggestions == |Filter(t.suggestions + [sug], SuggestionOfSession(s.id))|
  {
    var old_s := t.sessions[i];
    var own := SuggestionOfSession(old_s.id);
    assert old_s in t.sessions;
    assert old_s.totalSuggestions == |Filter(t.suggestions, own)|;
    FilterAppend(t.suggestions, [sug], own);
    FilterSingle(sug, own);
  }

  // ---------------------------------------------------------------------------
  // POST /mode/:mode

  /** The body of a successful mode switch: the new session's id unless the mode is off. */
  datatype ModeChange = ModeChange(sessionId: Option<Id>, mode: Mode)

  /** Validates the mode, ends every active session, and opens a session with
      the given id unless the mode is off. The two statements are not in a
      transaction: when the insert fails the sessions stay ended. */
  method SetMode(db: Database, mode: string, newId: Id, now: Timestamp)
    returns (resp: Response<ModeChange>)
    requires db.Valid() && SessionsWellFormed(db.Snapshot())
    modifies db
    ensures db.Valid() && SessionsWellFormed(db.Snapshot())
    ensures ParseMode(mode).None? ==>
              resp == BadRequest400(InvalidModeError) && db.Snapshot() == old(db.Snapshot())
    ensures ParseMode(mode) == Some(Off) ==>
              && resp == Ok(ModeChange(None, Off))
              && db.Snapshot() == old(db.Snapshot()).(sessions := EndActive(old(db.sessions), now))
    ensures ParseMode(mode).Some? && ParseMode(mode) != Some(Off) ==>
              var m := ParseMode(mode).value;
              if newId in SessionIds(old(db.sessions)) then
                && resp == Failed500(SetModeFailed)
                && db.Snapshot() == old(db.Snapshot()).(sessions := EndActive(old(db.sessions), now))
              else
                && resp == Ok(ModeChange(Some(newId), m))
                && db.Snapshot() == old(db.Snapshot()).(sessions :=
                     EndActive(old(db.sessions), now) + [Session(newId, m, now, None, 0)])
    ensures resp.Ok? ==>
              ActiveSessions(db.sessions) ==
              if resp.value.mode == Off then [] else [Session(newId, resp.value.mode, now, None, 0)]
  {
    var m := ParseMode(mode);
    if m.None? {
      return BadRequest400(InvalidModeError);
    }
    var before := db.sessions;
    EndActiveKeepsWellFormed(db.Snapshot(), now);
    db.EndActiveSessions(now);
    EndActiveLeavesNoneActive(before, now);
    if m.value == Off {
      return Ok(ModeChange(None, Off));
    }
    SameKeys(before, db.sessions, SessionKey);
    var t := db.Snapshot();
    var ok := db.InsertSession(newId, m.value, now);
    if !ok {
      return Failed500(SetModeFailed);
    }
    StartKeepsWellFormed(t, Session(newId, m.value, now, None, 0));
    StartLeavesOnlyNewActive(before, newId, m.value, now);
    resp := Ok(ModeChange(Some(newId), m.value));
  }

  // ---------------------------------------------------------------------------
  // GET /session

  /** The body of GET /session: the active session's row, or `{ mode: 'off' }`. */
  datatype SessionView = ActiveSession(session: Session) | NoActiveSession

  function StartedAt(s: Session): int { s.startedAt }

  /** The active sessions newest first, and the first of them. */
  function CurrentSession(sessions: seq<Session>): (r: SessionView)
    ensures r == NoActiveSession <==> forall s | s in sessions :: !IsActive(s)
    ensures r.ActiveSession? ==>
              && r.session in sessions && IsActive(r.session)
              && forall s | s in sessions && IsActive(s) :: s.startedAt <= r.session.startedAt
  {
    var newestFirst := SortDesc(ActiveSessions(sessions), StartedAt);
    SameMembers(newestFirst, ActiveSessions(sessions));
    if |newestFirst| == 0 then
      NoActiveSession
    else
      assert newestFirst[0] in newestFirst;
      HeadIsLargest(newestFirst, StartedAt);
      ActiveSession(newestFirst[0])
  }

  /** Right after switching to live or periodic mode, the current session is the new one. */
  lemma CurrentAfterStart(sessions: seq<Session>, id: Id, mode: Mode, now: Timestamp)
    ensures CurrentSession(EndActive(sessions, now) + [Session(id, mode, now, None, 0)]) ==
            ActiveSession(Session(id, mode, now, None, 0))
  {
    StartLeavesOnlyNewActive(sessions, id, mode, now);
  }

  /** Right after switching off, there is no current session. */
  lemma CurrentAfterOff(sessions: seq<Session>, now: Timestamp)
    ensures CurrentSession(EndActive(sessions, now)) == NoActiveSession
  {
  }

  // ---------------------------------------------------------------------------
  // POST /transcript

  datatype TranscriptRequest = TranscriptRequest(
    sessionId: Option<string>, speaker: Option<string>, text: Option<string>,
    confidence: Option<real>)

  /** Rejects a request without sessionId, speaker or text, then inserts the
      entry with the given id; a falsy confidence is stored as NULL. The insert
      fails on an unknown session, a speaker other than user/other, or a taken id. */
  method AddTranscriptEntry(db: Database, req: TranscriptRequest, newId: Id, now: Timestamp)
    returns (resp: Response<TranscriptEntry>)
    requires db.Valid()
    modifies db
    ensures db.Valid()
    ensures Missing(req.sessionId) || Missing(req.speaker) || Missing(req.text) ==>
              resp == BadRequest400(TranscriptFieldsRequired) && db.Snapshot() == old(db.Snapshot())
    ensures resp.Ok? <==>
              && !Missing(req.sessionId) && !Missing(req.speaker) && !Missing(req.text)
              && newId !in TranscriptIds(old(db.transcripts))
              && req.sessionId.value in SessionIds(old(db.sessions))
              && ParseSpeaker(req.speaker.value).Some?
    ensures resp.Ok? ==>
              && resp.value == TranscriptEntry(newId, req.sessionId.value,
                                               ParseSpeaker(req.speaker.value).value,
                                               req.text.value, NumberOrNull(req.confidence), now)
              && db.Snapshot() == old(db.Snapshot()).(transcripts := old(db.transcripts) + [resp.value])
    ensures !resp.Ok? ==> db.Snapshot() == old(db.Snapshot())
    ensures resp.Failed500? ==> resp.error == TranscriptFailed
  {
    if Missing(req.sessionId) || Missing(req.speaker) || Missing(req.text) {
      return BadRequest400(TranscriptFieldsRequired);
    }
    var confidence := NumberOrNull(req.confidence);
    var ok := db.InsertTranscriptEntry(newId, req.sessionId.value, req.speaker.value,
                                       req.text.value, confidence, now);
    if !ok {
      return Failed500(TranscriptFailed);
    }
    resp := Ok(TranscriptEntry(newId, req.sessionId.value, ParseSpeaker(req.speaker.value).value,
                               req.text.value, confidence, now));
  }

  // ---------------------------------------------------------------------------
  // GET /transcript/:sessionId

  /** `parseInt(limit) || 10`: an absent, unparsable or zero limit becomes 10.
      The parsed number is the argument; None stands for NaN. */
  function EffectiveLimit(parsed: Option<int>): (n: int)
    ensures n != 0
    ensures parsed.None? || parsed.value == 0 ==> n == 10
    ensures parsed.Some? && parsed.value != 0 ==> n == parsed.value
  {
    if parsed.None? || parsed.value == 0 then 10 else parsed.value
  }

  function EntryStamp(e: TranscriptEntry): int { e.timestamp }

  function EntriesOf(entries: seq<TranscriptEntry>, sessionId: Id): seq<TranscriptEntry>
  {
    Filter(entries, EntryOfSession(sessionId))
  }

  /** The newest `limit` entries of the session (all of them for a negative
      limit, as SQLite reads it), turned into chronological order. */
  function RecentTranscript(entries: seq<TranscriptEntry>, sessionId: Id, limit: Option<int>)
    : (r: seq<TranscriptEntry>)
    ensures SortedAsc(r, EntryStamp)
    ensures var n := |EntriesOf(entries, sessionId)|;
            var lim := EffectiveLimit(limit);
            |r| == if lim < 0 then n else Min(lim, n)
    ensures multiset(r) <= multiset(EntriesOf(entries, sessionId))
    ensures forall e | e in r :: e in entries && e.sessionId == sessionId
    ensures forall x, y | x in r && y in multiset(EntriesOf(entries, sessionId)) - multiset(r) ::
              x.timestamp >= y.timestamp
  {
    NewestAscending(EntriesOf(entries, sessionId), EffectiveLimit(limit), EntryStamp)
  }

  /** With a positive limit no larger than the session's entry count, exactly
      `limit` entries come back. */
  lemma RecentTranscriptFull(entries: seq<TranscriptEntry>, sessionId: Id, limit: int)
    requires 0 < limit <= |EntriesOf(entries, sessionId)|
    ensures |RecentTranscript(entries, sessionId, Some(limit))| == limit
  {
  }

  // ---------------------------------------------------------------------------
  // POST /suggestion

  datatype SuggestionRequest = SuggestionRequest(
    sessionId: Option<string>, suggestionText: Option<string>, suggestionType: Option<string>,
    confidenceScore: Option<real>)

  /** Rejects a request without sessionId or suggestionText, inserts the
      suggestion (type 'general' and score 0.8 when falsy) and adds one to its
      session's counter. */
  method AddSuggestion(db: Database, req: SuggestionRequest, newId: Id, now: Timestamp)
    returns (resp: Response<Suggestion>)
    requires db.Valid() && SessionsWellFormed(db.Snapshot())
    modifies db
    ensures db.Valid() && SessionsWellFormed(db.Snapshot())
    ensures Missing(req.sessionId) || Missing(req.suggestionText) ==>
              resp == BadRequest400(SuggestionFieldsRequired)
    ensures resp.Ok? <==>
              && !Missing(req.sessionId) && !Missing(req.suggestionText)
              && newId !in SuggestionIds(old(db.suggestions))
              && req.sessionId.value in SessionIds(old(db.sessions))
    ensures resp.Ok? ==>
              && resp.value == Suggestion(newId, req.sessionId.value, req.suggestionText.value,
                                          TextOr(req.suggestionType, "general"),
                                          NumberOr(req.confidenceScore, 0.8), now)
              && db.Snapshot() == old(db.Snapshot()).(
                   suggestions := old(db.suggestions) + [resp.value],
                   sessions := IncrementTotal(old(db.sessions), req.sessionId.value))
    ensures !resp.Ok? ==> db.Snapshot() == old(db.Snapshot())
    ensures resp.Failed500? ==> resp.error == SuggestionFailed
  {
    if Missing(req.sessionId) || Missing(req.suggestionText) {
      return BadRequest400(SuggestionFieldsRequired);
    }
    var row := Suggestion(newId, req.sessionId.value, req.suggestionText.value,
                          TextOr(req.suggestionType, "general"),
                          NumberOr(req.confidenceScore, 0.8), now);
    var t := db.Snapshot();
    var ok := db.InsertSuggestion(row.id, row.sessionId, row.suggestionText, row.suggestionType,
                                  row.confidenceScore, now);
    if !ok {
      return Failed500(SuggestionFailed);
    }
    db.IncrementSuggestionCount(row.sessionId);
    SuggestionKeepsWellFormed(t, row);
    resp := Ok(row);
  }

  /** The counter moves by exactly one for the suggestion's session and not at all
      for any other. */
  lemma IncrementChangesOneCounter(sessions: seq<Session>, sessionId: Id)
    requires UniqueBy(sessions, SessionKey)
    ensures forall i | 0 <= i < |sessions| ::
              IncrementTotal(sessions, sessionId)[i].totalSuggestions ==
              sessions[i].totalSuggestions + (if sessions[i].id == sessionId then 1 else 0)
    ensures |Filter(sessions, SessionWithId(sessionId))| <= 1
  {
    if |Filter(sessions, SessionWithId(sessionId))| > 1 {
      var f := Filter(sessions, SessionWithId(sessionId));
      assert f[0] in f && f[1] in f;
      var i :| 0 <= i < |sessions| && sessions[i] == f[0];
      var j :| 0 <= j < |sessions| && sessions[j] == f[1];
      FilterKeepsUnique(sessions, SessionWithId(sessionId), SessionKey);
    }
  }

  // ---------------------------------------------------------------------------
  // GET /stats/:sessionId

  datatype SessionStats = SessionStats(
    mode: Mode, startedAt: Timestamp, totalSuggestions: int,
    transcriptEntries: nat, suggestionsCount: nat)

  /** The session row joined with its transcript entries and suggestions, grouped
      by the session: COUNT(DISTINCT …) counts the distinct ids on each side.
      None when no session has the id (the reply is then `{}`). */
  function SessionStatistics(t: Tables, sessionId: Id): (r: Option<SessionStats>)
    ensures r.None? <==> sessionId !in SessionIds(t.sessions)
    ensures r.Some? ==> exists s | s in t.sessions ::
              && s.id == sessionId && r.value.mode == s.mode && r.value.startedAt == s.startedAt
              && r.value.totalSuggestions == s.totalSuggestions
  {
    var matching := Filter(t.sessions, SessionWithId(sessionId));
    if |matching| == 0 then
      assert forall s | s in t.sessions :: s.id != sessionId;
      None
    else
      var s := matching[0];
      assert s in matching;
      Some(SessionStats(
        s.mode, s.startedAt, s.totalSuggestions,
        |KeySet(EntriesOf(t.transcripts, sessionId), TranscriptKey)|,
        |KeySet(Filter(t.suggestions, SuggestionOfSession(sessionId)), SuggestionKey)|))
  }

  /** With the keys unique, the distinct counts are the row counts, and the
      stored counter agrees with the counted suggestions. */
  lemma StatisticsAgree(t: Tables, sessionId: Id)
    requires Consistent(t) && SessionsWellFormed(t)
    requires sessionId in SessionIds(t.sessions)
    ensures var st := SessionStatistics(t, sessionId).value;
            && st.transcriptEntries == |EntriesOf(t.transcripts, sessionId)|
            && st.suggestionsCount == |Filter(t.suggestions, SuggestionOfSession(sessionId))|
            && st.totalSuggestions == st.suggestionsCount
  {
    FilterKeepsUnique(t.transcripts, EntryOfSession(sessionId), TranscriptKey);
    UniqueKeyCount(EntriesOf(t.transcripts, sessionId), TranscriptKey);
    var own := Filter(t.suggestions, SuggestionOfSession(sessionId));
    FilterKeepsUnique(t.suggestions, SuggestionOfSession(sessionId), SuggestionKey);
    UniqueKeyCount(own, SuggestionKey);
    var matching := Filter(t.sessions, SessionWithId(sessionId));
    var s :| s in t.sessions && s.id == sessionId;
    assert matching[0] in matching;
  }
}
