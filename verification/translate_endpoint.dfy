/**
 * The translate endpoint, as a sequential state machine over the store.
 *
 * The handler checks the method, the allow-list and the body; resolves or creates the session;
 * writes the source message (unless this is a retranslation) and a pending translation; reads
 * the settings and the translation context; calls the routed model; records generated session
 * metadata for a new session; answers with the message keys; and finally marks the translation
 * completed or failed. The concurrent parts of the handler are applied in the order it issues
 * them. Push keys, clock readings, the API key, the adapters and the order of the context
 * snapshot are supplied by the environment.
 */
module TranslateEndpoint {
  import opened Wrappers
  import opened Json
  import opened Constants
  import opened Schemas
  import opened TranslatePrompt
  import opened SessionStore
  import opened Llm
  import opened AllowList
  import opened Http

  datatype Body =
    | ErrorBody(error: string)
    | Ids(sessionId: string, sourceMessageId: Option<string>, translationMessageId: string)

  /** What the handler cannot compute itself. */
  datatype Env = Env(
    sessionKey: string,       // push key of a new session
    sessionNow: int,          // `Date.now()` inside `createSession`
    now: int,                 // the handler's `Date.now()`
    sourceKey: string,        // push key of the source message
    sourceTouch: int,         // `updatedAt` written after the source message
    translationKey: string,   // push key of the translation message
    translationTouch: int,    // `updatedAt` written after the translation message
    apiKey: string,           // `getApiKey(model)`
    adapters: Adapters,
    order: seq<string>,       // the `orderByChild("createdAt")` order of the context read
    finalTouch: int)          // `updatedAt` written after finalisation

  /** The response, the store afterwards, and the options handed to the model, if it was called. */
  datatype Outcome = Outcome(response: Response<Body>, store: Store, sent: Option<TranslateOptions>)

  const TRANSLATION_FAILED: string := "Translation failed"

  /** `!sessionId`: an absent or empty session id starts a new session. */
  predicate IsNewSession(q: TranslateRequest) {
    !Truthy(q.sessionId)
  }

  /** `!parentMessageId`: only a request without a parent writes a source message. */
  predicate WritesSource(q: TranslateRequest) {
    !Truthy(q.parentMessageId)
  }

  function SessionIdFor(q: TranslateRequest, env: Env): string {
    if IsNewSession(q) then env.sessionKey else q.sessionId.value
  }

  /** The source message: completed, holding the text, created at `now`. */
  function SourceMessage(text: string, now: int): NewMessage {
    NewMessage(Source, text, Some(Completed), None, None, None, now, None)
  }

  /** The translation message as first written: pending and empty, created at `now + 1`. */
  function PendingTranslation(q: TranslateRequest, now: int): NewMessage {
    NewMessage(Translation, "", Some(Pending), Some(q.model), Some(q.tone), q.parentMessageId, now + 1, None)
  }

  /** The push keys are fresh where they are used. */
  predicate KeysFresh(st: Store, q: TranslateRequest, env: Env) {
    && (IsNewSession(q) ==> env.sessionKey !in st.sessions)
    && env.sourceKey != env.translationKey
    && var sid := SessionIdFor(q, env);
       sid in st.sessions ==> env.sourceKey !in st.sessions[sid].messages && env.translationKey !in st.sessions[sid].messages
  }

  datatype Written = Written(store: Store, sessionId: string, sourceId: Option<string>)

  /** `createSession(userId, { description: "" })` for a new session; nothing otherwise. */
  function ResolveSession(st: Store, q: TranslateRequest, env: Env): (st1: Store)
    requires IsNewSession(q) ==> env.sessionKey !in st.sessions
    ensures var sid := SessionIdFor(q, env);
      && NodeOr(st1, sid).messages == NodeOr(st, sid).messages
      && OthersUnchanged(st, st1, sid)
      && (IsNewSession(q) ==> (sid in st1.sessions
            && KSessionCreatedAt in st1.sessions[sid].fields && st1.sessions[sid].fields[KSessionCreatedAt] == JNum(env.sessionNow)
            && KDescription in st1.sessions[sid].fields && st1.sessions[sid].fields[KDescription] == JStr("")))
      && (!IsNewSession(q) ==> st1 == st)
  {
    if IsNewSession(q) then CreateSession(st, env.sessionKey, env.sessionNow, SessionMetadata(None, "")).0 else st
  }

  /** The source message write, when there is no parent. */
  function WriteSource(st1: Store, q: TranslateRequest, env: Env): (st2: Store)
    requires var sid := SessionIdFor(q, env); sid in st1.sessions ==> env.sourceKey !in st1.sessions[sid].messages
    ensures !WritesSource(q) ==> st2 == st1
    ensures WritesSource(q) ==> st2 == AddMessage(st1, SessionIdFor(q, env), env.sourceKey, env.sourceTouch, SourceMessage(q.text, env.now)).0
  {
    if WritesSource(q) then AddMessage(st1, SessionIdFor(q, env), env.sourceKey, env.sourceTouch, SourceMessage(q.text, env.now)).0
    else st1
  }

  /** Session resolution and the message writes, up to the pending translation. */
  function WriteMessages(st: Store, q: TranslateRequest, env: Env): (w: Written)
    requires KeysFresh(st, q, env)
    ensures w.sessionId == SessionIdFor(q, env) && w.sessionId in w.store.sessions
    ensures w.sourceId.Some? <==> WritesSource(q)
    ensures w.sourceId.Some? ==> w.sourceId.value == env.sourceKey
    ensures env.translationKey in w.store.sessions[w.sessionId].messages
    ensures w.store.settings == st.settings
  {
    var sid := SessionIdFor(q, env);
    var st1 := ResolveSession(st, q, env);
    var st2 := WriteSource(st1, q, env);
    var st3 := AddMessage(st2, sid, env.translationKey, env.translationTouch, PendingTranslation(q, env.now)).0;
    Written(st3, sid, if WritesSource(q) then Some(env.sourceKey) else None)
  }

  /** `before` with `y` added under `b`, and `x` under `a` when `withA`. */
  function Insert2<V>(before: map<string, V>, a: string, x: V, withA: bool, b: string, y: V): map<string, V> {
    (if withA then before[a := x] else before)[b := y]
  }

  /** Adding two fresh keys keeps every earlier entry and adds exactly the new ones. */
  lemma Insert2Contents<V>(before: map<string, V>, a: string, x: V, withA: bool, b: string, y: V)
    requires a != b && a !in before && b !in before
    ensures var m := Insert2(before, a, x, withA, b, y);
      && m.Keys == before.Keys + {b} + (if withA then {a} else {})
      && (forall k :: k in before ==> m[k] == before[k])
      && m[b] == y
      && (withA ==> m[a] == x)
  {
  }

  /** Replacing the second entry of `Insert2`. */
  lemma Insert2Replace<V>(before: map<string, V>, a: string, x: V, withA: bool, b: string, y: V, z: V)
    ensures Insert2(before, a, x, withA, b, y)[b := z] == Insert2(before, a, x, withA, b, z)
  {
  }

  /** The messages of the session after the writes: the earlier ones, the source message unless there is a parent, and the pending translation. */
  function NewMessages(st: Store, q: TranslateRequest, env: Env): map<string, MessageRecord> {
    Insert2(NodeOr(st, SessionIdFor(q, env)).messages, env.sourceKey, MessageFields(SourceMessage(q.text, env.now)), WritesSource(q),
            env.translationKey, MessageFields(PendingTranslation(q, env.now)))
  }

  /** The writes leave exactly `NewMessages` under the session. */
  lemma WrittenMessagesExact(st: Store, q: TranslateRequest, env: Env)
    requires KeysFresh(st, q, env)
    ensures var w := WriteMessages(st, q, env);
      w.store.sessions[w.sessionId].messages == NewMessages(st, q, env)
  {
    var sid := SessionIdFor(q, env);
    var st1 := ResolveSession(st, q, env);
    var st2 := WriteSource(st1, q, env);
    if WritesSource(q) {
      AddMessageNode(st1, sid, env.sourceKey, env.sourceTouch, SourceMessage(q.text, env.now));
    }
    AddMessageNode(st2, sid, env.translationKey, env.translationTouch, PendingTranslation(q, env.now));
  }

  /** The writes add the pending translation and, when there is no parent, the source message. */
  lemma WrittenKeys(st: Store, q: TranslateRequest, env: Env)
    requires KeysFresh(st, q, env)
    ensures var w := WriteMessages(st, q, env);
      w.store.sessions[w.sessionId].messages.Keys
        == NodeOr(st, w.sessionId).messages.Keys + {env.translationKey} + (if WritesSource(q) then {env.sourceKey} else {})
  {
    WrittenMessagesExact(st, q, env);
  }

  /** The two new records are the encoded source message and the encoded pending translation. */
  lemma WrittenRecords(st: Store, q: TranslateRequest, env: Env)
    requires KeysFresh(st, q, env)
    ensures var w := WriteMessages(st, q, env);
      var msgs := w.store.sessions[w.sessionId].messages;
      && msgs[env.translationKey] == MessageFields(PendingTranslation(q, env.now))
      && (WritesSource(q) ==> env.sourceKey in msgs && msgs[env.sourceKey] == MessageFields(SourceMessage(q.text, env.now)))
  {
    WrittenMessagesExact(st, q, env);
  }

  /** Every message the session held before is still there, unchanged. */
  lemma WrittenKeepsEarlier(st: Store, q: TranslateRequest, env: Env)
    requires KeysFresh(st, q, env)
    ensures var w := WriteMessages(st, q, env);
      var before := NodeOr(st, w.sessionId).messages;
      forall m :: m in before ==> (m in w.store.sessions[w.sessionId].messages
        && w.store.sessions[w.sessionId].messages[m] == before[m])
  {
    WrittenMessagesExact(st, q, env);
  }

  /** A new session starts with its creation time and an empty description. */
  lemma WrittenNewSession(st: Store, q: TranslateRequest, env: Env)
    requires KeysFresh(st, q, env) && IsNewSession(q)
    ensures var w := WriteMessages(st, q, env);
      var f := w.store.sessions[w.sessionId].fields;
      && KSessionCreatedAt in f && f[KSessionCreatedAt] == JNum(env.sessionNow)
      && KDescription in f && f[KDescription] == JStr("")
  {
    var sid := SessionIdFor(q, env);
    var st1 := ResolveSession(st, q, env);
    var st2 := WriteSource(st1, q, env);
    assert KSessionCreatedAt in st2.sessions[sid].fields && st2.sessions[sid].fields[KSessionCreatedAt] == JNum(env.sessionNow);
    assert KDescription in st2.sessions[sid].fields && st2.sessions[sid].fields[KDescription] == JStr("");
  }

  /** The writes touch no other session and not the settings. */
  lemma WrittenFrame(st: Store, q: TranslateRequest, env: Env)
    requires KeysFresh(st, q, env)
    ensures OthersUnchanged(st, WriteMessages(st, q, env).store, SessionIdFor(q, env))
  {
    var sid := SessionIdFor(q, env);
    var st1 := ResolveSession(st, q, env);
    var st2 := WriteSource(st1, q, env);
    var st3 := WriteMessages(st, q, env).store;
    OthersUnchangedTransitive(st, st1, st2, sid);
    OthersUnchangedTransitive(st, st2, st3, sid);
  }

  /** The writes keep every stored message readable. */
  lemma WriteMessagesWellFormed(st: Store, q: TranslateRequest, env: Env)
    requires KeysFresh(st, q, env) && WellFormed(st)
    ensures WellFormed(WriteMessages(st, q, env).store)
  {
    var sid := SessionIdFor(q, env);
    var st1 := ResolveSession(st, q, env);
    SessionWritesKeepWellFormed(st, sid, env.sessionKey, env.sessionNow, SessionMetadata(None, ""), MetadataUpdate(None, None));
    var st2 := WriteSource(st1, q, env);
    if WritesSource(q) {
      AddMessageKeepsWellFormed(st1, sid, env.sourceKey, env.sourceTouch, SourceMessage(q.text, env.now));
    }
    AddMessageKeepsWellFormed(st2, sid, env.translationKey, env.translationTouch, PendingTranslation(q, env.now));
  }

  /** What the environment must satisfy for a valid request: fresh keys and a faithful snapshot order. */
  ghost predicate EnvFits(st: Store, q: TranslateRequest, env: Env) {
    && KeysFresh(st, q, env)
    && var w := WriteMessages(st, q, env);
       IsSnapshotOrder(w.store.sessions[w.sessionId].messages, env.order)
  }

  /** `messages/${parentMessageId}`: an undefined id is spelled out in the path. */
  function ParentKey(q: TranslateRequest): string {
    q.parentMessageId.GetOr("undefined")
  }

  /**
   * The options handed to `translate`: the stored context, or, in concise mode, no context and
   * the content of the parent message as the previous translation; the user's global
   * instruction when settings exist.
   */
  function OptionsFor(st: Store, q: TranslateRequest, env: Env): (o: TranslateOptions)
    requires EnvFits(st, q, env)
    ensures var w := WriteMessages(st, q, env);
      && o.text == q.text && o.isKorean == q.isKorean && o.model == q.model && o.tone == q.tone
      && o.apiKey == env.apiKey && o.concise == q.concise
      && o.userInstruction == (if st.settings.Some? then Some(st.settings.value.globalInstruction) else None)
      && (q.concise == Some(true) ==>
            o.context == [] && o.previousTranslation == Some(GetMessageContent(w.store, w.sessionId, ParentKey(q))))
      && (q.concise != Some(true) ==>
            o.context == StoredContext(w.store, w.sessionId, env.order) && o.previousTranslation == None)
  {
    var w := WriteMessages(st, q, env);
    var settings := GetUserSettings(w.store);
    var context := StoredContext(w.store, w.sessionId, env.order);
    var concise := q.concise == Some(true);
    TranslateOptions(
      env.apiKey, q.text, q.isKorean, q.model, q.tone,
      if concise then [] else context,
      if settings.Some? then Some(settings.value.globalInstruction) else None,
      q.concise,
      if concise then Some(GetMessageContent(w.store, w.sessionId, ParentKey(q))) else None)
  }

  /** The finalising update: the translation and `completed`, or `error` and a message. */
  function FinalUpdate(result: Attempt<string>): (d: MessageUpdate)
    ensures result.Returned? ==> d.content == Some(result.value) && d.status == Some(Completed) && d.errorMessage.None?
    ensures result.Threw? ==> (d.content.None? && d.status == Some(Error)
      && d.errorMessage == Some(MessageOr(result.reason, TRANSLATION_FAILED)))
  {
    match result
    case Returned(text) => MessageUpdate(Some(text), Some(Completed), None)
    case Threw(e) => MessageUpdate(None, Some(Error), Some(MessageOr(e, TRANSLATION_FAILED)))
  }

  /** `updateSessionMetadata(userId, sessionId, { description, username })` with generated metadata. */
  function MetadataUpdateOf(m: SessionMetadata): MetadataUpdate {
    MetadataUpdate(Some(m.description), m.username)
  }

  /** Records generated metadata for a session; a failed generation changes nothing. */
  function RecordMetadata(st: Store, sid: string, md: Attempt<SessionMetadata>): (st': Store)
    ensures md.Threw? ==> st' == st
    ensures md.Returned? ==> st' == UpdateSessionMetadata(st, sid, MetadataUpdateOf(md.value))
    ensures sid in st.sessions ==> sid in st'.sessions && st'.sessions[sid].messages == st.sessions[sid].messages
    ensures OthersUnchanged(st, st', sid)
  {
    match md
    case Returned(m) => UpdateSessionMetadata(st, sid, MetadataUpdateOf(m))
    case Threw(_) => st
  }

  /**
   * The store after the writes, the metadata of a new session (`md`, the outcome of generating
   * it) and the finalising update with the outcome `result` of the model call.
   */
  function Finalised(st: Store, q: TranslateRequest, env: Env, md: Attempt<SessionMetadata>, result: Attempt<string>): (st5: Store)
    requires KeysFresh(st, q, env)
  {
    var w := WriteMessages(st, q, env);
    UpdateMessage(BeforeFinalise(st, q, env, md), w.sessionId, env.translationKey, FinalUpdate(result), env.finalTouch)
  }

  /** The precondition of the handler on its environment, for a body that validates. */
  ghost predicate Ready(st: Store, req: Request, env: Env) {
    ParseTranslateBody(req.body).Some? ==> EnvFits(st, ParseTranslateBody(req.body).value, env)
  }

  /**
   * The handler. A method other than POST gets a 405 before anything else; an address off the
   * allow-list gets a 403; a body the schema rejects gets a 400; none of these touch the store or
   * call a model. A valid request is answered with the session id and the keys of the messages
   * written; the model is called on the options built from the store, and the store is left as
   * the writes, the metadata of a new session and the finalising update leave it.
   */
  function HandleTranslate(st: Store, allowed: seq<string>, req: Request, env: Env): (o: Outcome)
    requires Ready(st, req, env)
    ensures req.httpMethod != "POST" ==> o == Outcome(Response(405, ErrorBody(METHOD_NOT_ALLOWED)), st, None)
    ensures req.httpMethod == "POST" && Decide(allowed, req.email).Denied? ==>
      o == Outcome(Response(403, ErrorBody(DENIED_MESSAGE)), st, None)
    ensures req.httpMethod == "POST" && Decide(allowed, req.email).Next? && ParseTranslateBody(req.body).None? ==>
      o == Outcome(Response(400, ErrorBody(INVALID_REQUEST)), st, None)
    ensures o.response.status == 200 <==>
      req.httpMethod == "POST" && Decide(allowed, req.email).Next? && ParseTranslateBody(req.body).Some?
    ensures o.response.status == 200 ==>
      var q := ParseTranslateBody(req.body).value;
      var md := GenerateSessionMetadata(env.adapters, env.apiKey, q.text, q.model);
      && o.response.body == Ids(SessionIdFor(q, env), if WritesSource(q) then Some(env.sourceKey) else None, env.translationKey)
      && o.sent == Some(OptionsFor(st, q, env))
      && o.store == Finalised(st, q, env, md, Llm.Translate(env.adapters, OptionsFor(st, q, env)))
  {
    if req.httpMethod != "POST" then Outcome(Response(405, ErrorBody(METHOD_NOT_ALLOWED)), st, None)
    else match Decide(allowed, req.email)
      case Denied(status, error) => Outcome(Response(status, ErrorBody(error)), st, None)
      case Next =>
        match ParseTranslateBody(req.body)
        case None => Outcome(Response(400, ErrorBody(INVALID_REQUEST)), st, None)
        case Some(q) =>
          var w := WriteMessages(st, q, env);
          var options := OptionsFor(st, q, env);
          var result := Llm.Translate(env.adapters, options);
          var md := GenerateSessionMetadata(env.adapters, env.apiKey, q.text, q.model);
          Outcome(Response(200, Ids(w.sessionId, w.sourceId, env.translationKey)), Finalised(st, q, env, md, result), Some(options))
  }

  /** The store after the writes and the metadata, before finalisation. */
  function BeforeFinalise(st: Store, q: TranslateRequest, env: Env, md: Attempt<SessionMetadata>): (st4: Store)
    requires KeysFresh(st, q, env)
    ensures var w := WriteMessages(st, q, env);
      && w.sessionId in st4.sessions && st4.sessions[w.sessionId].messages == w.store.sessions[w.sessionId].messages
      && OthersUnchanged(w.store, st4, w.sessionId)
  {
    var w := WriteMessages(st, q, env);
    if IsNewSession(q) then RecordMetadata(w.store, w.sessionId, md) else w.store
  }

  /** The messages of the session at the end: `NewMessages` with the translation finalised. */
  function FinalMessages(st: Store, q: TranslateRequest, env: Env, r: Attempt<string>): map<string, MessageRecord> {
    Insert2(NodeOr(st, SessionIdFor(q, env)).messages, env.sourceKey, MessageFields(SourceMessage(q.text, env.now)), WritesSource(q),
            env.translationKey, MessageFields(PendingTranslation(q, env.now)) + UpdateFields(FinalUpdate(r)))
  }

  /** What `FinalMessages` holds: the earlier messages unchanged, the source message, and the finalised translation. */
  lemma FinalMessagesContents(st: Store, q: TranslateRequest, env: Env, r: Attempt<string>)
    requires KeysFresh(st, q, env)
    ensures var msgs := FinalMessages(st, q, env, r);
      var before := NodeOr(st, SessionIdFor(q, env)).messages;
      && msgs.Keys == before.Keys + {env.translationKey} + (if WritesSource(q) then {env.sourceKey} else {})
      && (forall m :: m in before ==> msgs[m] == before[m])
      && msgs[env.translationKey] == MessageFields(PendingTranslation(q, env.now)) + UpdateFields(FinalUpdate(r))
      && (WritesSource(q) ==> msgs[env.sourceKey] == MessageFields(SourceMessage(q.text, env.now)))
  {
    Insert2Contents(NodeOr(st, SessionIdFor(q, env)).messages, env.sourceKey, MessageFields(SourceMessage(q.text, env.now)), WritesSource(q),
                    env.translationKey, MessageFields(PendingTranslation(q, env.now)) + UpdateFields(FinalUpdate(r)));
  }

  /** The handler leaves exactly `FinalMessages` under the session. */
  lemma FinalMessagesExact(st: Store, q: TranslateRequest, env: Env, md: Attempt<SessionMetadata>, r: Attempt<string>)
    requires KeysFresh(st, q, env)
    ensures var fin := Finalised(st, q, env, md, r);
      var sid := SessionIdFor(q, env);
      && sid in fin.sessions
      && fin.sessions[sid].messages == FinalMessages(st, q, env, r)
  {
    var sid := SessionIdFor(q, env);
    WrittenMessagesExact(st, q, env);
    var pending := MessageFields(PendingTranslation(q, env.now));
    Insert2Replace(NodeOr(st, sid).messages, env.sourceKey, MessageFields(SourceMessage(q.text, env.now)), WritesSource(q),
                   env.translationKey, pending, pending + UpdateFields(FinalUpdate(r)));
    UpdateMessageNode(BeforeFinalise(st, q, env, md), sid, env.translationKey, FinalUpdate(r), env.finalTouch);
  }

  /** A session's properties after the metadata, which is recorded only for a new session and only when generated. */
  function WithMetadata(fw: Record<SessionKey>, isNew: bool, md: Attempt<SessionMetadata>): Record<SessionKey> {
    if isNew && md.Returned? then fw + MetadataFields(MetadataUpdateOf(md.value)) else fw
  }

  /** A session's properties after the metadata and the finalising `updatedAt`. */
  function FinalFields(fw: Record<SessionKey>, isNew: bool, md: Attempt<SessionMetadata>, touchedAt: int): Record<SessionKey> {
    WithMetadata(fw, isNew, md)[KUpdatedAt := JNum(touchedAt)]
  }

  /** For a new session: the creation time is kept, and the description is the generated one or stays empty. */
  lemma FinalFieldsOfNewSession(fw: Record<SessionKey>, md: Attempt<SessionMetadata>, touchedAt: int)
    requires KSessionCreatedAt in fw && KDescription in fw && fw[KDescription] == JStr("")
    ensures var f := FinalFields(fw, true, md, touchedAt);
      && KSessionCreatedAt in f && f[KSessionCreatedAt] == fw[KSessionCreatedAt]
      && KDescription in f
      && (md.Returned? ==> f[KDescription] == JStr(md.value.description))
      && (md.Returned? && md.value.username.Some? ==> KUsername in f && f[KUsername] == JStr(md.value.username.value))
      && (md.Threw? ==> f[KDescription] == JStr(""))
  {
    if md.Returned? {
      var mf := MetadataFields(MetadataUpdateOf(md.value));
      assert KSessionCreatedAt !in mf;
    }
  }

  /** The session's properties at the end: those after the writes, the generated metadata of a new session, and the last `updatedAt`. */
  lemma FinalFieldsExact(st: Store, q: TranslateRequest, env: Env, md: Attempt<SessionMetadata>, r: Attempt<string>)
    requires KeysFresh(st, q, env)
    ensures var w := WriteMessages(st, q, env);
      var fin := Finalised(st, q, env, md, r);
      && w.sessionId in fin.sessions
      && fin.sessions[w.sessionId].fields
           == FinalFields(w.store.sessions[w.sessionId].fields, IsNewSession(q), md, env.finalTouch)
  {
    var w := WriteMessages(st, q, env);
    var fw := w.store.sessions[w.sessionId].fields;
    var st4 := BeforeFinalise(st, q, env, md);
    var f4 := WithMetadata(fw, IsNewSession(q), md);
    if IsNewSession(q) && md.Returned? {
      UpdateSessionMetadataNode(w.store, w.sessionId, MetadataUpdateOf(md.value));
    }
    assert st4.sessions[w.sessionId].fields == f4;
    var fin := UpdateMessage(st4, w.sessionId, env.translationKey, FinalUpdate(r), env.finalTouch);
    assert fin == Finalised(st, q, env, md, r);
    UpdateMessageNode(st4, w.sessionId, env.translationKey, FinalUpdate(r), env.finalTouch);
    assert fin.sessions[w.sessionId].fields == f4[KUpdatedAt := JNum(env.finalTouch)];
  }

  /**
   * A new session is created exactly when the request has no session id, under a fresh key and
   * with the time of its creation; otherwise the given session is used.
   */
  lemma NewSessionIffNoSessionId(st: Store, q: TranslateRequest, env: Env, md: Attempt<SessionMetadata>, r: Attempt<string>)
    requires KeysFresh(st, q, env)
    ensures var fin := Finalised(st, q, env, md, r);
      && (IsNewSession(q) ==> (SessionIdFor(q, env) == env.sessionKey && env.sessionKey !in st.sessions
            && env.sessionKey in fin.sessions
            && KSessionCreatedAt in fin.sessions[env.sessionKey].fields
            && fin.sessions[env.sessionKey].fields[KSessionCreatedAt] == JNum(env.sessionNow)))
      && (!IsNewSession(q) ==> SessionIdFor(q, env) == q.sessionId.value)
  {
    if IsNewSession(q) {
      var w := WriteMessages(st, q, env);
      WrittenNewSession(st, q, env);
      FinalFieldsExact(st, q, env, md, r);
      FinalFieldsOfNewSession(w.store.sessions[w.sessionId].fields, md, env.finalTouch);
    }
  }

  /**
   * A new session's description is the generated one, and its username the generated one when
   * that is defined; when generation fails the description stays empty.
   */
  lemma MetadataRecorded(st: Store, q: TranslateRequest, env: Env, md: Attempt<SessionMetadata>, r: Attempt<string>)
    requires KeysFresh(st, q, env) && IsNewSession(q)
    ensures var f := Finalised(st, q, env, md, r).sessions[env.sessionKey].fields;
      && KDescription in f
      && (md.Returned? ==> f[KDescription] == JStr(md.value.description))
      && (md.Returned? && md.value.username.Some? ==> KUsername in f && f[KUsername] == JStr(md.value.username.value))
      && (md.Threw? ==> f[KDescription] == JStr(""))
  {
    var w := WriteMessages(st, q, env);
    WrittenNewSession(st, q, env);
    FinalFieldsExact(st, q, env, md, r);
    FinalFieldsOfNewSession(w.store.sessions[w.sessionId].fields, md, env.finalTouch);
  }

  /** Handling a request touches no session but its own, and not the settings. */
  lemma FinalisedFrame(st: Store, q: TranslateRequest, env: Env, md: Attempt<SessionMetadata>, r: Attempt<string>)
    requires KeysFresh(st, q, env)
    ensures OthersUnchanged(st, Finalised(st, q, env, md, r), SessionIdFor(q, env))
  {
    var w := WriteMessages(st, q, env);
    var st4 := BeforeFinalise(st, q, env, md);
    WrittenFrame(st, q, env);
    OthersUnchangedTransitive(st, w.store, st4, w.sessionId);
    OthersUnchangedTransitive(st, st4, Finalised(st, q, env, md, r), w.sessionId);
  }

  /**
   * The messages of the session afterwards: the earlier ones, unchanged, plus the translation
   * and, exactly when there is no parent, the source message.
   */
  lemma MessagesWritten(st: Store, q: TranslateRequest, env: Env, md: Attempt<SessionMetadata>, r: Attempt<string>)
    requires KeysFresh(st, q, env)
    ensures var fin := Finalised(st, q, env, md, r);
      var sid := SessionIdFor(q, env);
      && sid in fin.sessions
      && var msgs := fin.sessions[sid].messages;
      && msgs.Keys == NodeOr(st, sid).messages.Keys + {env.translationKey} + (if WritesSource(q) then {env.sourceKey} else {})
      && (forall m :: m in NodeOr(st, sid).messages ==> msgs[m] == NodeOr(st, sid).messages[m])
  {
    FinalMessagesExact(st, q, env, md, r);
    FinalMessagesContents(st, q, env, r);
  }

  /** The translation message keeps its creation time, `now + 1`, through finalisation. */
  lemma TranslationCreatedAt(st: Store, q: TranslateRequest, env: Env, md: Attempt<SessionMetadata>, r: Attempt<string>)
    requires KeysFresh(st, q, env)
    ensures var fin := Finalised(st, q, env, md, r);
      var sid := SessionIdFor(q, env);
      && sid in fin.sessions && env.translationKey in fin.sessions[sid].messages
      && CreatedAtOf(fin.sessions[sid].messages[env.translationKey]) == Some(env.now + 1)
  {
    var msgs := Finalised(st, q, env, md, r).sessions[SessionIdFor(q, env)].messages;
    var fields := MessageFields(PendingTranslation(q, env.now)) + UpdateFields(FinalUpdate(r));
    FinalMessagesExact(st, q, env, md, r);
    FinalMessagesContents(st, q, env, r);
    assert msgs[env.translationKey] == fields;
    UpdatedCreatedAt(PendingTranslation(q, env.now), FinalUpdate(r));
    assert PendingTranslation(q, env.now).createdAt == env.now + 1;
    assert CreatedAtOf(fields) == Some(env.now + 1);
  }

  /** Without a parent, the source message reads back as completed, holding the text and created at `now`. */
  lemma SourceWritten(st: Store, q: TranslateRequest, env: Env, md: Attempt<SessionMetadata>, r: Attempt<string>)
    requires KeysFresh(st, q, env) && WritesSource(q)
    ensures var fin := Finalised(st, q, env, md, r);
      var sid := SessionIdFor(q, env);
      && sid in fin.sessions && env.sourceKey in fin.sessions[sid].messages
      && DecodeMessage(fin.sessions[sid].messages[env.sourceKey]) == Some(SourceMessage(q.text, env.now))
  {
    FinalMessagesExact(st, q, env, md, r);
    FinalMessagesContents(st, q, env, r);
    MessageRoundTrip(SourceMessage(q.text, env.now));
  }

  /** The source message is created strictly before its translation, so a snapshot ordered by creation time lists it first. */
  lemma SourceBeforeTranslation(st: Store, q: TranslateRequest, env: Env, md: Attempt<SessionMetadata>, r: Attempt<string>)
    requires KeysFresh(st, q, env) && WritesSource(q)
    ensures var msgs := Finalised(st, q, env, md, r).sessions[SessionIdFor(q, env)].messages;
      && env.sourceKey in msgs && env.translationKey in msgs
      && CreatedAtOf(msgs[env.sourceKey]).Some? && CreatedAtOf(msgs[env.translationKey]).Some?
      && CreatedAtOf(msgs[env.sourceKey]).value < CreatedAtOf(msgs[env.translationKey]).value
  {
    SourceWritten(st, q, env, md, r);
    TranslationCreatedAt(st, q, env, md, r);
  }

  /**
   * The translation message as read back at the end: the pending message (empty, with the
   * request's model, tone and parent) with the outcome of the model call applied; on success the
   * translation and `completed` and no error message; on failure `error` with the thrown message
   * or "Translation failed", and the content still empty.
   */
  lemma TranslationFinalised(st: Store, q: TranslateRequest, env: Env, md: Attempt<SessionMetadata>, r: Attempt<string>)
    requires KeysFresh(st, q, env)
    ensures var fin := Finalised(st, q, env, md, r);
      var sid := SessionIdFor(q, env);
      var pending := PendingTranslation(q, env.now);
      && sid in fin.sessions && env.translationKey in fin.sessions[sid].messages
      && var m := DecodeMessage(fin.sessions[sid].messages[env.translationKey]);
      && (r.Returned? ==> m == Some(pending.(content := r.value, status := Some(Completed))))
      && (r.Threw? ==> m == Some(pending.(status := Some(Error), errorMessage := Some(MessageOr(r.reason, TRANSLATION_FAILED)))))
  {
    var pending := PendingTranslation(q, env.now);
    FinalMessagesExact(st, q, env, md, r);
    FinalMessagesContents(st, q, env, r);
    MessageRoundTrip(pending);
    MergeDecoded(MessageFields(pending), FinalUpdate(r));
  }

  /**
   * With no parent and non-empty text, when the context is read after the writes and the new
   * messages come last in the snapshot, the context ends with the pair of the text being
   * translated and its still-empty translation.
   */
  lemma ContextEndsWithPendingPair(st: Store, q: TranslateRequest, env: Env)
    requires EnvFits(st, q, env)
    requires WritesSource(q) && q.text != ""
    requires |env.order| >= 2 && env.order[|env.order| - 2] == env.sourceKey && env.order[|env.order| - 1] == env.translationKey
    ensures var w := WriteMessages(st, q, env);
      var ctx := StoredContext(w.store, w.sessionId, env.order);
      |ctx| > 0 && ctx[|ctx| - 1] == TranslationPair(q.text, "")
  {
    var w := WriteMessages(st, q, env);
    var msgs := WrittenSnapshot(st, q, env);
    ContextEndsWithWrittenPair(msgs, env.order, env.sourceKey, SourceMessage(q.text, env.now),
                               env.translationKey, PendingTranslation(q, env.now));
    assert StoredContext(w.store, w.sessionId, env.order) == ContextPairs(SnapshotMessages(msgs, env.order));
  }

  /** The written session's messages, in a snapshot order, with the two new records in them. */
  lemma WrittenSnapshot(st: Store, q: TranslateRequest, env: Env) returns (msgs: map<string, MessageRecord>)
    requires EnvFits(st, q, env) && WritesSource(q)
    ensures var w := WriteMessages(st, q, env); msgs == w.store.sessions[w.sessionId].messages
    ensures IsSnapshotOrder(msgs, env.order)
    ensures env.sourceKey in msgs && msgs[env.sourceKey] == MessageFields(SourceMessage(q.text, env.now))
    ensures env.translationKey in msgs && msgs[env.translationKey] == MessageFields(PendingTranslation(q, env.now))
  {
    var w := WriteMessages(st, q, env);
    msgs := w.store.sessions[w.sessionId].messages;
    WrittenRecords(st, q, env);
  }

  /** The metadata write and the finalising write touch different fields, so their order does not matter. */
  lemma MetadataAndFinalisationCommute(st: Store, sid: string, id: string, md: Attempt<SessionMetadata>,
                                       d: MessageUpdate, touchedAt: int)
    requires sid in st.sessions && id in st.sessions[sid].messages
    ensures var a := RecordMetadata(st, sid, md);
      sid in a.sessions && id in a.sessions[sid].messages
      && UpdateMessage(a, sid, id, d, touchedAt) == RecordMetadata(UpdateMessage(st, sid, id, d, touchedAt), sid, md)
  {
    if md.Returned? {
      var u := MetadataUpdateOf(md.value);
      var n := st.sessions[sid];
      var stamp := JNum(touchedAt);
      var a := UpdateSessionMetadata(st, sid, u);
      var b := UpdateMessage(st, sid, id, d, touchedAt);
      UpdateSessionMetadataNode(st, sid, u);
      UpdateMessageNode(a, sid, id, d, touchedAt);
      UpdateMessageNode(st, sid, id, d, touchedAt);
      UpdateSessionMetadataNode(b, sid, u);
      assert KUpdatedAt !in MetadataFields(u);
      assert (n.fields + MetadataFields(u))[KUpdatedAt := stamp] == n.fields[KUpdatedAt := stamp] + MetadataFields(u);
    }
  }
}
