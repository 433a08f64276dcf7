/**
 * The realtime-database gateway, over one user's subtree: the session nodes with their message
 * children, and the user's settings.
 *
 * A session node holds its own fields and a map from message key to the message's fields; both
 * are JSON objects as the database stores them, so "only the defined fields are written" and
 * "every other field is unchanged" are statements about map keys. Fresh push keys and
 * `Date.now()` readings are parameters. Writes follow the database's rules: `set` replaces a node,
 * `update` merges the given keys, `update({})` changes nothing, and writing below a missing node
 * creates it.
 */
module SessionStore {
  import opened Wrappers
  import opened Json
  import opened Constants
  import opened Schemas
  import opened TranslatePrompt

  datatype MessageType = Source | Translation
  datatype MessageStatus = Pending | Completed | Error

  function TypeName(t: MessageType): string {
    match t
    case Source => "source"
    case Translation => "translation"
  }

  function StatusName(s: MessageStatus): string {
    match s
    case Pending => "pending"
    case Completed => "completed"
    case Error => "error"
  }

  /** A stored `type` value. */
  function ParseType(j: Json): (r: Option<MessageType>)
    ensures r.Some? ==> j == JStr(TypeName(r.value))
    ensures r.None? ==> forall t :: j != JStr(TypeName(t))
  {
    if j == JStr("source") then Some(Source)
    else if j == JStr("translation") then Some(Translation)
    else None
  }

  /** A stored `status` value. */
  function ParseStatus(j: Json): (r: Option<MessageStatus>)
    ensures r.Some? ==> j == JStr(StatusName(r.value))
    ensures r.None? ==> forall s :: j != JStr(StatusName(s))
  {
    if j == JStr("pending") then Some(Pending)
    else if j == JStr("completed") then Some(Completed)
    else if j == JStr("error") then Some(Error)
    else None
  }

  /** A message without its key (`Omit<Message, "id">`); `None` is an undefined property. */
  datatype NewMessage = NewMessage(
    kind: MessageType,
    content: string,
    status: Option<MessageStatus>,
    model: Option<Model>,
    tone: Option<ToneSettings>,
    parentId: Option<string>,
    createdAt: int,
    errorMessage: Option<string>)

  /** A message with its key. */
  datatype Message = Message(id: string, data: NewMessage)

  /** The property names a message record can hold. */
  datatype MessageKey = KType | KContent | KCreatedAt | KModel | KTone | KParentId | KStatus | KErrorMessage

  /** The property names a session record can hold. */
  datatype SessionKey = KUsername | KDescription | KSessionCreatedAt | KUpdatedAt

  /** A stored record: a JSON object whose property names are drawn from `K`. */
  type Record<K> = map<K, Json>

  type MessageRecord = Record<MessageKey>

  datatype SessionNode = SessionNode(fields: Record<SessionKey>, messages: map<string, MessageRecord>)

  datatype UserSettings = UserSettings(globalInstruction: string, createdAt: int, updatedAt: int)

  datatype Store = Store(sessions: map<string, SessionNode>, settings: Option<UserSettings>)

  datatype SessionMetadata = SessionMetadata(username: Option<string>, description: string)

  /** `Partial<SessionMetadata>`. */
  datatype MetadataUpdate = MetadataUpdate(description: Option<string>, username: Option<string>)

  datatype Session = Session(id: string, username: Option<string>, description: string, createdAt: int, updatedAt: int)

  /** `UpdateMessageData`: the only fields an update may carry. */
  datatype MessageUpdate = MessageUpdate(content: Option<string>, status: Option<MessageStatus>, errorMessage: Option<string>)

  // ---------------------------------------------------------------------------------------------
  // Encoding and decoding of message records

  /** The key set `{k}` when the property is defined, and nothing otherwise. */
  function KeyIf<K, T>(k: K, v: Option<T>): set<K> {
    if v.Some? then {k} else {}
  }

  /** Writes `k` when the value is defined; an `undefined` property is dropped when serialised. */
  function Put<K>(f: Record<K>, k: K, v: Option<Json>): (g: Record<K>)
    ensures g.Keys == f.Keys + KeyIf(k, v)
    ensures v.Some? ==> g[k] == v.value
    ensures forall k' :: k' != k && k' in f ==> g[k'] == f[k']
  {
    match v
    case None => f
    case Some(j) => f[k := j]
  }

  function ModelJson(m: Model): Json { JStr(ModelName(m)) }
  function StatusJson(s: MessageStatus): Json { JStr(StatusName(s)) }

  /** Every property name a message record can hold. */
  const MESSAGE_KEYS: set<MessageKey> := {KType, KContent, KCreatedAt, KModel, KTone, KParentId, KStatus, KErrorMessage}

  /** The value `addMessage` writes under `k`, or `None` when that property is undefined. */
  function FieldOf(m: NewMessage, k: MessageKey): Option<Json> {
    match k
    case KType => Some(JStr(TypeName(m.kind)))
    case KContent => Some(JStr(m.content))
    case KCreatedAt => Some(JNum(m.createdAt))
    case KModel => m.model.Map(ModelJson)
    case KTone => m.tone.Map(ToneJson)
    case KParentId => m.parentId.Map(StrJson)
    case KStatus => m.status.Map(StatusJson)
    case KErrorMessage => m.errorMessage.Map(StrJson)
  }

  /** The object `addMessage` writes: the three required fields and each optional field that is defined. */
  function MessageFields(m: NewMessage): (f: MessageRecord)
  {
    map k | k in MESSAGE_KEYS && FieldOf(m, k).Some? :: FieldOf(m, k).value
  }

  /** `addMessage` writes the three required properties and exactly the optional ones that are defined. */
  lemma MessageFieldsWritten(m: NewMessage)
    ensures var f := MessageFields(m);
      && KType in f && f[KType] == JStr(TypeName(m.kind))
      && KContent in f && f[KContent] == JStr(m.content)
      && KCreatedAt in f && f[KCreatedAt] == JNum(m.createdAt)
      && (KModel in f <==> m.model.Some?) && (m.model.Some? ==> f[KModel] == ModelJson(m.model.value))
      && (KTone in f <==> m.tone.Some?) && (m.tone.Some? ==> f[KTone] == ToneJson(m.tone.value))
      && (KParentId in f <==> m.parentId.Some?) && (m.parentId.Some? ==> f[KParentId] == JStr(m.parentId.value))
      && (KStatus in f <==> m.status.Some?) && (m.status.Some? ==> f[KStatus] == StatusJson(m.status.value))
      && (KErrorMessage in f <==> m.errorMessage.Some?)
      && (m.errorMessage.Some? ==> f[KErrorMessage] == JStr(m.errorMessage.value))
  {
  }

  function ParseString(j: Json): (r: Option<string>)
    ensures r.Some? <==> j.JStr?
    ensures r.Some? ==> j == JStr(r.value)
  {
    if j.JStr? then Some(j.s) else None
  }

  function CreatedAtOf(f: MessageRecord): Option<int> {
    if KCreatedAt in f && f[KCreatedAt].JNum? then Some(f[KCreatedAt].n) else None
  }

  /** Reads a stored message back, as `snapshot.val()` typed as a `Message`; `None` if it is malformed. */
  function DecodeMessage(f: MessageRecord): (r: Option<NewMessage>)
    ensures r.Some? ==> KType in f && f[KType] == JStr(TypeName(r.value.kind))
    ensures r.Some? ==> KContent in f && f[KContent] == JStr(r.value.content)
    ensures r.Some? ==> CreatedAtOf(f) == Some(r.value.createdAt)
    ensures r.Some? ==> (KParentId in f <==> r.value.parentId.Some?)
  {
    var kind := if KType in f then ParseType(f[KType]) else None;
    var content := RequiredString(f, KContent);
    var createdAt := CreatedAtOf(f);
    var model := OptionalField(f, KModel, ParseModelJson);
    var tone := OptionalField(f, KTone, ParseTone);
    var parentId := OptionalField(f, KParentId, ParseString);
    var status := OptionalField(f, KStatus, ParseStatus);
    var errorMessage := OptionalField(f, KErrorMessage, ParseString);
    if kind.Some? && content.Some? && createdAt.Some? && model.Some? && tone.Some?
       && parentId.Some? && status.Some? && errorMessage.Some? then
      Some(NewMessage(kind.value, content.value, status.value, model.value, tone.value,
                      parentId.value, createdAt.value, errorMessage.value))
    else None
  }

  /** The required properties of a written record read back as the message's. */
  lemma RequiredFieldsRead(m: NewMessage)
    ensures var f := MessageFields(m);
      && KType in f && ParseType(f[KType]) == Some(m.kind)
      && RequiredString(f, KContent) == Some(m.content)
      && CreatedAtOf(f) == Some(m.createdAt)
  {
    var f := MessageFields(m);
    assert f[KType] == JStr(TypeName(m.kind));
  }

  /** The model and tone of a written record read back as the message's. */
  lemma ModelAndToneRead(m: NewMessage)
    ensures OptionalField(MessageFields(m), KModel, ParseModelJson) == Some(m.model)
    ensures OptionalField(MessageFields(m), KTone, ParseTone) == Some(m.tone)
  {
    var f := MessageFields(m);
    if m.model.Some? {
      ParseModelName(m.model.value);
      assert f[KModel] == ModelJson(m.model.value);
    }
    if m.tone.Some? {
      ToneRoundTrip(m.tone.value, "", JNull);
      assert f[KTone] == ToneJson(m.tone.value);
    }
  }

  /** The parent key, status and error message of a written record read back as the message's. */
  lemma OptionalStringsRead(m: NewMessage)
    ensures OptionalField(MessageFields(m), KParentId, ParseString) == Some(m.parentId)
    ensures OptionalField(MessageFields(m), KStatus, ParseStatus) == Some(m.status)
    ensures OptionalField(MessageFields(m), KErrorMessage, ParseString) == Some(m.errorMessage)
  {
  }

  /** Reading back what `addMessage` wrote gives the message that was written. */
  lemma MessageRoundTrip(m: NewMessage)
    ensures DecodeMessage(MessageFields(m)) == Some(m)
  {
    RequiredFieldsRead(m);
    ModelAndToneRead(m);
    OptionalStringsRead(m);
  }

  /** Every message of every session reads back as a message. */
  ghost predicate WellFormed(st: Store) {
    forall sid, id :: sid in st.sessions && id in st.sessions[sid].messages ==>
      DecodeMessage(st.sessions[sid].messages[id]).Some?
  }

  // ---------------------------------------------------------------------------------------------
  // Frames

  /** Sessions other than `sid`, and the settings, are as in `st`. */
  predicate OthersUnchanged(st: Store, st': Store, sid: string) {
    st'.settings == st.settings && st'.sessions - {sid} == st.sessions - {sid}
  }

  /** Properties of a record other than those in `keys` are as before. */
  predicate FieldsUnchangedExcept<K>(f: Record<K>, f': Record<K>, keys: set<K>) {
    f' - keys == f - keys
  }

  /** Leaving the other sessions alone is transitive. */
  lemma OthersUnchangedTransitive(a: Store, b: Store, c: Store, sid: string)
    requires OthersUnchanged(a, b, sid) && OthersUnchanged(b, c, sid)
    ensures OthersUnchanged(a, c, sid)
  {
  }

  /** Messages other than `id` are as before. */
  predicate MessagesUnchangedExcept(n: SessionNode, n': SessionNode, id: string) {
    n'.messages - {id} == n.messages - {id}
  }

  /** The store with the node of `sid` replaced by `n`. */
  function PutNode(st: Store, sid: string, n: SessionNode): (st': Store)
    ensures sid in st'.sessions && st'.sessions[sid] == n
    ensures st'.sessions.Keys == st.sessions.Keys + {sid}
    ensures OthersUnchanged(st, st', sid)
  {
    Store(st.sessions[sid := n], st.settings)
  }

  /** The session properties with `updatedAt` set to `now`. */
  function Touch(f: Record<SessionKey>, now: int): (f': Record<SessionKey>)
    ensures KUpdatedAt in f' && f'[KUpdatedAt] == JNum(now)
    ensures FieldsUnchangedExcept(f, f', {KUpdatedAt})
  {
    f[KUpdatedAt := JNum(now)]
  }

  /** The node of `sid`, or an empty one: what a write below a missing node starts from. */
  function NodeOr(st: Store, sid: string): SessionNode {
    if sid in st.sessions then st.sessions[sid] else SessionNode(map[], map[])
  }

  // ---------------------------------------------------------------------------------------------
  // Writes

  /**
   * `createSession(userId, metadata)` with the fresh push key `key` and the clock reading `now`.
   * The node stores `username` only when it is truthy, although the returned session carries it as
   * given.
   */
  function CreateSession(st: Store, key: string, now: int, md: SessionMetadata): (r: (Store, Session))
    requires key !in st.sessions
    ensures r.1 == Session(key, md.username, md.description, now, now)
    ensures key in r.0.sessions && r.0.sessions[key].messages == map[]
    ensures var f := r.0.sessions[key].fields;
      && f.Keys == {KDescription, KSessionCreatedAt, KUpdatedAt} + (if Truthy(md.username) then {KUsername} else {})
      && f[KDescription] == JStr(md.description)
      && f[KSessionCreatedAt] == f[KUpdatedAt] == JNum(now)
      && (Truthy(md.username) ==> f[KUsername] == JStr(md.username.value))
    ensures r.0.sessions.Keys == st.sessions.Keys + {key}
    ensures OthersUnchanged(st, r.0, key)
  {
    var f := map[KDescription := JStr(md.description), KSessionCreatedAt := JNum(now), KUpdatedAt := JNum(now)];
    var f := if Truthy(md.username) then f[KUsername := JStr(md.username.value)] else f;
    (Store(st.sessions[key := SessionNode(f, map[])], st.settings), Session(key, md.username, md.description, now, now))
  }

  /** `updateSessionTimestamp`: sets `updatedAt`, creating a bare node if the session is missing. */
  function UpdateSessionTimestamp(st: Store, sid: string, now: int): (st': Store)
    ensures sid in st'.sessions && KUpdatedAt in st'.sessions[sid].fields
    ensures st'.sessions[sid].fields[KUpdatedAt] == JNum(now)
    ensures FieldsUnchangedExcept(NodeOr(st, sid).fields, st'.sessions[sid].fields, {KUpdatedAt})
    ensures st'.sessions[sid].messages == NodeOr(st, sid).messages
    ensures OthersUnchanged(st, st', sid)
  {
    var n := NodeOr(st, sid);
    PutNode(st, sid, n.(fields := Touch(n.fields, now)))
  }

  /** The properties `updateSessionMetadata` writes: the defined ones. */
  function MetadataFields(u: MetadataUpdate): (f: Record<SessionKey>)
    ensures f.Keys == KeyIf(KDescription, u.description) + KeyIf(KUsername, u.username)
    ensures u.description.Some? ==> f[KDescription] == JStr(u.description.value)
    ensures u.username.Some? ==> f[KUsername] == JStr(u.username.value)
  {
    var f := Put(map[], KDescription, u.description.Map(StrJson));
    Put(f, KUsername, u.username.Map(StrJson))
  }

  /**
   * `updateSessionMetadata`: writes exactly the defined fields among `description` and
   * `username`. With neither defined it is `update({})`, which changes nothing.
   */
  function UpdateSessionMetadata(st: Store, sid: string, u: MetadataUpdate): (st': Store)
    ensures u.description.None? && u.username.None? ==> st' == st
    ensures (u.description.Some? || u.username.Some?) ==>
      && sid in st'.sessions
      && FieldsUnchangedExcept(NodeOr(st, sid).fields, st'.sessions[sid].fields, {KDescription, KUsername})
      && (u.description.Some? ==> (KDescription in st'.sessions[sid].fields
            && st'.sessions[sid].fields[KDescription] == JStr(u.description.value)))
      && (u.username.Some? ==> (KUsername in st'.sessions[sid].fields
            && st'.sessions[sid].fields[KUsername] == JStr(u.username.value)))
      && (u.description.None? ==> FieldsUnchangedExcept(NodeOr(st, sid).fields, st'.sessions[sid].fields, {KUsername}))
      && (u.username.None? ==> FieldsUnchangedExcept(NodeOr(st, sid).fields, st'.sessions[sid].fields, {KDescription}))
      && st'.sessions[sid].messages == NodeOr(st, sid).messages
    ensures OthersUnchanged(st, st', sid)
  {
    var upd := MetadataFields(u);
    if u.description.None? && u.username.None? then st
    else
      var n := NodeOr(st, sid);
      Store(st.sessions[sid := n.(fields := n.fields + upd)], st.settings)
  }

  /**
   * `addMessage(userId, sessionId, message)` with the fresh push key `key`; `touchedAt` is the clock
   * reading of the `updatedAt` write that follows.
   */
  function AddMessage(st: Store, sid: string, key: string, touchedAt: int, m: NewMessage): (r: (Store, Message))
    requires sid in st.sessions ==> key !in st.sessions[sid].messages
    ensures r.1 == Message(key, m)
    ensures sid in r.0.sessions && key in r.0.sessions[sid].messages
    ensures r.0.sessions[sid].messages[key] == MessageFields(m)
    ensures r.0.sessions[sid].messages.Keys == NodeOr(st, sid).messages.Keys + {key}
    ensures MessagesUnchangedExcept(NodeOr(st, sid), r.0.sessions[sid], key)
    ensures KUpdatedAt in r.0.sessions[sid].fields && r.0.sessions[sid].fields[KUpdatedAt] == JNum(touchedAt)
    ensures FieldsUnchangedExcept(NodeOr(st, sid).fields, r.0.sessions[sid].fields, {KUpdatedAt})
    ensures OthersUnchanged(st, r.0, sid)
  {
    var n := NodeOr(st, sid);
    var written := Store(st.sessions[sid := n.(messages := n.messages[key := MessageFields(m)])], st.settings);
    (UpdateSessionTimestamp(written, sid, touchedAt), Message(key, m))
  }

  /** The properties `updateMessage` writes: the defined ones among content, status and error message. */
  function UpdateFields(d: MessageUpdate): (f: MessageRecord)
    ensures f.Keys == KeyIf(KContent, d.content) + KeyIf(KStatus, d.status) + KeyIf(KErrorMessage, d.errorMessage)
    ensures d.content.Some? ==> f[KContent] == JStr(d.content.value)
    ensures d.status.Some? ==> f[KStatus] == JStr(StatusName(d.status.value))
    ensures d.errorMessage.Some? ==> f[KErrorMessage] == JStr(d.errorMessage.value)
  {
    var f := Put(map[], KContent, d.content.Map(StrJson));
    var f := Put(f, KStatus, d.status.Map(StatusJson));
    Put(f, KErrorMessage, d.errorMessage.Map(StrJson))
  }

  /**
   * `updateMessage(userId, sessionId, messageId, data)`: merges the defined fields into the
   * message, then sets the session's `updatedAt` to `touchedAt`.
   */
  function UpdateMessage(st: Store, sid: string, id: string, d: MessageUpdate, touchedAt: int): (st': Store)
    requires sid in st.sessions && id in st.sessions[sid].messages
    ensures sid in st'.sessions && id in st'.sessions[sid].messages
    ensures st'.sessions[sid].messages.Keys == st.sessions[sid].messages.Keys
    ensures MessagesUnchangedExcept(st.sessions[sid], st'.sessions[sid], id)
    ensures KUpdatedAt in st'.sessions[sid].fields && st'.sessions[sid].fields[KUpdatedAt] == JNum(touchedAt)
    ensures FieldsUnchangedExcept(st.sessions[sid].fields, st'.sessions[sid].fields, {KUpdatedAt})
    ensures OthersUnchanged(st, st', sid)
  {
    var n := st.sessions[sid];
    var merged := n.messages[id] + UpdateFields(d);
    PutNode(st, sid, SessionNode(Touch(n.fields, touchedAt), n.messages[id := merged]))
  }

  /** The node `addMessage` leaves behind, as one map update per property it writes. */
  lemma AddMessageNode(st: Store, sid: string, key: string, touchedAt: int, m: NewMessage)
    requires sid in st.sessions ==> key !in st.sessions[sid].messages
    ensures var n := NodeOr(st, sid);
      AddMessage(st, sid, key, touchedAt, m).0
        == Store(st.sessions[sid := SessionNode(n.fields[KUpdatedAt := JNum(touchedAt)], n.messages[key := MessageFields(m)])], st.settings)
  {
  }

  /** The node `updateMessage` leaves behind, as one map update per property it writes. */
  lemma UpdateMessageNode(st: Store, sid: string, id: string, d: MessageUpdate, touchedAt: int)
    requires sid in st.sessions && id in st.sessions[sid].messages
    ensures var n := st.sessions[sid];
      UpdateMessage(st, sid, id, d, touchedAt)
        == Store(st.sessions[sid := SessionNode(n.fields[KUpdatedAt := JNum(touchedAt)], n.messages[id := n.messages[id] + UpdateFields(d)])], st.settings)
  {
  }

  /** The node a non-empty `updateSessionMetadata` leaves behind. */
  lemma UpdateSessionMetadataNode(st: Store, sid: string, u: MetadataUpdate)
    requires u.description.Some? || u.username.Some?
    ensures var n := NodeOr(st, sid);
      UpdateSessionMetadata(st, sid, u) == Store(st.sessions[sid := SessionNode(n.fields + MetadataFields(u), n.messages)], st.settings)
  {
  }

  /** The updated record: the defined properties of the update replace or join the stored ones, the rest stay. */
  lemma UpdateMessageMerges(st: Store, sid: string, id: string, d: MessageUpdate, touchedAt: int)
    requires sid in st.sessions && id in st.sessions[sid].messages
    ensures var f := st.sessions[sid].messages[id];
      var f' := UpdateMessage(st, sid, id, d, touchedAt).sessions[sid].messages[id];
      && f'.Keys == f.Keys + UpdateFields(d).Keys
      && (forall k :: k in UpdateFields(d) ==> f'[k] == UpdateFields(d)[k])
      && (forall k :: k !in UpdateFields(d) && k in f ==> f'[k] == f[k])
  {
    UpdateMessageNode(st, sid, id, d, touchedAt);
  }

  /** An update never writes the creation time, so a record keeps it. */
  lemma UpdateKeepsCreatedAt(f: MessageRecord, d: MessageUpdate)
    ensures CreatedAtOf(f + UpdateFields(d)) == CreatedAtOf(f)
  {
    assert KCreatedAt !in UpdateFields(d);
  }

  /** The creation time of a written record is the message's. */
  lemma CreatedAtOfFields(m: NewMessage)
    ensures CreatedAtOf(MessageFields(m)) == Some(m.createdAt)
  {
  }

  /** A written message keeps its creation time through any update. */
  lemma UpdatedCreatedAt(m: NewMessage, d: MessageUpdate)
    ensures CreatedAtOf(MessageFields(m) + UpdateFields(d)) == Some(m.createdAt)
  {
    UpdateKeepsCreatedAt(MessageFields(m), d);
    CreatedAtOfFields(m);
  }

  /** Applying the same update twice is the same as applying it once. */
  lemma UpdateMessageIdempotent(st: Store, sid: string, id: string, d: MessageUpdate, touchedAt: int)
    requires sid in st.sessions && id in st.sessions[sid].messages
    ensures UpdateMessage(UpdateMessage(st, sid, id, d, touchedAt), sid, id, d, touchedAt)
         == UpdateMessage(st, sid, id, d, touchedAt)
  {
    var once := UpdateMessage(st, sid, id, d, touchedAt);
    var twice := UpdateMessage(once, sid, id, d, touchedAt);
    assert twice.sessions[sid].messages[id] == once.sessions[sid].messages[id];
    assert twice.sessions[sid].messages == once.sessions[sid].messages;
    assert twice.sessions[sid].fields == once.sessions[sid].fields;
    assert twice.sessions == once.sessions;
  }

  /** The typed message after an update: exactly the defined fields replaced. */
  function ApplyUpdate(m: NewMessage, d: MessageUpdate): NewMessage {
    m.(content := d.content.GetOr(m.content),
       status := if d.status.Some? then d.status else m.status,
       errorMessage := if d.errorMessage.Some? then d.errorMessage else m.errorMessage)
  }

  /** An update leaves the properties it cannot carry, and how they read, as they were. */
  lemma MergeKeepsFixedReads(f: MessageRecord, d: MessageUpdate)
    ensures var g := f + UpdateFields(d);
      && (KType in g <==> KType in f) && (KType in f ==> g[KType] == f[KType])
      && CreatedAtOf(g) == CreatedAtOf(f)
      && OptionalField(g, KModel, ParseModelJson) == OptionalField(f, KModel, ParseModelJson)
      && OptionalField(g, KTone, ParseTone) == OptionalField(f, KTone, ParseTone)
      && OptionalField(g, KParentId, ParseString) == OptionalField(f, KParentId, ParseString)
  {
    var u := UpdateFields(d);
    assert KType !in u && KCreatedAt !in u && KModel !in u && KTone !in u && KParentId !in u;
  }

  /** The properties an update carries read back as the update's values, the others as before. */
  lemma MergeUpdatedReads(f: MessageRecord, d: MessageUpdate)
    requires RequiredString(f, KContent).Some?
    requires OptionalField(f, KStatus, ParseStatus).Some? && OptionalField(f, KErrorMessage, ParseString).Some?
    ensures var g := f + UpdateFields(d);
      && RequiredString(g, KContent) == Some(d.content.GetOr(RequiredString(f, KContent).value))
      && OptionalField(g, KStatus, ParseStatus)
           == Some(if d.status.Some? then d.status else OptionalField(f, KStatus, ParseStatus).value)
      && OptionalField(g, KErrorMessage, ParseString)
           == Some(if d.errorMessage.Some? then d.errorMessage else OptionalField(f, KErrorMessage, ParseString).value)
  {
    var g := f + UpdateFields(d);
    if d.status.None? {
      assert OptionalField(g, KStatus, ParseStatus) == OptionalField(f, KStatus, ParseStatus);
    }
    if d.errorMessage.None? {
      assert OptionalField(g, KErrorMessage, ParseString) == OptionalField(f, KErrorMessage, ParseString);
    }
  }

  /** Merging an update into a readable record reads back as the typed update. */
  lemma MergeDecoded(f: MessageRecord, d: MessageUpdate)
    requires DecodeMessage(f).Some?
    ensures DecodeMessage(f + UpdateFields(d)) == Some(ApplyUpdate(DecodeMessage(f).value, d))
  {
    MergeKeepsFixedReads(f, d);
    MergeUpdatedReads(f, d);
  }

  /** The message as read back after `updateMessage`. */
  lemma UpdateMessageDecoded(st: Store, sid: string, id: string, d: MessageUpdate, touchedAt: int)
    requires sid in st.sessions && id in st.sessions[sid].messages
    requires DecodeMessage(st.sessions[sid].messages[id]).Some?
    ensures var st' := UpdateMessage(st, sid, id, d, touchedAt);
      DecodeMessage(st'.sessions[sid].messages[id])
        == Some(ApplyUpdate(DecodeMessage(st.sessions[sid].messages[id]).value, d))
  {
    var f := st.sessions[sid].messages[id];
    assert UpdateMessage(st, sid, id, d, touchedAt).sessions[sid].messages[id] == f + UpdateFields(d);
    MergeDecoded(f, d);
  }

  /** Session-field writes keep every stored message readable. */
  lemma SessionWritesKeepWellFormed(st: Store, sid: string, key: string, now: int, md: SessionMetadata, u: MetadataUpdate)
    requires WellFormed(st)
    ensures key !in st.sessions ==> WellFormed(CreateSession(st, key, now, md).0)
    ensures WellFormed(UpdateSessionTimestamp(st, sid, now))
    ensures WellFormed(UpdateSessionMetadata(st, sid, u))
  {
  }

  /** `addMessage` keeps every stored message readable. */
  lemma AddMessageKeepsWellFormed(st: Store, sid: string, key: string, now: int, m: NewMessage)
    requires WellFormed(st)
    requires sid in st.sessions ==> key !in st.sessions[sid].messages
    ensures WellFormed(AddMessage(st, sid, key, now, m).0)
  {
    var st' := AddMessage(st, sid, key, now, m).0;
    MessageRoundTrip(m);
    forall s, i | s in st'.sessions && i in st'.sessions[s].messages
      ensures DecodeMessage(st'.sessions[s].messages[i]).Some?
    {
      if s != sid {
        assert st'.sessions[s] == st.sessions[s];
      } else if i != key {
        assert st'.sessions[s].messages[i] == st.sessions[s].messages[i];
      }
    }
  }

  /** `updateMessage` keeps every stored message readable. */
  lemma UpdateMessageKeepsWellFormed(st: Store, sid: string, id: string, d: MessageUpdate, now: int)
    requires WellFormed(st)
    requires sid in st.sessions && id in st.sessions[sid].messages
    ensures WellFormed(UpdateMessage(st, sid, id, d, now))
  {
    var st' := UpdateMessage(st, sid, id, d, now);
    UpdateMessageNode(st, sid, id, d, now);
    MergeDecoded(st.sessions[sid].messages[id], d);
    forall s, i | s in st'.sessions && i in st'.sessions[s].messages
      ensures DecodeMessage(st'.sessions[s].messages[i]).Some?
    {
      if s != sid {
        assert st'.sessions[s] == st.sessions[s];
      } else if i != id {
        assert st'.sessions[s].messages[i] == st.sessions[s].messages[i];
      }
    }
  }

  // ---------------------------------------------------------------------------------------------
  // Reads

  /**
   * `orderByChild("createdAt")`: `order` lists every message key once, in non-decreasing
   * `createdAt`. The database breaks ties by key; the model leaves the order of ties open.
   * "Every key once" is stated as distinct keys of the snapshot, as many as it holds;
   * `SnapshotOrderListsEveryKey` derives that no key is missing.
   */
  ghost predicate IsSnapshotOrder(msgs: map<string, MessageRecord>, order: seq<string>) {
    && (forall i :: 0 <= i < |order| ==>
          order[i] in msgs && DecodeMessage(msgs[order[i]]).Some? && CreatedAtOf(msgs[order[i]]).Some?)
    && |order| == |msgs|
    && (forall i, j :: 0 <= i < j < |order| ==> order[i] != order[j])
    && (forall i, j :: 0 <= i < j < |order| ==>
          CreatedAtOf(msgs[order[i]]).value <= CreatedAtOf(msgs[order[j]]).value)
  }

  /** The keys a sequence lists. */
  function Listed(s: seq<string>): (r: set<string>)
    ensures forall x :: x in r <==> x in s
  {
    if |s| == 0 then {} else Listed(s[..|s| - 1]) + {s[|s| - 1]}
  }

  /** A sequence of distinct keys lists as many keys as it is long. */
  lemma {:induction false} ListedDistinct(s: seq<string>)
    requires forall i, j :: 0 <= i < j < |s| ==> s[i] != s[j]
    ensures |Listed(s)| == |s|
  {
    if |s| > 0 {
      var init := s[..|s| - 1];
      ListedDistinct(init);
      assert s[|s| - 1] !in Listed(init);
    }
  }

  /** A subset as large as its superset is all of it. */
  lemma {:induction false} SubsetOfSameSize<T>(a: set<T>, b: set<T>)
    requires a <= b && |a| == |b|
    ensures a == b
  {
    if b - a != {} {
      var x :| x in b - a;
      assert a <= b - {x};
      SubsetCard(a, b - {x});
    }
  }

  /** A subset is no larger than its superset. */
  lemma {:induction false} SubsetCard<T>(a: set<T>, b: set<T>)
    requires a <= b
    ensures |a| <= |b|
    decreases |b|
  {
    if a != {} {
      var x :| x in a;
      SubsetCard(a - {x}, b - {x});
    }
  }

  /** A snapshot order lists every message of the snapshot. */
  lemma SnapshotOrderListsEveryKey(msgs: map<string, MessageRecord>, order: seq<string>)
    requires IsSnapshotOrder(msgs, order)
    ensures forall k :: k in msgs ==> k in order
  {
    ListedDistinct(order);
    assert Listed(order) <= msgs.Keys;
    SubsetOfSameSize(Listed(order), msgs.Keys);
  }

  /** A snapshot order names only messages of the snapshot. */
  lemma OrderListsMessages(msgs: map<string, MessageRecord>, order: seq<string>)
    requires IsSnapshotOrder(msgs, order)
    ensures |order| > 0 ==> order[0] in msgs
  {
  }

  /** The messages of a snapshot, in snapshot order. */
  function SnapshotMessages(msgs: map<string, MessageRecord>, order: seq<string>): (ms: seq<NewMessage>)
    requires forall i :: 0 <= i < |order| ==> order[i] in msgs && DecodeMessage(msgs[order[i]]).Some?
    ensures |ms| == |order|
    ensures forall i :: 0 <= i < |order| ==> ms[i] == DecodeMessage(msgs[order[i]]).value
  {
    seq(|order|, i requires 0 <= i < |order| => DecodeMessage(msgs[order[i]]).value)
  }

  /** Message `i` is an original translation directly after a source with non-empty content. */
  predicate PairAt(ms: seq<NewMessage>, i: int)
    requires 0 <= i < |ms|
  {
    && ms[i].kind == Translation
    && !Truthy(ms[i].parentId)
    && i > 0
    && ms[i - 1].kind == Source
    && ms[i - 1].content != ""
  }

  function PairOf(ms: seq<NewMessage>, i: int): TranslationPair
    requires 0 < i < |ms|
  {
    TranslationPair(ms[i - 1].content, ms[i].content)
  }

  /** The positions at which the scan emits a pair, in increasing order: a reference for it. */
  function PairIndices(ms: seq<NewMessage>): (idx: seq<int>)
    ensures forall k :: 0 <= k < |idx| ==> 0 < idx[k] < |ms| && PairAt(ms, idx[k])
    ensures forall k, l :: 0 <= k < l < |idx| ==> idx[k] < idx[l]
    decreases |ms|
  {
    if |ms| == 0 then []
    else
      var init := ms[..|ms| - 1];
      PrefixPairs(ms);
      PairIndices(init) + (if PairAt(ms, |ms| - 1) then [|ms| - 1] else [])
  }

  /** Dropping the last message changes neither which earlier positions complete a pair nor those pairs. */
  lemma PrefixPairs(ms: seq<NewMessage>)
    requires |ms| > 0
    ensures var init := ms[..|ms| - 1];
      && (forall i :: 0 <= i < |init| ==> (PairAt(init, i) <==> PairAt(ms, i)))
      && (forall i :: 0 < i < |init| ==> PairOf(init, i) == PairOf(ms, i))
  {
  }

  /** Every position that completes a pair is one the scan emits. */
  lemma {:induction false} PairIndicesComplete(ms: seq<NewMessage>, i: int)
    requires 0 <= i < |ms| && PairAt(ms, i)
    ensures i in PairIndices(ms)
    decreases |ms|
  {
    var init := ms[..|ms| - 1];
    PrefixPairs(ms);
    if i < |ms| - 1 {
      PairIndicesComplete(init, i);
    }
  }

  /** The pair scan of `getTranslationContext`, as a function. */
  function ContextPairs(ms: seq<NewMessage>): (r: seq<TranslationPair>)
    ensures |r| == |PairIndices(ms)|
    ensures forall k :: 0 <= k < |r| ==> r[k] == PairOf(ms, PairIndices(ms)[k])
    decreases |ms|
  {
    if |ms| == 0 then []
    else
      var init := ms[..|ms| - 1];
      PrefixPairs(ms);
      ContextPairs(init) + (if PairAt(ms, |ms| - 1) then [PairOf(ms, |ms| - 1)] else [])
  }

  /** The pairs of a stored session, in snapshot order. */
  function StoredContext(st: Store, sid: string, order: seq<string>): seq<TranslationPair>
    requires sid in st.sessions ==> IsSnapshotOrder(st.sessions[sid].messages, order)
  {
    if sid in st.sessions then ContextPairs(SnapshotMessages(st.sessions[sid].messages, order)) else []
  }

  /**
   * `getTranslationContext(userId, sessionId)`, given the snapshot order. A missing session or an
   * empty message list yields no pairs; otherwise the scan emits, in snapshot order, one pair per
   * original translation that directly follows a source with non-empty content.
   */
  method GetTranslationContext(st: Store, sid: string, order: seq<string>) returns (pairs: seq<TranslationPair>)
    requires sid in st.sessions ==> IsSnapshotOrder(st.sessions[sid].messages, order)
    ensures sid !in st.sessions || st.sessions[sid].messages == map[] ==> pairs == []
    ensures pairs == StoredContext(st, sid, order)
  {
    if sid !in st.sessions {
      return [];
    }
    var msgs := st.sessions[sid].messages;
    if msgs == map[] {
      OrderListsMessages(msgs, order);
      return [];
    }
    var ms := SnapshotMessages(msgs, order);
    pairs := ScanPairs(ms);
  }

  /** The loop of `getTranslationContext` over the typed snapshot. */
  method ScanPairs(ms: seq<NewMessage>) returns (pairs: seq<TranslationPair>)
    ensures pairs == ContextPairs(ms)
  {
    pairs := [];
    var i := 0;
    while i < |ms|
      invariant 0 <= i <= |ms|
      invariant pairs == ContextPairs(ms[..i])
    {
      assert ms[..i + 1][..i] == ms[..i];
      if ms[i].kind == Translation && !Truthy(ms[i].parentId) {
        var source := if i > 0 && ms[i - 1].kind == Source then ms[i - 1].content else "";
        if source != "" {
          pairs := pairs + [TranslationPair(source, ms[i].content)];
        }
      }
      i := i + 1;
    }
    assert ms[..|ms|] == ms;
  }

  /** Pairs come out in `createdAt` order of their translations. */
  lemma ContextPairsChronological(msgs: map<string, MessageRecord>, order: seq<string>)
    requires IsSnapshotOrder(msgs, order)
    ensures var ms := SnapshotMessages(msgs, order);
      var idx := PairIndices(ms);
      forall k, l :: 0 <= k < l < |idx| ==> ms[idx[k]].createdAt <= ms[idx[l]].createdAt
  {
    var ms := SnapshotMessages(msgs, order);
    var idx := PairIndices(ms);
    forall k, l | 0 <= k < l < |idx| ensures ms[idx[k]].createdAt <= ms[idx[l]].createdAt {
      assert CreatedAtOf(msgs[order[idx[k]]]) == Some(ms[idx[k]].createdAt);
      assert CreatedAtOf(msgs[order[idx[l]]]) == Some(ms[idx[l]].createdAt);
    }
  }

  /** A scan whose last message completes a pair ends with that pair. */
  lemma ContextEndsWithLastPair(ms: seq<NewMessage>)
    requires |ms| >= 2 && PairAt(ms, |ms| - 1)
    ensures var r := ContextPairs(ms);
      |r| > 0 && r[|r| - 1] == PairOf(ms, |ms| - 1)
  {
    var init := ms[..|ms| - 1];
    assert ContextPairs(ms) == ContextPairs(init) + [PairOf(ms, |ms| - 1)];
  }

  /** The last two messages of a snapshot read back as the two messages last written there. */
  lemma SnapshotEndsWith(msgs: map<string, MessageRecord>, order: seq<string>, ka: string, a: NewMessage, kb: string, b: NewMessage)
    requires IsSnapshotOrder(msgs, order)
    requires |order| >= 2 && order[|order| - 2] == ka && order[|order| - 1] == kb
    requires ka in msgs && kb in msgs && msgs[ka] == MessageFields(a) && msgs[kb] == MessageFields(b)
    ensures var ms := SnapshotMessages(msgs, order);
      ms[|ms| - 2] == a && ms[|ms| - 1] == b
  {
    MessageRoundTrip(a);
    MessageRoundTrip(b);
  }

  /**
   * When the last two messages of the snapshot were written as a source with content and an
   * original translation, the context ends with their pair.
   */
  lemma ContextEndsWithWrittenPair(msgs: map<string, MessageRecord>, order: seq<string>,
                                   ka: string, a: NewMessage, kb: string, b: NewMessage)
    requires IsSnapshotOrder(msgs, order)
    requires |order| >= 2 && order[|order| - 2] == ka && order[|order| - 1] == kb
    requires ka in msgs && kb in msgs && msgs[ka] == MessageFields(a) && msgs[kb] == MessageFields(b)
    requires a.kind == Source && a.content != "" && b.kind == Translation && !Truthy(b.parentId)
    ensures var r := ContextPairs(SnapshotMessages(msgs, order));
      |r| > 0 && r[|r| - 1] == TranslationPair(a.content, b.content)
  {
    var ms := SnapshotMessages(msgs, order);
    SnapshotEndsWith(msgs, order, ka, a, kb, b);
    assert PairAt(ms, |ms| - 1);
    ContextEndsWithLastPair(ms);
  }

  /** The worked example: `[A, T1, B, T2 (a retranslation of T1)]` yields only the pair `(A, T1)`. */
  lemma ContextExample(a: NewMessage, t1: NewMessage, b: NewMessage, t2: NewMessage)
    requires a.kind == Source && a.content == "A"
    requires t1.kind == Translation && t1.content == "T1" && t1.parentId.None?
    requires b.kind == Source && b.content == "B"
    requires t2.kind == Translation && t2.parentId == Some("t1")
    ensures ContextPairs([a, t1, b, t2]) == [TranslationPair("A", "T1")]
  {
    var ms := [a, t1, b, t2];
    assert !PairAt(ms, 3) && !PairAt(ms[..3], 2) && PairAt(ms[..3][..2], 1) && !PairAt(ms[..3][..2][..1], 0);
    assert ms[..3] == [a, t1, b] && ms[..3][..2] == [a, t1] && ms[..3][..2][..1] == [a] && [a][..0] == [];
  }

  /** `getMessageContent`: the stored content, or `""` when the message is missing or has none. */
  function GetMessageContent(st: Store, sid: string, id: string): (r: string)
    ensures sid !in st.sessions || id !in st.sessions[sid].messages ==> r == ""
    ensures sid in st.sessions && id in st.sessions[sid].messages ==>
      r == RequiredString(st.sessions[sid].messages[id], KContent).GetOr("")
  {
    if sid in st.sessions && id in st.sessions[sid].messages then
      RequiredString(st.sessions[sid].messages[id], KContent).GetOr("")
    else ""
  }

  /** A message written by `addMessage` reads back with its content, and an update's content replaces it. */
  lemma ContentAfterWrites(st: Store, sid: string, key: string, touchedAt: int, m: NewMessage, d: MessageUpdate)
    requires sid in st.sessions ==> key !in st.sessions[sid].messages
    ensures var st' := AddMessage(st, sid, key, touchedAt, m).0;
      && GetMessageContent(st', sid, key) == m.content
      && GetMessageContent(UpdateMessage(st', sid, key, d, touchedAt), sid, key) == d.content.GetOr(m.content)
  {
    var st' := AddMessage(st, sid, key, touchedAt, m).0;
    var f := MessageFields(m);
    assert st'.sessions[sid].messages[key] == f;
    RequiredFieldsRead(m);
    OptionalStringsRead(m);
    var st'' := UpdateMessage(st', sid, key, d, touchedAt);
    assert st''.sessions[sid].messages[key] == f + UpdateFields(d);
    MergeUpdatedReads(f, d);
  }

  /** `getUserSettings`: the stored settings, or null. */
  function GetUserSettings(st: Store): Option<UserSettings> {
    st.settings
  }
}
