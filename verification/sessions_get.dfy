/**
 * The get-session endpoint: the guard order, and the conversion of the stored messages object into
 * an array of messages carrying their keys as ids, sorted by creation time.
 *
 * Reading the session node is supplied by the environment, as the outcome of the read; so is the
 * order in which `Object.entries` lists the message keys.
 */
module SessionsGet {
  import opened Wrappers
  import opened Json
  import opened SessionStore
  import opened AllowList
  import opened Sorting
  import opened Http
  import opened Listing

  /** A GET request: the method, the signed-in user's address and the `sessionId` query parameter. */
  datatype GetRequest = GetRequest(httpMethod: string, email: string, sessionId: Option<string>)

  datatype Body =
    | ErrorBody(error: string)
    | SessionBody(fields: Record<SessionKey>, messages: seq<MessageEntry>)

  /** The response, and the session id read, if the session was read. */
  datatype Outcome = Outcome(response: Response<Body>, read: Option<string>)

  const SESSION_ID_REQUIRED: string := "sessionId is required"
  const SESSION_NOT_FOUND: string := "Session not found"
  const GET_FAILED: string := "Failed to get session"

  /** Every stored message has a numeric `createdAt`, so the comparator is consistent. */
  predicate AllTimed(msgs: map<string, MessageRecord>) {
    forall k :: k in msgs ==> CreatedAtOf(msgs[k]).Some?
  }

  /** `Object.entries(messages).map(([id, msg]) => ({ ...msg, id }))`: the key overrides any stored `id`. */
  function Entries(msgs: map<string, MessageRecord>, keys: seq<string>): (r: seq<MessageEntry>)
    requires forall i :: 0 <= i < |keys| ==> keys[i] in msgs
    ensures |r| == |keys|
    ensures forall i :: 0 <= i < |r| ==> r[i] == MessageEntry(keys[i], msgs[keys[i]])
  {
    EntriesBy(msgs, keys, WithId)
  }

  /** The messages array of the response: the entries sorted by `createdAt`. */
  function MessageArray(msgs: map<string, MessageRecord>, keys: seq<string>): (r: seq<MessageEntry>)
    requires forall i :: 0 <= i < |keys| ==> keys[i] in msgs
    ensures |r| == |keys|
    ensures multiset(r) == multiset(Entries(msgs, keys))
    ensures SortedBy(r, EntryCreatedAt)
  {
    SortBy(Entries(msgs, keys), EntryCreatedAt)
  }

  /**
   * The array holds one entry per stored message: an entry is in it exactly when its id is a
   * stored key and its fields are that message's, and no entry appears twice.
   */
  lemma MessageArrayEntries(msgs: map<string, MessageRecord>, keys: seq<string>, e: MessageEntry)
    requires ListsKeys(keys, msgs)
    ensures e in MessageArray(msgs, keys) <==> e.id in msgs && e.fields == msgs[e.id]
    ensures multiset(MessageArray(msgs, keys))[e] <= 1
  {
    SameElements(MessageArray(msgs, keys), Entries(msgs, keys), e);
    EntriesByMembership(msgs, keys, WithId, EntryId, e);
    EntriesByOnce(msgs, keys, WithId, EntryId, e);
  }

  /**
   * The handler: 405 for a method other than GET; 403 for an address off the allow-list; 400 when
   * `sessionId` is missing or empty; then the session is read: 500 when the read throws, 404 when
   * there is no such session, and otherwise the session's fields unchanged with the messages array.
   */
  function HandleGetSession(allowed: seq<string>, req: GetRequest, loaded: Attempt<Option<SessionNode>>, keys: seq<string>): (o: Outcome)
    requires loaded.Returned? && loaded.value.Some? ==> ListsKeys(keys, loaded.value.value.messages)
    ensures req.httpMethod != "GET" ==> o == Outcome(Response(405, ErrorBody(METHOD_NOT_ALLOWED)), None)
    ensures req.httpMethod == "GET" && Decide(allowed, req.email).Denied? ==>
      o == Outcome(Response(403, ErrorBody(DENIED_MESSAGE)), None)
    ensures req.httpMethod == "GET" && Decide(allowed, req.email).Next? && !Truthy(req.sessionId) ==>
      o == Outcome(Response(400, ErrorBody(SESSION_ID_REQUIRED)), None)
    ensures o.read.Some? <==> req.httpMethod == "GET" && Decide(allowed, req.email).Next? && Truthy(req.sessionId)
    ensures o.read.Some? ==> o.read.value == req.sessionId.value
    ensures o.read.Some? && loaded.Threw? ==> o.response.status == 500 && o.response.body == ErrorBody(GET_FAILED)
    ensures o.read.Some? && loaded == Returned(None) ==> o.response.status == 404 && o.response.body == ErrorBody(SESSION_NOT_FOUND)
    ensures o.response.status == 200 <==> o.read.Some? && loaded.Returned? && loaded.value.Some?
    ensures o.response.status == 200 ==>
      var n := loaded.value.value;
      o.response.body == SessionBody(n.fields, MessageArray(n.messages, keys))
  {
    if req.httpMethod != "GET" then Outcome(Response(405, ErrorBody(METHOD_NOT_ALLOWED)), None)
    else match Decide(allowed, req.email)
      case Denied(status, error) => Outcome(Response(status, ErrorBody(error)), None)
      case Next =>
        if !Truthy(req.sessionId) then Outcome(Response(400, ErrorBody(SESSION_ID_REQUIRED)), None)
        else
          var sid := Some(req.sessionId.value);
          match loaded
          case Threw(_) => Outcome(Response(500, ErrorBody(GET_FAILED)), sid)
          case Returned(None) => Outcome(Response(404, ErrorBody(SESSION_NOT_FOUND)), sid)
          case Returned(Some(n)) => Outcome(Response(200, SessionBody(n.fields, MessageArray(n.messages, keys))), sid)
  }

  /** With every message timed, the array is in non-decreasing `createdAt` order. */
  lemma MessageArrayInTimeOrder(msgs: map<string, MessageRecord>, keys: seq<string>)
    requires ListsKeys(keys, msgs) && AllTimed(msgs)
    ensures var ms := MessageArray(msgs, keys);
      && (forall i :: 0 <= i < |ms| ==> CreatedAtOf(ms[i].fields).Some?)
      && (forall i, j :: 0 <= i < j < |ms| ==> CreatedAtOf(ms[i].fields).value <= CreatedAtOf(ms[j].fields).value)
  {
    var ms := MessageArray(msgs, keys);
    forall i | 0 <= i < |ms| ensures CreatedAtOf(ms[i].fields).Some? {
      MessageArrayEntries(msgs, keys, ms[i]);
    }
  }

  /** A found session's response carries its fields and exactly its stored messages, one entry each, in time order. */
  lemma FoundSessionMessages(allowed: seq<string>, req: GetRequest, n: SessionNode, keys: seq<string>, e: MessageEntry)
    requires ListsKeys(keys, n.messages) && AllTimed(n.messages)
    requires HandleGetSession(allowed, req, Returned(Some(n)), keys).response.status == 200
    ensures var b := HandleGetSession(allowed, req, Returned(Some(n)), keys).response.body;
      && b.SessionBody? && b.fields == n.fields && |b.messages| == |n.messages|
      && (e in b.messages <==> e.id in n.messages && e.fields == n.messages[e.id])
      && multiset(b.messages)[e] <= 1
      && (forall i, j :: 0 <= i < j < |b.messages| ==> EntryCreatedAt(b.messages[i]) <= EntryCreatedAt(b.messages[j]))
  {
    MessageArrayEntries(n.messages, keys, e);
  }
}
