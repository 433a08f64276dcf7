/**
 * The two realtime hooks of the web client: the session list and the open session. Each keeps a
 * small state that a subscription sets once, and that every later event from the database
 * listener replaces. Only the mapping from a snapshot to that state is modelled; the listener
 * lifecycle is not.
 *
 * A snapshot's value is typed by a cast, without a check: the records are taken to hold the
 * properties the hooks declare. The order in which `Object.entries` lists the keys is supplied by
 * the environment.
 */
module Realtime {
  import opened Wrappers
  import opened Json
  import opened SessionStore
  import opened Sorting
  import opened Listing

  /** What a value listener receives: a snapshot, `None` when the node does not exist, or a cancellation. */
  datatype Event<T> = Snapshot(value: Option<T>) | Cancelled(error: Thrown)

  // ---------------------------------------------------------------------------------------------
  // The session list

  datatype SessionsState = SessionsState(sessions: seq<Session>, loading: bool, error: Option<Thrown>)

  /** The state before the first event: no sessions, still loading. */
  const INITIAL_SESSIONS: SessionsState := SessionsState([], true, None)

  /** A stored number, or 0 for a property that does not hold one. */
  function NumberAt<K>(f: Record<K>, k: K): (n: int)
    ensures k in f && f[k].JNum? ==> n == f[k].n
  {
    if k in f && f[k].JNum? then f[k].n else 0
  }

  /** `{ id, username, description: description || "", createdAt, updatedAt }` of a stored session. */
  function ListItem(id: string, f: Record<SessionKey>): (s: Session)
    ensures s.id == id
    ensures s.username == RequiredString(f, KUsername)
    ensures s.description == RequiredString(f, KDescription).GetOr("")
    ensures s.createdAt == NumberAt(f, KSessionCreatedAt) && s.updatedAt == NumberAt(f, KUpdatedAt)
  {
    Session(id, RequiredString(f, KUsername), RequiredString(f, KDescription).GetOr(""),
            NumberAt(f, KSessionCreatedAt), NumberAt(f, KUpdatedAt))
  }

  function SessionId(s: Session): string { s.id }

  /** The comparator `b.updatedAt - a.updatedAt`: ascending in the negated key is newest first. */
  function NewestFirst(s: Session): int { -s.updatedAt }

  /** The list of a snapshot: one item per stored session, newest first. */
  function SessionList(data: map<string, Record<SessionKey>>, keys: seq<string>): (r: seq<Session>)
    requires forall i :: 0 <= i < |keys| ==> keys[i] in data
    ensures |r| == |keys|
    ensures multiset(r) == multiset(EntriesBy(data, keys, ListItem))
    ensures forall i, j :: 0 <= i < j < |r| ==> r[i].updatedAt >= r[j].updatedAt
  {
    var r := SortBy(EntriesBy(data, keys, ListItem), NewestFirst);
    assert forall i, j :: 0 <= i < j < |r| ==> NewestFirst(r[i]) <= NewestFirst(r[j]);
    r
  }

  /** Every stored session is listed once, under its key, and nothing else is listed. */
  lemma SessionListEntries(data: map<string, Record<SessionKey>>, keys: seq<string>, s: Session)
    requires ListsKeys(keys, data)
    ensures |SessionList(data, keys)| == |data|
    ensures s in SessionList(data, keys) <==> s.id in data && s == ListItem(s.id, data[s.id])
    ensures multiset(SessionList(data, keys))[s] <= 1
  {
    SameElements(SessionList(data, keys), EntriesBy(data, keys, ListItem), s);
    EntriesByMembership(data, keys, ListItem, SessionId, s);
    EntriesByOnce(data, keys, ListItem, SessionId, s);
  }

  /** Subscribing: without a signed-in user the list is empty and done loading; otherwise it waits for the listener. */
  function SubscribeSessions(st: SessionsState, userId: Option<string>): (st': SessionsState)
    ensures !Truthy(userId) ==> st' == SessionsState([], false, None)
    ensures Truthy(userId) ==> st' == st
  {
    if !Truthy(userId) then SessionsState([], false, None) else st
  }

  /**
   * An event of the session-list listener: a missing node gives an empty list, a cancellation an
   * empty list with the error, and a snapshot its list; none of them leaves the list loading.
   */
  function OnSessionsEvent(ev: Event<map<string, Record<SessionKey>>>, keys: seq<string>): (st: SessionsState)
    requires ev.Snapshot? && ev.value.Some? ==> forall i :: 0 <= i < |keys| ==> keys[i] in ev.value.value
    ensures !st.loading
    ensures st.error.Some? <==> ev.Cancelled?
    ensures ev.Cancelled? ==> st.error == Some(ev.error) && st.sessions == []
    ensures ev == Snapshot(None) ==> st.sessions == []
    ensures ev.Snapshot? && ev.value.Some? ==> st.sessions == SessionList(ev.value.value, keys)
  {
    match ev
    case Cancelled(err) => SessionsState([], false, Some(err))
    case Snapshot(None) => SessionsState([], false, None)
    case Snapshot(Some(data)) => SessionsState(SessionList(data, keys), false, None)
  }

  // ---------------------------------------------------------------------------------------------
  // The open session

  /** `Session` of the web client: the stored session with its messages, in listing order. */
  datatype ClientSession = ClientSession(
    id: string, username: Option<string>, description: string,
    messages: seq<MessageEntry>, createdAt: int, updatedAt: int)

  datatype SessionState = SessionState(session: Option<ClientSession>, loading: bool, error: Option<Thrown>)

  const INITIAL_SESSION: SessionState := SessionState(None, true, None)

  /** The session a snapshot of `sessionId` shows: its messages unsorted, in listing order. */
  function SessionView(sessionId: string, n: SessionNode, keys: seq<string>): (s: ClientSession)
    requires forall i :: 0 <= i < |keys| ==> keys[i] in n.messages
    ensures s.id == sessionId
    ensures s.username == RequiredString(n.fields, KUsername)
    ensures s.description == RequiredString(n.fields, KDescription).GetOr("")
    ensures s.createdAt == NumberAt(n.fields, KSessionCreatedAt) && s.updatedAt == NumberAt(n.fields, KUpdatedAt)
    ensures |s.messages| == |keys|
    ensures forall i :: 0 <= i < |keys| ==> s.messages[i] == MessageEntry(keys[i], n.messages[keys[i]])
  {
    var item := ListItem(sessionId, n.fields);
    ClientSession(sessionId, item.username, item.description, EntriesBy(n.messages, keys, WithId),
                  item.createdAt, item.updatedAt)
  }

  /** Every stored message of the open session is shown once, under its key, and nothing else is. */
  lemma SessionViewMessages(sessionId: string, n: SessionNode, keys: seq<string>, e: MessageEntry)
    requires ListsKeys(keys, n.messages)
    ensures e in SessionView(sessionId, n, keys).messages <==> e.id in n.messages && e.fields == n.messages[e.id]
    ensures multiset(SessionView(sessionId, n, keys).messages)[e] <= 1
  {
    EntriesByMembership(n.messages, keys, WithId, EntryId, e);
    EntriesByOnce(n.messages, keys, WithId, EntryId, e);
  }

  /** Subscribing: without a session id or a signed-in user there is no session and nothing loads. */
  function SubscribeSession(st: SessionState, userId: Option<string>, sessionId: Option<string>): (st': SessionState)
    ensures !Truthy(sessionId) || !Truthy(userId) ==> st' == SessionState(None, false, None)
    ensures Truthy(sessionId) && Truthy(userId) ==> st' == st
  {
    if !Truthy(sessionId) || !Truthy(userId) then SessionState(None, false, None) else st
  }

  /**
   * An event of the open-session listener: a missing node gives no session, a cancellation no
   * session with the error, and a snapshot its session under the requested id.
   */
  function OnSessionEvent(sessionId: string, ev: Event<SessionNode>, keys: seq<string>): (st: SessionState)
    requires ev.Snapshot? && ev.value.Some? ==> forall i :: 0 <= i < |keys| ==> keys[i] in ev.value.value.messages
    ensures !st.loading
    ensures st.error.Some? <==> ev.Cancelled?
    ensures ev.Cancelled? ==> st.error == Some(ev.error)
    ensures st.session.Some? <==> ev.Snapshot? && ev.value.Some?
    ensures st.session.Some? ==> st.session.value == SessionView(sessionId, ev.value.value, keys)
  {
    match ev
    case Cancelled(err) => SessionState(None, false, Some(err))
    case Snapshot(None) => SessionState(None, false, None)
    case Snapshot(Some(n)) => SessionState(Some(SessionView(sessionId, n, keys)), false, None)
  }

  /** A session without stored messages shows an empty message list. */
  lemma NoMessagesEmptyList(sessionId: string, n: SessionNode)
    requires n.messages == map[]
    ensures SessionView(sessionId, n, []).messages == []
    ensures ListsKeys([], n.messages)
  {
  }
}
