/**
 * The chat view of the web client: the open session's messages, ordered by creation time and
 * grouped into a source message with the translations that follow it; the retranslate lookup;
 * and the session-size warning.
 *
 * The view reads the messages through the client's `Message` type, a cast of the stored records;
 * `Typed` is that cast, defined for records that read back as messages.
 */
module ChatView {
  import opened Wrappers
  import opened Strings
  import opened Constants
  import opened SessionStore
  import opened Sorting
  import opened Listing
  import opened Realtime

  /** The stored entries as the client's messages. */
  function Typed(es: seq<MessageEntry>): (ms: seq<Message>)
    requires forall i :: 0 <= i < |es| ==> DecodeMessage(es[i].fields).Some?
    ensures |ms| == |es|
    ensures forall i :: 0 <= i < |es| ==> ms[i] == Message(es[i].id, DecodeMessage(es[i].fields).value)
  {
    seq(|es|, i requires 0 <= i < |es| => Message(es[i].id, DecodeMessage(es[i].fields).value))
  }

  /**
   * The entries the realtime hook reads from a session the modelled writes produced can all be
   * cast: each key's message, in the order of the keys.
   */
  lemma StoredSessionTyped(st: Store, sid: string, keys: seq<string>)
    requires WellFormed(st) && sid in st.sessions
    requires forall i :: 0 <= i < |keys| ==> keys[i] in st.sessions[sid].messages
    ensures var es := SessionView(sid, st.sessions[sid], keys).messages;
      && (forall i :: 0 <= i < |es| ==> DecodeMessage(es[i].fields).Some?)
      && var ms := Typed(es);
         |ms| == |keys| &&
         forall i :: 0 <= i < |keys| ==> ms[i] == Message(keys[i], DecodeMessage(st.sessions[sid].messages[keys[i]]).value)
  {
  }

  function CreatedAt(m: Message): int { m.data.createdAt }

  predicate IsSource(m: Message) { m.data.kind == Source }

  // ---------------------------------------------------------------------------------------------
  // Grouping

  /** `MessagePair`: a source message and the translations grouped under it. */
  datatype MessagePair = MessagePair(source: Message, translations: seq<Message>)

  /**
   * The grouping of messages already in order, one message at a time: a source opens a new pair;
   * a translation joins the last pair, or is dropped when no source has come yet.
   */
  function Group(ms: seq<Message>): (pairs: seq<MessagePair>)
    decreases |ms|
  {
    if |ms| == 0 then []
    else
      var pairs := Group(ms[..|ms| - 1]);
      var m := ms[|ms| - 1];
      if IsSource(m) then pairs + [MessagePair(m, [])]
      else if |pairs| == 0 then pairs
      else pairs[..|pairs| - 1] + [pairs[|pairs| - 1].(translations := pairs[|pairs| - 1].translations + [m])]
  }

  /**
   * The loop of the view: a current pair that each source closes and replaces, and the closed
   * pairs before it. It computes the grouping.
   */
  method GroupMessages(messages: seq<Message>) returns (pairs: seq<MessagePair>)
    ensures pairs == Group(messages)
  {
    pairs := [];
    var current: Option<MessagePair> := None;
    for i := 0 to |messages|
      invariant pairs + (if current.Some? then [current.value] else []) == Group(messages[..i])
      invariant current.None? ==> pairs == []
    {
      var msg := messages[i];
      assert messages[..i + 1][..i] == messages[..i];
      if msg.data.kind == Source {
        if current.Some? {
          pairs := pairs + [current.value];
        }
        current := Some(MessagePair(msg, []));
      } else if current.Some? {
        current := Some(current.value.(translations := current.value.translations + [msg]));
      }
    }
    if current.Some? {
      pairs := pairs + [current.value];
    }
    assert messages[..|messages|] == messages;
  }

  /** `messagePairs`: no session gives no pairs; otherwise the messages sorted by `createdAt`, grouped. */
  method MessagePairs(messages: Option<seq<Message>>) returns (pairs: seq<MessagePair>)
    ensures messages.None? ==> pairs == []
    ensures messages.Some? ==> pairs == Group(SortBy(messages.value, CreatedAt))
  {
    if messages.None? {
      return [];
    }
    var sorted := SortBy(messages.value, CreatedAt);
    pairs := GroupMessages(sorted);
  }

  /** The source messages of a sequence, in order. */
  function Sources(ms: seq<Message>): (r: seq<Message>)
    ensures |r| <= |ms|
  {
    if |ms| == 0 then []
    else Sources(ms[..|ms| - 1]) + (if IsSource(ms[|ms| - 1]) then [ms[|ms| - 1]] else [])
  }

  /** The sources of a list of pairs, in order. */
  function PairSources(pairs: seq<MessagePair>): (r: seq<Message>)
    ensures |r| == |pairs|
    ensures forall i :: 0 <= i < |pairs| ==> r[i] == pairs[i].source
  {
    seq(|pairs|, i requires 0 <= i < |pairs| => pairs[i].source)
  }

  /** Appending a pair appends its source. */
  lemma PairSourcesSnoc(pairs: seq<MessagePair>, p: MessagePair)
    ensures PairSources(pairs + [p]) == PairSources(pairs) + [p.source]
  {
  }

  /** Replacing the last pair by one with the same source keeps the sources. */
  lemma PairSourcesReplaceLast(pairs: seq<MessagePair>, p: MessagePair)
    requires |pairs| > 0 && p.source == pairs[|pairs| - 1].source
    ensures PairSources(pairs[..|pairs| - 1] + [p]) == PairSources(pairs)
  {
  }

  /** The pairs hold the sources, in order, one pair per source; so there are as many pairs as sources. */
  lemma {:induction false} GroupSources(ms: seq<Message>)
    ensures PairSources(Group(ms)) == Sources(ms)
    ensures |Group(ms)| == |Sources(ms)|
    decreases |ms|
  {
    if |ms| > 0 {
      var init := ms[..|ms| - 1];
      GroupSources(init);
      var pairs := Group(init);
      var m := ms[|ms| - 1];
      if IsSource(m) {
        PairSourcesSnoc(pairs, MessagePair(m, []));
      } else if |pairs| > 0 {
        var last := pairs[|pairs| - 1];
        PairSourcesReplaceLast(pairs, last.(translations := last.translations + [m]));
      }
    }
  }

  /** Translations only. */
  predicate NoSource(ms: seq<Message>) {
    forall i :: 0 <= i < |ms| ==> !IsSource(ms[i])
  }

  /**
   * Each translation joins the pair of the latest source before it, in order: a source followed
   * by translations alone ends the grouping with that source and those translations.
   */
  lemma {:induction false} LatestSourceCollects(a: seq<Message>, s: Message, b: seq<Message>)
    requires IsSource(s) && NoSource(b)
    ensures Group(a + [s] + b) == Group(a) + [MessagePair(s, b)]
    decreases |b|
  {
    if |b| == 0 {
      assert (a + [s] + b)[..|a + [s] + b| - 1] == a;
    } else {
      var b' := b[..|b| - 1];
      assert (a + [s] + b)[..|a + [s] + b| - 1] == a + [s] + b';
      LatestSourceCollects(a, s, b');
      assert b' + [b[|b| - 1]] == b;
    }
  }

  /** Translations before every source are dropped: they contribute to no pair. */
  lemma {:induction false} LeadingTranslationsDropped(t: seq<Message>, ms: seq<Message>)
    requires NoSource(t)
    ensures Group(t + ms) == Group(ms)
    decreases |ms|
  {
    if |ms| == 0 {
      assert t + ms == t;
      NoSourceNoPairs(t);
    } else {
      var init := ms[..|ms| - 1];
      assert (t + ms)[..|t + ms| - 1] == t + init;
      LeadingTranslationsDropped(t, init);
    }
  }

  /** Translations alone form no pair. */
  lemma {:induction false} NoSourceNoPairs(t: seq<Message>)
    requires NoSource(t)
    ensures Group(t) == []
    decreases |t|
  {
    if |t| > 0 {
      NoSourceNoPairs(t[..|t| - 1]);
    }
  }

  /** The empty state shows exactly when no session is open or the session holds no source message. */
  lemma EmptyStateIffNoSource(messages: Option<seq<Message>>)
    ensures var pairs := if messages.None? then [] else Group(SortBy(messages.value, CreatedAt));
      |pairs| == 0 <==> messages.None? || forall m :: m in messages.value ==> !IsSource(m)
  {
    if messages.Some? {
      var sorted := SortBy(messages.value, CreatedAt);
      GroupSources(sorted);
      SourcesEmpty(sorted);
      forall m ensures m in messages.value <==> m in sorted {
        SameElements(messages.value, sorted, m);
      }
    }
  }

  /** A sequence has no sources exactly when none of its messages is a source. */
  lemma {:induction false} SourcesEmpty(ms: seq<Message>)
    ensures |Sources(ms)| == 0 <==> forall m :: m in ms ==> !IsSource(m)
    decreases |ms|
  {
    if |ms| > 0 {
      var init := ms[..|ms| - 1];
      SourcesEmpty(init);
      assert ms == init + [ms[|ms| - 1]];
    }
  }

  // ---------------------------------------------------------------------------------------------
  // Retranslate

  /** Whether a pair holds a translation with the given id. */
  predicate HoldsTranslation(p: MessagePair, id: string) {
    exists t :: t in p.translations && t.id == id
  }

  /** `pairs.find((p) => p.translations.some((t) => t.id === id))`. */
  function FindPair(pairs: seq<MessagePair>, id: string): (r: Option<nat>)
    ensures r.Some? ==> r.value < |pairs| && HoldsTranslation(pairs[r.value], id)
    ensures r.Some? ==> forall k :: 0 <= k < r.value ==> !HoldsTranslation(pairs[k], id)
    ensures r.None? ==> forall k :: 0 <= k < |pairs| ==> !HoldsTranslation(pairs[k], id)
  {
    if |pairs| == 0 then None
    else if exists t :: t in pairs[0].translations && t.id == id then Some(0)
    else match FindPair(pairs[1..], id)
      case None => None
      case Some(k) => Some(k + 1)
  }

  /** The `retranslate(text, parentMessageId)` call the view makes. */
  datatype RetranslateCall = RetranslateCall(text: string, parentMessageId: string)

  /**
   * `handleRetranslate`: the call carries the source text of the first pair holding the
   * translation and the translation's id; no pair holding it means no call.
   */
  function HandleRetranslate(pairs: seq<MessagePair>, parentId: string): (c: Option<RetranslateCall>)
    ensures c.None? <==> forall k :: 0 <= k < |pairs| ==> !HoldsTranslation(pairs[k], parentId)
    ensures c.Some? ==> c.value.parentMessageId == parentId
    ensures c.Some? ==>
      exists k :: 0 <= k < |pairs| && HoldsTranslation(pairs[k], parentId) && c.value.text == pairs[k].source.data.content
  {
    match FindPair(pairs, parentId)
    case None => None
    case Some(k) => Some(RetranslateCall(pairs[k].source.data.content, parentId))
  }

  /** A translation in the last group is retranslated from the latest source before it. */
  lemma RetranslateUsesItsSource(a: seq<Message>, s: Message, b: seq<Message>, t: Message)
    requires IsSource(s) && NoSource(b) && t in b
    requires forall p :: p in Group(a) ==> !HoldsTranslation(p, t.id)
    ensures HandleRetranslate(Group(a + [s] + b), t.id) == Some(RetranslateCall(s.data.content, t.id))
  {
    LatestSourceCollects(a, s, b);
    var pairs := Group(a) + [MessagePair(s, b)];
    assert HoldsTranslation(pairs[|pairs| - 1], t.id);
    forall k | 0 <= k < |pairs| - 1 ensures !HoldsTranslation(pairs[k], t.id) {
      assert pairs[k] in Group(a);
    }
  }

  // ---------------------------------------------------------------------------------------------
  // Session-size warning

  /** The translation messages, in order. */
  function Translations(ms: seq<Message>): (r: seq<Message>)
    ensures |r| <= |ms|
    ensures forall i :: 0 <= i < |r| ==> r[i].data.kind == Translation
  {
    if |ms| == 0 then []
    else
      var m := ms[|ms| - 1];
      Translations(ms[..|ms| - 1]) + (if m.data.kind == Translation then [m] else [])
  }

  /** The summed `content.length` (UTF-16 code units) of the messages. */
  function ContentLength(ms: seq<Message>): nat {
    if |ms| == 0 then 0 else ContentLength(ms[..|ms| - 1]) + Utf16Length(ms[|ms| - 1].data.content)
  }

  /** `{ totalSize, showWarning }` of the warning hook; `percentage` is left out. */
  datatype Warning = Warning(totalSize: nat, showWarning: bool)

  /**
   * `useSessionWarning`: no session gives size 0 and no warning; otherwise the size counts the
   * translations' content only, and the warning shows from the threshold on.
   */
  function SessionWarning(messages: Option<seq<Message>>): (w: Warning)
    ensures messages.None? ==> w == Warning(0, false)
    ensures w.showWarning <==> w.totalSize >= SESSION_WARNING_THRESHOLD
    ensures messages.Some? ==> w.totalSize == ContentLength(Translations(messages.value))
  {
    if messages.None? then Warning(0, false)
    else
      var size := ContentLength(Translations(messages.value));
      Warning(size, size >= SESSION_WARNING_THRESHOLD)
  }

  /** Summed lengths add up over a concatenation. */
  lemma {:induction false} ContentLengthAppend(a: seq<Message>, b: seq<Message>)
    ensures ContentLength(a + b) == ContentLength(a) + ContentLength(b)
    decreases |b|
  {
    if |b| > 0 {
      var b' := b[..|b| - 1];
      assert (a + b)[..|a + b| - 1] == a + b';
      ContentLengthAppend(a, b');
    } else {
      assert a + b == a;
    }
  }

  /** Filtering translations distributes over a concatenation. */
  lemma {:induction false} TranslationsAppend(a: seq<Message>, b: seq<Message>)
    ensures Translations(a + b) == Translations(a) + Translations(b)
    decreases |b|
  {
    if |b| > 0 {
      var b' := b[..|b| - 1];
      assert (a + b)[..|a + b| - 1] == a + b';
      TranslationsAppend(a, b');
    } else {
      assert a + b == a;
    }
  }

  /** The size of a session split in two is the sum of the sizes of the parts. */
  lemma SizeAdds(a: seq<Message>, b: seq<Message>)
    ensures SessionWarning(Some(a + b)).totalSize == SessionWarning(Some(a)).totalSize + SessionWarning(Some(b)).totalSize
  {
    TranslationsAppend(a, b);
    ContentLengthAppend(Translations(a), Translations(b));
  }

  /**
   * A source message never adds to the size, and a translation adds its content length, so
   * appending a message never lowers the size and never turns the warning off.
   */
  lemma AppendMessage(ms: seq<Message>, m: Message)
    ensures m.data.kind == Source ==> SessionWarning(Some(ms + [m])).totalSize == SessionWarning(Some(ms)).totalSize
    ensures m.data.kind == Translation ==>
      SessionWarning(Some(ms + [m])).totalSize == SessionWarning(Some(ms)).totalSize + Utf16Length(m.data.content)
    ensures SessionWarning(Some(ms)).showWarning ==> SessionWarning(Some(ms + [m])).showWarning
  {
    SizeAdds(ms, [m]);
    assert [m][..0] == [];
    assert ContentLength([m]) == Utf16Length(m.data.content) by {
      assert [m][..0] == [];
    }
  }
}
