/**
 * `Object.entries(obj).map(([key, value]) => ...)`: one element per property, built from the key
 * and the value. The order in which the properties are listed is supplied by the environment, as
 * a sequence naming every key exactly once.
 */
module Listing {
  import opened Wrappers
  import opened SessionStore

  /** `keys` lists every key of `m` exactly once. */
  predicate ListsKeys<V>(keys: seq<string>, m: map<string, V>) {
    && |keys| == |m|
    && (forall i :: 0 <= i < |keys| ==> keys[i] in m)
    && (forall i, j :: 0 <= i < j < |keys| ==> keys[i] != keys[j])
  }

  /** A listing of the keys holds every key of the map. */
  lemma ListingCoversKeys<V>(keys: seq<string>, m: map<string, V>)
    requires ListsKeys(keys, m)
    ensures forall k :: k in m ==> k in keys
  {
    ListedDistinct(keys);
    assert Listed(keys) <= m.Keys;
    SubsetOfSameSize(Listed(keys), m.Keys);
  }

  /** The elements built from the listed properties, in listing order. */
  function EntriesBy<V, E>(m: map<string, V>, keys: seq<string>, make: (string, V) -> E): (r: seq<E>)
    requires forall i :: 0 <= i < |keys| ==> keys[i] in m
    ensures |r| == |keys|
    ensures forall i :: 0 <= i < |r| ==> r[i] == make(keys[i], m[keys[i]])
  {
    seq(|keys|, i requires 0 <= i < |keys| => make(keys[i], m[keys[i]]))
  }

  /**
   * When every element carries its key, the elements are exactly those built from a property
   * of the map, each one with its key.
   */
  lemma EntriesByMembership<V, E>(m: map<string, V>, keys: seq<string>, make: (string, V) -> E, keyOf: E -> string, e: E)
    requires ListsKeys(keys, m)
    requires forall k, v :: keyOf(make(k, v)) == k
    ensures e in EntriesBy(m, keys, make) <==> keyOf(e) in m && e == make(keyOf(e), m[keyOf(e)])
  {
    var r := EntriesBy(m, keys, make);
    if keyOf(e) in m && e == make(keyOf(e), m[keyOf(e)]) {
      ListingCoversKeys(keys, m);
      var i :| 0 <= i < |keys| && keys[i] == keyOf(e);
      assert r[i] == e;
    }
  }

  /** Elements carrying distinct keys each occur at most once. */
  lemma {:induction false} DistinctKeysOnce<E>(s: seq<E>, keyOf: E -> string, e: E)
    requires forall i, j :: 0 <= i < j < |s| ==> keyOf(s[i]) != keyOf(s[j])
    ensures multiset(s)[e] <= 1
    decreases |s|
  {
    if |s| > 0 {
      var init := s[..|s| - 1];
      assert s == init + [s[|s| - 1]];
      DistinctKeysOnce(init, keyOf, e);
      if s[|s| - 1] == e {
        assert e !in init by {
          forall i | 0 <= i < |init| ensures init[i] != e {
            assert keyOf(s[i]) != keyOf(s[|s| - 1]);
          }
        }
      }
    }
  }

  /** Every element built from a listing occurs once, since each carries its own key. */
  lemma EntriesByOnce<V, E>(m: map<string, V>, keys: seq<string>, make: (string, V) -> E, keyOf: E -> string, e: E)
    requires ListsKeys(keys, m)
    requires forall k, v :: keyOf(make(k, v)) == k
    ensures multiset(EntriesBy(m, keys, make))[e] <= 1
  {
    var r := EntriesBy(m, keys, make);
    assert forall i :: 0 <= i < |r| ==> keyOf(r[i]) == keys[i];
    DistinctKeysOnce(r, keyOf, e);
  }

  // ---------------------------------------------------------------------------------------------
  // Stored messages with their keys

  /** A stored message with its key as its `id`. No stored message property is named `id`, so
   *  `{ id, ...msg }` and `{ ...msg, id }` build the same object. */
  datatype MessageEntry = MessageEntry(id: string, fields: MessageRecord)

  function WithId(id: string, fields: MessageRecord): (e: MessageEntry)
    ensures e.id == id && e.fields == fields
  {
    MessageEntry(id, fields)
  }

  function EntryId(e: MessageEntry): string { e.id }

  /** The entry's `createdAt`, read as a number. */
  function EntryCreatedAt(e: MessageEntry): int {
    CreatedAtOf(e.fields).GetOr(0)
  }
}
