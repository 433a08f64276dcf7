/**
 * Parsed JSON request bodies and the zod field rules the handlers validate them with.
 *
 * A body is a JSON value; an object is a map from key to value, so a key is either absent or
 * holds exactly one value. Numbers are integers: no schema here reads a number. A field rule
 * yields `None` when the body is invalid, and `Some(v)` with the decoded value otherwise; an
 * `.optional()` field decodes to `Some(None)` when its key is absent.
 */
module Json {
  import opened Wrappers

  datatype Json =
    | JNull
    | JBool(b: bool)
    | JNum(n: int)
    | JStr(s: string)
    | JArr(items: seq<Json>)
    | JObj(fields: map<string, Json>)

  /** A string as a JSON value. */
  function StrJson(s: string): Json { JStr(s) }

  /** `z.string()` on a required key. */
  function RequiredString<K>(f: map<K, Json>, key: K): (r: Option<string>)
    ensures r.Some? <==> key in f && f[key].JStr?
    ensures r.Some? ==> f[key] == JStr(r.value)
  {
    if key in f && f[key].JStr? then Some(f[key].s) else None
  }

  /** `z.string().min(1)`: a required string with at least one UTF-16 code unit. */
  function NonEmptyString(f: map<string, Json>, key: string): (r: Option<string>)
    ensures r.Some? <==> key in f && f[key].JStr? && f[key].s != ""
    ensures r.Some? ==> f[key] == JStr(r.value) && |r.value| > 0
  {
    if key in f && f[key].JStr? && f[key].s != "" then Some(f[key].s) else None
  }

  /** `z.string().optional()`: an absent key is `undefined`; `null` or a non-string is invalid. */
  function OptionalString(f: map<string, Json>, key: string): (r: Option<Option<string>>)
    ensures key !in f ==> r == Some(None)
    ensures key in f ==> (r.Some? <==> f[key].JStr?)
    ensures r.Some? && r.value.Some? ==> key in f && f[key] == JStr(r.value.value)
  {
    if key !in f then Some(None)
    else if f[key].JStr? then Some(Some(f[key].s))
    else None
  }

  /** `z.boolean()` on a required key. */
  function RequiredBool(f: map<string, Json>, key: string): (r: Option<bool>)
    ensures r.Some? <==> key in f && f[key].JBool?
    ensures r.Some? ==> f[key] == JBool(r.value)
  {
    if key in f && f[key].JBool? then Some(f[key].b) else None
  }

  /** `z.boolean().optional()`. */
  function OptionalBool(f: map<string, Json>, key: string): (r: Option<Option<bool>>)
    ensures key !in f ==> r == Some(None)
    ensures key in f ==> (r.Some? <==> f[key].JBool?)
    ensures r.Some? && r.value.Some? ==> key in f && f[key] == JBool(r.value.value)
  {
    if key !in f then Some(None)
    else if f[key].JBool? then Some(Some(f[key].b))
    else None
  }

  /** An `.optional()` field of any kind, decoded by `parse`. */
  function OptionalField<K, T>(f: map<K, Json>, key: K, parse: Json -> Option<T>): (r: Option<Option<T>>)
    ensures key !in f ==> r == Some(None)
    ensures key in f ==> (r.Some? <==> parse(f[key]).Some?)
    ensures key in f && r.Some? ==> r.value == parse(f[key])
  {
    if key !in f then Some(None)
    else match parse(f[key])
      case Some(v) => Some(Some(v))
      case None => None
  }

  /** Adds `key` when the value is defined; an `undefined` property is dropped when serialised. */
  function WithOptional(f: map<string, Json>, key: string, v: Option<Json>): (g: map<string, Json>)
    ensures v.None? ==> g == f
    ensures v.Some? ==> g == f[key := v.value]
  {
    match v
    case None => f
    case Some(j) => f[key := j]
  }
}
