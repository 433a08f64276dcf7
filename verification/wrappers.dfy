/** Optional values and the outcome of calls that may throw. */
module Wrappers {

  /** A value that may be absent: JavaScript's `undefined` (or `null`) versus a present value. */
  datatype Option<+T> = None | Some(value: T) {

    /** The present value, or `default` when absent (the `??` operator). */
    function GetOr(default: T): T {
      match this
      case Some(v) => v
      case None => default
    }

    /** Applies `f` to a present value. */
    function Map<U>(f: T -> U): (r: Option<U>)
      ensures r.Some? <==> this.Some?
      ensures r.Some? ==> r.value == f(this.value)
    {
      match this
      case Some(v) => Some(f(v))
      case None => None
    }
  }

  /** What a JavaScript `catch` block receives: an `Error` with its message, or any other thrown value. */
  datatype Thrown = ErrorObject(message: string) | OtherValue

  /** The settled outcome of a call that may throw (a promise that fulfils or rejects). */
  datatype Attempt<+T> = Returned(value: T) | Threw(reason: Thrown)

  /** `e instanceof Error ? e.message : fallback`, the idiom every handler uses to report a failure. */
  function MessageOr(e: Thrown, fallback: string): (r: string)
    ensures e.ErrorObject? ==> r == e.message
    ensures e.OtherValue? ==> r == fallback
  {
    match e
    case ErrorObject(m) => m
    case OtherValue => fallback
  }

  /** JavaScript truthiness of an optional string: `undefined` and `""` are falsy. */
  predicate Truthy(s: Option<string>) {
    s.Some? && s.value != ""
  }
}
