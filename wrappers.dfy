/** Optional values, and the JavaScript idiom `value || fallback` on request strings. */
module Wrappers {

  /** An optional value: a query parameter or JSON field that may be absent (`null`/`undefined`). */
  datatype Option<+T> = None | Some(value: T) {

    /** The carried value, or `default` when there is none. */
    function GetOr(default: T): T
    {
      match this
      case Some(v) => v
      case None => default
    }
  }

  /** `s || fallback` for a string that may be absent: both the missing string and the
      empty string are falsy in JavaScript, so both give way to the fallback. */
  function StringOr(s: Option<string>, fallback: string): (r: string)
    ensures s.Some? && s.value != "" ==> r == s.value
    ensures s.None? || s.value == "" ==> r == fallback
  {
    if s.Some? && s.value != "" then s.value else fallback
  }
}
