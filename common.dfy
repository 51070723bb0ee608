/** Small value types shared by the page models. */
module Common {

  /** A value that may be absent: JavaScript's `null` / `undefined` next to a real value. */
  datatype Option<+T> = None | Some(value: T) {
    /** `x ?? d` for a value that is either present or absent. */
    function GetOr(default: T): T {
      match this
      case Some(v) => v
      case None => default
    }
  }

  /** The outcome of a local operation that can be refused with an error. */
  datatype Result<+T, +E> = Success(value: T) | Failure(error: E)

  /** What a backend `select` hands back: `{ data, error }`. `Ok(None)` is a call
      that succeeded with `data == null`; `Failed` is a call whose `error` was set. */
  datatype Response<+T> = Ok(data: Option<T>) | Failed

  /** `x || ''`: a missing or empty string becomes the empty string. */
  function OrEmpty(s: Option<string>): (r: string)
    ensures s.Some? ==> r == s.value
    ensures s.None? ==> r == ""
  {
    s.GetOr("")
  }

  /** `x || null`: a missing or empty string becomes `null`. */
  function OrNull(s: Option<string>): (r: Option<string>)
    ensures r.Some? <==> s.Some? && s.value != ""
    ensures r.Some? ==> r == s
  {
    if s.Some? && s.value != "" then s else None
  }

  /** Record identifiers are opaque strings (UUIDs). */
  type Id = string
}
