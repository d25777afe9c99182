/** Optional values, results and pass/fail outcomes used to model the
    service's thrown exceptions and nullable fields as plain data. */
module Results {

  /** A value that may be absent (`undefined` / `null` in the service). */
  datatype Option<+T> = None | Some(value: T)

  /** A successful value or the error the service would have thrown. */
  datatype Result<+T, +E> = Success(value: T) | Failure(error: E)

  /** A check that either passes or fails with an error. */
  datatype Outcome<+E> = Pass | Fail(error: E)

  /** `text || null`: an absent or empty text is stored as null, any other
      text as given. */
  function NullIfEmpty(s: Option<string>): (r: Option<string>)
    ensures r.None? <==> s.None? || s.value == ""
    ensures r.Some? ==> r == s
  {
    match s
    case Some(t) => if t != "" then Some(t) else None
    case None => None
  }
}
