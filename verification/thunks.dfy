/** What the front end's async thunks share: the token guard and the choice
    of rejection message. Network transport is not modelled; a request's
    outcome is an input. */
module Thunks {
  import opened Common

  const NoToken: string := "No authentication token"

  /** How a request can fail: an HTTP error response, which may carry a
      `detail`, or no response at all. */
  datatype RequestFailure = HttpFailure(detail: Option<string>) | NoResponse

  /** A request's outcome: the response payload or the failure. */
  type Outcome<T> = Result<T, RequestFailure>

  /** JavaScript truthiness of the stored token. */
  predicate HasToken(token: Option<string>) {
    token.Some? && token.value != ""
  }

  /** `error.response.data.detail || fallback` for an HTTP error, `fallback`
      otherwise. */
  function RejectMessage(f: RequestFailure, fallback: string): (m: string)
    ensures f.HttpFailure? && f.detail.Some? && f.detail.value != "" ==> m == f.detail.value
    ensures !(f.HttpFailure? && f.detail.Some? && f.detail.value != "") ==> m == fallback
  {
    match f
    case HttpFailure(Some(d)) => if d != "" then d else fallback
    case _ => fallback
  }
}
