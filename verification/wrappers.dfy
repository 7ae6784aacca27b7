/** Optional values and the outcomes of network calls.

- Option<T> stands for a JavaScript value that may be `undefined` or `null`,
  and for an optional key of a request body (None = the key is omitted).
- Result<T> is the outcome of one call through the REST client: the client
  treats every failure alike (report and stop), so Failure carries nothing.
- Outcome is the outcome of a call whose response body is not used (a delete).
 */
module Wrappers {

  datatype Option<+T> = None | Some(value: T) {

    /** The wrapped value, or `default` when there is none (JavaScript's `x || default`
        for values that are never falsy when present). */
    function GetOr(default: T): T {
      match this
      case Some(v) => v
      case None => default
    }
  }

  datatype Result<+T> = Success(value: T) | Failure {

    /** The response data of a successful call, if any. */
    function ToOption(): Option<T> {
      match this
      case Success(v) => Some(v)
      case Failure => None
    }
  }

  datatype Outcome = Pass | Fail

  /** A list sent as an optional request key: `xs.length > 0 ? xs : undefined`. */
  function NonEmptyOrOmit<T>(xs: seq<T>): (r: Option<seq<T>>)
    ensures r.None? <==> |xs| == 0
    ensures r.Some? ==> r.value == xs && |r.value| > 0
  {
    if |xs| > 0 then Some(xs) else None
  }
}
