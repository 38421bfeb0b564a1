/**
 * The outcome classifier of lib/chartmogul/util/retry.js: after one attempt
 * it decides from the response status and the transport error code whether
 * the attempt is worth repeating, and with which reason.
 */
module RetryClassifier {
  import opened Wrappers
  import Decimal

  /** An HTTP response as far as the retry logic looks at it; `body` is an opaque payload. */
  datatype Response = Response(statusCode: int, statusMessage: Option<string>, body: string)

  /** A transport-level error; `code` is the Node.js error code, when it has one. */
  datatype RequestError = RequestError(code: Option<string>, message: string)

  /** What one attempt yields to the `end` callback: `(err, res)`, either possibly absent. */
  datatype AttemptResult = AttemptResult(err: Option<RequestError>, res: Option<Response>)

  /** A truthy value handed to the retry operation. */
  datatype Reason =
    | StatusError(message: string)    // `new Error("<status> - <status message>")`
    | NetworkError(err: RequestError) // the attempt's own error object

  /** The transport error codes after which a request is repeated. */
  const RetriableErrors: seq<string> := [
    "ECONNRESET",
    "ENOTFOUND",
    "ESOCKETTIMEDOUT",
    "ETIMEDOUT",
    "ECONNREFUSED",
    "EHOSTUNREACH",
    "EPIPE",
    "EAI_AGAIN"
  ]

  /** `Array.prototype.indexOf`: the first position of `x` in `s`, or -1. */
  function IndexOf<T(==)>(s: seq<T>, x: T): (r: int)
    ensures -1 <= r < |s|
    ensures r == -1 <==> x !in s
    ensures r >= 0 ==> s[r] == x && x !in s[..r]
  {
    if s == [] then -1
    else if s[0] == x then 0
    else
      var k := IndexOf(s[1..], x);
      if k == -1 then -1
      else
        assert s[..k + 1] == [s[0]] + s[1..][..k];
        k + 1
  }

  /** How a template literal renders a possibly undefined string. */
  function Interpolate(s: Option<string>): string {
    match s
    case Some(t) => t
    case None => "undefined"
  }

  /** `retryOnStatus`: a reason exactly for a present response with status 429 or 5xx. */
  function RetryOnStatus(res: Option<Response>): (r: Option<Reason>)
    ensures r.Some? <==> res.Some? && (res.value.statusCode == 429 || 500 <= res.value.statusCode < 600)
    ensures r.Some? ==> r.value.StatusError?
  {
    if res.Some? && (res.value.statusCode == 429 || (res.value.statusCode >= 500 && res.value.statusCode < 600)) then
      Some(StatusError(Decimal.NatToString(res.value.statusCode) + " - " + Interpolate(res.value.statusMessage)))
    else
      None
  }

  /** A present error code that the table lists. */
  predicate RetriableCode(code: Option<string>) {
    code.Some? && code.value in RetriableErrors
  }

  /** `retryOnNetworkError`: the error itself when its code is in the table, otherwise nothing. */
  function RetryOnNetworkError(err: Option<RequestError>): (r: Option<RequestError>)
    ensures r.Some? <==> err.Some? && RetriableCode(err.value.code)
    ensures r.Some? ==> r == err
  {
    if err.Some? && err.value.code.Some? && IndexOf(RetriableErrors, err.value.code.value) > -1 then err
    else None
  }

  /** A status that the classifier retries on: Too Many Requests, or any of the 5xx class. */
  predicate RetriableStatus(status: int) {
    status == 429 || status / 100 == 5
  }

  /** The reason handed to `operation.retry` (`retryOnStatus(res) || retryOnNetworkError(err)`). */
  function RetryReason(a: AttemptResult): (r: Option<Reason>)
    ensures r.Some? <==>
      (a.res.Some? && RetriableStatus(a.res.value.statusCode)) ||
      (a.err.Some? && RetriableCode(a.err.value.code))
    ensures RetryOnStatus(a.res).Some? ==> r == RetryOnStatus(a.res)
    ensures RetryOnStatus(a.res).None? && RetryOnNetworkError(a.err).Some? ==> r == Some(NetworkError(a.err.value))
  {
    match RetryOnStatus(a.res)
    case Some(reason) => Some(reason)
    case None =>
      match RetryOnNetworkError(a.err)
      case Some(e) => Some(NetworkError(e))
      case None => None
  }

  /** A retry-worthy attempt. */
  predicate Retriable(a: AttemptResult) {
    RetryReason(a).Some?
  }

  /**
   * The status reason's message reads back as the status code, the
   * separator " - " and the status message.
   */
  lemma StatusReasonMessage(res: Response)
    requires res.statusCode == 429 || 500 <= res.statusCode < 600
    ensures
      match RetryOnStatus(Some(res))
      case Some(StatusError(m)) =>
        && |m| >= 6
        && Decimal.AllDigits(m[..3])
        && Decimal.ParseDigits(m[..3]) == res.statusCode
        && m[3..6] == " - "
        && m[6..] == Interpolate(res.statusMessage)
      case _ => false
  {
    var digits := Decimal.NatToString(res.statusCode);
    Decimal.NatToStringThreeDigits(res.statusCode);
    Decimal.ParseNatToString(res.statusCode);
    var m := digits + " - " + Interpolate(res.statusMessage);
    assert m[..3] == digits;
    assert m[3..6] == " - ";
    assert m[6..] == Interpolate(res.statusMessage);
  }

  /** Statuses on either side of the retriable ranges. */
  lemma StatusBoundaries(message: Option<string>, body: string)
    ensures RetryOnStatus(Some(Response(429, message, body))).Some?
    ensures RetryOnStatus(Some(Response(500, message, body))).Some?
    ensures RetryOnStatus(Some(Response(599, message, body))).Some?
    ensures RetryOnStatus(Some(Response(200, message, body))).None?
    ensures RetryOnStatus(Some(Response(404, message, body))).None?
    ensures RetryOnStatus(Some(Response(428, message, body))).None?
    ensures RetryOnStatus(Some(Response(430, message, body))).None?
    ensures RetryOnStatus(Some(Response(499, message, body))).None?
    ensures RetryOnStatus(Some(Response(600, message, body))).None?
  {
  }

  /** Without a response there is no status reason, whatever the error. */
  lemma NoResponseNoStatusReason(a: AttemptResult)
    requires a.res.None?
    ensures RetryOnStatus(a.res).None?
    ensures RetryReason(a) == (if RetryOnNetworkError(a.err).Some? then Some(NetworkError(a.err.value)) else None)
  {
  }

  /**
   * Each of the eight table codes is retriable. This documents the table's
   * contents by name; it fails only if `RetriableErrors` is edited.
   */
  lemma ListedCodesAreRetriable()
    ensures RetriableCode(Some("ECONNRESET"))
    ensures RetriableCode(Some("ENOTFOUND"))
    ensures RetriableCode(Some("ESOCKETTIMEDOUT"))
    ensures RetriableCode(Some("ETIMEDOUT"))
    ensures RetriableCode(Some("ECONNREFUSED"))
    ensures RetriableCode(Some("EHOSTUNREACH"))
    ensures RetriableCode(Some("EPIPE"))
    ensures RetriableCode(Some("EAI_AGAIN"))
  {
  }

  /** Codes outside the table, a missing code and a missing error are not retried. */
  lemma UnlistedCodesAreNotRetried(message: string)
    ensures !RetriableCode(Some("ECONNABORTED"))
    ensures !RetriableCode(Some("EPROTO"))
    ensures !RetriableCode(None)
    ensures RetryOnNetworkError(Some(RequestError(None, message))).None?
    ensures RetryOnNetworkError(None).None?
  {
  }

  /**
   * When both checks fire, the status reason wins and the network error is
   * not passed on.
   */
  lemma StatusReasonTakesPrecedence(a: AttemptResult)
    requires RetryOnStatus(a.res).Some? && RetryOnNetworkError(a.err).Some?
    ensures RetryReason(a).Some? && RetryReason(a).value.StatusError?
  {
  }
}
