/**
 * `retryRequest` of lib/chartmogul/util/retry.js: issue a request, classify
 * each attempt, and either let the retry operation schedule another attempt
 * or call the caller's callback with the attempt's own `(err, res, body)`.
 *
 * Attempts are sequential; the results they produce are given as a scripted
 * environment `results`, where `results(k)` is what attempt `k + 1` yields.
 */
module Retry {

  import opened Wrappers
  import opened RetryClassifier
  import RetryOperation

  /** Used when the caller leaves `retries` undefined. */
  const DefaultRetryCount: int := 20

  /** Backoff configuration handed to the retry package (delays in milliseconds). */
  const Randomize: real := 0.5
  const MinTimeout: nat := 500
  const MaxTimeout: nat := 60 * 1000

  /** `retries` after defaulting: undefined becomes 20, any supplied value is kept. */
  function DefaultRetries(retries: Option<int>): (n: int)
    ensures retries.None? ==> n == 20
    ensures retries.Some? ==> n == retries.value
  {
    match retries
    case None => DefaultRetryCount
    case Some(r) => r
  }

  function OperationOptions(retries: int): (o: RetryOperation.Options)
    ensures o.retries == retries
    ensures o.randomize == 0.5 && o.minTimeout == 500 && o.maxTimeout == 60 * 1000
  {
    RetryOperation.Options(retries, Randomize, MinTimeout, MaxTimeout)
  }

  /** The arguments of one callback invocation: `cb(err, res, res && res.body)`. */
  datatype Completion = Completion(err: Option<RequestError>, res: Option<Response>, body: Option<string>)

  /** What the callback receives after attempt `a`: its own error and response, and the body whenever there is a response. */
  function Report(a: AttemptResult): (c: Completion)
    ensures c.err == a.err && c.res == a.res
    ensures c.body.Some? <==> a.res.Some?
    ensures a.res.Some? ==> c.body.value == a.res.value.body
  {
    Completion(a.err, a.res, if a.res.Some? then Some(a.res.value.body) else None)
  }

  /**
   * Index of the attempt that ends a run which is at attempt index `k` with
   * `timeouts` retries left: the first attempt that is not retriable, or the
   * one that finds the budget spent.
   */
  function StopIndex(timeouts: nat, results: nat -> AttemptResult, k: nat): (r: nat)
    ensures k <= r <= k + timeouts
    ensures forall j {:trigger Retriable(results(j))} :: k <= j < r ==> Retriable(results(j))
    ensures r < k + timeouts ==> !Retriable(results(r))
    decreases timeouts
  {
    if !Retriable(results(k)) || timeouts == 0 then k
    else StopIndex(timeouts - 1, results, k + 1)
  }

  /**
   * `retryRequest(retries, options, cb)`. Returns the callback invocations in
   * order and the number of attempts made.
   */
  method RetryRequest(retries: Option<int>, results: nat -> AttemptResult) returns (calls: seq<Completion>, attempts: nat)
    ensures attempts == StopIndex(RetryOperation.Timeouts(DefaultRetries(retries)), results, 0) + 1
    ensures |calls| == 1
    ensures calls[0] == Report(results(attempts - 1))
    ensures 1 <= attempts <= RetryOperation.Timeouts(DefaultRetries(retries)) + 1
    ensures forall j :: 0 <= j < attempts - 1 ==> Retriable(results(j))
    ensures !Retriable(results(attempts - 1)) || attempts == RetryOperation.Timeouts(DefaultRetries(retries)) + 1
  {
    var n := DefaultRetries(retries);
    var operation := new RetryOperation.Operation(OperationOptions(n));
    ghost var budget := RetryOperation.Timeouts(n);
    ghost var stop := StopIndex(budget, results, 0);
    var current: nat := 0;  // index of the attempt in progress
    calls := [];
    while true
      invariant calls == []
      invariant operation.attempts == current + 1
      invariant current + operation.timeouts == budget
      invariant StopIndex(operation.timeouts, results, current) == stop
      decreases operation.timeouts
    {
      var result := results(current);
      var scheduled := operation.Retry(RetryReason(result));
      if !scheduled {
        calls := calls + [Report(result)];
        break;
      }
      current := current + 1;
    }
    attempts := operation.attempts;
  }

  /** The run's end is determined by its characterization: no other attempt index satisfies it. */
  lemma StopIndexUnique(timeouts: nat, results: nat -> AttemptResult, k: nat, r: nat)
    requires k <= r <= k + timeouts
    requires forall j :: k <= j < r ==> Retriable(results(j))
    requires r < k + timeouts ==> !Retriable(results(r))
    ensures StopIndex(timeouts, results, k) == r
  {
  }

  /** An attempt that is not retriable ends the run at once. */
  lemma NonRetriableEndsRun(timeouts: nat, results: nat -> AttemptResult, k: nat)
    requires !Retriable(results(k))
    ensures StopIndex(timeouts, results, k) == k
  {
  }

  /** A run whose attempts are all retriable makes exactly `timeouts + 1` attempts. */
  lemma AllRetriableExhaustsBudget(timeouts: nat, results: nat -> AttemptResult)
    requires forall j :: 0 <= j <= timeouts ==> Retriable(results(j))
    ensures StopIndex(timeouts, results, 0) == timeouts
  {
  }

  /** With `retries` at most 0 exactly one attempt is made, whatever it yields. */
  lemma NoRetriesSingleAttempt(retries: int, results: nat -> AttemptResult)
    requires retries <= 0
    ensures StopIndex(RetryOperation.Timeouts(DefaultRetries(Some(retries))), results, 0) == 0
  {
  }

  /** A retriable first attempt is repeated whenever at least one retry is allowed. */
  lemma RetriableFirstAttemptIsRepeated(retries: Option<int>, results: nat -> AttemptResult)
    requires DefaultRetries(retries) >= 1
    requires Retriable(results(0))
    ensures StopIndex(RetryOperation.Timeouts(DefaultRetries(retries)), results, 0) >= 1
  {
  }

  /** With `retries` undefined, a server that always fails is tried 21 times. */
  lemma DefaultBudget(results: nat -> AttemptResult)
    requires forall j :: 0 <= j <= 20 ==> Retriable(results(j))
    ensures StopIndex(RetryOperation.Timeouts(DefaultRetries(None)), results, 0) == 20
  {
    AllRetriableExhaustsBudget(20, results);
  }

  /** 503 first, then 200: two attempts, and the callback reports the 200 response and its body. */
  lemma ServiceUnavailableThenOk(retries: Option<int>, first: AttemptResult, ok: Response, results: nat -> AttemptResult)
    requires DefaultRetries(retries) >= 1
    requires first.res.Some? && first.res.value.statusCode == 503
    requires ok.statusCode == 200
    requires results(0) == first && results(1) == AttemptResult(None, Some(ok))
    ensures StopIndex(RetryOperation.Timeouts(DefaultRetries(retries)), results, 0) == 1
    ensures Report(results(1)) == Completion(None, Some(ok), Some(ok.body))
  {
    NonRetriableEndsRun(RetryOperation.Timeouts(DefaultRetries(retries)) - 1, results, 1);
  }

  /**
   * Every attempt refused with ECONNREFUSED and no response: `retries + 1`
   * attempts, then the callback gets the last error, no response and no body.
   */
  lemma ConnectionAlwaysRefused(retries: nat, refused: RequestError, results: nat -> AttemptResult)
    requires refused.code == Some("ECONNREFUSED")
    requires forall k :: results(k) == AttemptResult(Some(refused), None)
    ensures StopIndex(RetryOperation.Timeouts(DefaultRetries(Some(retries))), results, 0) == retries
    ensures Report(results(retries)) == Completion(Some(refused), None, None)
  {
    assert "ECONNREFUSED" == RetriableErrors[4];
    AllRetriableExhaustsBudget(retries, results);
  }

  /**
   * A 404 with a non-retriable error ends after one attempt; the callback
   * gets the error, the response and, since there is a response, its body.
   */
  lemma NotFoundEndsAtOnce(retries: Option<int>, notFound: Response, err: RequestError, results: nat -> AttemptResult)
    requires notFound.statusCode == 404
    requires err.code.None?
    requires results(0) == AttemptResult(Some(err), Some(notFound))
    ensures StopIndex(RetryOperation.Timeouts(DefaultRetries(retries)), results, 0) == 0
    ensures Report(results(0)) == Completion(Some(err), Some(notFound), Some(notFound.body))
  {
    assert !Retriable(results(0));
    NonRetriableEndsRun(RetryOperation.Timeouts(DefaultRetries(retries)), results, 0);
  }
}
