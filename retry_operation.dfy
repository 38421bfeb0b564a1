/**
 * The retry operation that lib/chartmogul/util/retry.js obtains from the
 * external `retry` package. Its code is not part of this model: this module
 * states the ASSUMED behaviour that the driver relies on:
 * - a falsy error is never retried;
 * - an operation configured with `retries` grants at most `max(retries, 0)` retries;
 * - a truthy error is always retried while such a retry is left (no time limit
 *   refuses it: the package's `maxRetryTime` is unlimited unless configured).
 */
module RetryOperation {

  import opened Wrappers

  /** The configuration object passed to `retry.operation`. */
  datatype Options = Options(retries: int, randomize: real, minTimeout: nat, maxTimeout: nat)

  /** Number of backoff delays the package prepares: one per `i` with `0 <= i < retries`. */
  function Timeouts(retries: int): (t: nat)
    ensures retries <= 0 ==> t == 0
    ensures retries >= 0 ==> t == retries
  {
    if retries > 0 then retries else 0
  }

  class Operation {
    /** Backoff delays not yet used: each granted retry consumes one. */
    var timeouts: nat
    /** The number of the attempt in progress, counted from 1. */
    var attempts: nat

    constructor (options: Options)
      ensures timeouts == Timeouts(options.retries)
      ensures attempts == 1
    {
      timeouts := Timeouts(options.retries);
      attempts := 1;
    }

    /**
     * `operation.retry(err)`: schedules another attempt and answers true,
     * or answers false when `err` is falsy or no delay is left.
     */
    method Retry<E>(err: Option<E>) returns (scheduled: bool)
      modifies this
      ensures scheduled <==> err.Some? && old(timeouts) > 0
      ensures timeouts == if scheduled then old(timeouts) - 1 else old(timeouts)
      ensures attempts == if scheduled then old(attempts) + 1 else old(attempts)
    {
      if err.None? {
        return false;
      }
      if timeouts == 0 {
        return false;
      }
      timeouts := timeouts - 1;
      attempts := attempts + 1;
      return true;
    }
  }
}
