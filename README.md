# Retrying HTTP requests (chartmogul-node `retryRequest`)

This project models the retry logic of the ChartMogul Node.js client,
`lib/chartmogul/util/retry.js`. It has two parts.

- **Outcome classifier** (module `RetryClassifier`). After an attempt it decides whether the attempt should be repeated:
  - `retryOnStatus` gives a reason for a response with status 429 or 5xx. The reason is an error whose message is `"<status> - <status message>"`.
  - `retryOnNetworkError` gives back the error itself when its code is one of the eight entries of `RETRIABLE_ERRORS`.
  - Line 55 combines them as `retryOnStatus(res) || retryOnNetworkError(err)`.
  - The decimal rendering of the status inside that message is module `Decimal`.
- **Retry driver** (module `Retry`). `retryRequest` sets `retries` to 20 when it is undefined, configures a retry operation, and runs attempts one after another.
  - After each attempt, the retry operation either schedules another attempt, or the callback `cb(err, res, res && res.body)` fires.
  - Attempts run sequentially. The result of attempt `k + 1` is `results(k)`, a scripted environment passed in as a parameter.
  - The method `Retry.RetryRequest` returns the list of callback invocations and the number of attempts. It is proved equal to the specification function `Retry.StopIndex`.

The retry operation comes from the external `retry` package, whose code is not part of this model. Module `RetryOperation` states, as an **assumption** and not as verified behaviour of this code:

- `operation.retry(err)` with a falsy `err` never schedules another attempt;
- an operation configured with `retries` grants at most `max(retries, 0)` retries, so at most `max(retries, 0) + 1` attempts happen (21 when `retries` is undefined);
- a truthy reason is always retried while such a retry is left: no time limit refuses it. This matches the package's default of an unlimited `maxRetryTime`.

Two behaviours of the code are easy to misread:

- **The body on failure.** The callback gets `res && res.body` (line 58): the response body whenever a response exists, even when the attempt failed. It is not null on failure. `Retry.Report` models that.
- **What is reported after retries run out.** The callback gets the last attempt's own `err` and `res`. It does not get the reason built by the classifier, so the status-based `Error` never reaches the caller.

## Model

| member | source | states |
|---|---|---|
| `RetryClassifier.RetryOnStatus` | lib/chartmogul/util/retry.js:7-14 | a reason exists exactly when a response is present and its status is 429 or in 500..599; the reason is a status error |
| `RetryClassifier.StatusReasonMessage` | lib/chartmogul/util/retry.js:12 | the reason's message splits back into the three-digit status code, the separator " - " and the status message (undefined rendered as "undefined") |
| `Decimal.ParseNatToString` | lib/chartmogul/util/retry.js:12 | the decimal rendering of the status code reads back as the same number |
| `RetryClassifier.StatusBoundaries` | lib/chartmogul/util/retry.js:8-11 | 429, 500 and 599 are retried; 200, 404, 428, 430, 499 and 600 are not |
| `RetryClassifier.NoResponseNoStatusReason` | lib/chartmogul/util/retry.js:9 | with no response there is no status reason, and the combined reason depends on the error alone |
| `RetryClassifier.IndexOf` | lib/chartmogul/util/retry.js:29 | `indexOf` gives -1 exactly when the element is absent; otherwise it gives the position of the element's first occurrence |
| `RetryClassifier.RetryOnNetworkError` | lib/chartmogul/util/retry.js:17-33 | the result is the error itself exactly when an error is present and its code belongs to the eight-entry table; otherwise it is null |
| `RetryClassifier.ListedCodesAreRetriable` | lib/chartmogul/util/retry.js:17-26 | each of ECONNRESET, ENOTFOUND, ESOCKETTIMEDOUT, ETIMEDOUT, ECONNREFUSED, EHOSTUNREACH, EPIPE and EAI_AGAIN is a retriable code |
| `RetryClassifier.UnlistedCodesAreNotRetried` | lib/chartmogul/util/retry.js:28-33 | ECONNABORTED, EPROTO and a missing code are not retriable; an error without a code, and no error at all, give null |
| `RetryClassifier.RetryReason` | lib/chartmogul/util/retry.js:55 | a reason exists exactly when the status is 429 or in the 5xx class, or the error code is in the table; the status reason is used whenever there is one, and the network error only otherwise |
| `RetryClassifier.StatusReasonTakesPrecedence` | lib/chartmogul/util/retry.js:55 | when both a retriable status and a retriable network error occur, the reason passed on is the status-based one |
| `Retry.DefaultRetries` | lib/chartmogul/util/retry.js:36-38 | an undefined `retries` becomes 20; a supplied value is used unchanged |
| `Retry.OperationOptions` | lib/chartmogul/util/retry.js:40-45 | the retry operation is configured with the defaulted `retries`, randomize 0.5, a 500 ms minimum delay and a 60 s maximum delay |
| `RetryOperation.Timeouts` | lib/chartmogul/util/retry.js:40-45 | assumed budget of the external operation: `retries` retries, none when `retries` is 0 or negative |
| `RetryOperation.Operation.constructor` | lib/chartmogul/util/retry.js:40-45 | assumed: a new operation holds the whole retry budget and is at attempt 1 |
| `RetryOperation.Operation.Retry` | lib/chartmogul/util/retry.js:55-56 | assumed: another attempt is scheduled exactly when the reason is truthy and budget is left; scheduling uses one unit of budget and advances the attempt counter |
| `Retry.Report` | lib/chartmogul/util/retry.js:58 | the callback receives the attempt's own error and response, and a body exactly when a response exists, even on failure |
| `Retry.StopIndex` | lib/chartmogul/util/retry.js:54-59 | the run ends at the first attempt that is not retriable, or at the attempt that finds the budget spent; every earlier attempt was retriable |
| `Retry.RetryRequest` | lib/chartmogul/util/retry.js:35-61 | the callback fires exactly once, with the last attempt's result, and never after an attempt that was retried; at most `max(retries, 0) + 1` attempts are made (21 when `retries` is undefined); all earlier attempts were retriable; the run stops on a non-retriable attempt or an exhausted budget |
| `Retry.StopIndexUnique` | lib/chartmogul/util/retry.js:54-59 | the end of a run is the only attempt index that meets that characterization |
| `Retry.NonRetriableEndsRun` | lib/chartmogul/util/retry.js:55-58 | an attempt that is not retriable ends the run at once |
| `Retry.AllRetriableExhaustsBudget` | lib/chartmogul/util/retry.js:40-45 | when every attempt is retriable, exactly budget + 1 attempts are made |
| `Retry.NoRetriesSingleAttempt` | lib/chartmogul/util/retry.js:40-45 | with `retries` 0 or less, exactly one attempt is made whatever it yields |
| `Retry.RetriableFirstAttemptIsRepeated` | lib/chartmogul/util/retry.js:55-56 | a retriable first attempt is followed by a second one whenever at least one retry is allowed |
| `Retry.DefaultBudget` | lib/chartmogul/util/retry.js:36-45 | with `retries` undefined, a request that always fails retriably is made 21 times |
| `Retry.ServiceUnavailableThenOk` | lib/chartmogul/util/retry.js:54-59 | a 503 followed by a 200 gives two attempts; the callback gets no error, the 200 response and its body |
| `Retry.ConnectionAlwaysRefused` | lib/chartmogul/util/retry.js:17-33 | if every attempt is refused with ECONNREFUSED, `retries + 1` attempts are made; the callback then gets the last error, no response and no body |
| `Retry.NotFoundEndsAtOnce` | lib/chartmogul/util/retry.js:7-14 | a 404 with an error that has no code ends after one attempt; the callback gets the error, the response and its body |

## Left out

- Backoff delays (randomize 0.5, minimum 500 ms, maximum 60 s, lines 41-44). They are computed inside the external `retry` package, with randomness, floating point and timers. Only the configuration constants are recorded.
- The rest of the `retry` package beyond the assumption above: its `maxRetryTime` limit (unlimited by default), `forever` mode, error list and `mainError`.
- Request construction (lines 49-52): the default method `get`, HTTP Basic authentication, headers and body are handed to the superagent library, which is not part of this model.
- URL resolution, `new URL(options.uri, options.baseUrl)` (line 48). This is a call into Node's WHATWG URL parser. If it throws inside the attempt, the exception is not modelled.
- Asynchrony: `operation.attempt` and `request.end` are callbacks driven by timers and I/O. They are modelled as a sequential loop over scripted attempt results. The `currentAttempt` argument is unused by the source and is not modelled.
- Whether superagent sets `err` for 4xx and 5xx responses is library behaviour. The model takes `err` and `res` of each attempt as given.
- JavaScript values outside the modelled types are not modelled: a `retries` of `null`, a fraction or `Infinity`; a non-integer status code; a non-string error code; a `null` status message (the model renders only an undefined one, as "undefined").
