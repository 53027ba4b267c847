/** The retry policy of the background analytics worker: what the work scheduler is
    told after one tracking request has come back. */
module TrackingWorker {

  /** The worker's verdict for the work queue. */
  datatype WorkResult = Success | Failure | Retry

  /** The parts of an HTTP response the policy looks at. */
  datatype Response = Response(isSuccessful: bool, code: int)

  /** `handleResult`: a successful response commits the event, a client error (any
      code from 400 to 499) fails it for good, anything else is retried. */
  function HandleResult(response: Response): (r: WorkResult)
    ensures r == Success <==> response.isSuccessful
    ensures r == Failure <==> !response.isSuccessful && 400 <= response.code <= 499
    ensures r == Retry <==> !response.isSuccessful && !(400 <= response.code <= 499)
  {
    if response.isSuccessful then Success
    else if 400 <= response.code <= 499 then Failure
    else Retry
  }

  /** OkHttp reports a response as successful exactly when its code is in 200..299. */
  predicate OkHttpShaped(response: Response) {
    response.isSuccessful <==> 200 <= response.code <= 299
  }

  /** For responses shaped by OkHttp the verdict depends on the status code alone:
      2xx commits, 4xx fails permanently, everything else (1xx, 3xx, 5xx, ...) retries. */
  lemma ClassifiedByCode(response: Response)
    requires OkHttpShaped(response)
    ensures HandleResult(response) == Success <==> 200 <= response.code <= 299
    ensures HandleResult(response) == Failure <==> 400 <= response.code <= 499
    ensures HandleResult(response) == Retry <==> response.code < 200 || 300 <= response.code < 400 || 500 <= response.code
  {
  }

  /** The policy at the edges of its bands: 200 succeeds; 400, 410 and 499 fail for
      good; 399, 500 and 503 are retried. */
  lemma Examples()
    ensures HandleResult(Response(true, 200)) == Success
    ensures HandleResult(Response(false, 410)) == Failure
    ensures HandleResult(Response(false, 400)) == Failure
    ensures HandleResult(Response(false, 499)) == Failure
    ensures HandleResult(Response(false, 503)) == Retry
    ensures HandleResult(Response(false, 399)) == Retry
    ensures HandleResult(Response(false, 500)) == Retry
  {
  }
}
