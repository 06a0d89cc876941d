/**
 * The retry configuration built by `sane_retry` (downloader.py:79-106).
 * The policy is pure data: nothing is raised while it is built.
 */
module Retry {

  /** The two class constants of urllib3's `Retry` that `sane_retry` merges
      into its sets. Their contents belong to urllib3, so they are parameters. */
  datatype RetryDefaults = RetryDefaults(
    retryAfterStatusCodes: set<int>,     // Retry.RETRY_AFTER_STATUS_CODES
    defaultAllowedMethods: set<string>)  // Retry.DEFAULT_ALLOWED_METHODS

  /** The arguments `sane_retry` hands to urllib3's `Retry` constructor. */
  datatype RetryPolicy = RetryPolicy(
    total: int,
    read: int,
    connect: int,
    backoffFactor: real,
    statusForcelist: set<int>,
    allowedMethods: set<string>)

  const InternalServerError: int := 500
  const BadGateway: int := 502
  const ServiceUnavailable: int := 503
  const GatewayTimeout: int := 504

  /** Default arguments of `sane_retry`. */
  const DefaultRetries: int := 4
  const DefaultBackoffFactor: real := 0.1
  const DefaultAdditionalStatusForcelist: set<int> :=
    {InternalServerError, BadGateway, ServiceUnavailable, GatewayTimeout}
  const DefaultAdditionalAllowedMethods: set<string> := {}

  /** `sane_retry(retries, backoff_factor, additional_status_forcelist,
      additional_allowed_methods)`: one retry budget for every phase, and the
      library's status and method sets widened by the caller's. */
  function SaneRetry(
    lib: RetryDefaults,
    retries: int,
    backoffFactor: real,
    additionalStatusForcelist: set<int>,
    additionalAllowedMethods: set<string>): (r: RetryPolicy)
    ensures r.total == r.read == r.connect == retries
    ensures r.backoffFactor == backoffFactor
    ensures lib.retryAfterStatusCodes <= r.statusForcelist
    ensures additionalStatusForcelist <= r.statusForcelist
    ensures forall c :: c in r.statusForcelist ==>
              c in lib.retryAfterStatusCodes || c in additionalStatusForcelist
    ensures lib.defaultAllowedMethods <= r.allowedMethods
    ensures additionalAllowedMethods <= r.allowedMethods
    ensures forall m :: m in r.allowedMethods ==>
              m in lib.defaultAllowedMethods || m in additionalAllowedMethods
  {
    var allowedMethods := lib.defaultAllowedMethods + additionalAllowedMethods;
    var statusForcelist := lib.retryAfterStatusCodes + additionalStatusForcelist;
    RetryPolicy(retries, retries, retries, backoffFactor, statusForcelist, allowedMethods)
  }

  /** `sane_retry()` with every argument defaulted, as `requests_retry_session`
      calls it (downloader.py:119). */
  function DefaultSaneRetry(lib: RetryDefaults): (r: RetryPolicy)
    ensures r.total == r.read == r.connect == 4
    ensures r.backoffFactor == 0.1
    ensures 500 in r.statusForcelist && 502 in r.statusForcelist
    ensures 503 in r.statusForcelist && 504 in r.statusForcelist
    ensures lib.retryAfterStatusCodes <= r.statusForcelist
    ensures r.allowedMethods == lib.defaultAllowedMethods
  {
    SaneRetry(lib, DefaultRetries, DefaultBackoffFactor,
              DefaultAdditionalStatusForcelist, DefaultAdditionalAllowedMethods)
  }

  /** Widening the caller's sets never removes a status code or a method. */
  lemma SaneRetryMonotone(
    lib: RetryDefaults, retries: int, backoffFactor: real,
    status1: set<int>, status2: set<int>, methods1: set<string>, methods2: set<string>)
    requires status1 <= status2 && methods1 <= methods2
    ensures SaneRetry(lib, retries, backoffFactor, status1, methods1).statusForcelist
         <= SaneRetry(lib, retries, backoffFactor, status2, methods2).statusForcelist
    ensures SaneRetry(lib, retries, backoffFactor, status1, methods1).allowedMethods
         <= SaneRetry(lib, retries, backoffFactor, status2, methods2).allowedMethods
  {
  }

  /** Passing `additional_status_forcelist` replaces the default
      {500, 502, 503, 504} rather than adding to it: a code among those four
      that the library set lacks is then no longer retried. The only codes
      kept regardless of the argument are the library's own. */
  lemma CustomStatusForcelistDropsDefault(lib: RetryDefaults, additional: set<int>)
    requires InternalServerError !in lib.retryAfterStatusCodes
    requires InternalServerError !in additional
    ensures InternalServerError in DefaultSaneRetry(lib).statusForcelist
    ensures InternalServerError !in
      SaneRetry(lib, DefaultRetries, DefaultBackoffFactor, additional,
                DefaultAdditionalAllowedMethods).statusForcelist
  {
  }
}
