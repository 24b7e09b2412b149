/** Upstream replies, the API errors they turn into, and the classification that decides whether a walk goes on. */
module Errors {
  import opened Prelude

  const TYPE_RATE_LIMITED := "rate_limit_exceeded"
  const TYPE_BAD_REQUEST := "bad_request"
  const TYPE_UPSTREAM := "upstream_error"
  const TYPE_UPSTREAM_TIMEOUT := "upstream_timeout"

  datatype Source = CallerFault | SourceUpstream

  datatype ApiError = ApiError(status: int, typ: string, source: Source)

  /** A refusal by this proxy's own quota, or any other failure. */
  datatype Error = Quota(e: ApiError) | Api(e: ApiError)

  /** Token counts reported by a provider. Zero means nothing was reported. */
  datatype CallUsage = CallUsage(total: nat, cached: nat)

  /** What one upstream call comes back with. */
  datatype Reply =
    | Ok(usage: CallUsage)
    | EndpointError(status: int, mentionsContentFilter: bool)
    | DeadlineExceeded
    | TransportFault
    | MissingFile

  function RateLimited(): ApiError { ApiError(429, TYPE_RATE_LIMITED, CallerFault) }

  /** Maps a status and body onto an error type (usage.go:66-86). */
  function Classify(status: int, mentionsContentFilter: bool): string {
    if status == 429 then "rate_limit"
    else if status == 401 then "invalid_key"
    else if status == 402 then "quota_exceeded"
    else if status == 503 then "model_overloaded"
    else if status == 504 then "timeout"
    else if mentionsContentFilter then "content_filter"
    else if status >= 500 then "upstream_error"
    else "unknown"
  }

  /** The API error a failed call is reported as. A status below 400 becomes a bad gateway. */
  function UpstreamError(r: Reply): ApiError
    requires !r.Ok?
  {
    match r
    case EndpointError(status, filtered) =>
      var status' := if status < 400 then 502 else status;
      ApiError(status', Classify(status', filtered), SourceUpstream)
    case DeadlineExceeded => ApiError(504, TYPE_UPSTREAM_TIMEOUT, SourceUpstream)
    case TransportFault => ApiError(502, TYPE_UPSTREAM, SourceUpstream)
    case MissingFile => ApiError(400, TYPE_BAD_REQUEST, CallerFault)
  }

  /** The error is the caller's to fix. */
  predicate IsTerminal(e: ApiError) { e.status != 429 && 400 <= e.status < 500 }

  /** A limit the caller exhausted at this proxy, not the provider's own wall. */
  predicate IsClientRejection(e: ApiError) { e.typ == TYPE_RATE_LIMITED && e.source != SourceUpstream }

  /** Another try on the same slot could succeed. */
  predicate RetryableUpstream(e: ApiError) { e.status == 429 || e.status >= 500 }

  /** A failed reply stops the walk exactly when the provider answered a 4xx other than 429, or the request lacked its
      file. It never counts as a client rejection, and every reply that does not stop the walk may be retried. */
  lemma StopsWalkIff(r: Reply)
    requires !r.Ok?
    ensures IsTerminal(UpstreamError(r))
       <==> r.MissingFile? || (r.EndpointError? && 400 <= r.status < 500 && r.status != 429)
    ensures !IsClientRejection(UpstreamError(r))
    ensures !IsTerminal(UpstreamError(r)) <==> RetryableUpstream(UpstreamError(r))
  {
    if r.EndpointError? {
      var status := if r.status < 400 then 502 else r.status;
      var typ := Classify(status, r.mentionsContentFilter);
      assert typ[4] != TYPE_RATE_LIMITED[4] || |typ| != |TYPE_RATE_LIMITED|;
    }
  }

  /** The tokens a served call is settled at. No report means the reservation stands; cached prompt tokens are free. */
  function ActualTokens(u: CallUsage, reserved: nat): nat {
    if u.total == 0 then reserved
    else if u.cached > 0 then Max(0, u.total - u.cached)
    else u.total
  }
}
