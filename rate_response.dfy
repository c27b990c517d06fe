/**
 * The parsed reply of the exchange-rate API and the two checks a cycle makes on it
 * before any cache access: validateJsonResponse and the read of the configured
 * target currency's rate.
 */
module RateResponse {
  import opened Wrappers

  /**
   * The JSON object returned by the API, reduced to what the cycle reads.
   * `base` and `rates` are absent when the object has no such key.
   * `baseIsConfiguredObject` records the outcome of the Java reference comparison
   * `getString("base") != fromCurrency`: it is true only when the parsed string is the
   * very object that holds the configured source currency, which a freshly parsed
   * reply never is. It is not string equality.
   */
  datatype Response = Response(
    base: Option<string>,
    baseIsConfiguredObject: bool,
    rates: Option<map<string, real>>)

  /** The currency whose presence validation checks, whatever the configured target is. */
  const ValidatedCurrency: string := "INR"

  /** Why a cycle stops with an exception before touching the cache. */
  datatype Abort =
    | ValidationFailed  // the RuntimeException thrown when validation fails
    | RateMissing       // the JSONException thrown when `rates` lacks the target currency

  /** The reply object the fetch hands back when the connection or the URL fails: an empty object. */
  function EmptyResponse(): (r: Response)
    ensures !Validate(r)
  {
    Response(None, false, None)
  }

  /** The validation of a reply: `base` present (and not the configured object), `rates` present with "INR". */
  function Validate(resp: Response): (ok: bool)
    ensures ok <==> resp.base.Some? && !resp.baseIsConfiguredObject
                    && resp.rates.Some? && ValidatedCurrency in resp.rates.value
  {
    if !(resp.base.Some? && !resp.baseIsConfiguredObject) then false
    else if !(resp.rates.Some? && ValidatedCurrency in resp.rates.value) then false
    else true
  }

  /**
   * What a cycle obtains from a reply: the rate of `toCurrency`, or the reason the cycle
   * aborts. Validation comes first; the rate read can still fail afterwards because
   * validation looks at "INR" and not at `toCurrency`.
   */
  function ReadRate(resp: Response, toCurrency: string): (r: Result<real, Abort>)
    ensures !Validate(resp) ==> r == Err(ValidationFailed)
    ensures r.Ok? <==> Validate(resp) && toCurrency in resp.rates.value
    ensures r.Ok? ==> r.value == resp.rates.value[toCurrency]
    ensures Validate(resp) && toCurrency == ValidatedCurrency ==> r.Ok?
  {
    if !Validate(resp) then Err(ValidationFailed)
    else if toCurrency !in resp.rates.value then Err(RateMissing)
    else Ok(resp.rates.value[toCurrency])
  }

  /** A freshly parsed reply passes validation exactly when it has a base and an "INR" rate. */
  lemma FreshReplyValidation(base: Option<string>, rates: Option<map<string, real>>)
    ensures Validate(Response(base, false, rates))
            <==> base.Some? && rates.Some? && ValidatedCurrency in rates.value
  {
  }

  /**
   * For any target other than "INR", validation does not guarantee the rate read:
   * a reply carrying only an "INR" rate passes validation and then aborts.
   */
  lemma ValidatedReplyCanLackTarget(toCurrency: string)
    requires toCurrency != ValidatedCurrency
    ensures var resp := Response(Some("USD"), false, Some(map[ValidatedCurrency := 1.0]));
            Validate(resp) && ReadRate(resp, toCurrency) == Err(RateMissing)
  {
  }
}
