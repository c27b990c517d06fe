/**
 * The scheduled job as an object: a key-value cache updated in place and a job whose
 * processCurrencies runs one cycle against it. Each cycle is proved to do exactly what
 * Cycles.Cycle says, and the job's invariant ties everything it has done to
 * Cycles.Run, so the lemmas about Run hold of the object.
 */
module Converter {
  import opened Wrappers
  import opened RateResponse
  import opened NotificationGate
  import opened Cycles

  /** The three cache entries the job uses; their time-to-live is "never expire". */
  class NotificationCache {
    var conversion: Option<real>
    var emailSentCount: Option<int>
    var emailSentTime: Option<DateTime>

    /** The cache contents as a value. */
    function Snapshot(): Store
      reads this
    {
      Store(conversion, emailSentCount, emailSentTime)
    }

    /** A cache with none of the three keys set. */
    constructor ()
      ensures Snapshot() == EmptyStore
    {
      conversion, emailSentCount, emailSentTime := None, None, None;
    }
  }

  class CurrencyConverter {
    const toCurrency: string
    const emailThreshold: real
    const cache: NotificationCache

    /** The cache contents when the job started, every cycle run since, and every email handed to the mailer. */
    ghost const start: Store
    ghost var ticks: seq<Tick>
    ghost var emails: seq<real>

    /** Everything the job has done is the run of its cycles from the starting cache. */
    ghost predicate Valid()
      reads this, cache
    {
      Run(start, ticks, emailThreshold, toCurrency) == History(cache.Snapshot(), emails)
    }

    /** A job over a cache that may already hold keys from earlier runs of the process. */
    constructor (toCurrency: string, emailThreshold: real, cache: NotificationCache)
      ensures this.toCurrency == toCurrency && this.emailThreshold == emailThreshold && this.cache == cache
      ensures start == cache.Snapshot() && ticks == [] && emails == []
      ensures Valid()
    {
      this.toCurrency := toCurrency;
      this.emailThreshold := emailThreshold;
      this.cache := cache;
      start := cache.Snapshot();
      ticks := [];
      emails := [];
    }

    /**
     * processCurrencies: one cycle on the reply `resp` at local time `now`. The two
     * exceptions become an Aborted outcome. On the email path the three keys are
     * written before the email is handed over.
     */
    method ProcessCycle(resp: Response, now: DateTime) returns (outcome: Outcome)
      requires Valid()
      modifies this, cache
      ensures Valid()
      ensures Step(outcome, cache.Snapshot())
              == Cycle(old(cache.Snapshot()), resp, now, emailThreshold, toCurrency)
      ensures ticks == old(ticks) + [Tick(resp, now)]
      ensures emails == old(emails) + Emailed(outcome)
    {
      RunAppend(start, ticks, Tick(resp, now), emailThreshold, toCurrency);
      ticks := ticks + [Tick(resp, now)];
      if !Validate(resp) {
        return Aborted(ValidationFailed);
      }
      if toCurrency !in resp.rates.value {
        return Aborted(RateMissing);
      }
      var currentConversionValue := resp.rates.value[toCurrency];
      outcome := Skipped;
      if currentConversionValue >= emailThreshold {
        var conversionValueInCache := cache.conversion;
        var emailSentCountObj := cache.emailSentCount;
        var previousEmailSentAtObj := cache.emailSentTime;
        if conversionValueInCache.None? || currentConversionValue >= conversionValueInCache.value + MinRise {
          var emailSentCount := if emailSentCountObj.None? then 0 else emailSentCountObj.value;
          if CanSendEmail(previousEmailSentAtObj, emailSentCountObj, now) {
            cache.conversion := Some(currentConversionValue);
            cache.emailSentCount := Some(emailSentCount + 1);
            cache.emailSentTime := Some(now);
            emails := emails + [currentConversionValue];
            outcome := Notified(currentConversionValue);
          }
        }
      }
    }
  }
}
