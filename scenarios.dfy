/**
 * Worked cases of the gate with a threshold of 80.0 and freshly parsed replies
 * quoting "INR", including the one where carrying the count over from an earlier day differs from
 * a daily reset.
 */
module Scenarios {
  import opened Wrappers
  import opened RateResponse
  import opened NotificationGate
  import opened Cycles

  const Threshold: real := 80.0
  const Today := DateTime(2024, 100)
  const Yesterday := DateTime(2024, 99)

  /** A freshly parsed reply quoting `rate` for "INR". */
  function Reply(rate: real): (r: Response)
    ensures ReadRate(r, ValidatedCurrency) == Ok(rate)
  {
    Response(Some("USD"), false, Some(map[ValidatedCurrency := rate]))
  }

  /** The first qualifying rate on an empty cache is emailed and stored with count one. */
  lemma FirstQualifyingRateNotifies()
    ensures Cycle(EmptyStore, Reply(82.5), Today, Threshold, ValidatedCurrency)
            == Step(Notified(82.5), Store(Some(82.5), Some(1), Some(Today)))
  {
  }

  /** A rise of 0.10 over the cached rate is not enough; a rise of 0.25 is, and the count becomes two. */
  lemma RiseBelowAndAboveMinimum()
    ensures var s := Store(Some(82.5), Some(1), Some(Today));
            && Cycle(s, Reply(82.6), Today, Threshold, ValidatedCurrency) == Step(Skipped, s)
            && Cycle(s, Reply(82.75), Today, Threshold, ValidatedCurrency)
               == Step(Notified(82.75), Store(Some(82.75), Some(2), Some(Today)))
  {
  }

  /** Five emails already sent today block a qualifying rate. */
  lemma CapReachedToday()
    ensures var s := Store(Some(82.5), Some(5), Some(Today));
            Cycle(s, Reply(90.0), Today, Threshold, ValidatedCurrency) == Step(Skipped, s)
  {
  }

  /**
   * Five emails yesterday: as written, today's first qualifying rate is emailed but the
   * count is stored as six, so the next qualifying rate today is already blocked.
   */
  lemma CountCarriesOverFromYesterday()
    ensures var s := Store(Some(82.5), Some(5), Some(Yesterday));
            var next := Store(Some(83.0), Some(6), Some(Today));
            && Cycle(s, Reply(83.0), Today, Threshold, ValidatedCurrency) == Step(Notified(83.0), next)
            && Cycle(next, Reply(84.0), Today, Threshold, ValidatedCurrency) == Step(Skipped, next)
  {
  }

  /** With the daily reset, the same two rates are both emailed and the count goes one, two. */
  lemma DailyResetAllowsSecondEmail()
    ensures var s := Store(Some(82.5), Some(5), Some(Yesterday));
            var next := Store(Some(83.0), Some(1), Some(Today));
            && DecideWithDailyReset(s, 83.0, Threshold, Today) == Notify(next)
            && DecideWithDailyReset(next, 84.0, Threshold, Today) == Notify(Store(Some(84.0), Some(2), Some(Today)))
  {
  }

  /** The same day-of-year a year later counts as the same day: five emails then block now. */
  lemma SameDayOfYearOtherYear()
    ensures var s := Store(Some(82.5), Some(5), Some(DateTime(2023, 100)));
            Cycle(s, Reply(90.0), Today, Threshold, ValidatedCurrency) == Step(Skipped, s)
  {
  }

  /** A reply without "rates" aborts the cycle and leaves the cache as it was. */
  lemma MissingRatesAborts(s: Store)
    ensures Cycle(s, Response(Some("USD"), false, None), Today, Threshold, ValidatedCurrency)
            == Step(Aborted(ValidationFailed), s)
  {
  }
}
