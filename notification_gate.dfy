/**
 * The decision a cycle makes once it has the current rate: the threshold check, the
 * minimum rise over the cached rate, and the daily cap of canSendEmail. The cache is
 * seen here as a value, the three keys it holds.
 */
module NotificationGate {
  import opened Wrappers

  /** A local date-time, reduced to what the gate compares: the calendar day-of-year (1..366), and its year. */
  datatype DateTime = DateTime(year: int, dayOfYear: int)

  /** The three cache keys: last notified rate, email count, time of the last email. Each may be unset. */
  datatype Store = Store(lastRate: Option<real>, sentCount: Option<int>, sentAt: Option<DateTime>)

  /** The minimum rise over the cached rate before another email (20 paise). */
  const MinRise: real := 0.20

  /** The hard-coded number of emails after which canSendEmail refuses on the same day-of-year. */
  const MaxEmailsPerDay: int := 5

  /** The cache before any email was ever sent. */
  const EmptyStore := Store(None, None, None)

  /** What the gate decides: leave everything alone, or email and write the three keys. */
  datatype Decision = Skip | Notify(next: Store)

  /** A stored count as the code reads it: an unset key counts as 0. */
  function CountOrZero(count: Option<int>): int
  {
    if count.None? then 0 else count.value
  }

  /** A store whose count, when set, is not negative; the empty store is one and every write keeps it so. */
  ghost predicate WellFormed(s: Store)
  {
    s.sentCount.Some? ==> s.sentCount.value >= 0
  }

  /**
   * canSendEmail: refuses only when the last email was sent on today's day-of-year
   * (an unset time counts as today) and the stored count (unset counts as 0) is at
   * least the cap. The year is not compared.
   */
  function CanSendEmail(sentAt: Option<DateTime>, count: Option<int>, now: DateTime): (ok: bool)
    ensures count.None? ==> ok
    ensures sentAt.Some? && sentAt.value.dayOfYear != now.dayOfYear ==> ok
    ensures sentAt.None? || sentAt.value.dayOfYear == now.dayOfYear
            ==> (ok <==> count.None? || count.value < MaxEmailsPerDay)
  {
    var emailSentAt := if sentAt.None? then now else sentAt.value;
    var emailSentCount := if count.None? then 0 else count.value;
    !(emailSentAt.dayOfYear - now.dayOfYear == 0 && emailSentCount >= MaxEmailsPerDay)
  }

  /** The delta test: with a cached rate, the current rate must be at least 0.20 above it; without one it passes. */
  predicate RisenEnough(current: real, lastRate: Option<real>)
  {
    lastRate.None? || current >= lastRate.value + MinRise
  }

  /**
   * The gate as the code runs it. Below the threshold nothing happens. Otherwise, if
   * the rate has risen enough and canSendEmail allows it, the three keys are written:
   * the rate, the stored count plus one (never reset on a new day) and the time now.
   */
  function Decide(s: Store, current: real, threshold: real, now: DateTime): (d: Decision)
    ensures current < threshold ==> d == Skip
    ensures s.lastRate.Some? && current < s.lastRate.value + MinRise ==> d == Skip
    ensures d.Notify? <==> current >= threshold && RisenEnough(current, s.lastRate)
                           && CanSendEmail(s.sentAt, s.sentCount, now)
    ensures d.Notify? ==> d.next == Store(Some(current), Some(CountOrZero(s.sentCount) + 1), Some(now))
    ensures d.Notify? && WellFormed(s) ==> WellFormed(d.next)
  {
    if current >= threshold then
      if s.lastRate.None? || current >= s.lastRate.value + MinRise then
        var emailSentCount := if s.sentCount.None? then 0 else s.sentCount.value;
        if CanSendEmail(s.sentAt, s.sentCount, now) then
          Notify(Store(Some(current), Some(emailSentCount + 1), Some(now)))
        else Skip
      else Skip
    else Skip
  }

  /** The count of today's emails as a daily cap means it: a count stored on another day-of-year is 0. */
  function CountToday(s: Store, now: DateTime): (c: int)
    ensures s.sentAt.Some? && s.sentAt.value.dayOfYear != now.dayOfYear ==> c == 0
    ensures s.sentAt.None? || s.sentAt.value.dayOfYear == now.dayOfYear ==> c == CountOrZero(s.sentCount)
  {
    if s.sentAt.Some? && s.sentAt.value.dayOfYear != now.dayOfYear then 0 else CountOrZero(s.sentCount)
  }

  /**
   * The gate with the daily reset the cap evidently intends: the count written is
   * today's count plus one, so the stored count stays within the cap and a new
   * day-of-year starts again from one.
   */
  function DecideWithDailyReset(s: Store, current: real, threshold: real, now: DateTime): (d: Decision)
    ensures d.Notify? <==> current >= threshold && RisenEnough(current, s.lastRate)
                           && CountToday(s, now) < MaxEmailsPerDay
    ensures d.Notify? ==> d.next == Store(Some(current), Some(CountToday(s, now) + 1), Some(now))
    ensures d.Notify? ==> d.next.sentCount.value <= MaxEmailsPerDay
    ensures d.Notify? && WellFormed(s) ==> 1 <= d.next.sentCount.value
  {
    var today := CountToday(s, now);
    if current >= threshold && RisenEnough(current, s.lastRate) && today < MaxEmailsPerDay then
      Notify(Store(Some(current), Some(today + 1), Some(now)))
    else Skip
  }

  /** Both gates agree on every store whose last email, if any, was sent on today's day-of-year. */
  lemma DailyResetAgreesOnSameDay(s: Store, current: real, threshold: real, now: DateTime)
    requires s.sentAt.None? || s.sentAt.value.dayOfYear == now.dayOfYear
    ensures DecideWithDailyReset(s, current, threshold, now) == Decide(s, current, threshold, now)
  {
  }

  /**
   * With the daily reset, the first qualifying rate on a new day-of-year is emailed
   * and the stored count restarts at one, whatever count the earlier day left.
   */
  lemma DailyResetRestartsCount(s: Store, current: real, threshold: real, now: DateTime)
    requires s.sentAt.Some? && s.sentAt.value.dayOfYear != now.dayOfYear
    requires current >= threshold && RisenEnough(current, s.lastRate)
    ensures DecideWithDailyReset(s, current, threshold, now) == Notify(Store(Some(current), Some(1), Some(now)))
  {
  }
}
