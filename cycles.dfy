/**
 * One scheduled cycle as a function of the cache contents and the API reply, and a
 * sequence of cycles as a history of emails. The properties the gate promises over
 * many cycles (rates at least 0.20 apart, at most five emails per day-of-year, a
 * count that only grows) are lemmas about these functions.
 */
module Cycles {
  import opened Wrappers
  import opened RateResponse
  import opened NotificationGate

  /** How a cycle ends: aborted by an exception, no email, or an email reporting `rate`. */
  datatype Outcome = Aborted(reason: Abort) | Skipped | Notified(rate: real)

  /** The outcome of one cycle together with the cache contents after it. */
  datatype Step = Step(outcome: Outcome, store: Store)

  /** One firing of the scheduler: the reply the fetch produced and the local time. */
  datatype Tick = Tick(resp: Response, now: DateTime)

  /** The cache after a sequence of cycles, and the rates of the emails sent on the way, in order. */
  datatype History = History(store: Store, emails: seq<real>)

  /**
   * One cycle. A reply that fails validation, or lacks the target rate, aborts before
   * the cache is read. Otherwise the gate decides; only a notification writes the cache,
   * and it writes all three keys.
   */
  function Cycle(s: Store, resp: Response, now: DateTime, threshold: real, toCurrency: string): (st: Step)
    ensures st.outcome.Aborted? <==> ReadRate(resp, toCurrency).Err?
    ensures st.outcome.Notified? <==>
              && ReadRate(resp, toCurrency).Ok?
              && ReadRate(resp, toCurrency).value >= threshold
              && RisenEnough(ReadRate(resp, toCurrency).value, s.lastRate)
              && CanSendEmail(s.sentAt, s.sentCount, now)
    ensures !Validate(resp) ==> st == Step(Aborted(ValidationFailed), s)
    ensures !st.outcome.Notified? ==> st.store == s
    ensures st.outcome.Notified? ==>
              && st.outcome.rate == resp.rates.value[toCurrency]
              && st.outcome.rate >= threshold
              && RisenEnough(st.outcome.rate, s.lastRate)
              && CanSendEmail(s.sentAt, s.sentCount, now)
              && st.store == Store(Some(st.outcome.rate), Some(CountOrZero(s.sentCount) + 1), Some(now))
  {
    match ReadRate(resp, toCurrency)
    case Err(reason) => Step(Aborted(reason), s)
    case Ok(rate) =>
      match Decide(s, rate, threshold, now)
      case Skip => Step(Skipped, s)
      case Notify(next) => Step(Notified(rate), next)
  }

  /** The rates emailed by one cycle: none, or the one it reports. */
  function Emailed(o: Outcome): seq<real>
  {
    if o.Notified? then [o.rate] else []
  }

  /**
   * A sequence of cycles from cache contents `s`. The stored count ends exactly one
   * higher per email: it is never reset. With no email the cache is as it was, and
   * after an email the cached rate is the last one emailed.
   */
  function Run(s: Store, ticks: seq<Tick>, threshold: real, toCurrency: string): (h: History)
    ensures CountOrZero(h.store.sentCount) == CountOrZero(s.sentCount) + |h.emails|
    ensures h.emails == [] ==> h.store == s
    ensures h.emails != [] ==> h.store.lastRate == Some(h.emails[|h.emails| - 1])
    ensures WellFormed(s) ==> WellFormed(h.store)
    decreases |ticks|
  {
    if ticks == [] then History(s, [])
    else
      var st := Cycle(s, ticks[0].resp, ticks[0].now, threshold, toCurrency);
      var rest := Run(st.store, ticks[1..], threshold, toCurrency);
      History(rest.store, Emailed(st.outcome) + rest.emails)
  }

  /** Running one more cycle after a sequence extends the history by that cycle. */
  lemma {:induction false} RunAppend(s: Store, ticks: seq<Tick>, t: Tick, threshold: real, toCurrency: string)
    ensures var h := Run(s, ticks, threshold, toCurrency);
            var st := Cycle(h.store, t.resp, t.now, threshold, toCurrency);
            Run(s, ticks + [t], threshold, toCurrency) == History(st.store, h.emails + Emailed(st.outcome))
    decreases |ticks|
  {
    if ticks == [] {
      assert ticks + [t] == [t];
    } else {
      var st0 := Cycle(s, ticks[0].resp, ticks[0].now, threshold, toCurrency);
      assert (ticks + [t])[1..] == ticks[1..] + [t];
      RunAppend(st0.store, ticks[1..], t, threshold, toCurrency);
    }
  }

  /** A non-empty sequence of cycles is its first cycle followed by the run of the rest. */
  lemma RunUnfold(s: Store, ticks: seq<Tick>, threshold: real, toCurrency: string)
    requires ticks != []
    ensures var st := Cycle(s, ticks[0].resp, ticks[0].now, threshold, toCurrency);
            var rest := Run(st.store, ticks[1..], threshold, toCurrency);
            Run(s, ticks, threshold, toCurrency) == History(rest.store, Emailed(st.outcome) + rest.emails)
  {
  }

  /** Running `a + b` for a non-empty `a` is the first cycle of `a` followed by the run of the rest of `a`, then `b`. */
  lemma RunUnfoldConcat(s: Store, a: seq<Tick>, b: seq<Tick>, threshold: real, toCurrency: string)
    requires a != []
    ensures var st := Cycle(s, a[0].resp, a[0].now, threshold, toCurrency);
            var rest := Run(st.store, a[1..] + b, threshold, toCurrency);
            Run(s, a + b, threshold, toCurrency) == History(rest.store, Emailed(st.outcome) + rest.emails)
  {
    assert (a + b)[0] == a[0] && (a + b)[1..] == a[1..] + b;
    RunUnfold(s, a + b, threshold, toCurrency);
  }

  /** How the histories of a first cycle, the rest of `a`, and `b` fit together; a step of RunConcat. */
  lemma JoinHistories(whole: History, ha: History, tail: History, rest: History, hb: History, e: seq<real>)
    requires whole == History(rest.store, e + rest.emails)
    requires ha == History(tail.store, e + tail.emails)
    requires rest == History(hb.store, tail.emails + hb.emails)
    ensures whole == History(hb.store, ha.emails + hb.emails)
  {
    assert e + (tail.emails + hb.emails) == (e + tail.emails) + hb.emails;
  }

  /** Running two sequences of cycles one after the other is running the first, then the second from where it left the cache. */
  lemma {:induction false} RunConcat(s: Store, a: seq<Tick>, b: seq<Tick>, threshold: real, toCurrency: string)
    ensures var ha := Run(s, a, threshold, toCurrency);
            var hb := Run(ha.store, b, threshold, toCurrency);
            Run(s, a + b, threshold, toCurrency) == History(hb.store, ha.emails + hb.emails)
    decreases |a|
  {
    if a == [] {
      assert a + b == b;
    } else {
      var st := Cycle(s, a[0].resp, a[0].now, threshold, toCurrency);
      var tail := Run(st.store, a[1..], threshold, toCurrency);
      var hb := Run(tail.store, b, threshold, toCurrency);
      var rest := Run(st.store, a[1..] + b, threshold, toCurrency);
      var e := Emailed(st.outcome);
      RunUnfold(s, a, threshold, toCurrency);
      RunUnfoldConcat(s, a, b, threshold, toCurrency);
      RunConcat(st.store, a[1..], b, threshold, toCurrency);
      JoinHistories(Run(s, a + b, threshold, toCurrency), Run(s, a, threshold, toCurrency), tail, rest, hb, e);
    }
  }

  /**
   * Every emailed rate is at or above the threshold, the first is at least 0.20 above
   * the cached rate (when there is one), and each later one is at least 0.20 above the
   * one before.
   */
  lemma {:induction false} EmailedRatesRise(s: Store, ticks: seq<Tick>, threshold: real, toCurrency: string)
    ensures var e := Run(s, ticks, threshold, toCurrency).emails;
            && (forall i :: 0 <= i < |e| ==> e[i] >= threshold)
            && (e != [] ==> RisenEnough(e[0], s.lastRate))
            && (forall i :: 0 < i < |e| ==> e[i] >= e[i - 1] + MinRise)
    decreases |ticks|
  {
    if ticks != [] {
      var st := Cycle(s, ticks[0].resp, ticks[0].now, threshold, toCurrency);
      var rest := Run(st.store, ticks[1..], threshold, toCurrency);
      EmailedRatesRise(st.store, ticks[1..], threshold, toCurrency);
      var e := Emailed(st.outcome) + rest.emails;
      if st.outcome.Notified? && rest.emails != [] {
        assert st.store.lastRate == Some(st.outcome.rate);
        forall i | 0 < i < |e| ensures e[i] >= e[i - 1] + MinRise {
          if i > 1 {
            assert e[i] == rest.emails[i - 1] && e[i - 1] == rest.emails[i - 2];
          }
        }
      }
    }
  }

  /** The number of emails cycles on day-of-year `day` can still send from cache contents `s`. */
  function DayBudget(s: Store, day: int): nat
  {
    var c := CountOrZero(s.sentCount);
    if s.sentAt.Some? && s.sentAt.value.dayOfYear != day then
      1 + (if MaxEmailsPerDay - 1 - c > 0 then MaxEmailsPerDay - 1 - c else 0)
    else if MaxEmailsPerDay - c > 0 then MaxEmailsPerDay - c else 0
  }

  /** Cycles that all fall on one day-of-year send no more emails than the day's budget. */
  lemma {:induction false} EmailsWithinDayBudget(s: Store, ticks: seq<Tick>, threshold: real, toCurrency: string, day: int)
    requires forall i :: 0 <= i < |ticks| ==> ticks[i].now.dayOfYear == day
    ensures |Run(s, ticks, threshold, toCurrency).emails| <= DayBudget(s, day)
    decreases |ticks|
  {
    if ticks != [] {
      var st := Cycle(s, ticks[0].resp, ticks[0].now, threshold, toCurrency);
      assert forall i :: 0 <= i < |ticks[1..]| ==> ticks[1..][i] == ticks[i + 1];
      EmailsWithinDayBudget(st.store, ticks[1..], threshold, toCurrency, day);
      if st.outcome.Notified? {
        assert ticks[0].now.dayOfYear == day;
        assert DayBudget(st.store, day) + 1 <= DayBudget(s, day);
      }
    }
  }

  /** The cap holds as written: cycles on one day-of-year send at most five emails. */
  lemma AtMostFivePerDay(s: Store, ticks: seq<Tick>, threshold: real, toCurrency: string, day: int)
    requires WellFormed(s)
    requires forall i :: 0 <= i < |ticks| ==> ticks[i].now.dayOfYear == day
    ensures |Run(s, ticks, threshold, toCurrency).emails| <= MaxEmailsPerDay
  {
    EmailsWithinDayBudget(s, ticks, threshold, toCurrency, day);
  }

  /**
   * Because the count is never reset, once it has reached four every later
   * day-of-year allows at most one email, instead of five.
   */
  lemma AtMostOnePerDayOnceCountReachesFour(s: Store, ticks: seq<Tick>, threshold: real, toCurrency: string, day: int)
    requires CountOrZero(s.sentCount) >= MaxEmailsPerDay - 1
    requires forall i :: 0 <= i < |ticks| ==> ticks[i].now.dayOfYear == day
    ensures |Run(s, ticks, threshold, toCurrency).emails| <= 1
  {
    EmailsWithinDayBudget(s, ticks, threshold, toCurrency, day);
  }
}
