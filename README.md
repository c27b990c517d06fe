# Currency converter notification gate

A model of the scheduled job of the currency converter. Every cycle the job:

1. fetches the exchange rates for the configured source currency;
2. validates the reply;
3. reads the rate of the configured target currency;
4. decides whether to email it.

The decision reads three keys of a key-value cache: the last notified rate, the email count and the time of the last email. An email goes out only when all three of these hold:

- the rate is at or above the configured threshold;
- the rate is at least 0.20 above the cached rate, or there is no cached rate;
- `canSendEmail` allows it. It refuses when five or more emails are recorded for today's day-of-year.

On the email path the job writes all three keys and then hands the email to the mailer.

Files:

- `wrappers.dfy`: `Option` and `Result`.
- `rate_response.dfy`: the parsed reply, the validation and the rate read.
- `notification_gate.dfy`: the cache as a value (`Store`), `canSendEmail`, the gate `Decide`, and the gate with a daily reset (see Findings).
- `cycles.dfy`: one cycle as a function (`Cycle`), a sequence of cycles (`Run`), and the lemmas about many cycles.
- `converter.dfy`: the cache as an object updated in place, and the job's `ProcessCycle`. `ProcessCycle` is proved equal to `Cycle`. The job's invariant `Valid()` says that its cache and its record of emails are those of `Run` over all the cycles so far. The lemmas about `Run` therefore hold of the object's whole history, and, through `RunConcat`, of any stretch of it such as one day's cycles.
- `scenarios.dfy`: worked cases.

The model follows the code where it departs from the evident design:

- The count is never reset on a new day. Only `canSendEmail` ignores a count stored on an earlier day-of-year.
- A missing timestamp counts as today. A missing count counts as 0.
- The cap of 5 and the minimum rise of 0.20 are constants in the code, not configuration.
- Validation checks for the key "INR", not for the configured target currency.
- The `base` check compares Java references with `!=`. A freshly parsed string is never the configured object, so in practice the check only asks that `base` is present. The model turns the comparison into a boolean field of the reply, `baseIsConfiguredObject`. It is not string equality.
- Days are compared by day-of-year alone. The same day-of-year in another year counts as the same day.
- The two exceptions the cycle itself throws after the fetch (failed validation, missing target rate) become the outcome `Aborted`. In both cases the cache is neither read nor written.

## Model

| member | source | states |
|---|---|---|
| RateResponse.EmptyResponse | src/main/java/com/hari/currencyconverter/job/CurrencyConverter.java:126-161 | the empty object that the fetch returns after a URL or I/O failure never passes validation |
| RateResponse.Validate | src/main/java/com/hari/currencyconverter/job/CurrencyConverter.java:110-123 | validation passes iff `base` is present and is not the configured object, and `rates` is present with an "INR" entry |
| RateResponse.FreshReplyValidation | src/main/java/com/hari/currencyconverter/job/CurrencyConverter.java:112-118 | for a freshly parsed reply, validation passes iff `base` is present and `rates` has "INR"; the base value plays no part |
| RateResponse.ReadRate | src/main/java/com/hari/currencyconverter/job/CurrencyConverter.java:61-67 | a failed validation aborts first; otherwise the read succeeds iff `rates` has the target currency, and yields that entry; with target "INR" a validated reply always yields a rate |
| RateResponse.ValidatedReplyCanLackTarget | src/main/java/com/hari/currencyconverter/job/CurrencyConverter.java:117-118 | for any target other than "INR", a reply can pass validation and still abort on the rate read |
| NotificationGate.CanSendEmail | src/main/java/com/hari/currencyconverter/job/CurrencyConverter.java:97-107 | an absent count always allows; a timestamp on another day-of-year always allows; with the timestamp absent or on today's day-of-year, it allows iff the count is absent or below 5 |
| NotificationGate.Decide | src/main/java/com/hari/currencyconverter/job/CurrencyConverter.java:76-94 | below the threshold, or less than 0.20 above a cached rate: skip; it notifies iff threshold, rise and `canSendEmail` all pass; a notification writes the rate, the old count (absent as 0) plus one, and now; it keeps the count non-negative |
| NotificationGate.DecideWithDailyReset | src/main/java/com/hari/currencyconverter/job/CurrencyConverter.java:84-90 | corrected gate: it notifies iff threshold, rise and today's count below 5 all pass; the count written is today's count plus one, so it is at most 5, and at least 1 from a store with a non-negative count |
| NotificationGate.DailyResetAgreesOnSameDay | src/main/java/com/hari/currencyconverter/job/CurrencyConverter.java:97-106 | the corrected gate and the code's gate decide alike whenever the last email, if any, was on today's day-of-year |
| NotificationGate.DailyResetRestartsCount | src/main/java/com/hari/currencyconverter/job/CurrencyConverter.java:84-90 | with the daily reset, the first qualifying rate on a new day-of-year is emailed, and the count restarts at 1 |
| Cycles.Cycle | src/main/java/com/hari/currencyconverter/job/CurrencyConverter.java:55-94 | a cycle aborts iff the rate read fails, and a failed validation aborts with the cache untouched; it emails iff the rate is read, is at or above the threshold, has risen enough and passes `canSendEmail`; without an email the cache is unchanged; with one, the emailed rate is the target's rate and all three keys hold the new values |
| Cycles.Run | src/main/java/com/hari/currencyconverter/job/CurrencyConverter.java:84-90 | over any sequence of cycles, the stored count grows by exactly one per email and is never reset; with no email the cache is unchanged; after emails the cached rate is the last one emailed |
| Cycles.RunAppend | src/main/java/com/hari/currencyconverter/job/CurrencyConverter.java:54-55 | running one more scheduled cycle extends the history by exactly that cycle's effect |
| Cycles.RunConcat | src/main/java/com/hari/currencyconverter/job/CurrencyConverter.java:54-55 | running two sequences of cycles in a row equals running the second from the cache the first left, with the emails of both in order; so the per-day lemmas apply to any stretch of a longer run, such as today's cycles |
| Cycles.EmailedRatesRise | src/main/java/com/hari/currencyconverter/job/CurrencyConverter.java:76-82 | every emailed rate is at or above the threshold; the first is at least 0.20 above the cached rate; each later one is at least 0.20 above the previous email |
| Cycles.EmailsWithinDayBudget | src/main/java/com/hari/currencyconverter/job/CurrencyConverter.java:84-106 | cycles that share one day-of-year send no more emails than that day's remaining budget allows, given the cached count and day |
| Cycles.AtMostFivePerDay | src/main/java/com/hari/currencyconverter/job/CurrencyConverter.java:72-106 | starting from a non-negative count, cycles on one day-of-year send at most 5 emails |
| Cycles.AtMostOnePerDayOnceCountReachesFour | src/main/java/com/hari/currencyconverter/job/CurrencyConverter.java:84-89 | once the stored count is 4 or more, cycles on any one day-of-year send at most 1 email |
| Scenarios.FirstQualifyingRateNotifies | src/main/java/com/hari/currencyconverter/job/CurrencyConverter.java:76-92 | on an empty cache, a rate of 82.5 against threshold 80 is emailed and stored with count 1 |
| Scenarios.RiseBelowAndAboveMinimum | src/main/java/com/hari/currencyconverter/job/CurrencyConverter.java:82 | against a cached 82.5, a rate of 82.6 is skipped with the cache unchanged; 82.75 is emailed and the count becomes 2 |
| Scenarios.CapReachedToday | src/main/java/com/hari/currencyconverter/job/CurrencyConverter.java:102-104 | with 5 emails recorded today, a qualifying rate is skipped |
| Scenarios.CountCarriesOverFromYesterday | src/main/java/com/hari/currencyconverter/job/CurrencyConverter.java:84-89 | with 5 emails recorded yesterday, today's first qualifying rate is emailed with count 6, and the next qualifying rate today is skipped |
| Scenarios.DailyResetAllowsSecondEmail | src/main/java/com/hari/currencyconverter/job/CurrencyConverter.java:84-89 | with the daily reset, the same two rates are both emailed, with counts 1 and 2 |
| Scenarios.SameDayOfYearOtherYear | src/main/java/com/hari/currencyconverter/job/CurrencyConverter.java:102 | 5 emails recorded on the same day-of-year of the previous year block a qualifying rate |
| Scenarios.MissingRatesAborts | src/main/java/com/hari/currencyconverter/job/CurrencyConverter.java:117-120 | a reply without `rates` aborts the cycle and leaves the cache as it was |
| Converter.NotificationCache.constructor | src/main/java/com/hari/currencyconverter/job/CurrencyConverter.java:78-80 | a new cache has none of the three keys set |
| Converter.CurrencyConverter.constructor | src/main/java/com/hari/currencyconverter/job/CurrencyConverter.java:36-51 | the job keeps its target currency, threshold and cache; the cache may already hold keys; it has run no cycle and sent no email |
| Converter.CurrencyConverter.ProcessCycle | src/main/java/com/hari/currencyconverter/job/CurrencyConverter.java:55-94 | one cycle updates the cache in place exactly as `Cycle` says; it appends an email iff it notifies; it keeps the invariant that ties the job to `Run` |

## Left out

- Fetching the rates over HTTP (URL building, status codes, connection handling) is left out. A reply is an input. A malformed URL or an I/O failure is caught and gives `EmptyResponse`, which fails validation. A status other than 200 and an empty or unparsable body throw out of the fetch before validation runs; those cycles end with the cache untouched and no email, like any reply that fails validation, but the model has no separate outcome for them.
- JSON parsing is left out. A field of the wrong JSON type (a non-string `base`, a non-object `rates`, a non-numeric rate) throws a JSONException, which also aborts the cycle before the cache is touched. The model assumes well-typed fields.
- The email is recorded only as the emailed rate, in the ghost sequence `emails`. The message text, its number formatting and the mail transport are left out. The mailer swallows its own failures, so an email that fails to send still leaves the cache written.
- The cron schedule is left out. Cycles that overlap, and race on the cache, are not modelled: cycles run one after another.
- The memcached client is replaced by three fields. Eviction and values of a foreign type in the keys (a failed cast) are not modelled.
- Rates are exact reals. The IEEE rounding of `cached + 0.20` and the NaN and negative-zero behaviour of `Double.compare` are not modelled.
- The clock is a parameter `now`, read once per cycle. The code reads it up to three times, and the readings can straddle midnight.
- The email count is an unbounded integer. The Java `int` could wrap, but only after about 2^31 emails.
- The configured source currency is not modelled. It appears only in the request URL, the message text and the reference comparison, and that comparison is the boolean `baseIsConfiguredObject`.

## Findings

| source | as written | input that shows it | evidently intended | confidence | as-written member | corrected member |
|---|---|---|---|---|---|---|
| src/main/java/com/hari/currencyconverter/job/CurrencyConverter.java:84-89 | the count written is the stored count plus one, even when the stored count is from an earlier day-of-year | 5 emails recorded on day 99; rates 83.0 then 84.0 (cached 82.5, threshold 80) on day 100 | each day-of-year starts from a count of 0 and allows up to 5 emails | high, not executed | Scenarios.CountCarriesOverFromYesterday | NotificationGate.DecideWithDailyReset |

`canSendEmail` ignores a count stored on an earlier day-of-year, so the cap is meant to be per day. As written, though, the first email of a new day stores 6, and the cap then blocks the rest of that day. `Cycles.AtMostOnePerDayOnceCountReachesFour` shows the general case: once the count reaches 4, every later day-of-year allows at most one email.

`NotificationGate.DecideWithDailyReset` is the corrected gate. It is proved to keep the stored count at most 5 (and at least 1, from a store with a non-negative count), and to restart the count on a new day. `Scenarios.DailyResetAllowsSecondEmail` runs it on the same input. The job model `Converter.CurrencyConverter.ProcessCycle` keeps the code's behaviour.
