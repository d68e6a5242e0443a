# cloudflare-dns-updater, modelled in Dafny

A dynamic-DNS client: it asks an echo service for the machine's public address and, when
that address differs from the last one it managed to publish, rewrites one `A` record at
Cloudflare. This project models its one source file, `main.go`, as pure functions:

- `Observer` — `getCurrentIP`: the echo body becomes the current address verbatim.
- `Updater` — `updateCloudflareRecord`: the guard on the four settings, the `PUT` request
  (body, URL, headers) and the verdict taken from the decoded provider reply, including the
  text of each error value.
- `Cycle` — `run`: one check-and-update cycle as a step `Run(lastIp, observation)`, the
  fold `Runs` over consecutive cycles, and a reference definition `LastConfirmed` (the
  address of the most recent successful update) that the fold is proved to track.
- `Scheduler` — `main`: the interval default, the tick period with Go's 64-bit
  wrap-around, and the event loop as a trace of actions over `Tick`/`Shutdown` events.
- `Session` — the pieces composed: cycles driven by the loop, each resolving its lookup and
  update through `Observer` and `Updater` against one configuration.

The outcome of every network exchange is an input (`Observer.Fetch`, `Updater.Exchange`),
as are the environment values (`Updater.Config`) and the parse of `INTERVAL_MINUTES`
(an `Option<Int64>`).

`time.Tick` is Go library code and is not part of this model beyond one documented fact:
it yields no channel for a period of zero or less, and the loop's receive from that
missing channel never fires. The period is `minutes * time.Minute` in nanoseconds, which
wraps around in `int64`, so which intervals tick depends on the wrap:

- from 1 to 153722867 minutes the period is exact and positive, so the ticker runs;
- from -153722867 to 0 the period is zero or negative, so after the first cycle nothing runs;
- from 153722868 to 307445734 the product overflows to a negative period, so again nothing
  runs after the first cycle;
- from -307445734 to -153722868 the product wraps to a positive period between about 292
  years and about 34 seconds, so the ticker is live.

The code uses a parsed `0` or a negative value as it is, and the model follows the code.

The last adopted address starts empty (main.go:25). An empty echo body before the first
successful update therefore equals it (main.go:79): the cycle logs "no change" and attempts
no update (`Cycle.EmptyBodyBeforeFirstUpdateIsNoChange`). After an address has been adopted,
an empty body differs from it and is sent to the provider as the record content, because the
code does not validate addresses.

## Model

| member | source | states |
|---|---|---|
| Observer.CurrentIp | main.go:94-105 | a lookup succeeds exactly when the body was read, and the address is the whole body unvalidated; the two failures carry their wrapped error texts |
| Updater.UpdateRecord | main.go:107-158 | fails with the missing-settings error exactly when one of token, zone, record id or record name is empty, and then sends nothing; a marshal, build, send or decode failure returns its own wrapped error carrying the failure's cause; a PUT reaches the client exactly when construction succeeded, carrying type A, the record name, the address, TTL 1, not proxied, the bearer token, JSON content type and the zone/record URL; succeeds exactly when the decoded reply's success flag is set, whatever its errors list holds |
| Updater.Verdict | main.go:153-157 | the decoded reply's success flag alone decides; a rejection carries the reply's error list |
| Updater.RecordUrlRoundTrip | main.go:130-134 | the request URL names exactly the configured zone and record when the zone id has no '/' |
| Updater.ParseRecordUrlSound | main.go:132 | every URL of the per-record form is the one built from the zone and record it names |
| Updater.ErrorText | main.go:114-154 | the missing-settings error has its fixed text; every wrapped error's text contains its cause; a rejection's text contains every message the provider reported |
| Updater.ErrorsTextMentionsEveryMessage | main.go:154 | the `%+v` rendering of the provider's errors, after any prefix, contains every reported message |
| Cycle.Run | main.go:70-92 | a failed lookup ends the cycle without change and logs the lookup's error text; the updater runs exactly when the looked-up address differs from the adopted one; a failed update logs the updater's error text; the adopted address changes only through a successful update, and then to the looked-up address |
| Cycle.Runs | main.go:25-92 | successive runs share the adopted address, which starts empty, and each produces one log; `Cycle.FinalIsLastConfirmed` and `Cycle.EachCycleSeesLastConfirmed` characterise it |
| Cycle.FinalIsLastConfirmed | main.go:79-89 | after any sequence of cycles the adopted address is the address of the most recent successful update, or the starting one when there was none |
| Cycle.EachCycleSeesLastConfirmed | main.go:79-89 | each cycle in a history acts on the most recent successfully published address: the updater is invoked exactly when the lookup succeeded with a different address |
| Cycle.SettledStaysQuiet | main.go:79-82 | once an address is adopted, cycles that see only it (or fail to look up) never invoke the updater and keep it adopted |
| Cycle.SteadyAddressUpdatedOnce | main.go:79-89 | while the address stays the same, a successful update is followed by no further updater call; with every update succeeding the updater runs at most once |
| Cycle.FailedUpdateIsRetried | main.go:84-87 | while updates to a new address fail, every cycle seeing it invokes the updater again and the adopted address stays put |
| Cycle.FailingUpdaterNeverAdopts | main.go:84-89 | when no update succeeds the adopted address never changes and no cycle logs a success |
| Cycle.StartingAddressIsNoChange | main.go:79-82 | until the first successful update, a lookup equal to the starting address is logged as no change |
| Cycle.EmptyBodyBeforeFirstUpdateIsNoChange | main.go:25 | the adopted address starts empty, so an empty echo body before any successful update triggers no update |
| Cycle.FirstAddressAdoptedThenSkipped | main.go:70-92 | from start, a first cycle seeing an address publishes and adopts it and a second cycle seeing it again skips the updater |
| Scheduler.IntervalMinutes | main.go:45-50 | the interval is 10 when the setting does not parse and the parsed value otherwise, zero and negatives included |
| Scheduler.WrapInt64 | main.go:57 | the result is the 64-bit two's-complement value congruent to the input, and equals it when it is in range |
| Scheduler.TickPeriod | main.go:57 | the period is minutes times one minute in nanoseconds, reduced to int64 with wrap-around |
| Scheduler.PositiveIntervalTicks | main.go:57 | a positive interval that does not overflow gives a live ticker |
| Scheduler.NonPositiveIntervalNeverTicks | main.go:57 | an interval from -153722867 to 0 gives no ticker |
| Scheduler.OverflowingIntervalNeverTicks | main.go:57 | an interval from 153722868 to 307445734 wraps to the product minus 2^64, a negative period, and gives no ticker |
| Scheduler.UnderflowingIntervalTicks | main.go:57 | an interval from -307445734 to -153722868 wraps to the product plus 2^64, a positive period, and gives a live ticker |
| Scheduler.WrapBandEnds | main.go:57 | -307445734 minutes wraps to a period of 33709551616 ns (about 34 s), and 307445735 minutes to a live period of 26290448384 ns (about 26 s) |
| Scheduler.Await | main.go:59-66 | after the first cycle, one cycle per delivered tick before the first shutdown, an exit exactly when a shutdown occurs, and nothing after the exit |
| Scheduler.Loop | main.go:55-66 | the loop starts with one cycle before any tick, runs one more per tick before the first shutdown (none with a dead ticker), and exits last exactly when a shutdown occurs |
| Scheduler.ShutdownIsFinal | main.go:61-63 | events after the first shutdown change nothing |
| Session.Observe | main.go:71-87 | a cycle's lookup is the echo body when it was read, and otherwise the observer's wrapped error; the update then succeeds exactly with complete settings and a decoded reply whose success flag is set, and otherwise carries the updater's error text |
| Session.CycleAttempt | main.go:79-84 | a cycle calls the updater exactly when the echo body was read and differs from the adopted address, and any PUT it sends has that body as its content |
| Session.CycleLogsItsAttempt | main.go:79-91 | in every cycle of a process, the updater call made from the last confirmed address happens exactly when the cycle logs an invocation; its PUT content is the logged address, its verdict decides between success and failure, and a failure logs its error text |
| Session.IncompleteConfigNeverAdopts | main.go:113-115 | with a setting missing no cycle ever adopts an address and the adopted address stays empty |
| Session.DefaultIntervalCountsTicks | main.go:45-66 | with the default interval the process runs one cycle plus one per tick before the first shutdown |
| Session.NonPositiveIntervalRunsOnce | main.go:45-66 | with a parsed interval from -153722867 to 0 the process runs exactly one cycle |
| Session.OverflowingIntervalRunsOnce | main.go:45-66 | with a parsed interval from 153722868 to 307445734 the process runs exactly one cycle |
| Session.UnderflowingIntervalCountsTicks | main.go:45-66 | with a parsed interval from -307445734 to -153722868 the process runs one cycle plus one per tick before the first shutdown |
| Session.Process | main.go:42-92 | the process runs as many cycles as the loop schedules; each cycle acts as one run from the address of the most recent successful update before it, and the final adopted address is that of the last successful update |

## Left out

- HTTP GET and PUT, `http.DefaultClient`, headers on the wire and body reading: network I/O; their outcomes are the inputs `Observer.Fetch` and `Updater.Exchange`.
- JSON marshalling and decoding: the request and reply are Dafny datatypes, not bytes; marshal and decode failures are input cases.
- `godotenv.Load` and `os.Getenv`: environment I/O; the settings are the `Updater.Config` parameter.
- `strconv.Atoi`: Go library code, not part of this model; its result is the `Option<Int64>` input.
- `signal.NotifyContext`, `time.Tick` and the `select` machinery: concurrency and timers; only the resolved order of events is kept, and `select`'s random choice between two ready cases is whatever order the event sequence gives.
- Logging: no log text is produced. Each cycle's outcome is a `Cycle.Log` value: `LookupError` keeps the lookup's error text, and `UpdateFailed` keeps the address and the updater's error text. The startup warning about the interval is dropped.
- Intervals beyond 307445734 minutes either way: `Scheduler.TickPeriod` computes their wrapped period, but no lemma says for which of them the ticker is live. `Scheduler.WrapBandEnds` only shows that 307445735 minutes gives a live ticker of about 26 seconds.
- Updater.RecordUrlRoundTrip: holds only when the zone id contains no '/'; a zone id with '/' makes the URL ambiguous, and the code does no escaping.
- Session.Process: requires one sample per scheduled cycle, because each cycle's I/O outcome is an input.
