# Meterly: a verified model of metering, quotas, rate limits and exports

Meterly is a multi-tenant usage-metering service. Clients post events; every
event is recorded exactly once per idempotency key, counted into an hourly
rollup and checked against a per-metric quota, all inside one PostgreSQL
transaction per request. Around that sit a Redis token bucket, a cache in front
of the API-key verifier, two read endpoints and a CSV export. This project
models those parts in Dafny and proves what they promise, mostly over whole runs.

## The model

* **Protocol** (`Domain`, `Protocol`). A state holds the committed tables
  `events`, `usage_rollup` and `quotas`, the transactions, and a log of the
  finished ones. A transaction advances one SQL statement at a time: claim the
  idempotency key, lock the quota row or find none, read the window total in a
  second statement, reject or upsert the rollup row, commit. Each statement reads
  the tables as committed when it runs (READ COMMITTED). A statement that would
  wait for a lock is not enabled. `Abort` may strike any live transaction. A
  schedule is any sequence of enabled actions, so "every run" means every
  interleaving with every set of aborts. Quantities are integer micro-units and
  instants integer microseconds.
* **The same statements, in place** (`Database`, `Services`). Class `Db` changes
  the tables statement by statement; each method is proved to take exactly the
  protocol's step and to keep the invariant. The request handlers are statement
  sequences, proved equal to the atomic reference `Serialization.Atomic`.
* **Theorems over runs.** `Invariants`, `Serialization`, `CapSafety`,
  `CreationHazard`, `RollupView`, `Progress`, `Idempotency`, `Answers`,
  `Admission`, `Tenants`, `Conservation`, and `StaleCheck`, one run of the hazard
  in full.
* **Reads** (`TimeWindows`, `Calendar`, `CivilTime`, `Ordering`, `UsageReads`,
  `DailyUsage`, `TenantReads`). Both usage endpoints, measured against the requests
  that were answered 201, and what a tenant's reads depend on.
* **Rate limiting** (`TokenBucket`). The Lua script over a mutable key store,
  counted in thousandths of a token.
* **Export** (`ExportQuery`, `CsvText`, `DecimalText`, `Batching`,
  `ExportStream`, `UsageExport`). The clause builder, the batching loop over one
  reused buffer, cell escaping, record encoding, and an RFC 4180 (section 2)
  reader that inverts it.
* **API-key cache** (`AuthCache`). The TTL map and the guard around it, with
  concurrent requests and revocation.

## What the code does not do, and exactly when

Some statements one would like to make are false of the code. Each is replaced by a
theorem with the exact condition.

* A quota can be passed if its row is *created* while an ingest on the same key
  is in flight that found no row and so took no lock (`quotas_repo.py:105-107`).
  `CapSafety.SoundnessIsLostOnlyByCreation` shows that in this model nothing else
  breaks the books (one PostgreSQL case it does not have is under "Left out": an
  ingest queued on a row that is deleted and created again).
  `CreationHazard.CapBreaksIffCreatedUnderIngest` says when the cap then really can
  be passed, and `Serialization.SerialIffNeverOverCommitted` which runs with
  creations are still serial; `Serialization.OvertakenIsSerialIffItFits` gives a
  schedule. That no such ingest is in flight at some later moment is not enough for
  a cap theorem (`StaleCheck.NoUnlockedIngestIsNotEnough`): a check in flight may be
  out of date. `CapSafety.Sound` is a condition that is enough, and
  `CreationHazard.CapBreaksIff` the exact one.
* The export's audit record is said to hold "what was actually sent"
  (`usage_export_service.py:150-152`). If the cursor or the commit fails while a
  partial batch is in the buffer, the count includes its rows, which are never
  handed out (`Batching.CountedButNotSent`). `Batching.AuditIsRightIff` shows that
  these are the only such cases, however many rows the driver fetches at a time.
* `capped` is also set when exactly 100 000 rows matched and none was cut
  (`UsageExport.CompletedExport`).
* `Decimal.__str__` is said never to use scientific notation
  (`csv_export.py:70`). It does outside the plain range of `DecimalText.PlainIff`;
  a scale-6 total is always inside it (`DecimalText.TotalRoundTrip`).
* A denied rate-limit check stamps the bucket with its own clock. If that clock is
  behind, the refill between the two is granted twice and a later check of the same
  cost can tell (`TokenBucket.DenialIsInvisibleIffClockIsNot`).
* `Retry-After` of a rate limit is truncated to whole seconds and so is too short
  for hints above one second that are not whole seconds
  (`TokenBucket.HeaderSufficesIff`); the one-token checks at both call sites never
  get such a hint.
* Escaping is not injective on arbitrary text; `CsvText.EscapeCollisions` says
  which cells collide.

## Model

| member | source | states |
|---|---|---|
| `Serialization.Serializable` | `src/services/events_service.py:86-152` | Every interleaving of ingests, PUTs and DELETEs with aborts anywhere, in which no quota row is created under an unlocked ingest, leaves the tables and gave every answer of running the finished transactions one at a time, atomically, in the order they finished; each is logged exactly once. |
| `Serialization.FinishIsAtomic` | `src/repositories/quotas_repo.py:125-158` | While in-flight decisions are sound, the last statement of a transaction does what the whole request does at once, and every earlier statement changes no table. |
| `Serialization.SerialIffNeverOverCommitted` | `src/services/events_service.py:86-152` | Of any run, with creations anywhere: tables and answers are those of its transactions one at a time, in the order they finished, if and only if no ingest commits over the limit in force at its commit. |
| `Serialization.OvertakenIsSerialIffItFits` | `src/repositories/quotas_repo.py:105-107` | On the schedule where a PUT creates the row between an ingest's lookup and its commit, the answers are those of the commit order if and only if the ingest fits under the new limit. |
| `CapSafety.SoundnessIsLostOnlyByCreation` | `src/repositories/quotas_repo.py:93-158` | One action keeps all in-flight quota decisions of a key right if and only if it does not create the quota row under an unlocked ingest. |
| `CapSafety.AdmissionWithinLimit` | `src/services/events_service.py:105-127` | An ingest that commits while the row exists leaves its window at or below the limit then in force, adds exactly its quantity, and moves no other window. |
| `CapSafety.CapHolds` | `src/db/session.py:33-41` | From a sound state, in every run in which the row exists throughout with a limit of at most m, every window total stays at or below the larger of its starting value and m. Nothing is asked of the requests. |
| `CapSafety.CapHoldsAfterCalm` | `src/services/events_service.py:105-127` | The same after any run from the start in which no PUT created the row under an unlocked ingest, whatever other PUTs, DELETEs and aborts it held, so soundness need not be assumed. |
| `CreationHazard.CapBreaksIffCreatedUnderIngest` | `src/repositories/quotas_repo.py:105-107` | For every limit: after a PUT creates the row, further requests of valid size and some schedule can pass the cap, with the row in place and the limit never raised, if and only if an unlocked ingest on that key was in flight that had not counted yet, or whose window one more largest request would carry over the limit. |
| `CreationHazard.SmallCapBreaksIffCreatedUnderIngest` | `src/repositories/quotas_repo.py:105-107` | For limits that one request can fill, the condition is that any ingest on the key was in flight without the lock. |
| `CreationHazard.CapBreaksIff` | `src/repositories/quotas_repo.py:93-158` | In every reachable state in which the row is in force, whoever holds it: further requests of valid size and some schedule can pass the cap, with the row in place and the limit never raised, if and only if an unlocked ingest in flight has not counted yet or leaves less than one largest request of room, or a locked one was admitted on a total that has since grown so that it no longer fits. |
| `CreationHazard.OverCommitterBreaks` | `src/repositories/quotas_repo.py:140-158` | A locked ingest admitted on a total that is out of date commits over the cap in some run. |
| `StaleCheck.NoUnlockedIngestIsNotEnough` | `src/repositories/quotas_repo.py:105-107` | From empty tables a run reaches a state in which the row is in force, no ingest in flight is without the lock, and the cap can still be passed. |
| `CreationHazard.CalmCreationKeepsCap` | `src/services/events_service.py:105-127` | From a sound state no further requests and no schedule pass a cap while the row stays at or below it. |
| `CreationHazard.UnlimitedBreaks` | `src/repositories/quotas_repo.py:136-138` | An unlocked ingest that has not counted yet breaks the cap in some run: largest requests fill the window, a last one checks, the unlocked ingest commits, the last one commits. |
| `CreationHazard.CountedBreaks` | `src/repositories/quotas_repo.py:136-138` | An unlocked ingest that has counted holds its window, so it can be overtaken by one check only; that breaks the cap if one more largest request carries the window over the limit. |
| `CreationHazard.TameKeepsCap` | `src/services/events_service.py:105-127` | If every locked ingest in flight still fits or is about to be rejected, and every unlocked one has counted and leaves room for one largest request, no further requests and no schedule pass the cap. |
| `Invariants.RunKeepsInv` | `src/services/events_service.py:86-152` | In every reachable state unique keys, quota rows and rollup rows have one holder each, what each transaction has read or prepared still agrees with the tables, and no idempotency key is stored twice. |
| `Invariants.StepKeepsInv` | `src/services/events_service.py:86-152` | One statement of one transaction keeps that invariant for all of them. |
| `Invariants.LocksStayExclusive` | `src/repositories/quotas_repo.py:125-135` | A transaction whose next statement does not wait stays compatible with every other lock holder after it. |
| `RollupView.ViewMaintained` | `src/repositories/events_repo.py:117-131` | In every reachable state the rollup equals, key for key, the GROUP BY of the committed events: no update is lost, aborted and rejected ingests leave no trace. |
| `RollupView.UpsertMaintainsView` | `src/repositories/events_repo.py:117-131` | The upsert of one row turns the aggregate of a table into the aggregate of the table with one more event. |
| `RollupView.RollupTable.Upgrade` | `alembic/versions/0002_create_usage_rollup_backfill.py:30-63` | One pass over the events, adding each to its group, leaves for every group its sum and its count. |
| `RollupView.RollupTable.Downgrade` | `alembic/versions/0002_create_usage_rollup_backfill.py:76-79` | Only the derived table is dropped. |
| `RollupView.RollupTable.DownThenUp` | `alembic/versions/0002_create_usage_rollup_backfill.py:76-79` | After any run of the service, dropping the rollup and deriving it again from the committed events is the identity. |
| `RollupView.TotalsFitTheColumn` | `alembic/versions/0002_create_usage_rollup_backfill.py:46-47` | In every reachable state a total lies between its count and 10^18 micro-units times its count, so it fits Numeric(38,6) for every BIGINT count. |
| `RollupView.GroupBounds` | `src/api/schemas/events.py:18` | The sum of a group of schema-valid quantities is bounded by its count from both sides. |
| `Progress.WaitsForLaterPhase` | `src/services/events_service.py:86-152` | A transaction waits only for one that is strictly further along the fixed lock order. |
| `Progress.WaitsExactly` | `src/repositories/quotas_repo.py:125-135` | Exactly which statement waits for which transaction: an insert for a claimed token of the tenant, a PUT, and a lookup or DELETE that finds a row, for a holder of that row, a count for one that has counted into the same hour; a lookup or DELETE that finds no row and a rejection wait for nobody. |
| `Progress.SomeoneCanStep` | `src/repositories/quotas_repo.py:125-135` | While any transaction is live, some transaction can run its next statement. |
| `Progress.SchedulesAreBounded` | `src/repositories/quotas_repo.py:66-75` | No schedule, fair or not, is longer than the statements left. |
| `Progress.AllRequestsFinish` | `src/repositories/quotas_repo.py:205-213` | From every state all requests can be answered without an abort in at most five statements each, and a state that cannot move has answered all. |
| `Idempotency.ExactlyOnce` | `src/services/events_service.py:87-152` | In every run the table grows by exactly the 201 rows, no key is stored or answered 201 twice, every 200 carries the one record of its key whatever its payload, and the race error never occurs. |
| `Answers.OneRowPerKey` | `src/repositories/events_repo.py:48-73` | Over every run, in the fields of the requests: two ingests of a tenant under one idempotency key, whatever else they ask for, are never both answered 201, and the 200 of one carries the row of the other's 201; a 201 carries the request's own key, quantity, token and hour, a 200 a row stored under its tenant and token, a 429 the least whole-second wait to the next hour; there is no other answer; no tenant has two rows with one token. |
| `Answers.AtomicIngest` | `src/services/events_service.py:86-152` | The atomic ingest in fields and literals: a token the tenant has stored replays that row; else the ingest is rejected exactly if the window total plus its quantity exceeds the limit times 10^6 micro-units; else one row is stored and counted once in its hour, and nothing else changes. |
| `Answers.AtomicQuotaWrite` | `src/repositories/quotas_repo.py:66-90` | The atomic PUT and DELETE set or remove the row of their key and nothing else, and answer by whether it was there. |
| `Idempotency.NoKeyCreatedTwice` | `alembic/versions/0001_create_api_keys_and_events.py:56` | Two 201 answers at different places of the log have different keys. |
| `Idempotency.ReplayIsTheRecord` | `src/repositories/events_repo.py:76-98` | The record of a 200 answer is what a lookup of its key finds in the final table. |
| `Idempotency.ReplayAddsNothing` | `src/repositories/events_repo.py:110-116` | The finishing statement of an ingest not answered 201 leaves every table unchanged, and a conflicting insert always ends as a replay. |
| `Admission.AdmitsExactlyWhatFits` | `src/services/events_service.py:97-127` | N requests of one size race under a cap: with c admitted the window grew by exactly c times the size, N - c were answered 429, admitted usage fits, and a rejection means the final total has no room for one more. |
| `Admission.UnitRequestsFillTheCap` | `tests/integration/test_quota_concurrency.py:15-69` | N unit requests for an empty window under cap L end with exactly min(N, L) admitted, the rest 429, and a total of exactly min(N, L). |
| `Tenants.NonInterference` | `src/repositories/events_repo.py:88-91` | Deleting every action of every other tenant from a run leaves a run that gives the tenant the same rows, the same answers and the same event ids. |
| `TenantReads.ReadsDoNotInterfere` | `src/repositories/usage_repo.py:90-104` | After any run, the bucket read, the daily answer, the export count and the export stream give a tenant what they would give had nobody else ever called and nobody else had any rows. |
| `Tenants.ExecInSlice` | `src/repositories/quotas_repo.py:125-155` | A statement run on the caller's own rows alone has the same result and the same effect on those rows. |
| `Tenants.OthersLeaveSlice` | `src/db/session.py:58-73` | A statement of another tenant leaves the caller's rows as they were. |
| `Tenants.BlocksStayInside` | `src/repositories/quotas_repo.py:205-213` | Nobody waits for a transaction of another tenant. |
| `Conservation.CreatesMinusDeletes` | `src/repositories/quotas_repo.py:66-90` | In every run the 201 creations minus the 204 removals of a key equal the change in its number of rows. |
| `Conservation.WeightIsChange` | `src/repositories/quotas_repo.py:205-215` | Exactly the commits answered 201 and 204 change whether the row exists, by one. |
| `Database.Db.Begin` | `src/db/session.py:57-73` | A request opens its own transaction with an unused event id; nothing else changes. |
| `Database.Db.InsertEventIfNew` | `src/repositories/events_repo.py:30-73` | Takes the protocol's step: the key is claimed and the row returned if no committed row has it, else nothing is returned. |
| `Database.Db.FindEventByIdempotencyKey` | `src/repositories/events_repo.py:76-98` | After a conflict the lookup always finds the record. |
| `Database.Db.LockQuotaRow` | `src/repositories/quotas_repo.py:125-138` | Takes the protocol's step: the limit in force, with the row held, or nothing and no lock. |
| `Database.Db.ReadWindowTotal` | `src/repositories/quotas_repo.py:140-158` | Takes the protocol's step: the total committed by now, zero without a row. |
| `Database.Db.ReadTenantQuotaStateLocked` | `src/repositories/quotas_repo.py:93-158` | The two statements together return limit and current total of an existing row and hold it, or nothing. |
| `Database.Db.IncrementUsageRollup` | `src/repositories/events_repo.py:101-139` | Takes the protocol's step: the counter row that will be committed is the old one plus this event. |
| `Database.Db.UpsertQuota` | `src/repositories/quotas_repo.py:48-90` | Takes the protocol's step; `inserted` is true exactly if no committed row existed. |
| `Database.Db.RemoveQuota` | `src/repositories/quotas_repo.py:190-215` | Takes the protocol's step; true exactly if a row existed. |
| `Database.Db.Commit` | `src/db/session.py:67-73` | Takes the protocol's step: all writes of the transaction appear at once. |
| `Database.Db.RollbackRejected` | `src/services/events_service.py:105-118` | Takes the protocol's step: an over-limit ingest ends with the 429 hint and no table changed. |
| `Database.Db.Lose` | `src/db/session.py:67-73` | A transaction lost anywhere leaves no write behind. |
| `Services.CreateEvent` | `src/services/events_service.py:74-152` | When no statement on its way would wait, the handler equals the atomic ingest in tables, answer and log, with status 201, 200 or 429. |
| `Services.AdmitOrReject` | `src/services/events_service.py:97-136` | With the key claimed, quota check, rejection or recording end in the answer and tables of the atomic ingest. |
| `Services.UpsertTenantQuota` | `src/services/quota_service.py:35-66` | Equals the atomic PUT; 201 exactly if there was no row, else 200. |
| `Services.DeleteTenantQuota` | `src/services/quota_service.py:94-122` | Equals the atomic DELETE; 204 exactly if there was a row, else 404. |
| `TimeWindows.FloorIsTheHour` | `src/services/time_windows.py:12-20` | The result is the one UTC hour boundary that, shown on the wall clock of the instant's zone, is at most an hour back. |
| `TimeWindows.OffsetDoesNotMatter` | `src/services/time_windows.py:19-20` | Two ways of writing an instant floor alike, and with offset zero minutes, seconds and microseconds of the wall clock are dropped. |
| `TimeWindows.FloorStaysInDay` | `src/api/schemas/usage_daily.py:58-64` | An instant and its hour window always lie in the same UTC day. |
| `TimeWindows.QuotaHintIsTight` | `src/services/events_service.py:67-71` | The hint lies in 1..3600, reaches the next window, and no shorter whole-second wait of at least one second does. |
| `UsageReads.UsageReadIsExact` | `src/services/usage_service.py:28-55` | In every reachable state the single-bucket read returns the sum and number of the 201-answered requests received in the UTC hour in which the queried instant lies, whatever offset it was written with. |
| `UsageReads.DailyAnswerIsExact` | `src/repositories/usage_repo.py:231-248` | In every reachable state and for every collation the daily answer lists metrics in strictly increasing order, each with the number of 201-answered requests received that UTC day, and lists a metric if and only if it has any. |
| `DailyUsage.DailyUsageIsExact` | `src/api/schemas/usage_daily.py:67-102` | From query text to counts: a date in range gets the counts of the UTC day that lies as many days after 1 January 1970 as dates are counted in between. |
| `UsageReads.AggregateGroups` | `src/repositories/usage_repo.py:213-248` | The grouped aggregate has one row per metric present, in order, with the sum over its group. |
| `Calendar.NextWindowFollows` | `src/api/schemas/usage_daily.py:58-64` | The window of the next date starts where the window of a date ends. |
| `Calendar.EveryInstantHasOneDate` | `src/api/schemas/usage_daily.py:58-64` | Every instant of the years 1 to 9999 lies in the window of exactly one date. |
| `CivilTime.WindowIsCounted` | `src/api/schemas/usage_daily.py:58-64` | The window of every date starts, and ends, a whole number of 86 400 s days from the epoch: the number of dates from 1 January 1970, counted one by one, of which there is exactly one. |
| `CivilTime.MonthLengths` | `src/api/schemas/usage_daily.py:85-90` | Every month has the length section 5.7 of RFC 3339 lists, February by the leap-year rule. |
| `CivilTime.NextDateIsNext` | `src/api/schemas/usage_daily.py:58-64` | The next date is the least real date after a date. |
| `Calendar.OrdinalFollowsCalendar` | `src/api/schemas/usage_daily.py:92-95` | Day numbers order dates as the calendar does, and no two dates share one. |
| `Calendar.IsoRoundTrip` | `src/api/schemas/usage_daily.py:80-90` | A text reads as a real date if and only if it is the text of that date. |
| `CivilTime.IsoCharacters` | `src/api/schemas/usage_daily.py:80-86` | The text of a date is its year, month and day in decimal digits, four, two and two, separated by hyphens. |
| `Calendar.DailyDateIsExact` | `src/api/schemas/usage_daily.py:67-102` | A value is accepted if and only if it is the text of a real date whose day starts at most a day after now and started less than 91 days before now; its window then is that of the date; a missing value and every other text is refused. |
| `Calendar.WindowTextIsUnique` | `src/api/csv_export.py:61-64` | Different window starts print differently. |
| `CivilTime.WindowText` | `src/api/csv_export.py:61-64` | The window at hour h of a date prints as the date, T, the hour in two digits and `:00:00+00:00`. |
| `CivilTime.UnixText` | `src/api/csv_export.py:61-64` | The epoch prints as `1970-01-01T00:00:00+00:00`. |
| `CivilTime.WindowStartRoundTrip` | `src/api/csv_export.py:61-64` | Every window start on the hour is read back from its text. |
| `TokenBucket.Store.Check` | `src/auth/rate_limit.py:22-55` | The script changes only its own bucket, denied or not, and answers the decision the lemmas below are about. |
| `TokenBucket.Store.CheckAfterIdle` | `src/auth/rate_limit.py:33-52` | A check that comes after the idle key was dropped, or not, is one step of the runs with expiry. |
| `TokenBucket.TokensStayInRange` | `src/auth/rate_limit.py:38-51` | After every check tokens lie in [0, capacity], whatever the clock says. |
| `TokenBucket.AdmissionBound` | `src/auth/rate_limit.py:38-51` | Over any run without expiry, with clocks that jump back and limits that change, admitted cost plus what is left is at most the starting tokens plus rate times the positive clock advances. |
| `TokenBucket.ExpiryInvisibleIff` | `src/auth/rate_limit.py:33-52` | Dropping keys idle for 60 s changes no decision in any run if and only if capacity is at most 60 times the rate. |
| `TokenBucket.CallSitesAreInvisible` | `src/config/settings.py:37-38` | Both configured limiters meet that condition. |
| `TokenBucket.DenialsAreInvisible` | `src/auth/rate_limit.py:41-52` | Under a monotone clock, removing any selection of denied checks changes no other decision, balance or hint. |
| `TokenBucket.DenialIsInvisibleIffClockIsNot` | `src/auth/rate_limit.py:51` | A denied check whose clock is not behind is invisible to all later checks; to later checks of its own cost, one token at both call sites, it is invisible if and only if its clock is not behind or the cost exceeds the capacity. |
| `TokenBucket.RetryHintIsTightIff` | `src/auth/rate_limit.py:43-49` | After a denial and any number of further denied checks, of any cost, on a clock that does not run back, the same request fails before the hint and succeeds from it on, if and only if its cost is at most the capacity. |
| `TokenBucket.RetrySucceedsFromHint` | `src/auth/rate_limit.py:43-49` | Under the same conditions a retry at a given time is admitted if and only if the cost is at most the capacity and the hint has passed. |
| `TokenBucket.HeaderSufficesIff` | `src/auth/rate_limit.py:174` | The header is 1 below two seconds and otherwise the whole seconds within the hint, so it waits long enough if and only if the hint is at most a second or a whole number of seconds. |
| `TokenBucket.OneTokenHintIsAtMostASecond` | `src/auth/rate_limit.py:152-156` | A one-token check at an integer rate of at least one never gets a hint above a second, so its header is 1 and suffices. |
| `CsvText.EscapeIsSafeAndIdempotent` | `src/api/csv_export.py:40-58` | No escaped cell starts with one of the six trigger characters or holds a stripped control character, escaping again changes nothing, and an escaped cell is the stripped text, with an apostrophe in front exactly if that starts with a trigger. |
| `CsvText.StripIsCharacterwise` | `src/api/csv_export.py:34-37` | Stripping works character by character and removes exactly the codes 0 to 31 but tab, LF and CR, and 127. |
| `CsvText.EscapeCollisions` | `src/api/csv_export.py:53-58` | Two cells escape alike if and only if they agree after stripping or one is the quoted form of the other. |
| `CsvText.EscapeIsInjectiveOnIngested` | `src/api/schemas/events.py:15-16` | On identifiers the ingest schema accepts escaping loses nothing. |
| `CsvText.QuotesOnlyIfNeeded` | `src/services/usage_export_service.py:108` | A cell is written as it is unless it holds a comma, a double quote, CR or LF, and in quotes if it does. |
| `CsvText.CsvRoundTrip` | `src/services/usage_export_service.py:107-134` | An RFC 4180 reader gets every table of arbitrary text cells back from its encoding. |
| `DecimalText.PlainIff` | `src/api/csv_export.py:67-77` | Scientific notation appears exactly outside the plain range of the rule. |
| `DecimalText.TotalRoundTrip` | `src/api/csv_export.py:67-77` | A scale-6 total prints in plain notation and parses back exactly. |
| `DecimalText.WholeUnits` | `src/api/csv_export.py:67-77` | n whole units, the unit of a quota limit, print as n and six zeros after the point. |
| `ExportQuery.ExportFilterClauseAndParams` | `src/repositories/usage_repo.py:75-104` | For every combination of present filters the built clause with its parameters selects exactly the matching rows, one fragment a filter, and binds every parameter used and no other. |
| `ExportQuery.CountIsNumberOfKeys` | `src/repositories/usage_repo.py:134-136` | The count is the number of distinct sort keys among the filtered rows. |
| `ExportQuery.StreamAnswerIsUnique` | `src/repositories/usage_repo.py:184-192` | The stream query has exactly one answer, since the primary key rules out ties. |
| `ExportQuery.StreamAgreesWithCount` | `src/repositories/usage_repo.py:172-200` | The stream has min(count, limit) rows, each a stored row of the filter; windows never decrease, within a window customers do not, within a customer metrics increase; within the limit every filtered row is in it. |
| `Ordering.OrderIsUnique` | `src/repositories/usage_repo.py:189` | A set of rows has at most one strictly increasing listing. |
| `Batching.StreamLines` | `src/services/usage_export_service.py:103-148` | For every number of records and every early end (the cursor failing after any number of records, the commit, a client that leaves at any chunk) the chunks are the header followed by batches of 1 to 1000 records, and the audit record has the stated count and flags. |
| `Batching.Buffer.Drain` | `src/services/usage_export_service.py:81-88` | Hands out the contents and leaves the buffer empty. |
| `Batching.AfterRecords` | `src/services/usage_export_service.py:127-140` | After n records the full batches have been handed out and the rest of the text waits in the buffer, empty exactly at a batch boundary. |
| `Batching.CompletedStreamIsWhole` | `src/services/usage_export_service.py:114-145` | The chunks of a completed stream join to the header and all records. |
| `Batching.CompletedMeansWhole` | `src/services/usage_export_service.py:142-148` | If the audit record says completed, the chunks join to the header and all records, the count is their number, and `capped` is set exactly at the row limit. |
| `Batching.AuditIsRightIff` | `src/services/usage_export_service.py:149-158` | The audited count equals the rows handed out if and only if the database does not break with a number of records written that is not a multiple of 1000. |
| `Batching.CountedButNotSent` | `src/services/usage_export_service.py:142-148` | One record and a failing commit: the audit says one row, only the header was handed out. |
| `ExportStream.StreamExportCsv` | `src/services/usage_export_service.py:91-148` | The loop over the escaped and formatted rows keeps the promises of the batching loop, for every early end. |
| `ExportStream.StreamRoundTrip` | `src/services/usage_export_service.py:107-145` | Reading the joined chunks of a completed stream returns the header and exactly the cells. |
| `ExportStream.StreamShowsRows` | `src/services/usage_export_service.py:127-134` | A completed stream reads back as the four column names and one record a row, in which the column of each name shows the escaped customer, the escaped metric, a text that reads back to the window, and one that parses to the total. |
| `ExportStream.ExportDeterminesRows` | `src/api/csv_export.py:40-77` | Two completed exports of ingested rows with the same text are exports of the same rows in the same order. |
| `UsageExport.CompletedExport` | `src/services/usage_export_service.py:103-148` | A completed export shows its rows under their column names; with `capped` unset these are exactly the matching rows; the flag is set if and only if at least 100 000 rows matched; the pre-flight refuses with 422 if and only if more do, and otherwise the export is complete. |
| `UsageExport.CompleteIff` | `src/services/usage_export_service.py:58-78` | The stream query returns every matching row if and only if their number is within the limit. |
| `UsageExport.ExportedRowsAreGood` | `src/services/usage_export_service.py:118-134` | Every row an export of a reachable database can show is printable and made of ingested identifiers, so nothing is lost. |
| `AuthCache.ApiKeyVerificationCache.Get` | `src/auth/__init__.py:52-62` | Answers a fresh matching entry only and removes only an expired one. |
| `AuthCache.ApiKeyVerificationCache.Put` | `src/auth/__init__.py:64-68` | Replaces the entry of one key, stamped now. |
| `AuthCache.ApiKeyVerificationCache.Invalidate` | `src/auth/__init__.py:70-72` | Removes the entry of one key. |
| `AuthCache.RequireApiKey` | `src/auth/__init__.py:107-128` | A hit is answered without the verifier and without renewal; a miss is accepted exactly if the key has an unrevoked record against whose hash the secret verifies, and only an acceptance is stored. |
| `AuthCache.GetNeverRenewsNorEvicts` | `src/auth/__init__.py:54-62` | A lookup never changes an entry and drops one if and only if it is the asked one and expired. |
| `AuthCache.CacheRefinesVerifier` | `src/auth/api_key.py:61-84` | While key records do not change and digests do not collide, every request in every interleaving, at any time, is answered as the uncached verifier answers it. |
| `AuthCache.ColdCacheRefinesVerifier` | `src/auth/api_key.py:76-84` | From an empty cache, while key records do not change, every request of every run is accepted as a principal exactly if its key has an unrevoked record of that principal against whose hash its secret verifies. |
| `AuthCache.AcceptanceIsFresh` | `src/auth/__init__.py:57-68` | From an empty cache, revocations included, nothing is accepted without a finished verification at most the TTL before. |
| `AuthCache.UnbrokenCall` | `src/auth/__init__.py:112-128` | The steps of one guard call taken without a break leave the cache and give the answer of the whole call. |
| `AuthCache.RevokedKeyFades` | `src/auth/__init__.py:54-59` | A revoked key with no verification in flight is never accepted later than the TTL after its last put, in any interleaving. |
| `AuthCache.RevokedKeyAcceptedIffFresh` | `src/auth/__init__.py:57-59` | A revoked key with a matching entry is accepted if and only if the entry is no older than the TTL. |

## Left out

- Web framework: routing, middleware, error envelopes, CORS, health probes, logging, telemetry and settings loading.
- Request validation: the schemas' bounds appear as hypotheses where a theorem needs them; `list_quotas`, split-token parsing and the bounds on `window` queries would only add easy members.
- Cryptography: Argon2id, SHA-256 and the constant-time comparison are an arbitrary verify function and a digest assumed free of collisions.
- Row-level security: only the tenant filter is modelled, not policies, roles or ownership.
- Row versions inside PostgreSQL: a statement that waited sees the latest committed row. An ingest queued on a quota row that is deleted and created again would find no row in PostgreSQL and go on without the lock; here it is treated as if it had asked after the re-creation.
- Identity values: each transaction's event id is fixed when it begins; gaps are allowed, and the order in which ids are drawn is not modelled.
- Services.CreateEvent: runs when nothing on its way is held by others; waiting and interleaving are in the protocol theorems.
- Services.AdmitOrReject: runs when nothing on its way is held by others, for the same reason.
- Services.UpsertTenantQuota: runs when its statement does not have to wait, for the same reason.
- Services.DeleteTenantQuota: runs when its statement does not have to wait, for the same reason.
- CreationHazard.CapBreaksIffCreatedUnderIngest: the further requests have valid quantities; their idempotency keys have no length bound and their event ids may repeat, on which no decision depends.
- UsageReads.DailyAnswerIsExact: the database collation is an arbitrary strict total order, as in the export query.
- TokenBucket.Store.Check: floating-point rounding is idealised away; tokens are counted in thousandths, for integer rates of at least one, which both call sites use.
- TokenBucket.ExpiryInvisibleIff: idle time is measured on the clocks of the checks, not on the Redis server's clock.
- Redis failures: both throttles let requests through when Redis is unreachable.
- Batching.StreamLines: chunks are text; UTF-8 encoding is not modelled. A client that leaves does so at a chunk; a cancellation during a fetch is a failing cursor.
- Calendar.DailyDateIsExact: the date shape accepts ASCII digits only; other digits are answered 400 by the source as well.
- AuthCache.RequireApiKey: key records other than `revoked` never change, so a cached rate limit or scope that is edited later is not modelled.
- Operations: the append-only `updated_at` columns, performance tests, infrastructure and deployment scripts.
