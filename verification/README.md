# Verified model of the URL shortener's stateful core

A Dafny model of the parts of the URL shortener that keep state across calls, with proofs of what they
guarantee over every run. Five of them are step systems: click ingestion, refresh-session rotation, redirects
through the cache, the local rate limiter and the location resolver. The bulk insert and the analytics queries
are modelled beside them. Run `dafny verify dfyconfig.toml` in this directory to check everything.

## How it is modelled

**Runs.** A step is one atomic action of one goroutine or one request, labelled with the outcome that the
outside world gave it: what PostgreSQL, Redis or the remote lookup answered, and how much time passed. `Apply`
is total: a step that is not enabled leaves the state as it is. A theorem about every `seq<Step>` is therefore
about every interleaving and every pattern of failures. An outcome can also be *unconfirmed*: the effect took
place, but the caller saw an error.

**Code.** What the source does in place, the model does in place. `ClickWorker`, `AuthService`,
`RefreshSessionRepo`, `RateLimiter`, `Resolver`, the repositories, `LinkCache`, `RedirectService` and
`LinkService` are classes with the source's fields, and loops are loops. Each method says what the whole new
state is, in terms of the step system, or of a function whose properties are then proved. The outcomes that a
step is labelled with are the method's parameters. A method is atomic in Dafny; where goroutines take turns
inside a function of the source, the methods are the sections between two points at which another can run
(`ClickWorker.Act`), `ClickWorker.Interleave` lets them follow each other in any order, and `Process` gives the
order in which one goroutine takes them.

| file | what it is about |
|---|---|
| `Domain.dfy` | the click event and `Option` |
| `Pipeline.dfy` | click ingestion: producers, two workers, the overflow stream, the table, as steps |
| `PipelineInvariant.dfy`, `PipelineSafety.dfy` | what every step keeps; where every click is |
| `PipelineTheorems.dfy`, `PipelineTiming.dfy`, `PipelineShutdown.dfy` | the main results about ingestion |
| `PipelineMultiplicity.dfy` | how often a click can be stored, in one process and over several |
| `PipelineRows.dfy` | what the rows hold; the order and the bounds of the channel and the stream |
| `PipelineFlushSize.dfy` | how many rows a flush can have |
| `PipelineNecessity.dfy`, `PipelineRestarts.dfy` | every harm to at-most-once does store a click twice in some continuation; exactly when at-most-once holds |
| `ClickWorker.dfy` | the worker's code, tied to the steps |
| `BatchInsert.dfy` | the INSERT statement as text and arguments, and the text read back |
| `Analytics.dfy`, `AnalyticsCounts.dfy` | the aggregate queries and the totals they agree on; which clicks they count |
| `Sessions.dfy`, `SessionTheorems.dfy`, `AuthService.dfy` | refresh-session rotation: steps, results, code |
| `SessionLifetime.dfy` | how long a token is good for; what the table says of a revoked row |
| `Redirects.dfy`, `RedirectNecessity.dfy` | `Resolve` interleaved with every mutation; exactly when its answers are true |
| `RedirectFreshness.dfy` | exactly when every answer is true during its own call |
| `LinkOperations.dfy`, `LinkService.dfy`, `LinkRuns.dfy` | the operations one at a time: effects, code, and their place in the step system |
| `LinkEffects.dfy` | what each operation changes and whose; that `Resolve` fills the cache |
| `RateLimit.dfy` | the fixed-window limiter against its request history |
| `GeoIP.dfy`, `GeoIPSharp.dfy`, `GeoResolver.dfy` | the resolver: cache, breaker, two concurrent calls; its code |

**Units.** Times are integers, in milliseconds unless a file says otherwise, on one clock that does not run
backwards. `time.Now()` and PostgreSQL's `NOW()` are taken to be the same clock.

**Assumptions about the surroundings.**
- One server process works on the overflow stream at a time. The stream has no consumer group, so two processes
  would read the same entries.
- A JSON payload decodes to the event that was encoded, so the branch for invalid entries is never taken.
- Redis trims the stream only while at least 100000 entries remain (`MAXLEN ~ 100000`), oldest first.
- `Stop` runs when no request is being handled any more: `srv.Shutdown` has returned, or the process has ended.
- Each session repository call is one atomic transaction. Under PostgreSQL's default isolation a `RevokeFamily`
  that races an uncommitted `Rotate` can miss the row that `Rotate` inserts; that interleaving is excluded.
- A refresh token that `jwt.Parse` accepts was issued by this service: it is a (user, family, token id) triple.
- Family ids (32 random bytes) and row ids (random UUIDs) are never used twice. Token ids may repeat: a
  repetition violates the constraint on `token_jti`, and the transaction rolls back.

**Where the documentation and the code differ**, the model follows the code.
- `docs/architecture.md:68` says that overflow events get a location before they are inserted. The drain path
  never calls the resolver, and their rows are the events as they were offered (`OverflowRowsAreAsOffered`).
- The same section speaks of batches of 100 events. Only a first attempt before shutdown is limited to 100 rows:
  while a backoff is pending the batch keeps growing (`FlushSizeIff`), and so it does during the shutdown drain
  (`LastFlushOf`).
- The limiter lets the first request of a window through even if its limit is 0 or less, which is why the
  bounds use `Cap(limit)`, the larger of 1 and the limit.
- `dropped_total` also counts an event that Redis stored without confirming it; `CounterIsExact` counts both.

## Main results

**Ingestion.** No click vanishes, whatever fails (`NothingVanishes`). Without hidden effects every click is in
exactly one place (`ConservedExactly`). In any run a click has at most one row, and one more for each insert of it
that succeeded unreported before shutdown and each acknowledgement that left its entry in the stream
(`RowsBounded`; over any number of processes, `RowsBoundedAcrossRestarts`). At-most-once holds exactly without such
steps: each of them has a continuation, with nothing else going wrong, that stores the click twice
(`AtMostOnceIff`; over any number of processes, `AtMostOnceAcrossRestartsIff`). Overflowed clicks survive a crash
at any point and any number of restarts, with and without Redis (`CrashSafe`, `CrashSafeAcrossRestarts`). A worker
in shutdown exits, whatever the outcomes and whatever the others do, and only channel clicks of a failed last flush
are lost (`DrainLoopEnds`, `ExitsWhenScheduled`, `WorkerExits`, `OnlyChannelClicksAreLost`, `AfterShutdown`). A row
of a click that the channel took has the location that a worker found for it, and otherwise what was offered
(`ChannelRowsAreLocated`); a row of any other click is as offered (`OverflowRowsAreAsOffered`). The number of rows
of a flush has no bound exactly while a backoff is pending (`UnboundedIff`): after one failed insert a flush can
have more rows than PostgreSQL takes parameters for (`TooManyParameters`).

**Sessions.** A family is one unforked, acyclic chain, of which only the last row can be open. A token is
refreshed at most once, and can be exactly for 30 days from its issue if its family is not refreshed or logged out
before (`RefreshableForThirtyDays`). A family ended by logout, expiry or a lost reply stays ended.

**Redirects.** Every answer `Resolve` returns was the database's own at some moment, during the call unless it
came from the cache (`ReturnedAnswersWereTrue`), as long as no hash is ambiguous: no hash has, at one moment, both
an active link and a source that serves it. This is exactly the condition: from any moment with an ambiguous hash
on, one failing read is enough for an answer that is true at no moment of the call (`TruthfulIff`), and no failure
is needed if the hash becomes ambiguous during the call (`SharedHashMisleads`). An answer from the cache need not be
true at the time of the call (`LateStoreOutlivesDelete`). All answers for a hash are true during their own calls
exactly when no change of the tables makes anything false that is cached or under way about the hash (`CurrentIff`):
an entry, an answer about to be stored, or a source whose link is about to be read. A discipline that ensures it is
to take something from a hash only while nothing about it is held (`HitsAreCurrent`). When operations run one at a
time, an answer that `Resolve` stored is given again, whatever the tables' reads do, until its entry expires or is
invalidated (`ResolveFillsCache`, `AnswerIsRemembered`); a hit for a link is the database's answer, and a hit for a
source is so exactly if its link is active and no active link has the hash (`HitIsDatabaseAnswer`,
`ResolveIsLookup`). The services do give a hash to a link and a source (`ServicesGiveHashTwice`). Which operations
keep hashes disjoint, and so unambiguous (`DisjointIsUnambiguous`), or just unambiguous is stated exactly
(`CreateKeepsDisjointIff`, `CreateSourceKeepsDisjointIff`, `AlwaysUnambiguousIff`). No operation touches a link of
another user or its sources (`OnlyOwnRowsChange`).

**Rate limiter.** Its decisions are those that the request history prescribes, with or without collection. The
most requests that a closed interval can allow is given for every limit and length (`SharpBound`) and attained for
each of them (`BoundIsAttained`): at most `limit * (ceil(T / window) + 1)` for length T, and `2 * limit - 1` for one
window length.

**Analytics.** The total and every item of a breakdown are the numbers of the stored clicks of the link and the
range, all and with that label (`TotalIsCount`, `ItemCounts`). The breakdowns without a limit add up to the total,
those limited to 20 labels exactly if there are no more (`SourceBreakdownAddsUp`, `TimeSeriesAddsUp`,
`TopTwentyAccountsFor`).

**Resolver.** A call that reaches the remote gives the fields of the first answer, Unknown where one is empty, and
so do the hits of the hour after it (`HitAfterAnswer`). The cache keeps its limit of 1000 entries, evicts an
unexpired entry only if all 1001 are unexpired, and gives only recent results; at most six failures are recorded in
any 30 seconds without a success, and six can be (`SixFailuresHappen`).

## Model

| member | source | states |
|---|---|---|
| PipelineTheorems.NothingVanishes | internal/worker/click_worker.go:39-234 | in every reachable state each offered click is in the channel, with a producer or a worker, in the stream or the table, dropped, trimmed, or lost in a failed last flush |
| PipelineTheorems.ConservedExactly | internal/worker/click_worker.go:91-123 | if no insert or acknowledgement has a hidden outcome, each offered click occurs once over all places together, and no other click occurs |
| PipelineMultiplicity.AtMostOnce | internal/worker/click_worker.go:181-247 | no click is in click_events twice if no insert before shutdown succeeded unreported and no acknowledgement before shutdown left a held entry in the stream |
| PipelineMultiplicity.RowsBounded | internal/worker/click_worker.go:91-123 | in any run each click has at most one row plus one for each such harm to it |
| PipelineMultiplicity.RowsBoundedAcrossRestarts | internal/worker/click_worker.go:115-120 | the same over any number of processes, counting also what a process leaves unacknowledged in the stream when it stops |
| PipelineMultiplicity.HarmIffHarmful | internal/worker/click_worker.go:236-247 | in reachable states exactly the guarded steps do harm |
| PipelineMultiplicity.StepLive | internal/worker/click_worker.go:70-152 | a step adds a click to what is stored or can still be stored only by offering it or by harm |
| PipelineTheorems.CounterIsExact | internal/worker/click_worker.go:48 | the dropped counter is the number of clicks dropped or stored unconfirmed, modulo 2^64 |
| PipelineTheorems.CrashSafe | internal/worker/click_worker.go:92-98 | acknowledged entries are in the table; an accepted, untrimmed entry is in the stream or in the table at every moment |
| PipelineTheorems.CrashSafeAcrossRestarts | cmd/server/main.go:46-50 | the same over any number of processes, each with or without Redis and stopped at an arbitrary point |
| PipelineTheorems.RowsAreGenuine | internal/worker/click_worker.go:85-90 | a stored row is an offered click, different from it at most in country and city |
| PipelineRows.OverflowRowsAreAsOffered | internal/worker/click_worker.go:216-224 | a row of a click that the channel did not take is the click exactly as it was offered |
| PipelineRows.ChannelRowsAreLocated | internal/worker/click_worker.go:85-90 | a row of a click that the channel took has the country and the city of an enrichment of that click by a worker that held it, each in its own column, and all other fields as offered |
| PipelineRows.ReceivesTheOldest | internal/worker/click_worker.go:85 | in every run the click a worker receives was offered before all that stay in the channel, and it alone leaves |
| PipelineRows.ChannelTakesUnlessFull | internal/worker/click_worker.go:31-46 | before Stop the channel takes an offered click, at its end, iff it holds fewer than 10000; any other is left to its producer |
| PipelineRows.ChannelIsBounded | internal/worker/click_worker.go:31 | in every run the channel holds at most 10000 clicks |
| PipelineRows.StreamKeepsTheNewest | internal/worker/click_worker.go:168-173 | a push appends its entry and takes the oldest ones only while 100000 entries remain |
| PipelineInvariant.StepKeepsInv | internal/worker/click_worker.go:70-152 | every step keeps: stream contents, entries held at distinct batch positions by worker 0 only, acknowledgement after insertion, unmodified clicks |
| PipelineSafety.ReachedExact | internal/worker/click_worker.go:111-123 | the places' multiset gives every offered click multiplicity one in every clean run |
| PipelineSafety.ReachedCovered | internal/worker/click_worker.go:39-152 | the places' multiset contains every offered click in every run |
| PipelineNecessity.AtMostOnceIff | internal/worker/click_worker.go:91-123 | no part of a run has a clean continuation that stores a click twice iff no step of the run is harmful |
| PipelineNecessity.HarmRepeats | internal/worker/click_worker.go:99-101 | after a harmful step in any reachable state, each harmed click is stored twice in some clean continuation |
| PipelineNecessity.Reread | internal/worker/click_worker.go:111-120 | from the start of a batch worker 0 stores any given entry of the stream in finitely many clean steps |
| PipelineNecessity.CrashRepeats | internal/worker/click_worker.go:115-116 | a process that stops between an insert and its acknowledgement leaves clicks that the next process can store again |
| PipelineNecessity.ShutdownRepeats | internal/worker/click_worker.go:142-146 | so does a last flush or acknowledgement that leaves stored entries in the stream |
| PipelineRestarts.AtMostOnceAcrossRestartsIff | internal/worker/click_worker.go:83-151 | over any number of processes, no clean continuation of a process and no clean next process stores a click twice iff no step is harmful and no process stops with a stored entry still in the stream |
| PipelineNecessity.LostReplyStoresTwice | internal/worker/click_worker.go:265-276 | a run from the start, without failures but one insert whose reply is lost, stores a click twice |
| PipelineNecessity.LostAckStoresTwice | internal/worker/click_worker.go:244-246 | a run from the start, without failures but acknowledgements that do not take effect, stores a click twice |
| PipelineTiming.LoopHead | internal/worker/click_worker.go:80-125 | next attempt zero iff no failures; then fewer than 100 clicks and no held entry; else a non-empty batch with the held entries at distinct positions |
| PipelineTiming.FlushStart | internal/worker/click_worker.go:91-118 | before shutdown no flush starts inside a backoff or without rows; a first attempt has at most 100 rows and 1300 parameters |
| PipelineFlushSize.FlushSizeIff | internal/worker/click_worker.go:90-118 | before Stop, from its select, a worker can come to flush more than n rows before its next insert iff a backoff is pending, or n is below 100 or not above what it has |
| PipelineFlushSize.UnboundedIff | internal/worker/click_worker.go:92-101 | there is no bound iff a flush has failed and its backoff is pending; more than 100 rows take a failure, and a pending backoff or a full batch |
| PipelineFlushSize.TooManyParameters | internal/repository/postgres/click_event_repo.go:26-41 | a run in which one insert fails reaches a flush with more than 65535 parameters |
| PipelineFlushSize.LastFlushOf | internal/worker/click_worker.go:134-143 | for every n up to the channel's capacity a run reaches a last flush of n rows |
| PipelineTiming.BackoffSumClosed | internal/worker/click_worker.go:249-263 | the first n backoffs last 200, 700 and 1700 ms together for n from 1 to 3, and 3700 + 5000 * (n - 4) ms for any larger n |
| PipelineTiming.WaitsForBackoff | internal/worker/click_worker.go:99-101 | in every run, until it has exited, a worker with failures behind it has its next attempt 200, 500, 1000, 2000 or, from the fifth on, 5000 ms after the last failure |
| PipelineTiming.FailuresApart | internal/worker/click_worker.go:99-108 | the first and n-th failure of a streak are at least the first n - 1 backoffs apart |
| PipelineShutdown.ReachedShutdown | internal/worker/click_worker.go:133-150 | a worker leaves its shutdown loop only with the channel empty; nothing is lost before Stop |
| PipelineShutdown.StepCloser | internal/worker/click_worker.go:134-149 | each own step brings a worker in shutdown closer to its exit, and no other step sets it back |
| PipelineShutdown.DrainLoopEnds | internal/worker/click_worker.go:133-150 | in any continuation a worker in shutdown takes at most the bounded number of steps it has left |
| PipelineShutdown.DrainNeverStuck | internal/worker/click_worker.go:135-147 | until it has exited, a worker in shutdown has a step that changes the state, whatever its outcome |
| PipelineShutdown.ExitsWhenScheduled | internal/worker/click_worker.go:133-150 | a worker in shutdown that has taken the steps it had left has exited, whatever the others did in between |
| PipelineShutdown.WorkerExits | internal/worker/click_worker.go:133-150 | for every sequence of outcomes, the steps it has left lead to its exit |
| PipelineShutdown.OnlyChannelClicksAreLost | internal/worker/click_worker.go:142-147 | a lost click was taken by the channel, never by the stream, and is lost after Stop |
| PipelineShutdown.LocatedBeforeStop | internal/worker/click_worker.go:70-132 | before Stop every offered click is located and none is lost |
| PipelineShutdown.AfterShutdown | cmd/server/main.go:68-70 | when both workers have exited the channel is empty and each click is stored, in the stream, dropped, trimmed, or a channel click of a failed last flush |
| ClickWorkerCode.ClickWorker.Enqueue | internal/worker/click_worker.go:39-53 | the call is an offer followed by a push to the stream, or a counted drop without Redis |
| ClickWorkerCode.ClickWorker.PushOverflowEvent | internal/worker/click_worker.go:154-179 | the entry is appended and the cap applied, iff there is a client and the command took effect; true iff confirmed |
| ClickWorkerCode.ClickWorker.Stop | internal/worker/click_worker.go:63-68 | the stop step, then whatever goes on meanwhile; the wait is over iff both goroutines have exited |
| ClickWorkerCode.ClickWorker.Act | internal/worker/click_worker.go:70-152 | the next atomic section of a producer, worker or clock is the step of the step system |
| ClickWorkerCode.ClickWorker.Interleave | internal/worker/click_worker.go:55-61 | in whatever order those sections follow each other, the code's state is that of the run |
| ClickWorkerCode.ClickWorker.OnEvent | internal/worker/click_worker.go:85-104 | the event branch is receive, enrich and, for a full batch outside a backoff, flush and acknowledge |
| ClickWorkerCode.ClickWorker.OnTick | internal/worker/click_worker.go:106-125 | the tick branch is a tick, a read by worker 0, and a flush of what there is |
| ClickWorkerCode.ClickWorker.DrainOverflowIntoBatch | internal/worker/click_worker.go:181-225 | the oldest entries that fit are appended with their ids, only if none is held |
| ClickWorkerCode.ClickWorker.FlushBatch | internal/worker/click_worker.go:93-101 | the insert step, with the failure count and the next attempt after a failure |
| ClickWorkerCode.ClickWorker.AckOverflowEntries | internal/worker/click_worker.go:236-247 | exactly the given ids leave the stream, iff the command took effect |
| ClickWorkerCode.ClickWorker.DrainChannel | internal/worker/click_worker.go:134-141 | the shutdown loop receives and enriches until the channel is empty |
| ClickWorkerCode.ClickWorker.OnDone | internal/worker/click_worker.go:133-150 | the done branch is begin, drain, and a last flush with acknowledgement |
| ClickWorkerCode.ClickWorker.Process | internal/worker/click_worker.go:70-152 | with no other goroutine acting meanwhile, the whole loop is the composition of its branches in the order they were woken |
| ClickWorkerCode.LoopIsRun | internal/worker/click_worker.go:83-151 | that composition is a run of the step system |
| BatchInsert.BatchInsert | internal/repository/postgres/click_event_repo.go:21-41 | nothing is sent iff there are no events; the text parses to an insert into click_events whose parameter in row i, column j is 13*i+j+1 and selects that event's value for the column of that name in the parsed column list |
| BatchInsert.StatementReadsBack | internal/repository/postgres/click_event_repo.go:39 | a statement parses to its table, its columns and its rows, whatever they are |
| BatchInsert.RowsReadBack | internal/repository/postgres/click_event_repo.go:28-39 | parsing the joined rows gives the rows, for any number of them |
| BatchInsert.NumberReadsBack | internal/repository/postgres/click_event_repo.go:30-34 | a printed number is read back up to what follows it |
| Analytics.GroupsAddUp | internal/repository/postgres/click_event_repo.go:85-88 | the counts of any grouping add up to the number of rows, with one item per label |
| Analytics.LeftJoinIsRowwise | internal/repository/postgres/click_event_repo.go:114-118 | the left join on the source id pairs every click with exactly one row |
| Analytics.SourceBreakdownAddsUp | internal/repository/postgres/click_event_repo.go:112-127 | source-breakdown counts sum to the summary's total |
| Analytics.TimeSeriesAddsUp | internal/repository/postgres/click_event_repo.go:78-105 | time-series counts sum to the summary's total at either granularity |
| Analytics.TopTwentyAccountsFor | internal/repository/postgres/click_event_repo.go:129-175 | a top-20 breakdown sums to at most the total, with equality iff there are at most 20 labels |
| Analytics.TopKeepsLargest | internal/repository/postgres/click_event_repo.go:134 | a label left out by the limit has no more clicks than any label kept |
| Analytics.DeletingSourceRelabels | internal/database/migrations/000004_create_click_events.up.sql:4-5 | deleting a source relabels its clicks by their own name, leaves the other labels, and changes no total |
| Analytics.GroupJoinCountsOnce | internal/repository/postgres/link_repo.go:62-98 | the group join lists exactly the group's links and leaves each link's click count |
| AnalyticsCounts.TotalIsCount | internal/repository/postgres/click_event_repo.go:55-71 | the total is the number of stored clicks of the link between the two times, both included |
| AnalyticsCounts.SelectedInOrder | internal/repository/postgres/click_event_repo.go:63 | the rows that the condition selects are exactly these clicks, each once and in the order of the table |
| AnalyticsCounts.ItemCounts | internal/repository/postgres/click_event_repo.go:84-90 | an item of any grouping, the time series among them, counts the clicks of the link and the range with its label |
| AnalyticsCounts.SourceItemCounts | internal/repository/postgres/click_event_repo.go:112-127 | an item of the source breakdown counts those whose source has its name; of clicks without a source in the table, those with that source name of their own, an empty one being direct |
| AnalyticsCounts.ReferrerItemCounts | internal/repository/postgres/click_event_repo.go:129-143 | an item of the referrer breakdown counts those with its referrer, an empty one being direct |
| AnalyticsCounts.LocationItemCounts | internal/repository/postgres/click_event_repo.go:145-159 | an item of the location breakdown counts those with its country, which is never NULL in a row that the worker stored |
| AnalyticsCounts.BrowserItemCounts | internal/repository/postgres/click_event_repo.go:161-175 | an item of the browser breakdown counts those with its browser, an empty one being Unknown |
| AnalyticsCounts.ListedCount | internal/repository/postgres/link_repo.go:62-98 | the list of links, of a group or of all, gives each listed link the number of its stored clicks |
| SessionTheorems.FamiliesAreChains | internal/repository/postgres/refresh_session_repo.go:19-71 | in every run a family's rows form one unforked parent chain from the login row, and only the last can be open |
| SessionTheorems.AncestryEndsAtLogin | internal/repository/postgres/refresh_session_repo.go:57-61 | in every run parent links lead from the i-th row of a family to the login row in i steps: no cycles |
| SessionTheorems.RotatedAtMostOnce | internal/repository/postgres/refresh_session_repo.go:39-55 | no token id is rotated twice in any run |
| SessionTheorems.RefreshableIff | internal/repository/postgres/refresh_session_repo.go:42-46 | an issued token has a row to rotate iff its row is its family's last, open and unexpired |
| SessionTheorems.StrandedForever | internal/service/auth_service.go:183-189 | once no token of a family can be refreshed, none can be in any continuation |
| SessionTheorems.LogoutStrands | internal/repository/postgres/refresh_session_repo.go:73-87 | a logout that takes effect ends its family |
| SessionTheorems.ExpiryStrands | internal/repository/postgres/refresh_session_repo.go:46 | the expiry of its last row ends a family |
| SessionTheorems.LostTokenStrands | internal/service/auth_service.go:191-204 | a rotation whose new token never reaches the client ends the family |
| SessionTheorems.ReplayChangesNothing | internal/repository/postgres/refresh_session_repo.go:53-55 | replaying a rotated token is refused and changes nothing: the family's open row stays open |
| SessionLifetime.RefreshableForThirtyDays | internal/service/auth_service.go:183 | a token that a login or refresh returned at time t, whose family was neither refreshed nor logged out since, is refreshed with an unused token id, in a confirmed and delivered call, iff it is before t + 30 days |
| SessionLifetime.RowsTellWhy | internal/repository/postgres/refresh_session_repo.go:39-48 | in every run a revoked row's reason is rotated iff its token was, and logout otherwise; an open row has none and was not rotated |
| Sessions.StepKeepsInv | internal/database/migrations/000007_create_refresh_sessions.up.sql:5 | every step keeps distinct token ids, chains, a row for every issued token, and revoked rows for rotated ones |
| AuthServiceCode.RefreshSessionRepo.Create | internal/repository/postgres/refresh_session_repo.go:19-30 | one row is added unless its token id exists or the statement fails |
| AuthServiceCode.RefreshSessionRepo.Rotate | internal/repository/postgres/refresh_session_repo.go:32-71 | exactly the live row is revoked and one row added, or the table is unchanged: no live row, a repeated token id, or a rollback |
| AuthServiceCode.RefreshSessionRepo.RevokeFamily | internal/repository/postgres/refresh_session_repo.go:73-87 | exactly the family's open rows are revoked |
| AuthServiceCode.AuthService.Login | internal/service/auth_service.go:116-140 | the login step; a token is returned iff its row was created and confirmed |
| AuthServiceCode.AuthService.Refresh | internal/service/auth_service.go:143-207 | the refresh step; a token is returned iff the step succeeds |
| AuthServiceCode.AuthService.Logout | internal/service/auth_service.go:209-244 | the logout step for an authenticated token, nothing for any other |
| Redirects.ReturnedAnswersWereTrue | internal/service/redirect_service.go:30-76 | while no hash is ambiguous, every answer returned in any interleaving was the database's own for that hash at some moment, during the call unless it came from the cache |
| Redirects.StepKeepsInv | internal/repository/postgres/link_repo.go:128-140 | every step keeps: addresses never change, cache entries and answers under way were true at some moment |
| Redirects.ReadIsAnswer | internal/repository/postgres/source_link_repo.go:36-49 | what the reads find is the answer of a single moment, although a source takes two queries |
| Redirects.AnswerIsUnique | internal/repository/postgres/link_repo.go:48-60 | with hashes unique in each table, the database has at most one answer for a hash |
| RedirectNecessity.TruthfulIff | internal/service/redirect_service.go:40-61 | over any changes of the tables, all answers in all calls and failures that can come between and after them are true iff no moment has an ambiguous hash |
| RedirectNecessity.AmbiguityMisleads | internal/service/redirect_service.go:53-75 | from any state with an ambiguous hash, a call whose link lookup fails returns an answer that is none at any moment of the call |
| RedirectNecessity.SharedHashMisleads | internal/service/redirect_service.go:40-61 | a run in which a hash becomes ambiguous during a call returns an answer that was never the database's, without any failure |
| RedirectNecessity.LateStoreOutlivesDelete | internal/service/redirect_service.go:46-50 | a late cache write makes a later call answer with a link deleted before it began |
| RedirectFreshness.CurrentIff | internal/service/redirect_service.go:31-75 | while no hash is ambiguous: whatever calls come between and after the changes, all answers for a hash are true during their calls iff no change makes false what is cached or under way about it |
| RedirectFreshness.ConsiderateRespects | internal/service/link_service.go:223-230 | while what is held is true, a change that takes nothing from the hash, or happens while nothing about it is held, makes nothing false |
| RedirectFreshness.HitsAreCurrent | internal/service/link_service.go:223-230 | so if all changes are such, each answer for the hash was true during its call |
| LinkOperations.AfterIsCoherent | internal/repository/redis/link_cache.go:30-68 | after any operations run one at a time, with invalidations and listings working, every cache entry holds |
| LinkOperations.HitIsDatabaseAnswer | internal/service/redirect_service.go:31-38 | then a link's entry is the database's answer, and a source's entry is iff its link is active and no active link has the hash |
| LinkOperations.ResolveIsLookup | internal/service/redirect_service.go:30-76 | then Resolve finds nothing only if there is no answer; what it finds is the database's under the same condition; and there is another answer only if an active link has the hash of a cached source |
| LinkOperations.UpdateLeavesSourceEntries | internal/service/link_service.go:203-206 | switching a link off leaves the entries of its sources, which are then no answers; the database has one iff another active link has the hash |
| LinkOperations.CreateKeepsDisjointIff | internal/service/link_service.go:66-85 | Create keeps link and source hashes disjoint iff a guard or a constraint refuses it or no source has the new hash |
| LinkOperations.CreateSourceKeepsDisjointIff | internal/service/link_service.go:233-256 | CreateSource keeps them disjoint iff a guard or a constraint refuses it or no inactive link has the new hash |
| LinkOperations.KeepsUnambiguousIff | internal/service/link_service.go:189-302 | an operation leaves hashes unambiguous iff it does not create a link with a serving source's hash and does not switch on a link so that its or its sources' hashes meet |
| LinkOperations.AlwaysUnambiguousIff | internal/service/link_service.go:66-302 | hashes were unambiguous all along iff every operation was of that kind |
| LinkOperations.ServicesGiveHashTwice | internal/service/link_service.go:322-349 | five operations without a failure give a link and a source the same hash, first not disjoint, then ambiguous |
| LinkEffects.ResolveFillsCache | internal/service/redirect_service.go:46-49 | with Redis working, the answer that Resolve gives is in the cache under its hash, and every other entry and the tables are as before |
| LinkEffects.ResolveLeavesCache | internal/service/redirect_service.go:31-38 | without an answer, after a hit, or without a working Redis, Resolve changes nothing |
| LinkEffects.AnswerIsRemembered | internal/service/redirect_service.go:31-38 | after any operations and any more that neither expire, invalidate nor overwrite the entry, a Resolve that can read the cache gives the stored answer again, whatever the reads of the tables do |
| LinkEffects.CreateAdds | internal/service/link_service.go:66-85 | Create adds one active link with the given user, address and title and the generated hash, iff the address is valid, a hash was found, the write works and no row has the id or the hash; no other row and no entry changes |
| LinkEffects.UpdateChanges | internal/service/link_service.go:189-212 | an allowed Update sets title and flag of that link, keeps its address, hash and user and every other row, and removes at most the link's entry, and only when switching it off |
| LinkEffects.DeleteRemoves | internal/service/link_service.go:214-231 | an allowed Delete removes the link and exactly its sources, and at most their entries |
| LinkEffects.CreateSourceAdds | internal/service/link_service.go:233-256 | an allowed CreateSource adds one active source with the given link and name and the generated hash, iff one was found, the write works and no constraint is violated; no other row and no entry changes |
| LinkEffects.DeleteSourceRemoves | internal/service/link_service.go:282-302 | an allowed DeleteSource of a listed source removes that row and at most its entry |
| LinkEffects.NamesStayUnique | internal/database/migrations/000003_create_source_links.up.sql:9 | after any operations the sources of a link have different names |
| LinkEffects.OnlyOwnRowsChange | internal/service/link_service.go:219-221 | an operation leaves every link of another user and every source of such a link as it is, and adds rows only to its own user's links |
| LinkOperations.UniqueHashIsFirstFree | internal/service/link_service.go:304-320 | the first candidate that no active link has is taken if it comes within the allowed number |
| LinkOperations.UniqueHashIsFree | internal/service/link_service.go:311-314 | conversely a hash is given only for such a candidate |
| LinkOperations.SourceHashIsFirstFree | internal/service/link_service.go:322-349 | the first candidate that no active link or source has is taken if it comes within the allowed number |
| LinkOperations.SourceHashIsFree | internal/service/link_service.go:329-345 | conversely a hash is given only for such a candidate |
| LinkRuns.OperationIsRun | internal/service/link_service.go:66-302 | every operation is a run of the redirect step system with the same effect; Resolve adds its finished call |
| LinkRuns.ResolveIsRun | internal/service/redirect_service.go:30-76 | an uninterrupted Resolve is a run of one call with the same answer and the same effect on the cache |
| LinkServiceCode.RedirectService.Resolve | internal/service/redirect_service.go:30-76 | the cached entry, else the link, else the source's link, with the cache write; a failing read passes to the next lookup or ends it |
| LinkServiceCode.LinkService.GenerateUniqueHash | internal/service/link_service.go:304-320 | the retry loop gives what the specification of the first free candidate gives |
| LinkServiceCode.LinkService.GenerateUniqueSourceHash | internal/service/link_service.go:322-349 | the same for sources |
| LinkServiceCode.LinkService.Create | internal/service/link_service.go:66-85 | the new tables and the reply in each case: bad address, no hash, failed write, refused row |
| LinkServiceCode.LinkService.Update | internal/service/link_service.go:189-212 | title and flag change, and only switching off invalidates, and only the link's own hash |
| LinkServiceCode.LinkService.Delete | internal/service/link_service.go:214-231 | the hashes of the link and of the listed sources are invalidated, then the rows go, even if the listing fails |
| LinkServiceCode.LinkService.CreateSource | internal/service/link_service.go:233-256 | the new tables and the reply in each case |
| LinkServiceCode.LinkService.DeleteSource | internal/service/link_service.go:282-302 | the listed source's hash is invalidated and its row deleted; an unlisted one is refused |
| LinkServiceCode.LinkRepo.GetByHash | internal/repository/postgres/link_repo.go:48-60 | the active link with the hash |
| LinkServiceCode.LinkRepo.Update | internal/repository/postgres/link_repo.go:128-140 | title and flag of one row change, never its address or hash |
| LinkServiceCode.LinkRepo.Delete | internal/repository/postgres/link_repo.go:160-166 | the link and, by the foreign key, its sources go |
| LinkServiceCode.LinkRepo.Create | internal/repository/postgres/link_repo.go:20-32 | the row is added unless a constraint or the statement fails |
| LinkServiceCode.SourceLinkRepo.Create | internal/repository/postgres/source_link_repo.go:20-34 | the row is added unless its hash or its (link, name) pair exists, its link does not, or the statement fails |
| LinkServiceCode.SourceLinkRepo.GetByHash | internal/repository/postgres/source_link_repo.go:36-49 | the active source with the hash whose link is active |
| LinkServiceCode.SourceLinkRepo.ListByLinkID | internal/repository/postgres/source_link_repo.go:51-71 | the link's sources among the rows read |
| RateLimit.CollectionIsInvisible | internal/middleware/rate_limit.go:41-74 | whenever entries are collected, each decision is the one the history prescribes, and the one of a limiter that never collects |
| RateLimit.DenialMeansFull | internal/middleware/rate_limit.go:59-61 | a denial means that exactly limit requests of the key were allowed in its current window |
| RateLimit.AllowedInWindow | internal/middleware/rate_limit.go:53-65 | of a window's requests exactly the first ones are allowed, up to the cap |
| RateLimit.SharpBound | internal/middleware/rate_limit.go:53-65 | no closed interval allows more requests of a key than its length admits: a window that opened before the interval adds all but its opener |
| RateLimit.IntervalBound | internal/middleware/rate_limit.go:41-66 | so any closed interval of length T allows at most cap * (ceil(T / window) + 1) requests of a key, one window length at most twice the cap less one |
| RateLimit.BoundIsAttained | internal/middleware/rate_limit.go:54-61 | for every limit, also below 1, every window and length some history and interval attain that number |
| RateLimit.RateLimiter.Allow | internal/middleware/rate_limit.go:41-66 | the code decides as the history prescribes, with its own collection schedule |
| RateLimit.RateLimiter.Gc | internal/middleware/rate_limit.go:68-74 | exactly the expired entries are deleted |
| GeoIP.EvictionIsGentle | pkg/geoip/resolver.go:161-181 | after eviction at most 1000 entries remain; an unexpired one goes only if all 1001 are unexpired, and then exactly one |
| GeoIP.CacheIsBoundedAndFresh | pkg/geoip/resolver.go:115-133 | in every run the cache keeps its limit, and a hit is a result at most an hour old or an Unknown at most 30 seconds old |
| GeoIP.AtMostSixFailures | pkg/geoip/resolver.go:135-159 | with two concurrent calls and no recorded success, any window of the breaker's open duration records at most six failures |
| GeoIP.FifthFailureOpens | pkg/geoip/resolver.go:150-159 | after a success and any further failures the breaker is open iff the last fifth one was less than 30 seconds ago, and the count is the number of failures since |
| GeoIP.ServedUntil | pkg/geoip/resolver.go:115-133 | a written result hits up to and including an hour later if it was looked up, 30 seconds if not |
| GeoIPSharp.SixFailuresHappen | pkg/geoip/resolver.go:150-159 | a run without a success records six failures in one such window |
| GeoResolverCode.Resolver.Resolve | pkg/geoip/resolver.go:51-86 | the reply, the breaker and the cache in each case: local, hit, open breaker, first successful attempt of three with its country and city, none |
| GeoResolverCode.Resolver.EvictExpired | pkg/geoip/resolver.go:161-181 | the two loops leave what eviction may leave |
| GeoResolverCode.Resolver.SetCache | pkg/geoip/resolver.go:127-133 | the entry is written with its lifetime, then eviction |
| GeoResolverCode.Resolver.GetCached | pkg/geoip/resolver.go:115-125 | the entry's result iff there is one that has not expired |
| GeoResolverCode.Resolver.RecordFailure | pkg/geoip/resolver.go:150-159 | the fifth failure opens the breaker and starts the count again |
| GeoResolverCode.ResolveIsRun | pkg/geoip/resolver.go:51-86 | an uninterrupted call has the effect of a run of the two-call step system |
| GeoResolverCode.HitAfterAnswer | pkg/geoip/resolver.go:104-112 | after a call whose first answer came at attempt i the address, unless evicted, hits for an hour with that answer's country and city, Unknown where one is empty |

## Left out

- HTTP handlers, routing, CORS, request ids, logging and configuration: plumbing around the modelled calls.
- Signing and parsing of tokens, Google sign-in, password hashing: library calls. Login is modelled from the point where the user is known.
- The Redis branch of `RateLimit`: its INCR and EXPIRE are separate commands with the error ignored, so no bound per window follows.
- Destination-address validation is a Boolean parameter of Create; merging of query strings, user-agent parsing and bot detection are library calls.
- JSON encoding of clicks and cache entries, and with it the branch that deletes invalid stream entries.
- The generator behind hashes: a candidate is a parameter.
- Lower-casing and trimming of a source's name: the name is taken as the repository stores it.
- Group operations and `BatchCreateSources`: each is a loop over, or a copy of, operations that are modelled.
- The link service's reads of links and sources, recent activity, unique visitors, bot counts and the last click: reads that the results do not need.
- The text that `ListByUserID` builds and its source filter: only what the joins do to the click count is modelled.
- Failures of a row scan in the aggregate queries: the rows are taken as the query gives them.
- Deletion of users, and the rows deleted with them.
- Several server processes on one stream, and a process that starts while another still runs.
- Eventual persistence: a batch that violates a foreign key, or that has outgrown PostgreSQL's limit on parameters, is rejected at every attempt, and the code gives no guarantee then.
- Reads of the click worker's clock inside one step: a step sees one time.
- Iteration order of Go maps: the deleting loops take the keys in an arbitrary order.
- PipelineMultiplicity.AtMostOnce: excludes runs with a harmful step, after each of which it can fail (AtMostOnceIff); RowsBounded covers all runs.
- Redirects.ReturnedAnswersWereTrue: asks that no hash is ambiguous at any moment, which the services do not ensure; otherwise it can fail (TruthfulIff). It says nothing about a reply of not found, which a failing read can also cause.
- ClickWorkerCode.ClickWorker.Process: one goroutine without interruption; interruptions between its sections are those of ClickWorker.Interleave.
- ClickWorkerCode.LoopIsRun: covers that same uninterrupted goroutine, for the order of its sections.
- BatchInsert.BatchInsert: stops before the statement is sent; what its execution does to the table is the insert step of the pipeline.
