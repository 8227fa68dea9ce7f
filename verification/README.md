# Verified model of the lint-in-the-dead platform

This project models the parts of the platform that keep state or do arithmetic, and proves what they
guarantee over every input, every run and every interleaving:

* the gateway's token-bucket limiter, against a declarative rule about every time window;
* the WebSocket hub and the server-sent-events broker, two fan-out protocols with opposite answers to a slow
  consumer, the second one down to the backing arrays of its Go slices;
* the analysis service's job pipeline, from submission to the stored result, with its counters and gauge;
* the TTL cache and the analyser's use of it;
* the two audit stores, one a SQL builder and one a direct filter;
* the analysers: Shannon entropy and the secret scanner, the rule evaluator and its suppression directives,
  and the pom.xml dependency scanner;
* retry with backoff, the latency histogram, the score and the three verdicts drawn from it.

Time is a real number and passes as a parameter. Go channels are bounded sequences. Objects with fields that
change are classes; each of their methods is specified by a function on values, and runs are sequences of
those functions' steps, so that a theorem about runs is a theorem about the methods.

| file | models |
|---|---|
| `RateLimiter.dfy` | services/api-gateway/middleware/ratelimit.go |
| `Hub.dfy` | services/api-gateway/server/ws.go |
| `SseBroker.dfy`, `SseSlices.dfy`, `SseRaces.dfy`, `SseRaceRuns.dfy` | services/api-gateway/server/sse.go: as atomic steps, as slices over arrays, and a publish racing with subscribes and unsubscribes |
| `Pipeline.dfy`, `PipelineInvariants.dfy`, `JobPlaces.dfy`, `Draining.dfy` | services/analysis-service/main.go, services/analysis-service/analyzer/workers.go, pkg/queue/queue.go |
| `TtlCache.dfy`, `Analyzer.dfy` | pkg/cache/cache.go, services/analysis-service/analyzer/analyzer.go, services/api-gateway/server/webhook.go |
| `AuditStore.dfy`, `AuditPages.dfy` | services/audit-service/store/postgres.go, services/audit-service/store/memory.go |
| `Entropy.dfy` | pkg/entropy/entropy.go |
| `Rules.dfy` | pkg/rules/evaluator.go |
| `PomXml.dfy` | pkg/deps/scanner.go, services/analysis-service/analyzer/analyzer.go |
| `Retry.dfy` | pkg/retry/retry.go |
| `Histograms.dfy` | pkg/metrics/metrics.go |
| `Scoring.dfy` | pkg/models/analysis.go, cmd/litd/check.go, services/policy-engine/engine/engine.go |
| `Models.dfy`, `Text.dfy` | shared records; the string functions and line scanner of Go's standard library |

## What the code does not do

Where a natural claim is false of the code, the model keeps the code, names an input, and proves exactly when
the claim holds.

* A limiter of capacity below 1 admits a client's first call and, without purges, no other
  (`TinyCapacityAdmitsOnlyTheFirstCall`); as deployed it admits a call exactly when a purge has forgotten every
  earlier one of the client (`TinyCapacityAdmitsTheForgotten`, `ForgottenClientIsAdmittedAgain`). A purge can be
  noticed, and the window rule and the window bound fail, unless capacity is at least 1 and ten minutes refill a
  bucket (`PurgeInvisibleIff`, `WindowRuleIff`, `WindowBoundIff`); rate and burst are free configuration.
* `Publish` reads a slice after releasing the lock, while `unsubscribe` shifts the same array and `subscribe`
  writes into it: a subscriber can be skipped, another served twice (`RaceSkipsOneAndRepeatsTheLast`,
  `RaceIsHarmlessIff`), and a newcomer can be sent an event older than its subscription in place of a subscriber
  that stays (`NewcomerCanTakeAPlace`). For any schedule of subscribes and unsubscribes `SendsAreConserved` gives
  the exact number of sends to every channel, and `SubscriberIsServedIff` says who is missed.
* The failure test in the job consumer is always false, so `jobs_failed_total` stays 0 (`MetricsAreExact`); the
  queue gauge can be negative in between (`GaugeCanGoNegative`). `Enqueue` blocks on a full queue and never
  fails, so the handler's "queue full" answer is unreachable. A worker count of 0 is accepted, and then no job is
  ever stored (`AllIsStoredAtRestIff`, `WithoutWorkersNothingIsStored`).
* A run scans a branch of a URL, and the cache key holds neither; the commit hash it does hold plays no part in the
  clone. Jobs get recent scans of their own branch in every interleaving exactly when equal keys mean equal URL and
  branch (`CacheIsTransparentIff`). Manually submitted jobs, which carry neither owner nor name, share results
  whenever their hashes agree, whatever their URLs (`ManualJobsShareKeysByHashAlone`, `ManualJobsAreMixedUp`).
* The cache key is ambiguous when the owner holds a slash, the name a slash or an at-sign, or the hash an at-sign,
  and only then (`UnambiguousIff`); exactly then some interleaving gives the job a result labelled with another
  owner, name or hash (`JobIsAlwaysAnsweredRightlyIff`).
* A job whose analysis fails is stored and answered like any other, as an empty result with a score of 0
  (`ErrorIsAnEmptyResult`, `StoreIsFaithful`).
* The in-memory audit store slices past its matches: it pages as SQL does only under `MemoryPagesLikeSqlIff`, and
  `PanicsOrServesBlanksIff` says when it panics instead and when it serves blank entries from spare capacity; an
  offset of 1 without a limit is enough (`OffsetOneGoesWrong`). It pages from the oldest entry and Postgres from the
  newest, so the two serve the same page of a chronological log only when it is the middle one
  (`PagedStoresAgreeIff`), and of any log only when the page's entries belong there newest first, however entries
  of one time are ordered (`EveryAnswerAgreesIff`).
* Every line scanner stops without a word at the first line of more than 65,535 characters
  (`EverythingIsScannedIff`, `OverlongFirstLineHidesEverything`), as minified code has. Rules then miss matches and
  even the directive that should have silenced them, exactly under the condition of `NothingHiddenIff`; the secret
  scanner misses nothing exactly when only comments follow (`ScanMissesNothingIff`).
* Rules that share an ID share the expression compiled last: evaluation is sound and complete exactly when every
  rule that can be considered has its own, on files whose lines all fit (`SoundAndCompleteIff`).
* Inside a `<dependency>` the last line that sets a field wins, nested or not (`FieldsAreTheLastSet`), so an exclusion
  takes the place of the dependency (`ExclusionReplacesTheDependency`).
* A closing `</dependency>` line outside an element records the previous dependency again
  (`RecordsOutsideAnElementIff`).
* `Do` reports success for a permanent error with a nil cause (`NilIff`), and its first wait ignores the cap
  (`DelayIsCappedExponentialIff`).
* Histogram buckets count up to their bounds only for ascending bounds, which nothing enforces
  (`BucketsAreExactIff`), and the bound is printed rounded to an integer, so that printed buckets are exact only when
  every bound is printed as the highest so far (`PrintedBucketsAreExactIff`, `HalfIsPrintedAsZero`).
* README.md:148-159 gives a medium finding a weight of 5 and passes at a score of 70; the code uses 4 and
  "no critical, no high" (`DocumentedScoreIff`, `DocumentedPassMarkIff`, `DocumentedPassMarkDiffers`).
* The comment on `Shannon` speaks of byte values; the code counts runes, and so does the model.

## Model

| member | source | states |
|---|---|---|
| `RateLimiter.Limiter.Allow` | services/api-gateway/middleware/ratelimit.go:39-59 | the new buckets and the decision are those of one charge: first call admitted, lazy refill up to the cap, one token per admitted call, refusals also move the clock |
| `RateLimiter.Limiter.Purge` | services/api-gateway/middleware/ratelimit.go:61-70 | exactly the buckets last seen more than ten minutes ago go, the others are unchanged |
| `RateLimiter.AdmittedIffEveryWindowHasRoom` | services/api-gateway/middleware/ratelimit.go:39-59 | for capacity at least 1 and any run over any clients, a call is admitted iff every window ending at it, opened at an earlier call of the client, has room for one more |
| `RateLimiter.TinyCapacityAdmitsOnlyTheFirstCall` | services/api-gateway/middleware/ratelimit.go:45-57 | below capacity 1, while nothing is purged, a call is admitted iff it is its client's first |
| `RateLimiter.TinyCapacityAdmitsTheForgotten` | services/api-gateway/middleware/ratelimit.go:39-70 | below capacity 1, with purges anywhere on a monotone clock, a call is admitted iff every earlier call of the client was too old for some purge since |
| `RateLimiter.ForgottenClientIsAdmittedAgain` | services/api-gateway/middleware/ratelimit.go:39-70 | a second call that only the purging limiter admits |
| `RateLimiter.WindowBoundIff` | services/api-gateway/middleware/ratelimit.go:39-70 | no window [s,t] of any run admits more than capacity + rate·(t−s) calls of a client iff, with purges, capacity ≥ 1 and 600·rate ≥ capacity, and without, capacity ≥ 1 and rate ≥ 0 |
| `RateLimiter.WindowBound` | services/api-gateway/middleware/ratelimit.go:39-70 | the bound for one run and window, under that condition; without purges on any clock |
| `RateLimiter.SpacedClientIsNeverRefused` | services/api-gateway/middleware/ratelimit.go:39-70 | for capacity at least 1, a client that spaces its calls by at least 1/rate is never refused, whatever the purges |
| `RateLimiter.PurgingLimiterObeysTheWindowRule` | services/api-gateway/middleware/ratelimit.go:39-70 | when capacity ≥ 1 and 600·rate ≥ capacity, the every-window rule, as an iff, for each call of the limiter with purges anywhere |
| `RateLimiter.WindowRuleIff` | services/api-gateway/middleware/ratelimit.go:39-70 | the limiter with purges obeys the every-window rule on every run iff that condition holds; otherwise a purge lets in a call that overfills a window |
| `RateLimiter.PurgeInvisibleIff` | services/api-gateway/middleware/ratelimit.go:39-70 | purges change no decision of any run iff capacity ≥ 1 and 600·rate ≥ capacity; the converse builds a run that tells the difference for every other configuration |
| `Hub.Server.OnRegister` | services/api-gateway/server/ws.go:41-44 | the new state is the registration step's: the client is in the set with an open, empty channel |
| `Hub.Server.OnUnregister` | services/api-gateway/server/ws.go:46-52 | a registered client leaves and its channel is closed; an unknown one changes nothing |
| `Hub.Server.OfferTo` | services/api-gateway/server/ws.go:57-62 | one client's non-blocking send: the event is appended, or the channel is closed and the client dropped |
| `Hub.Server.OfferToAll` | services/api-gateway/server/ws.go:56-63 | visiting the clients in any order serves each exactly once, with deletions during the iteration |
| `Hub.Server.OnBroadcast` | services/api-gateway/server/ws.go:54-64 | serving one broadcast is the delivery step |
| `Hub.HubIsSafe` | services/api-gateway/server/ws.go:38-67 | in every run a client is in the set iff it registered and its channel is open, and no channel is closed twice or sent to after closing |
| `Hub.DroppedIff` | services/api-gateway/server/ws.go:46-63 | a step removes a client iff it unregisters it or delivers to its full buffer |
| `Hub.UnregisteringAClosedClientCrashes` | services/api-gateway/server/ws.go:41-52 | so does unregistering one that was registered again while closed |
| `Hub.ReRegisteringAClosedClientCrashes` | services/api-gateway/server/ws.go:41-63 | the discipline of registering only fresh clients is needed: registering a closed one panics at the next delivery |
| `Hub.HandledIsPublishedPrefix` | services/api-gateway/server/ws.go:54-72 | broadcasts are served in the order they were sent, none lost, none invented |
| `Hub.ClientSeesContiguousSegment` | services/api-gateway/server/ws.go:38-67 | what a client's channel accepted is a gap-free segment of the broadcasts starting at its registration, and reaches to the last one served while the client stays |
| `Hub.AcceptedGrows` | services/api-gateway/server/ws.go:38-67 | nothing accepted is ever lost: what a channel has accepted at any point of a run begins what it has accepted at the end |
| `Hub.GoneClientKeepsItsSegment` | services/api-gateway/server/ws.go:46-63 | a client that left or was dropped keeps, for its writer to receive, exactly the broadcasts from its registration to the one that dropped it |
| `Hub.BroadcastBlocksIff` | services/api-gateway/server/ws.go:70-72 | a sender blocks iff 256 broadcasts are pending, and there are never more |
| `SseBroker.ListsStayTidy` | services/api-gateway/server/sse.go:53-74 | in every run each channel is at most once under one job and no job maps to an empty list |
| `SseBroker.SubscriberIsAMailbox` | services/api-gateway/server/sse.go:27-74 | each channel behaves as an independent bounded mailbox fed with exactly the events addressed to its job while subscribed |
| `SseBroker.PublishReaches` | services/api-gateway/server/sse.go:27-51 | a publish appends the event to the channels of its job, a publish to all to those of every job, each unless 64 are pending, and changes nothing else |
| `SseBroker.SubscriptionMoves` | services/api-gateway/server/sse.go:53-74 | subscribing puts an empty channel last; unsubscribing takes out the one place of the channel, keeps the order of the others, and the job only while somebody is left |
| `SseBroker.KeptOffers` | services/api-gateway/server/sse.go:32-35 | a mailbox's contents are an in-order subsequence of its offers, one copy each |
| `SseBroker.LostIffFull` | services/api-gateway/server/sse.go:32-35 | an offer is lost iff 64 events were pending when it was made |
| `SseBroker.SubscriberReceives` | services/api-gateway/server/sse.go:27-74 | in every run a subscriber gets an in-order subsequence, one copy per publish, of the events addressed to it, missing one iff 64 were pending |
| `SseSlices.CloseGap` | services/api-gateway/server/sse.go:67 | the in-place shift of the backing array, slots beyond the slice untouched |
| `SseSlices.Broker.Subscribe` | services/api-gateway/server/sse.go:53-59 | append is the subscribe step: it writes the next slot of the array when there is one, and otherwise leaves that array untouched for a fresh one |
| `SseSlices.Broker.Find` | services/api-gateway/server/sse.go:65-66 | the search returns the first position of the channel, or the length |
| `SseSlices.Broker.Unsubscribe` | services/api-gateway/server/sse.go:61-74 | the shift and the removal of an empty list are the unsubscribe step, and what the old array holds afterwards, whether or not the channel was found |
| `SseSlices.Broker.Publish` | services/api-gateway/server/sse.go:27-37 | with nothing in between, publishing through the arrays is the publish step |
| `SseSlices.Broker.PublishAll` | services/api-gateway/server/sse.go:40-51 | visiting the jobs in any order offers the event to every subscriber once |
| `SseSlices.Broker.PublishAroundUnsubscribe` | services/api-gateway/server/sse.go:28-36 | the channels served when an unsubscribe falls between two iterations of a publish |
| `SseSlices.RaceIsHarmlessIff` | services/api-gateway/server/sse.go:28-31 | that interleaving serves the list unchanged iff the last position was removed or at most one position was left to serve |
| `SseSlices.RaceSkipsOneAndRepeatsTheLast` | services/api-gateway/server/sse.go:28-31 | otherwise exactly one channel is skipped and the last is served twice; when the publisher had passed the removed position, the skipped one is still subscribed |
| `SseRaceRuns.PublishAmid` | services/api-gateway/server/sse.go:27-74 | a publish run on the broker's arrays, with any subscribes and unsubscribes between its visits, sends to exactly the channels of the race machine |
| `SseRaceRuns.HeaderIsBegin` | services/api-gateway/server/sse.go:28-30 | what a publisher's header shows when it is read is the machine's starting state: the job's list, then whatever the array holds beyond it |
| `SseRaces.SendsAreConserved` | services/api-gateway/server/sse.go:27-74 | for every schedule and every channel: sends + moves that take a copy of it out of the publisher's way = its places in the list + moves that put one there |
| `SseRaces.ServedIff` | services/api-gateway/server/sse.go:27-74 | read as conditions: who is served at all, newcomers included, and who more than once |
| `SseRaces.SubscriberIsServedIff` | services/api-gateway/server/sse.go:27-74 | a subscriber of the list is served iff no move takes away the last copy of it ahead of the publisher |
| `SseRaces.WaysToLose` | services/api-gateway/server/sse.go:56-67 | a channel that stays loses a copy iff one before the publisher leaves while it is next and not last, or a newcomer is written over the copy it left behind |
| `SseRaces.WayToGain` | services/api-gateway/server/sse.go:67 | and gains one iff it is last in the list, or first beyond the publisher's slots, and an earlier one leaves with a slot before it still to be visited |
| `SseRaces.OnlySubscribersAreServed` | services/api-gateway/server/sse.go:27-74 | only channels of the list and channels that joined during the publish are sent to |
| `SseRaces.NewcomerCanTakeAPlace` | services/api-gateway/server/sse.go:27-74 | a schedule in which a subscriber that stays is skipped and a newcomer served instead |
| `SseRaceRuns.OneUnsubscribe` | services/api-gateway/server/sse.go:28-36 | with one unsubscribe the machine serves what PublishAroundUnsubscribe returns |
| `PipelineInvariants.InvAlways` | services/analysis-service/main.go:49-70 | the order, slot, value, store, gauge and counter invariants hold in every reachable state, for any number of workers |
| `JobPlaces.ExactlyOnePlace` | services/analysis-service/main.go:49-70 | in every reachable state each accepted job is in exactly one place: queue, dispatcher, pool, worker, result channel, waiter or store |
| `JobPlaces.PickedInOrderOfAcceptance` | services/analysis-service/analyzer/workers.go:38-56 | workers pick jobs up in the order in which they were accepted |
| `JobPlaces.SendNeverBlocks` | services/analysis-service/analyzer/workers.go:61-63 | a worker's send of its result is always possible |
| `JobPlaces.BlockedIff` | services/analysis-service/main.go:38 | in every run a submission blocks iff 512 jobs are queued, and the dispatcher iff it holds a job while the pool holds four for every worker |
| `JobPlaces.StoreIsFaithful` | services/analysis-service/main.go:58-68 | the store holds for each ID what the last stored job of that ID produced: its findings with their own total, tallies, score and verdict, or an error's empty result |
| `JobPlaces.DistinctIdsAreAnsweredIndividually` | services/analysis-service/main.go:58-68 | with distinct IDs every stored job is answered with what its own worker made |
| `JobPlaces.MetricsAreExact` | services/analysis-service/main.go:55-64 | gauge + raised-late − lowered-late is the queue length in every interleaving, exact when quiescent; completed counts the received results and failed is 0 |
| `JobPlaces.GaugeCanGoNegative` | services/analysis-service/main.go:51-98 | a run in which the gauge is −1 |
| `Draining.StepsCountDown` | services/analysis-service/main.go:49-70 | every step other than a submission brings the pipeline exactly one step closer to rest |
| `Draining.NeverStuck` | services/analysis-service/main.go:49-70 | with at least one worker and anything left to do, some goroutine can move |
| `Draining.RestIff` | services/analysis-service/main.go:49-70 | nothing can move iff nothing is left to do, and then every accepted job is stored |
| `Draining.EveryScheduleDrains` | services/analysis-service/main.go:49-70 | every schedule without new submissions rests after the same number of steps, with every accepted job stored |
| `Draining.WithoutWorkersNothingIsStored` | services/analysis-service/analyzer/workers.go:25-40 | with a worker count of 0 no run ever hands a job on or stores a result |
| `Draining.AllIsStoredAtRestIff` | services/analysis-service/analyzer/workers.go:25-40 | every run that comes to rest has stored every accepted job iff there is at least one worker |
| `TtlCache.TTL.Set` | pkg/cache/cache.go:37-41 | the entry is replaced with a fresh lifetime, the others are unchanged |
| `TtlCache.TTL.Get` | pkg/cache/cache.go:44-53 | a hit iff there is an entry that has not expired |
| `TtlCache.TTL.Delete` | pkg/cache/cache.go:56-60 | the key goes, the others are unchanged |
| `TtlCache.TTL.Evict` | pkg/cache/cache.go:75-84 | exactly the expired entries go |
| `TtlCache.GetReturnsLastFreshWrite` | pkg/cache/cache.go:37-84 | over any run, a read hits with v iff the last write to the key set v at a time t with now ≤ t + ttl |
| `TtlCache.SweepsAreInvisible` | pkg/cache/cache.go:75-84 | evictions inserted anywhere change no read |
| `TtlCache.SweepLeavesTheFresh` | pkg/cache/cache.go:75-84 | right after a sweep the cache holds exactly the last writes that have not expired, each with its own expiry |
| `Analyzer.KeyIsInjective` | services/analysis-service/analyzer/analyzer.go:51 | among owners without a slash and hashes without an at-sign the key determines owner, name and hash |
| `Analyzer.UnambiguousIff` | services/analysis-service/analyzer/analyzer.go:51 | a key has a single reading iff the owner has no slash, the name neither slash nor at-sign, and the hash no at-sign |
| `Analyzer.SplitOwnerRepo` | services/api-gateway/server/webhook.go:118-125 | the owner has no slash, and owner and name rejoin to the input when it holds one |
| `Analyzer.ManualJobsShareKeysByHashAlone` | services/api-gateway/server/jobs.go:41-49 | jobs without owner and name share a key iff their hashes agree |
| `Analyzer.Service.Run` | services/analysis-service/analyzer/analyzer.go:50-102 | a hit returns the cached result under the job's ID without touching the cache; a miss that finds something caches and returns the findings with their own total, tallies, score and verdict; an error leaves the cache alone |
| `Analyzer.FreshIsGenuine` | services/analysis-service/analyzer/analyzer.go:80-91 | a fresh result is labelled for its job and its total, both tallies, score and verdict are those of its findings |
| `Analyzer.ErrorIsAnEmptyResult` | services/analysis-service/analyzer/workers.go:56-59 | an error's result carries the job's ID and nothing else: no findings, score 0, not passed, unlike a run that finds nothing |
| `Analyzer.RunIsLookThenSave` | services/analysis-service/analyzer/analyzer.go:50-102 | an uninterrupted run is the look step followed, after a miss that finds something, by the save step of the interleaved machine |
| `Analyzer.CacheKeysAreRebuilt` | services/analysis-service/analyzer/analyzer.go:81-93 | in every interleaving of runs, whatever the cache holds was saved under its key and rebuilds it |
| `Analyzer.ResultsCarryTheJobsKey` | services/analysis-service/analyzer/analyzer.go:52-56 | every result in every interleaving has the findings and labels saved for a job of the same key at most 7200 seconds ago, the total, tallies, score and verdict of those findings, and the job's own ID |
| `Analyzer.ResultsAreForTheJob` | services/analysis-service/analyzer/analyzer.go:50-102 | with owners free of slashes and hashes free of at-signs every run returns a result for the job's own owner, name and hash |
| `Analyzer.JobIsAlwaysAnsweredRightlyIff` | services/analysis-service/analyzer/analyzer.go:50-102 | a job gets results labelled with its own owner, name and hash in every interleaving with any other jobs iff its key has a single reading |
| `Analyzer.CacheIsTransparentIff` | services/analysis-service/analyzer/analyzer.go:50-137 | for a set of jobs, whatever the repositories hold and however runs interleave, every result is a scan of the job's own URL and branch at most two hours old, iff jobs with equal keys have equal URL and branch |
| `Analyzer.ManualJobsAreMixedUp` | services/api-gateway/server/jobs.go:41-49 | manual jobs for two URLs at one hash: the key has a single reading and the second job is still given the first one's scan |
| `Analyzer.SharedKeysShareResults` | services/analysis-service/analyzer/analyzer.go:51-56 | within the lifetime a second job is answered with the first one's result iff the keys agree |
| `Analyzer.AHitCanBeForAnotherRepository` | services/analysis-service/analyzer/analyzer.go:51-56 | two different repositories for which that happens |
| `AuditStore.AddFilter` | services/audit-service/store/postgres.go:75-79 | one conditional comparison: numbering stays right, and the rows kept are those kept before that also satisfy it |
| `AuditStore.BuildWhere` | services/audit-service/store/postgres.go:70-99 | placeholders are 1..len(args) in order, and WHERE keeps exactly the entries the in-memory filter keeps, for every combination of filters |
| `AuditStore.AddPaging` | services/audit-service/store/postgres.go:101-109 | LIMIT or OFFSET is appended with its argument and the next placeholder exactly when positive, and keeps the same rows |
| `AuditStore.BuildQuery` | services/audit-service/store/postgres.go:69-109 | the same for the whole statement, its clauses in the order filters, ORDER BY, LIMIT, OFFSET, with LIMIT and OFFSET bound to their own arguments exactly when positive |
| `AuditStore.FilterByFilter` | services/audit-service/store/memory.go:38-53 | the five filters work one by one: text equal, times inclusive, absent ones, limit and offset exclude nothing |
| `AuditStore.PageIs` | services/audit-service/store/postgres.go:101-109 | a page of the reference starts at the offset and has as many rows as are left, up to a positive limit |
| `AuditStore.Memory.Insert` | services/audit-service/store/memory.go:22-30 | the entry is appended, signed if it came unsigned, and otherwise unchanged |
| `AuditStore.Memory.Query` | services/audit-service/store/memory.go:32-64 | the filter in insertion order, then Go's slice expression with its capacity check |
| `AuditStore.Memory.Verify` | services/audit-service/store/memory.go:66-75 | true iff the first entry of that ID carries the signature of its payload |
| `AuditStore.InsertedEntriesVerify` | services/audit-service/store/memory.go:22-75 | a new entry verifies iff it came unsigned or rightly signed, and no other entry's verdict changes |
| `AuditStore.StoresAgreeUnpaged` | services/audit-service/store/postgres.go:100-127 | without paging, every answer of the database is the memory store's answer as a multiset, newest first |
| `AuditStore.PagedStoresAgreeIff` | services/audit-service/store/postgres.go:100-127 | with any limit and offset, on matches inserted in time order, the two stores serve the same entries iff the page is past the end or in the middle |
| `AuditPages.EveryAnswerAgreesIff` | services/audit-service/store/postgres.go:100-127 | for any log of distinct entries, every answer the database may give holds the memory store's entries iff the page is past the end, or is full and each entry's newest-first places lie all inside the page or all outside it, as memory has it |
| `AuditPages.PlaceInOrder` | services/audit-service/store/postgres.go:100 | newest first, an entry stands behind all newer ones and before all older ones |
| `AuditPages.CanStandAt` | services/audit-service/store/postgres.go:100 | and can stand at every place of its time in some answer |
| `AuditStore.MemoryPagesLikeSqlIff` | services/audit-service/store/memory.go:55-63 | the memory store's page is SQL's page of its matches iff the offset is 0, or positive and past the matches, or positive with a positive limit that leaves a full page |
| `AuditStore.PanicsOrServesBlanksIff` | services/audit-service/store/memory.go:55-63 | it panics iff the offset is negative or the page ends beyond the capacity, and serves blank entries after the last match iff the page ends between the matches and the capacity |
| `AuditStore.OffsetOneGoesWrong` | services/audit-service/store/memory.go:55-63 | offset 1 without a limit: a panic on two matches at capacity 2, a blank entry on three at capacity 4 |
| `Entropy.CountCharacters` | pkg/entropy/entropy.go:36-40 | the map holds exactly the characters of the string with their multiplicities |
| `Entropy.AddTerms` | pkg/entropy/entropy.go:41-45 | accumulating over the map's keys in any order gives minus the sum of p·log2(p) |
| `Entropy.Shannon` | pkg/entropy/entropy.go:32-47 | the loops compute the entropy of the character distribution, 0 for the empty string |
| `Entropy.Gibbs` | pkg/entropy/entropy.go:41-46 | Gibbs' inequality: the entropy of any distribution is at most log2 of its support's size |
| `Entropy.EntropyUpperBound` | pkg/entropy/entropy.go:32-47 | entropy is at most log2 of the number of distinct characters |
| `Entropy.EntropyLowerBound` | pkg/entropy/entropy.go:32-47 | entropy is never negative, and 0 iff there is at most one distinct character |
| `Entropy.UniformEntropy` | pkg/entropy/entropy.go:32-47 | the upper bound is met when all characters are equally frequent |
| `Entropy.EntropyByCounts` | pkg/entropy/entropy.go:36-46 | entropy from the counts alone: n·H = n·log2(n) − the sum of f·log2(f) over the multiplicities f of a string of length n |
| `Entropy.BitsAroundTheThreshold` | pkg/entropy/entropy.go:17 | log2(22) < 4.5 < log2(23), from the laws of the logarithm alone |
| `Entropy.Scan` | pkg/entropy/entropy.go:60-103 | the findings are exactly those of the reportable candidates, each once, in reading order: path, line counted from one, first and last four characters around "***", entropy, trimmed line |
| `Entropy.RedactShows` | pkg/entropy/entropy.go:135-140 | up to eight characters nothing is shown; of more, the first four, "***" and the last four |
| `Entropy.RedactHides` | pkg/entropy/entropy.go:135-140 | values of more than eight characters are told apart by their redactions iff their first four or last four characters differ |
| `Entropy.CandidateIff` | pkg/entropy/entropy.go:130-132 | a candidate is twelve or more characters, all letters, digits or one of + / = _ -; the hexadecimal alphabet adds none |
| `Entropy.CommentIff` | pkg/entropy/entropy.go:73-79 | a line is skipped iff after white space it starts with #, * or // |
| `Entropy.ReportedValuesAreDiverse` | pkg/entropy/entropy.go:82-98 | a value reported at the default threshold or above has at least 23 distinct characters and is not hexadecimal, whatever its length |
| `Entropy.TwentyThreeIsEnough` | pkg/entropy/entropy.go:87-98 | the bound is exact: at the default threshold or below a candidate of 23 or more equally frequent characters is reported |
| `Entropy.ScanMissesNothingIff` | pkg/entropy/entropy.go:66-71 | at the default threshold or below, for all candidates, the lines scanned give the same reports as all lines of the text iff only comments stand behind the first over-long line |
| `Text.RawLinesAreTheText` | pkg/rules/evaluator.go:101-105 | the reference: lines without line feeds that written out again are the text |
| `Text.ScannerStops` | pkg/rules/evaluator.go:101-105 | a scanner yields the lines up to the first of more than 65,535 characters and nothing from it on |
| `Text.EverythingIsScannedIff` | pkg/rules/evaluator.go:101-105 | what is scanned is a prefix of all lines, and all of them iff every line fits |
| `Text.OverlongFirstLineHidesEverything` | pkg/rules/evaluator.go:101-105 | an over-long first line leaves nothing to scan |
| `Text.LinesOfCrlf` | pkg/rules/evaluator.go:101-105 | lines written with carriage return and line feed are scanned without either |
| `Text.TrimSpaceIs` | pkg/rules/evaluator.go:153 | trimming takes white space off both ends, all of it and nothing else |
| `Text.SpacesAre` | pkg/rules/evaluator.go:153 | white space is the six ASCII characters |
| `Rules.FirstDirective` | pkg/rules/evaluator.go:149 | after a prefix free of it, the directive is found at the prefix's end: it cannot overlap itself |
| `Rules.DirectiveSuppressesExactlyTheListed` | pkg/rules/evaluator.go:148-163 | a directive with a list of IDs suppresses a rule iff its ID is listed |
| `Rules.BareDirectiveSuppressesAll` | pkg/rules/evaluator.go:153-156 | a directive followed by nothing but spaces suppresses every rule |
| `Rules.LineIgnoredIff` | pkg/rules/evaluator.go:148-163 | for any line: without the directive nothing is suppressed; after the first one, everything if only white space follows, else exactly the rules named between commas, white space aside |
| `Rules.IgnoredWithinIff` | pkg/rules/evaluator.go:132-140 | a file is ignored iff "litd:ignore-file" stands anywhere in one of its first ten lines |
| `Rules.NewEvaluator` | pkg/rules/evaluator.go:24-39 | construction succeeds iff every needed expression compiles, and the map is that of the rules, later IDs overwriting earlier ones |
| `Rules.CompiledIsTheLast` | pkg/rules/evaluator.go:29-37 | under an ID stands the expression of the last rule of that ID that has one, and nothing stands there iff none has |
| `Rules.OwnExpression` | pkg/rules/evaluator.go:29-37 | with distinct IDs each rule is evaluated with its own expression |
| `Rules.EvalLines` | pkg/rules/evaluator.go:100-128 | one finding per matching, unsuppressed line, in order, with line and column |
| `Rules.EvalRegex` | pkg/rules/evaluator.go:76-129 | one rule on one file, any rule and any file, including the negated and the uncompiled case |
| `Rules.EvaluateOne` | pkg/rules/evaluator.go:63-74 | a single rule on a single file: the same findings as in a full evaluation when the rule is considered there |
| `Rules.EvaluateFile` | pkg/rules/evaluator.go:45-57 | one file: none when ignored, else each enabled rule of a matching language in turn |
| `Rules.Evaluate` | pkg/rules/evaluator.go:42-60 | the findings of all files in order |
| `Rules.EvaluateConcat` | pkg/rules/evaluator.go:42-60 | evaluation distributes over concatenation of file lists |
| `Rules.EvaluationReports` | pkg/rules/evaluator.go:42-140 | for any rules, the findings are, one to one and ordered by file, rule and line, the places where the expression compiled under the rule's ID reports, each with the rule's ID, name, category, severity, message and fix, the path, line, column and trimmed line |
| `Rules.SoundAndCompleteIff` | pkg/rules/evaluator.go:24-140 | for every engine, and every list of files whose lines all fit, the findings are the places among all lines where the rule's own expression should report iff every rule that can be considered has its own expression compiled under its ID |
| `Rules.NothingHiddenIff` | pkg/rules/evaluator.go:76-140 | for rules with their own expressions and any files, that holds for every engine iff nothing that a rule would report, and no directive that would silence it, stands behind an over-long line |
| `Rules.OverlongFirstLineSilencesRules` | pkg/rules/evaluator.go:101-127 | a file that starts with an over-long line gets findings from negated rules only |
| `Rules.EvaluationIsSoundAndComplete` | pkg/rules/evaluator.go:42-140 | with distinct IDs, and nothing hidden behind an over-long line: one finding per matching unsuppressed line of the file, or per file without a match for a negated rule |
| `PomXml.Parse` | pkg/deps/scanner.go:203-240 | the loop's dependencies are those of the line-by-line state machine |
| `PomXml.FindTagIsLeftmost` | pkg/deps/scanner.go:198-200 | a search finds the text of the leftmost complete element of that name at or after a position, and nothing iff there is none |
| `PomXml.SetsIff` | pkg/deps/scanner.go:231-237 | a line sets its group if it holds a groupId element, else its artifact, else its version, and nothing iff it holds none |
| `PomXml.ClosingLine` | pkg/deps/scanner.go:217-227 | from any state a closing line records group:artifact, or the artifact alone, with the version, iff there is an artifact, and leaves the element |
| `PomXml.FieldLine` | pkg/deps/scanner.go:231-237 | a printed field line sets its own field to its text and touches nothing else |
| `PomXml.RunPrintDep` | pkg/deps/scanner.go:209-238 | one printed dependency, from any state, adds exactly itself, closes the element and leaves its own fields |
| `PomXml.RoundTrip` | pkg/deps/scanner.go:203-240 | printing any list of dependencies between neutral lines and parsing the text returns the list |
| `PomXml.FieldsComeFromTheCurrentElement` | pkg/deps/scanner.go:212-216 | on any text the fields at a point depend only on the lines since the last opening line |
| `PomXml.FieldsAreTheLastSet` | pkg/deps/scanner.go:231-237 | between an opening line and the next opening or closing one, each field is the text of the last line that sets it |
| `PomXml.ExclusionReplacesTheDependency` | pkg/deps/scanner.go:209-238 | a dependency with an exclusion is recorded under the exclusion's coordinates |
| `PomXml.RecordsOutsideAnElementIff` | pkg/deps/scanner.go:217-230 | outside an element something is recorded iff a line closes one and an artifact is left over, and it is copies of that dependency |
| `PomXml.RepeatedCloseRepeatsTheDependency` | pkg/deps/scanner.go:217-227 | for instance, a second closing line records a printed dependency twice |
| `PomXml.ReportUnpinned` | services/analysis-service/analyzer/analyzer.go:263-277 | the loop's findings are those of the versionless dependencies |
| `PomXml.OneFindingPerVersionlessDependency` | services/analysis-service/analyzer/analyzer.go:256-280 | exactly one finding per dependency printed without a version, in order: DEP-001, compliance, medium, line 1, naming the dependency |
| `Retry.Do` | pkg/retry/retry.go:36-73 | fn is called up to the first success, permanent error, cancelled wait or the last attempt, with the matching result and the exact sequence of waits |
| `Retry.OneRunPerWorld` | pkg/retry/retry.go:36-73 | that description determines the run |
| `Retry.WhatIsReturned` | pkg/retry/retry.go:36-73 | nil after a success, the cause of a permanent error, at the limit the last error or that attempts are used up, else the context's error; no earlier call succeeded, failed permanently or was cancelled |
| `Retry.PermanentBehindWrappings` | pkg/retry/retry.go:47-50 | a permanent error is recognised behind any number of wrappings, and no other error is |
| `Retry.NilIff` | pkg/retry/retry.go:42-52 | nil is returned iff the last call succeeded or failed permanently with a nil cause |
| `Retry.PermanentNilLooksLikeSuccess` | pkg/retry/retry.go:49-52 | such a first call ends the run as a success |
| `Retry.MoreAttemptsNeverHurt` | pkg/retry/retry.go:40-67 | with more attempts allowed, a verdict reached before the last attempt stays and a success is never lost |
| `Retry.DelayIsCappedExponentialIff` | pkg/retry/retry.go:37-66 | every nominal delay is min(base·multiplier^j, max) iff base ≤ max |
| `Retry.DelayAfterTheFirst` | pkg/retry/retry.go:63-66 | past the first wait the cap always holds, whatever the base |
| `Retry.JitterBand` | pkg/retry/retry.go:105-111 | a wait is within the jitter's fraction of the nominal delay on both sides |
| `Retry.JitterCoversTheBand` | pkg/retry/retry.go:105-111 | every length in the band, its upper end aside, is the wait of exactly one draw in [0,1) |
| `Retry.JitterIsEven` | pkg/retry/retry.go:105-111 | the draw moves the wait evenly from the lower end of the band to the upper |
| `Retry.TotalWaiting` | pkg/retry/retry.go:36-73 | at most MaxAttempts−1 waits, each in its band, in total at most (MaxAttempts−1)·max·(1+jitter) |
| `Retry.DoHTTP` | pkg/retry/retry.go:76-95 | every call but the last failed or answered 429, 502, 503 or 504; the response is the last call's even beside an error; and which error comes back, the status of the last answer included, with the exact condition for nil |
| `Histograms.Histogram.Observe` | pkg/metrics/metrics.go:47-59 | one observation joins the history, and each bucket still counts the observations its bound reaches first |
| `Histograms.Histogram.Render` | pkg/metrics/metrics.go:160-173 | each bucket is printed under its rounded bound with the number of observations up to the highest bound so far, up to its own bound when bounds ascend; buckets never decrease, +Inf and count equal the number of observations |
| `Histograms.SumAdds` | pkg/metrics/metrics.go:47-50 | the rendered sum is the sum: 0 of none, x of x alone, and additive over runs of observations |
| `Histograms.BucketsAreExactIff` | pkg/metrics/metrics.go:47-59 | buckets count the observations at or below their own bounds, for all observations, iff the bounds ascend |
| `Histograms.PrintedBucketsAreExactIff` | pkg/metrics/metrics.go:165-168 | printed buckets mean what the section "Histograms and summaries" of the Prometheus text format 0.0.4 says, for all observations, iff every bound is printed as the highest bound so far |
| `Histograms.AscendingBoundsAreLabelledIff` | pkg/metrics/metrics.go:165-168 | for ascending bounds that means that every bound is an integer |
| `Histograms.HalfIsPrintedAsZero` | pkg/metrics/metrics.go:165-168 | a bound of one half is printed as 0 and counts an observation above 0 |
| `Histograms.DefaultBucketsAreExact` | pkg/metrics/metrics.go:38 | the default bounds ascend and are exact as printed |
| `Scoring.NewSummary` | pkg/models/analysis.go:61-79 | total, exact tallies of severities and categories, a score of 100 less 20, 10, 4 and 1 per critical, high, medium and low finding but at least 0, and a pass iff no finding is critical or high |
| `Scoring.OneMoreFinding` | pkg/models/analysis.go:61-79 | one more finding adds one to the total and its two tallies, costs its penalty as far as there is score left, and decides the verdict if critical or high |
| `Scoring.NoFindings` | pkg/models/analysis.go:61-79 | no findings: empty tallies, score 100, passed |
| `Scoring.SummaryIgnoresOrder` | pkg/models/analysis.go:61-79 | permuting the findings changes nothing in the summary |
| `Scoring.ScoreRange` | pkg/models/analysis.go:72-76 | the score lies in [0,100] and never rises as findings are added |
| `Scoring.Judge` | services/policy-engine/engine/engine.go:88-101 | blocked iff some finding is critical or high; errors and warnings split the messages in order, with one rule entry per finding |
| `Scoring.MessagesConcat` | services/policy-engine/engine/engine.go:88-101 | findings are judged one by one in order: a critical or high one gives an error, any other a warning |
| `Scoring.ExitCodeIff` | cmd/litd/check.go:477-499 | the exit code read off the tallies is 1 iff some finding fails under the flag |
| `Scoring.StricterFlagsFailMore` | cmd/litd/check.go:477-499 | exit codes never decrease from "critical" through "high" and "medium" to "low" |
| `Scoring.VerdictsAgree` | cmd/litd/check.go:484-487 | passed, exit code 0 under "high" and not blocked are the same verdict |
| `Scoring.TruncationHidesAFailureIff` | cmd/litd/check.go:184-189 | truncation never turns exit code 0 into 1, and turns 1 into 0 iff every failing finding lies beyond the limit |
| `Scoring.TruncationCanHideAFailure` | cmd/litd/check.go:184-189 | a two-finding instance of that |
| `Scoring.DocumentedScoreIff` | README.md:148-159 | the documented score equals the computed one iff there is no medium finding or the score is 0 |
| `Scoring.DocumentedPassMarkIff` | README.md:148-159 | the documented pass mark gives the computed verdict iff the documented deductions are at most 30 exactly when there is no critical or high finding |
| `Scoring.DocumentedPassMarkDiffers` | README.md:148-159 | one high finding and seven medium ones, where the two differ in either direction |

## Left out

- Floating-point rounding, NaN, nanosecond truncation of durations, and 64-bit overflow of counters: numbers are reals and unbounded integers. The gap between log2(22) and 4.5 is far larger than rounding error.
- Text encoding: a string is a sequence of characters, white space is ASCII, and a column is a character index.
- The regular-expression engine: rule matching, the assignment pattern of the entropy scanner and case folding are function parameters; the alphabets and the three pom.xml patterns are spelled out.
- The binary logarithm: any function with log2(2) = 1, the product law and the tangent bound at 1. Its existence is not proved.
- HMAC: `sign` is a function parameter; verification compares with its value.
- The SQL engine: statements are lists of clauses with the usual meaning; Postgres' microsecond timestamps and its inserts are not modelled.
- AuditStore.StoresAgreeUnpaged: stated without LIMIT and OFFSET; with them the stores differ, and AuditPages.EveryAnswerAgreesIff says when they agree.
- AuditStore.PagedStoresAgreeIff: for ascending time stamps; any other log is AuditPages.EveryAnswerAgreesIff.
- AuditPages.EveryAnswerAgreesIff: the entries are distinct, which Postgres' primary key guarantees for its own table.
- Entropy.EntropyUpperBound: stated over the reals, not over float64 sums.
- Memory-level behaviour of the Go runtime beyond slices: locks are atomic steps, and the pipeline, the hub's clients and the broker's readers are step machines over channel operations rather than threads.
- Retry.PermanentCause: follows single wrapping chains; joined errors are not modelled.
- Retry.DoHTTP: response bodies are not modelled; a function that returns neither a response nor an error makes the code dereference nil, and is excluded.
- A negative worker count, with which the service panics while it starts.
- The analysis service after shutdown begins: cancellation, `Pool.Stop` and jobs lost then.
- WebSocket ping and pong timing, SSE heartbeats and the HTTP handlers around hub and broker.
- The other dependency parsers (go.mod, package.json, requirements.txt, Cargo.toml): the same line-driven shape as pom.xml with fewer states.
- `formatEntropy`, `itoa`, `pad2`, `Chain`, language tables: easy members.
- Cloning, directory walking, YAML loading, configuration merging, and text, JSON and SARIF output.
- GitHub, Slack and SMTP clients, routing, CORS, logging, health endpoints and environment configuration.
