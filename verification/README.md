# MailClear, verified model

MailClear pre-validates large e-mail lists: a job is cut into batches, a worker pool validates
every address through a pipeline of stages, MX lookups go through a two-level cache, one flight
per domain and a semaphore whose limit adapts to the DNS error rate, and the results land in two
PostgreSQL tables. This project models those parts in Dafny and proves what each of them promises.
`dafny verify dfyconfig.toml` checks everything.

| file | what it models |
|---|---|
| `SemaphoreProtocol`, `SemaphoreRuns`, `AdaptiveSemaphore` | the adaptive semaphore: a transition system whose steps are the critical sections, theorems over every schedule, and the object whose methods each perform one step |
| `Aimd` | the AIMD controller and the counter reader that feeds it |
| `Flights` | concurrent lookups: one flight per domain around the semaphore |
| `Levenshtein`, `Corrector` | the distance on three recycled rows and the bucketed, pruned typo search |
| `TieredCache` | the expiring in-memory layer in front of Redis |
| `StableSort`, `Resolver` | DNS client, MX and A resolution, retries, caching |
| `JobRow`, `JobProtocol`, `Manager` | the jobs table, one job under every interleaving, batching and re-queueing |
| `Addresses`, `Mail`, `Validation`, `Handler` | the normal form, the stages on a mutable e-mail, pipeline and score, the batch handler |
| `Results` | the e-mails table, the CSV export, what a re-queue preserves |
| `Bytes` | byte strings |

How to read it. An object of the program is a class whose methods are proved equal to a function of
the old state (`Step`, `Apply`, `Execute`, the `After...` functions of `Mail`); the theorems are
about those functions. Concurrency is a transition system whose scheduler is free: a run is any
sequence of enabled labels. What the program does not decide is a parameter: packets, clock, Redis
failures, evictions, the moment a context ends, the random part of a jitter, which duplicate
`DISTINCT ON` keeps. Texts are byte strings, as Go strings are. Redis, singleflight, the rate
limiter, IDNA and `net/mail` appear only through small contracts. Floating-point rate comparisons
are exact comparisons of integer cross products: a rate above 0.05 is `20 * errors > total`.

Where the code keeps less than its comments or names suggest, the model follows the code, a lemma
exhibits a concrete case, and another says exactly when it happens:

- a waiter can be stranded beside a free slot (`LosingRunStrandsAWaiter`; `StepLosesWakeupIff`,
  `EveryWaiterIsServed`);
- a Redis hit is copied into memory without a deadline (`CopyOutlivesItsDeadline`; `ServedLateIff`);
- a Set that Redis refuses can resurface the old value (`RefusedWriteResurfaces`;
  `GetAnswersLatestSetIff`, `ResurfacesIff`);
- a cancelled job, which the tracker says it leaves alone, can still become completed
  (`CancelledJobBecomesCompleted`, `EmptyCancelledJobIsCompleted`; `EndedJobCompletesIff`);
- a job cancelled while pending does start if its start comes in the very tick of the cancellation
  (`SameInstantStarts`; `StartRejectedIff`);
- deleting dots can expose a leading space, so normalising twice can differ
  (`DottedSpaceIsNotIdempotent`; `NormalizeIdempotentIff`);
- an address with a display name keeps disagreeing fields (`DisplayNameFieldsDisagree`; `FieldsAgreeIff`);
- with the shipped weights no address is ever valid (`DefaultOutcomes`).

## Model

| member | source | states |
|---|---|---|
| SemaphoreProtocol.StepAccounted | internal/dns/adaptive.go:50-115 | every critical section, under any schedule, keeps inflight equal to the number of holders and acquiredTotal equal to inflight plus counted plus not yet counted releases |
| SemaphoreProtocol.StepLosesWakeupIff | internal/dns/adaptive.go:60-82 | a step creates a lost wakeup if and only if it is a watcher choosing `done` after its cancelled call left, with the last owed Broadcast, a parked waiter, and more free slots than woken waiters on their way |
| SemaphoreProtocol.ReleaseCounts | internal/dns/adaptive.go:88-96 | a Release by a holder turns one holder into an uncounted release and exactly one waiter, if there is any, into a woken one |
| SemaphoreRuns.RunAccounted | internal/dns/adaptive.go:50-115 | slot and counter conservation over whole runs |
| SemaphoreRuns.InflightWithinPeak | internal/dns/adaptive.go:50-86 | inflight never passes a bound that covers it and every limit of the run |
| SemaphoreRuns.LimitIsRespected | internal/dns/adaptive.go:50-115 | from the start, inflight is between 0 and the largest limit ever in force, and all three counters agree |
| SemaphoreRuns.InflightWithinLimitsSet | internal/dns/adaptive.go:50-115 | and never passes the largest limit the semaphore was ever given |
| SemaphoreRuns.ShrinkDrains | internal/dns/adaptive.go:98-115 | after a shrink below inflight nobody acquires before the surplus plus one slot has been given back |
| SemaphoreRuns.FaithfulKeepsWakeups | internal/dns/adaptive.go:60-82 | if every cancelled waiter's watcher broadcasts, no reachable state has a lost wakeup |
| SemaphoreRuns.UncancelledKeepsWakeups | internal/dns/adaptive.go:60-82 | as long as no context ends, no Broadcast is dropped and no wakeup is lost |
| SemaphoreRuns.QuietIsSettled | internal/dns/adaptive.go:50-115 | unless a wakeup was lost, a state in which the semaphore cannot move has nobody waiting and nobody holding |
| SemaphoreRuns.InternalStepLowersWork | internal/dns/adaptive.go:50-96 | each of the semaphore's own steps lowers a natural measure |
| SemaphoreRuns.InternalRunsAreShort | internal/dns/adaptive.go:50-96 | so every run of its own steps is finite, with an explicit bound |
| SemaphoreRuns.EveryWaiterIsServed | internal/dns/adaptive.go:46-96 | once arrivals, cancellations and limit changes stop, every schedule is finite, and where it ends every waiter is served or refused and no slot is in use if and only if no wakeup was lost, which is so whenever no watcher dropped an owed Broadcast |
| SemaphoreRuns.LosingRunStrandsAWaiter | internal/dns/adaptive.go:60-82 | the concrete run in which a cancelled call swallows the Signal and another waiter stays parked beside a free slot until something outside the semaphore happens |
| AdaptiveSemaphore.Semaphore.constructor | internal/dns/adaptive.go:35-43 | a limit of at least 1 and an initial protocol state |
| AdaptiveSemaphore.Semaphore.Begin | internal/dns/adaptive.go:50-78 | Acquire up to its first unlock or wait is the protocol's Enter step: it acquires exactly when a slot is free, even under an expired context, fails exactly when none is and the context has expired, and touches no other call |
| AdaptiveSemaphore.Semaphore.Resume | internal/dns/adaptive.go:73-86 | Acquire after a wakeup is the Recheck step; an expired context wins over a free slot, and no other call changes |
| AdaptiveSemaphore.Semaphore.Release | internal/dns/adaptive.go:88-94 | Release is the protocol's step: one slot fewer in use, one parked waiter woken if there is any, no other call changed, and the `inflight > 0` guard never fails for paired calls |
| AdaptiveSemaphore.Semaphore.FinishRelease | internal/dns/adaptive.go:95-95 | the counter increment after the unlock is a step of its own |
| AdaptiveSemaphore.Semaphore.SetLimit | internal/dns/adaptive.go:101-115 | SetLimit clamps to 1, wakes every parked call when the limit grows and none otherwise, and changes nothing else |
| Aimd.RateReader.Read | internal/dns/stats_reader.go:27-52 | the sample is the growth since the previous reading, zero for a counter that fell, and the reading replaces the previous one |
| Aimd.Controller.Tick | internal/dns/adaptive.go:239-306 | one tick consumes the sample and moves the semaphore by at most one SetLimit step: a quarter above 20% timeouts, half above 5%, plus 64 below 1%, within 32..4096, and nothing at all in between or below 50 queries |
| Aimd.SamplesTelescope | internal/dns/stats_reader.go:40-50 | on growing counters the samples, including those of ticks below the minimum, add up to the last reading |
| Aimd.CollapseTrajectory | internal/dns/adaptive.go:264-306 | n ticks with more than 20% timeouts give max(32, L / 4^n) |
| Aimd.DecreaseTrajectory | internal/dns/adaptive.go:264-306 | n ticks between 5% and 20% give max(32, L / 2^n) |
| Aimd.IncreaseTrajectory | internal/dns/adaptive.go:264-306 | n ticks below 1% give min(4096, L + 64 n) |
| Aimd.StableTrajectory | internal/dns/adaptive.go:239-306 | any number of ticks between 1% and 5%, or with fewer than 50 queries, leave the limit where it was |
| Aimd.LimitStaysInRange | internal/dns/adaptive.go:187-306 | the limit never leaves 32..4096, and a single acting tick brings it in from anywhere |
| Aimd.BetterRateNeverLowerLimit | internal/dns/adaptive.go:239-306 | of two runs acting on the same ticks, the one with no worse error rate never has the lower limit |
| Aimd.FloorToCeiling | internal/dns/adaptive.go:187-306 | four collapse ticks and no fewer take the ceiling to the floor, 64 clean ticks and no fewer take it back |
| Flights.MoveKeepsPairing | internal/dns/resolver.go:131-150 | every move of concurrent lookups keeps each unfinished semaphore call owned by exactly one flight |
| Flights.PlayKeepsPairing | internal/dns/resolver.go:131-150 | and so does every play |
| Flights.InflightIsResolving | internal/dns/resolver.go:140-143 | inflight equals the number of flights between Acquire and the deferred Release |
| Flights.PlayIsSemaphoreRun | internal/dns/resolver.go:131-150 | concurrent lookups refine the semaphore: each play projects to one of its runs |
| Flights.FlightAccounting | internal/dns/resolver.go:113-167 | with one flight per key, which is the singleflight contract, inflight in every play equals the number of keys being resolved, stays within the largest limit, and is positive whenever a slot is given back |
| Flights.QuiescenceIsClean | internal/dns/resolver.go:131-150 | with no lookup under way no slot is in use and acquired equals released |
| Flights.EveryWayOutFreesTheKey | internal/dns/resolver.go:131-150 | over any play the flights under way are those begun less those refused by the limiter, refused a slot, or landed |
| Levenshtein.BestScript | internal/validation/typo/levenshtein.go:7-46 | an optimal alignment script for the recurrence, constructed |
| Levenshtein.DistanceIsAchieved | internal/validation/typo/levenshtein.go:7-46 | some script of matches, substitutions, insertions, deletions and adjacent swaps, no piece edited twice, turns a into b at exactly the computed cost |
| Levenshtein.NoScriptIsCheaper | internal/validation/typo/levenshtein.go:7-46 | and no such script is cheaper |
| Levenshtein.Symmetric | internal/validation/typo/levenshtein.go:7-46 | the distance is symmetric |
| Levenshtein.LengthBounds | internal/validation/typo/levenshtein.go:7-46 | it lies between the difference of the lengths and the longer length |
| Levenshtein.ZeroIffEqual | internal/validation/typo/levenshtein.go:7-46 | it is zero exactly for equal byte strings |
| Levenshtein.SingleMistakes | internal/validation/typo/levenshtein.go:7-46 | wherever it is made, one wrong, missing or superfluous byte or one swap of neighbours costs exactly one |
| Levenshtein.Cell | internal/validation/typo/levenshtein.go:24-42 | the recurrence of prefixes that one table cell computes |
| Levenshtein.DamerauLevenshtein | internal/validation/typo/levenshtein.go:7-46 | three recycled rows compute that distance |
| Levenshtein.FillRow | internal/validation/typo/levenshtein.go:24-42 | the inner loop turns rows i-1 and i-2 into row i |
| Levenshtein.FillCell | internal/validation/typo/levenshtein.go:26-41 | one cell is the cheapest of its neighbours and no other cell changes |
| Levenshtein.Min3 | internal/validation/typo/levenshtein.go:48-57 | the smallest of three |
| Corrector.Corrector.constructor | internal/validation/typo/corrector.go:20-42 | domains are the non-blank, non-comment lines in order and every bucket holds those with its first byte, in order |
| Corrector.OneLine | internal/validation/typo/corrector.go:24-33 | a line lists its text in small letters without the blanks around it, and nothing if that is empty or starts with '#' |
| Corrector.ListedInOrder | internal/validation/typo/corrector.go:24-33 | the lines are listed one after the other |
| Corrector.StartingInOrder | internal/validation/typo/corrector.go:34-41 | a bucket keeps the order of the list |
| Corrector.Buckets | internal/validation/typo/corrector.go:34-41 | the bucket map partitions the domains by first byte, keeping their order |
| Corrector.Corrector.Scan | internal/validation/typo/corrector.go:62-88 | a pruned pass finds what the unpruned one finds: the first nearest candidate within maxDist |
| Corrector.Corrector.Suggest | internal/validation/typo/corrector.go:47-94 | nothing exactly for a blank or listed domain or when every listed domain is farther than maxDist; else the first-listed nearest domain of the same first byte if one is within maxDist, else the first-listed nearest overall |
| Corrector.RightAnswerIsUnique | internal/validation/typo/corrector.go:47-94 | that specification has one answer |
| Corrector.PrunedIsTooFar | internal/validation/typo/corrector.go:65-81 | a candidate skipped for its length is beyond maxDist, by the length bound of the distance |
| Corrector.ScanStep | internal/validation/typo/corrector.go:62-88 | one comparison extends the search by one candidate, earlier ones winning ties |
| TieredCache.LRU.Get | internal/cache/lru.go:34-50 | a live entry or nothing; an expired one is removed |
| TieredCache.LRU.Set | internal/cache/lru.go:53-62 | the entry with its deadline, or none for a ttl of 0 |
| TieredCache.LRU.Delete | internal/cache/lru.go:65-70 | the key is gone, the rest stays |
| TieredCache.LRU.Purge | internal/cache/lru.go:80-84 | empty |
| TieredCache.Redis.Set | internal/cache/redis.go:41-47 | stored, or unchanged on failure |
| TieredCache.Redis.Delete | internal/cache/redis.go:50-52 | removed, or unchanged on failure |
| TieredCache.Multi.Get | internal/cache/multi.go:26-48 | L1 first, then L2 with re-population of L1 and the eviction that may take: exactly the Get event of the two-layer state |
| TieredCache.Multi.Set | internal/cache/multi.go:51-61 | writes both layers: L1 then holds the value with its deadline, and so does L2 unless it refused |
| TieredCache.Multi.Delete | internal/cache/multi.go:64-74 | deletes from both layers, from L2 unless it refused |
| TieredCache.Multi.PurgeL1 | internal/cache/multi.go:78-82 | empties L1 and leaves L2 alone |
| TieredCache.LayersAgree | internal/cache/multi.go:26-74 | after any history L2 holds nothing but the value Redis accepted last, and L1 the latest Set or, after a re-population, a copy of that value |
| TieredCache.AnswerIs | internal/cache/multi.go:26-48 | what Get answers after any history: the latest Set, the value Redis accepted last, or a miss, and which of them when |
| TieredCache.SetIsFound | internal/cache/multi.go:26-61 | after any history, a value set in a cache with an L1 is what Get answers up to and including its deadline, whatever Redis and other keys do, unless the key is written again, evicted from L1 or purged; without Redis it is a miss after the deadline |
| TieredCache.SetIsFoundInRedis | internal/cache/multi.go:26-61 | a value Redis took is found up to its deadline by every read that reaches Redis, whatever L1 evicts or purges, unless the key is written again or evicted from Redis; without an L1 it is a miss after the deadline |
| TieredCache.GetAnswersLatestSetIff | internal/cache/multi.go:26-74 | Get answers a miss or the latest Set since the last Delete if and only if the value Redis accepted is that Set or the answer does not come out of Redis, directly or through a copy |
| TieredCache.GetAnswersLatestSet | internal/cache/multi.go:26-74 | if Redis accepted nothing that is left, or the latest Set, no expiry, eviction, purge, re-population or failing read makes Get wrong |
| TieredCache.ResurfacesIff | internal/cache/multi.go:51-74 | otherwise evicting the key from memory makes Get wrong exactly while Redis answers with its value |
| TieredCache.RefusedWriteResurfaces | internal/cache/multi.go:51-61 | a concrete history in which an overwritten value comes back |
| TieredCache.EntriesAreDated | internal/cache/multi.go:26-61 | after any history every entry carries the deadline of the Set that wrote it in its layer, except a copy from L2, which carries none |
| TieredCache.CopyNeverExpires | internal/cache/multi.go:35-35 | a copy taken from L2 is live for ever |
| TieredCache.ServedLateIff | internal/cache/multi.go:26-48 | after any history a value is served past the deadline of the Set that wrote it exactly when L1 holds a copy taken from L2 |
| TieredCache.CopyOutlivesItsDeadline | internal/cache/multi.go:35-35 | a concrete history that does so |
| StableSort.SortStablySorts | internal/dns/resolver.go:243-245 | sorting by preference meets the promise of a stable sort and only reorders |
| StableSort.StableSortIsUnique | internal/dns/resolver.go:243-245 | the promise leaves one possible sequence |
| Resolver.Query | internal/dns/client.go:48-106 | at most retries + 1 UDP packets, then one TCP packet after a loss or a truncation; success if and only if the last packet is a reply with code 0, with exactly its answers; NXDOMAIN, SERVFAIL and REFUSED if and only if its code is 3, 2 and 5 |
| Resolver.QueryTraceIsUnique | internal/dns/client.go:48-106 | the packets decide how many are sent and what is answered |
| Resolver.QueryMeans | internal/dns/client.go:75-106 | the response code of the last packet decides; if that was lost it is a timeout exactly when the loss that counts was one |
| Resolver.QueryTakes | internal/dns/client.go:60-85 | one packet exactly for an untruncated first reply, two for a truncated one, retries + 2 when UDP brings nothing |
| Resolver.ConclusionIsWellFormed | internal/dns/resolver.go:222-312 | whatever was replied, status is ok iff MX or A was found iff the host list is non-empty, never both, sorted, and an A-only domain has just itself at preference 0 (section 5.1 of RFC 5321) |
| Resolver.ConclusionIsUnique | internal/dns/resolver.go:222-312 | the replies determine the result |
| Resolver.MXRecordsAre | internal/dns/resolver.go:233-242 | one record per MX answer, its host without the closing dot, in the order received |
| Resolver.AddressesAre | internal/dns/resolver.go:297-302 | one address per A answer, in the order received |
| Resolver.LeastTtlIs | internal/dns/resolver.go:232-242 | the least lifetime of the MX answers, an hour at most |
| Resolver.FirstReplyDecides | internal/dns/resolver.go:222-274 | an attempt whose first packet is an untruncated reply and that ends there: no such domain for code 3, a failed server for any other error, the MX records by preference for code 0 |
| Resolver.SecondReplyDecides | internal/dns/resolver.go:277-312 | without MX records the A query decides: addresses make the domain its own mail host, SERVFAIL is a failed server, anything else no mail host |
| Resolver.SilenceDecides | internal/dns/client.go:60-95 | nothing but losses: a timeout if the last UDP loss was one, a failed server otherwise, after retries + 2 packets |
| Resolver.DrawnIsWellFormed | internal/dns/resolver.go:222-312 | whatever any replies lead to, cached or fresh, is well formed and about the domain |
| Resolver.Resolver.ResolveMX | internal/dns/resolver.go:222-274 | an attempt consumes the packets of one MX query, plus one A query when no MX record came, and concludes exactly what they say |
| Resolver.Resolver.FallbackA | internal/dns/resolver.go:277-312 | the implicit MX rule and the mapping of A errors |
| Resolver.Resolver.ResolveMXWithRetry | internal/dns/resolver.go:172-190 | three attempts at most, the first definitive result wins, a context ending in a backoff returns the latest transient one |
| Resolver.AttemptIsUnique | internal/dns/resolver.go:222-312 | the packets decide an attempt |
| Resolver.ResolutionIsUnique | internal/dns/resolver.go:172-190 | the packets and the context decide a whole resolution |
| Resolver.TransientIff | internal/dns/resolver.go:172-190 | a transient answer comes back if and only if three attempts in a row were transient, or the context ended in a backoff and every attempt before it was; it is the result of the last attempt made |
| Resolver.ResolutionBounds | internal/dns/resolver.go:172-190 | at most 3 * 2 * (retries + 2) packets, a well-formed result about the domain, and a transient one only as above |
| Resolver.FirstReplyResolves | internal/dns/resolver.go:172-190 | NXDOMAIN or MX records in an untruncated first reply end the whole lookup with that one packet |
| Resolver.FirstErrorIsRetried | internal/dns/resolver.go:172-190 | any other error code is retried unless the context ends in the backoff, and an NXDOMAIN then wins |
| Resolver.JitteredTTL | internal/cache/ttl.go:10-24 | base plus a jitter of at most 10%, clamped, and inside min..max whenever 0 < min <= max |
| Resolver.Resolver.CacheTtlFor | internal/dns/resolver.go:316-322 | the negative ttl for NXDOMAIN; otherwise the answer's own lifetime plus the jitter drawn for it, clamped into the configured range, so within a tenth of the answer's lifetime where that is allowed |
| Resolver.ErrorOfIs | internal/dns/resolver.go:206-219 | the caller's error is NXDOMAIN, timeout or SERVFAIL for those three statuses and none for the other two |
| Resolver.CacheStaysOk | internal/dns/resolver.go:146-204 | one cache event of a lookup leaves no timeout or servfail in either layer |
| Resolver.HistoryStaysOk | internal/dns/resolver.go:146-204 | nor does any history of such events, starting from an empty cache: every cached value is a definitive result that some replies about its own domain lead to |
| Resolver.Resolver.Fly | internal/dns/resolver.go:131-150 | the flight of a miss resolves and stores exactly a definitive answer, under its own domain, with the lifetime of its status |
| Resolver.Resolver.Store | internal/dns/resolver.go:151-156 | a definitive answer goes into both layers with its lifetime, any other changes nothing |
| Resolver.Resolver.Miss | internal/dns/resolver.go:131-166 | from the cache miss on: refused by limiter or semaphore with nothing changed, or resolved and stored |
| Resolver.Resolver.LookupMX | internal/dns/resolver.go:113-167 | a hit costs no packet; a refused flight changes nothing but the read; a miss resolves and stores exactly a definitive answer; a miss told NXDOMAIN by its first reply answers no such domain after one packet, and both layers then hold that; on every path the answer is drawn from replies about the domain, so well formed and stably sorted, carries the error of its status, and is transient only when the attempts or the context ran out |
| JobRow.JobsRepo.Create | internal/storage/jobs_repo.go:54-66 | a pending row with zero counters |
| JobRow.JobsRepo.Update | internal/storage/jobs_repo.go:106-239 | one guarded UPDATE: applied, not matching (an error for ForceFail alone), or rejected by a CHECK with the row unchanged |
| JobRow.TimestampsHold | internal/storage/jobs_repo.go:106-140 | over every sequence of statements terminal implies finished_at, running implies started_at, and started_at is written once |
| JobRow.EndingsReach | internal/storage/jobs_repo.go:133-239 | a cancellation and a forced failure end pending, running and paused jobs, the stale sweep pending and running ones untouched for longer than the limit; any other row stays as it was |
| JobRow.StatusUpdateIs | internal/storage/jobs_repo.go:106-115 | a status update dates the first start and every end, and changes nothing else of the row |
| JobRow.ProgressIs | internal/storage/jobs_repo.go:118-130 | every counter grows by its own part of the delta, unless processed would pass a known total, which is rejected |
| JobRow.StartRejectedIff | migrations/0002_jobs.up.sql:38-39 | starting a job is rejected exactly when it ended earlier without having started |
| JobRow.CancelledWhilePendingNeverRuns | internal/storage/jobs_repo.go:106-140 | under a strictly growing clock no sequence of statements starts a job cancelled while pending |
| JobRow.SameInstantStarts | internal/storage/jobs_repo.go:106-140 | within one tick it does start |
| JobProtocol.CountedUpdate | internal/jobs/handler.go:174-178 | counting one batch changes the counted total by its size |
| JobProtocol.UncountedIsMissing | internal/jobs/manager.go:117-120 | one uncounted batch keeps the counted total below the sum |
| JobProtocol.IncrementNeverRejected | migrations/0002_jobs.up.sql:36-37 | the CHECK on processed never rejects the increment of a batch |
| JobProtocol.MoveConserves | internal/jobs/handler.go:46-200 | every move of request, workers, handlers, tracker and operators keeps the conservation invariant |
| JobProtocol.PlayConserves | internal/jobs/handler.go:46-200 | and so does every interleaving |
| JobProtocol.ConservedState | internal/jobs/manager.go:94-123 | in a conserved state completed means every batch was counted |
| JobProtocol.JobConservation | internal/jobs/manager.go:70-123 | under every interleaving processed is the size of the counted batches, equals the sum of the five status counters, never passes total, and equals total once the job is completed |
| JobProtocol.CompletedMeansEveryBatchCounted | internal/jobs/manager.go:94-123 | a job with a batch dropped, failed or never enqueued is never marked completed |
| JobProtocol.LostBatchNeverCompletes | internal/jobs/handler.go:94-200 | once a batch is dropped, aborted, or fails to be stored or counted, nothing that happens afterwards completes the job |
| JobProtocol.FailedRequestIsNotTracked | internal/jobs/manager.go:70-90 | a request whose first statement or one of whose sends fails never launches a tracker |
| JobProtocol.ExpiredJobFails | internal/jobs/manager.go:94-123 | when its day is over the tracker fails the job, whatever its status, unless the database refuses, and stops |
| JobProtocol.OwnMovesAreFew | internal/jobs/manager.go:70-123 | however operators, clock and idle polls interleave, request, workers, handlers and tracker make a bounded number of moves |
| JobProtocol.AtRest | internal/jobs/manager.go:70-123 | and where none of them can move, every enqueued batch is counted or lost and request and tracker are over |
| JobProtocol.TrackerCompletesIff | internal/jobs/manager.go:94-123 | a poll decides to complete exactly when the job is not terminal and every batch is counted, and that write succeeds |
| JobProtocol.EndedJobCompletesIff | internal/jobs/manager.go:70-123 | a cancelled or failed job can be completed by some later run if and only if the tracker has read the row and not yet written, or the request is still to launch a tracker for no e-mails, or the request has not begun and its start would not be rejected |
| JobProtocol.EmptyIsCancelled | internal/jobs/manager.go:70-86 | a fresh job without e-mails whose request has begun can be cancelled before its tracker starts |
| JobProtocol.EmptyCancelledJobIsCompleted | internal/jobs/manager.go:95-99 | a job without e-mails, cancelled while its request is under way, is completed by a tracker that reads nothing |
| JobProtocol.CancelledJobBecomesCompleted | internal/jobs/manager.go:113-120 | a concrete interleaving that does it |
| Manager.BatchesPartition | internal/jobs/manager.go:75-85 | the batches in order are the e-mails in order |
| Manager.BatchesAreFull | internal/jobs/manager.go:75-85 | no batch is empty and all but the last are full |
| Manager.BatchesAreFewest | internal/jobs/manager.go:75-85 | there are as few batches as the size allows |
| Manager.SizesSum | internal/jobs/manager.go:74-85 | batch sizes add up to the number of e-mails |
| Manager.SubmittedJobIsFresh | internal/jobs/manager.go:70-87 | a job created with the number of its e-mails and cut this way is a start state of the job protocol |
| Manager.Pool.constructor | internal/workers/pool.go:26-40 | an empty channel, of 1024 places when none are asked for |
| Manager.Pool.Submit | internal/workers/pool.go:53-63 | the task is accepted last and the channel stays within its capacity, a full one giving up its oldest task to a worker first; or the context ended and nothing is accepted |
| Manager.Pool.Take | internal/workers/pool.go:110-118 | a worker takes the oldest task, or finds none |
| Manager.Manager.constructor | internal/jobs/manager.go:28-46 | a non-positive batch size becomes 1000 |
| Manager.Manager.SendOne | internal/jobs/manager.go:75-84 | one turn of the sending loop |
| Manager.Manager.SendAll | internal/jobs/manager.go:75-84 | the sending loop: what it accepted and what is left make up the batches, and it stops early only on an ended context |
| Manager.Manager.Enqueue | internal/jobs/manager.go:75-84 | the batches are accepted in order; an ended context leaves exactly those sent before it |
| Manager.Manager.Submit | internal/jobs/manager.go:70-87 | running is written first, its rejection sends nothing, otherwise the batches are sent, all of them unless the context ends, and then up to the first send under the ended context; no other row changes |
| Manager.SubmitIsMoves | internal/jobs/manager.go:70-87 | every outcome of Submit is a play of the job protocol that leaves the same row and exactly the sent batches in the queue |
| Manager.Manager.Requeue | internal/jobs/manager.go:167-195 | nothing for an unknown or empty job; otherwise exactly one new running row with the stored originals as its total, all their batches queued if the context lives, and if it ends those before the first send under it; every other row untouched |
| Manager.JoinedItems | internal/jobs/manager.go:75-85 | records made batch by batch are those made of the whole list |
| Manager.RequeuedJobMatchesItsSource | internal/jobs/manager.go:167-195 | re-queueing end to end: originals, batches, records, commits in any order give as many rows under the same keys |
| Results.ResultsRepo.BulkInsert | internal/storage/results_repo.go:65-134 | all or nothing: old rows stay, every new key gets exactly one row with a fresh id at the end, and the count returned is the number of rows gained |
| Results.ResultsRepo.InsertRow | internal/storage/results_repo.go:119-128 | one row of the insert: appended with a fresh id unless its key is taken |
| Results.InsertOne | internal/storage/results_repo.go:119-128 | one row inserted, or nothing on a conflict of key |
| Results.ClashIff | migrations/0003_emails.up.sql:74-75 | two items clash in the unique index exactly when they are of one job and their normalised addresses differ in the case of letters at most |
| Results.AppendedIsInserted | internal/storage/results_repo.go:119-132 | an insert that overlaps no other is a commit in that sense |
| Results.CommittedKeys | internal/storage/results_repo.go:65-134 | any sequence of commits, of overlapping transactions too, is one insert of everything committed: old rows stay, one row per distinct key, and the inserted counts add up |
| Results.OneRowPerKey | migrations/0003_emails.up.sql:74-75 | a job holds exactly one row per distinct key of its own e-mails |
| Results.RequeuePreservesResults | internal/jobs/manager.go:167-195 | a re-queued job whose records all commit, in any order and batches, among and overlapping any commits of other jobs, has as many rows as its source and the same keys under its own id, and the source's rows stay |
| Results.ExportCSV | internal/jobs/exporter.go:17-73 | every row of the job once, in id order, for any page size, each line showing the columns of its own row; a prefix of that exactly if the context ends before a page that is asked for |
| Results.ExportPages | internal/jobs/exporter.go:33-71 | the loop: the records of the job's rows up to a cursor, with the pages asked for so far and those still to come, and why it stopped |
| Results.OnePage | internal/jobs/exporter.go:33-71 | one turn of the loop, one page fewer to come |
| Results.PagesAre | internal/jobs/exporter.go:33-43 | the pages asked for are the first and each one after a page that was not empty |
| Results.ExportPage | internal/jobs/exporter.go:33-71 | one turn adds the next page to what was exported and leaves that many fewer rows |
| Results.NextPage | internal/jobs/exporter.go:37-65 | the page fetched is the next rows beyond the cursor, and the cursor moves past them |
| Results.WritePage | internal/jobs/exporter.go:44-65 | the page's records in order, the cursor on its last id |
| Results.BeyondMoves | internal/storage/results_repo.go:137-181 | moving the cursor to the k-th row leaves exactly the rows after it |
| Results.BeyondIsSuffix | internal/storage/results_repo.go:144-151 | rows beyond a cursor are a suffix of the ordered rows |
| Results.PageIs | internal/storage/results_repo.go:137-181 | a page holds rows of the job beyond the cursor and no others, lowest ids first, and leaves one out only at its limit |
| Addresses.NormalizeIdempotentIff | internal/validation/stages/normalize.go:26-63 | on ASCII text normalising twice equals normalising once, unless deleting dots or cutting at '+' left a Gmail local part that starts with a space |
| Addresses.DottedSpaceIsNotIdempotent | internal/validation/stages/normalize.go:48-58 | an address in which deleting the dot uncovers a space: the second normalisation deletes the space |
| Addresses.GmailFormsAgreeIff | internal/validation/stages/normalize.go:48-58 | two Gmail or Googlemail addresses share a form iff their lower-case local parts, up to the first '+', are the same bytes in the same order but for dots |
| Addresses.GmailFormIsOnlyGmail | internal/validation/stages/normalize.go:48-58 | a Gmail address never shares a form with another provider's |
| Addresses.NormalFormIs | internal/validation/stages/normalize.go:26-63 | the form byte by byte: blanks around the text dropped, capitals made small, the domain converted, and for the two Gmail domains the local part cut at its first '+', freed of its dots and put at gmail.com |
| Addresses.NoFormIs | internal/validation/stages/normalize.go:26-46 | a text without something on both sides of an '@' is only trimmed and made small |
| Addresses.GmailDotsAndTags | internal/validation/stages/normalize.go:48-58 | at gmail.com a dot anywhere in the local part changes nothing, nor does anything from a '+' on, and a local part with neither is kept |
| Addresses.JoinSplits | internal/validation/stages/normalize.go:34-62 | joining at '@' and splitting at the last '@' undo each other |
| Addresses.FastPathIff | internal/validation/stages/syntax.go:15-15 | the matcher accepts exactly the texts of the fast-path pattern |
| Addresses.PartsFaultIff | internal/validation/stages/syntax.go:63-96 | the checks find no fault exactly when both parts exist and fit their limits |
| Addresses.PartsFaultIs | internal/validation/stages/syntax.go:63-96 | which fault is reported first, with the limits 64 and 253 |
| Addresses.CandidateIs | internal/validation/stages/syntax.go:44-58 | on the fast path the text itself, otherwise the parser's address in small letters |
| Addresses.FastPathFieldsAgree | internal/validation/stages/syntax.go:34-61 | an address accepted on the fast path keeps normalized = local part, '@', domain |
| Addresses.FieldsAgreeIff | internal/validation/stages/syntax.go:34-96 | any other accepted address does so exactly when the parser gives back the normal form, or Normalize left the parts to the parser |
| Addresses.DisplayNameFieldsDisagree | internal/validation/stages/syntax.go:44-58 | a display name in front of the address breaks it |
| Mail.FirstFault | internal/validation/stages/syntax.go:63-96 | the first failing check, in the program's order |
| Mail.SplitForm | internal/validation/stages/normalize.go:34-62 | IDNA on the domain, then the Gmail rules |
| Mail.Email.constructor | internal/validation/types.go:79-86 | a fresh e-mail with the raw text and nothing decided |
| Mail.Email.AddReason | internal/validation/types.go:89-96 | appends a code at most once |
| Mail.ReasonIsAddedOnce | internal/validation/types.go:89-96 | reasons stay distinct and in the order they came |
| Mail.Email.RunNormalize | internal/validation/stages/normalize.go:26-63 | the stage as a function of the whole e-mail |
| Mail.Email.CheckParts | internal/validation/stages/syntax.go:63-96 | fills only empty parts and reports the first fault |
| Mail.Email.RunSyntax | internal/validation/stages/syntax.go:34-61 | fast path or parser, then the size checks |
| Mail.Email.RunTld | internal/validation/stages/tld.go:26-42 | fails exactly for a domain without a listed TLD |
| Validation.KnownTldIff | internal/validation/stages/tld.go:26-42 | the text after the last dot decides, and a domain without a dot has no TLD |
| Mail.Email.RunTypo | internal/validation/stages/typo.go:33-43 | only suggests |
| Mail.Email.RunDisposable | internal/validation/stages/disposable.go:28-37 | only marks |
| Mail.Email.RunRole | internal/validation/stages/role.go:26-36 | only marks |
| Mail.Email.RunMx | internal/validation/stages/mx.go:32-83 | lookup outcome to status, flags, reason and classification |
| Mail.Email.Classify | internal/validation/stages/mx.go:70-81 | free provider or the classifier's word, unless the address is a role account |
| Mail.Email.RunStage | internal/validation/pipeline.go:28-40 | the stage of a name |
| Validation.AddUp | internal/validation/scoring.go:18-53 | the clamped sum of the weights that apply |
| Validation.ApplyScore | internal/validation/scoring.go:18-64 | score and, if still open, the status it implies |
| Validation.RunOne | internal/validation/pipeline.go:31-57 | one stage with its bookkeeping, and whether it stops the pipeline |
| Validation.RunPipeline | internal/validation/pipeline.go:25-70 | the mutating loop equals the recursive pipeline, and errs exactly if the context was found ended before a stage that runs |
| Validation.RunStages | internal/validation/pipeline.go:25-70 | the loop: where it stopped, and that every stage before found the context live |
| Validation.StagesRunAre | internal/validation/pipeline.go:25-70 | two stages run for an e-mail that syntax stops, three for one that the TLD stops, seven for any other |
| Validation.Validate | internal/validation/validator.go:24-34 | pipeline then score on a fresh e-mail; an error exactly if the context was found ended before a stage that runs |
| Validation.ValidatedIs | internal/validation/pipeline.go:25-70 | seven mutating stages with short-circuit and a score leave exactly the e-mail described field by field: form, DNS flags, marks, tags, status, score, where it stopped, reasons in order, stage outcomes |
| Validation.PipelineDecides | internal/validation/pipeline.go:25-70 | so its status is one flat decision of syntax, TLD, lookup, lists and weights, it stops where that says, its score is in 0..100 and its text is the one that says |
| Validation.StoppedMeansInvalid | internal/validation/pipeline.go:43-53 | a stage that stopped the pipeline means invalid, and the status is never open nor unknown |
| Validation.DefaultOutcomes | internal/config/defaults.go:97-110 | with the shipped weights the score stays at 75 or below, nothing is valid, and the complete table of outcomes |
| Validation.DefaultScores | internal/config/defaults.go:97-110 | and the score in numbers: 40, plus 35 or 15, less 60, 15 and 10, within 0..100 |
| Validation.StoredAddressIsOfTheText | internal/jobs/handler.go:142-145 | the stored normalised address is a function of the raw text, not of DNS, lists or weights |
| Handler.Decide | internal/jobs/handler.go:94-115 | one e-mail of a batch: the flat decision, or the context was found ended |
| Handler.DecideAll | internal/jobs/handler.go:89-117 | every e-mail of a batch with the services as it finds them, or the batch ends, exactly if some e-mail's context was found ended before a stage that runs |
| Handler.RowOfEmail | internal/jobs/handler.go:132-156 | the row of an e-mail column by column, from the text as it came to the reasons in order |
| Handler.CountOne | internal/jobs/handler.go:156-168 | one turn of the counting switch |
| Handler.Collect | internal/jobs/handler.go:123-169 | one record per e-mail and counters that count the statuses |
| Handler.MarkJobFailed | internal/jobs/handler.go:190-200 | the row is failed, unless that statement fails or is rejected too |
| Handler.Persist | internal/jobs/handler.go:171-178 | insert, then count; a failure of either marks the job, and which failure it was |
| Handler.RowAfterIs | internal/jobs/handler.go:171-200 | a batch that went through adds its counters to the row and dates it; one that failed fails the job if that statement works; an aborted one changes nothing |
| Handler.HandleBatch | internal/jobs/handler.go:89-184 | one batch from raw addresses to both tables: no trace exactly if the context was found ended before a stage of an e-mail; otherwise the validated e-mails in order as records, each status counter the number of decisions for it and none unknown, one row per new key unless the insert fails, and the job's row counted or failed |
| Handler.DeltaEnablesCount | internal/jobs/handler.go:126-178 | the counters of a handled batch are what the protocol asks of its counting move |
| Handler.HandlerIsMoves | internal/jobs/handler.go:89-200 | every outcome of a batch is a play of the job protocol that leaves the same row |

## Left out

- Handler.HandleBatch: the e-mails are validated one after the other where the program runs them in goroutines that each write their own slot; the DNS pre-warm phase, which only fills the cache, is not modelled.
- Handler.HandleBatch: an error that is neither cancellation nor deadline, and a nil e-mail, do not occur with this validator and are not modelled; nor is ValidateBatch, which the job path does not call. A context that ends inside a lookup shows as a failed lookup, as it does in the program.
- Resolver.JitteredTTL: the random draw is a parameter within 10% of the base; its distribution and the truncation of float to integer nanoseconds are not modelled.
- Resolver.Resolver.LookupMX: the key prefix of the MX entries is dropped, since nothing else shares the cache, and a missing cache is one without layers; a caller that joins a flight gets that flight's result.
- Results.ExportCSV: query and write errors end the export early and are not modelled, nor is CSV quoting.
- Results.ResultsRepo.BulkInsert: which of several rows with one key `DISTINCT ON` keeps is a parameter, because the statement has no ORDER BY; a commit whose acknowledgement is lost is not modelled.
- Manager.Pool.Submit: what the workers take during a send is a parameter, and a send to a full channel proceeds once one of them takes a task; a sender that no worker ever relieves is not modelled, nor is a send after the pool was stopped.
- Manager.Manager.Requeue: name, source and metadata of the new job are not modelled.
- JobProtocol.MoveConserves: markJobFailed's second statement, which only writes metadata and updated_at of a failed row, is not a move of its own; JobRow has it as SetLastError.
- JobProtocol.EndedJobCompletesIff: every statement of a job reads one clock that never goes back. PostgreSQL's now() is the start of the statement's transaction, so a start that waited for the row lock can carry a time before the cancellation it follows and is then not rejected; JobRow.StartRejectedIff says so for any time.
- Non-ASCII text: NFC, Unicode case folding, Unicode white space and IDNA proper. IDNA and `net/mail` parsing are functions of the text; where a theorem needs it, IDNA leaves ASCII domains alone.
- Absorbing terminal statuses: UpdateStatus has no guard, so a terminal job can be overwritten.
- Draining the queue once the pool's context has ended: workers may leave with tasks queued, which the protocol has as dropped batches.
- Linearizability of the two-level cache under concurrent Get and Set; the histories are sequential.
- The order in which the in-memory library evicts; any set of keys may go.
- A negative ttl in Redis, which keeps the previous deadline there.
- Membership tests of the TLD, disposable, role and free-provider lists, and the domain classifier: functions of the text.
- MarkCompleted, which nothing calls on the job path, and the status counters kept for metrics.
- HTTP handlers, dashboard, logging, metrics, shell scripts, and several processes sharing one Redis.
