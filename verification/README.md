# Verified model of the IP lookup server

A Dafny model of the stateful parts of the IP geolocation and MAC lookup server, with proofs of what
they promise. `dafny verify dfyconfig.toml` checks all of it.

**The cache** (`src/cache.h`). `RecencyList.dfy` is the linked list on the heap, a ring of nodes through
a sentinel. `CacheShard.dfy` is the shard, whose map and list hold references into each other; its
methods are proved to take the steps of `CacheModel.dfy`, where a shard is a sequence of entries in
recency order. `CacheRuns.dfy` proves what every run of such steps keeps: answers from the latest
`put`, LRU order, minimal eviction, conservation, memory. `Sharding.dfy` and `IPCache.dfy` lift this
to the sharded cache, whose own contract speaks of the log of all its calls.

**The services and the batch endpoint** (`src/service`, `src/http_server.cpp`). `Answers.dfy` says what
a lookup answers without a cache, from what the databases hold. `LookupMachine.dfy` is a state machine
of any number of lookups over one cache, each taking three atomic steps (`get`, database read, `put`)
in any interleaving. It proves that the cache never shows: every finished lookup, and so every batch,
has the uncached answers. It also proves that the cache fills: what was read is stored, and is answered
until its TTL is over. `Services.dfy` and `Batch.dfy` are the code on the heap cache. In
`RunAsync` a schedule argument stands for what the threads of `std::async` happen to do.

**The rate limiter** (`src/rate_limiter.cpp`). `RateLimiter.dfy` is the class, `LimiterModel.dfy` its
steps on values. `LimiterRuns.dfy` has the invariant of every run under a clock that does not go back,
with the two clock readings of `is_allowed` kept apart. `LimiterWindows.dfy` and `LimiterEviction.dfy`
have the guarantees: sliding window, long-run rate, refinement of a limiter that forgets nothing,
exactness of `get_remaining`, LRU survival. `LimiterBounds.dfy` and `LimiterExactness.dfy` say what is
left of the limit across evictions: exactly when it still holds, and a bound on the excess that is reached.

**Smaller parts.** `Metrics.dfy`, `MacAddress.dfy` and `Passwords.dfy`.

Conventions. Times are integers, in ticks of the clock in question (nanoseconds where the source fixes
a duration), and are parameters of the methods that read them. The hash, the length of a value's JSON text, the databases and the
address validator are function parameters, arbitrary in every theorem. Random draws are an arbitrary
stream. Each locked method is one atomic step.

Where the code does less than a reader may expect:

- Overwriting a cache entry with a larger one can exceed the shard's budget (`PutIsBounded` says exactly
  when, `GrowingOverwriteExceedsBudget` shows a case). The services never do it, because they store one
  value per key.
- An evicted address gets a fresh quota, so across evictions the limit per window can be exceeded. It
  holds in every run if and only if at most `max(1, max_ip_records)` addresses may call, or the limit is
  zero or less, or the window is negative (`LimitHoldsIff`). One more quota costs that many calls of
  other addresses in the window (`ExcessCostsCalls`), and no more than that (`ExcessIsReached`).
- With a negative window and a positive limit no call is ever denied, so only then is `get_remaining`
  not exact (`RemainingIsExact`, `NegativeWindowNeverDenies`).
- An error of the ASN database counts as a missing entry. `AsnErrorsAreHidden` says exactly which errors
  an answer hides, and as what the answer is then cached.
- A generated password need not contain every enabled class (`ClassIsPresentIff`, `ClassCanBeLost`): only the
  last one is guaranteed, and any string of the right length over the pool with such a character is possible
  (`PasswordIsPossibleIff`).

## Model

| member | source | states |
|---|---|---|
| `RecencyLists.RecencyList.PushFront` | src/cache.h:106-106 | a new node becomes the front of the list, every other node keeps its place |
| `RecencyLists.RecencyList.Erase` | src/cache.h:73-73 | the node an iterator denotes leaves the list without a search; the others keep their order and their links |
| `RecencyLists.RecencyList.MoveToFront` | src/cache.h:81-81 | splicing through an iterator moves exactly that node to the front; no iterator is invalidated |
| `RecencyLists.RecencyList.Back` | src/cache.h:151-151 | the back of a non-empty list is its last node |
| `LinkedKeys.EraseLinked` | src/cache.h:72-75 | erasing a key from both containers leaves every remaining iterator denoting its own key's node |
| `LinkedKeys.LinkedSize` | src/rate_limiter.cpp:38-38 | map and list always have the same number of elements |
| `CacheModel.KeepIsLongestPrefix` | src/cache.h:149-157 | the eviction loop keeps the longest prefix of the recency order that leaves room for the new entry, and nothing if none does |
| `CacheShards.Position` | src/cache.h:58-111 | a key is in the map exactly if it is in the list, keys do not repeat, and the stored iterator denotes the key's only position |
| `CacheShards.CacheShard.constructor` | src/cache.h:55-56 | a new shard is empty with all counters zero |
| `CacheShards.CacheShard.Get` | src/cache.h:58-84 | on the linked heap structures, exactly the abstract `get` step, with the byte counter still equal to the sum of entry sizes |
| `CacheShards.CacheShard.EvictIfNeeded` | src/cache.h:149-157 | the loop terminates, leaves exactly what the abstract eviction keeps, never underflows the byte counter, and counts each dropped entry once |
| `CacheShards.CacheShard.Put` | src/cache.h:86-111 | on the linked heap structures, exactly the abstract `put` step, overwriting or evicting and inserting |
| `CacheRuns.RunByRecency` | src/cache.h:81-81 | in every run the list order is the order of the keys' last use, latest first |
| `CacheRuns.EvictionIsLru` | src/cache.h:104-110 | in every run, a put of an absent key drops as few entries as possible, each last used before every survivor, and evictions grows by their number |
| `CacheRuns.EntriesAreLatestPuts` | src/cache.h:92-110 | in every run each resident entry is what the latest put of its key wrote, with that put's time, and twice the key's length plus the length of the value's text as its size |
| `CacheRuns.GetAnswersLatestPut` | src/cache.h:63-83 | in every run, a hit happens exactly if the key is resident and its latest put is at most 3600 seconds old for an address, seven days for a MAC address, 300 seconds for a negative, and returns that put's value; hits do not extend an entry's life |
| `CacheRuns.ResidentAfter` | src/cache.h:58-111 | after a call its key is resident exactly if the call stored it or found it |
| `CacheRuns.Conservation` | src/cache.h:61-83 | fresh inserts = live + evicted + expired entries; lookups = hits + misses; hits are the answered lookups; expired are the lookups that found their key too old |
| `CacheRuns.PutIsBounded` | src/cache.h:92-110 | exactly when a put leaves the shard within its budget or with one oversized entry: always for an absent key, and for an overwrite only if the new total fits or the entry is alone |
| `CacheRuns.GetIsBounded` | src/cache.h:58-84 | a get never takes the shard out of bounds |
| `CacheRuns.GrowingOverwriteExceedsBudget` | src/cache.h:93-102 | a concrete run whose growing overwrite leaves two entries over the budget, since that branch does not evict |
| `Sharding.ShardRunsItsOwnCalls` | src/cache.h:181-190 | each shard is in the state of a lone shard that served only the calls routed to it |
| `Sharding.KeysLiveInTheirShard` | src/cache.h:202-204 | a key is only ever present in the shard numbered by its hash modulo the shard count |
| `Sharding.OtherShardsAreUntouched` | src/cache.h:181-204 | a call changes no shard but the one numbered by its key's hash modulo the shard count |
| `Sharding.CacheAnswersLatestPut` | src/cache.h:181-190 | the whole cache answers from the latest put of the key among all calls to all shards, exactly while that put is at most 3600 seconds, seven days or 300 seconds old, by its type |
| `Sharding.CombinedIsTotal` | src/cache.h:41-49 | adding up shard statistics gives the sum of each counter, and the memory figure is the sum of shard usages only |
| `Sharding.ConservationAll` | src/cache.h:192-199 | the conservation laws hold of the combined figures after every run, when no call is in progress; hits and expired entries are those of the calls |
| `Sharding.ShardMemoryIsCeiling` | src/cache.h:173-173 | the shares add up to the whole budget and exceed it by less than one byte a shard |
| `Sharding.MemoryBound` | src/cache.h:170-179 | bounded shards without oversized entries use at most max_memory + shard_count - 1 bytes |
| `IPCaches.IPCache.constructor` | src/cache.h:170-179 | as many empty shards as asked for, each with its share, owning disjoint parts of the heap |
| `IPCaches.IPCache.OneShardChanged` | src/cache.h:181-190 | an operation on one shard leaves the contents of every other shard unchanged |
| `IPCaches.IPCache.Get` | src/cache.h:181-184 | the answer is the latest put of the key over the cache's whole life, exactly if the key is resident and that put is at most 3600 seconds, seven days or 300 seconds old, by its type; the state moves by the abstract step |
| `IPCaches.IPCache.Put` | src/cache.h:186-190 | the state moves by the abstract step, in the key's own shard |
| `IPCaches.IPCache.GetStats` | src/cache.h:192-199 | the reported counters account for every lookup, hit, expiry and entry since construction, and the memory figure for every byte in use |
| `MacAddresses.IsValidMacFormat` | src/validation.cpp:34-51 | true exactly for six hex pairs joined by colons or dashes, or twelve hex digits |
| `MacAddresses.AcceptedSpellings` | src/validation.cpp:34-51 | the accepted spellings character by character, with the hex digits and both separators listed |
| `MacAddresses.NormalizeMacAddress` | src/mac_database.cpp:86-97 | the loop computes the normal form: the hex digits in order, in upper case |
| `MacAddresses.NormalizeConcat` | src/mac_database.cpp:86-97 | the normal form of a text is that of its parts, in order |
| `MacAddresses.NormalizeOne` | src/mac_database.cpp:86-97 | and of one character: a digit or capital A to F stays, a to f become capitals, anything else goes |
| `MacAddresses.AcceptedSpellingHasTwelveDigits` | src/mac_database.cpp:86-97 | every accepted spelling normalises to exactly twelve upper-case hex digits |
| `MacAddresses.NormalizeIsIdempotent` | src/mac_database.cpp:86-97 | normalising twice is normalising once |
| `MacAddresses.NormalizeUndoesExtractOui` | src/mac_database.cpp:99-105 | normalising the extracted OUI gives back the first six digits |
| `MacAddresses.OuiLookup` | src/mac_database.cpp:107-161 | the imperative lookup yields the abstract result and, key by key: an error alone, or the spelling, the OUI as XX:XX:XX, the found flag, and each of the seven columns exactly if the row has it, with its text |
| `MacAddresses.OuiContentsDecide` | src/mac_database.cpp:107-161 | that description by keys fits exactly one result, for every database and spelling |
| `MacAddresses.AcceptedSpellingIsLookedUp` | src/mac_database.cpp:115-122 | an accepted spelling never takes the format-error branch, and a result with a row or without one carries no error |
| `MacAddresses.SpellingDoesNotMatter` | src/mac_database.cpp:137-155 | spellings with one normal form give results that differ only in the echoed spelling |
| `Answers.MmdbLookup` | src/database/maxmind_database.cpp:46-80 | a MaxMind result has the database's error and nothing else, or has the found flag, true exactly if there is an entry, and that entry's fields |
| `Answers.GeoContentsDecide` | src/service/ip_geo_service.cpp:19-54 | exactly one answer has the address, the found flag, of the nine fields those the two entries have with their values, and no other key, or else the text of the first failure |
| `Answers.GeoAnswerIsWellTyped` | src/service/ip_geo_service.cpp:19-54 | an address answer is uncached exactly if it has an error; a cached one is NEGATIVE exactly if not found |
| `Answers.MacAnswerIsWellTyped` | src/service/mac_lookup_service.cpp:19-40 | a MAC answer is uncached exactly if it has an error; a cached one is NEGATIVE exactly if not found |
| `Answers.AsnErrorsAreHidden` | src/service/ip_geo_service.cpp:27-44 | an error of the ASN database counts as a missing entry; an answer hides a reported error if and only if only that database failed; with such an error it is cached as NEGATIVE if and only if the city database lacks the address, and for the full time if and only if it has it |
| `Answers.MacAnswersAgree` | src/service/mac_lookup_service.cpp:19-40 | spellings of one MAC address are answered and cached alike |
| `LookupMachine.ExecIsSound` | src/service/ip_geo_service.cpp:13-55 | for every interleaving of lookup steps: each cached entry is its key's own answer under the right type, each shard is bounded, each task carries its key's answer |
| `LookupMachine.LookupsAreUncached` | src/service/ip_geo_service.cpp:13-55 | in every reachable state a finished lookup has the answer it would have had without a cache |
| `LookupMachine.CachedEntriesAreTyped` | src/cache.h:21-25 | in every reachable state no cached entry has an error, and NEGATIVE is the type of exactly those not found |
| `LookupMachine.ServiceMemory` | src/service/ip_geo_service.cpp:36-46 | in every reachable state each shard is within its share or holds one oversized entry, and the cache within max_memory + shard_count - 1 if no answer exceeds a share |
| `LookupMachine.BatchIsUncached` | src/http_server.cpp:372-388 | for every interleaving, with any other traffic, a finished batch's results are the uncached answers in request order |
| `LookupMachine.BatchIsIndependentOfInterleaving` | src/http_server.cpp:364-388 | two executions of a batch agree, whatever their schedules, clocks, histories and cache sizes |
| `LookupMachine.ThreeStepsFinish` | src/http_server.cpp:376-384 | a task never goes back, and is finished after three steps of its own in any schedule |
| `LookupMachine.LookupAloneIsSchedule` | src/http_server.cpp:364-370 | an uninterrupted lookup is one of the schedules, so the sequential path is a special case of the concurrent one |
| `LookupMachine.ReachedIsRun` | src/service/ip_geo_service.cpp:13-55 | however the lookups interleave, the cache is in the state that one sequence of get and put calls leads to |
| `LookupMachine.HitsAreFreshEntries` | src/service/ip_geo_service.cpp:14-17 | in every reachable state a lookup is a hit exactly if its key is resident and was last stored within its TTL, and then is done with what was stored |
| `LookupMachine.FinishedReadIsStored` | src/service/ip_geo_service.cpp:36-54 | in every interleaving a lookup that had to read the databases leaves a cacheable answer resident, and the cache answers with it for 3600 seconds, seven days or 300 seconds, by its type |
| `LookupMachine.LookupAloneIsRun` | src/service/ip_geo_service.cpp:13-55 | after any calls a lookup makes a get, and a put exactly if that missed and the answer is cacheable; its hit flag, data and effect on residence follow from the calls |
| `LookupMachine.SecondLookupHits` | src/service/ip_geo_service.cpp:13-55 | after a lookup with a cacheable answer the next lookup of the key is a hit with the same data exactly while what was found or stored is within its TTL |
| `Services.IPGeoService.constructor` | src/service/ip_geo_service.cpp:8-11 | a new service reads the databases it was given, and its cache is empty with 100 MiB in 8 shards |
| `Services.IPGeoService.ReadDatabases` | src/service/ip_geo_service.cpp:19-54 | building the object by updates gives the merge of both databases' outcomes, field by field, and the type it is cached under |
| `Services.IPGeoService.Lookup` | src/service/ip_geo_service.cpp:13-55 | get, read and put on the heap cache are the three steps of the abstract lookup; the call log grows by the get, and by the put exactly if that missed and the answer is cacheable; it is a hit exactly if the key was resident and fresh |
| `Services.MACLookupService.constructor` | src/service/mac_lookup_service.cpp:8-11 | a new service reads the database it was given, and its cache is empty with 50 MiB in 8 shards |
| `Services.MACLookupService.ReadDatabase` | src/service/mac_lookup_service.cpp:19-37 | errors and exceptions are answered but not cached; a found row is cached as MAC_OUI, a missing one as NEGATIVE, with exactly the contents of the database's result |
| `Services.MACLookupService.Lookup` | src/service/mac_lookup_service.cpp:13-40 | get, read and put on the heap cache are the three steps of the abstract lookup; the call log grows by the get, and by the put exactly if that missed and the answer is cacheable; it is a hit exactly if the key was resident and fresh |
| `Services.GeoCacheIsTyped` | src/service/ip_geo_service.cpp:27-46 | in every reachable state of the address service each cached entry is the merge for its address, from databases that raised nothing and a city database without error |
| `Services.MacCacheIsTyped` | src/service/mac_lookup_service.cpp:22-31 | in every reachable state of the MAC service each cached entry is the OUI database's own result, without error |
| `Batches.Handler.Lookup` | src/http_server.cpp:366-369 | a handler call answers as without a cache, makes exactly the cache calls of a lookup, and leaves the cache holding only its service's answers |
| `Batches.Handler.StepTask` | src/http_server.cpp:377-380 | one step of an asynchronous lookup on the shared heap cache is the abstract step, with its cache call if it makes one |
| `Batches.RunSequentially` | src/http_server.cpp:364-370 | the path for small batches returns the uncached answers in order |
| `Batches.RunAsync` | src/http_server.cpp:371-388 | the path for large batches returns the uncached answers in order, whatever the schedule of the threads |
| `Batches.Server.FilterItems` | src/http_server.cpp:343-350 | the query list is the texts of exactly the accepted strings of the request, at strictly ascending positions, so in order and with repetitions |
| `Batches.QueriesAreAccepted` | src/http_server.cpp:343-350 | a string is queried exactly if it is among the items and the validator accepts it |
| `Batches.Server.HandleLookupPost` | src/http_server.cpp:301-391 | every request gets the response expected without cache or concurrency: the right error, too large only above the limit, or for each accepted item, in the order of the items, its uncached answer; on every path both handlers stay ready and share nothing |
| `Batches.Server.RunBatch` | src/http_server.cpp:361-391 | both paths give the uncached answers in order, and the other handler is not disturbed |
| `Batches.Server.HandleRequests` | src/http_server.cpp:295-402 | over any sequence of requests every response is the expected one, item by item, so none depends on the requests before it |
| `Batches.Wire` | src/main.cpp:27-36 | the wired server is ready, and what it is expected to answer comes from the databases it was given |
| `Batches.MacBatchHasNoFormatErrors` | src/http_server.cpp:358-359 | no query of a MAC batch meets the database's format error |
| `RateLimiters.Position` | src/rate_limiter.cpp:35-52 | an address has a record exactly if it is in the recency list, addresses do not repeat, and the stored iterator denotes its position |
| `RateLimiters.RateLimiter.CleanupOldTimestamps` | src/rate_limiter.cpp:9-14 | the loop drops expired times from the front, up to the first that is not expired |
| `RateLimiters.RateLimiter.EvictLru` | src/rate_limiter.cpp:16-25 | exactly the least recent record goes, from map and list; nothing happens if there is none |
| `RateLimiters.RateLimiter.Decide` | src/rate_limiter.cpp:27-61 | on the linked heap structures, exactly the abstract `is_allowed` step |
| `RateLimiters.RateLimiter.IsAllowed` | src/rate_limiter.cpp:27-61 | an address is allowed exactly if fewer than max_requests of its admissions since its last eviction are still in the window |
| `RateLimiters.RateLimiter.GetRemaining` | src/rate_limiter.cpp:63-74 | the answer is max_requests less the admissions still in the window, and not below zero; a negative limit is returned as it is |
| `RateLimiters.RateLimiter.Sweep` | src/rate_limiter.cpp:76-98 | both cleanup loops, in any iteration order, prune every record at its own clock reading and remove exactly the empty ones |
| `RateLimiters.RateLimiter.Cleanup` | src/rate_limiter.cpp:76-98 | cleanup is a step of the abstract run |
| `LimiterRuns.CleanupKeeps` | src/rate_limiter.cpp:76-98 | every record with times left survives with exactly those, and no other record does |
| `LimiterRuns.StampsAfter` | src/rate_limiter.cpp:27-98 | what each kind of call does to the recorded times of each address |
| `LimiterRuns.RunKeepsInvariant` | src/rate_limiter.cpp:9-98 | in every run a record holds the end of its address's admission log, all earlier admissions have expired, and later admissions were decided only after earlier ones had |
| `LimiterWindows.SlidingWindow` | src/rate_limiter.cpp:50-58 | between evictions, an admission is decided more than a window after the one max_requests before it was recorded, both clock readings kept apart |
| `LimiterWindows.WindowHoldsAtMostMax` | src/rate_limiter.cpp:27-61 | with one clock, no closed interval as long as the window holds more than max_requests admissions, for any mix of calls |
| `LimiterWindows.LongRunRate` | src/rate_limiter.cpp:27-61 | an interval of length L holds at most max_requests * (L / window + 1) admissions |
| `LimiterWindows.AllowCountsLog` | src/rate_limiter.cpp:27-61 | front-only pruning decides as counting the unexpired entries of the whole log would |
| `LimiterWindows.RemainingCountsLog` | src/rate_limiter.cpp:63-74 | get_remaining is the limit less that count |
| `LimiterWindows.RefinesReference` | src/rate_limiter.cpp:9-98 | with one clock and no eviction, every answer equals that of a limiter that keeps all admissions and ignores everything else |
| `LimiterWindows.RemainingIsExact` | src/rate_limiter.cpp:63-74 | for every limit not below zero, tracked or not: after the answer r the next r calls at that instant are allowed, and the one after is denied if and only if the window is not negative or the limit is zero |
| `LimiterWindows.NegativeWindowNeverDenies` | src/rate_limiter.cpp:11-11 | with a negative window and a positive limit every call is allowed, also when the clock goes on between the calls |
| `LimiterEviction.RunIsOrdered` | src/rate_limiter.cpp:38-52 | at most max(1, max_ip_records) addresses are tracked, ordered by their last is_allowed call |
| `LimiterEviction.SurvivesRecentCallers` | src/rate_limiter.cpp:37-40 | an address is evicted only if max(1, max_ip_records) other addresses called is_allowed since it last did |
| `LimiterEviction.TracksLatestCallers` | src/rate_limiter.cpp:37-52 | without cleanup the tracked addresses are exactly the latest callers, as many as fit |
| `LimiterBounds.FewCallersAreNeverEvicted` | src/rate_limiter.cpp:37-40 | no address is evicted while at most max(1, max_ip_records) addresses call |
| `LimiterBounds.ExcessIsBounded` | src/rate_limiter.cpp:27-61 | with one clock, all admissions of an address in one window are at most max_requests * (1 + its evictions in that window) |
| `LimiterBounds.LossesCostCalls` | src/rate_limiter.cpp:37-40 | each of those evictions takes max(1, max_ip_records) calls of other addresses in that interval, and no call pays for two |
| `LimiterBounds.ExcessCostsCalls` | src/rate_limiter.cpp:27-61 | so m calls of other addresses in a window give an address at most max_requests * (1 + m / max(1, max_ip_records)) admissions in it |
| `LimiterExactness.LimitHoldsForFewCallers` | src/rate_limiter.cpp:27-61 | the limit holds over all admissions, across evictions, if at most max(1, max_ip_records) addresses call, the window is negative, or nothing is ever admitted |
| `LimiterExactness.ExcessIsReached` | src/rate_limiter.cpp:37-47 | that bound is reached by every limiter with a positive limit and no negative window, for every address, any other addresses enough to fill the table and any number of evictions |
| `LimiterExactness.LimitHoldsIff` | src/rate_limiter.cpp:27-61 | the limit holds for every address and window in every run among given addresses if and only if max_requests <= 0, or the window is negative, or they are at most max(1, max_ip_records) |
| `LimiterExactness.EvictionLosesTheWindow` | src/rate_limiter.cpp:37-47 | an example: three calls on a limiter of one request and one record, the last of which exceeds the limit |
| `MetricsCollector.Metrics.RecordRequest` | src/metrics.cpp:22-38 | after any history the windows are the last thousand latencies and the times within sixty seconds of the newest |
| `MetricsCollector.LastLatenciesAt` | src/metrics.cpp:26-29 | the latency window is the last 1000 latencies, or all of them, in order |
| `MetricsCollector.RecentTimesAt` | src/metrics.cpp:31-37 | the times window is exactly the end of the history at most sixty seconds older than the newest request |
| `MetricsCollector.PopBeforeIsFilter` | src/metrics.cpp:34-37 | popping the front of the window is filtering the whole history |
| `MetricsCollector.TimesSinceAreRecent` | src/metrics.cpp:34-37 | the retained times are ascending and none is older than the cutoff |
| `MetricsCollector.SortedIsSorted` | src/metrics.cpp:80-81 | the sorted copy is ordered and is a permutation of the window |
| `MetricsCollector.PercentileIsRank` | src/metrics.cpp:75-85 | a percentile is the latency of its rank: with i = (n - 1) * percent / 100 rounded down, more than i latencies are at most it, at most i are at most anything below it |
| `MetricsCollector.PercentilesAreOrdered` | src/metrics.cpp:60-62 | min <= p50 <= p95 <= p99 <= max |
| `MetricsCollector.MeanIsBetween` | src/metrics.cpp:58-59 | the mean times the number of latencies is their sum, and it lies between the least and the greatest |
| `MetricsCollector.SumOfConcat` | src/metrics.cpp:58-59 | the sum of one latency is itself, and of two stretches the sum of their sums |
| `MetricsCollector.QpsIsAtLeastPerMinute` | src/metrics.cpp:87-103 | a rate that is not zero is at least (n - 1) / 60 for n retained times |
| `MetricsCollector.Metrics.GetStats` | src/metrics.cpp:44-73 | the reported figures as functions of the whole history; the rate times the milliseconds between first and last retained time is the number of intervals times 1000 |
| `Passwords.BuildCharacterSets` | src/password_generator.cpp:35-60 | the repeated erasing computes the enabled classes without their confusable characters |
| `Passwords.SetsAreEnabledClasses` | src/password_generator.cpp:35-60 | the required sets are exactly the enabled classes, none of them empty, and the pool is their union |
| `Passwords.PoolHasNoConfusables` | src/password_generator.cpp:43-47 | with exclude_similar the pool holds no confusable character of any class |
| `Passwords.PoolIsExactly` | src/password_generator.cpp:35-60 | exactly which characters can be drawn, for every configuration, by ranges and lists |
| `Passwords.ClassIsPresentIff` | src/password_generator.cpp:129-136 | exactly when an enabled class is present: its write was not overwritten by a later class, or the pool drew it at a position nothing was written to |
| `Passwords.FillPassword` | src/password_generator.cpp:122-136 | the two loops draw from the pool and then write one character of each class |
| `Passwords.Shuffle` | src/password_generator.cpp:138-138 | each position in turn is swapped with the drawn one, which permutes the characters |
| `Passwords.EveryArrangementIsReached` | src/password_generator.cpp:138-138 | every arrangement of the characters is reached by some draws of the shuffle, whatever the other draws |
| `Passwords.Generate` | src/password_generator.cpp:108-147 | accepted exactly for lengths 8 to 128 with some class enabled; otherwise the first broken rule; the password is the filled one shuffled, of the configured length |
| `Passwords.GenerateBatch` | src/password_generator.cpp:149-162 | count passwords, or the error of the count or the configuration |
| `Passwords.PasswordAlphabet` | src/password_generator.cpp:108-147 | for every stream of draws: the configured length, only pool characters, no confusable ones if excluded |
| `Passwords.PasswordClasses` | src/password_generator.cpp:129-138 | for every stream of draws: which classes the shuffled password has, always the last one, and all if the drawn positions are distinct |
| `Passwords.PasswordIsPossibleIff` | src/password_generator.cpp:108-147 | some stream of draws gives a password if and only if it has the configured length, only pool characters, and a character of the last enabled class |
| `Passwords.ClassCanBeLost` | src/password_generator.cpp:129-136 | a concrete stream of draws whose password lacks an enabled class |

## Left out

- HTTP routing, headers, CORS, authentication, JSON text parsing, server start and stop: input and output.
- MaxMind, SQLite, `inet_pton` and `getaddrinfo`: foreign calls. Their outcomes are parameters, with every error they report.
- `src/config.cpp`, `src/auth.cpp`, `src/paths.cpp`, `src/logger.cpp`, logging calls: they would only add easy members.
- Exceptions while a value is stored or serialised (out of memory, or text that is not UTF-8): the length of the JSON text is a total function.
- Unsigned wrap-around of `size_t` and 64-bit counters: byte totals and counters are unbounded. The byte counter is proved never to underflow.
- Mutexes and data races: each locked method is one step. The combined statistics are stated for states in which no call is in progress.
- `metrics_->record_request` in the batch handler: a batch is not tied to the metrics class.
- MetricsCollector.Percentile: uses exact rationals, where the source multiplies doubles before truncating the index.
- MetricsCollector.Qps: uses exact rationals instead of doubles.
- Batches.RunAsync: other requests that use the same cache during the batch are modelled in LookupMachine, not in this method.
- Passwords.Draw: the quality of the randomness and the rejection sampling of the distributions are not modelled, only that each draw is in range.
- Entropy and strength rating of a password, cache hit rate and megabytes: floating point over values modelled here.
