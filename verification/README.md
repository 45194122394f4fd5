# Verified model of the Helios permissions SDK for Go

The SDK answers "may this user do this in this tenant?". It reads permission arrays from a cache, in process or in
Redis, and asks the Helios service on a miss, letting concurrent callers share one request. The tables it decides with
are Go code, generated from a JSON contract. This project models those three parts and proves what they promise.

- **The read protocol against concurrent writers.** `Protocol` is a transition system with any number of clients,
  callers, keys and steps. A step is one atomic action: a cache command, a locked section over the in-flight table, the
  Helios request, the publication of a result, a wake-up, a role change, a write-through, a removal or expiry. The gap
  between the Helios read and the cache write, and the gap between closing an entry and deleting it, are separate steps.
  Over its runs: `Coalescer` (safety of the in-flight table), `Progress` (every call returns), `Coherence` and
  `AfterInvalidate` (when the cache and the answers tell the truth), `Provenance` (where answers come from), `Accounting`
  (how many requests a key costs) and `Outage` (what a failing Helios can affect). `InFlight` is the table on the heap, following the transition system step by step,
  `SharedSlice` runs coalesced callers that write into what they are handed, and `Sequential` ties the facade below to
  runs of the system.
- **Two caches that should be one map.** `Keys` and `Glob` settle which strings the keys, the suffix test and the
  SCAN pattern select. `InMemoryCache` is the process-local class with its defensive copies; `CacheSpec` says what it
  computes and that it simulates a table keyed by pairs; `HeapIsolation` and `FacadeIsolation` run a caller that
  overwrites every slice it can reach. `Redis` is the Redis-backed class over a server whose other clients interfere;
  `ProtocolCache` ties the transition system's cache steps to it, `TenantScan` is about its SCAN and DEL loop, `Timed`
  and `TimedCache` about its TTL, `Healing` about unreadable values, `Agreement` about both caches together.
- **The contract compiler and the decisions over its output.** `Names`, `Sorting` and `Codegen` model the emitter,
  `GoLoader` what Go makes of the emitted file (a compile error or the tables), `CodegenMeaning` exactly when it compiles,
  and `ContractAnswers` and `CodegenAnswers` that the generated functions then answer as the contract says. `RolePermissions`, `Fold` and
  `PermissionClient` are the decision functions, the self-permission fold and the facade.

Helios, the clock, the network and the Redis server's other clients are inputs: parameters of steps (`Resolution`, `Reply`),
a script of rounds for one scan (`Round`), or steps of a run. A Go nil slice is `None` of `Slice`, kept apart from the empty slice
because it is encoded as `null` and read back as a miss.

`dafny verify dfyconfig.toml` checks everything.

## Where the code and its documentation differ

The model follows the code.

- `helios_permissions/redis_cache.go:211-214` says NX keeps a slow read from resurrecting an invalidated value. It does
  not: `Coherence.NxResurrects` is such a run. `Coherence.InvalidateSafeIff` says exactly when the cache entry stays right
  after an Invalidate, which the fetches between their read and their Set decide, and `AfterInvalidate.InvalidateAnswersIff`
  exactly when the answers of later calls do, which every entry not yet deleted decides.
- `helios_permissions/permission_client.go:9-11,42-43` and the repository's `README.md:17-19` describe a stale-on-error fallback.
  The flag is stored and never read, so there is none in the model. A caller that finds an entry never asks Helios.
- `HANDOFF.md:101` promises at most two requests for ten concurrent calls. That depends on the schedule:
  `Accounting.CoalescingHasNoFixedBound` gives, for every n, a run in which n overlapping calls cost n requests, and
  `Accounting.FetchesAreEpochs` gives the exact number for every run, and `Accounting.AtMostOneFetchIff` says when it is one.
- `helios_permissions_test/redis_cache_test.go:162` expects a corrupt value to heal on the next Set. The key is
  present, so NX leaves it until it expires: `Healing.HealsIff` says exactly when a Set heals, which without a TTL is never.
- `HANDOFF.md:99` gives a TTL of 60 seconds; the code's default is 0, no expiry.
- The key shape takes any ids. With a colon in them, two pairs can share a key, and then one pair is served what was
  written for the other. `CacheSpec.SimulationIff` and `Provenance.ProvenanceIff` say exactly when.

## Model

| member | source | states |
|---|---|---|
| Keys.LongerUserSwallowsSeparator | helios_permissions/in_memory_cache.go:24-26 | If two pairs share a key, the one with the longer user has a colon in its user and the other one in its tenant. |
| Keys.KeysInjective | helios_permissions/in_memory_cache.go:24-26 | Among colon-free tenants two pairs have the same key if and only if they are equal. |
| Keys.SolePreimage | helios_permissions/in_memory_cache.go:24-26 | No other pair has this pair's key if and only if neither its user nor its tenant contains a colon. |
| Keys.KeysApart | helios_permissions/in_memory_cache.go:24-26 | If no tenant of a set ends with a colon and another tenant of it, two pairs over the set have the same key if and only if they are equal. |
| Keys.SuffixApart | helios_permissions/in_memory_cache.go:74-91 | Over such a set the suffix test holds of a key if and only if the key is that tenant's. |
| Keys.SuffixSelectsTenant | helios_permissions/in_memory_cache.go:74-91 | So it does for colon-free tenants. |
| Keys.SuffixExactIff | helios_permissions/in_memory_cache.go:74-91 | The suffix test is exact among the keys of all colon-free owners if and only if the tenant invalidated is colon-free. |
| Glob.LiteralMatch | helios_permissions/redis_cache.go:187-189 | A pattern without metacharacters (a final backslash aside) matches itself and nothing else. |
| Glob.StarSkips | helios_permissions/redis_cache.go:187-189 | A star followed by a pattern matches exactly the strings with a suffix the pattern matches. |
| Glob.PatternAgreesWithSuffix | helios_permissions/redis_cache.go:183-189 | On every key the Redis cache produces, the tenant pattern matches exactly when the in-memory suffix test does, for literal tenant ids. |
| Glob.SoleMatchIff | helios_permissions/redis_cache.go:187-189 | A colon-free tenant id read as a pattern selects itself and no other colon-free id if and only if it is literal. |
| Glob.TenantPatternExactIff | helios_permissions/redis_cache.go:261-263 | For a colon-free tenant id, over the keys of all colon-free owners and under a prefix without metacharacters, the tenant pattern selects the tenant's own keys and no others if and only if the id is literal: a star or question mark drags in other tenants, a class or an escape loses the tenant's own keys. |
| CacheSpec.StepPreserved | helios_permissions/in_memory_cache.go:28-84 | Over tenants none of which ends with a colon and another, one operation of the string-keyed store and the same one on a table keyed by pairs give the same answer and corresponding contents. |
| CacheSpec.StoreSimulatesTable | helios_permissions/in_memory_cache.go:5-84 | So does every sequence of Get, Set, WriteThrough, Invalidate and InvalidateTenant over them. |
| CacheSpec.NestedTenantLeaks | helios_permissions/in_memory_cache.go:24-26 | For any tenant that ends with a colon and another one, two operations over the two of them show it: a write for the first answers a Get for the second. |
| CacheSpec.SimulationIff | helios_permissions/in_memory_cache.go:5-84 | For every set of tenants, the store gives the table's answers under every sequence of operations over the set if and only if no tenant of it ends with a colon and another. |
| CacheSpec.ColonFreeSimulation | helios_permissions/in_memory_cache.go:5-84 | In particular the store simulates the table for colon-free tenants. |
| InMemoryCache.CopySlice | helios_permissions/in_memory_cache.go:37-39 | A copy is a new array with the elements of the slice; a nil slice gives an empty one. |
| InMemoryCache.InMemoryPermissionCache.constructor | helios_permissions/in_memory_cache.go:18-22 | A new cache is empty. |
| InMemoryCache.InMemoryPermissionCache.Get | helios_permissions/in_memory_cache.go:29-40 | Get answers with the entry under the key, or nil, in a new array. |
| InMemoryCache.InMemoryPermissionCache.Set | helios_permissions/in_memory_cache.go:44-53 | Set stores a copy under a free key and changes nothing under a taken one; no array of the caller becomes the cache's. |
| InMemoryCache.InMemoryPermissionCache.WriteThrough | helios_permissions/in_memory_cache.go:56-61 | WriteThrough stores a copy whatever was there. |
| InMemoryCache.InMemoryPermissionCache.Invalidate | helios_permissions/in_memory_cache.go:64-69 | Invalidate removes that key and no other. |
| InMemoryCache.InMemoryPermissionCache.InvalidateTenant | helios_permissions/in_memory_cache.go:74-84 | Deleting while ranging, in any order, removes exactly the keys with the tenant's suffix. |
| HeapIsolation.Act | helios_permissions/in_memory_cache.go:29-84 | One call or one write into a held slice, on the heap, is the same step on values that share nothing. |
| HeapIsolation.Drive | helios_permissions/in_memory_cache.go:29-84 | Over every sequence of calls and writes into slices passed in or handed out, the cache's contents are what they would be if slices were values. |
| FacadeIsolation.ActOnHeap | helios_permissions/permission_client.go:227-266 | The same step by step for GetUserPermissions and Explain mixed with cache calls and overwriting. |
| FacadeIsolation.DriveFacade | helios_permissions/permission_client.go:227-290 | Over every such sequence, one call at a time, the cache contents are the value reading's and SELF_PERMISSIONS is as generated. |
| Redis.DurationExactIff | helios_permissions/duration.go:8-13 | Over 64-bit integers, wrapping included, the conversion of positive seconds is exact if and only if they are at most 9223372036; zero and negative seconds give 0. |
| Redis.RedisPermissionCache.constructor | helios_permissions/redis_cache.go:159-181 | A positive TTL and a non-empty prefix are kept; any other TTL is 0 and the prefix helios:perms:. |
| Redis.RedisPermissionCache.Get | helios_permissions/redis_cache.go:192-209 | A present array is returned; a missing key, an unreadable or null value and a failing server all answer nil. |
| Redis.RedisPermissionCache.Set | helios_permissions/redis_cache.go:215-228 | Set stores under a free key with the TTL's deadline, leaves a taken one (deadline included), and on failure changes nothing and reports it. |
| Redis.RedisPermissionCache.WriteThrough | helios_permissions/redis_cache.go:232-243 | WriteThrough stores whatever was there, with a new deadline; on failure it changes nothing and reports it. |
| Redis.RedisPermissionCache.Invalidate | helios_permissions/redis_cache.go:248-258 | Invalidate removes that key and no other; on failure it changes nothing and reports it. |
| Redis.RedisPermissionCache.ScanTurn | helios_permissions/redis_cache.go:266-286 | One turn sends one SCAN with the cursor it is given; a failed SCAN or DEL ends the loop with an error, an empty batch sends no DEL, and the count is what DEL reports. |
| Redis.RedisPermissionCache.InvalidateTenant | helios_permissions/redis_cache.go:261-290 | The loop's database, error, total and SCAN commands are those of the recursive account of the scan, for every script of replies, failures and interference. |
| TenantScan.FailedIff | helios_permissions/redis_cache.go:266-286 | The loop ends in an error if and only if, in a round it reaches (every earlier cursor is non-zero), the SCAN fails or returns keys whose DEL does; an empty batch is no error. |
| TenantScan.CallsFollowCursors | helios_permissions/redis_cache.go:261-285 | Every SCAN asks for the tenant's pattern and batches of 100, the first from cursor 0 and each other from the cursor last returned. |
| TenantScan.LeftoverWasMissed | helios_permissions/redis_cache.go:266-286 | After an error-free loop, a key that remains and was not rewritten was there throughout and was in no batch. |
| TenantScan.TenantGone | helios_permissions/redis_cache.go:260-290 | Given SCAN's full-iteration guarantee, an error-free loop leaves no matching key that was not rewritten while it ran, whatever duplicates, empty batches and other writers. |
| TenantScan.OthersUntouched | helios_permissions/redis_cache.go:260-290 | With an error or without, every key that does not match is exactly as the other clients left it. |
| TenantScan.DeletionsConserve | helios_permissions/redis_cache.go:265-282 | When others leave matching keys alone, in an error-free loop the deletions reported and the matching keys left add up to the matching keys at the start, duplicates notwithstanding. |
| TenantScan.TotalIsExact | helios_permissions/redis_cache.go:260-290 | Then totalDeleted is the number of matching keys at the start. |
| TenantScan.QuietScanIsExact | helios_permissions/redis_cache.go:260-290 | Undisturbed and error-free, the loop removes exactly the matching keys. |
| TenantScan.InvalidateTenantChecked | helios_permissions/redis_cache.go:260-290 | The class method itself has all of these guarantees for a tenant's pattern, and fails exactly when FailedIff says. |
| Timed.ServedEntryHasSource | helios_permissions/redis_cache.go:215-243 | In every timed run, from any database, a live entry is the one that some step stored or the run began with, not removed or replaced since and not run out. |
| Timed.ServedIff | helios_permissions/redis_cache.go:215-258 | A key has a live entry if and only if there is such a step or beginning. |
| Timed.StalenessBound | helios_permissions/redis_cache.go:215-243 | With a TTL of 1 to 9223372036 seconds, an array served now is the one a step stored less than the TTL ago: NX never extends a life. |
| Timed.LivesForItsTtl | helios_permissions/redis_cache.go:215-243 | With such a TTL an entry that is left alone is served exactly while less than that many seconds have passed since it was stored. |
| Timed.NoTtlNoExpiry | helios_permissions/redis_cache.go:21-40 | With a TTL of 0 or less, a stored key lives until something removes it, however long the clock runs. |
| TimedCache.Perform | helios_permissions/redis_cache.go:192-290 | One call of the cache class, InvalidateTenant's loop included, or one advance of the server's clock is one step of a timed run. |
| TimedCache.DriveTimed | helios_permissions/redis_cache.go:159-290 | Over every timed run a new cache's server is in the state the run leads to. |
| Agreement.CachesAgreeIff | helios_permissions/redis_cache.go:183-290 | With a TTL of 0 or less, no Redis errors and literal tenant ids, over every timed run, colons allowed, both caches hold what was stored, and the Redis cache and the in-memory cache give the same answers if and only if no Get reads back a slice that was stored as nil. |
| Agreement.DefaultCachesAgree | helios_permissions/redis_cache.go:71-86 | In particular with the default prefix and TTL, from empty, when nothing nil is stored. |
| Agreement.RedisSimulationIff | helios_permissions/redis_cache.go:183-290 | So the Redis cache answers as a table keyed by pairs, over a set of tenants and however the clock runs, if and only if no tenant of it ends with a colon and another. |
| Healing.HealsIff | helios_permissions/redis_cache.go:192-228 | From a null or corrupt value, over every timed run of Gets and Sets, Get answers afterwards if and only if a Set of a non-nil array found the key free and has not run out; that is at or after the value's deadline, and never happens if it has none. |
| Healing.NullStaysWithoutTtl | helios_permissions/redis_cache.go:203-228 | With the default TTL no run of Gets and Sets ever recovers from a null that was written through. |
| Healing.SetHealsAfterTtl | helios_permissions/redis_cache.go:215-228 | With a TTL the first Set after it does. |
| ProtocolCache.LookIsGet | helios_permissions/permission_client.go:166-173 | In the transition system a caller hits with what the Redis cache answers, and misses when that is nil or the command fails. |
| ProtocolCache.FillIsSet | helios_permissions/permission_client.go:194-204 | The fetch's write is the Redis cache's NX Set, a present but unreadable key included, and whether it succeeds or not the answer is handed on. |
| ProtocolCache.WriteIsWriteThrough | helios_permissions/redis_cache.go:232-243 | A write step is the Redis cache's WriteThrough. |
| ProtocolCache.RemoveIsInvalidate | helios_permissions/redis_cache.go:248-258 | A removal step is its Invalidate. |
| ProtocolCache.CorruptIsForeignSet | helios_permissions/redis_cache.go:202-207 | At any time another client's SET may put something that is no array under any key. |
| ProtocolCache.OtherStepsLeaveCache | helios_permissions/permission_client.go:140-182 | No other step of the system changes the cache. |
| ProtocolCache.OutcomesAreFree | helios_permissions/permission_client.go:166-205 | Every cache command and request that can succeed can fail, and calls, role changes, writes and removals can come at any time. |
| ProtocolCache.LossesAreRemovals | helios_permissions/redis_cache.go:215-290 | Whatever keys a tenant's invalidation or the clock takes from the database are taken by removal steps. |
| ProtocolCache.UnreadableStays | helios_permissions/redis_cache.go:192-228 | Under a null or corrupt value, no run that neither writes nor removes the key changes it, and no call that looks there hits. |
| Coalescer.StepInv | helios_permissions/permission_client.go:140-160 | Every step keeps the in-flight invariant: entries under their own slots, results set exactly from the close on, callers on entries of their slot. |
| Coalescer.TableIsExactlyTheLiveFetches | helios_permissions/permission_client.go:140-160 | In every reachable state the waiter table lists exactly the live fetches, one at most for each client and key. |
| Coalescer.DeleteIsOwn | helios_permissions/permission_client.go:151-157 | The unconditional delete takes out the deleting goroutine's own entry and nothing else, whatever happened since its close. |
| Coalescer.NoLostCallers | helios_permissions/permission_client.go:142-159 | A blocked caller waits on an entry of its own slot that is closed already or still registered with a fetch on its way to the close. |
| Coalescer.SharersGetTheSame | helios_permissions/permission_client.go:144-159 | All callers that share an entry get the identical result or error. |
| Coalescer.ResultWrittenOnce | helios_permissions/permission_client.go:152-159 | Once an entry is closed its result never changes, and a caller waiting on it gets that result however late it wakes. |
| Coalescer.RunLater | helios_permissions/permission_client.go:140-182 | Over every run identities stay, written results stay, finished calls stay finished and joined calls stay with their entry. |
| Progress.StepLowers | helios_permissions/permission_client.go:140-182 | Every step of the clients lowers a natural-number measure; no write, removal or role change raises it. |
| Progress.RunIsBounded | helios_permissions/permission_client.go:140-182 | So without new calls the clients take a bounded number of steps, however others interleave. |
| Progress.StuckIffDone | helios_permissions/permission_client.go:140-182 | No client step is enabled if and only if every call has returned, every fetch is gone and the table is empty. |
| Progress.CanFinish | helios_permissions/permission_client.go:140-182 | From every reachable state the clients alone can get there. |
| Progress.EveryCallReturns | helios_permissions/permission_client.go:140-182 | A run without new calls that the clients cannot extend, or have extended often enough, has returned every call and left no entry. |
| Progress.EveryCallReturnsOnce | helios_permissions/permission_client.go:140-182 | In a run that leaves no client step enabled every outstanding call returns exactly once. |
| Coherence.StepCoherence | helios_permissions/permission_client.go:166-205 | Each step of disciplined writers and any readers keeps: without a pending write the entry is absent or current, and every outdated held answer finds its key taken. |
| Coherence.CacheIsCoherent | helios_permissions/permission_client.go:166-205 | Over all runs in which each role change is written through before the next and nothing removes entries, a pair without a pending write is cached as Helios's current answer or not at all, and every hit on it is current, with any number of slow fetches. |
| Coherence.InvalidateSafeIff | helios_permissions/redis_cache.go:211-258 | After Invalidate, in every continuation that leaves the pair alone its cache entry stays absent or current, if and only if every fetch of it between its Helios read and its Set holds the current answer. |
| Coherence.InvalidateSafeWithWritersIff | helios_permissions/redis_cache.go:211-258 | With no write pending, the same condition decides it for the cache entry in continuations where the pair's later changes are serialised and written through: coherent whenever no write is pending. |
| AfterInvalidate.InvalidateAnswersIff | helios_permissions/permission_client.go:140-182 | After Invalidate, in every continuation that leaves the pair alone each call of it that joins or arrives later is answered with the current array, if with any, if and only if every live in-flight entry of the pair (holding, returned or closed, up to its delete) carries nothing else. |
| AfterInvalidate.LateCallGetsThePast | helios_permissions/permission_client.go:151-157 | The two conditions differ in a reachable state: everyone follows the protocol and no fetch holds an outdated answer, and still a call that arrives after the Invalidate joins an entry not yet deleted and is served the past. |
| Coherence.NxResurrects | helios_permissions/redis_cache.go:211-214 | A run in which everyone follows the protocol, one Invalidate follows, and a slow fetch's NX Set puts the outdated value back. |
| Provenance.AnswersAreGenuine | helios_permissions/permission_client.go:140-205 | With distinct keys, in every run (removals, expiry, failures, corruption included) each array returned for a pair was written through for it or answered by Helios about it. |
| Provenance.AnswerHasSource | helios_permissions/permission_client.go:140-205 | It goes back to one step of the run: a WriteThrough of that array for the pair, or an answered request about it, at which Helios had an active membership with that list, or nothing to grant and the array is empty. |
| Provenance.AskReadsTruth | helios_permissions/permission_client.go:186-200 | A fetch comes to hold Helios's list for an active member, and the empty array for an inactive one, for no member and for no list. |
| Provenance.NonMemberGetsNothing | helios_permissions/permission_client.go:186-205 | Whoever is never an active member with permissions, and is written none, is answered with none in every run. |
| Provenance.CollisionServesAnotherPair | helios_permissions/permission_client.go:178-180 | Any two pairs with one key have a run in which one is served what was written for the other. |
| Provenance.ProvenanceIff | helios_permissions/permission_client.go:140-205 | Provenance holds over all runs on a set of pairs if and only if their keys are distinct. |
| Provenance.ColonFreeTenantsAreSafe | helios_permissions/permission_client.go:140-205 | It holds over all runs with colon-free tenants. |
| Accounting.FetchesBoundedByMissers | helios_permissions/permission_client.go:140-182 | In every reachable state the fetches ever started for a key are no more than the callers whose Get missed. |
| Accounting.FetchAccounting | helios_permissions/permission_client.go:140-182 | Without removals, over the rest of a run the fetches for a key stay within the callers that had missed when it first became present, and no caller that looks later misses. |
| Accounting.FetchesAreEpochs | helios_permissions/permission_client.go:140-160 | In every run the fetches a slot costs are exactly the joins that come first, or first after a deletion, in the order of joins and deletions. So two are enough exactly when there are at most two such joins. |
| Accounting.AtMostOneFetchIff | helios_permissions/permission_client.go:140-160 | A run costs a slot at most one fetch if and only if no call joins it after an entry of it was deleted. |
| Accounting.OneFetchServesAllIff | helios_permissions/permission_client.go:140-160 | For a slot some caller joined, that caller's fetch is the only one under the same condition and no other. |
| Accounting.CoalescingHasNoFixedBound | helios_permissions/permission_client.go:162-182 | For every n there is a run of n calls and nothing else, in which every cache command and every request succeeds, that costs one key n fetches, each with the current answer. |
| Outage.FailedFetchIsIsolated | helios_permissions/permission_client.go:140-190 | Over every continuation of a failed fetch its error is what each sharer gets, its own steps leave the cache as it is, and once deleted it is in no slot and no later caller joins it. |
| Outage.OutageIsContained | helios_permissions/permission_client.go:166-190 | From any reachable state without a live fetch, while every request fails: the cache does not change, and a call that reads it in that time gets the cached array if there is one, and only otherwise an error. |
| Fold.FirstOccurrencesIsDedup | helios_permissions/permission_client.go:274-290 | The fold's result has no duplicates, the union as its elements, and first-occurrence order. |
| Fold.DedupUnique | helios_permissions/permission_client.go:274-290 | Those three facts determine the result. |
| Fold.SelfComesFirst | helios_permissions/permission_client.go:277-282 | Duplicate-free self permissions are a prefix of the result, unchanged. |
| Fold.FoldAbsorbs | helios_permissions/permission_client.go:274-290 | Folding is idempotent, and folding an earlier fold with more is folding it all at once. |
| Fold.FoldSelfPermissions | helios_permissions/permission_client.go:274-290 | The map-and-append loops compute exactly that list, in a new array. |
| RolePermissions.EveryRoleHasIff | helios_permissions/role_permissions.go:503-513 | The early-leaving scan over the roles holds if and only if every role has the permission. |
| InFlight.InFlightTable.Enter | helios_permissions/permission_client.go:141-149 | The locked lookup hands out the registered entry, or registers a new open one and says so. |
| InFlight.JoinOnHeap | helios_permissions/permission_client.go:140-150 | On the heap the first locked section follows the Join step: the object handed out is the one of the entry the caller waits on. |
| InFlight.CloseOnHeap | helios_permissions/permission_client.go:151-153 | Publishing follows the Close step and the object carries the fetch's answer. |
| InFlight.DeleteOnHeap | helios_permissions/permission_client.go:154-156 | The second locked section follows the Delete step. |
| InFlight.WakeOnHeap | helios_permissions/permission_client.go:144-159 | Waking follows the Wake step: the sleeper reads the entry's own fields, and they are the answer it is served. |
| SharedSlice.Gotten | helios_permissions/permission_client.go:140-182 | What a coalesced call folds is the entry's own result; what a hit folds is the cached array. |
| SharedSlice.ActShared | helios_permissions/permission_client.go:140-290 | One step of any client, one fold for GetUserPermissions or Explain, or one write into a slice handed out, on the heap, is the same step on values that share nothing; no slice handed out is an entry's result or SELF_PERMISSIONS. |
| SharedSlice.DriveShared | helios_permissions/permission_client.go:140-290 | So it is over every sequence of them, with any number of coalesced callers. |
| SharedSlice.SharersKeepTheirAnswer | helios_permissions/permission_client.go:140-290 | After any of it, the entry of every served caller still carries that caller's answer. |
| PermissionClient.FacadeAgrees | helios_permissions/permission_client.go:207-290 | Over valid tables and one successful resolution: Explain's Allowed is CallerHasPermission; that holds exactly for what GetUserPermissions lists or every role has; GetUserPermissions is the self permissions, first, and the resolution's; for non-universal permissions Allowed is membership in Explain's Permissions, which are the same list. A universal permission is granted with the self permissions alone, also on a failed resolution, where everything else reports the error. |
| PermissionClient.WithoutListNothingIsGranted | helios_permissions/permission_client.go:191-200 | On an empty entry, an inactive member, no member or an active one without a list is granted nothing that is not universal, and an empty array is cached. |
| PermissionClient.ListIsGranted | helios_permissions/permission_client.go:197-224 | An active member is granted what the list says, and the list is cached. |
| PermissionClient.Client.FetchAndPopulate | helios_permissions/permission_client.go:186-205 | An error leaves the cache as it is. Otherwise the list of an active member, or an empty array, is returned, and a free key of the cache gets a copy of it. |
| PermissionClient.Client.GetOrStart | helios_permissions/permission_client.go:140-160 | With no other call under way: the fetch's outcome is returned and the table is empty again. |
| PermissionClient.Client.FetchAndCache | helios_permissions/permission_client.go:166-182 | A hit is returned without asking; a miss resolves to Helios's outcome, and only an answered miss leaves an entry. |
| PermissionClient.Client.CallerHasPermission | helios_permissions/permission_client.go:207-225 | The loop decides membership in the resolution; a universal permission leaves cache and in-flight table untouched. |
| PermissionClient.Client.GetUserPermissions | helios_permissions/permission_client.go:227-235 | The fold of the resolution, in a new array that neither the cache nor SELF_PERMISSIONS shares. |
| PermissionClient.Client.Explain | helios_permissions/permission_client.go:237-266 | The verdict, its reason and the full list, in a new array; a universal permission leaves cache and in-flight table untouched. |
| Sequential.LoneCallResolves | helios_permissions/permission_client.go:140-205 | A call with its slot free has a run of the transition system that returns the facade's resolution and leaves the table as it was; it leaves the facade's cache entry, or the unreadable value that was there. |
| Names.PermConstName | cmd/codegen/main.go:357-365 | Overwriting the parts one by one yields the identifier function. |
| Names.CamelIsConcat | cmd/codegen/main.go:350-365 | Splitting, capitalising and joining is one pass in which a colon vanishes and capitalises what follows. |
| Names.RoundTripIff | cmd/codegen/main.go:350-365 | A parser that splits at capitals recovers the name from its identifier if and only if every segment is non-empty, starts with a lower-case letter and has no capitals. |
| Names.ConstNameInjective | cmd/codegen/main.go:350-365 | Well-formed names have distinct identifiers. |
| Names.ConstNameCollides | cmd/codegen/main.go:350-365 | Other names need not: a well-formed and an ill-formed name with one identifier. |
| Names.ThreePartConst | cmd/codegen/main.go:347-365 | The identifier of a well-formed service, resource and action is Permission and the three with their first letters capitalised. |
| Names.RoleNameShape | cmd/codegen/main.go:338-345 | A role keeps its letters up to case; the first is capitalised and no capital is left after it. |
| Names.RoleConstsCollideIff | cmd/codegen/main.go:338-345 | Two roles have the same constant if and only if they differ at most in case. |
| Sorting.SortSorts | cmd/codegen/main.go:98 | The sorted list is in bytewise order and a rearrangement of the input. |
| Sorting.SortIsCanonical | cmd/codegen/main.go:271-272 | There is only one such list, so the output does not depend on input order. |
| Codegen.Buckets.Append | cmd/codegen/main.go:84-95 | One turn of the flattening loop puts a permission in the list of all and in the bucket of its scope, or in no bucket for an unknown scope. |
| Codegen.VocabularyMembers | cmd/codegen/main.go:82-97 | The vocabulary has exactly the permissions that the declared services list. |
| Codegen.VocabularyOrder | cmd/codegen/main.go:76-83 | It is in declared order: at every service, what the services before it list, then its own, then the rest. |
| Codegen.BucketOrder | cmd/codegen/main.go:86-95 | At every permission a tuple is that of those before it, then its name if it has the scope, then that of those after it. |
| Codegen.ConstBlockIsSorted | cmd/codegen/main.go:143-151 | The const block's values are the vocabulary's names in ascending order, each as often as declared. |
| Codegen.FillBuckets | cmd/codegen/main.go:76-97 | The nested loops leave in each bucket the vocabulary's names of that scope, in declared order. |
| Codegen.RoleBlocks | cmd/codegen/main.go:269-279 | Each role gets a block with its permissions sorted and named, in the order of the roles. |
| Codegen.Emit | cmd/codegen/main.go:68-336 | emit rejects exactly the contracts without a version or without roles, in that order, and prints the emitted-file function of every other one. |
| CodegenMeaning.ScopeTableResolves | cmd/codegen/main.go:185-202 | With distinct identifiers the printed scope table evaluates to one entry for each permission of a known scope, keys distinct. |
| CodegenMeaning.AllIdentsIff | cmd/codegen/main.go:137-151 | The declared constants are lexically identifiers if and only if roles consist of letters, digits and underscores, and permission names of these and colons. |
| CodegenMeaning.CompilesIff | cmd/codegen/main.go:102-279 | For plain text (ASCII names, header text on one line) an emitted file compiles if and only if its identifiers are lexically such, distinct and not taken by the package, and every identifier in a role block is declared. |
| CodegenAnswers.ValidContractCompiles | cmd/codegen/main.go:68-336 | Every valid contract (roles, distinct well-formed names, known scopes, role permissions in the vocabulary) gives a file that compiles, and meets what the answers below assume. |
| CodegenAnswers.LoadedLists | cmd/codegen/main.go:164-211 | The four loaded tuples are the buckets of their scopes, the loaded roles the contract's, both in declared order. |
| CodegenAnswers.ScopeLookup | cmd/codegen/main.go:185-202 | The loaded scope table is the contract's own scope assignment, restricted to known scopes. |
| ContractAnswers.ValidPermissionIff | cmd/codegen/main.go:213-218 | For tables that implement a contract, IsValidPermission is being declared by it, for all names, if and only if every declared scope is a known one. |
| CodegenAnswers.LoadedTablesImplement | cmd/codegen/main.go:132-279 | The tables that the file of every compiling contract loads to implement it: its roles, its scope for each name, its self permissions once each, its role lists. |
| CodegenAnswers.RoleTableIsSorted | cmd/codegen/main.go:269-279 | Each role's table entry is its list in ascending order, each permission as often as listed. |
| ContractAnswers.RolesAnswerIff | cmd/codegen/main.go:269-304 | For such tables, RoleHasPermission answers as the contract's role_permissions list, for all roles and names, if and only if roles list declared names only. |
| CodegenAnswers.AnswersMatchContract | cmd/codegen/main.go:213-333 | For every contract that compiles, with known scopes and role permissions in the vocabulary, the generated IsValidPermission, IsValidRole, IsSelfScope, IsPlatformGrantable, IsTenantGrantable, RoleHasPermission and IsUniversalPerm answer as the contract itself defines. |
| ContractAnswers.UnknownIsNeverUniversalIff | helios_permissions/role_permissions.go:503-513 | For tables that implement a contract, no undeclared permission is universal if and only if the contract has a role, which emit insists on. |
| ContractAnswers.ImplementingTablesAreValid | cmd/codegen/main.go:164-202 | Tables that implement a contract with a role meet what the facade's agreement needs. |
| CodegenAnswers.SampleIsValid | cmd/codegen/main.go:27-41 | Valid contracts exist. |
| CodegenAnswers.SampleAnswers | cmd/codegen/main.go:323-333 | One of them separates a universal permission from one that is not. |

## Left out

- HTTP, HMAC, headers and status codes (`helios_permissions/client.go`): a request is an oracle that answers active with an array or nil, inactive, not a member, or an error.
- The `Create` factory, option validation, pinging and closing Redis, and loggers.
- JSON itself: `Payload` keeps an array, the word null and anything else apart, and decoding what was encoded is built into it. Marshalling a slice of strings does not fail.
- The Redis server beyond atomic GET, SET, SET NX, DEL and SCAN's full-iteration guarantee. A SET or SET NX that is executed while its reply is lost is not modelled; a DEL of the scan loop with a lost reply is.
- A stale-on-error fallback: the code has none.
- Goroutine panics, context cancellation (one more fetch error) and the Go memory model: steps are atomic and lock-protected.
- The header comments and date of the emitted file, the map of scopes that `emit` fills and never reads, and `main`'s file handling.
- `ResolvePermissions` handing out the table's own slice (`HANDOFF.md:131-133`).
- Bytes outside ASCII in roles and permission names: strings are sequences of characters, capitalising changes only the letters a to z, and only ASCII identifiers are recognised.
- Clashes of a generated constant with the names of the package other than those that begin like one (`Role`, `Roles`, `RoleHasPermission`, `Permission`, `PermissionCache`): none of the others can clash.
- Slice capacity, and the logger's use of the SCAN total.
- Liveness under unfair scheduling: returns are proved for runs that the clients cannot extend or have extended often enough.
- Redis.RedisPermissionCache.Get: the server and its clock are read as one atomic command, and go-redis's rounding of a duration to milliseconds is not modelled.
- Redis.RedisPermissionCache.Set: a TTL so long that its duration overflows to a negative one is taken as no expiry; what the Redis client makes of it is not modelled.
- Redis.RedisPermissionCache.InvalidateTenant: the script of rounds ends, as Redis promises of a full iteration; an endless scan is not modelled.
- Glob.TenantPatternExactIff: assumes a key prefix without metacharacters, as the default one is; the code allows another prefix for tests only.
- Timed.StalenessBound: an InvalidateTenant counts as one removal at one time; its separate commands are the subject of TenantScan.
- Agreement.CachesAgreeIff: an InvalidateTenant is an undisturbed complete scan, which TenantScan.QuietScanIsExact and TimedCache.Perform justify.
- PermissionClient.Client.GetOrStart: this method runs one call at a time; coalesced callers on the heap are the subject of SharedSlice, over the transition system that InFlight follows.
- InFlight.CloseOnHeap: publication is one step, without the memory ordering of a channel close.
- CodegenMeaning.CompilesIff: speaks of ASCII names and of a version and services without line breaks, NUL or byte order mark; text that breaks out of the header comment and still happens to be Go is not modelled.
- CodegenAnswers.ValidContractCompiles: a valid contract has no permission of the bare name cache, whose constant would be the name of the cache interface.
