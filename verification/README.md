# Verified model of the Kubling providers

This Dafny project models the parts of the Kubling providers repository whose correctness rests on protocols,
transformations and arithmetic, and proves what they promise. Run `dafny verify dfyconfig.toml` here.

The pieces, by file:

- `CacheTypes`, `LruStore`, `Dependencies`, `CacheCore`, `ResultStreams`, `CachedConnections`: the read-through query
  cache of the SDK, as classes that change their fields in place, each proved against functions on values.
- `CacheSystem`, `CacheObligations`, `CacheFreshness`, `CacheGuarantees`, `CacheStaleness`: any number of queries,
  connections, transactions, durable branches and outside changes, interleaved region by region over the same functions,
  what holds in every run, and runs that show what does not.
- `SessionPool`, `PoolSystem`, `PoolSafety`, `PoolGuarantees`, `PoolService`, `PoolClosing`: the shared driver sessions of
  the Cassandra provider, their reference counts, the per-connection cache and the registry's lock, again as classes and
  as a step system; what no run does, and what each call gets.
- `RedisLike`, `RedisGlobs`, `RedisPrefixes`, `RedisPushdown`, `RedisFilters`, `RedisKeys`: the filters of the Redis
  provider and what they keep, the key selectors they are compiled to, LIKE patterns compiled to a regular expression and
  to a glob, and globs behind an unescaped prefix.
- `GroupedExpressions`, `ExpressionMeaning`, `Grouping`, `QueryPipeline`, `DecimalText`: the in-memory query engine, what
  its expressions and aggregates mean, and the text of its decimal results.
- `OpenApiStream`, `JsonPointers`: paging, and JSON Pointers as in sections 3 and 4 of RFC 6901.
- `LobStreams`: streaming of large objects.
- `KubernetesColumns`, `KubernetesAssignments`: columns made from the schema of a Kubernetes resource, cyclic or not,
  and the documents that assignments to them build.
- `BacnetObservations`, `BacnetRegistry`, `BacnetScopes`: which devices a refresh of a BACnet scope observes and lists, and
  which are listed over all refreshes.
- `Options`, `Texts`: an optional value; the order of texts and sorted sequences of them, splitting, joining and case.

What the model takes from outside, as parameters or as hypotheses of the step systems:

- Cache. The digest of a request is the request itself, and generations do not wrap around. Time is an arbitrary number
  passed to each operation. Transactions start only through `Begin` and `BeginBranch`: a connection whose source reports
  a transaction that it did not begin is not part of the model. One connection's calls do not overlap; a query is such a
  call until its stream is open. A mutation that is refused changed nothing. A mutation of an entity with a known key
  writes that entity only; its writes are in effect when the call returns outside a transaction. A stream opened outside
  a transaction reads committed states only, each batch from some state since it was looked up. The source tells the
  truth about what is committed: after an answer that says so, nothing is. A branch takes writes in its first prepare
  only. A branch that is prepared already is finished on a connection only while that connection's pending set is empty.
  What a query answers depends on the entities from which its own is reached in the dependency graph (needed only where
  a hit is compared with the source's present answer).
- Sessions. The factory returns a new session each time. Creating and closing a session are steps of their own; each
  region between taking and giving up a lock is one step.
- Redis. Characters are single bytes, the key column has type string, a complete scan returns the stored keys its glob
  selects, each at least once. The table prefix is put in front of globs without escaping; where the plan does so, that
  the prefix suits is a hypothesis, which can be checked beforehand and is exact for the scan of a whole table and for
  LIKE patterns.
- In-memory engine. The deterministic encoding of values is injective and shorter than 2^64 bytes. Numbers are exact,
  and decimals and big integers of rows and literals keep the text they are written as. The sort compares rows that end
  up next to each other, as every sort by comparison must; here it is by insertion.
- Decimal text. The library rounds to the nearest number of the given digits, halves away from zero.
- Kubernetes. Characters are single bytes, as far as case and blanks are concerned. A schema that is a reference has
  nothing else.
- BACnet. What the client finds and answers, the profile that is selected and the time a refresh was begun at are
  arbitrary, the time of a later refresh also earlier than that of the one before. The time 0 is no time. Which of
  several observations stands is told for clients whose sightings do not pass for configured routes.
- OpenAPI. The server's k-th answer is an arbitrary function of k; so is a LOB provider's k-th chunk.

Findings the proofs led to. A branch that is prepared again after a failed commit gets an empty record, and its later
commit then invalidates nothing (`CacheStaleness.RepeatedPrepareIsStale`, with the exact condition over runs in
`CacheGuarantees.BranchStaysOwedExactlyWhen`). Finishing a prepared branch on its connection, or forgetting a branch
that committed by itself, leaves stale results behind (`CacheStaleness`, with the exact conditions in
`CacheGuarantees.FinishingRaisesExactlyWhen` and `CacheGuarantees.ForgettingLosesExactlyWhen`). The wildcards in the
regular expression compiled from LIKE do not match a newline (`RedisLike.RegexIsLikeExactlyWhen`,
`RedisLike.WildcardsDifferExactlyWhen`). A table prefix with special characters may lose the table's own keys
(`RedisPrefixes.TableIsSelectedExactlyWhen`, `RedisPrefixes.PatternsAreCarriedExactlyWhen`). A root property of a
Kubernetes resource named like `spec` but for case is assigned at `spec` (`KubernetesAssignments.ReservedNameFails`,
with the exact condition for all columns in `KubernetesColumns.PlannedAtItsPath`).

## Model

| member | source | states |
|---|---|---|
| LruStore.EvictionIsMinimal | sdk-go/provider/cache/memory.go:83-85 | Eviction keeps the longest prefix of the recency list that fits both limits: what goes is a least recently used suffix, and no shorter one would do |
| LruStore.SetFacts | sdk-go/provider/cache/memory.go:62-86 | An accepted store puts the new entry in front of the entries under other keys, of which, in their order, the longest prefix stays that both limits allow; a refused one changes nothing. Keys stay distinct, nothing else appears, and the limits hold if the store is accepted or they held before |
| LruStore.StaysExactlyWhen | sdk-go/provider/cache/memory.go:62-86 | An entry under another key survives an accepted store if and only if it, the new entry and the other entries used more recently than it fit both limits together |
| LruStore.GetFacts | sdk-go/provider/cache/memory.go:42-60 | A lookup serves a result if and only if an entry under the key has it and has not expired; an entry leaves the list only if it is under that key and expired, the served one comes to the front, and the others keep their order |
| LruStore.EveryRunIsLru | sdk-go/provider/cache/memory.go:42-97 | After every run of lookups and stores the list is ordered by last use, fits both limits, and holds under each key its latest accepted store with that store's expiry |
| LruStore.ServedIsLatestAndLive | sdk-go/provider/cache/memory.go:42-60 | After every run a served result is the latest accepted store under its key, and not expired |
| LruStore.ServedExactlyWhen | sdk-go/provider/cache/memory.go:42-86 | After every run a lookup serves a result if and only if it is that of the latest accepted store under the key, no lookup since has found it expired, every accepted store under another key since has left it room, and it has not expired |
| LruStore.MemoryStore.Lookup | sdk-go/provider/cache/memory.go:42-60 | The map, recency list and byte counter, changed in place, do what the specification on lists says, so that LruStore.GetFacts holds of them; the map and the list stay in bijection and the counter stays the sum of the sizes |
| LruStore.MemoryStore.Store | sdk-go/provider/cache/memory.go:62-86 | The same for a store, with its eviction loop, which terminates |
| LruStore.MemoryStore.EvictOverflow | sdk-go/provider/cache/memory.go:83-85 | The eviction loop pops from the back until both limits hold |
| LruStore.MemoryStore.Remove | sdk-go/provider/cache/memory.go:88-97 | Removing an element takes it out of the map, the list and the byte count |
| Dependencies.ExpandEntities | sdk-go/provider/cache/state.go:102-123 | On every dependency graph, cyclic or not, the expansion ends, with exactly the non-empty entities reachable from the input, each once |
| CacheCore.OnlyCurrentResultsEnter | sdk-go/provider/cache/state.go:70-87 | Storing adds at most the captured result, only under the generation that is current, and does add it, in front and with its expiry, when it is current and small enough; for a generation that is not current or a result that is too large, nothing changes |
| CacheCore.StoringSparesExactlyWhen | sdk-go/provider/cache/state.go:70-87 | A result under another key stays in the cache if and only if the captured one is not stored or leaves it room |
| CacheCore.LookupServesExactlyWhen | sdk-go/provider/cache/state.go:51-68 | A lookup captures the current generation, and serves a result if and only if an entry of the entity, the request and that generation has it and has not expired; it raises and records nothing |
| CacheCore.RetainCoversExactlyWhen | sdk-go/provider/cache/state.go:131-162 | After retaining, a branch's record covers an entity if and only if the obligation does or the record did before; no other record changes |
| CacheCore.DischargeRaises | sdk-go/provider/cache/state.go:89-129 | Discharging an obligation raises the generation of a result, by exactly one, if and only if the obligation covers something that affects it; it never lowers one |
| CacheCore.ResolveRaisesExactlyWhen | sdk-go/provider/cache/state.go:164-184 | Resolving with invalidation raises the generation of a result if and only if the branch has no record, or has one that covers something that affects the result |
| CacheCore.RepeatedPrepareLosesInvalidation | sdk-go/provider/cache/state.go:131-184 | Concrete failing history: prepare, failed commit, repeated prepare, successful commit; the last one invalidates nothing although the branch wrote the entity |
| CacheCore.BranchKeysIdentifyBranches | sdk-go/provider/transaction_recovery.go:489-519 | The keys of two branches that a server lets through, which are those of its own resource manager, are equal if and only if the branches are |
| CacheCore.BranchKeysCollideExactlyWhen | sdk-go/provider/cache/state.go:194-196 | Two resource managers have a branch key in common if and only if one, ended by the zero byte, begins the other ended by it; the server's guard rules this out |
| CacheCore.CacheState.LookupQuery | sdk-go/provider/cache/state.go:51-68 | The lookup region: the captured generation, the result served and the new state |
| CacheCore.CacheState.StoreCurrent | sdk-go/provider/cache/state.go:70-87 | The conditional store region |
| CacheCore.CacheState.Invalidate | sdk-go/provider/cache/state.go:89-100 | Raises exactly the generations of everything the entities affect, each once |
| CacheCore.CacheState.InvalidateEverything | sdk-go/provider/cache/state.go:125-129 | Raises the global generation |
| CacheCore.CacheState.RetainBranch | sdk-go/provider/cache/state.go:131-162 | Merges an obligation into a branch's record |
| CacheCore.CacheState.ResolveBranch | sdk-go/provider/cache/state.go:164-184 | Takes the record out and discharges it, or everything when there was none |
| CacheCore.CacheState.DiscardBranch | sdk-go/provider/cache/state.go:186-192 | Drops the record |
| ResultStreams.RecordingIsFaithful | sdk-go/provider/cache/query.go:102-205 | After any sequence of replies of the source, what is recorded is exactly the batches delivered, without LOB references, within the size limit, and complete only at a clean end |
| ResultStreams.PublishedIsWholeStream | sdk-go/provider/cache/query.go:222-245 | Whatever closing the stream publishes is the whole stream: every batch in order up to a clean end |
| ResultStreams.PublishedExactlyWhen | sdk-go/provider/cache/query.go:102-245 | Over every sequence of replies, closing publishes a result if and only if the source closed without error and its replies were deliverable batches up to a clean end, which the result holds, without LOB references and within the size limit; a closed stream records nothing |
| ResultStreams.RecordingStream.Next | sdk-go/provider/cache/query.go:102-151 | Passes the source's reply on and records it |
| ResultStreams.RecordingStream.CaptureOutcome | sdk-go/provider/cache/query.go:165-199 | The outcome at the end of the stream, and when it stops the recording |
| ResultStreams.RecordingStream.Close | sdk-go/provider/cache/query.go:222-245 | Publishes at most once, and only a complete cacheable recording of a source that closed without error |
| ResultStreams.ReplayStream.Next | sdk-go/provider/cache/query.go:265-283 | Replays the cached batches in order, each once |
| ResultStreams.ReplayStream.Close | sdk-go/provider/cache/query.go:285-291 | Nothing is replayed after closing |
| CachedConnections.CachedConnection.Query | sdk-go/provider/cache/query.go:27-73 | Inside a transaction, and for an entity without a key, the cache is neither read nor written; otherwise a query replays the hit or records under the captured generation |
| CachedConnections.CachedConnection.Mutate | sdk-go/provider/cache/mutation.go:9-52 | Only an accepted mutation is recorded |
| CachedConnections.CachedConnection.RecordMutation | sdk-go/provider/cache/mutation.go:71-94 | A mutation is added to the pending set inside a transaction and invalidates at once outside |
| CachedConnections.MutationRaisesExactlyWhen | sdk-go/provider/cache/mutation.go:71-94 | A mutation raises the generation of a result if and only if it is made outside a transaction and affects it, or names no entity; inside one it is what the pending set covers in addition |
| CachedConnections.CachedConnection.Begin | sdk-go/provider/cache/transaction.go:5-20 | A transaction starts without obligations; beginning inside one keeps them |
| CachedConnections.CachedConnection.Commit | sdk-go/provider/cache/transaction.go:22-36 | Discharges the obligations even when the commit fails, and ends the transaction when it succeeds |
| CachedConnections.CachedConnection.Rollback | sdk-go/provider/cache/transaction.go:38-51 | Discharges the obligations only when the rollback fails |
| CachedConnections.CachedConnection.InTransaction | sdk-go/provider/cache/transaction.go:53-73 | A transaction that the source reports gone discharges its obligations |
| CachedConnections.CachedConnection.Close | sdk-go/provider/cache/transaction.go:75-87 | Closing inside a transaction discharges its obligations |
| CachedConnections.SettlingRaisesExactlyWhen | sdk-go/provider/cache/transaction.go:22-103 | An answer that ends or questions a transaction raises the generation of a result if and only if there was one, the answer does not say that nothing was committed, and a pending write affects the result; the transaction then is over unless the answer is a failure |
| CachedConnections.CachedConnection.PrepareBranch | sdk-go/provider/cache/transaction_recovery.go:81-115 | A successful prepare hands the obligations to the branch's record; a failed or undetermined one discharges them; a read-only one drops them |
| CachedConnections.CachedConnection.FinishBranch | sdk-go/provider/cache/transaction_recovery.go:117-167 | Commit and rollback of a branch on its own connection |
| CachedConnections.CachedConnection.InvalidatePending | sdk-go/provider/cache/transaction.go:89-103 | Discharges the pending set |
| CachedConnections.CachedRecoveryManager.FinishBranch | sdk-go/provider/cache/transaction_recovery.go:17-43 | Resolves the branch by the source's answer |
| CachedConnections.ResolutionRaisesExactlyWhen | sdk-go/provider/cache/transaction_recovery.go:17-43 | A resolution raises the generation of a result if and only if the source's answer does not say that nothing was committed and the branch has no record, or has one that covers something that affects the result; the record is gone in any case, and no other |
| CachedConnections.CachedRecoveryManager.ForgetBranch | sdk-go/provider/cache/transaction_recovery.go:45-55 | Forgetting drops the record |
| CachedConnections.Controller.Invalidate | sdk-go/provider/cache/cache.go:181-204 | An invalidation on request is refused as a whole or covers every named entity |
| CacheObligations.StepOwes | sdk-go/provider/cache/transaction_recovery.go:57-167 | Every step of every interleaving keeps this: each write that may be committed and is not invalidated is owed by its connection's pending set, by its branch's record, by the resolving call that popped the record, or by the rule for branches without a record; only writes of a branch that a repeated prepare lost are not |
| CacheObligations.PrepareKeepsCoverExactlyWhen | sdk-go/provider/cache/state.go:131-162 | Ending a prepare leaves the branch with a record that covers all it may have written if and only if it is not a repeated prepare whose branch has no record any more but still has writes that the connection's pending set leaves out |
| CacheFreshness.StepProgress | sdk-go/provider/cache/state.go:89-184 | In every step generations only rise, and a changed entity stops awaiting invalidation only when the generations of everything it affects have risen |
| CacheFreshness.StepFresh | sdk-go/provider/cache/query.go:27-245 | Every step keeps what is cached, and what is on its way into the cache, read from the source since its generation was captured |
| CacheGuarantees.HitReplaysReads | sdk-go/provider/cache/query.go:27-66 | In every reachable state a hit replays exactly a sequence of batches read from the source, in order and to the end, in states from some point on; nothing it depends on has changed since that point except what awaits invalidation |
| CacheGuarantees.HitReadsAfterInvalidation | sdk-go/provider/cache/state.go:51-100 | Those reads began after every completed invalidation of the entity, of anything it depends on, or of everything |
| CacheGuarantees.HitEqualsSource | sdk-go/provider/cache/query.go:27-66 | In every reachable state, when nothing a query depends on awaits invalidation, a hit is exactly what the source would answer now |
| CacheGuarantees.QuietHitEqualsSource | sdk-go/provider/cache/transaction.go:5-103 | When every call has returned, every transaction is over and no branch or outside change is outstanding, every hit is exactly what the source would answer now |
| CacheGuarantees.CleanedMeansInvalidated | sdk-go/provider/cache/state.go:89-129 | Over whole runs: a write that awaited invalidation and no longer does has raised the generation of everything it affects in between |
| CacheGuarantees.ReturnLeavesNothingDirty | sdk-go/provider/cache/transaction_recovery.go:17-167 | When a mutation outside a transaction, a commit, a rollback, a close, an unsuccessful prepare or a branch resolution returns, all it answers for is invalidated, including what depends on it; not so when a repeated prepare has lost the resolved branch |
| CacheGuarantees.EveryWriteIsOwed | sdk-go/provider/cache/transaction_recovery.go:57-167 | In every reachable state an idle connection's writes are in its pending set, outside a transaction it has none, and, for a branch that no repeated prepare lost, resolving it would raise everything it has written |
| CacheGuarantees.BranchStaysOwedExactlyWhen | sdk-go/provider/cache/transaction_recovery.go:57-167 | Over whole runs: the record of a branch covers what the branch may have written whenever there is one, if and only if no repeated prepare of the branch ends with the record gone while the branch still has writes that the preparing connection leaves out |
| CacheGuarantees.RecordedOutsideTransactions | sdk-go/provider/cache/query.go:27-73 | In every reachable state a query between its check for a transaction and the opening of its stream is on a connection outside any, and every stream that may be recorded was opened outside a transaction |
| CacheGuarantees.OnlyOutsideReadsArePublished | sdk-go/provider/cache/query.go:222-245 | In every run a result gets on its way into the cache only by the closing of a stream that was opened outside a transaction |
| CacheGuarantees.OnlyPublishedResultsEnter | sdk-go/provider/cache/state.go:70-87 | In every run an entry that a step adds to the cache is a result on its way there, under the generation of that moment |
| CacheGuarantees.FinishingRaisesExactlyWhen | sdk-go/provider/cache/transaction_recovery.go:117-167 | In every reachable state, finishing a branch on a connection raises everything the branch may have written if and only if the answer makes the connection discharge and the branch was not prepared, or there was nothing to raise |
| CacheStaleness.FinishingPreparedBranchIsStale | sdk-go/provider/transaction_recovery.go:153-178 | A run that fails: a prepared branch is committed in one phase on its connection; all calls have returned, and a hit differs from what the source would answer |
| CacheGuarantees.ForgettingLosesExactlyWhen | sdk-go/provider/cache/transaction_recovery.go:45-55 | In every reachable state, forgetting a branch leaves what its record secured secured if and only if there was no record or it covers nothing of the branch that is in effect, which for a branch that no repeated prepare lost means that nothing is; and it raises what is in effect if and only if there is nothing to raise |
| CacheGuarantees.StaysDirtyUnresolved | sdk-go/provider/cache/transaction_recovery.go:17-55 | Over whole runs: while no resolution of a branch is under way, what the branch has put into effect goes on awaiting invalidation |
| CacheStaleness.ForgettingCommittedBranchIsStale | sdk-go/provider/cache/transaction_recovery.go:45-55 | A run that fails: a branch that committed by itself is forgotten; all calls have returned, nothing is recorded, and a hit differs from what the source would answer |
| CacheStaleness.RepeatedPrepareIsStale | sdk-go/provider/cache/state.go:131-184 | A run that fails: failed commit, repeated prepare, successful commit; all calls have returned, nothing is recorded, and a hit differs from what the source would answer |
| SessionPool.Provider.EnterAcquire | providers/cassandra/provider.go:186-218 | The top of the acquire loop: share a ready session, wait for one being created, or add an entry and create |
| SessionPool.Provider.FinishCreate | providers/cassandra/provider.go:220-240 | The creating call's return: the entry fails and leaves the pool, or is ready with one reference |
| SessionPool.Provider.RecheckEntry | providers/cassandra/provider.go:202-215 | A woken call fails with its entry, tries again when the entry was replaced, or joins it |
| SessionPool.Provider.ReleaseSession | providers/cassandra/provider.go:246-270 | Giving a reference back, and when the session must be closed |
| SessionPool.Connection.Check | providers/cassandra/connection.go:86-96 | The first look of the double check |
| SessionPool.Connection.Keep | providers/cassandra/connection.go:103-116 | The second look: closed meanwhile, superseded, or stored |
| SessionPool.Connection.Close | providers/cassandra/connection.go:21-37 | Hands over the cached sessions once |
| SessionPool.ManagedConnection.Close | sdk-go/provider/registry.go:143-154 | A connection is closed once |
| SessionPool.ConnectionRegistry.Add | sdk-go/provider/registry.go:30-55 | A taken identifier is never overwritten |
| SessionPool.ConnectionRegistry.Find | sdk-go/provider/registry.go:57-67 | An operation finds only registered connections |
| SessionPool.ConnectionRegistry.Remove | sdk-go/provider/registry.go:86-107 | Removing comes before closing |
| SessionPool.ConnectionRegistry.RemoveAll | sdk-go/provider/registry.go:109-123 | Every connection is taken out for closing |
| PoolSafety.StepOk | providers/cassandra/provider.go:181-270 | Every step, whoever takes it, keeps: one entry per created session, reference counts equal to holders, one creating call per entry under creation, and each session without references being closed by exactly one call or closed once |
| PoolSafety.ReleaseOk | providers/cassandra/provider.go:246-270 | A call that gives a session back holds the one the pool shares, so the give-back is never lost, and the last one makes its caller the only closer |
| PoolSafety.KeepOk | providers/cassandra/connection.go:98-117 | Whatever happened between the two looks, the acquired reference ends in the cache or is given back |
| PoolService.WakingCallGets | providers/cassandra/provider.go:202-218 | In every run a call woken for an entry goes on without a session if and only if the creating call returned none; if that created one, the woken call holds it, counted once more, when it is still the namespace's, and otherwise starts over, changing nothing |
| PoolService.EnteringCallGets | providers/cassandra/provider.go:186-218 | In every run a call that asks the pool holds the namespace's session, counted once more, when there is one, waits when another call is creating it, and otherwise becomes the only one to create it, for an entry of its own |
| PoolService.CreatingCallGets | providers/cassandra/provider.go:220-243 | In every run a created session is held by the call that created it, with one reference, and is the one its namespace shares; after a failure the namespace is free again and the call goes on without one |
| PoolService.FailedExactlyWhen | providers/cassandra/provider.go:220-240 | In every run an entry has failed if and only if its creating call returned without a session |
| PoolService.ReleasingCallGets | providers/cassandra/provider.go:249-270 | In every run giving a session back leaves it with the others that hold it; the last one frees the namespace and goes on to close it. Either goes on with the locks it has |
| PoolService.ClosingCallGoesOn | providers/cassandra/provider.go:264-270 | Closing a session closes just that one, and the call goes on as after giving one back |
| PoolService.OperationGoesOn | sdk-go/provider/registry.go:57-84 | An operation that is done with its session, or gives up waiting for one, goes on under its lock until it ends; a metadata read gives its own session back |
| PoolService.StartingCallUses | providers/cassandra/connection.go:81-96 | An operation uses the session that its open connection caches and asks the pool if and only if the connection is open and caches none |
| PoolService.KeepingCallUses | providers/cassandra/connection.go:98-117 | In every run an operation that got a session uses, if and only if its connection is open, the one the connection then caches, which is the one the pool shares; its own it gives back if and only if the connection is closed or had cached one meanwhile |
| PoolGuarantees.ReferencesAreHolders | providers/cassandra/provider.go:181-270 | In every run the reference count of an entry in the pool is the number of calls and connection caches that hold its session, and at least one does |
| PoolGuarantees.HeldIsOpen | providers/cassandra/provider.go:246-270 | In every run a held session has not been closed and is not being closed |
| PoolGuarantees.NeverClosedTwice | providers/cassandra/provider.go:246-270 | In every run no session is closed twice, or without having been created |
| PoolGuarantees.StepLocks | sdk-go/provider/registry.go:57-154 | Every step keeps operations and closing calls apart, connection by connection |
| PoolGuarantees.UsedIsOpen | sdk-go/provider/registry.go:57-154 | With the registry's lock, no operation ever uses a session that has been closed or is being closed |
| PoolGuarantees.WithoutLockClosedIsUsed | providers/cassandra/connection.go:21-37 | Without the lock there is a run in which an operation still uses a closed session |
| PoolGuarantees.AllClosedIsEmpty | providers/cassandra/connection.go:21-37 | When every connection is closed and every call has returned, the pool is empty and every created session has been closed |
| PoolClosing.AllReturnedIsClosed | sdk-go/provider/registry.go:86-143 | In every run, once all calls have returned, every connection ever opened is still registered or has been closed |
| PoolClosing.EmptiedRegistryClosesAll | sdk-go/provider/registry.go:109-143 | So with an empty registry and all calls returned, the pool is empty, no connection caches anything and every session ever created has been closed |
| PoolClosing.OperationGoesAhead | sdk-go/provider/registry.go:57-84 | In every run an operation that gets its connection's lock goes ahead unless the connection refuses operations, which it does only once it is closed or about to be |
| RedisLike.LikeToRedisGlob | providers/redis/keys.go:191-227 | The loop emits the glob of the pattern's pieces, and fails exactly for a bad escape argument or a pattern that ends with its escape |
| RedisLike.CompileLikePattern | providers/redis/expression.go:202-237 | The loop emits the regular expression of the same pieces, and fails for exactly the same patterns |
| RedisLike.RegexRoundTrip | providers/redis/expression.go:219-236 | Quoting is exact: the emitted expression denotes the pattern's pieces and nothing else |
| RedisLike.PiecesMean | providers/redis/expression.go:202-237 | What the pieces of a pattern are: an escape makes the next character literal, % is any run and _ any one character, every other stands for itself, and patterns put together have their pieces put together |
| RedisLike.AcceptsMean | providers/redis/expression.go:202-237 | What pieces accept: a literal that character, _ any one, % any text, and pieces put together the texts that split into a part for each |
| RedisLike.GlobIsLike | providers/redis/keys.go:202-226 | The emitted glob selects exactly the texts the LIKE pattern matches |
| RedisLike.RegexIsLikeExactlyWhen | providers/redis/expression.go:219-237 | For a text, the compiled expression means what every LIKE pattern means if and only if the text holds no newline |
| RedisLike.WildcardsDifferExactlyWhen | providers/redis/expression.go:219-237 | For a pattern, the compiled expression means what the pattern means on every text if and only if the pattern has no wildcard |
| RedisLike.RegexIsLike | providers/redis/expression.go:219-237 | The expression never accepts more than the pattern does |
| RedisPrefixes.TableIsSelectedExactlyWhen | providers/redis/keys.go:30 | The glob of the whole table selects every key that starts with the prefix if and only if it selects the bare prefix and, read token by token, has a star after which every token takes any character |
| RedisPrefixes.PatternsAreCarriedExactlyWhen | providers/redis/keys.go:175 | Behind a prefix every LIKE pattern's glob still selects what the pattern matches if and only if the prefix leaves no class open and no escape pending and, as a glob, selects itself, or it suits the scan of the whole table and leaves open a class that holds every character, whatever follows it |
| RedisGlobs.GlobIsTokens | providers/redis/keys.go:30 | A glob means what its tokens mean, for classes, ranges and escapes of any nesting |
| RedisPrefixes.LiteralPrefixIsExact | providers/redis/keys.go:175 | A prefix without special characters selects exactly the keys that start with it |
| RedisPrefixes.UnplainPrefixesLoseKeys | providers/redis/keys.go:30 | Concrete prefixes, one with a class and one with an escape, that lose the table's own keys |
| RedisPushdown.CoveredExactlyWhenSelecting | providers/redis/keys.go:84-128 | A plan covers its filter if and only if it has selectors |
| RedisPushdown.PushdownCovers | providers/redis/keys.go:84-176 | Through any nesting of AND and OR, a covering plan selects the key of every row the filter keeps; the prefix matters only where the plan puts it in front of a glob |
| RedisFilters.OperandsKeep | providers/redis/expression.go:20-72 | A literal is its value and a field that of the row's column; as a filter a truth value decides, a null keeps nothing, anything else fails, and no filter keeps every row |
| RedisFilters.ComparisonKeeps | providers/redis/expression.go:74-111 | A comparison keeps a row if and only if its operands, of one kind, stand in the relation of the operator, by size of numbers, by texts and bytes in order, by false before true; a null on either side keeps nothing; different kinds, no operator or a failing operand fail |
| Texts.TextLessExactlyWhen | providers/redis/expression.go:239-273 | The order of texts in every comparison: one is below another if and only if it begins it, or has the lesser character where the two first differ |
| RedisFilters.NullTestKeeps | providers/redis/expression.go:145-162 | IS NULL keeps a row if and only if the operand is null, IS NOT NULL if and only if it is not |
| RedisFilters.PatternKeeps | providers/redis/expression.go:164-200 | LIKE keeps a row if and only if the text matches the compiled pattern, NOT LIKE if and only if it does not, and neither keeps a null; anything but texts fails, as does a pattern that does not compile |
| RedisFilters.AndKeeps | providers/redis/expression.go:113-143 | AND keeps a row if and only if every operand does, and fails if and only if the first operand that does not keep it fails |
| RedisFilters.OrKeeps | providers/redis/expression.go:113-143 | OR drops a row if and only if every operand does, and fails if and only if the first operand that does not drop it fails |
| RedisFilters.OtherLogicalFails | providers/redis/expression.go:113-143 | Fewer than two operands, and operators other than AND and OR, fail |
| RedisFilters.FieldsIgnoreCase | providers/redis/expression.go:20-26 | A field is found by its name in any case and has the row's value |
| Texts.EqualFoldExactlyWhen | providers/redis/keys.go:130-176 | Names are equal in any case if and only if they are as long, with the same letter at each place but for its case |
| RedisFilters.RefusedExactlyWhen | providers/redis/keys.go:84-176 | A filter cannot be planned if and only if it compares the key column with what cannot be a key or has a malformed logical operator, in an OR only as far as the operands before restrict the key column; a plan covers its filter if and only if the filter restricts the key column |
| RedisFilters.LeafPlans | providers/redis/keys.go:130-176 | The key column alone, equal to a literal, selects just the key of that text behind the prefix; matched with a pattern, the keys of its glob behind the prefix |
| RedisFilters.JunctionPlans | providers/redis/keys.go:84-128 | AND, and OR where it is covered, select a key if and only if one of their operands does |
| RedisKeys.RowMeans | providers/redis/query.go:99-137 | A hash that can be decoded is read as the row whose key column is what follows the prefix in its key and whose other fields are those of the hash |
| RedisKeys.ResolveKeys | providers/redis/keys.go:20-82 | The keys to read are the table's hashes that the plan selects, sorted, each once; a query is refused if and only if its filter is one that cannot be planned, by RedisFilters.RefusedExactlyWhen, or, planned, if and only if at some scan that finds a key the keys collected so far exceed the limit |
| RedisKeys.WholeTableIsSelectedExactlyWhen | providers/redis/keys.go:28-31 | The scan of a whole table selects all keys of the table, whatever they are, if and only if the prefix suits it |
| RedisKeys.PlainPrefixSuitsPlans | providers/redis/keys.go:20-82 | A prefix without an opening bracket and a backslash suits every plan, so that RedisKeys.PushdownEqualsFullScan needs no hypothesis on it |
| RedisKeys.PushdownEqualsFullScan | providers/redis/query.go:50-75 | Pushdown loses nothing: the rows read are exactly those of the whole table that the filter keeps, and whenever a full scan would succeed the rows are the same in the same order |
| GroupedExpressions.AnyRepresentative | providers/inmemory/aggregate.go:265-344 | An expression that passes the check has the same value, or fails for the same reason, whichever row of the group represents it |
| GroupedExpressions.EmptyGroupNeedsNoRow | providers/inmemory/expression.go:24-60 | Without GROUP BY no expression that passes the check needs a row |
| GroupedExpressions.RowExpression | providers/inmemory/aggregate.go:51-83 | Without aggregates an expression depends on the representative row alone |
| GroupedExpressions.ArgumentsUseAnyField | providers/inmemory/aggregate.go:283-294 | An aggregate's argument may use any field if and only if it contains no aggregate |
| ExpressionMeaning.OperandsMean | providers/inmemory/expression.go:36-86 | A literal is its value and a field that of the row's column; where a truth value is asked for, a null is false; expressions without a kind, patterns, function calls, aggregates outside a group and those with the wrong arguments fail |
| ExpressionMeaning.ValidGroupedExactlyWhen | providers/inmemory/aggregate.go:265-344 | An expression is accepted in a grouped query if and only if nothing in it offends: no field outside an aggregate, no aggregate inside another and no expression without a kind is reached in it past no group-by expression |
| ExpressionMeaning.ComparisonMeans | providers/inmemory/expression.go:113-160 | A comparison of two numbers, texts or truth values is whether they stand in the relation of the operator; with a null it is false; anything else fails |
| ExpressionMeaning.JunctionMeans | providers/inmemory/expression.go:162-219 | AND is true if and only if every operand is, OR false if and only if every operand is, and each fails if and only if the first operand that does not pass fails |
| ExpressionMeaning.LogicMeans | providers/inmemory/expression.go:162-262 | NOT turns its one operand round, AND and OR take two operands or more, and IS [NOT] NULL tells nulls; all else fails |
| ExpressionMeaning.FieldsIgnoreCase | providers/inmemory/expression.go:36-86 | A field is found by its name in any case and has the row's value |
| ExpressionMeaning.ArgumentsMean | providers/inmemory/aggregate.go:435-456 | An aggregate is over each value as often as a row of the group has it, once with DISTINCT, never over a null; it fails on its argument if and only if the argument fails on some row |
| ExpressionMeaning.BestMeans | providers/inmemory/aggregate.go:464-483 | MIN and MAX find a value if and only if there is only one or all compare: one that no other is below or above, and the first of its equals |
| ExpressionMeaning.TotalMeans | providers/inmemory/aggregate.go:484-494 | A total is found if and only if all values are numbers: nothing of no values, a single number itself, and of values put together the totals added |
| ExpressionMeaning.AggregateMeans | providers/inmemory/aggregate.go:414-502 | COUNT(*) is the number of rows; COUNT the number of the values; MIN and MAX the least and greatest; SUM their total; AVG what times their number is the total; the last four null of no values, and all as a value of the declared type |
| ExpressionMeaning.NumberResultMeans | providers/inmemory/aggregate.go:558-617 | A number can be a result if and only if the declared type holds it: a BIGDECIMAL any, the integer types whole numbers within the bounds of 8, 16, 32 or 64 bits or, for BIGINTEGER, without any |
| ExpressionMeaning.CoercedResultMeans | providers/inmemory/aggregate.go:504-527 | A least or greatest value can be the result if and only if it is of the declared type, or is a number that type holds |
| Grouping.KeyInjective | providers/inmemory/aggregate.go:387-401 | The length-prefixed keys are equal only if the values are equal, one by one |
| Grouping.KeyOrder | providers/inmemory/aggregate.go:380-401 | Keys, and so groups, are in the order of the first values that differ, of which the one with the shorter encoding comes first, or of two as long the one whose encoding is below |
| Grouping.AggregateValuesKey | providers/inmemory/aggregate.go:387-401 | The loop builds the key |
| Grouping.GroupAggregateRows | providers/inmemory/aggregate.go:346-385 | Grouping fails exactly when some row has no key, and otherwise yields groups in key order, each with exactly the rows of its key in their order |
| Grouping.GroupsPartition | providers/inmemory/aggregate.go:346-385 | The groups hold every row exactly once; without GROUP BY there is exactly one group, even of no rows |
| Grouping.TogetherExactlyWhenSame | providers/inmemory/aggregate.go:346-401 | Two rows are in one group if and only if they agree on every group-by expression |
| Grouping.GroupsHaveNoFavourite | providers/inmemory/aggregate.go:346-421 | In the groups that grouping makes, any row of a group could represent it |
| QueryPipeline.BeforeIsStrictOrder | providers/inmemory/query.go:341-377 | On order values that are null or of one comparable kind, with distinct keys, the comparator never fails and is a strict total order |
| QueryPipeline.BeforeIsTransitive | providers/inmemory/query.go:341-427 | On any order values, two comparisons in a row that succeed make one that succeeds |
| QueryPipeline.BeforeExactlyWhen | providers/inmemory/query.go:341-427 | One row comes before another if and only if, at the first column or else the key on which the two do not tie, it has the value that the column puts first, with nulls where it asks for them; the comparison fails if and only if the values at that column do not compare |
| QueryPipeline.OrderedCompare | providers/inmemory/query.go:341-427 | Rows whose order values are, column by column, null or of one comparable kind all compare, so that sorting them does not fail |
| QueryPipeline.SortPlannedRows | providers/inmemory/query.go:341-377 | Sorting returns the same rows in strict order, or fails, and fails if and only if some two of the rows do not compare |
| QueryPipeline.SortingIsUnique | providers/inmemory/query.go:341-377 | There is only one sorted arrangement of the same rows |
| QueryPipeline.FirstColumnRuns | providers/inmemory/query.go:379-427 | The first ORDER BY column runs in its direction, with nulls at the end it asks for |
| QueryPipeline.ContributesExactlyWhen | providers/inmemory/query.go:317-339 | A row is kept if and only if the filter is true of it, or absent; it cannot be filtered if and only if the filter is neither null nor a truth value of it; its order values are the values of the ORDER BY expressions on it |
| QueryPipeline.Query | providers/inmemory/query.go:72-127 | A query is answered unless some row cannot be filtered or ordered or two rows do not compare; then its rows are those of a sorting of what the filter keeps, from the offset on, as many as there are and the limit allows, each at its place |
| QueryPipeline.AnswerIsDetermined | providers/inmemory/model.go:316-331 | The answer does not depend on the order in which the store lists its rows |
| QueryPipeline.AnswerableIsDetermined | providers/inmemory/model.go:316-331 | Nor does whether there is one |
| QueryPipeline.ResultStream.Next | providers/inmemory/result_stream.go:32-61 | The batches concatenate to the rows; none is empty and all but the last are full |
| OpenApiStream.ListingIsBounded | providers/openapi/query.go:262-353 | A listing never fetches more pages than the cap, and by cursor never sends the same request twice |
| OpenApiStream.NextPageFollows | providers/openapi/query.go:293-315 | By offset or page number the next request starts where the last page ended, and full pages decide whether there is one |
| OpenApiStream.CursorPageFollows | providers/openapi/query.go:293-366 | By cursor, told from the reply alone: the page is the last if and only if the more-flag is configured and false, or no flag is and there is no next cursor; it has a successor if and only if the reply names a new cursor and the flag, if configured, is true, and then the next request is for exactly that cursor; in each other case which error it is |
| OpenApiStream.FetchFailsExactlyWhen | providers/openapi/query.go:262-353 | A fetch fails for the page cap if and only if it is reached, with the server's reason if and only if the server refuses, and on a document otherwise never except by cursor |
| OpenApiStream.FirstRequest | providers/openapi/query.go:262-291 | The first request is plain without paging and by cursor, and otherwise for the offset or the first page |
| OpenApiStream.SeenExactlyWhen | providers/openapi/query.go:317-353 | Over every listing, a cursor counts as seen if and only if some page of it was fetched for that cursor |
| OpenApiStream.RowsArePages | providers/openapi/query.go:262-353 | The rows of a listing are those of its pages, page after page, followed by what the rest has |
| OpenApiStream.RowsAtEnd | providers/openapi/query.go:262-353 | A listing ends with the rows of its last page and no error, or with the error of the page that cannot be fetched |
| OpenApiStream.CutIsTake | providers/openapi/result_stream.go:110-137 | Rows behind the offset are delivered in order up to the limit or the first that does not decode, whichever comes first; an error comes only if they end before the limit: that row's, or the one the pages end with |
| OpenApiStream.CutBehindEnd | providers/openapi/result_stream.go:105-137 | Behind the last row nothing is delivered but the error the pages end with, and not even that with a limit of none |
| OpenApiStream.ResultStream.Next | providers/openapi/result_stream.go:85-154 | Batches concatenate to the rows after the offset up to the limit, none empty and all but the last full; after an error exactly the rows before it are delivered, then the error, again and again; the loop terminates |
| OpenApiStream.ResultStream.constructor | providers/openapi/result_stream.go:40-83 | A new stream owes the rows after the offset, up to the limit, as far as pages and rows can be read |
| OpenApiStream.ResultStream.TakePage | providers/openapi/result_stream.go:105-139 | Taking a page changes what is buffered, never what is owed |
| OpenApiStream.ResultStream.Close | providers/openapi/result_stream.go:156-168 | After closing nothing is owed |
| JsonPointers.ParseJSONPointer | providers/openapi/metadata.go:658-687 | The loops split and unescape the pointer as specified, and refuse what the specification refuses |
| JsonPointers.ParseRender | providers/openapi/discovery.go:372-374 | Every list of tokens is what its escaped rendering parses to |
| JsonPointers.RenderParse | providers/openapi/metadata.go:658-687 | Every accepted pointer is the rendering of what it parses to |
| JsonPointers.UnescapesExactlyWhen | providers/openapi/metadata.go:668-683 | A token is accepted if and only if each tilde is followed by 0 or 1 |
| JsonPointers.UnescapeMeans | providers/openapi/metadata.go:668-683 | ~0 is a tilde, ~1 a slash, every other character itself, and tokens put together unescape part by part |
| JsonPointers.OptionalValueAtJSONPointer | providers/openapi/query.go:380-398 | The walk through a document |
| JsonPointers.WrapMutationBody | providers/openapi/mutation.go:410-421 | The fold builds the nested document |
| JsonPointers.WrapReadsBack | providers/openapi/mutation.go:410-421 | A body wrapped at a list of tokens reads back at it and below it, the rest of the wrapping reads back above it, and nothing is found at any other path |
| JsonPointers.WrappedBodyReadsBack | providers/openapi/mutation.go:410-421 | Reading a pointer out of the document wrapped at it returns the body |
| JsonPointers.DiscoverObjectArrays | providers/openapi/discovery.go:282-325 | On every schema graph, cyclic or not, discovery ends; it fails if and only if a path without a repeated schema leads to a schema whose item or property cannot be built, and otherwise finds exactly the arrays of objects that such a path leads to, each at the pointer of that path |
| JsonPointers.DiscoveredPathsResolve | providers/openapi/metadata.go:635-656 | Every path discovery reports resolves to the array it was found at |
| LobStreams.ReadLob | sdk-go/provider/lob.go:54-121 | The server's loop ends for every provider, even an endless one, and sends what the specification says, without wrapping 64-bit arithmetic |
| LobStreams.ServedIsWellSent | sdk-go/provider/lob.go:54-121 | Whatever a provider streams, what is sent is contiguous from the offset, within the length, the chunk bound and 64 bits, with at most one terminal chunk, which is last; the read completes if and only if one was sent |
| LobStreams.StopsForAReason | sdk-go/provider/lob.go:54-121 | A read stops with a fault only for its reason: the provider ended or failed, the link failed, or the chunk breaks just the rule the fault names |
| LobStreams.CheckMeans | sdk-go/provider/lob.go:70-110 | A chunk passes if and only if it breaks no rule, and is refused with a fault if and only if that fault's rule is the first it breaks |
| LobStreams.WellFormedCompletes | sdk-go/provider/lob.go:54-121 | A provider's chunks that fit, each in turn, and end with the only terminal one are all sent, and the read completes |
| LobStreams.OpenLob | providers/inmemory/lob.go:111-139 | The range arithmetic of the in-memory provider |
| LobStreams.InMemoryLobStream.Next | providers/inmemory/lob.go:154-183 | One chunk of the in-memory stream |
| LobStreams.InMemoryReadDeliversRange | providers/inmemory/lob.go:111-183 | A read of an in-memory object always completes, with exactly the bytes from the offset to the end of the requested range |
| DecimalText.AggregateDecimalString | providers/inmemory/aggregate.go:619-665 | Without a scale the text is exact if and when the denominator has only the factors 2 and 5, and otherwise within half a unit of the 18th place, halves away from zero, with no zero left at the end; with a scale it is within half a unit of it, halves away from zero, also when the scale is negative; a number below zero keeps its sign when its digits are rounded to zero, except by a negative scale |
| DecimalText.CountFactors | providers/inmemory/aggregate.go:638-657 | Both loops end; what they count and leave multiplies to the denominator, and nothing of the factors 2 and 5 is left |
| DecimalText.FixedIsExact | providers/inmemory/aggregate.go:657-661 | As many digits as the larger count are enough for the exact number |
| DecimalText.TrimmedIsSame | providers/inmemory/aggregate.go:661-664 | Dropping the zeros at the end keeps the number, exact or not |
| DecimalText.DividingKeepsFactors | providers/inmemory/aggregate.go:638-656 | Dividing out a 2 or a 5 keeps whether only these factors remain |
| KubernetesColumns.ResolveIsFollowing | providers/kubernetes/openapi_schema.go:197-234 | Resolution, with its memory of followed references, always ends with what following references blindly would settle on, and is left with an unresolved reference exactly when that would go on forever |
| KubernetesColumns.LeavesAreApart | providers/kubernetes/openapi_schema.go:343-427 | Two paths that lead to columns are equal or neither continues the other, and none is deeper than the limit |
| KubernetesColumns.LeafExactlyWhen | providers/kubernetes/openapi_schema.go:330-399 | A path leads to a column if and only if the schemas along it, each resolved, are objects whose properties it names in turn, and it ends at the first one that has no properties to expand or at the depth limit |
| KubernetesColumns.ExpandedTable.AppendColumn | providers/kubernetes/openapi_schema.go:429-459 | A column is added unless its name is taken in another case |
| KubernetesColumns.ExpandedTable.AppendExpanded | providers/kubernetes/openapi_schema.go:343-427 | On cyclic documents too the expansion ends; it adds only leaves of the schema, no name twice; the name of every leaf is taken afterwards, a new one by the first leaf of that name in the order of paths |
| KubernetesColumns.ExpandedTable.ExpandRoot | providers/kubernetes/openapi_schema.go:272-299 | The same for all properties of a resource but its version and kind: every leaf's name is taken, by the first leaf of that name in the order of paths; the added columns have distinct names in any case and paths none of which continues another |
| KubernetesColumns.PlannedAtItsPath | providers/kubernetes/mutation.go:415-437 | An assignment to an expanded column is made at the column's own path if and only if its names have no dots, no blank ends and are not blank, and its own name is none of three reserved ones for another path |
| KubernetesColumns.SourcePathReadsBack | providers/kubernetes/mutation.go:622-639 | The path read back from a column's source name is its own under the same conditions on its names, and under no others |
| KubernetesColumns.DottedMeans | providers/kubernetes/mutation.go:626-629 | Without a source name each double underscore of a column's name, from the left, is read as a dot, and nothing else changes |
| KubernetesAssignments.PlanMutationAssignments | providers/kubernetes/mutation.go:378-461 | Assignments are planned if and only if there are some, each names a column and no two the same; the plan has each at its column's path with its value |
| KubernetesAssignments.FieldNamesColumn | providers/kubernetes/mutation.go:385-399 | A field names a column if and only if it is the column's name in any case, with any blanks around it |
| KubernetesAssignments.SetFails | providers/kubernetes/mutation.go:574-581 | Setting a nested field fails if and only if a value that is no object stands at a proper prefix of its path |
| KubernetesAssignments.SetReadsBack | providers/kubernetes/mutation.go:574-581 | A field that was set reads back its value |
| KubernetesAssignments.SetCommutes | providers/kubernetes/mutation.go:567-583 | Two fields neither of whose paths continues the other may be set in either order, with the same document or the same failure |
| KubernetesAssignments.ApplyPlannedPaths | providers/kubernetes/mutation.go:567-583 | The two loops make the assignments to single names first and then the others, in order, and fail as soon as one fails |
| KubernetesAssignments.OrderDoesNotMatter | providers/kubernetes/mutation.go:567-583 | Assignments to paths none of which continues another give the same document, or fail, in every order |
| KubernetesAssignments.FailsAlone | providers/kubernetes/mutation.go:567-583 | Such assignments succeed together if and only if each would alone |
| KubernetesAssignments.AllReadBack | providers/kubernetes/mutation.go:567-583 | Each such assignment reads back its value, and every path apart from them what it did before |
| KubernetesAssignments.ArrangedIsPermuted | providers/kubernetes/mutation.go:567-583 | The order the two loops choose drops and repeats nothing |
| KubernetesAssignments.SingleNamesFirst | providers/kubernetes/mutation.go:567-583 | In the order the two loops choose, no longer path comes before a single name |
| KubernetesAssignments.ExpandedAssignmentsApply | providers/kubernetes/mutation.go:464-485 | Any assignments planned for expanded columns, those assigned having names that survive their source names, make a patch without failing, the same in every order, from which each column's path reads back its value |
| KubernetesAssignments.ExpandSpecTwice | providers/kubernetes/openapi_schema.go:272-299 | One resource, expanded, has both columns of KubernetesAssignments.ReservedNameFails, so that its input arises |
| KubernetesAssignments.ReservedNameFails | providers/kubernetes/mutation.go:415-437 | Concrete failing input: a root property Spec is assigned at spec, so that it cannot be assigned together with a property of spec |
| BacnetObservations.NormalizeObservations | providers/bacnet/internal/discovery/manager.go:416-447 | One observation for each usable device and route, in order: the one that stands after all replacements |
| BacnetObservations.WhichIsKept | providers/bacnet/internal/discovery/manager.go:416-447 | With the configured routes last, one of them stands if and only if there is one, and it is the last; otherwise it is the first of the newest sightings of the device and route |
| BacnetObservations.UsableIsKept | providers/bacnet/internal/discovery/manager.go:416-447 | No usable observation is lost: one stands for its device and route |
| BacnetObservations.SplitDuplicates | providers/bacnet/internal/discovery/manager.go:449-492 | Devices with one normalized observation are unique, the others are reported once each with all their routes; both in order |
| BacnetObservations.SplitMeans | providers/bacnet/internal/discovery/manager.go:449-492 | Unique means observed on one route only, reported means observed on two different routes |
| BacnetObservations.ReportMeans | providers/bacnet/internal/discovery/manager.go:449-492 | A reported device's routes are exactly those on which an observation of it stands |
| BacnetRegistry.MergeRetainedDevices | providers/bacnet/internal/discovery/registry.go:60-104 | The merged list, in order, has exactly the current devices, renewed with what was known of them, and the previous ones that are neither current nor conflicting and were seen within the time to live |
| BacnetRegistry.Manager.Replace | providers/bacnet/internal/discovery/registry.go:30-58 | Only the scope's snapshot changes, to the merged devices and the given conflicts |
| BacnetRegistry.Manager.RefreshScope | providers/bacnet/internal/discovery/manager.go:139-257 | A refresh leaves the snapshot of its scope as specified and the others alone, and succeeds if and only if discovery did and nothing conflicts |
| BacnetRegistry.RefreshIsDetermined | providers/bacnet/internal/discovery/manager.go:139-257 | What a refresh found and the snapshot before it determine the devices listed after it, the conflicts reported, and the order of both, whatever order maps are visited in |
| BacnetRegistry.RefreshKeepsConsistent | providers/bacnet/internal/discovery/manager.go:139-257 | After every refresh the devices and the conflicts of a scope are strictly sorted, disjoint and inside the discovery bounds |
| BacnetRegistry.EverySnapshotConsistent | providers/bacnet/internal/discovery/manager.go:139-257 | So it is after every run of refreshes |
| BacnetRegistry.WhoIsListed | providers/bacnet/internal/discovery/registry.go:60-104 | After every run a device is listed if and only if the last refresh that observed it listed it so, and at every refresh since it was within the time to live |
| BacnetScopes.StandsExactlyWhen | providers/bacnet/internal/discovery/manager.go:396-447 | A device has an observation that stands on a route if and only if it is inside the bounds and was sighted or is configured on it, validly; that is the last one configured, without a time, or else the first of the newest sightings |
| BacnetScopes.ObservedExactlyWhen | providers/bacnet/internal/discovery/manager.go:139-257 | A refresh observes a device if and only if it was seen on some route, finds a conflict if and only if on two, and lists it as observed if and only if on one, by the observation that stands there |
| BacnetRegistry.ObservedIsListed | providers/bacnet/internal/discovery/manager.go:139-257 | A device observed on one route only is listed, field by field: its route and time as observed, what the refresh learned of it, and for the rest what was known before |
| BacnetRegistry.ListedUnobserved | providers/bacnet/internal/discovery/registry.go:92-101 | A device that a refresh does not observe is listed after it if and only if it was before, unchanged, and was last seen less than one time to live ago |
| BacnetRegistry.UnseenIsGone | providers/bacnet/internal/discovery/registry.go:92-101 | A device not observed by a refresh that starts at least one time to live after it was last seen is gone after it, and until a refresh observes it again |

## Left out

- Wrap-around of generations, offsets and page numbers at 2^64, and collisions of the request digest.
- The lock-free part of cache configuration: default limits, normalization of entity names and of the dependency graph; entities are normalized keys here, and the empty key stands for a reference that cannot be normalized.
- Context cancellation and timeouts, except where a call gives up waiting for a session.
- That a call waiting for a session is eventually served: repeated failures and replacements can keep it waiting.
- The Kubernetes client cache: the same protocol as the session pool with a single namespace.
- Opening LOBs in the cache and releasing them; expiry of LOBs in the in-memory provider.
- Redis key columns of other types, the decoding of hash fields, ORDER BY and projections of the Redis provider.
- Function calls and the numeric types FLOAT and DOUBLE in the in-memory engine; in aggregates a BIGDECIMAL result is its exact number, whose text is modelled on its own.
- KubernetesAssignments.PlanMutationAssignments: does not model the flag that a column may be updated, the paths that may never be written, the conversion of literals and assignments of a whole object, which are checks of one assignment at a time.
- Projections and output conversion of query results, which apply to one row at a time.
- The OpenAPI stream's buffer is a sequence; that its array is compacted in place is not modelled. Building URLs, HTTP and JSON decoding are not part of the model; nor is how an object shape is composed from a schema.
- Types, annotations and writability of Kubernetes columns, conversion of assigned values, assignments of a whole object, the merging of metadata on a full update and the validation of the resource's identity.
- Starting and closing the BACnet manager around refreshes and requests in flight, profile selection, and the sorting library: sorts are by insertion here, on distinct ranks, where every sort gives the same.
- gRPC transport, configuration files, authentication, metadata and capabilities.
