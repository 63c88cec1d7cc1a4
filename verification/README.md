# QuotaMux in Dafny

A model of QuotaMux, a gateway that routes requests for language models to several upstream
accounts, and proofs of what its stateful parts keep. The model follows the code, branch by
branch; files are named after the components.

- **Statistics** (`StoreModel`, `StoreBooks`, `StoreRuns`, `StoreQueries`, `StoreReads`,
  `StoreTheorems`, `StoreFields`, `StoreRebuild`, `StoreLateRows`, `Store`, over `Counters`, `Rollup` and `Sets`). Two ledgers,
  four rollup tables, and a rebuild in batches whose progress is stored beside them. A step is one
  committed transaction, so a crash leaves the last committed database. The proofs keep books:
  each table is the sum of a map from contributions to amounts, and a scan of the ledger is
  obtained from it by renaming.
- **Prefix affinity** (`WarmEpochs`, `PrefixIndex`, `PrefixInvariant`, `PrefixExpiry`,
  `PrefixRuns`, `PrefixLives`, `PrefixCompleteness`, `PrefixEviction`, `AffinityIndex`, `Fingerprint`,
  `PrefixMatching`). The index of leases against the plain history of observations.
- **Circuit breaker** (`Circuit`, `CircuitRuns`, `CircuitBackoff`). A protocol over its steps, with outstanding
  permits, disk writes that may fail, and restarts.
- **Translators** (`ChatStream`, `AnthropicStream`, `AnthropicRuns`, `AnthropicBack`,
  `ResponsesHistory`, `ResponsesReasoning`, `ResponsesRoundTrips`). Streams and histories there and back.
- **Calendar and tariffs** (`Calendar`, `Pricing`), **random order** (`Selector`, `Wrapping`),
  **admission** (`Admission`, `Decimal`), **the routing loop** (`RouteCandidates`, `Routing`,
  `RoutingRuns`, and `RoutingWorld` over the gate and the circuits) and **server-sent events**
  (`Sse`, `SseFrames`, `SseStreams`, `SseChunking`, `SseRoundTrips`).

What the code changes in place is a class whose methods are tied to functions on values; the
theorems are about those functions and about runs of them. Integers are unbounded unless the
width matters: 64-bit counters overflow into errors, 64-bit mixing wraps, and times saturate
where the code says so.

## What turned out not to hold

- An observation may never return. `expire` empties the epochs of a lease before removing it, so
  the lease's entry stays in the expiry order (src/affinity.rs:391-403, src/affinity.rs:557-560),
  and the eviction loop makes no progress when that entry comes first (src/affinity.rs:335-340).
  `PrefixEviction.ObserveHangsIff` gives the exact condition and `PrefixEviction.StaleEntryHangs` a
  run. The design document promises that the number of leases is bounded by eviction
  (docs/prompt-prefix-affinity.md:126-129); the model follows the code.
- Compaction drops both of two different epochs that dominate each other
  (`WarmEpochs.CompactKeepsCoverageIff`). No observation leads there
  (`WarmEpochs.LeaseCoversItsEvidence`).
- A chat history is not always restored from Responses input: `ResponsesRoundTrips.ChatRoundTrip`
  states exactly when it is.
- An event is not always restored from its encoding, since the decoder removes all leading white
  space where the WHATWG HTML Standard, section 9.2.6, removes one space:
  `SseRoundTrips.RoundTripIffRepresentable`. Whether the result depends on chunking
  is decided by `SseChunking.ChunkingIsIrrelevantIff`, with mixed line ends for example
  (`SseRoundTrips.MixedLineEndsDependOnChunking`).
- A window need not count every ledger row: during a rebuild rows wait to be applied, and rows
  applied after they left the retained period are in no bucket. `StoreTheorems.WindowsAreWholeIff`
  says when it does, and `StoreLateRows.LateRebuildHappens` gives a run after which it does not.

## Model

| member | source | states |
|---|---|---|
| StoreRuns.RunsKeepBooks | src/store.rs:203-236 | From any ledgers not yet counted, as in a new store, and after any run of recordings, start-up checks, backfill batches, resets and prunings, whatever the clock does, every rollup table is the sum of contributions of ledger rows, each present once: all rows the progress markers say were applied, and in the buckets exactly those of them that were inside the retained period at the step that applied them, minus pruned buckets |
| StoreRuns.UpgradeRestarts | src/store.rs:203-213 | A store of any older version, whatever its rollups hold, is such a start after its upgrade step, with the same ledgers, and what follows is a run from there |
| StoreTheorems.ReadyTotalsAreExact | src/store.rs:850-905 | Once the store is ready, each all-time row equals a scan of the whole ledger, so every row was applied exactly once whatever batches, crashes and resets came before |
| StoreTheorems.TotalsForgetHistory | src/store.rs:203-236 | Two runs, from whatever uncounted ledgers, that end ready with equal ledgers have equal all-time totals, however they got there: live, in batches, or after resets |
| StoreTheorems.WindowsAreExact | src/store.rs:615-650 | In every reachable store, for every window that starts at or after each prune cutoff, whatever was pruned and when: each total the mixed minute and hour query returns, overall, per target and unattributed, is that of a scan of the ledger rows that were inside the retained period when they were applied |
| StoreTheorems.WindowsAreWholeIff | src/store.rs:1234-1257 | Such a total is that of the whole ledger exactly when every row of the window has been applied, and was inside the retained period when it was |
| StoreLateRows.LateRebuildMisses | src/store.rs:261-297 | After a reset, a row whose retained period has passed is in no bucket again, whatever follows: no window it falls into is whole, for its model or its target |
| StoreLateRows.LateRebuildHappens | src/store.rs:229-236 | A run in which that happens, for any late enough clock: a row recorded in time, a downgrade, an upgrade and a finished rebuild, with nothing pruned |
| StoreTheorems.RetainedAreBucketed | src/store.rs:1234-1257 | With a clock that does not go back, every applied row that is still in the retained period was in it when it was applied |
| StoreTheorems.ReadyWindowsAreExact | src/store.rs:615-650 | So in a ready store the returned totals of a window inside the retained period, at or after each prune cutoff, are those of a scan of the whole ledger |
| StoreTheorems.CutoffIsExpired | src/store.rs:825-831 | The prunings of start-ups leave no cutoff inside the retained period |
| StoreTheorems.AttemptWindowsAreExact | src/store.rs:724-740 | For every window at or after each prune cutoff, the attempts returned for each backend and model are a scan of those that were retained when applied |
| StoreTheorems.AttemptWindowsAreWholeIff | src/store.rs:1430-1460 | They are a scan of the whole ledger exactly when every attempt of the window has been applied to the buckets, and was inside the retained period when it was |
| StoreTheorems.ReadyAttemptWindowsAreExact | src/store.rs:724-740 | which is so in a ready store for windows inside the retained period |
| StoreTheorems.OverviewsAreExact | src/store.rs:709-723 | The bounded overview counts each request of the window that was retained when applied once, although it asks model by model |
| StoreTheorems.ReadyOverviewsAreExact | src/store.rs:709-723 | and each request of the ledger, in a ready store and a retained window |
| StoreTheorems.WindowsAlwaysConserve | src/store.rs:1493-1516 | At any moment of any run, also during a rebuild and after any pruning, a window's total is the sum of its targets and its unattributed part in every counter |
| StoreTheorems.MigrationCountsTheLedger | src/store.rs:862-868 | A finished phase of the backfill has counted as many rows as the ledger holds |
| StoreTheorems.LedgersOnlyGrow | src/store.rs:351-412 | No step removes or changes a ledger row, and before the store is ready none is added; recording a known id never changes anything, and succeeds exactly when ready and the contents are the same |
| StoreTheorems.RequestCountersCount | src/store.rs:1234-1257 | The first three counters of any total are the numbers of requests, failures and fallbacks it is made of |
| StoreTheorems.AttemptCountersAddUp | src/store.rs:1410-1428 | The first three counters of any attempt total are the numbers of attempts, successes and errors, which add up |
| StoreFields.RequestsAddUp | src/store.rs:1234-1257 | Every total over requests shows, counter by counter, the sums of the named fields of their records: input, cache hit, cache miss, reasoning, estimated reasoning, output and total tokens, and the bytes both ways |
| StoreFields.AttemptsAddUp | src/store.rs:1410-1428 | The same for attempts, with the number of those whose cache use the provider reported |
| StoreFields.WindowsShowFields | src/store.rs:615-650 | So at any moment of any run the bounded query returns, for the model, for each target and for requests without a target, the field sums of the requests of the window that were retained when applied; a request belongs to a target when all five parts of it are on record and the layer index fits 32 bits |
| StoreFields.ReadyWindowsShowFields | src/store.rs:615-650 | and in a ready store, for windows of the last 32 days, those of all recorded requests |
| StoreFields.AllTimeShowsFields | src/store.rs:627-640 | In a ready store the unbounded query returns the field sums of all recorded requests of the model, by target and without one, and the attempt table those of the attempts of each backend and model |
| StoreFields.OverviewsShowFields | src/store.rs:688-742 | The overview returns the field sums of the requests of all models in the window, and of the attempts of each backend and model, that were retained when applied |
| StoreFields.ReadyOverviewsShowFields | src/store.rs:688-742 | and in a ready store, for windows of the last 32 days, of all recorded ones |
| StoreTheorems.RequestIsRecordedIff | src/store.rs:351-380 | A new request is recorded by a ready store exactly when its bytes fit, and with it the all-time rows it feeds and, if it is retained, its four bucket rows |
| StoreTheorems.AttemptIsRecordedIff | src/store.rs:382-412 | The same for an attempt |
| StoreRebuild.RebuildNeverFails | src/store.rs:850-905 | When the totals of the first ledgers fit, a start-up after any run is never stuck: the schema version is known and no backfill batch overflows, because each total it forms is part of one that fitted when it was recorded |
| StoreRebuild.NewStoreNeverFails | src/store.rs:850-905 | In particular after any run of a new store |
| StoreQueries.OneBucketCounts | src/store.rs:1462-1471 | The three ranges of a window count each minute of it exactly once, by its minute bucket or its hour bucket, for windows of any alignment up to the end of i64 |
| StoreQueries.WindowIsScan | src/store.rs:615-650 | If buckets hold the contributions of some rows, a window at or after the cutoff returns the scan of just those rows |
| StoreQueries.WindowConserves | src/store.rs:1493-1516 | Total equals targets plus unattributed for every window of a table that counts both scopes of each request |
| StoreQueries.AllTimeIsScan | src/store.rs:1314-1343 | A row of the all-time table is the total of the applied requests that feed it |
| StoreQueries.AttemptWindowIsScan | src/store.rs:1430-1460 | The same for the buckets of attempts |
| StoreQueries.AlignedWindow | src/store.rs:1539-1541 | For minute-aligned bounds, belonging to the window is starting between the bounds |
| StoreBooks.ApplyRequestKeeps | src/store.rs:1234-1343 | Applying one more request counts exactly that request: twice of all time, and in four buckets exactly when it is then in the retained period |
| StoreBooks.PruneKeepsRequests | src/store.rs:800-823 | Pruning drops exactly the contributions to buckets before the cutoff |
| StoreReads.ReadWindow | src/store.rs:1462-1516 | The bounded query succeeds exactly when each of its totals fits 64 bits and then returns those totals, no matter in which order rows are read |
| StoreReads.ReadAllTime | src/store.rs:627-640 | The same for the unbounded query |
| StoreReads.ReadOverview | src/store.rs:709-723 | The overview of the given models is the sum of their window rows; it succeeds exactly when each model's totals and that sum fit |
| StoreReads.ReadAttemptWindow | src/store.rs:724-740 | The attempt window by backend and model, failing exactly when a total does not fit |
| Rollup.RowsAreContributions | src/store.rs:1355-1387 | Adding up rows of a rollup table adds up the contributions made to those rows |
| Counters.TotalOfRenamed | src/store.rs:1026-1057 | A total does not depend on the order or naming of what is added |
| Store.StatsStore.RecordRequest | src/store.rs:351-380 | Records and counts a request, or changes nothing: refused before ready, idempotent on duplicates, rolled back on conflict or overflow |
| Store.StatsStore.RecordAttempt | src/store.rs:382-412 | The same for an attempt |
| Store.StatsStore.ResetRollups | src/store.rs:261-297 | Drops every derived table and restarts the backfill at the given version; the ledgers stay |
| Store.StatsStore.DowngradeStatsSchema | src/store.rs:229-236 | Resets for an older version, and refuses the current and later ones |
| Store.StatsStore.PruneStats | src/store.rs:800-823 | Keeps exactly the buckets that start at or after the cutoff's minute |
| Store.StatsStore.PruneExpiredStats | src/store.rs:825-831 | Prunes to the retained period, saturating at the smallest time |
| Store.ReadBatch | src/store.rs:1140-1167 | The next thousand ids after the cursor in key order |
| Store.StatsStore.BackfillRequestsBatch | src/store.rs:850-877 | One batch of requests with cursor, counter and phase in the same transaction; an error leaves all tables as they were |
| Store.StatsStore.BackfillAttemptsBatch | src/store.rs:879-905 | The same for attempts |
| Store.StatsStore.BackfillAttemptBucketsBatch | src/store.rs:769-798 | The same for attempt buckets |
| Store.StatsStore.EnsureStatsSchema | src/store.rs:203-222 | A start-up ends; it is a run of steps timed by the clock it read, keeps the ledgers, leaves the store ready when it succeeds, with a last step that prunes to the retained period, so that no older bucket is left, and fails only for an unknown version or a failing batch |
| Store.StatsStore.RoutingRollup | src/store.rs:615-650 | Unbounded, bounded and invalid ranges |
| Store.StatsStore.OverviewRollupWindow | src/store.rs:688-742 | Requests of all known models and attempts by backend and model, for bounds in order, succeeding exactly when every total fits |
| StoreRuns.BatchCovers | src/store.rs:850-877 | A batch extends what the cursor has passed by exactly its ids; a short batch completes the ledger |
| WarmEpochs.InsertCovers | src/affinity.rs:301-312 | After an observation the epochs are still a front and cover exactly what they covered before or what the evidence covers, also when the evidence is dominated |
| WarmEpochs.ExpireCovers | src/affinity.rs:391-399 | Expiry keeps the front and all coverage from now on, and keeps nothing expired |
| WarmEpochs.LeaseCoversItsEvidence | src/affinity.rs:285-313 | Over the life of a lease its epochs increase strictly in frontier and decrease strictly in expiry, and cover a checkpoint at a time exactly when some evidence since its creation does |
| PrefixLives.EpochsAreTheirLife | src/affinity.rs:266-432 | In every run that returns, with evictions and crowding, the epochs of a lease are those that its accepted observations and the expiries since it was last created leave |
| PrefixLives.LeasesCoverTheirLife | src/affinity.rs:266-432 | So in every such run they cover a checkpoint, now or later, exactly when some observation accepted for the lease since then is evidence for it |
| WarmEpochs.CompactSorts | src/affinity.rs:472-481 | Compacting epochs none of which dominates another keeps them all and orders them |
| WarmEpochs.CompactKeepsCoverageIff | src/affinity.rs:472-481 | Compaction keeps what a list covers exactly when different epochs with equal frontier and expiry are dominated by one with another; otherwise it drops them all |
| WarmEpochs.ExpireKeepsExpiry | src/affinity.rs:410-415 | A lease that survives expiry keeps its latest expiry |
| WarmEpochs.Best | src/affinity.rs:483-494 | The best epoch exists exactly when the checkpoint is covered, and none that covers it is better |
| PrefixIndex.BestOfferIsBest | src/affinity.rs:356-370 | No eligible candidate of a key outranks the match returned for it |
| PrefixIndex.LookupPrefers | src/affinity.rs:344-376 | A match is found at the deepest checkpoint that some eligible candidate holds, and no candidate there holds it by an epoch to be preferred: reported by the provider before a successful request before a pending one, then the later expiry, then the larger id |
| PrefixInvariant.ObserveKeeps | src/affinity.rs:266-342 | Every observation that returns keeps the index: references name live leases whose path holds the key within reach, lists are duplicate-free and bounded, each lease's expiry is in the expiry order, and the lease bound holds |
| PrefixExpiry.ExpiredKeeps | src/affinity.rs:378-432 | Expiry keeps all of that too |
| PrefixExpiry.ExpiredIs | src/affinity.rs:378-432 | Expiry leaves the leases that have an unexpired epoch, with just those epochs, one version further on if any is gone |
| PrefixExpiry.StayingCandidates | src/affinity.rs:416-428 | A key keeps exactly the candidates that still reach it |
| PrefixEviction.ObserveHangsIff | src/affinity.rs:335-340 | An observation never returns exactly when it brings a new lease into a full index whose expiry order, with the new entry, starts with an entry of no live lease; every round of the eviction loop then changes nothing |
| PrefixExpiry.VisitIsOneMore | src/affinity.rs:382-430 | Visiting leases one by one in any order leads to one result |
| PrefixExpiry.ExpiredIsComplete | src/affinity.rs:416-428 | Expiry loses no candidate |
| PrefixEviction.ObserveReturns | src/affinity.rs:335-340 | Without stale entries every observation returns and leaves none |
| PrefixEviction.ExpiryMakesStale | src/affinity.rs:386-407 | Expiry leaves stale entries exactly when it removes a lease |
| PrefixEviction.StaleEntryHangs | src/affinity.rs:335-340 | A four-call run whose last observation never returns |
| PrefixRuns.RunsKeep | src/affinity.rs:266-432 | Every state of every returning run keeps the index |
| PrefixRuns.RunsAreBacked | src/affinity.rs:266-342 | Each epoch of each lease is the evidence of an accepted observation with the lease's id, and domain and path come from one too |
| PrefixRuns.MatchesAreBacked | src/affinity.rs:344-376 | Every match comes from a real, unexpired observation of the same domain whose path holds the matched checkpoint within its frontier, pruning and eviction included |
| PrefixCompleteness.CoverageIsHistory | src/affinity.rs:285-313 | While nothing is crowded out, a lease's epochs cover a checkpoint now or later exactly when some observation of the run is evidence for it |
| PrefixCompleteness.RunsAreComplete | src/affinity.rs:504-538 | While nothing is crowded out, each lease is listed at all keys within its reach |
| PrefixCompleteness.LookupIsScan | src/affinity.rs:344-376 | While no key has overflowed and no lease was evicted, with ids that identify leases, a lookup matches exactly when a scan of all observations does, and at the deepest such checkpoint |
| PrefixMatching.PromptLookupIsScan | src/affinity.rs:344-376 | The same for fingerprinted prompts, without assuming anything of the ids but that they are hashes of the lease's domain and path without collisions |
| PrefixMatching.HashesIdentify | src/affinity.rs:451-463 | A lease id identifies the domain and the whole path it was made from, since the hashed bytes spell them out |
| Fingerprint.LeaseBytesAreUnambiguous | src/affinity.rs:451-463 | The hashed bytes of a lease id determine domain, namespace, length and final fingerprint |
| PrefixIndex.WeakestIsWeakest | src/affinity.rs:518-536 | No candidate is worth less than the one chosen to go, and every earlier one is worth more |
| PrefixIndex.DroppedIsNotPreferred | src/affinity.rs:504-538 | When the candidate to go holds the checkpoint, every other one holds it too, by an epoch to which none of its own is preferred in that order |
| AffinityIndex.AffinityIndex.WeakestCandidate | src/affinity.rs:518-536 | The first candidate such that no other is worth less |
| AffinityIndex.AffinityIndex.AddPrefixRef | src/affinity.rs:504-538 | Adds a reference and drops the weakest candidate beyond the bound |
| AffinityIndex.AffinityIndex.RemovePrefixRefs | src/affinity.rs:540-553 | Removes a lease's references and the lists this empties |
| AffinityIndex.AffinityIndex.RemoveLease | src/affinity.rs:555-562 | Removes a lease, its references and, if it has epochs, its expiry entry |
| AffinityIndex.AffinityIndex.EvictOldest | src/affinity.rs:335-340 | Evicts by expiry until the bound holds |
| AffinityIndex.AffinityIndex.Observe | src/affinity.rs:266-342 | The whole new state of one observation that does not hang, its error case, and what it returns: the lease, one version on and with the evidence among its epochs, exactly when the evidence is unexpired, no epoch of the old lease reaches as far and lasts as long, and the lease was not evicted |
| AffinityIndex.AffinityIndex.Lookup | src/affinity.rs:344-376 | The best match at the deepest checkpoint that has one |
| AffinityIndex.AffinityIndex.ExpireLease | src/affinity.rs:383-430 | Expiry of one lease, including the order in which epochs and lease are removed |
| AffinityIndex.AffinityIndex.Expire | src/affinity.rs:378-432 | The expired index, independent of the order of visits, and the report: how many epochs and leases were removed, which leases were deleted, and exactly those that changed, as they are now |
| Fingerprint.MakePath | src/affinity.rs:107-155 | The path depends on the concatenation of the chunks only: keys at the interval multiples up to the bound, and one for a tail when there is room |
| Fingerprint.KeysArePrefixes | src/affinity.rs:158-172 | Each key carries the length and the hash of a prefix of the prompt |
| Fingerprint.OrdinalsCount | src/affinity.rs:126-144 | Checkpoints are numbered 1, 2, 3, ... and bounded |
| Fingerprint.SharedPrefixSharesKeys | src/affinity.rs:107-144 | Prompts of a namespace that share k intervals share their first min(k, bound) keys |
| Fingerprint.HeaderIsUnambiguous | src/affinity.rs:111-115 | Namespace and prompt cannot be shifted into each other |
| Fingerprint.SharedKeyIsSharedPrefix | src/affinity.rs:107-172 | Without collisions among the hashed prefixes, a shared key means a shared prefix in the same namespace |
| PrefixMatching.MatchedBytesAreShared | src/affinity.rs:344-376 | Without collisions among what was hashed, the matched bytes of a lookup are a true common prefix with an observed prompt of the same namespace and domain |
| Circuit.RetryDelay | src/circuit.rs:381-408 | Never more than the maximum of the class, at most an hour, whatever Retry-After says |
| Circuit.BackoffGrows | src/circuit.rs:344-408 | Backoff never shortens with repeated failures and ends at the class maximum; a Retry-After replaces it up to that maximum for five classes and changes nothing for the others |
| Circuit.CircuitBreaker.DecideAt | src/circuit.rs:177-227 | Decision, new state and what reaches the disk |
| Circuit.CircuitBreaker.CompleteSuccess | src/circuit.rs:229-246 | New state and disk after a success |
| Circuit.CircuitBreaker.CompleteFailure | src/circuit.rs:248-285 | New state and disk after a failure of any class |
| Circuit.CircuitBreaker.CompleteAbandonment | src/circuit.rs:287-302 | New state and disk after an abandonment |
| CircuitRuns.RunInvariant | src/circuit.rs:177-302 | The protocol invariant holds in every state of every interleaving, with failing disk writes and restarts |
| CircuitRuns.ProbeIsExclusive | src/circuit.rs:177-217 | At most one outstanding probe permit is current and no regular one beside it; a regular permit is current only while the circuit is closed |
| CircuitRuns.RegularSuccessChangesNothing | src/circuit.rs:229-246 | Only a probe closes a circuit |
| CircuitRuns.GenerationAcceptsOnce | src/circuit.rs:229-302 | Each generation accepts at most one settlement between restarts; a later one that carries its generation or an earlier one changes nothing |
| CircuitRuns.OutageEnds | src/circuit.rs:134-171 | An hour after the last transition, ten minutes for a half-open circuit, a decision is granted, whatever Retry-After values arrived; a reload that keeps the stored snapshot counts from the stored transition |
| CircuitRuns.ProbesAreALeaseApart | src/circuit.rs:177-217 | Two probes without a settlement or restart between them are a lease apart |
| CircuitRuns.OutcomesDetermineState | src/circuit.rs:248-285 | Counters, reason, start and kind of an outage are functions of the accepted outcomes |
| CircuitRuns.OnlyOutcomesCount | src/circuit.rs:287-302 | Decisions, lease expiry and abandonments change none of these; a probe success empties the outage, a failure extends it |
| CircuitBackoff.FailuresKeepTrafficAway | src/circuit.rs:248-285 | In every run: after an accepted failure, and until a settlement is accepted, a probe granted or the process restarted, every decision before the wait of the class is over is a fallback, and every one after it grants a probe; the wait is given by the number of failures of the class in a row, or by what the upstream asked for |
| CircuitBackoff.AbandonedProbesAreRepeated | src/circuit.rs:287-302 | The same with one second after a probe that is abandoned, or that fails through no fault of the target |
| CircuitBackoff.ProbesKeepTrafficAway | src/circuit.rs:177-227 | While a probe is out every decision for ten minutes is a fallback that tells to wait, and then another probe |
| CircuitBackoff.RestartsKeepTheWait | src/circuit.rs:134-171 | A restarted process probes at once what was being probed, and otherwise keeps the stored time, but waits no longer than the longest wait of the class |
| CircuitBackoff.HealthyTargetsAreUsed | src/circuit.rs:191-199 | Before the first accepted failure and after a successful probe, until the next failure is accepted, every decision grants a regular permit |
| CircuitBackoff.DelayIsWait | src/circuit.rs:344-408 | The delays of the code are these waits, spelled out: 5 s, 30 s, 5 min for capacity; 1, 5, 15 min for quota; 1 h for billing; 5, 30, 60 min for what needs care; else doubling from 1 s to 1 min |
| AnthropicStream.ChatToAnthropicStream.Translate | src/protocol/anthropic.rs:531-607 | Events and state for one chunk; the first opens the message |
| AnthropicStream.ChatToAnthropicStream.TranslateChoice | src/protocol/anthropic.rs:546-604 | Finish reason, text and calls of one choice, in that order |
| AnthropicStream.ChatToAnthropicStream.TranslateCall | src/protocol/anthropic.rs:575-603 | A new call opens a block; a fragment extends it |
| AnthropicStream.ChatToAnthropicStream.FinishStream | src/protocol/anthropic.rs:609-629 | Closes all blocks and the message |
| AnthropicStream.AnthropicToChatStream.Translate | src/protocol/anthropic.rs:657-737 | Chunks and state for one event |
| AnthropicBack.OutputGivesReason | src/protocol/anthropic.rs:609-629 | The last event but one of a translated chat stream says end_turn, tool_use or max_tokens as the last finish reason of the stream demands |
| AnthropicBack.EventsAssemble | src/protocol/anthropic.rs:657-737 | Whatever events come, in whatever order, the chunks assemble to the text deltas of the text blocks, one call for each tool block with the JSON deltas of that block, and the reason given last, and their reasoning is that of the thinking blocks |
| AnthropicRuns.OutputIsWellBracketed | src/protocol/anthropic.rs:531-629 | For any nonempty chunk stream: message start first and stop last, blocks numbered 0, 1, 2, ... with deltas of their kind only while open, each stopped once |
| AnthropicRuns.StopsClose | src/protocol/anthropic.rs:617-622 | Stopping the calls in any order closes exactly their blocks |
| AnthropicRuns.RoundTripKeepsTheMessage | src/protocol/anthropic.rs:657-737 | Translating the events back assembles to the same text, the same calls in order of first appearance with id, name and arguments, and the same finish reason |
| ResponsesHistory.PrepareFromChat | src/protocol/responses.rs:56-104 | Instructions and input items of a chat history |
| ResponsesRoundTrips.MessagesBecome | src/protocol/responses.rs:56-104 | What each message adds: its text to the instructions, or an output, or its text and its calls in order |
| ResponsesReasoning.PartsAddUp | src/protocol/responses.rs:289-303 | The text of a list of parts is that of its text parts in order |
| ResponsesReasoning.PartSays | src/protocol/responses.rs:289-301 | which is the text of a text part, and nothing of another |
| ResponsesReasoning.JoinedAddUp | src/protocol/responses.rs:98-104 | Instructions are joined with an empty line between any two |
| ResponsesHistory.TranslateInputItems | src/protocol/responses.rs:193-287 | Messages rebuilt from items, with pending reasoning and patched calls |
| ResponsesReasoning.ReasoningLands | src/protocol/responses.rs:193-287 | For every sequence of items, what each item adds: an assistant message is given the nonempty reasoning directly before it, a call puts it on the turn it joins or begins, in place of an older one only if there is any, and everything else is given none and ends the wait |
| ResponsesReasoning.TurnsStay | src/protocol/responses.rs:229-270 | Later items leave every turn but the last as it is, and change of the last only calls and reasoning |
| ResponsesHistory.PrepareForChat | src/protocol/responses.rs:16-26 | Messages of a request with instructions |
| ResponsesRoundTrips.ChatRoundTrip | src/protocol/responses.rs:56-104 | A chat history comes back, with system texts joined first and empty messages dropped, exactly when only assistant turns call and no calling turn without text follows another assistant turn |
| ResponsesRoundTrips.BareCallsMerge | src/protocol/responses.rs:229-270 | Otherwise: such a turn is merged into the turn before it |
| ResponsesRoundTrips.ItemsRoundTrip | src/protocol/responses.rs:193-287 | For every request, items converted to chat and back are the plain items in order, with the system texts joined as instructions |
| ResponsesRoundTrips.CallsAttach | src/protocol/responses.rs:229-270 | Consecutive calls all land on one assistant turn |
| Calendar.WallSecondsReads | src/calendar.rs:33-55 | Every time of day is read in both spellings |
| Calendar.WallSecondsIsExact | src/calendar.rs:33-55 | Nothing else is read |
| Calendar.DayWindowsAgree | src/calendar.rs:97-116 | The windows of a schedule day contain a second exactly when the day's rule does, overnight and over Sunday night |
| Calendar.NeighboursSuffice | src/calendar.rs:118-126 | Comparing neighbours of the sorted windows decides whether any second is claimed twice |
| Calendar.HasOverlap | src/calendar.rs:119-126 | The scan over neighbours |
| Calendar.CompileSchedule | src/calendar.rs:78-117 | Accepts a schedule exactly when its order, times and days are valid, names the first of them that is not, and yields its windows |
| Calendar.Compile | src/calendar.rs:57-128 | Accepts exactly the valid inputs that claim no second twice, reports an overlap exactly for the valid ones that do, and otherwise the first fault of the first faulty schedule |
| Calendar.New | src/calendar.rs:140-167 | The compiled calendar |
| Calendar.AtRefinesRule | src/calendar.rs:169-180 | The calendar activates a schedule exactly when its own weekday, start and end rule holds, alone, and otherwise the default |
| Calendar.SelectionIsPermutation | src/calendar.rs:142-157 | Each selection orders every layer once, as its schedule says |
| Pricing.New | src/pricing.rs:33-94 | Accepts a tariff exactly when rates are finite and not negative, defaults back its windows and the windows compile, and says which of these fails first |
| Pricing.ActiveWindowCharges | src/pricing.rs:96-99 | During a window its own name and rates are in force |
| Pricing.NoWindowChargesDefault | src/pricing.rs:96-99 | Outside every window the default is |
| Selector.MixInjective | src/routing.rs:69-75 | The mixer maps 64-bit states to values without collision |
| Selector.StatesDiffer | src/routing.rs:69-70 | The odd increment never repeats a state within the period |
| Selector.RejectionsEnd | src/routing.rs:58-67 | At most u64::MAX % upper + 1 values in a row are rejected, for any seed |
| Selector.BoundedU64 | src/routing.rs:58-67 | The first accepted value, reduced |
| Selector.ResiduesAreEquallyLikely | src/routing.rs:58-67 | Each residue has equally many accepted values |
| Selector.ShuffleInjective | src/routing.rs:29-40 | Different swap choices give different orders |
| Selector.ShuffleReachesEveryOrder | src/routing.rs:29-40 | Every order is reached by some choices |
| Selector.RandomSelector.Order | src/routing.rs:29-40 | The in-place shuffle of the target indices: a permutation, for every seed and length |
| Selector.RandomSelector.RangeInclusive | src/routing.rs:42-50 | A value within the bounds |
| Admission.AccountKeyInjective | src/admission.rs:34-42 | Different credentials never share an account key |
| Admission.OccupiedUpdates | src/admission.rs:44-50 | Writing one account moves each pool's occupancy by that account's share |
| Admission.PublishInstalls | src/admission.rs:53-72 | A publication installs every limit and every credential's pool |
| Admission.PublishLeavesOthers | src/admission.rs:53-72 | and leaves alone the limits and accounts that it does not mention |
| Admission.PublishKeepsCounts | src/admission.rs:53-72 | A publication touches no running work |
| Admission.Gate.PublishConfig | src/admission.rs:53-72 | The published state |
| Admission.Gate.AcquireAccount | src/admission.rs:80-103 | Admits exactly below the limit and counts the lease |
| Admission.Gate.DropLease | src/admission.rs:116-125 | Gives the place back |
| Admission.RunsStayCounted | src/admission.rs:80-125 | Over every interleaving each account counts its outstanding leases, no drop underflows, and no pool outgrows the larger of its limit and its occupancy when last published |
| Admission.AcquireTakesAPlace | src/admission.rs:80-103 | An admission takes one place in the pool of the account, its own once known, and changes no other pool or account |
| Admission.UnpooledIsAdmitted | src/admission.rs:80-103 | Accounts without a pool are always admitted |
| Admission.ReleaseGivesItBack | src/admission.rs:116-125 | A drop gives that place back, and changes nothing else |
| Admission.ReleaseFreesAPlace | src/admission.rs:116-125 | A drop frees a place in a pool that is not over its limit |
| RouteCandidates.ListCandidates | src/app.rs:660-720 | The candidates of the layers, one block after the other |
| RouteCandidates.LayersFollowTheOrder | src/app.rs:660-720 | The layers follow each other in calendar order; without affinity, or with one target, a layer has its targets as drawn and no matches; with it each target carries its match, more matched bytes come first, and equal ones as drawn |
| RouteCandidates.DeepestFirstIsStable | src/app.rs:710-715 | Descending by matched bytes; equal matches keep the drawn order; nothing lost or added |
| RouteCandidates.CandidatesAreTheTargets | src/app.rs:660-720 | The candidates are the targets of the layers, whatever was drawn and matched |
| Routing.Router.Try | src/app.rs:910-967 | Attempts a granted target, once more after an ambiguous rejection, as the upstream answers, and settles a failure |
| Routing.Router.Visit | src/app.rs:882-968 | Lease, decision and attempts for one candidate, as admission and circuit answer in this pass |
| Routing.Router.Pass | src/app.rs:878-968 | One pass over the candidates |
| Routing.Router.Route | src/app.rs:869-980 | The loop ends with a lawful trace of what the rest of the system answers, after which nothing is due; its outcome and fallback reason are those of the trace, a time-out included; a winning stream ends holding permit and lease |
| RoutingRuns.AnswersDetermineTheTrace | src/app.rs:869-980 | For given answers of admission, circuits, upstreams and probes there is only one lawful finished trace |
| RoutingRuns.EventsAreAnswered | src/app.rs:882-980 | In such a trace a candidate is acquired exactly when admitted in its pass, granted or declined as its circuit decides in that pass, each attempt ends as the upstream answers, and another pass begins only when one left something to wait for and its probe settled within the budget |
| RoutingRuns.PassesBracketTheTrace | src/app.rs:869-878 | A request begins with a pass, and is between passes only when one has ended |
| RoutingRuns.WaitingMeansDeclined | src/app.rs:969-980 | A pass leaves something to wait for exactly when one of its candidates was declined so |
| RoutingRuns.OnlyDecisiveAttemptsEnd | src/app.rs:926-965 | Only a success or a failure of the client ends the loop inside a pass |
| RoutingRuns.AmbiguityIsRetried | src/app.rs:939-945 | The first ambiguous rejection of a target is followed by a second attempt |
| RoutingRuns.FirstReasonIs | src/app.rs:882-965 | The reported reason is the first one given: no capacity, a declined or a failed candidate |
| RoutingRuns.LastFailureIs | src/app.rs:946-965 | The reported failure is the last one that was settled |
| RoutingRuns.GrantedAtMostOnce | src/app.rs:883-899 | Each target is selected at most once in all layers and passes |
| RoutingRuns.SecondAttemptsFollowAmbiguity | src/app.rs:939-945 | At most two attempts per target, the second directly after an ambiguous rejection |
| RoutingRuns.EarlierCandidatesPassed | src/app.rs:882-910 | A candidate is looked at only when all earlier ones were attempted, or refused in the same pass |
| RoutingRuns.PassesAreExhaustive | src/app.rs:882-969 | A pass ends only when every candidate was attempted or refused |
| RoutingRuns.NothingFollowsTheEnd | src/app.rs:926-965 | Nothing follows a success or a failure without fallback but its settlement and release |
| RoutingRuns.LeasesAndPermitsBalance | src/app.rs:1316-1397 | In every lawful trace, a target's lease and permit are outstanding exactly as its stage says |
| RoutingRuns.OnlyWinningStreamsHold | src/app.rs:1354-1366 | In the trace of a request that is done only a winning stream still holds them |
| RoutingWorld.TurnsAreEnabled | src/app.rs:882-968 | Whatever the request may do next is a step the admission gate or the circuit breaker of its target can make |
| RoutingWorld.UnfinishedGoesOn | src/app.rs:869-980 | Until the loop has stopped or a stream has won there always is such a step that the gate and the circuit answer, with any result of an attempt that is due |
| RoutingWorld.RunsBalance | src/app.rs:869-980 | With the gate and the circuits as modelled, and other requests, publications and settlements in any interleaving, every outstanding lease and permit is another request's or the one the stage of this request says it holds |
| RoutingWorld.DoneHoldsNothing | src/app.rs:1307-1409 | When the request is done every account counts just the running work of others, with one more for the target of a winning stream, and every circuit just the permits of others, with one more likewise |
| Sse.Encode | src/sse.rs:32-46 | The text of an event |
| Sse.ParseFrame | src/sse.rs:118-142 | The event of a frame, or none without data |
| SseFrames.FrameSays | src/sse.rs:118-142 | For every text: an event exactly when a line begins with data:, its data the values of those lines in order, its type that of the last event: line; no other line says anything |
| SseFrames.ValueIs | src/sse.rs:126-134 | A value is without white space before it and carriage returns after it, and otherwise whole |
| SseFrames.LinesFrom | src/sse.rs:121-122 | Lines end with a newline, or a carriage return and a newline |
| SseFrames.DataJoin | src/sse.rs:135-141 | Data lines are joined with a newline between any two |
| Sse.Find | src/sse.rs:105-116 | The first occurrence of a pattern in the buffer, or none when there is none |
| Sse.SseDecoder.NextEvent | src/sse.rs:71-102 | The next event, the end or the error, and what stays in the buffer |
| SseStreams.OutputsOfRest | src/sse.rs:71-102 | For every stream and chunking, the decoder fails exactly when some chunk does not fit beside the unfinished frame, and otherwise returns the events of the frames it cuts chunk by chunk |
| SseStreams.OutputsUntilFailure | src/sse.rs:71-102 | A stream that times out, breaks or exceeds two mebibytes yields the events of the frames that had ended, and then the error that says so |
| SseStreams.CutsExtend | src/sse.rs:105-116 | Later bytes only continue the unfinished frame |
| SseStreams.DrainedLeavesSame | src/sse.rs:105-116 | The preference for blank CRLF lines changes the frames of a buffer, but not what is left unread |
| SseChunking.ChunkingIsIrrelevantIff | src/sse.rs:71-116 | All chunks that fit cut a stream into the same frames exactly when, after each frame, no blank LF line comes before a blank CRLF line that fits into the same buffer |
| SseChunking.DecodingIgnoresChunking | src/sse.rs:71-102 | Such a stream decodes without error exactly when each chunk fits, and then to the events of the whole stream |
| SseChunking.OneKindIsUnmixed | src/sse.rs:105-116 | Streams with blank lines of one kind only, LF or CRLF, are such streams |
| SseRoundTrips.EventsRoundTrip | src/sse.rs:32-46 | Representable events come back from their concatenated encodings |
| SseRoundTrips.ChunkedEventsRoundTrip | src/sse.rs:71-102 | and from any chunking of them that fits |
| SseRoundTrips.RoundTripIffRepresentable | src/sse.rs:118-142 | An event comes back exactly when its data is nonempty without a final newline or a line that starts with white space or ends with a carriage return, and its name is one such line |
| SseRoundTrips.MixedLineEndsDependOnChunking | src/sse.rs:105-116 | A blank LF line and a blank CRLF line end two events in two chunks, and one event, with other data, in one chunk |

## Left out

- Store.StatsStore.EnsureStatsSchema: two start-ups at the same time are not modelled; the code keeps its progress marker in memory between batches and runs one start-up per process.
- StoreQueries.OneBucketCounts: rounding down within an hour of the smallest 64-bit time, which overflows in the code, is rounding of an unbounded integer here.
- StoreTheorems.AttemptCountersAddUp: provider costs are floating-point sums that depend on order and are not modelled.
- StoreRebuild.RebuildNeverFails: a batch of attempts also fails in the code when a floating-point cost sum becomes infinite; costs are not modelled, and only the integer totals are shown to fit.
- Store.StatsStore.RecordRequest: fields that no rollup reads are one string, and equal contents stand for equal stored bytes; record ids are numbers in key order.
- Renaming a backend rewrites ledger rows without rebuilding rollups and is not a step of store runs; replacing derived tables of an older layout when the database is opened is left out too.
- The upstream error scan, request pages, alerts and other state tables of the store: reads and writes of one table.
- AffinityIndex.AffinityIndex.Observe: the keyed hash that names leases is a parameter; properties that need it to identify domain and path say so. Calls that never return are outside its contract: ObserveHangsIff says exactly which those are.
- AffinityIndex.AffinityIndex.EvictOldest: states in which the loop never ends are outside its contract, for the same reason.
- Fingerprint.MakePath: BLAKE3 is a parameter; ordinals beyond 32 bits are not wrapped.
- Circuit.CircuitBreaker.DecideAt: the watch channel that wakes followers is left out; Retry-After has millisecond granularity; the generation counter is unbounded where the code wraps at 64 bits.
- CircuitRuns.ProbeIsExclusive: it is about one breaker object, and a restart drops all permits. A reload inside the process that changes a target's identity and back loads a second breaker from the same stored state while requests may still hold permits of the first; that is left out.
- AnthropicStream.ChatToAnthropicStream.Translate: usage counters and message ids are left out of chunks and events; JSON is replaced by datatypes.
- ResponsesHistory.TranslateInputItems: images, tool schemas, format options and generated ids for calls without one are left out.
- The other Responses translators, whose output indices shift when a call precedes text, and the nonstream message translators.
- Calendar.At: local weekday and second of day are inputs; time zones and daylight saving belong to a library. Error texts are left out.
- Pricing.New: rates are real numbers or not finite; rounding plays no part.
- Selector.RandomSelector.Order: the seed is an input, and the atomic update of the shared state is one step.
- RoutingWorld.RunsBalance: a request that is dropped before it is done, and a restart of the process under it, are left out.
- Routing.Router.Route: the wait for a probe is bounded by a number of wake-ups instead of a duration; alerts, metadata and the HTTP response are left out.
- RouteCandidates.ListCandidates: how a prompt is turned into bytes and looked up is a parameter that gives the matched length.
- Sse.SseDecoder.NextEvent: decoding of UTF-8 with replacement is a parameter; round trips assume that it decodes valid text.
- Provider adapters, configuration files, the workspace, the dashboard and the command line tools: tables, input and output.
