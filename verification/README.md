# Cronos app-side mempool and database tools, modelled in Dafny

Cronos keeps its own transaction pool beside CometBFT and ships tools that migrate and patch node
databases. This project models the stateful core of both and proves what it promises.

**Mempool and proposals.** A recheck worker coalesces triggers through a one-slot channel whose
value is the gate of the pending run; proposals wait on that gate (`RecheckWorker`). Consensus
stages senders while recheck cycles drain them (`Staging`). A cycle evicts by timeout and age,
selects in two passes, caps the batch and carries the rest (`Manager`). `Rechecks` puts the three
together. Around them stand an LRU
encode cache with a hash computed outside the lock (`EncoderCache`), a sharded LRU decode cache
(`DecodeCache`), an epoch-validated snapshot (`PendingCache`), a gossip throttle and reap scan
(`Gossip`, sized by `ProtoSize`), the block builder (`Proposal`) and the blocklist check
(`BlockList`).

**Databases.** Keys in byte order and prefix scans (`Keys`), heights in keys and the ranges that
replace a full scan (`HeightFilter`), patching of a blockstore (`Patch`) and of a tx_index
(`TxKeys`, `PatchTxIndex`, `TxIndexRuns`), and migration with its check (`Migrate`). Each batched, strategy-driven loop is
proved equal to a plain overlay of maps.

Where goroutines interleave, the code is a transition system whose steps are the critical
sections and channel operations, and results hold for every run. Loops and in-place updates are
methods on classes, specified by functions on values about which the lemmas speak.

What the model takes as given: transactions, hash functions, decoders, decryption, JSON, bech32
and recheck verdicts are arbitrary functions; the clock, user answers, failing reads and writes,
and the moment from which batch writes fail are parameters; a pool snapshot has no duplicates;
iterators yield keys in ascending byte order. A read or a batch insertion of a key fails always
or never within one run.

Where code and documentation disagree, the model follows the code:

- `HashTx` says it returns the hash of its argument (`app/mempool/encoder_cache.go:107-109`); it returns
  the hash on the entry if there is one (`HashAnswerExact`, `StaleArgument`).
- The tx_index range is a bound after all digits and '/' (`cmd/cronosd/dbmigrate/height_filter.go:420`);
  `Sscanf` also accepts multi-byte spaces, which sort above '~' (`TxIndexRangeExact`,
  `TxIndexRangeMisses`).
- The key comment describes BH: keys with a hex hash (`cmd/cronosd/dbmigrate/height_filter.go:233`); the
  patch derives them from raw bytes, as modelled.
- `ConflictSkip` is said to skip conflicting keys (`cmd/cronosd/dbmigrate/patch.go:37`); a derived BH:
  entry is written without that check (`SkippingRunKeeps`, `SkipReplacesHash`).
- The event prefix is meant for one transaction (`cmd/cronosd/dbmigrate/patch.go:774`); it has no closing
  separator, and isolates the transaction exactly when no stored key continues its index
  (`EventPrefixExact`, `ScanIsolates`, `EventPrefixOverlaps`).
- "Replace all" and "skip all" are said to end the questions
  (`cmd/cronosd/dbmigrate/patch.go:41-42`); the strategy is reset for every key prefix
  (`AsksAgainExact`, `AnswerForgotten`).
- `ConflictAsk` is said to ask for each conflict (`cmd/cronosd/dbmigrate/patch.go:35`); the later phases
  of a tx_index patch replace without asking (`AskWholeRun`, `AskReplacesResult`).

`dafny verify dfyconfig.toml` verifies the project.

## Model

| member | source | states |
|---|---|---|
| `RecheckWorker.StepInv` | app/mempool/recheck_worker.go:44-125 | every step of every goroutine keeps the protocol invariant: the slot and `ready` agree when the lock is free, each gate is closed, in the slot, in flight or held, and no gate is closed twice |
| `RecheckWorker.RunInv` | app/mempool/recheck_worker.go:44-125 | the invariant holds, and nothing has panicked on a second close, in every state of every interleaving |
| `RecheckWorker.GatesAccountedFor` | app/mempool/recheck_worker.go:16-20 | in every reachable state: lock free and slot full imply `ready` is the slot's gate; `ready` and every gate waited on is closed, in the slot or held by the worker; closed gates are nowhere else; a gate is never both in the slot and held |
| `RecheckWorker.Monotone` | app/mempool/recheck_worker.go:62-81 | closed gates stay closed, quit and done stay set, and the counts of begun and finished runs only grow |
| `RecheckWorker.RecheckRemembers` | app/mempool/recheck_worker.go:44-58 | a `recheck` in progress still knows how many runs had begun when it was called |
| `RecheckWorker.WaitRemembers` | app/mempool/recheck_worker.go:110-125 | a `wait` in progress still knows what it has to see finished |
| `RecheckWorker.FindBegin` | app/mempool/recheck_worker.go:62-81 | if run n begins between two states, the step at which it does exists |
| `RecheckWorker.FindEnd` | app/mempool/recheck_worker.go:62-81 | if run n returns between two states, the step at which it does exists |
| `RecheckWorker.WaitSeesFreshRun` | app/mempool/recheck_worker.go:44-125 | main result: a `wait` that starts after a `recheck` has returned and that is not timed out or cut short by stop returns only after one run of the recheck function has both begun and finished since that `recheck` was called |
| `RecheckWorker.WaitReportsExact` | app/mempool/recheck_worker.go:110-125 | wait reports false if and only if its gate was closed when it stopped waiting |
| `RecheckWorker.FalseMeansFresh` | app/mempool/recheck_worker.go:44-125 | the main result for a caller, who only sees that wait reported false |
| `RecheckWorker.GateIsClosed` | app/mempool/recheck_worker.go:62-107 | main result: every gate handed out is closed within seven steps of the worker, whatever the clients do, so no wait blocks for ever |
| `RecheckWorker.WorkerNotStuck` | app/mempool/recheck_worker.go:62-94 | the worker can step while a gate is open |
| `RecheckWorker.HolderCanStep` | app/mempool/recheck_worker.go:44-58 | whoever holds the mutex can go on |
| `RecheckWorker.StepAfterQuit` | app/mempool/recheck_worker.go:62-107 | once quit is closed no step puts a gate in the slot, and every worker step lowers a measure |
| `RecheckWorker.SlotOnlyDrains` | app/mempool/recheck_worker.go:85-107 | nothing ever enters the slot after quit |
| `RecheckWorker.WorkerCanStep` | app/mempool/recheck_worker.go:62-94 | after quit the worker is never blocked before it is done |
| `RecheckWorker.QuitMeasure` | app/mempool/recheck_worker.go:62-107 | at most seven worker steps remain after quit |
| `RecheckWorker.StopStrandsNobody` | app/mempool/recheck_worker.go:85-125 | after seven worker steps the worker is done, the slot is empty, `ready` is closed and every blocked `wait` can return |
| `RecheckWorker.StopWaits` | app/mempool/recheck_worker.go:97-107 | stop returns only once the worker has exited |
| `Staging.StepAccounted` | app/mempool/manager.go:355-383 | every action keeps the books: staged senders are exactly those of tokens no drain has taken, and a drain takes each waiting token once |
| `Staging.StepCycle` | app/mempool/manager.go:355-373 | a cycle holds `recheckMu` alone, and `deferred` is empty from drain to cap |
| `Staging.RunInv` | app/mempool/manager.go:355-383 | both invariants in every reachable state |
| `Staging.NothingStagedIsLost` | app/mempool/manager.go:116-150 | every staged sender is still staged or was returned by the one drain recorded for it; the cap step never overwrites a carry |
| `Staging.TakenForGood` | app/mempool/manager.go:376-383 | the drain that took a token never changes, and nothing recorded is lost |
| `Staging.ProjectsToWorker` | app/app.go:1637-1677 | forgetting the staging gives a run of the worker protocol, so its theorems apply |
| `Staging.StagedBeforeTriggerIsServed` | app/app.go:1637-1661 | main result: after a `wait` that was not timed out, every sender staged before the trigger was taken by a drain of a cycle that has finished |
| `Rechecks.ProjectsToStaging` | app/mempool/manager.go:355-383 | forgetting what the cycles compute gives a run of the staging protocol |
| `Rechecks.LeaveExtends` | app/mempool/manager.go:355-373 | a cycle that leaves extends the run of cycles by one |
| `Rechecks.StepInv` | app/mempool/manager.go:355-383 | every action keeps cycles, books and the cycle in progress in step with the staging protocol |
| `Rechecks.RunInv` | app/mempool/manager.go:355-383 | cycles, books and the cycle in progress agree with the staging protocol in every reachable state |
| `Rechecks.CyclesAreARun` | app/mempool/manager.go:355-383 | the finished cycles of every interleaving are a run of cycles, each on the senders its drain returned |
| `Rechecks.StagedSendersDealtWith` | app/app.go:1637-1661 | main result: after a wait that was not timed out, for every sender staged before the trigger a finished cycle took it, and each of its transactions in that cycle's snapshot was evicted or is exactly once in the batch or the carry |
| `Rechecks.CarriedIsSettled` | app/mempool/manager.go:457-506 | no starvation in the concurrent system: a carried transaction is rechecked or gone once i / cap further cycles have finished, however staging and triggers interleave |
| `Rechecks.CycleEnds` | app/mempool/manager.go:355-373 | in every reachable state the cycle in progress can take its next step and leaves after at most four, and the worker's run can enter a cycle and return |
| `Rechecks.CycleInputs` | app/mempool/manager.go:355-383 | a cycle works on what was staged when it drained and on the height of the last block committed before |
| `Manager.Cut` | app/mempool/manager.go:496-506 | where the cap falls: never past the end |
| `Manager.Manager.constructor` | app/mempool/manager.go:75-110 | a new manager has nothing staged, deferred or recorded |
| `Manager.Manager.CollectSenders` | app/mempool/manager.go:118-138 | the signers of exactly those bytes that decode |
| `Manager.Manager.StageSkippedSenders` | app/mempool/manager.go:118-138 | adds the signers of the decodable bytes, nothing while decoding is disabled, and touches nothing else |
| `Manager.Manager.StageRecheckSenders` | app/mempool/manager.go:295-318 | records the height of a committed block and, unless decoding is disabled, adds the signers of its decodable bytes |
| `Manager.Manager.DrainStaging` | app/mempool/manager.go:376-383 | returns all that was staged and deferred, and empties both |
| `Manager.Manager.EvictForRecheck` | app/mempool/manager.go:479-493 | removes the transaction and adds it and its signers to the cycle's sets |
| `Manager.Manager.EvictionPass` | app/mempool/manager.go:402-428 | evicts, touches signers and records arrivals as the cycle on values does; what that is, EvictionExact says |
| `Manager.Manager.HasSigner` | app/mempool/manager.go:449-454 | whether a signer is among the senders |
| `Manager.Manager.SelectionPass` | app/mempool/manager.go:436-456 | second pass: which carried transactions are alive, and the survivors that share a sender, in snapshot order |
| `Manager.Manager.FrontLoad` | app/mempool/manager.go:457-474 | the live carry in its order, then the candidates not in the carry |
| `Manager.Manager.SelectTxs` | app/mempool/manager.go:387-475 | both passes together compute `Ordered`, `NewArrival` and the eviction |
| `Manager.Manager.CapRecheckTxs` | app/mempool/manager.go:496-506 | splits the candidates at the cap; the rest is the new carry |
| `Manager.Manager.RunRecheck` | app/mempool/manager.go:509-527 | removes exactly the encodable candidates whose recheck fails |
| `Manager.Manager.RecheckTxs` | app/mempool/manager.go:355-373 | a whole cycle takes the books to the specified next state and removes from the pool exactly what it evicts and what its batch shows to be invalid, for any snapshot; with the early return, and with no effect when rechecking is disabled or there is no pool |
| `Manager.OrderedDistinct` | app/mempool/manager.go:441-474 | no transaction is selected twice |
| `Manager.OwedMeansTouched` | app/mempool/manager.go:441-456 | the independent notion of being owed a recheck agrees with the selection condition, whatever the order of the snapshot |
| `Manager.CyclePartition` | app/mempool/manager.go:387-506 | main result: each owed survivor is exactly once in batch plus carry, nothing else is there, the batch respects the cap and without a cap nothing is carried |
| `Manager.OrderKept` | app/mempool/manager.go:457-495 | batch and carry list the old carry first, in its order, then the snapshot in its order |
| `Manager.CarryDistinct` | app/mempool/manager.go:496-506 | the carry is free of duplicates in every run |
| `Manager.CarryMovesUp` | app/mempool/manager.go:457-474 | a surviving carried transaction is rechecked or moves up by at least the cap |
| `Manager.UnsettledMovesUp` | app/mempool/manager.go:457-506 | a transaction that a cycle does not settle moves up by a whole batch |
| `Manager.SettledWithin` | app/mempool/manager.go:457-506 | it is rechecked or gone within the cycles its position allows |
| `Manager.NoStarvation` | app/mempool/manager.go:457-506 | main result: position i of the carry is settled within i / cap further cycles, whatever arrives meanwhile |
| `Manager.ArrivalWitness` | app/mempool/manager.go:401-427 | a recorded arrival comes from an observed residence |
| `Manager.ArrivalHeight` | app/mempool/manager.go:401-427 | its height is that of the first observation |
| `Manager.ArrivalIsFirstObservation` | app/mempool/manager.go:401-427 | main result: over every run, `arrival` holds exactly the resident transactions, with the height at which residence was first observed |
| `Manager.TtlExact` | app/mempool/manager.go:547-553 | a transaction that has not timed out is TTL-evicted if and only if its residence is at least the TTL old, and no survivor is that old |
| `Manager.TimeoutExact` | app/mempool/manager.go:530-544 | at real heights a transaction is timed out exactly at or after its height or time, and for good |
| `Manager.DeadlineExact` | app/mempool/manager.go:529-543 | the unsigned comparison finds exactly the declared height or time passed, for every int64 height |
| `Manager.EvictionExact` | app/mempool/manager.go:385-455 | main result: over every run a snapshot transaction of a cycle with something to do does not survive if and only if its declared height or time has passed, or a TTL is configured and its unbroken residence is that old |
| `Manager.PoolExact` | app/mempool/manager.go:385-530 | main result: such a cycle leaves in the pool exactly what was there, less the transactions that do not survive and those of its batch that were rechecked and failed |
| `Manager.RunPartition` | app/mempool/manager.go:457-506 | each cycle of a run with something to do puts what it owes once in its batch or the next carry, and a cycle without changes nothing |
| `EncoderCache.EncoderCache.constructor` | app/mempool/encoder_cache.go:33-45 | an empty cache with the defaults for zero and Go's conversion to int |
| `EncoderCache.EncoderCache.Set` | app/mempool/encoder_cache.go:50-71 | acts on the recency list as `SetSpec`: ignores oversized bytes and a nil transaction, replaces and moves to front, else evicts at the cap and inserts |
| `EncoderCache.EncoderCache.Overwrite` | app/mempool/encoder_cache.go:57-63 | the hit branch: one entry updated in place and moved to the front |
| `EncoderCache.EncoderCache.Amend` | app/mempool/encoder_cache.go:58-60 | the update in place: the entry reads the new values and every other entry stays |
| `EncoderCache.EncoderCache.MakeRoom` | app/mempool/encoder_cache.go:64-69 | drops the least recent entry when the cap is reached |
| `EncoderCache.EncoderCache.Insert` | app/mempool/encoder_cache.go:70-71 | a new entry without a hash at the front |
| `EncoderCache.EncoderCache.Evict` | app/mempool/encoder_cache.go:74-84 | removes exactly that entry |
| `EncoderCache.EncoderCache.Promote` | app/mempool/encoder_cache.go:100-100 | moves an entry to the front, values unchanged |
| `EncoderCache.EncoderCache.Get` | app/mempool/encoder_cache.go:90-105 | answers with the stored bytes and makes the entry most recent |
| `EncoderCache.EncoderCache.HashLookup` | app/mempool/encoder_cache.go:115-124 | first critical section of `HashTx` |
| `EncoderCache.EncoderCache.HashStore` | app/mempool/encoder_cache.go:126-139 | hash and second critical section: kept only if the bytes are still those hashed |
| `EncoderCache.EncoderCache.HashTx` | app/mempool/encoder_cache.go:111-140 | both halves without interference: the answer and the new list |
| `EncoderCache.ApplyGood` | app/mempool/encoder_cache.go:50-140 | every operation of any goroutine keeps the list keyed, within the bound and its hashes true, from any such state |
| `EncoderCache.AlwaysGood` | app/mempool/encoder_cache.go:50-140 | main result: in every interleaving, including `Set` or `Evict` and a new `Set` between the halves of `HashTx`, a stored hash is the hash of the stored bytes and the size is at most the cap (or one) |
| `EncoderCache.HashAnswerExact` | app/mempool/encoder_cache.go:107-123 | `HashTx` returns the hash of its argument if and only if the entry carries no hash of other bytes |
| `EncoderCache.StaleArgument` | app/mempool/encoder_cache.go:107-123 | an interleaving in which it returns another hash |
| `EncoderCache.RecentlyUsedSurvives` | app/mempool/encoder_cache.go:50-140 | main result: in every interleaving, if an operation uses a transaction (an admitted Set, or a hit of Get or of either half of HashTx), it is still cached later, with the bytes last admitted and the hash stored since, as long as it was not evicted and fewer than cap other transactions were used since that use |
| `EncoderCache.UsePutsInFront` | app/mempool/encoder_cache.go:57-63 | every kind of use leaves the entry in front, with its new bytes or hash |
| `EncoderCache.NotRecentlyUsedGoes` | app/mempool/encoder_cache.go:64-71 | the converse: without evictions, a transaction not used again is gone once cap others were used |
| `EncoderCache.UsedComeAhead` | app/mempool/encoder_cache.go:57-71 | whatever is used comes ahead of what is not, and stays there |
| `EncoderCache.EvictRemoves` | app/mempool/encoder_cache.go:74-84 | Evict removes that entry and leaves every other as it was |
| `EncoderCache.AbsentUntilSet` | app/mempool/encoder_cache.go:50-140 | what is not cached comes back only through an admitted Set |
| `EncoderCache.HashedOnce` | app/mempool/encoder_cache.go:107-140 | HashTx without interference leaves the hash of the cached bytes behind, so the next one is a hit |
| `EncoderCache.KeptThrough` | app/mempool/encoder_cache.go:50-140 | an entry stays, with a running count of the other transactions used since its own last use |
| `DecodeCache.CacheShard.constructor` | app/mempool/decoder_cache.go:125-128 | an empty shard |
| `DecodeCache.CacheShard.MoveToFront` | app/mempool/decoder_cache.go:69-70 | the entry becomes most recent; map and list stay in bijection |
| `DecodeCache.CacheShard.Get` | app/mempool/decoder_cache.go:58-71 | a hit only when hash and bytes agree, and then the stored transaction, made most recent |
| `DecodeCache.CacheShard.Remove` | app/mempool/decoder_cache.go:84-87 | unlinks one entry from map and list |
| `DecodeCache.CacheShard.EvictBack` | app/mempool/decoder_cache.go:89-93 | drops the last entry at the cap; the list is not empty then |
| `DecodeCache.CacheShard.Set` | app/mempool/decoder_cache.go:73-95 | acts on the recency list as `ShardSet`, collisions included |
| `DecodeCache.SetGood` | app/mempool/decoder_cache.go:73-95 | insertion keeps a shard good: keyed, within its cap, every entry in its own stripe with what the base decoder gives |
| `DecodeCache.EvictStands` | app/mempool/decoder_cache.go:89-93 | eviction spares an entry with fewer than cap hashes used since |
| `DecodeCache.StandsThrough` | app/mempool/decoder_cache.go:58-95 | an entry in front stays listed, with only used hashes ahead of it |
| `DecodeCache.RecentlyUsedIsHit` | app/mempool/decoder_cache.go:58-95 | main result: in every order of use of a shard, bytes found or inserted at one step are still found later with the same transaction, as long as no other bytes of their hash were stored since and fewer than cap other hashes were used since |
| `DecodeCache.UsePutsInFront` | app/mempool/decoder_cache.go:58-95 | a hit or an insertion leaves its entry in front |
| `DecodeCache.UsedComeAhead` | app/mempool/decoder_cache.go:58-95 | whatever is used comes ahead of what is not, and stays there |
| `DecodeCache.NotRecentlyUsedGoes` | app/mempool/decoder_cache.go:89-93 | the converse: once cap other hashes were used, a hash not used again is gone |
| `DecodeCache.CollisionReplaces` | app/mempool/decoder_cache.go:84-87 | other bytes of the same hash, once stored, replace the entry at once |
| `DecodeCache.ShardCap` | app/mempool/decoder_cache.go:109-130 | positive; sixteen of them reach the size, unless that overflows an int, and exceed it by less than sixteen |
| `DecodeCache.DecodeCache.constructor` | app/mempool/decoder_cache.go:109-130 | sixteen empty good shards |
| `DecodeCache.DecodeCache.Get` | app/mempool/decoder_cache.go:132-135 | the lookup in the stripe of the hash |
| `DecodeCache.DecodeCache.Set` | app/mempool/decoder_cache.go:137-143 | the insertion there, unless the bytes are too long |
| `DecodeCache.DecodeCache.Decode` | app/mempool/decoder_cache.go:147-159 | the caching decoder returns what the base decoder returns and caches a success |
| `DecodeCache.ApplyInv` | app/mempool/decoder_cache.go:58-95 | every critical section of every goroutine keeps the invariant |
| `DecodeCache.CachingDecoderIsBase` | app/mempool/decoder_cache.go:147-159 | main result: in every interleaving each answer equals the base decoder's, whatever the hash function, and the total size stays below the size plus sixteen |
| `DecodeCache.RunProjects` | app/mempool/decoder_cache.go:132-143 | each shard, in every interleaving, is the shard after its own operations |
| `DecodeCache.RecentlyDecodedIsCached` | app/mempool/decoder_cache.go:147-159 | main result: in every interleaving, bytes found or stored at one step are answered from the cache later, under the condition of RecentlyUsedIsHit for their stripe |
| `DecodeCache.MissIsStored` | app/mempool/decoder_cache.go:147-159 | a call that misses ends with its success in the cache, if the bytes are short enough |
| `PendingCache.StepInv` | app/mempool/pending_cache.go:23-51 | every step of readers, pool changes and invalidates keeps the invariant |
| `PendingCache.RunInv` | app/mempool/pending_cache.go:23-51 | the invariant in every reachable state |
| `PendingCache.AnswersAreFresh` | app/mempool/pending_cache.go:23-40 | main result: an answer was loaded no earlier than the last invalidate before its epoch read whenever fewer than 2^64 invalidates lie between load and read, and then none does |
| `PendingCache.HitExact` | app/mempool/pending_cache.go:23-40 | in every run a reader reuses the snapshot if and only if one is stored and the invalidates since its epoch are a multiple of 2^64, and walks the pool otherwise |
| `PendingCache.LoadIsReused` | app/mempool/pending_cache.go:23-40 | a read with no invalidate and no other load since is handed the snapshot of the last load |
| `PendingCache.InvalidatesCount` | app/mempool/pending_cache.go:49-51 | the effect of n invalidates |
| `PendingCache.WrapServesStale` | app/mempool/pending_cache.go:23-51 | after exactly 2^64 invalidates a reader is handed the old snapshot |
| `PendingCache.StaleAnswerReached` | app/mempool/pending_cache.go:23-51 | a run from the start ends with such a stale answer |
| `ProtoSize.SovLenIsVarintLength` | app/mempool/helpers.go:63-67 | the bit formula is the length of the base-128 varint, for every number |
| `ProtoSize.SizesAddUp` | app/mempool/helpers.go:53-61 | the summed sizes are the length of the encoded repeated field |
| `ProtoSize.ReadsBackVarint` | app/mempool/helpers.go:63-67 | the varint whose length is measured reads back as the number |
| `ProtoSize.RoundTrip` | app/mempool/helpers.go:53-61 | the encoding that is measured decodes to the same transactions |
| `Gossip.GossipTracker.constructor` | app/mempool/gossip.go:22-30 | an empty tracker, with the default for a non-positive ttl |
| `Gossip.GossipTracker.Gossiped` | app/mempool/gossip.go:35-43 | allowed unless sent within the ttl; an allowed send is recorded |
| `Gossip.GossipTracker.Prune` | app/mempool/gossip.go:47-55 | forgets exactly the expired hashes |
| `Gossip.Reap` | app/mempool/reap.go:36-70 | the loop with unsigned counters gives what the scan in unbounded arithmetic gives: nothing that matters wraps or underflows; what that is, ReapExact says |
| `Gossip.ReapWithin` | app/mempool/reap.go:36-70 | the result is a subsequence of the snapshot within the byte, gas and count caps |
| `Gossip.HaltsExact` | app/mempool/reap.go:36-70 | the scan ends early if and only if the count cap is reached or an encodable transaction exceeds a positive byte or gas cap beside what was sent before it |
| `Gossip.ReapExact` | app/mempool/reap.go:36-70 | main result: a transaction is sent if and only if it can be encoded, its hash was not sent within the ttl nor earlier in this reap, and no cap stands before it; in snapshot order, and exactly those are marked as sent |
| `Gossip.UncappedReap` | app/mempool/reap.go:36-70 | without caps a reap sends exactly the first occurrence of every hash not sent within the ttl |
| `Gossip.ScanAgrees` | app/mempool/reap.go:36-70 | two trackers that agree on what is not expired give the same reap |
| `Gossip.NextInv` | app/mempool/gossip.go:35-55 | one reap keeps the pruned tracker in agreement with one that keeps everything |
| `Gossip.RunInv` | app/mempool/gossip.go:35-55 | the pruned tracker agrees with one that keeps everything in every run whose clock does not go back |
| `Gossip.PruningInvisible` | app/mempool/gossip.go:47-55 | main result: pruning never changes what a reap sends |
| `Gossip.SendsAreSpaced` | app/mempool/gossip.go:35-43 | main result: over every run two sends of one hash are at least the ttl apart |
| `Gossip.ThrottleExact` | app/mempool/gossip.go:35-55 | main result: over every run a hash is held back if and only if it was sent within the ttl, and after a reap the tracker remembers exactly the hashes sent that lately |
| `BlockList.ProposalHandler.constructor` | app/proposal.go:200-208 | an empty list |
| `BlockList.ProposalHandler.BuildList` | app/proposal.go:238-253 | the canonical texts of the addresses that may be blocked, or failure at the first bad one |
| `BlockList.ProposalHandler.SetBlockList` | app/proposal.go:210-261 | applies a blob, keeps everything on failure, and skips an unchanged one |
| `BlockList.ProposalHandler.CheckAddr` | app/proposal.go:286-294 | an address passes when its text is not listed |
| `BlockList.ProposalHandler.CheckAuths` | app/proposal.go:310-332 | all addresses of all authorizations pass |
| `BlockList.ProposalHandler.CheckMsg` | app/proposal.go:296-334 | all addresses of a message pass |
| `BlockList.ProposalHandler.ValidateTransaction` | app/proposal.go:263-337 | accepts exactly the transactions none of whose addresses is listed |
| `BlockList.ProposalHandler.ProcessProposal` | app/proposal.go:339-354 | accepts exactly when every transaction is accepted |
| `BlockList.ListedExact` | app/proposal.go:238-253 | a list is accepted if and only if every name is good, and then holds exactly the texts of the named addresses |
| `BlockList.ListIsLastGood` | app/proposal.go:210-261 | after any history the list is the meaning of the last blob that applied; without an identity it stays empty |
| `BlockList.UnblockableNeverListed` | app/proposal.go:244-246 | after any history no unblockable address is listed |
| `BlockList.AppliesExact` | app/proposal.go:218-253 | a blob can be applied if and only if it is empty, or decrypts and parses to names that can all be read |
| `BlockList.ListExact` | app/proposal.go:210-261 | after any history the list holds exactly the texts spelled by the last blob that can be applied |
| `BlockList.UpdateReports` | app/proposal.go:210-261 | an update succeeds if and only if the blob can be applied or the node has no identity |
| `BlockList.MentionsExact` | app/proposal.go:274-334 | the addresses checked are the signers, destinations, authorities and authorised codes |
| `BlockList.AcceptedExact` | app/proposal.go:263-337 | main result: after any history a transaction is accepted if and only if the blob in force lists nothing, or its signers can be read and every address it names can be spelled and is not listed by that blob |
| `BlockList.AcceptsBefore` | app/proposal.go:210-265 | without an identity, or before a blob could be applied, every transaction is accepted |
| `Proposal.ExtTxSelector.constructor` | app/proposal.go:50-52 | a blank selector |
| `Proposal.ExtTxSelector.Clear` | app/proposal.go:60-66 | blank again, without losing the skipped bytes |
| `Proposal.ExtTxSelector.DrainGateSkipped` | app/proposal.go:70-74 | hands out the skipped bytes once |
| `Proposal.ExtTxSelector.GateBaseFee` | app/proposal.go:122-127 | one base fee for the whole proposal, fetched once |
| `Proposal.ExtTxSelector.IsGated` | app/proposal.go:91-106 | the gate decides on fee transactions only, with one base fee |
| `Proposal.ExtTxSelector.IsFull` | app/proposal.go:78-80 | the machine counters decide fullness as the true sums do |
| `Proposal.ExtTxSelector.FitsBytes` | app/proposal.go:86-89 | the byte test does not overflow |
| `Proposal.ExtTxSelector.Take` | app/proposal.go:108-118 | adds within the gas limit, without unsigned underflow; what is added, ChosenExact says |
| `Proposal.ExtTxSelector.ScreenOffer` | app/proposal.go:82-106 | validity, the byte budget and the gate, in that order |
| `Proposal.ExtTxSelector.Consider` | app/proposal.go:82-118 | the decision on one offer is `Choose` |
| `Proposal.ExtTxSelector.SelectTxForProposal` | app/proposal.go:76-119 | that decision, and whether to stop |
| `Proposal.QuoBelow` | app/proposal.go:96-100 | a floored quotient is below q exactly when the dividend is below q times the divisor |
| `Proposal.GateExact` | app/proposal.go:93-106 | the gate's floor division refuses a fee transaction exactly when its fee is below base fee times gas |
| `Proposal.ChosenWithinLimits` | app/proposal.go:76-119 | the sums over the selected transactions stay within both limits for every sequence of offers |
| `Proposal.ChosenPay` | app/proposal.go:76-119 | every selected transaction was offered, is valid and pays the base fee |
| `Proposal.UnderpaysIsGated` | app/proposal.go:93-106 | the gate strands exactly the fee transactions that pay less than the fetched base fee times their gas |
| `Proposal.ChosenExact` | app/proposal.go:76-119 | main result: for every sequence of offers, exactly those are selected that are valid, pay, and fit in bytes and gas beside what was selected before them; exactly those are stranded that are valid and fit in bytes but underpay; both in order |
| `Proposal.FullExact` | app/proposal.go:77-80 | the block is full if and only if a budget is used up exactly |
| `Proposal.FullTakesNothing` | app/proposal.go:77-80 | a full block takes nothing more, but for transactions without gas when only gas ran out |
| `Proposal.FullForGood` | app/proposal.go:77-80 | once full, full for good |
| `Proposal.MempoolProposalHandler.constructor` | app/proposal.go:137-144 | nothing staged yet |
| `Proposal.MempoolProposalHandler.OfferAll` | app/proposal.go:150-158 | offers are made up to the first that fills the block, or to the last |
| `Proposal.MempoolProposalHandler.PrepareProposal` | app/proposal.go:150-165 | a round selects from a prefix of the offers, stops only when full, stages this round's skipped bytes once and in order if the round succeeded, and leaves the selector blank |
| `Proposal.HonestProposalAccepted` | app/proposal.go:82-118 | every transaction selected with the blocklist check is accepted by a validator with the same list, if the bytes decode back |
| `Proposal.ProposeAndProcess` | app/proposal.go:150-165 | main result: the block an honest proposer returns makes the validator's ProcessProposal return true |
| `Keys.IncrementBytes` | cmd/cronosd/dbmigrate/patch.go:734-755 | the carry loop on a private copy computes `Incremented` |
| `Keys.IncrementedIsNext` | cmd/cronosd/dbmigrate/patch.go:734-755 | the bound is the next big-endian number of the same length, and there is none exactly when all bytes are 0xFF |
| `Keys.PrefixBelowIncremented` | cmd/cronosd/dbmigrate/patch.go:734-755 | every key with the prefix is below the bound, carries included |
| `Keys.PastPrefix` | cmd/cronosd/dbmigrate/patch.go:797-800 | a key at or after the prefix without it is above every key with it |
| `Keys.BreakLosesNothing` | cmd/cronosd/dbmigrate/patch.go:797-800 | stopping at the first key without the prefix loses no key |
| `Keys.ScanPrefix` | cmd/cronosd/dbmigrate/patch.go:778-800 | main result: the bounded scan with its early break visits exactly the keys with that byte prefix, also when 0xFF bytes widen the bound or leave none |
| `HeightFilter.FindEnd` | cmd/cronosd/dbmigrate/height_filter.go:257-262 | the index loop finds the end of the height |
| `HeightFilter.ExtractHeightFromBlockstoreKey` | cmd/cronosd/dbmigrate/height_filter.go:235-310 | the branches over the prefixes compute `BlockstoreHeight` |
| `HeightFilter.ExtractHeightFromTxIndexKey` | cmd/cronosd/dbmigrate/height_filter.go:316-348 | computes `TxIndexHeight` |
| `HeightFilter.RangeExact` | cmd/cronosd/dbmigrate/height_filter.go:28-42 | both ends belong to a range, an end of 0 is open, listed heights override it, and a closed range selects what listing its heights would |
| `HeightFilter.SpaceLenExact` | cmd/cronosd/dbmigrate/height_filter.go:316-348 | text that starts with the UTF-8 encoding of a space character is skipped by that many bytes |
| `HeightFilter.SpaceLenOnly` | cmd/cronosd/dbmigrate/height_filter.go:316-348 | and no other text is |
| `HeightFilter.ScanIntExact` | cmd/cronosd/dbmigrate/height_filter.go:316-348 | a height is read from space, an optional sign and the longest run of digits, if its value fits an int64 |
| `HeightFilter.ScanIntOnly` | cmd/cronosd/dbmigrate/height_filter.go:316-348 | and from nothing else |
| `HeightFilter.RangeIsPrefix` | cmd/cronosd/dbmigrate/height_filter.go:381-410 | a range that ends in the next byte is exactly a prefix |
| `HeightFilter.ColonRangeIsPrefix` | cmd/cronosd/dbmigrate/height_filter.go:381-410 | for each of the five ranges |
| `HeightFilter.RangesDisjoint` | cmd/cronosd/dbmigrate/height_filter.go:381-410 | no key lies in two of the five |
| `HeightFilter.HeightKeyInOneRange` | cmd/cronosd/dbmigrate/height_filter.go:235-310 | every blockstore key with a height lies in exactly one of the five ranges |
| `HeightFilter.RangesRefineFullScan` | cmd/cronosd/dbmigrate/height_filter.go:381-410 | main result: the five filtered scans select exactly what filtering the whole store would |
| `HeightFilter.HashKeyInNoRange` | cmd/cronosd/dbmigrate/height_filter.go:381-410 | BH: keys are never scanned |
| `HeightFilter.TxIndexRangeExact` | cmd/cronosd/dbmigrate/height_filter.go:413-423 | a tx_index key with a height is in the scanned range if and only if the byte after tx.height/ is below '~' |
| `HeightFilter.TxIndexRangeMisses` | cmd/cronosd/dbmigrate/height_filter.go:413-423 | a key with a height outside the range: a no-break space before the digit |
| `HeightFilter.ScanBack` | cmd/cronosd/dbmigrate/height_filter.go:316-348 | a height written in decimal is read back |
| `HeightFilter.CanonicalKeys` | cmd/cronosd/dbmigrate/height_filter.go:225-348 | the height of every key CometBFT writes is read back, for all six kinds |
| `HeightFilter.ExtractBlockHashFromMetadata` | cmd/cronosd/dbmigrate/height_filter.go:428-467 | the loop returns the first recognised hash field, or none |
| `HeightFilter.HashAtExact` | cmd/cronosd/dbmigrate/height_filter.go:446-463 | a hash is recognised at an offset if and only if the bytes there are tag, length, tag, hash length and hash, with all bounds |
| `HeightFilter.FirstHashExact` | cmd/cronosd/dbmigrate/height_filter.go:428-467 | the hash found is the one at the first offset that has one, and none if no offset has |
| `HeightFilter.LeadingBlockId` | cmd/cronosd/dbmigrate/height_filter.go:428-467 | metadata that begins with a block id yields that hash |
| `Patch.Resolve` | cmd/cronosd/dbmigrate/patch.go:958-1004 | each key is copied, an error or skipped, and exactly one of these if it is chosen; which, PlanExact says |
| `Patch.Target.constructor` | cmd/cronosd/dbmigrate/patch.go:104-120 | the opened target |
| `Patch.Target.Write` | cmd/cronosd/dbmigrate/patch.go:1087-1090 | a batch is written whole or not at all |
| `Patch.Stats.constructor` | cmd/cronosd/dbmigrate/patch.go:129-131 | counters start at zero |
| `Patch.EntriesExact` | cmd/cronosd/dbmigrate/patch.go:1036-1064 | a copied key adds itself and its BH: entry, with the source's values |
| `Patch.PlanAdds` | cmd/cronosd/dbmigrate/patch.go:1095-1196 | a plan writes only scanned keys and BH: keys, each with the source's value for that key |
| `Patch.PatchSingleKey` | cmd/cronosd/dbmigrate/patch.go:1007-1076 | the batch gains exactly those entries; only the key's own failure is an error; a dry run adds nothing |
| `Patch.PatchKey` | cmd/cronosd/dbmigrate/patch.go:1110-1143 | the loop body makes the planned decision and counts it |
| `Patch.PatchNext` | cmd/cronosd/dbmigrate/patch.go:1110-1148 | one turn of the loop extends the plan by one key |
| `Patch.FlushBatched` | cmd/cronosd/dbmigrate/patch.go:1147-1155 | a flush moves the batch to the target and changes nothing else |
| `Patch.WriteAndResetBatch` | cmd/cronosd/dbmigrate/patch.go:1079-1093 | writes and empties the batch, or keeps both in a dry run or on failure |
| `Patch.PatchWithIterator` | cmd/cronosd/dbmigrate/patch.go:1095-1196 | carries out the plan of its keys for every batch size; on failure only source values have been written; a dry run leaves the target alone either way |
| `Patch.PlanAllAdds` | cmd/cronosd/dbmigrate/patch.go:285-306 | over all iterators a plan writes only scanned keys and BH: keys, each with the source's value |
| `Patch.PatchBlockstoreData` | cmd/cronosd/dbmigrate/patch.go:285-306 | the iterators in turn carry out one plan, each from the configured strategy; a dry run leaves the target alone, also when an iterator fails |
| `Patch.PlanAccounts` | cmd/cronosd/dbmigrate/patch.go:204-244 | processed, errors and skipped add up to the counted keys of an iterator |
| `Patch.PlanAllAccounts` | cmd/cronosd/dbmigrate/patch.go:204-244 | processed, errors and skipped add up to the counted keys of all iterators; a run with nothing to do does nothing |
| `Patch.CountKeysForPatch` | cmd/cronosd/dbmigrate/patch.go:204-244 | the nested loops count the chosen keys |
| `Patch.BlockstoreScannable` | cmd/cronosd/dbmigrate/height_filter.go:381-410 | over the five ranges no key is scanned twice or derived |
| `Patch.PatchDatabase` | cmd/cronosd/dbmigrate/patch.go:123-201 | main result: the target ends as the original overlaid with the plan, whatever the batch size; total = processed + errors + skipped on success, early return included; on failure every key is old or the source's; a dry run never changes the target |
| `Patch.DryRunPredicts` | cmd/cronosd/dbmigrate/patch.go:1007-1034 | over one iterator a dry run counts, skips and asks exactly what the real run does when no batch write fails |
| `Patch.DryRunPredictsAll` | cmd/cronosd/dbmigrate/patch.go:285-306 | over all iterators, the strategy reset for each, a dry run has the counters and prompts of the real run |
| `Patch.DryRunPredictsRun` | cmd/cronosd/dbmigrate/patch.go:123-201 | main result: a whole dry run plans no write and predicts every counter and prompt of the real run when no batch write fails |
| `Patch.SettledExact` | cmd/cronosd/dbmigrate/patch.go:958-1004 | when nothing is asked: exactly which keys one iterator writes |
| `Patch.SettledAllExact` | cmd/cronosd/dbmigrate/patch.go:285-306 | when nothing is asked: exactly which keys the iterators together write |
| `Patch.RunExact` | cmd/cronosd/dbmigrate/patch.go:123-201 | main result: with a settled strategy the keys written are exactly the source keys of the chosen heights that are copied and the BH: keys derived from them, with no trace of ranges, iterators or batches |
| `Patch.SettledRunExact` | cmd/cronosd/dbmigrate/patch.go:123-201 | the same for every range, the empty one included, said of prefixes, heights, failures and the strategy |
| `Patch.SkipKeepsExisting` | cmd/cronosd/dbmigrate/patch.go:1036-1064 | under the skip strategy an existing key is overwritten if and only if it is the BH: entry of an H: key that the target lacks |
| `Patch.SkippingRunKeeps` | cmd/cronosd/dbmigrate/patch.go:1036-1064 | the same for the whole run over the five ranges: an existing key is overwritten if and only if it is the BH: entry of a copied source key that the target lacks |
| `Patch.SkipReplacesHash` | cmd/cronosd/dbmigrate/patch.go:1036-1064 | such a case, for any hash |
| `Patch.AskIsStanding` | cmd/cronosd/dbmigrate/patch.go:1200-1249 | within one iterator, asking a user who always replaces is the replace strategy and asking one who never does is the skip strategy, in writes and counts, however answers for one key and for all are mixed, and also when the input ends |
| `Patch.AskAllIsStanding` | cmd/cronosd/dbmigrate/patch.go:285-306 | for a whole run over all iterators, asking a user who always answers alike is the standing strategy, in writes and counts |
| `Patch.PromptsExact` | cmd/cronosd/dbmigrate/patch.go:958-1004 | an iterator that starts by asking prompts if and only if it meets a conflict |
| `Patch.AsksAgainExact` | cmd/cronosd/dbmigrate/patch.go:1107-1108 | an answer for all lasts to the end of its iterator: the run asks again if and only if a later iterator meets a conflict, whatever was answered |
| `Patch.AnswerForgotten` | cmd/cronosd/dbmigrate/patch.go:1107-1108 | for any two of the five ranges, a whole blockstore run in which a key is skipped after the user said to replace all |
| `Patch.Deciding` | cmd/cronosd/dbmigrate/patch.go:1200-1249 | the answer that decides a conflict: the first answer for all before it, or else its own |
| `Patch.PlanExact` | cmd/cronosd/dbmigrate/patch.go:958-1249 | main result: for any answers, conflict m of an iterator is decided by answer m, or by the first answer for all before it, after which nothing more is asked; processed, errors, skipped, asked and the strategy follow as counts |
| `Patch.PlanWrites` | cmd/cronosd/dbmigrate/patch.go:958-1249 | and the keys written are exactly those decided so, with the BH: entries they lead to |
| `Patch.HashEntryExact` | cmd/cronosd/dbmigrate/patch.go:1041-1064 | the BH: entry of an H: key is that of the first hash recognised in its metadata, if it can be read and set |
| `Patch.FlushKeys` | cmd/cronosd/dbmigrate/patch.go:1147-1155 | a flush after some keys keeps the loop in step with their plan |
| `TxKeys.CanonicalTxKey` | cmd/cronosd/dbmigrate/patch.go:310-345 | height and index of every key CometBFT writes, with or without an event sequence number, are read back from the first and the third part |
| `TxKeys.Spelled` | cmd/cronosd/dbmigrate/height_filter.go:225-323 | the key constants are the texts the code uses |
| `TxKeys.FormatPrefix` | cmd/cronosd/dbmigrate/patch.go:774-779 | the decimal form of i starts that of j if and only if dropping last digits leads from j to i |
| `TxKeys.EventPrefixExact` | cmd/cronosd/dbmigrate/patch.go:774-779 | main result: the prefix of one transaction matches an event key of another if and only if hash and height agree and the other's index continues the digits of this one's |
| `TxKeys.EventKeyReadsOnce` | cmd/cronosd/dbmigrate/patch.go:757-762 | a key is the event key of one transaction only |
| `TxKeys.PrefixHash` | cmd/cronosd/dbmigrate/patch.go:774-779 | a key with the prefixes of two transactions whose hashes contain no slash has one hash |
| `TxKeys.ScanIsolates` | cmd/cronosd/dbmigrate/patch.go:774-800 | a scan finds only the transaction's own event keys if and only if no stored one of that hash and height has another index that continues its digits, and it finds all of its own |
| `TxKeys.FirstIndexIsolated` | cmd/cronosd/dbmigrate/patch.go:774-779 | index 0 is always isolated |
| `TxKeys.EventPrefixOverlaps` | cmd/cronosd/dbmigrate/patch.go:774-779 | any other index is not, once index 10i + d is stored |
| `PatchTxIndex.FlushTx` | cmd/cronosd/dbmigrate/patch.go:659-671 | a flush of any of the three phases |
| `PatchTxIndex.StageKey` | cmd/cronosd/dbmigrate/patch.go:612-657 | one key of phase 2 or 3: its effect on the batch, and exactly one count, copied, failed or passed over as what the target then holds decides |
| `PatchTxIndex.TurnMeets` | cmd/cronosd/dbmigrate/patch.go:612-657 | a turn taken against a partly flushed target is the one expected: surely present keys are found, unsure ones found if flushed, others never |
| `PatchTxIndex.PutKey` | cmd/cronosd/dbmigrate/patch.go:612-672 | one key of phase 2 or 3 with its flush: effect, count and error; with a batch size of one nothing stays behind |
| `PatchTxIndex.PutHash` | cmd/cronosd/dbmigrate/patch.go:599-673 | one transaction hash, read failures of the source included: effect, count and error |
| `PatchTxIndex.HashTurn` | cmd/cronosd/dbmigrate/patch.go:599-673 | one turn of the loop of phase 2 keeps its state: keys written, batch and counters |
| `PatchTxIndex.FinishPhase` | cmd/cronosd/dbmigrate/patch.go:675-684 | the last write of a phase leaves everything in the target and adds the pending batch to the processed keys |
| `PatchTxIndex.PatchTxHashKeys` | cmd/cronosd/dbmigrate/patch.go:590-692 | phase 2 for repeated hashes and partly flushed batches: the set written, the errors and the sum of processed and skipped depend on neither; the skipped lie between the surely present and those plus the unsure, with equality above for batches of one and below when one batch holds all |
| `PatchTxIndex.HashWritesExact` | cmd/cronosd/dbmigrate/patch.go:590-692 | exactly which hashes phase 2 writes |
| `PatchTxIndex.ScanEventKeys` | cmd/cronosd/dbmigrate/patch.go:781-800 | exactly the source keys with the event prefix; only the transaction's own exactly when no stored key continues its index |
| `PatchTxIndex.KeyTurn` | cmd/cronosd/dbmigrate/patch.go:793-890 | one turn of the loop over event keys keeps its state |
| `PatchTxIndex.PutEventKeys` | cmd/cronosd/dbmigrate/patch.go:793-890 | the event keys of one transaction: keys written, errors, and the processed and skipped counts as expected |
| `PatchTxIndex.ExpectKeysCounted` | cmd/cronosd/dbmigrate/patch.go:793-890 | the keys of an enumeration have one turn each: failures, skips and unsure turns are numbers of marked keys |
| `PatchTxIndex.TxExpected` | cmd/cronosd/dbmigrate/patch.go:773-890 | those numbers are sizes of sets of the transaction's event keys |
| `PatchTxIndex.PutOpened` | cmd/cronosd/dbmigrate/patch.go:793-890 | the keys of a transaction whose iterator opens: keys written and counts |
| `PatchTxIndex.PutTransaction` | cmd/cronosd/dbmigrate/patch.go:773-906 | one Ethereum transaction, with its failures: keys written, and all three counts |
| `PatchTxIndex.PatchEthereumEventKeys` | cmd/cronosd/dbmigrate/patch.go:763-925 | phase 3 for every order of the map: the set written, errors, and the sum of processed and skipped are sizes of sets; and when no key is an event key of two transactions so is each of the two |
| `PatchTxIndex.HashesDisjoint` | cmd/cronosd/dbmigrate/patch.go:774-779 | transactions whose hashes contain no slash, as hexadecimal ones, share no event key |
| `PatchTxIndex.OrderSure` | cmd/cronosd/dbmigrate/patch.go:773-906 | then no turn of phase 3 is unsure, in any order of the map |
| `PatchTxIndex.EventsMet` | cmd/cronosd/dbmigrate/patch.go:773-906 | what is expected along one order of the map is what is expected of the set |
| `PatchTxIndex.PutTransactions` | cmd/cronosd/dbmigrate/patch.go:773-906 | the loop over the map, in any order, visits each transaction once |
| `PatchTxIndex.VisitTransaction` | cmd/cronosd/dbmigrate/patch.go:773-906 | one turn of the loop over the map extends the visited transactions by one |
| `PatchTxIndex.TallySame` | cmd/cronosd/dbmigrate/patch.go:773-906 | counting along any order of the map gives the same totals |
| `PatchTxIndex.LaterPhases` | cmd/cronosd/dbmigrate/patch.go:569-584 | phases 2 and 3, each left out when it has nothing to do: the keys written and the counters of both together |
| `PatchTxIndex.HashPhase` | cmd/cronosd/dbmigrate/patch.go:570-576 | phase 2, or nothing when there is no hash: the counts expected for every batch size |
| `PatchTxIndex.EventPhase` | cmd/cronosd/dbmigrate/patch.go:578-584 | phase 3, or nothing when there is no Ethereum transaction |
| `PatchTxIndex.UnsureExact` | cmd/cronosd/dbmigrate/patch.go:590-692 | phase 2 has an unsure turn if and only if a hash it copies while skipping comes up again |
| `PatchTxIndex.HashCounts` | cmd/cronosd/dbmigrate/patch.go:599-673 | which hashes are turns of phase 2, which are errors and which are skipped, said of source and target |
| `PatchTxIndex.EventCounts` | cmd/cronosd/dbmigrate/patch.go:773-890 | which keys are turns of phase 3, which are errors and which are skipped, said of source and target |
| `PatchTxIndex.TakenScanned` | cmd/cronosd/dbmigrate/patch.go:459-548 | phase 1 takes scanned keys only |
| `PatchTxIndex.TakeKey` | cmd/cronosd/dbmigrate/patch.go:349-424 | one tx.height key makes the planned decision; a failed read or prompt counts nowhere |
| `PatchTxIndex.HeightStep` | cmd/cronosd/dbmigrate/patch.go:471-531 | one turn of the loop of phase 1 |
| `PatchTxIndex.Collect` | cmd/cronosd/dbmigrate/patch.go:410-455 | what a taken key adds to the hashes and the Ethereum transactions |
| `PatchTxIndex.PatchTxHeightKeys` | cmd/cronosd/dbmigrate/patch.go:459-548 | phase 1 carries out its plan and hands over the hashes, transactions and strategy |
| `PatchTxIndex.PatchTxIndexData` | cmd/cronosd/dbmigrate/patch.go:550-587 | main result: the final target is the original overlaid with the source's values on one set of keys, for every batch size and every map order; so are the errors and the sum of processed and skipped, and the split of the two up to the unsure turns of phase 2; on failure every key is old or the source's; a dry run never changes the target |
| `PatchTxIndex.TakenExact` | cmd/cronosd/dbmigrate/patch.go:349-388 | with a settled strategy: exactly which keys phase 1 takes |
| `PatchTxIndex.AllWritesExact` | cmd/cronosd/dbmigrate/patch.go:550-587 | membership in that set, phase by phase |
| `PatchTxIndex.TxSkipKeepsExisting` | cmd/cronosd/dbmigrate/patch.go:550-587 | the skip strategy keeps every existing key in all three phases |
| `PatchTxIndex.TxAskIsStanding` | cmd/cronosd/dbmigrate/patch.go:349-388 | in phase 1 asking a user who always answers alike takes the keys, and counts the errors, of the standing strategy; for the whole run see AskWholeRun |
| `PatchTxIndex.HashesExact` | cmd/cronosd/dbmigrate/patch.go:410-416 | the hashes collected are the non-empty values of the taken keys |
| `PatchTxIndex.HashesCounted` | cmd/cronosd/dbmigrate/patch.go:410-416 | each hash is collected once for every taken key that names it |
| `PatchTxIndex.LatestExact` | cmd/cronosd/dbmigrate/patch.go:428-455 | an Ethereum hash stands for the last key that led to it |
| `TxIndexRuns.TakenAscending` | cmd/cronosd/dbmigrate/patch.go:459-548 | the keys phase 1 takes are in byte order |
| `TxIndexRuns.LastIsGreatest` | cmd/cronosd/dbmigrate/patch.go:428-455 | the entry that stands for an Ethereum hash is that of the last key in byte order |
| `TxIndexRuns.TxRunExact` | cmd/cronosd/dbmigrate/patch.go:550-587 | main result: with a settled strategy a run writes exactly the chosen tx.height keys below '~', the results their values name, and the event keys of the Ethereum transactions in them; no scan, order or batch appears |
| `TxIndexRuns.TxPlanExact` | cmd/cronosd/dbmigrate/patch.go:349-548 | main result: for any answers, phase 1 decides conflict m by answer m or by the first answer for all before it; errors, skipped, asked and the strategy handed over follow as counts |
| `TxIndexRuns.TxTakenExact` | cmd/cronosd/dbmigrate/patch.go:349-548 | and it takes, in order, exactly the keys decided so |
| `TxIndexRuns.HandsOver` | cmd/cronosd/dbmigrate/patch.go:459-548 | when the user never replaces, phase 1 hands over the skip strategy if and only if one of as many answers as there are conflicting keys is for all |
| `TxIndexRuns.HandsOverWhole` | cmd/cronosd/dbmigrate/patch.go:459-548 | the same for the whole range, with the number of conflicting keys of the source |
| `TxIndexRuns.ReachedIsComes` | cmd/cronosd/dbmigrate/patch.go:550-587 | which keys the later phases come to, said of the source without a scan |
| `TxIndexRuns.AskWholeRun` | cmd/cronosd/dbmigrate/patch.go:622-638 | asking a user who always replaces is the replace strategy; asking one who never does is the skip strategy if and only if conflicts are not checked, one of as many answers as the source has conflicting tx.height keys is for all, or the later phases come to no existing key, said of source, target and answers alone |
| `TxIndexRuns.AskReplacesResult` | cmd/cronosd/dbmigrate/patch.go:633-636 | a run in which nobody is asked and an existing result is replaced |
| `TxIndexRuns.BatchSizeShows` | cmd/cronosd/dbmigrate/patch.go:590-692 | when no hash contains a slash: batches of one and one large batch give the same counters if and only if no hash that phase 2 copies while skipping comes up again, and then every batch size does |
| `Migrate.MigrateWithIterator` | cmd/cronosd/dbmigrate/migrate.go:233-289 | the batched copy equals the copy key by key for every batch size, and every key is counted once |
| `Migrate.CopyExact` | cmd/cronosd/dbmigrate/migrate.go:233-289 | each copied key has the source's value and all others are as before |
| `Migrate.VerifySourceKeys` | cmd/cronosd/dbmigrate/migrate.go:388-425 | no mismatch exactly when every source key matches, and then all are counted |
| `Migrate.VerifyTargetKeys` | cmd/cronosd/dbmigrate/migrate.go:442-473 | no mismatch exactly when every target key is known |
| `Migrate.SameKeysSameLength` | cmd/cronosd/dbmigrate/migrate.go:480-491 | the final count comparison can only fail when an earlier check has |
| `Migrate.VerifyMigration` | cmd/cronosd/dbmigrate/migrate.go:347-500 | main result: succeeds if and only if the stores are equal and every read and iterator succeeds |
| `Migrate.CopyVerifies` | cmd/cronosd/dbmigrate/migrate.go:233-289 | a complete copy equals its source if and only if the target held no foreign key and every key that failed was there already |

## Left out

- PatchEthereumEventKeys: when a key is an event key of two transactions, which takes a hash with a slash in it, the skipped keys are only bounded below.
- PatchTxIndexData: in that case likewise; otherwise the split of processed and skipped is exact for batches of one and for one large batch, and lies between the two for other sizes; no equation with the key total counted beforehand, since phase 1 does not count failed reads and later phases add keys that were never in that total.
- Reap: a byte cap above 2^63 needs the snapshot's encodings to total less than 2^64 bytes, as they do in memory.
- PrepareProposal: byte limits below 2^63 and gas limits below 2^64, as the consensus parameters are; the default SDK handler that offers the transactions is a sequence of offers.
- RecheckTxs: the pool is a set and the snapshot an input; eviction from the ante cache and the encode cache is not modelled there.
- VerifyMigration: opening with retries is not modelled.
- `admit`, `InsertTx` and the CheckTx handlers: thin calls into the SDK's transaction runner.
- That a recheck ran against post-commit state: staging precedes commit, and an earlier run may drain in between.
- A worker value without its channels, and nil receivers of the caches: they return at once.
- `ParseHeightFlag`, `Validate` and the display of ranges: no result depends on how a range was written on the command line.
- `extractEthereumTxHash`: a partial function from transaction results to hashes.
- The count and early return before a tx_index patch, which repeat those of a blockstore.
- A second iteration of the source for counting: the model counts the keys the patch then visits.
- SDK priority pool, ante handlers, signature checks, age, bech32 and JSON internals.
- Logging, telemetry, progress output, file paths, RocksDB options and flushing.
- The x/cronos module, genesis, the JSON-RPC server and the command line: outside these components.
