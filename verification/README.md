# A model of an Arweave gateway, with proofs

This project models the parts of the gateway whose correctness is an argument and not a lookup, and proves that argument:

- **Chain indexing.** `Chain`, `ForkWalk`, `Convergence`: the importer's walk back through forks over one map of blocks.
  `BlockTables`, `TxTables`, `SqliteWorker`: the new and the stable tier of the database, the flush, the reset, the
  transaction tables. `BlockImporter`: the importer as an object over them, and `ImporterConvergence`: how its main loop
  reaches the tip. `Finality`, `TxConservation`, `StableTransactions`, `LateTransactions`, `BlockFetch`: what holds over whole
  histories, with `TxLoss`, a run that loses a transaction, and `ImporterRuns` and `ImporterOps`, which take the rest to
  whole runs of the importer.
  `BlockStore` and `HeightCache`: the block cache, whose depth limit is the same number. `CachedImports`: the importer
  reading through it.
- **Worker pools.** `WorkerPool`: the shared queue, the job slots, crashes, respawns and terminate messages of the SQLite
  front end and of the ANS-104 parser. `PoolTermination`: how their workers end. `Unbundle`: what a parser worker reports.
- **GraphQL pages.** `Listings`: sorted and limited queries. `TagJoin`: the filters as a select statement.
  `TransactionPages` and `BlockPages`: cursors and pages. `TransactionQueries`: filters, cursors and pages together.
- **Manifests.** `Manifest`: the token-driven resolver against lookup in the parsed tree.
- **Bytes.** `DataCache`: nested items as slices of ancestors. `Streams`: chunk reader and range transform.
- **Housekeeping.** `FsCleanup` and `FsDeletion`: the resumable directory walk. `RequestBucket`: the rate limit.
- `Options`, `ByteStrings`, `Integers`, `Sequences` and `Lexicographic` hold shared types, bounds and the order of sequences.

Code that changes state is modelled by classes and loops proved against specification functions; the results about whole
runs are lemmas about those functions.

## Assumptions

- Hashes name their contents: where two blocks, files, tag names or values are told apart by a hash, the hash is taken to be
  injective. Codecs (base64url, msgpack, JSON text of cursors) lose nothing. The JSON tokenizer delivers the exact tokens.
- A transaction's database statements and one method of the block store are atomic steps.
- The meaning of the tables is that of the statements in `src/database/sql/core/*.sql`; the stray words
  `FOR SHAREl` at `src/database/sql/core/accessors.sql:10` are ignored.
- Statements that read the missing rows of a transaction without an order read them lowest height first, as a scan of the index
  on (height, transaction id) does.
- Finality and the height cache are stated for sources that change only between requests and keep every block `MAX_FORK_DEPTH`
  or more below a mark: the highest height indexed so far for `Finality` and `ImporterRuns`, the highest height the client has
  observed for `HeightCache`, the larger of the two for `CachedImports`. The chain is otherwise arbitrary.

## Where the code departs from what it promises

- A SQLite worker that answers a terminate message takes one more job, waiting then or submitted before its exit, and the exit
  rejects it (`SqliteTerminateLosesAJob`, `SqliteStopCanLoseAJob`, `SqliteStopCanLoseALaterJob`).
- An index entry that names a builtin property such as `constructor` resolves an empty request to that builtin
  (`StreamingIsLookup`), and brackets of arrays are not seen (`ArraysAreNotSeen`).
- `hasNextPage` is false when the first tier matches exactly `pageSize` blocks (`NextPageIsReal`); a block cursor at height 0 is
  no cursor (`CursorContinues`), which stops an ascending client with pages of one (`FollowingListsEverything`); a descending
  query past a genesis in the new tier asks the stable tier without a bound (`OverlapIsNotRepeated`).
- The cleanup walk sorts by locale but resumes by string order, and loses files where the two differ
  (`CyclesCoverExactlyAscending`, `LocaleOrderLosesFiles`).
- Deleting a block by hash also drops its height's key when that key points at another block (`DeletedHashIsGone`).
- A block first fetched within 50 of the tip is stored under its hash only, and never gets its height's key
  (`CachedExactlyWhen`).
- The chunk reader of an empty transaction asks for the byte behind it (`AsksOnlyItsOwn`); an empty item is never served as a
  slice (`CacheFindsTheItem`).
- A transaction that two indexed blocks list can be lost: a reset that drops the upper block also drops the height of the row
  they share, and a later flush sweeps the row, if it was indexed before the cut-off, while the lower block is too young to
  be copied (`SharedTransactionCanBeLost`; exactly when, in `ResetCanLoseExactly` and `RunLosesExactly`).

## Model

| member | source | states |
|---|---|---|
| ForkWalk.WalkShape | src/workers/block-importer.ts:84-152 | What a walk is, step by step: each reset was forced by a gap or a fork, targets drop by one from `height-2`, and the walk ends in a block whose parent is indexed, in a failed request, or past the depth limit |
| ForkWalk.AfterResets | src/workers/block-importer.ts:99-143 | The resets of a walk leave exactly the index cut at the last target |
| ForkWalk.LandsOnTheTop | src/workers/block-importer.ts:125-151 | A walk that finds a block finds the one directly above what the resets left, naming its top |
| ForkWalk.ImportKeepsLinkedChain | src/workers/block-importer.ts:154-193 | Every state one import passes through is gap-free, one block per height and hash-linked, whatever the source answers and however the import ends |
| ForkWalk.WalkIsBounded | src/workers/block-importer.ts:84-152 | A walk from `height` makes at most 51 resets and no state on the way loses a height up to `height-52` |
| ForkWalk.StepKeepsLinkedChain | src/workers/block-importer.ts:229-238 | One turn from a linked chain ends in a linked chain |
| ForkWalk.RunKeepsLinkedChain | src/workers/block-importer.ts:213-246 | Every state `start` reaches, over any sources that carry the requested heights, is a linked chain from the start height |
| Convergence.WalkReachesForkPoint | src/workers/block-importer.ts:99-143 | Over one fixed chain the walk goes down to the fork point if that is at most 50 below, and past the depth limit otherwise |
| Convergence.ImportExtendsAgreement | src/workers/block-importer.ts:154-193 | After an import the index is the chain up to and including the block above the fork exactly when the fork is at most `MAX_FORK_DEPTH` deep |
| Convergence.PrefixGrowsToTip | src/workers/block-importer.ts:195-246 | Each import extends the common prefix by one block until the index equals the chain up to its tip |
| Convergence.Converges | src/workers/block-importer.ts:213-246 | From any linked index that forks at most 50 back, the first import makes it a prefix of the chain and the following ones grow it to the tip |
| BlockTables.ResetRefinesTruncate | src/database/sql/core/height-reset.sql:11-13 | Truncating only the new tier truncates the whole index exactly when no stable height lies above the target; stable rows stay |
| BlockTables.FlushRefinesIdentity | src/database/standalone-sqlite.ts:691-748 | Copy-then-delete leaves every height lookup alone exactly when no copied row has a hash that is already stable at another height |
| BlockTables.FlushMovesBoundaryUp | src/database/standalone-sqlite.ts:691-748 | A flush moves the split between stable and new heights up to its end height and never back |
| BlockTables.SaveRefinesSave | src/database/standalone-sqlite.ts:912-936 | Saving a block, flush included, is saving it in the one-map index; the boundary rises at most to `height-50` and stable rows stay |
| BlockTables.StepRefines | src/database/standalone-sqlite.ts:813-816 | One save or reset on the two tiers is that operation on one map |
| BlockTables.RunRefines | src/database/standalone-sqlite.ts:765-777 | Over every run whose resets stay at or above the top stable height, the lookups answer as one map would and stable heights stay strictly below new ones |
| BlockTables.SaveKeepsDeepStable | src/database/standalone-sqlite.ts:922-936 | Flushes keep up: a save keeps every indexed block that is more than 50 below an indexed multiple of five in the stable tier |
| Finality.WalkIsShallow | src/workers/block-importer.ts:84-152 | If the chain differs from the index only in the top 50 heights below the high-water mark, the walk neither exceeds the depth limit nor resets below a stable height |
| Finality.RoundIsSafe | src/workers/block-importer.ts:154-193 | One import under that bound never gives up on depth and never resets below a flushed height |
| Finality.RoundKeepsFinal | src/workers/block-importer.ts:154-193 | One import keeps the invariant (linked index, tiers split, index on the chain below the mark, stable part on it) and never changes a stable row |
| Finality.ReorgKeepsFinal | src/arweave/constants.ts:19 | A reorganisation within `MAX_FORK_DEPTH` of the high-water mark keeps the invariant for the new chain |
| Finality.FinalBeforeRound | src/workers/block-importer.ts:213-246 | In every history with bounded reorganisations between imports the invariant holds before every import |
| Finality.EveryRoundIsSafe | src/workers/block-importer.ts:84-152 | In every such history no import exceeds the depth limit or drops a flushed height |
| Finality.StableStays | src/database/standalone-sqlite.ts:691-709 | A stable row is never changed or dropped later |
| Finality.StableIsFinal | src/database/standalone-sqlite.ts:912-936 | In every such history each stable block sits at least 51 below the high-water mark and is the source chain's block at its height in every later round |
| TxConservation.ResetKeepsTracked | src/database/sql/core/height-reset.sql:1-21 | A reset in the new tier keeps every transaction of the blocks that remain stored or listed as missing, however many blocks share it, with its block rows in the right tier |
| TxConservation.ResetKeepsDated | src/database/sql/core/height-reset.sql:1-4 | After a reset every transaction that only its new row holds still has a height there, exactly when the reset clears no height that a retained block needs |
| TxConservation.OnlySharingIsUnsafe | src/database/sql/core/height-reset.sql:1-4 | Such a height is cleared only if a block above the target lists the same transaction |
| TxConservation.ResetCanLoseExactly | src/database/standalone-sqlite.ts:813-816 | A reset can be followed by a flush that loses a transaction exactly when a retained block lists one that is neither stable nor missing for it and whose height lies above the target |
| TxConservation.FlushKeepsTracked | src/database/sql/core/flush.sql:5-47 | A flush that sweeps no listed transaction keeps the whole invariant |
| TxConservation.FlushLosesExactly | src/database/standalone-sqlite.ts:691-748 | A flush loses a transaction exactly when it sweeps one: a row without a height, older than the cut-off, with no block row below the end height |
| TxConservation.InsertKeepsTracked | src/database/standalone-sqlite.ts:575-689 | Saving a block, whatever transactions it shares or repeats, keeps the invariant and extends it to the new block |
| TxConservation.SaveTxKeepsTracked | src/database/standalone-sqlite.ts:818-825 | The late arrival of a transaction keeps the invariant |
| TxConservation.StepKeepsTracked | src/database/standalone-sqlite.ts:813-936 | So does every save with its flush, reset and late arrival, unless its flush sweeps a listed transaction |
| TxConservation.RunLosesExactly | src/database/standalone-sqlite.ts:813-936 | For every run from the empty database, with shared and repeated transactions: each transaction of each indexed block is always stored or listed as missing exactly when no flush of the run sweeps a listed transaction |
| TxConservation.NothingIsEverLost | src/database/standalone-sqlite.ts:486-538 | In every state of every run whose resets clear no height that a retained block needs, each transaction of each indexed block is stored or listed as missing; a run without resets needs no condition |
| TxConservation.UnsharedRunsAreSafe | src/database/standalone-sqlite.ts:486-538 | While no two indexed blocks list the same transaction every reset is such a reset |
| TxLoss.SharedTransactionCanBeLost | src/database/standalone-sqlite.ts:912-936 | A run from the empty database, with the cut-offs the worker computes, that ends with an indexed block whose transaction is neither stored nor missing: two blocks list it, a reset drops the upper one, and the next flush sweeps the row they shared |
| StableTransactions.FlushMovesExactly | src/database/sql/core/flush.sql:26-47 | A flush makes stable exactly the stored transactions with a block row below the end height, moves exactly those rows, and leaves no transaction row with a height below it |
| StableTransactions.FlushUnlistsExactly | src/database/sql/core/cleanup.sql:1-8 | A flush unlists a missing transaction exactly when its block is below the end height and it is stable by then |
| StableTransactions.UndatedSurvivesTwoHours | src/database/standalone-sqlite.ts:922-932 | A row without a height survives the flush of a save exactly when no stable block was mined more than two hours after the row was indexed |
| StableTransactions.StableTxsHaveStableBlocks | src/database/sql/core/flush.sql:35-47 | In every run, lossy or not, each stable transaction is listed by a block of the stable tier |
| StableTransactions.StableBlocksAreComplete | src/database/sql/core/flush.sql:26-47 | In every run whose resets are safe each transaction of a stable block is stable, or still missing for that block, with its row in the stable table |
| StableTransactions.StoredWasDelivered | src/database/standalone-sqlite.ts:575-689 | In every run whatever is stored, new or stable, was delivered with a block or late |
| StableTransactions.DeepBlocksAreStable | src/database/standalone-sqlite.ts:922-936 | In every run each indexed block more than 50 below an indexed multiple of five is stable |
| StableTransactions.ImporterStableTxsAreFinal | src/database/standalone-sqlite.ts:912-936 | After every importer run against a source that reorganises within the bound, late transactions anywhere between its saves, each stable transaction is listed by a block of the chain last served, at least 51 below the highest height indexed |
| LateTransactions.SaveTxUnlistsExactly | src/database/sql/core/async-import.sql:18-24 | A late transaction is unlisted exactly where it is missing at a height more than one above the stable maximum; every other missing row stays as it is |
| LateTransactions.SaveTxStores | src/database/standalone-sqlite.ts:818-824 | It is stored, at the height it was missing at if there is one and otherwise as it was; no other transaction row changes |
| LateTransactions.SaveTxBringsBack | src/database/sql/core/async-import.sql:6-16 | Its stable block rows come back into the new table at that height, and no others |
| LateTransactions.NextFlushMakesItStable | src/database/sql/core/flush.sql:35-47 | The next flush above that height then makes it stable, although its block was flushed before it came |
| LateTransactions.UnlistedUntilRelisted | src/database/standalone-sqlite.ts:818-825 | Over any operations after it arrived, a late transaction is listed as missing nowhere more than one block above the stable tier of that moment, until another save lists it |
| LateTransactions.LateTransactionStaysStored | src/database/standalone-sqlite.ts:818-825 | And in every run whose resets are safe it is stored, new or stable, while a block above that line lists it |
| BlockFetch.GetBlockAndTxs | src/arweave/composite-client.ts:532-546 | For any order of completion the block's list is split exactly (as multisets) into fetched and missing ids, each in the list of its outcome |
| SqliteWorker.StandaloneSqliteDatabaseWorker.GetMaxHeight | src/database/standalone-sqlite.ts:765-767 | The largest height of either tier, -1 on an empty index |
| SqliteWorker.StandaloneSqliteDatabaseWorker.GetBlockHashByHeight | src/database/standalone-sqlite.ts:769-777 | The hash at a height in the union of the tiers |
| SqliteWorker.StandaloneSqliteDatabaseWorker.ResetToHeight | src/database/standalone-sqlite.ts:813-816 | The tables become those of the reset specification |
| SqliteWorker.StandaloneSqliteDatabaseWorker.SaveTx | src/database/standalone-sqlite.ts:818-825 | The late-transaction specification: the lowest missing height, upsert, stable block rows brought back at it, and deletion from the missing list only above the stable maximum |
| SqliteWorker.StandaloneSqliteDatabaseWorker.SelectMissingTransactionHeight | src/database/sql/core/async-import.sql:1-4 | The lowest height at which the transaction is missing, or none |
| SqliteWorker.StandaloneSqliteDatabaseWorker.InsertBlockAndTxs | src/database/standalone-sqlite.ts:575-689 | The tables of the insertion specification, row loop by row loop |
| SqliteWorker.StandaloneSqliteDatabaseWorker.FlushStableData | src/database/standalone-sqlite.ts:691-748 | The copies of a flush into the stable tables, then its deletions from the new ones, as one step of the flush specification |
| SqliteWorker.StandaloneSqliteDatabaseWorker.SaveBlockAndTxs | src/database/standalone-sqlite.ts:912-936 | Insert, and flush on every fifth height with the stable timestamp's cut-off |
| BlockImporter.BlockImporter.GetBlockOrForkedBlock | src/workers/block-importer.ts:84-152 | The recursive method ends as the walk specification says and leaves the database its resets leave |
| BlockImporter.BlockImporter.ImportBlock | src/workers/block-importer.ts:154-193 | Walk, then save what was found; an exception leaves only the resets |
| BlockImporter.BlockImporter.GetNextHeight | src/workers/block-importer.ts:195-211 | Polls until the chain is ahead of the index; returns the height above the index |
| BlockImporter.BlockImporter.TakeTurn | src/workers/block-importer.ts:219-245 | One turn of the main loop |
| BlockImporter.BlockImporter.Start | src/workers/block-importer.ts:213-246 | The main loop, turn by turn, stopping at the stop height or past the depth limit |
| BlockImporter.BlockImporter.Stop | src/workers/block-importer.ts:248-251 | Stops the loop and touches nothing else |
| BlockImporter.WalkStep | src/workers/block-importer.ts:104-142 | After one reset the rest of the walk reads what it would have read before it |
| BlockImporter.TurnIsRound | src/workers/block-importer.ts:213-246 | A turn that imports makes exactly one round of the finality argument, and no other turn touches the tables |
| ImporterRuns.RunIsHistory | src/workers/block-importer.ts:213-246 | For every list of turns from an empty database against a source that reorganises within the bound, the turns that import are a history of the finality argument and the run leaves exactly its tables |
| ImporterRuns.OnlyTheStopHeightEndsIt | src/workers/block-importer.ts:85-96 | Such a run is never stopped for exceeding the depth limit: `shouldRun` is cleared at the stop height only |
| ImporterRuns.StableRowsAreTheSources | src/workers/block-importer.ts:213-246 | After such a run each stable row is, at least 51 below the highest height indexed, the block of the chain that the last import was served from |
| ImporterRuns.ShortChainIsWaitedFor | src/workers/block-importer.ts:195-211 | While no poll reports a height above the index, no turn changes the database, so a fork with a chain no taller than the index stays |
| ImporterOps.RunPerformed | src/workers/block-importer.ts:213-246 | The resets and saves listed for a run, performed one after the other, leave the database that the main loop leaves |
| ImporterOps.RunCounts | src/workers/block-importer.ts:183-184 | The counter of imported transactions grows by exactly what came with the blocks that the run saves |
| ImporterOps.ImporterRunsAreEnabled | src/database/standalone-sqlite.ts:813-936 | For every such run, with late transactions anywhere between its operations and fetched lists that split, each save is on top under a new hash and each reset stays in the new tier: they are enabled operations of the conservation argument |
| ImporterOps.ImporterLosesExactly | src/database/standalone-sqlite.ts:813-936 | So each transaction of each block the importer indexes is always stored or listed as missing exactly when no flush of the run sweeps a listed transaction |
| BlockImporter.PollsGiveTheNextHeight | src/workers/block-importer.ts:195-211 | The next height is one above the index and is only returned once the chain has reached it |
| BlockImporter.PollingEnds | src/workers/block-importer.ts:195-211 | `getNextHeight` returns exactly when a known chain height is above the index, or else some poll reports one above it and all before it answered at most the index; it throws exactly when a failed poll comes first, waits otherwise, and remembers the last height answered |
| ImporterConvergence.MainLoopConverges | src/workers/block-importer.ts:213-246 | Over one served chain whose tip the polls report, from any sound tables that fork at most 50 back above the stable tier: after `n` turns of the main loop the two tiers hold exactly the chain up to `n` blocks from the fork, the tip and the stop height included, and the run flag is cleared exactly by a turn to spare at the stop height |
| ImporterConvergence.FreshImporterConverges | src/workers/block-importer.ts:213-246 | From an empty database the same loop takes in the chain from the start height, one block a turn, up to the tip or the stop height |
| ImporterConvergence.NothingAboveTheStopHeight | src/workers/block-importer.ts:220-226 | Whatever the source answers, a run that starts below its stop height indexes nothing above it |
| BlockStore.RunKeepsCoherent | src/store/kv-block-store.ts:110-203 | Under any run of sets of sane blocks and deletes, every height key points at a stored block of that height |
| BlockStore.SaneMeans | src/lib/validation.ts:38-62 | A block is sane exactly when its hash is 64 characters of base64url and, unless it is at height 0, so is its parent's |
| BlockStore.SetIsFound | src/store/kv-block-store.ts:181-202 | A stored block is found under its hash and, if its height key was free, under its height; the first block stored under a hash stays |
| BlockStore.DeletedHashIsGone | src/store/kv-block-store.ts:132-154 | A deleted block is gone together with its height's key, even where that key points at another block of the height; nothing else is lost |
| BlockStore.DeletedHeightIsGone | src/store/kv-block-store.ts:156-179 | A deleted height is gone together with the block it pointed at; nothing else is lost |
| BlockStore.KvBlockStore.GetBlockByHash | src/store/kv-block-store.ts:87-108 | Finds sane blocks stored under a hash |
| BlockStore.KvBlockStore.GetBlockByHeight | src/store/kv-block-store.ts:110-130 | Follows a height key to the block |
| BlockStore.KvBlockStore.DeleteByHash | src/store/kv-block-store.ts:132-154 | The store of the deletion specification |
| BlockStore.KvBlockStore.DeleteByHeight | src/store/kv-block-store.ts:156-179 | The store of the deletion specification |
| BlockStore.KvBlockStore.SetBlock | src/store/kv-block-store.ts:181-202 | The store of the set specification |
| HeightCache.ServedIsCurrent | src/arweave/composite-client.ts:244-322 | In every history with bounded reorganisations, whatever is served for a height, from the cache or the node, is the source's current block there |
| HeightCache.ServedExactlyWhen | src/arweave/composite-client.ts:244-322 | A request is served exactly when the chain has the height and the node answers or the height is cached and caches are used |
| HeightCache.CachedIsFinal | src/arweave/composite-client.ts:284-308 | A block cached by height is the source's block there at that step and at every later one |
| HeightCache.CachedExactlyWhen | src/arweave/composite-client.ts:284-308 | A request caches a block by height exactly when it serves one more than 50 below the boundary whose hash was not stored before; nothing cached by height is dropped |
| HeightCache.BoundaryIsTheLargest | src/arweave/composite-client.ts:549-562 | The boundary is the largest height observed so far |
| HeightCache.OnlySaneIsServed | src/arweave/composite-client.ts:284-308 | Whatever node and cache answer, only sane blocks are stored and served; an insane answer is not served and takes what was cached under its height and hash with it |
| CachedImports.WalkThroughClient | src/workers/block-importer.ts:84-152 | A walk that reads through a client that each request changes is a walk over one source, if that source says what each request is answered from any cache that only requests above have changed |
| CachedImports.ImportIsRound | src/arweave/composite-client.ts:244-322 | The composite client is such a client: an import through it is an import from the source made of what the node answers and what was cached before, and leaves the cache agreeing with the chain |
| CachedImports.CachedImportsAreSafe | src/workers/block-importer.ts:84-152 | In every history of polls, block requests and imports through the client, with reorganisations bounded by the highest height seen by index or client, no import exceeds the depth limit or drops a flushed height |
| CachedImports.CachedStableIsFinal | src/arweave/composite-client.ts:244-322 | In every such history a flushed block stays, and is the node's own block at its height at every later step, as is every block the client has cached by height |
| CachedImports.CacheIsTheClients | src/arweave/composite-client.ts:244-322 | In every history the cache is exactly that of a client that saw the polls and requests and, for each import, a request for every height from the next one down to where its walk ended |
| CachedImports.ObservedMarkSuffices | src/arweave/composite-client.ts:549-562 | While the importer asks only for heights that a poll has reported, the index never exceeds `maxPrefetchHeight`, so it is enough to bound reorganisations by that |
| HeightCache.CompositeClient.GetHeight | src/arweave/composite-client.ts:549-562 | The prefetch boundary is the largest height seen |
| HeightCache.CompositeClient.PrefetchBlockByHeight | src/arweave/composite-client.ts:244-322 | Cache, node, sanity check, and the height key only more than `MAX_FORK_DEPTH` below the boundary |
| WorkerPool.StepKeeps | src/database/standalone-sqlite.ts:2630-2684 | Every handler keeps dispatch in order, each job in one place, the counts, and no listed worker idle while a job waits |
| WorkerPool.StepSettles | src/lib/ans-104.ts:186-239 | A step settles a job exactly when it is the exit of a worker that holds one, any SQLite message, or an ANS-104 result, failure or unknown message: once, that worker's job, with the outcome it earned; settled jobs never change |
| WorkerPool.ReplyFreesTheWorker | src/database/standalone-sqlite.ts:2657-2665 | Such a reply frees the worker, which takes the head of the queue or stays idle if nothing waits; any other message changes nothing |
| WorkerPool.ExitReplacesTheWorker | src/database/standalone-sqlite.ts:2670-2683 | An exit unlists the worker and leaves the queue and all others alone; exactly after a crash a fresh idle worker takes its place |
| WorkerPool.ExactlyOnce | src/database/standalone-sqlite.ts:2630-2684 | In every interleaving of submit, stop, online, reply, crash and respawn each job is queued once, held by one worker or settled once, and the counts sum to the jobs submitted, for both pools |
| WorkerPool.FifoAndWorkConserving | src/database/standalone-sqlite.ts:2725-2733 | In every run jobs are dispatched in submission order, no listed worker is idle while a job waits, and no more workers are busy than the pool has |
| WorkerPool.RunSettles | src/database/standalone-sqlite.ts:2657-2683 | Along every run the jobs settled are as many as there were settling events |
| WorkerPool.RunReplacesCrashed | src/database/standalone-sqlite.ts:2670-2683 | Along every run the workers alive are the pool's size less the clean exits |
| WorkerPool.OneWorkerSettlesInOrder | src/database/standalone-sqlite.ts:2477-2484 | A pool of size one also settles its jobs in submission order, across crashes and respawns |
| PoolTermination.SubmitReaches | src/database/standalone-sqlite.ts:2644-2656 | With nothing waiting, a submission reaches an idle listed worker exactly when all those listed before it are busy |
| PoolTermination.StopReaches | src/database/standalone-sqlite.ts:2698-2723 | Stopping a pool gives every idle listed worker a job |
| PoolTermination.SqliteTerminateLosesAJob | src/database/standalone-sqlite.ts:3181-3183 | A SQLite worker that answers a terminate message takes the next job, and its exit rejects what it holds unrun: whatever the pool does in between, exactly when a job was waiting at the reply, or a submission since then found all workers listed before this one busy, or the pool was stopped since then |
| PoolTermination.OneWorkerLosesAJob | src/database/standalone-sqlite.ts:2686-2696 | In a pool of one that is exactly when a job was waiting or anything at all happened in between |
| PoolTermination.SqliteStopCanLoseAJob | src/database/standalone-sqlite.ts:2630-2696 | A run of a pool of one (online, stop, submit) reaches a state where a job waits behind the terminate job, and the reply and exit that follow reject it |
| PoolTermination.SqliteStopCanLoseALaterJob | src/database/standalone-sqlite.ts:2630-2696 | A run in which nothing waits at the reply, and the job submitted before the exit is rejected |
| PoolTermination.Ans104TerminateLosesNothing | src/lib/ans-104.ts:186-239 | An ANS-104 worker holds its terminate job, whatever the pool does, until its exit resolves that job and no other |
| WorkerPool.PoolQueue.constructor | src/database/standalone-sqlite.ts:2686-2696 | A pool of the given size of spawned workers |
| WorkerPool.PoolQueue.Take | src/database/standalone-sqlite.ts:2644-2650 | `takeWork`: a free worker takes the head of the queue |
| WorkerPool.PoolQueue.DrainQueue | src/database/standalone-sqlite.ts:2725-2733 | Offers work to every listed worker in turn |
| WorkerPool.PoolQueue.QueueWork | src/database/standalone-sqlite.ts:2735-2759 | Pushes a job and drains |
| WorkerPool.PoolQueue.StopWorkers | src/lib/ans-104.ts:247-256 | One terminate job per listed worker |
| WorkerPool.PoolQueue.WorkerOnline | src/database/standalone-sqlite.ts:2653-2656 | Lists the worker and offers it work |
| WorkerPool.PoolQueue.WorkerMessage | src/lib/ans-104.ts:186-216 | Settles the job as the kind of pool does, then takes work |
| WorkerPool.PoolQueue.WorkerExit | src/lib/ans-104.ts:221-239 | Unlists the worker, settles its job, respawns after a crash |
| Unbundle.ParseBundle | src/lib/ans-104.ts:413-478 | One report per matching item with its offset, size and hashed bytes, in order, then the counts; when the bundle library, reading an item or the filter throws, the reports so far and then the error |
| Unbundle.ReportsAreTheMatches | src/lib/ans-104.ts:425-472 | Every item with an id that passes the filter is reported exactly once under its own index, and nothing else is |
| Unbundle.CompleteCounts | src/lib/ans-104.ts:473-479 | A bundle read through without a failure is reported with the number of its items and the number that matched |
| Unbundle.ReportsSettleOnce | src/lib/ans-104.ts:186-216 | What is reported of a bundle settles its job exactly once, with the last report: rejected exactly when something failed, resolved otherwise |
| Unbundle.IndexingIsHonest | src/workers/ans104-data-indexer.ts:88-105 | Indexing a reported item that lies within its bundle keeps everything the data index knows true |
| Unbundle.SavedNestedRows | src/database/sql/data/nested-content.sql:1-14 | The row saved for an item and its parent replaces theirs alone: rows for other parents and other items stay |
| Manifest.Trim | src/lib/encoding.ts:328-329 | The path without exactly its trailing slashes |
| Manifest.TreeRun | src/lib/encoding.ts:229-319 | Over the tokens of any JSON text the machine reacts to exactly the leaves at the watched key paths, in order, where an item of an array is read under the key that the text before it left |
| Manifest.ResolvesFirstPath | src/lib/encoding.ts:345-350 | For a non-empty request the first path whose trimmed name matches wins |
| Manifest.ResolvesIndex | src/lib/encoding.ts:285-315 | What an empty request resolves to, whichever of index and entry comes first |
| Manifest.StreamingIsLookup | src/lib/encoding.ts:229-352 | For every manifest with distinct keys whose arrays the machine does not react to, it resolves to the tree lookup exactly when the request is not empty or the index does not name a builtin object property (or that entry was read before it); otherwise to that builtin |
| Manifest.FlatArrayUnseen | src/lib/encoding.ts:254-316 | Every array without objects, outside the four watched places for strings, is one that the machine does not react to |
| Manifest.ArraysAreNotSeen | src/lib/encoding.ts:254-268 | Why the other arrays are excluded: any value in brackets under `paths` resolves as if the brackets were absent, while the tree has no path there |
| Manifest.EndReportsTheTree | src/lib/encoding.ts:246-252 | The end reports the number of entries with an id, the index path, and validity exactly for a version 0.1.0 path manifest with at least one |
| Manifest.ManifestResolver.OnStringValue | src/lib/encoding.ts:270-316 | The handler changes the fields as the machine's step |
| Manifest.ManifestResolver.OnToken | src/lib/encoding.ts:254-316 | Each token handler is the machine's step |
| Manifest.ManifestResolver.Read | src/lib/encoding.ts:229-319 | Reading a stream runs the machine over its tokens |
| Manifest.TrimTrailingSlashes | src/lib/encoding.ts:328-329 | The loop form of the trimming |
| Manifest.ResolveManifestStreamPath | src/lib/encoding.ts:321-352 | The promise is fulfilled with what the machine resolves to; with nothing found it is rejected if the stream or the parser failed, else fulfilled with nothing |
| Listings.LimitPushdown | src/database/standalone-sqlite.ts:1867-1908 | Limiting each branch before a union gives the same top rows as limiting after it |
| TransactionPages.CursorIsStrictOrder | src/database/standalone-sqlite.ts:1511-1602 | The three-way cursor predicate is the strict order on (height, block transaction index, data item id), with transactions at `x'00'`, in both sort orders |
| TransactionPages.QueryIsTop | src/database/standalone-sqlite.ts:1850-1909 | The query answers with the first `pageSize + 1` rows after the cursor, for every form of `bundledIn` |
| TransactionPages.PageIsTop | src/database/standalone-sqlite.ts:2043-2052 | A page is the first `pageSize` remaining rows and another is announced exactly when rows remain |
| TransactionPages.FollowingListsEverything | src/database/standalone-sqlite.ts:1850-1909 | Following last-row cursors to an empty page lists every matching stable transaction and item exactly once, in order, in both sort orders |
| TagJoin.AddTagFilter | src/database/standalone-sqlite.ts:1390-1452 | The joins and conditions of one tag, by source and position |
| TagJoin.AddTagFilters | src/database/standalone-sqlite.ts:1387-1453 | The join chain of all tags, and the table whose height column is used from then on |
| TagJoin.AddGqlTransactionFilters | src/database/standalone-sqlite.ts:1292-1470 | The built statement is the plan |
| TagJoin.SortingPermutes | src/database/standalone-sqlite.ts:1388-1390 | Sorting by join priority only reorders the tags and puts those named `App-Name` or `Content-Type` last |
| TagJoin.RangeConditionsMean | src/database/standalone-sqlite.ts:1455-1470 | The height and parent conditions mean the bounds, also where the upper bound was left out at or above the stable maximum |
| TagJoin.ChoiceMeans | src/database/standalone-sqlite.ts:1395-1452 | The tag conditions hold of a choice of tag rows exactly when each is one of the row's own tags with that name and an allowed value |
| TagJoin.PlanSelectsMatches | src/database/standalone-sqlite.ts:1292-1470 | Under `DISTINCT` the statement selects exactly the rows where every requested tag, in any order and number, has some tag row with that name and an allowed value, and the other filters hold |
| TransactionQueries.SortColumnsAgree | src/database/standalone-sqlite.ts:1395-1418 | Whichever table a stable query sorts by and reads the cursor's height and index from, these are the row's own |
| TransactionQueries.BranchSelectsMatches | src/database/standalone-sqlite.ts:1292-1602 | A branch with all its filters and its cursor selects exactly the rows behind the cursor that match the filters |
| TransactionQueries.QueryPagesMatches | src/database/standalone-sqlite.ts:1850-1909 | The whole query is the paging query over the matching rows |
| TransactionQueries.FollowingListsEveryMatch | src/database/standalone-sqlite.ts:1850-1909 | Following the cursors of a filtered query to an empty page lists exactly the stable transactions and items that match the filters, each once and in the order asked for |
| BlockPages.PageIsTop | src/database/standalone-sqlite.ts:2237-2320 | Each page is the first `pageSize` rows of the merged, filtered, sorted block list, in both sort orders |
| BlockPages.NextPageIsReal | src/database/standalone-sqlite.ts:2267-2312 | A further page is announced exactly when one exists and the first tier does not match exactly `pageSize` rows |
| BlockPages.CursorContinues | src/database/standalone-sqlite.ts:2128-2140 | A cursor leaves exactly the rows after its row if and only if that row is not at height 0; a height-0 cursor starts over |
| BlockPages.FollowingListsEverything | src/database/standalone-sqlite.ts:2237-2320 | Following last-edge cursors until an empty page or genesis lists every block once, in order, exactly when the client does not ask ascending for pages of one while genesis and another block match |
| BlockPages.ListingIsComplete | src/database/standalone-sqlite.ts:2093-2141 | That listing holds each block of either tier exactly once and in order, that has one of the ids if any are given and lies within the bounds that are not negative |
| BlockPages.OverlapIsNotRepeated | src/database/standalone-sqlite.ts:2256-2306 | With blocks in both tiers, as between the copy and the deletions of a flush, what is found is strictly ordered, so nothing is shown twice, exactly when a descending query does not go on past genesis |
| BlockPages.SoundTablesAreWellFormed | src/database/standalone-sqlite.ts:691-748 | The tables of every run keep the tiers apart, as the paging results require |
| DataCache.CacheServesTheItem | src/data/read-through-data-cache.ts:55-120 | Whatever is served for an item, from its own file or from any ancestor's, is exactly its own bytes with its own size |
| DataCache.CacheFindsTheItem | src/data/read-through-data-cache.ts:55-120 | An item is found exactly when its own file is stored and its size known, or it is not empty and some file up its chain of parents with known hashes is stored |
| DataCache.RowsRank | src/database/standalone-sqlite.ts:968-985 | A parent table whose rows go down a rank makes the recursion well founded |
| DataCache.ParentIsFound | src/database/sql/data/content-attributes.sql:50-60 | A parent is found exactly when some parent row of the item names a known id; it is the first such row, with the parent's hash exactly if that is known too |
| DataCache.KeepIsHonest | src/data/read-through-data-cache.ts:166-213 | Passing a delivery through keeps everything known true, whatever bytes it brought if it broke off and whichever of the saving steps fail |
| DataCache.LaterHitsAreTheItem | src/data/read-through-data-cache.ts:122-218 | After any deliveries for any items, complete or broken off at any byte, whatever is served for an item under the attributes in the index is the item itself |
| DataCache.KeptIsServed | src/data/read-through-data-cache.ts:137-209 | A delivery kept in full is afterwards served from the item's own file under the attributes in the index |
| DataCache.KeptExactly | src/data/read-through-data-cache.ts:166-207 | The file is added exactly when the stream ended and was finalized, the attributes exactly when it ended and they were saved; each step may fail without the other, and nothing else changes |
| DataCache.ReadThroughDataCache.GetFromStore | src/store/fs-data-store.ts:60-86 | The file or its region; an empty region or unknown size counts as not found |
| DataCache.ReadThroughDataCache.GetCacheData | src/data/read-through-data-cache.ts:55-120 | The recursion over parents, which terminates |
| DataCache.ReadThroughDataCache.GetData | src/data/read-through-data-cache.ts:122-218 | A hit changes nothing; a miss hashes and keeps what streams by, and what is known of any item stays true whatever the delivery was |
| Streams.ReaderEmitsTheTransaction | src/data/tx-chunks-data-source.ts:58-111 | For every cutting into non-empty chunks the reader emits exactly the transaction's bytes and then ends, not before |
| Streams.FailedRequestBreaksOff | src/data/tx-chunks-data-source.ts:87-110 | When the request for a chunk fails the reader is destroyed after exactly the chunks before it, without an end |
| Streams.AsksOnlyItsOwn | src/data/tx-chunks-data-source.ts:62-106 | Whatever the source answers, the reader asks only for offsets from `offset-size+1` to `offset`, exactly when the size is not 0, and what it waits for it has asked for |
| Streams.TxChunkStream.ReadChunk | src/data/tx-chunks-data-source.ts:87-110 | One `read` call |
| Streams.ReadTransaction | src/data/tx-chunks-data-source.ts:58-111 | A consumer that reads to the end has the transaction's bytes |
| Streams.RangeTransform.Transform | src/routes/data/handlers.ts:163-190 | After each chunk the output is the range of what has streamed by |
| Streams.CutRange | src/routes/data/handlers.ts:163-192 | For every chunking, empty chunks included, the output is bytes `start` to `end` inclusive (sections 14.1.2 and 14.4 of RFC 9110) |
| FsCleanup.PrunedHasNothing | src/workers/fs-cleanup-worker.ts:133-146 | A directory that the walk does not enter holds nothing behind the last path and is not behind it itself |
| FsCleanup.WalkIsDfs | src/workers/fs-cleanup-worker.ts:115-153 | For any tree the batch is the next deletable files after `lastPath` in depth-first order, at most `batchSize`, without `.gitkeep` |
| FsCleanup.WalkTopIsFlat | src/workers/fs-cleanup-worker.ts:119-148 | With no last path the batch is the next deletable entries of the base directory itself, directories included, at most `batchSize` |
| FsCleanup.CyclesCoverExactlyAscending | src/workers/fs-cleanup-worker.ts:89-153 | Successive batches cover every deletable file exactly once for every batch size if and only if depth-first order is ascending string order |
| FsCleanup.OrderlyIsAscending | src/workers/fs-cleanup-worker.ts:120-126 | With prefix-free sibling names in string order, depth-first order is ascending |
| FsCleanup.OrderlyTreesAreCovered | src/workers/fs-cleanup-worker.ts:89-153 | For such trees, at every batch size, the batches before the empty one hand out a file if and only if it is in the tree and should go, in ascending order, so each once |
| FsCleanup.LocaleOrderLosesFiles | src/workers/fs-cleanup-worker.ts:121-140 | A locale order that is not string order loses files: batches of one never hand out `B` after `a` |
| FsDeletion.NextBatchIsTheSame | src/workers/fs-cleanup-worker.ts:89-113 | The next batch is the same whether or not the files handed out so far have been unlinked, as long as none of them is behind the last path |
| FsDeletion.DeletingCoversExactlyAscending | src/workers/fs-cleanup-worker.ts:89-153 | Coverage survives the deletions: with each batch unlinked before the next, a cycle hands out every deletable file exactly once for every batch size if and only if depth-first order is ascending string order |
| FsCleanup.FsCleanupWorker.WalkDir | src/workers/fs-cleanup-worker.ts:119-148 | The recursive loop is the walk, with and without a last path |
| FsCleanup.FsCleanupWorker.ProcessBatch | src/workers/fs-cleanup-worker.ts:89-113 | Hands out the next batch; remembers its last path, or starts over after an empty one |
| FsCleanup.FsCleanupWorker.RunCycle | src/workers/fs-cleanup-worker.ts:69-82 | Repeated batches over an unchanging tree hand out the cycle and end where they began |
| RequestBucket.Accounted | src/arweave/composite-client.ts:172-242 | Over any run of ticks, admissions and penalties, what was admitted and what is left never exceed what was there and what was filled in |
| RequestBucket.WindowIsBounded | src/arweave/composite-client.ts:189-242 | In any window of `k` ticks at most max(bucket at its start, 0) + `k` seconds' worth of requests are admitted |
| RequestBucket.BucketIsCapped | src/arweave/composite-client.ts:189-193 | The bucket never exceeds 301 seconds' worth |
| RequestBucket.WaitEnds | src/arweave/composite-client.ts:172-193 | A penalty is waited out: once the ticks outweigh the debt a request is admitted again |
| RequestBucket.Balanced | src/arweave/composite-client.ts:172-193 | Over any run the bucket is what was there and was filled in, less one for each request admitted and two to the power of the attempt for each 429 |
| RequestBucket.TrustedNode.OnSecond | src/arweave/composite-client.ts:189-193 | The filler |
| RequestBucket.TrustedNode.OnTooManyRequests | src/arweave/composite-client.ts:172-178 | The 429 penalty |
| RequestBucket.TrustedNode.TrustedNodeRequest | src/arweave/composite-client.ts:236-242 | Admits as soon as the bucket is positive, and only then |

## Left out

- HTTP, GraphQL wiring, timers, Redis, LMDB and file access: stores are maps, time is a sequence of steps, the chain source a function.
- The Postgres backend, data item tables in flushes and resets, wallets, tag name and value tables, statement texts.
- Merkle proofs, SHA hashing, msgpack and base64 encodings, the range header parser.
- Cursor-following over unflushed data items and over pending transactions: the predicates there are not a strict order on the row key.
- The union of the two tiers in a transaction page; only blocks are paged across tiers.
- Duplicate-id skipping while unbundling: the set of seen ids is tested but never filled.
- Promise caches, prefetching ahead, peers, retries other than their penalty, circuit breakers, metrics and logs.
- Filters on data items, mempool watching, offset import, bundle queues, ArNS resolution, debug information.
- BlockTables.SaveRefinesSave: a second new row at an occupied height is not represented, because the new tier is kept by height; the importer saves only above the top.
- BlockTables.StepRefines: saves go on top under a hash no stable row has, as in `SaveRefinesSave`.
- BlockTables.RunRefines: saves go on top under a hash no stable row has, as in `SaveRefinesSave`.
- TxConservation.InsertKeepsTracked: the block is saved above the top and under a new hash; `ImporterOps` proves that of the importer.
- TxConservation.StepKeepsTracked: saves are on top under a new hash and resets stay in the new tier; `ImporterOps` proves that of the importer.
- TxConservation.RunLosesExactly: saves are on top under a new hash and resets stay in the new tier, as `ImporterOps` proves of the importer; data items and tags are not tracked.
- TxConservation.NothingIsEverLost: the same runs as for `RunLosesExactly`.
- SqliteWorker.StandaloneSqliteDatabaseWorker.ResetToHeight: the heights of tag rows and data items are not represented.
- SqliteWorker.StandaloneSqliteDatabaseWorker.SaveTx: tag rows, wallets and data item heights are not represented.
- SqliteWorker.StandaloneSqliteDatabaseWorker.InsertBlockAndTxs: tag rows, wallets and data item heights are not represented.
- SqliteWorker.StandaloneSqliteDatabaseWorker.FlushStableData: the copies and deletions of tag rows are not represented.
- SqliteWorker.StandaloneSqliteDatabaseWorker.SaveBlockAndTxs: the flushes of the bundle tables are not represented.
- BlockImporter.BlockImporter.ImportBlock: a save that throws, which would leave the resets only, is not modelled.
- BlockStore.RunKeepsCoherent: expiry, eviction and failures inside one method are not modelled.
- HeightCache.ServedIsCurrent: equality is up to how an absent parent hash is written, because an empty one is stored as none; answers held in the promise cache are not modelled.
- HeightCache.ServedExactlyWhen: the promise cache and the simulated request failures are not modelled.
- HeightCache.CompositeClient.PrefetchBlockByHeight: the promise cache and the prefetching of transactions are not modelled.
- WorkerPool.ExactlyOnce: the slot of a worker is an entry of a map, not a variable captured by closures.
- Unbundle.IndexingIsHonest: the table of nested data hashes, written beside the one of nested ids, is not modelled.
- Manifest.StreamingIsLookup: keys are taken to be distinct, and arrays that the machine reacts to are excluded; `TreeRun` says what it reacts to in any text.
- TransactionPages.PageIsTop: rows of the new tier, which the page also shows, are not part of it.
- FsCleanup.CyclesCoverExactlyAscending: the tree does not change during a cycle; `FsDeletion` adds the deletions, files that appear meanwhile are not modelled.
- CachedImports.CachedStableIsFinal: the node's blocks are sane and write an absent parent as none.
- DataCache.KeepIsHonest: a delivery that ends without an error is taken to be the item itself; the cache compares it with nothing.
- ImporterConvergence.MainLoopConverges: one chain is served throughout and every poll is answered with its tip; failed polls are in `PollingEnds`, failed requests and chains that change in `ImporterRuns`.
- StableTransactions.StableBlocksAreComplete: the same runs as for `NothingIsEverLost`.
- LateTransactions.LateTransactionStaysStored: the same runs as for `NothingIsEverLost`; others can lose what two blocks share.
- DataCache.CacheServesTheItem: which of several parent rows is read is the first whose parent is known, one of those the statement may pick.
- RequestBucket.TrustedNode.TrustedNodeRequest: the wait loop is followed through a finite sequence of events.
