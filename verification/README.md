# The `rex-sim` state layer, modelled and verified in Dafny

`rex-sim` keeps an in-memory copy of chain state that is filled lazily: a read is answered from the published
snapshot or fetched from a node, and a single writer turns one snapshot into the next as chain notifications
arrive. The copy must always answer as the node's full state would at the tip. This project models that layer
and proves that it does, over every interleaving of readers, fetches, flushes, timeouts and swaps, under the
hypotheses stated below; where the code does not meet a property, a lemma gives an input that breaks it and
another gives the exact condition under which it holds.

## How the model is laid out

| file | what it models |
|---|---|
| `Types.dfy`, `Chains.dfy` | hashes, requests, tagged caches; blocks, notifications, and the full node with its ancestry |
| `ManagerCore.dfy` | the generic fetch manager as a state machine whose actions are the stretches of its loop between two awaits |
| `FetchManager.dfy` | the same manager as a class whose methods update its fields, each proved to make exactly the machine's move |
| `Callers.dfy`, `Caching.dfy` | the way of one request through a manager, from its arrival to its own fetch's result; what each of the four caches holds and gives back |
| `ManagerProofs.dfy`, `FlushProofs.dfy`, `AbandonedFetches.dfy` | what every interleaving of one manager keeps: accounting, exactly-once replies, epochs, provenance, the flush barrier, and what becomes of the fetches a timed-out flush gives up on |
| `Managers.dfy` | the four kinds of fetch and the code-hash check |
| `Snapshots.dfy`, `Transitions.dfy` | snapshots, lookups, reads, the guard; commit, reorg, revert, mark-stale as functions and as the in-place loops that compute them |
| `Validation.dfy`, `Changesets.dfy` | continuity verdicts and the single writer |
| `Turns.dfy`, `Stores.dfy` | what one turn of the writer makes of every field, said of the notification's own outcome and blocks, and that every store of a run is such a turn |
| `Coherence.dfy`, `ChainIndex.dfy`, `Splitting.dfy` | one writer turn against the node's truth; block-hash index and receipt window against ancestry; one commit against two |
| `Systems.dfy`, `Refinement.dfy`, `Linearizability.dfy`, `Memory.dfy`, `IndexBound.dfy`, `TornReads.dfy` | readers, four managers and the writer composed; what reads return, what the published snapshot remembers, and what a guard promises, over whole runs |
| `Parties.dfy`, `Reads.dfy`, `Barrier.dfy`, `LateAnswers.dfy`, `Hints.dfy` | whole runs without any assumption about the RPC: accounting, what becomes of each read, which requests may contribute to a snapshot, abandoned fetches, code registrations and the fetches that use them |
| `Artifacts.dfy` | file names of captured notifications, printed and parsed |

`Step` (one manager) and `SystemStep` (everything) are total: an action that is not enabled changes nothing, so
a property of every list of actions is a property of every interleaving. The publication of a snapshot is two
steps, the store and the generation bump. A timeout is a nondeterministic choice. Memory is sequentially
consistent.

## Hypotheses

They are predicates of the model, and each theorem names the ones it needs.

- `Admissible`, RPC: a successful account or slot answer to a request for a block number equals the node's at the
  block hash the request carries, if that hash's own number is the one asked for; and a block hash asked at or below
  that block's height is its ancestor's. The code pins a fetch by block number only
  (`crates/rex-sim/src/managers.rs:76-79`, `crates/rex-sim/src/rpc.rs:71`, `crates/rex-sim/src/rpc.rs:238`), so this
  is about the node, not established by the code. Of an account or slot asked at any other number nothing is
  assumed. Code answers are arbitrary, for every address and number: the hash check is in the model.
- `Admissible`, readers: nothing is read before the first publication, as clients await `ready`
  (`README.md:117-120`). `EarlyReadsAreMerged` gives the exact condition for a client that does not wait.
- `Faithful`, `Linked`: the chains notified are the node's own, parent-linked, genesis not among them, hashes
  identify blocks, and the notified outcome itself, account by account and slot by slot, says what the node did.
  `ContractsTrue`: the code an outcome lists is stored under its hash. `NoCollisions`: keccak is collision free.
- `Harmless`: a connecting commit deletes no account the snapshot holds, and a commit accepted after a gap missed
  no change to a key that is held and that it does not write. It is not only assumed: `NextTrueIffHarmless` shows
  it is exactly when the next snapshot is true.
- `Connected`, for block hashes and receipts only: a reorg's two chains share the parent of their first blocks,
  notifications accepted without validation stay on the chain remembered, and a commit that leaps over a gap finds
  nothing wrong indexed in it (`LeapAgreesIffHoleAgrees`: exactly that is needed). A client may ask for block
  hashes above the tip; `AsksWithinRun`, that none does, is needed for one theorem only.
- Numbers are unbounded: block numbers stay below the 64-bit maximum.

## Where the code and its documentation part

- `docs/DESIGN.md:133-139` says a stale snapshot recovers "from scratch". After a gap, `mark_stale` keeps accounts
  and slots (`crates/rex-sim/src/transitions.rs:224-228`) and the accepted commit builds on that clone
  (`crates/rex-sim/src/transitions.rs:152`). The model follows the code: `GapRecoveryKeepsOldValues` is a run that
  recovers to a false snapshot. The same passage lets only a commit recover; the code validates a reorg as if the
  snapshot were live (`crates/rex-sim/src/changeset.rs:238-242`), so a matching reorg clears staleness too.
- `docs/DESIGN.md:117-123` applies account diffs onto held entries. A deletion arrives with `info: None` and is
  skipped (`crates/rex-sim/src/transitions.rs:111-115`): `DeletionIsMissed`.
- `docs/DESIGN.md:149-150` takes a `Valid` verdict to mean a good result. Between the two steps of `swap`
  (`crates/rex-sim/src/state.rs:171-174`) a guard checks as `Valid` with another snapshot already published:
  `ValidCanMissOneStore` is such a run from a fresh system. `ValidMeansNotTorn` says exactly when that is so, and
  `ValidCoversAccountReads` what the verdict is good for otherwise.
- `docs/DESIGN.md:89-93` says the code manager accumulates the hints it is sent. They are drained when a request is
  received at the select (`crates/rex-sim/src/manager_core.rs:177-178`) and not when the next one is picked up behind
  it (`crates/rex-sim/src/manager_core.rs:214`): `RegistrationInTimeCanBeMissed` is a run in which a registration
  arrives before the request it is for, which then fails with `MissingAddressHint`. `RefusedIffNotLearnt` says a
  fetch without its own hint fails so exactly when its hash was not learnt at its spawn, `QueuedHintsAreLearnt` when
  hints are learnt, and `RegisteredCodeIsFound` that one learnt by then is used.
- Listing accepts names that loading never prints, so a listed file need not load back:
  `reorg_01_2_to_3_4.bincode` and `commit_5_7.bincode` do not (`ListedReorgNotLoaded`, `ListedCommitNotLoaded`);
  `ListedReorgLoadsIffCanonical` and `ListedCommitLoadsIffTwice` say exactly which do, `ReorgNamesListed` and
  `CommitNamesListed` which names are listed at all.
- Committing two chains one by one or together can differ when a held account is written and then deleted
  (`SplitCanDiffer`), again because a deletion is skipped; `SplittingLaw` says it is exactly then.

## Model

| member | source | states |
|---|---|---|
| Linearizability.LazyReadsRefineTheFullMap | crates/rex-sim/src/state.rs:242-340 | In every admissible run, an account or slot read that returned a value loaded a live snapshot and got the full node's value at the block published at that load, whether it hit the snapshot, a manager's cache or the RPC; code returned hashes to its key |
| Reads.AccountReadIsServed | crates/rex-sim/src/state.rs:242-273 | For one account read, from its load to any later moment of any run, whatever the RPC does: refused, with `StaleState`, exactly when loaded stale; answered with the held value, asking nothing, when the loaded live snapshot holds the account; otherwise, handed on, it is in the account manager, owed exactly one answer, and wherever it is there it asks for that account at the loaded snapshot's own block and hash |
| Reads.StorageReadIsServed | crates/rex-sim/src/state.rs:308-340 | The same for one slot read |
| Reads.CodeReadIsServed | crates/rex-sim/src/state.rs:275-306 | The same for one code read, asked at the loaded block and with no address hint |
| Reads.BlockHashReadIsServed | crates/rex-sim/src/state.rs:342-372 | The same for one block-hash read, asked at the loaded hash |
| Linearizability.AccountReadsRefine | crates/rex-sim/src/state.rs:242-273 | For one account read: what it returned is the full node's account at the block published at its load, and that snapshot was live, in every admissible run |
| Linearizability.StorageReadsRefine | crates/rex-sim/src/state.rs:308-340 | The same for one slot read |
| Linearizability.CodeReadsRefine | crates/rex-sim/src/state.rs:275-306 | Code a read returned hashes to what it asked for, in every admissible run |
| Linearizability.PublishedAgreesWithNode | crates/rex-sim/src/transitions.rs:145-228 | Snapshot coherence: in every reachable state each account and slot of the published snapshot, and of every snapshot a reader still holds, is the node's at its block, with that block's header and withdrawals |
| Memory.BlockHashReadsFollowTheChain | crates/rex-sim/src/state.rs:342-372 | On connected runs, whatever numbers clients ask for, a block-hash read at or below the loaded tip returns the hash of that tip's own ancestor; above it there is no ancestor to return |
| Memory.PublishedMemoryIsCanonical | crates/rex-sim/src/transitions.rs:129-211 | On connected runs every indexed hash at or below the tip is the tip's ancestor's, and what is found under a number has that number and the receipts and transaction hashes of the canonical block there, overlapping commits included |
| Memory.PublishedBlocksAreFound | crates/rex-sim/src/state.rs:55-61 | On connected runs, right after an accepted commit or reorg is published, the receipts of each of its last 64 blocks are found under the block's number, with that block's own receipts and transaction hashes |
| IndexBounds.PublishedIndexStopsAtTip | crates/rex-sim/src/transitions.rs:129-211 | If no client asks above the tip, the published index names ancestors of the tip and nothing else |
| Memory.NextRemembers | crates/rex-sim/src/changeset.rs:131-358 | One notification of any kind keeps index and receipts about the snapshot's own chain |
| Memory.PublishedWindow | crates/rex-sim/src/state.rs:69-78 | On runs without overlaps the receipt history is a contiguous ascending window ending at the published block |
| Memory.PublishedWithinDepth | crates/rex-sim/src/state.rs:69-97 | On any run at all neither history is ever longer than 64 |
| Memory.PublishedCodeOnlyGrows | crates/rex-sim/src/transitions.rs:103-126 | Over any run the published code map only grows, no entry ever changes, and every entry hashes to its key however wrong the hints |
| Linearizability.AccountReadIsTrue | crates/rex-sim/src/state.rs:242-273 | From the system invariant: what an account read returned is the node's account at the loaded block, and the loaded snapshot was live |
| Linearizability.StorageReadIsTrue | crates/rex-sim/src/state.rs:308-340 | The same for a slot |
| Linearizability.CodeReadIsTrue | crates/rex-sim/src/state.rs:275-306 | Code returned hashes to the key asked for |
| Memory.BlockHashReadIsTrue | crates/rex-sim/src/state.rs:342-372 | From the invariants: a block hash returned at or below the loaded tip is its ancestor's |
| Linearizability.LoadIsRecorded | crates/rex-sim/src/state.rs:243 | A read works on the one snapshot published at its load, for the rest of the run |
| Memory.PublishRemembers | crates/rex-sim/src/changeset.rs:131-358 | Publication keeps index and receipts about the snapshot's own chain, through commits, reorgs, reverts and going stale |
| Refinement.ExecuteKeeps | crates/rex-sim/src/changeset.rs:44-376 | The system invariant (true snapshots, every cached, flushed, queued and answered value true for its tag) holds in every state of every admissible run |
| Refinement.SystemStepKeeps | crates/rex-sim/src/changeset.rs:44-376 | One move of any party keeps that invariant |
| Refinement.PublishKeeps | crates/rex-sim/src/changeset.rs:146-176 | So does merging the four flushed caches, applying the chain and swapping |
| Refinement.FlushedCachesTrue | crates/rex-sim/src/changeset.rs:381-400 | What the four managers hand over is true of the block each is tagged with |
| Stores.EveryStoreIsATurn | crates/rex-sim/src/changeset.rs:44-376 | After any run: a publication makes of the snapshot published till then, of the notification taken up and of the four caches handed over exactly the turn that notification calls for, field by field; no other move changes what is published, and a notification taken up stays till its store |
| Turns.CommitTurn | crates/rex-sim/src/transitions.rs:145-169 | A commit that applies leaves each held or flushed account with the info the notified outcome lists for it, each such slot with the listed value, and the rest as flushed for this block or held; listed contracts join; every block is indexed by number; tip, header and withdrawals are the last block's; the receipt history is the last 64 of the old entries followed by the chain's own, and the changed accounts are the outcome's, ascending. One that does not apply changes nothing but the stale mark |
| Turns.ReorgTurn | crates/rex-sim/src/transitions.rs:193-211 | A reorg that applies starts with no account or slot, keeps all code and, up to the cut below the old chain, index and histories in order, and adds the new chain's as a commit does; one that does not apply only goes stale |
| Turns.RevertTurn | crates/rex-sim/src/transitions.rs:213-222 | A revert is stale, at the height below the chain and at no hash, without accounts and slots, with all code, and index and histories cut at that height |
| Turns.AcceptedExactly | crates/rex-sim/src/validation.rs:45-113 | A commit applies exactly on a fresh, reverted or stale snapshot, right after its block, or over it when it is a member; a reorg exactly on a fresh or reverted snapshot or when its block is the old tip or on the old chain, stale or not; a revert is never an advance |
| Refinement.SubmitKeeps | crates/rex-sim/src/state.rs:254-266 | A request reaching its manager late, however many swaps later, carries the loaded snapshot's tag |
| Coherence.NextTrueIffHarmless | crates/rex-sim/src/changeset.rs:87-358 | One turn of the writer from a true snapshot with true caches gives a true snapshot if and only if the notification is harmless |
| Coherence.CommitTrueIffUndisturbed | crates/rex-sim/src/transitions.rs:145-169 | Any commit, connected or not, gives a true snapshot exactly when nothing it keeps unwritten moved between the two blocks |
| Coherence.ConnectedCommitTrueIffNoHeldDeletion | crates/rex-sim/src/transitions.rs:109-127 | A connecting commit gives a true snapshot exactly when it deletes no account held as non-vacant |
| Coherence.ExecutionTrueIffUnwrittenTrue | crates/rex-sim/src/transitions.rs:109-122 | Applying an outcome gives truth at the new block exactly when every held entry it does not write is already true there |
| Coherence.ExecutedEntries | crates/rex-sim/src/changeset.rs:416-447 | Applying what was extracted from a notification: a held account listed with info gets the notified info, a held slot listed gets the notified value, all else stays, no account or slot key is added, and the notified contracts join |
| Coherence.DeletionIsMissed | crates/rex-sim/src/transitions.rs:111-115 | A connected commit after which a deleted account is still held with its old value |
| Coherence.GapRecoveryKeepsOldValues | crates/rex-sim/src/transitions.rs:152 | A commit accepted after a gap that keeps a value the missed block changed |
| Coherence.UnwrittenKept | crates/rex-sim/src/transitions.rs:145-169 | An accepted commit leaves a held account it does not write, and that was not flushed, exactly as it was held |
| Coherence.EarlyReadsAreMerged | crates/rex-sim/src/transitions.rs:82-94 | Reads made before any block are merged by the first commit; the result is true exactly when each early answer the chain does not overwrite is the new tip's |
| Coherence.EarlyReadGoesWrong | crates/rex-sim/src/transitions.rs:82-94 | An early account answer, true of an earlier block, that makes the first live snapshot false |
| Coherence.OtherTransitionsHoldTruth | crates/rex-sim/src/transitions.rs:193-228 | Reorg and revert start from empty accounts and slots and so keep truth unconditionally, a revert is stale and at no block, and going stale keeps truth |
| Coherence.NextAtRealBlock | crates/rex-sim/src/transitions.rs:139-166 | An accepted notification leaves a live snapshot at its tip with that block's header and withdrawals; any other leaves a stale one |
| Coherence.MergedHoldsTruth | crates/rex-sim/src/transitions.rs:75-107 | The tag check at merge keeps a true snapshot true |
| Coherence.CodeOnlyGrows | crates/rex-sim/src/transitions.rs:103-126 | Across one notification of any kind no code entry is lost or changed and each hashes to its key |
| Barrier.OnlyTipRequestsContribute | crates/rex-sim/src/transitions.rs:82-101 | In any run and whatever the RPC answers, an account, slot or block hash joins a snapshot in the merge only if the RPC gave it to a request tagged with the very block the writer builds on; a superseded request contributes nothing however late |
| LateAnswers.AbandonedAccountsNeverJoin | crates/rex-sim/src/manager_core.rs:150-169 | After a flush that ended, timed out or not, with fetches in flight: at any later publication every account the merge adds or changes was answered to a waiter that flush did not abandon, whose request was made at the block the writer builds on. An abandoned fetch joins no later snapshot, even at the same tip |
| LateAnswers.AbandonedSlotsNeverJoin | crates/rex-sim/src/manager_core.rs:150-169 | The same for slots |
| LateAnswers.AbandonedBlockHashesNeverJoin | crates/rex-sim/src/manager_core.rs:150-169 | The same for block hashes |
| Barrier.NotifyOpensFreshFlushes | crates/rex-sim/src/changeset.rs:381-394 | Taking up a notification opens four fresh flushes, so a snapshot is never built from a cache handed over for an earlier one |
| Barrier.NextHoldsNoMore | crates/rex-sim/src/transitions.rs:109-122 | No notification adds an account or slot key of its own: all keys were held or flushed |
| Barrier.CommitHoldsNoMore | crates/rex-sim/src/transitions.rs:109-122 | A commit's keys are exactly the held and merged ones |
| Parties.ExecuteExact | crates/rex-sim/src/manager_core.rs:126-212 | In every reachable state of the whole system each manager's permits, in-flight count and replies are exact, under its own configured limit, clamped to between 1 and 1024 |
| TornReads.ValidMeansNotTorn | crates/rex-sim/src/state.rs:198-221 | With the guard's three loads and the check's two at separate moments, `Valid` means at most one store since the first, and none exactly when no swap begun since is between its steps at the check; then one live snapshot was published throughout, the one the guard names |
| TornReads.VerdictsTell | crates/rex-sim/src/state.rs:198-221 | For any five moments: `WasStale` exactly when stale at the guard, `BecameStale` exactly when live there and stale at the check, and then something was stored in between; `Changed` exactly when live at both with another generation, naming the two, whose difference is the number of swaps completed in between; `Valid` exactly otherwise |
| TornReads.ValidCoversAccountReads | crates/rex-sim/src/state.rs:198-221 | After a `Valid` verdict with no swap half done, every account read loaded between guard and check that returned, returned the node's account at the guard's own block |
| TornReads.ValidCoversStorageReads | crates/rex-sim/src/state.rs:198-221 | The same for slots |
| TornReads.ValidCoversBlockHashReads | crates/rex-sim/src/state.rs:198-221 | The same for block hashes at or below the guard's block, on connected runs |
| TornReads.ValidCanMissOneStore | crates/rex-sim/src/state.rs:171-174 | From a fresh system and for any first chain, a run in which a guard taken before the swap checks as `Valid` between its two steps, with the chain's tip already published |
| TornReads.GenerationCountsNotifications | crates/rex-sim/src/state.rs:171-174 | The generation equals completed swaps equals notifications processed |
| TornReads.ExecuteCounted | crates/rex-sim/src/state.rs:171-174 | The counter trails the stores by the one swap, if any, between its two steps |
| TornReads.ExecuteMonotone | crates/rex-sim/src/state.rs:167-174 | Generation and stores never go back, and without a store the published snapshot is the same one |
| ManagerProofs.ExecAccounted | crates/rex-sim/src/manager_core.rs:126-212 | In every interleaving: running fetches plus free permits equal the limit, `inflight` is running plus unapplied completions, each received request is answered once or outstanding once, and the decrement never underflows, timed-out flushes included |
| ManagerProofs.ExactlyOnceStep | crates/rex-sim/src/manager_core.rs:126-216 | Any one move keeps each received request answered once or outstanding in one place |
| ManagerProofs.PlacesStep | crates/rex-sim/src/manager_core.rs:126-216 | Only receiving a request gives a waiter a place in the manager; no move loses, repeats or merges one |
| Callers.EveryFetchedReplyIsDelivered | crates/rex-sim/src/manager_core.rs:126-145 | In every interleaving each fetched reply carries exactly the result, success or failure, that the RPC gave to the fetch of that very waiter, whatever became of its epoch |
| Callers.ResultReachesItsCaller | crates/rex-sim/src/manager_core.rs:205-211 | And the other way round: once a fetch has its result, in every continuation its caller is answered exactly that, once, or that answer is on its way |
| Callers.LookupAnswersOrWaits | crates/rex-sim/src/manager_core.rs:180-196 | A key cached under the request's own tag is answered at once with the cached value and costs nothing; otherwise the request waits for a permit, and another tag first empties the cache, is taken and opens an epoch |
| Callers.SecondReadIsFree | crates/rex-sim/src/manager_core.rs:189-193 | In every interleaving of a guarded manager, a request whose key was already fetched and stored in this epoch under its tag is answered without a second fetch |
| Callers.SpawnCaptures | crates/rex-sim/src/manager_core.rs:200-204 | A fetch starts with the epoch and context of that moment, and its waiter is nowhere else in the manager |
| Callers.RequestsAreTakenInTurn | crates/rex-sim/src/manager_core.rs:177-214 | In every interleaving what waits in the queue is a tail of the requests as they arrived and the one at hand is right before it: none is overtaken |
| Callers.EverythingCanBeAnswered | crates/rex-sim/src/manager_core.rs:147-219 | From every reachable state and whatever the RPC says some schedule answers everything received: no permit, channel bound or flush can block the manager for good |
| ManagerProofs.AccountingStep | crates/rex-sim/src/manager_core.rs:195-212 | Any one move keeps the permit and in-flight equations |
| ManagerProofs.PermitWaitEnds | crates/rex-sim/src/manager_core.rs:196-211 | Blocked on a permit, exactly the limit is running, and any one of them finishing frees the permit and lets the spawn go ahead even with the completion channel full |
| ManagerProofs.DrainMoves | crates/rex-sim/src/manager_core.rs:152-161 | A waiting drain always has a move, and the fetches in flight get strictly closer to their end |
| ManagerProofs.DrainMeasure | crates/rex-sim/src/manager_core.rs:152-161 | In a drain nothing raises `inflight` and each applied completion lowers it by one; only the end or the timeout leaves |
| ManagerProofs.DrainCanFinish | crates/rex-sim/src/manager_core.rs:150-169 | From any point of a drain, whatever the RPC answers, some schedule ends the flush without its timeout |
| ManagerProofs.EpochHasOneTag | crates/rex-sim/src/manager_core.rs:181-187 | Two moments of a run in the same epoch have the same tag, across tags that come back |
| ManagerProofs.EpochStep | crates/rex-sim/src/manager_core.rs:150-187 | A move keeps the epoch and its tag or opens a later epoch |
| ManagerProofs.ExecProvenance | crates/rex-sim/src/manager_core.rs:126-216 | For any relation between tags, keys and RPC answers: every cached, flushed, sent and replied value stands in it, in every interleaving |
| ManagerProofs.ProvenanceStep | crates/rex-sim/src/manager_core.rs:126-216 | Any one move keeps that, the epoch guard being what makes a late completion safe |
| FlushProofs.FlushHandsOverTheEpoch | crates/rex-sim/src/manager_core.rs:150-169 | Guarded or not, a flush hands over under its tag exactly what was answered and stored since the cache was opened, the last answer for a key winning; for a guarded spec that is exactly the storable successes of the closing epoch. Without a timeout nothing is left in flight, with one all that is left belongs to a closed epoch |
| FlushProofs.ExecCollected | crates/rex-sim/src/manager_core.rs:135-187 | In every interleaving any manager's cache is exactly what was answered and stored since it was opened |
| FlushProofs.OnlyFlushesOpen | crates/rex-sim/src/manager_core.rs:162-187 | An unguarded cache is opened anew by the end of a flush and by nothing else |
| FlushProofs.CollectedKeys | crates/rex-sim/src/manager_core.rs:135-142 | The keys collected from some replies are exactly those of the replies that carry a storable success |
| FlushProofs.ExecExact | crates/rex-sim/src/manager_core.rs:135-187 | In every interleaving the cache of a guarded manager holds all the storable successes of its current epoch and nothing else |
| Caching.AccountCacheHolds | crates/rex-sim/src/managers.rs:39-53 | Over any run of the account manager the cache holds exactly the accounts found by fetches under its current tag, with a value so found; a vacant answer is not kept; a lookup under that tag gives the kept value back |
| Caching.StorageCacheHolds | crates/rex-sim/src/managers.rs:163-177 | The same for slots by account and index, zero values included |
| Caching.BlockHashCacheHolds | crates/rex-sim/src/managers.rs:216-230 | The same for block hashes by number |
| Caching.CodeCacheHolds | crates/rex-sim/src/managers.rs:107-121 | The code manager's cache holds exactly the code fetched since the last flush, whatever block or tag it was asked at, and a lookup gives it back |
| AbandonedFetches.AbandonedFetchesOnlyAnswer | crates/rex-sim/src/manager_core.rs:135-169 | After any flush of any run, however the run goes on: each caller it left in flight is answered exactly once or still in flight, what it is answered is the very result its own fetch got, and every entry of the cache and of every later flushed cache was answered to another waiter under that cache's tag, never by an abandoned fetch |
| FlushProofs.EveryReplyIsAnRpcAnswer | crates/rex-sim/src/manager_core.rs:177-216 | In every interleaving each successful reply, cached entry and flushed entry is a response the RPC gave during the run to a request with the same tag and key |
| FetchManagers.FetchManager.constructor | crates/rex-sim/src/manager_core.rs:94-118 | A new manager is empty, untagged, at epoch 0 with all permits free |
| FetchManagers.FetchManager.DrainSide | crates/rex-sim/src/manager_core.rs:120-124 | Every queued side message reaches the context, oldest first |
| FetchManagers.FetchManager.ApplyDone | crates/rex-sim/src/manager_core.rs:126-145 | Always counts and answers; stores only a storable success of this epoch, or of any when unguarded |
| FetchManagers.FetchManager.CheckTag | crates/rex-sim/src/manager_core.rs:181-187 | A request under another tag empties the cache, takes the tag and opens an epoch; any other changes nothing |
| FetchManagers.FetchManager.ServeRequest | crates/rex-sim/src/manager_core.rs:180-195 | A cached key is answered at once, any other waits for a permit |
| FetchManagers.FetchManager.SpawnTask | crates/rex-sim/src/manager_core.rs:196-214 | With a permit, one fetch starts under the current epoch and context, then the next queued request is taken |
| FetchManagers.FetchManager.SendCache | crates/rex-sim/src/manager_core.rs:162-168 | Hands over tag and cache, resets both, opens an epoch |
| FetchManagers.FetchManager.FinishTask | crates/rex-sim/src/manager_core.rs:205-211 | A fetch with its result frees its permit before it sends |
| FetchManagers.FetchManager.SendDone | crates/rex-sim/src/manager_core.rs:208-210 | A finished fetch sends only when the bounded channel has room |
| FetchManagers.FetchManager.Act | crates/rex-sim/src/manager_core.rs:147-219 | Any section of the loop, tasks or environment changes the fields exactly as the state machine says |
| FetchManagers.FetchManager.Run | crates/rex-sim/src/manager_core.rs:147-219 | So does any schedule of them |
| FetchManagers.FetchManager.AwaitDone | crates/rex-sim/src/manager_core.rs:152-154 | One wait of the drain: with any environment moves in between, `inflight` drops by one exactly when a completion came, and tag and epoch stand |
| FetchManagers.FetchManager.Drain | crates/rex-sim/src/manager_core.rs:151-161 | The drain loop terminates with nothing in flight or the deadline passed, in the same epoch and under the same tag |
| FetchManagers.FetchManager.Flush | crates/rex-sim/src/manager_core.rs:150-169 | The flush branch is `BeginFlush`, then environment moves and received completions, then `EndFlush`; it hands over, under the old tag, exactly what was answered and stored since the cache was opened, empties the cache, opens one epoch, and without a timeout leaves nothing in flight |
| Managers.GetCodeByHash | crates/rex-sim/src/rpc.rs:132-194 | Code is accepted only if it hashes to the key. `MissingAddressHint` comes exactly when the request has no hint and its hash is not registered. Otherwise the code is asked for at the request's hint or, failing that, at the registered address, at the request's block, and code the RPC gives there is returned if it hashes to the key and refused as a mismatch if not; its error is passed on |
| Managers.SpecsAreLawful | crates/rex-sim/src/managers.rs:22-235 | All four specs answer what they store, and tag every request exactly when guarded |
| Managers.LastRegistrationWins | crates/rex-sim/src/managers.rs:123-125 | After a drain the hint for a hash is the address registered for it last |
| Hints.EveryAccountIsRegistered | crates/rex-sim/src/managers.rs:55-62 | In every interleaving the account manager has sent one registration per resolved account, in the order it answered them, whatever epoch the answers were of |
| Hints.FoundAccountIsRegistered | crates/rex-sim/src/manager_core.rs:135-145 | In every interleaving, once the caller of a successful account fetch is answered its code hash has been registered at its address, even if the fetch was abandoned by a flush or overtaken by another tag |
| Hints.HintsFollowAccounts | crates/rex-sim/src/managers.rs:55-142 | In every reachable system state the code manager's hints, once what is queued and under way has arrived, are those of every account ever resolved, the last one winning: no registration is lost, repeated or reordered |
| Hints.QueuedHintsAreLearnt | crates/rex-sim/src/manager_core.rs:120-124 | Back at its select the code manager learns every queued registration, the last one for a hash winning, and forgets none |
| Hints.RegisteredCodeIsFound | crates/rex-sim/src/managers.rs:131-143 | In any run of the whole system: a hash registered with the code manager by the time its fetch is spawned is fetched at the registered address, and code there that hashes to it reaches the caller, once |
| Hints.RefusedIffNotLearnt | crates/rex-sim/src/managers.rs:139-142 | A fetch without its own hint fails with `MissingAddressHint` exactly when its hash was not among the hints learnt at its spawn |
| Hints.RegistrationInTimeCanBeMissed | crates/rex-sim/src/manager_core.rs:177-214 | A run in which a registration reaches the code manager before the request it is for, and the request is still refused for want of a hint |
| Validation.CommitAcceptedIffConnected | crates/rex-sim/src/validation.rs:45-75 | On a live block a linked chain is accepted exactly when that block is its first block's parent or a member, and then the tip is that block or descends from it |
| Validation.CommitRefusalNamesTheHole | crates/rex-sim/src/validation.rs:61-74 | A refused chain is an overlap mismatch or a gap with the right bounds, by where it starts |
| Validation.ReorgAcceptedIffOnOldChain | crates/rex-sim/src/validation.rs:90-113 | A reorg is accepted exactly when the current block is on the old chain; then the cutoff block is an ancestor of it, and of the new tip when the new chain forks there |
| Validation.MemberIsContained | crates/rex-sim/src/validation.rs:62-66 | Scanning by number and hash finds the current block exactly when its hash is on the chain |
| Transitions.MergeInto | crates/rex-sim/src/transitions.rs:75-107 | In place: a tagged cache joins only under the current hash or when empty, code always |
| Transitions.WriteSlots | crates/rex-sim/src/transitions.rs:117-121 | In any order: exactly the held slots of the account that are listed change, and no key is added |
| Transitions.ExecuteInto | crates/rex-sim/src/transitions.rs:109-127 | The nested loops give one result for every iteration order of the changes: held entries overwritten where listed, code added |
| Transitions.BlocksInto | crates/rex-sim/src/transitions.rs:129-143 | Pushing block by block gives the last 64 receipts, the extended index and the tip's header and withdrawals |
| Transitions.SortedKeysAscend | crates/rex-sim/src/transitions.rs:161-163 | The recorded changed accounts are all the changed addresses, ascending |
| Transitions.BuildCommitState | crates/rex-sim/src/transitions.rs:145-169 | The in-place build computes the commit function: merge, then outcome, then blocks, then the tip record |
| Transitions.CopyHistoryBefore | crates/rex-sim/src/transitions.rs:171-191 | Histories and index are copied up to the cutoff, in order, and code whole |
| Transitions.BuildReorgState | crates/rex-sim/src/transitions.rs:193-211 | The in-place build computes the reorg function from an empty snapshot |
| Transitions.BuildRevertState | crates/rex-sim/src/transitions.rs:213-222 | And the revert function: stale, at the ancestor's number, with no hash |
| Snapshots.StateSnapshot.PushReceipts | crates/rex-sim/src/state.rs:69-78 | The history becomes its newest 64 entries with the new one last |
| Snapshots.StateSnapshot.PushChangedAccounts | crates/rex-sim/src/state.rs:91-97 | The same for changed accounts |
| Snapshots.FirstReceipts | crates/rex-sim/src/state.rs:55-67 | A lookup finds an entry of the block exactly when the history has one, and then the earliest |
| Snapshots.FirstChanged | crates/rex-sim/src/state.rs:84-89 | The same for changed accounts |
| Snapshots.StaticState.Swap | crates/rex-sim/src/state.rs:171-174 | Both steps in order: in between, the new snapshot is published under the old generation |
| Snapshots.StaticState.Store | crates/rex-sim/src/state.rs:172 | The first atomic step publishes the snapshot and leaves the counter |
| Snapshots.StaticState.Bump | crates/rex-sim/src/state.rs:173 | The second adds one to the counter and leaves the snapshot |
| ChainIndex.CommitRemembers | crates/rex-sim/src/transitions.rs:129-159 | After an accepted commit, overlapping or not, index and receipts are about ancestors of the new tip |
| ChainIndex.ReorgRemembers | crates/rex-sim/src/transitions.rs:171-211 | After an accepted reorg cut at the fork they are about the new chain |
| ChainIndex.RevertRemembers | crates/rex-sim/src/transitions.rs:213-222 | After a revert they are about the block reverted to |
| ChainIndex.LeapAgreesIffHoleAgrees | crates/rex-sim/src/transitions.rs:152-166 | A commit accepted over a gap leaves a right index exactly when what was indexed in the gap, by clients asking above the tip, is right for the new chain |
| ChainIndex.IndexedAgrees | crates/rex-sim/src/transitions.rs:130-137 | Indexing a chain's blocks gives an index right up to its tip exactly when the index was right below them |
| ChainIndex.ReceiptsAreCanonical | crates/rex-sim/src/state.rs:55-67 | What is found under a number is a block at or below the tip and carries the canonical block's own receipts and transaction hashes, even if the block was recorded twice |
| ChainIndex.AppliedBlocksAreFound | crates/rex-sim/src/transitions.rs:129-143 | The same for one turn of the writer |
| ChainIndex.NextWindow | crates/rex-sim/src/transitions.rs:129-211 | One notification without overlap keeps the receipts a contiguous window ending at the snapshot's block |
| ChainIndex.NextWithinDepth | crates/rex-sim/src/state.rs:69-97 | One notification of any kind keeps both histories within 64, and an accepted one records its tip's changes last |
| ChainIndex.TipChangesAreFound | crates/rex-sim/src/state.rs:84-89 | After an accepted notification changed accounts are found under the tip's number; unless the number was recorded before, they are the accounts the notified outcome lists, ascending |
| ChainIndex.UpToIsFilter | crates/rex-sim/src/transitions.rs:172-176 | The copied receipts are exactly those at or below the cutoff |
| Changesets.ExtractExecutionChanges | crates/rex-sim/src/changeset.rs:416-447 | In any iteration order the changes carry each account's info and slots, and the contracts |
| Changesets.ChangesetManager.Handle | crates/rex-sim/src/changeset.rs:47-375 | One turn: the published snapshot is the one the verdict calls for, the generation adds one, an update goes out exactly when a commit or reorg is accepted or a revert comes, naming the published block, hash and generation, and `ready` fires once, at the first applied tip |
| Changesets.ChangesetManager.Run | crates/rex-sim/src/changeset.rs:44-376 | A stream of notifications folds to one snapshot, and the generation counts them |
| Splitting.SplittingLaw | crates/rex-sim/src/transitions.rs:109-166 | Two commits and one commit of everything with composed outcomes agree on receipts, index, header, withdrawals, slots, code and position always, and on accounts exactly when no held account is written by the first and deleted by the second |
| Splitting.WrittenThenDeletedDiffers | crates/rex-sim/src/transitions.rs:109-166 | Where the condition fails: committed one by one the written value stays, committed together the value held before |
| Splitting.SplitCanDiffer | crates/rex-sim/src/transitions.rs:111-115 | A snapshot, two outcomes and two blocks for which it fails |
| Splitting.ExecutionsCompose | crates/rex-sim/src/transitions.rs:109-127 | Two outcomes in turn against their composition, with the same exact condition |
| Splitting.BlocksCompose | crates/rex-sim/src/transitions.rs:129-143 | Block data in two parts or one: same window of 64, same index, same header |
| Artifacts.ReorgNamesRoundTrip | crates/rex-sim/src/artifacts.rs:29-102 | For all u64 quadruples, parsing the printed reorg name returns the quadruple |
| Artifacts.CommitNamesRoundTrip | crates/rex-sim/src/artifacts.rs:17-63 | For all u64 blocks, parsing the printed commit name returns the block |
| Artifacts.NamesAreInjective | crates/rex-sim/src/artifacts.rs:16-35 | Different reorgs, and different commits, never share a name |
| Artifacts.ListedReorgLoadsIffCanonical | crates/rex-sim/src/artifacts.rs:78-102 | A listed quadruple prints back to the name it was listed from exactly when its four fields are canonical decimals |
| Artifacts.ListedReorgNotLoaded | crates/rex-sim/src/artifacts.rs:29-102 | `reorg_01_2_to_3_4.bincode` is listed as (1, 2, 3, 4), whose printed name is another |
| Artifacts.ListedCommitLoadsIffTwice | crates/rex-sim/src/artifacts.rs:17-63 | A listed commit prints back to the name it was listed from exactly when the name holds one canonical decimal twice |
| Artifacts.ListedCommitNotLoaded | crates/rex-sim/src/artifacts.rs:17-63 | `commit_5_7.bincode` is listed as block 5, whose printed name is another |
| Artifacts.PrintThenParse | crates/rex-sim/src/artifacts.rs:60-94 | Parsing a printed u64 gives it back |
| Artifacts.ReadsWhatIsSpelt | crates/rex-sim/src/artifacts.rs:60-98 | A string is read as a number exactly when it is that number's decimal, behind any zeros and at most one plus sign, and the number fits 64 bits |
| Artifacts.CommitNamesListed | crates/rex-sim/src/artifacts.rs:55-63 | A file is listed as a commit of a block exactly when its name is the prefix, a spelling of the block, an underscore and anything that ends in the suffix |
| Artifacts.ReorgNamesListed | crates/rex-sim/src/artifacts.rs:78-101 | A file is listed as a reorg exactly when its name is the prefix, spellings of the four bounds in their places and the suffix |
| Artifacts.ListCommitBlocks | crates/rex-sim/src/artifacts.rs:47-68 | The listing ascends and holds each block as often as there are names that parse to it |
| Artifacts.ListReorgs | crates/rex-sim/src/artifacts.rs:70-108 | The same for reorgs, in lexicographic order of the four bounds |

## Left out

- gRPC, bincode, reconnect and backoff, the EVM, and the HTTP side of the RPC client: transport, with only easy bounds.
- Header, receipt and withdrawal contents are opaque; keccak is an arbitrary function of the node.
- Wall-clock timeouts: a flush timeout is a nondeterministic choice, and a reader that gives up waiting is a reader whose reply nobody looks at.
- Fairness of the manager's select: only safety, and that from anywhere some schedule answers everything.
- Closed channels and shutdown (`FetcherClosed`, the default caches of a failed flush).
- Weak memory, and wrap-around of 64-bit epochs, generations and block numbers.
- `changed_accounts` of multi-block and re-delivered commits is recorded once, at the tip; only its content, its place and its bound there are stated.
- The log sink (`extract_logs`), merge statistics and tracing: output only.
- `truncate_receipts`, `truncate_changed_accounts`, `validate_cache` and `load_revert`: nothing in the modelled paths calls them.
- File reads and directory order in `artifacts.rs`: a directory is the sequence of its names.
- `guard` and `check_guard` as calls: their five loads are separate moments of a run (`GuardAt`, `VerdictAt`).
