# A verified model of the Hathor node's consensus bookkeeping

Hathor keeps a DAG of blocks and transactions. This project models, in Dafny 4.11, the code that decides which
of them are executed, the indexes and caches that must agree with that decision, and three neighbours with
similar laws: feature activation, the DAG builder, and the event queue with the reward schedule. Code that
changes state is modelled by classes and loops; its contracts tie the new state to definitions over the DAG
alone, and the laws are proved about those definitions or as invariants of every run.

| file | what it models |
|---|---|
| `Dag.dfy` | vertices, past cones, chains, heights, work; the law of pruned traversals |
| `BlockMetadata.dfy`, `ForkChoice.dfy`, `BlockConsensus.dfy` | block consensus: scores, first blocks, fork choice, best tips, re-organizations |
| `HeightIndex.dfy`, `RocksDBHeightIndex.dfy` | the height index, as a sequence and as bytes in an ordered key-value store |
| `TxMetadata.dfy`, `AccumulatedWeight.dfy`, `TransactionConsensus.dfy` | transaction consensus: spent outputs, conflicts, voidance, and the weights that decide |
| `RemoveTransactions.dfy` | removal of voided transactions from the storage |
| `FeatureStates.dfy`, `FeatureService.dfy` | feature states as a recursion over ancestors; the service with cache and height index |
| `TipsIndex.dfy` | the interval index of the tips of one kind of vertex |
| `DagNodes.dfy`, `DagBuilder.dfy`, `TopologicalSort.dfy`, `Balances.dfy` | the DAG builder: statements, order, what a node moves |
| `NodeBalance.dfy`, `FillerProgress.dfy`, `FillerGraph.dfy`, `FillerLedger.dfy` | the filler: balancing one node, what each step reaches, what the nodes refer to, how much is taken from whom |
| `FillerRun.dfy`, `DefaultFiller.dfy`, `FillerExample.dfy` | the filler: all that is known at each step, the run itself, three descriptions |
| `Events.dfy` | event ids, event groups, load phase and restarts |
| `Rewards.dfy` | the reward schedule and the tokens mined up to a height |
| `Sequences.dfy`, `Wrappers.dfy` | sequences without repetitions; optional values |

## What is assumed

- Timestamps strictly increase from a parent or spent vertex to the vertex that refers to it. A block's first
  parent is its block parent and its other parents are transactions. There is one genesis block.
- The work of a vertex is a positive integer. The deposit for minted tokens and the tokens a block issues in the
  DAG builder are parameters: the proofs hold for any values.
- A traversal visits each reachable vertex once. The walks that go back in time may take the pending vertices in
  any order; the walks that go forward take the oldest first, as the code does.
- Lists without an order that matters (children, spenders, conflicts, candidates) are sets, so the results hold
  for every order in which the code could go through them. Network, storage, pubsub, metrics and logging are
  outside the model. Python's `assert` and `raise` are outcomes of the modelled methods.

## What was found on the way

- In the tie case of the block fork choice the code marks a re-organization if the last head is not voided
  (hathor/consensus/block_consensus.py:220-221). All heads were voided just before, so that branch is dead. A
  re-organization is reported exactly when the new block becomes the only best tip and leaves some old tip behind.
- A lock-in feature is not always active from `timeout + interval`: with a start height below one interval and a
  timeout of exactly two intervals it is one interval late. `FeatureStates.LockInActive` gives the exact condition
  and `FeatureStates.EarlyTimeout` an instance.
- Deleting from the tips index with relaxed assertions keeps the intervals exact if and only if every voided parent
  still indexed has another indexed child with the timestamp of the deleted one or an earlier one
  (`TipsIndex.MemoryTipsIndex.DelTx`); `TipsIndex.StaleParent` is an instance where it does not.
- Starting an event manager with a reload resets the storage but not the manager: it is in step with the storage if
  and only if it is new (`Events.EventManager.Start`). `Events.RestartSameManager` is an instance where it is not: the
  start succeeds and the next event is refused.
- The score of a block is the work of its whole past if and only if every transaction in that past spends only from
  blocks of the block's own chain; otherwise it is less (`Dag.ConeWorkIsWholeCone`), as at the fork of
  `Dag.ScoreLeavesOut`.
- What voids a transaction voids its dependents, through cascades of conflict resolutions too, in every run that
  completes and withdraws no hash while that hash is still being put on descendants (`TransactionConsensus.Consensus.Run`).
- A conflict goes to the transaction whose future has the most work, as far as stored weights are up to date. A stored
  weight never exceeds the work of the future, and it is exact for every transaction that is voided by its own hash and
  has no block after it (`TransactionConsensus.Consensus.Run`); a block adds nothing to the weights stored for what it
  verifies. Under that condition work alone decides (`AccumulatedWeight.WorkDecides`): a new transaction is executed if
  and only if it has more work than the future of each executed conflict and no less than that of each conflict voided
  only by itself (`TransactionConsensus.Consensus.OnNewTransaction`).
- Whether a description can be built is settled by the description (`FillerLedger.Finishes`), if it is regular: it keeps
  the kinds of the genesis nodes and the dummy, leaves no output of the dummy free, and puts no block below both the
  genesis block and another block (`DefaultFiller.Build`).
- When the filler finishes, a node moves what it should if and only if it is not a blueprint that some transaction takes
  tokens from; whether there is one can be seen in the description (`DefaultFiller.Build`). A token that is in use and
  then gets a blueprint attribute is one: `FillerExample.BlueprintOnToken`.
- The filler removes an unused dummy even if a node refers to it, and makes nodes depend on a used one even if the dummy
  depends on them. The nodes it leaves are put in order once more for the export. They name a missing node if and only if
  the description leaves the dummy unused and refers to it other than by spending, and have a cycle if and only if the
  description uses the dummy and makes it depend on an ordinary node (`DefaultFiller.Build`, for descriptions that say
  nothing about what the genesis nodes depend on). `FillerExample.ParentThatIsGone` and
  `FillerExample.CycleThroughDummy` are instances.
- The shortcut that stops halving agrees with the halving itself if and only if one more halving than the limit
  does not exceed the minimum (`Rewards.CutOffAgrees`), and so do the tokens mined up to every height with the sum of
  the rewards (`Rewards.MinedIffCutOff`).

## Model

| member | source | states |
|---|---|---|
| `Dag.WalkDone` | hathor/consensus/block_consensus.py:471-496 | A traversal of transactions that stops at a set closed under going back visits exactly what the full traversal reaches, minus that set. |
| `Dag.ConeWorkIsWholeCone` | hathor/consensus/block_consensus.py:449-531 | The chain-by-chain sum that defines a block's score is at most the work of its whole past cone, and equal to it if and only if every transaction in the cone spends only from blocks on the block's chain. |
| `Dag.ScoreLeavesOut` | hathor/consensus/block_consensus.py:449-531 | An instance where the score is less: a confirmed transaction spends from a block on another branch. |
| `BlockConsensus.Consensus.ScoreWalk` | hathor/consensus/block_consensus.py:471-496 | One walk of the score gains exactly the work of the transactions not yet counted, and marks exactly those with the block. |
| `BlockConsensus.Consensus.ScoreTxParents` | hathor/consensus/block_consensus.py:460-496 | Over all transaction parents the gain is the work of what the block confirms and its parent does not. |
| `BlockConsensus.Consensus.ScoreBlockDfs` | hathor/consensus/block_consensus.py:449-511 | The recursion that stops at the fork block returns the chain-by-chain work of the whole past; a stored score always equals the recomputed one; with marking, first blocks become exact for the new chain. |
| `BlockConsensus.Consensus.CalculateScore` | hathor/consensus/block_consensus.py:513-531 | The score is that work, and only that block's score and, if asked, the markers change. |
| `BlockConsensus.Consensus.RemoveFirstBlockMarkers` | hathor/consensus/block_consensus.py:428-447 | The pruned walk clears the markers of one block and no others; what is left is exact for the parent's chain. |
| `BlockConsensus.Consensus.MarkThenUnmark` | hathor/consensus/block_consensus.py:428-531 | Marking a block's transactions and then unmarking them restores every `first_block`. |
| `BlockMetadata.UnmarkedExactly` | hathor/consensus/block_consensus.py:428-447 | Exact markers of a block and of its parent differ in exactly the entries that name the block. |
| `BlockMetadata.MarkersUnique` | hathor/consensus/block_consensus.py:428-511 | Exact markers are determined by the chain. |
| `BlockConsensus.Consensus.FindFirstParentInBestChain` | hathor/consensus/block_consensus.py:333-356 | The walk finds the newest common block of the new block's chain and the executed chain. |
| `BlockConsensus.Consensus.AddVoidedByToMultipleChains` | hathor/consensus/block_consensus.py:262-278 | After voiding every head down to the common block, exactly the chain of the common block is executed and the markers are exact for it. |
| `BlockConsensus.Consensus.RemoveVoidedByFromChain` | hathor/consensus/block_consensus.py:321-331 | Executing a chain again makes exactly its blocks executed. |
| `BlockConsensus.Consensus.MarkAsVoided` | hathor/consensus/block_consensus.py:358-365 | The block is voided and its markers are gone, unless skipped. |
| `BlockConsensus.Consensus.UpdateNewChain` | hathor/indexes/height_index.py:108-132 | Rewriting from the first difference turns the index of one chain into the index of the other; adding never fails. |
| `BlockConsensus.Consensus.BestScore` | hathor/consensus/block_consensus.py:163-173 | The assertion that all heads have the same score always holds. |
| `BlockConsensus.Consensus.ValidHeads` | hathor/consensus/block_consensus.py:187-195 | At most one head is not voided, and those returned are exactly the heads that are not. |
| `BlockConsensus.Consensus.ExtendBestChain` | hathor/consensus/block_consensus.py:140-151 | A block on top of the single head keeps everything consistent and becomes the only tip. |
| `BlockConsensus.Consensus.TakeLead` | hathor/consensus/block_consensus.py:201-215 | A block that wins executes its chain, moves markers and index to it and leaves every score alone. |
| `BlockConsensus.Consensus.ResolveFork` | hathor/consensus/block_consensus.py:152-221 | Lower, equal and higher score: the state is consistent again. A re-organization is reported exactly when the block leads alone and leaves an old tip behind, and the common block reported is the newest that is on its chain and on the chains of all old tips. |
| `BlockConsensus.Consensus.UpdateVoidedInfo` | hathor/consensus/block_consensus.py:51-221 | All eight cases of a block arrival keep scores, executed blocks, first blocks, tips and height index consistent; the common block of a re-organization is the newest one of the new chain and all old ones. |
| `BlockConsensus.Consensus.OnNewVertex` | hathor/consensus/consensus.py:83-143 | Every arrival keeps the state consistent. A re-organization is reported exactly when the new block leads alone and leaves an old tip behind; its size is the number of blocks of the old index above the newest common block, and is positive. |
| `BlockConsensus.Consensus.Run` | hathor/consensus/block_consensus.py:51-221 | Every run of arrivals ends in a consistent state; no assertion of the algorithm fails on the way. |
| `ForkChoice.GenesisConsistent` | hathor/consensus/block_consensus.py:102-106 | The state with genesis alone is consistent. |
| `ForkChoice.ExecutedIsCommonPrefix` | hathor/consensus/block_consensus.py:131-221 | In a consistent state a block is executed if and only if it is on the chains of all highest-score blocks. |
| `ForkChoice.FirstBlockIsEarliest` | hathor/consensus/block_consensus.py:428-511 | In a consistent state `first_block` is the earliest executed block whose past holds the transaction, and unset if there is none. |
| `ForkChoice.IndexIsBestChain` | hathor/indexes/height_index.py:108-132 | In a consistent state the index is a gap-free parent path from genesis to a highest-score block and holds every executed block at its height. |
| `ForkChoice.OneValidHead` | hathor/consensus/block_consensus.py:187-195 | If one best tip is executed, all others are voided. |
| `ForkChoice.ForkIsNewest` | hathor/consensus/block_consensus.py:333-356 | The last executed block of a chain is the newest block that it shares with the chains of all best tips. |
| `ForkChoice.TieVoids` | hathor/consensus/block_consensus.py:197-221 | After a tie, every head is voided. |
| `HeightIndex.Add` | hathor/indexes/rocksdb_height_index.py:105-122 | What adding an entry must do: refuse a gap, refuse a change unless re-organizing, cut everything above a change, and leave an index that holds the entry already exactly as it is. |
| `RocksDBHeightIndex.UnpackPack` | hathor/indexes/rocksdb_height_index.py:64-93 | Reading a big-endian number back gives the number. |
| `RocksDBHeightIndex.PackUnpack` | hathor/indexes/rocksdb_height_index.py:64-93 | Writing a number read from bytes gives the bytes. |
| `RocksDBHeightIndex.PackOrder` | hathor/indexes/rocksdb_height_index.py:64-69 | The order of the bytes is the order of the numbers. |
| `RocksDBHeightIndex.KeyRoundTrip` | hathor/indexes/rocksdb_height_index.py:64-76 | A key gives back its height. |
| `RocksDBHeightIndex.ValueRoundTrip` | hathor/indexes/rocksdb_height_index.py:78-93 | A value gives back its hash and timestamp. |
| `RocksDBHeightIndex.KeyOrder` | hathor/indexes/rocksdb_height_index.py:64-69 | Keys are ordered and distinguished as heights are. |
| `RocksDBHeightIndex.LastKeyIsTip` | hathor/indexes/rocksdb_height_index.py:144-151 | The last key in byte order is that of the greatest height, and no other key is. |
| `RocksDBHeightIndex.CutAndPut` | hathor/indexes/rocksdb_height_index.py:95-122 | Deleting all keys from a height on and putting one entry represents the cut sequence. |
| `RocksDBHeightIndex.Index.constructor` | hathor/indexes/rocksdb_height_index.py:58-62 | A new index holds genesis at height zero. |
| `RocksDBHeightIndex.Index.GetHeightTip` | hathor/indexes/rocksdb_height_index.py:144-151 | The byte-ordered last entry is the greatest height and its hash. |
| `RocksDBHeightIndex.Index.Get` | hathor/indexes/rocksdb_height_index.py:130-135 | The hash at a height, or none above the tip. |
| `RocksDBHeightIndex.Index.Add` | hathor/indexes/rocksdb_height_index.py:105-128 | On bytes, adding does exactly what it must do on sequences, including both errors; it fails on a number that does not fit its field. |
| `TransactionConsensus.Consensus.RecordConflicts` | hathor/consensus/transaction_consensus.py:68-92 | A transaction gets each other spender as a conflict, and each of them gets it. |
| `TransactionConsensus.Consensus.MarkInputAsUsed` | hathor/consensus/transaction_consensus.py:58-96 | After each input, spent outputs and conflicts are exact for the inputs so far; it fails exactly on a repeated input. |
| `TransactionConsensus.Consensus.MarkInputsAsUsed` | hathor/consensus/transaction_consensus.py:52-56 | The same for all inputs. |
| `TransactionConsensus.Consensus.InheritVoidedBy` | hathor/consensus/transaction_consensus.py:169-215 | A new transaction is voided by exactly what voids what it refers to, and by itself if it has a conflict; those hashes gain its work and no others, after which the weights are up to date; what voids a transaction voids what depends on it. |
| `TransactionConsensus.Consensus.MarkVoidedConflicts` | hathor/consensus/transaction_consensus.py:228-238 | Afterwards every voided transaction with a conflict carries its own hash. If no voided conflict is confirmed and nothing above those that lack their hash has to be decided again, it completes, and exactly they are voided by themselves, on exactly their descendants; if none lacks it, nothing changes. Weights stay up to date. |
| `TransactionConsensus.Consensus.EnterVoided` | hathor/consensus/transaction_consensus.py:169-238 | Taking over what voids a new transaction, deciding the conflicts behind that and marking voided conflicts leaves a sound state with weights up to date; a transaction that inherits nothing and has decidable conflicts changes nothing here. |
| `TransactionConsensus.Consensus.UpdateVoidedInfo` | hathor/consensus/transaction_consensus.py:166-246 | If it completes, the voidance is sound: own hashes, no two executed conflicting transactions, and only conflicting ancestors void; and the subset law holds again if no hash was withdrawn while it was being spread. A double spend that inherits nothing and whose conflicts can be decided without a cascade completes: nothing changes if a candidate is heavier; otherwise the executed conflicts are voided on exactly their descendants, and the newcomer is executed unless one of them was as heavy. Weights are up to date again. |
| `TransactionConsensus.Consensus.UpdateConsensus` | hathor/consensus/transaction_consensus.py:47-50 | If it completes, spent outputs and conflicts are exact and the voidance is sound, with the subset law under the same condition; when a double spend completes, and what it leaves, as for `UpdateVoidedInfo`. |
| `TransactionConsensus.Consensus.CompareWeights` | hathor/consensus/transaction_consensus.py:272-308 | The outcome is the comparison of the stored weight with all candidates: those voided only by themselves by their stored weight, executed ones also by the work of their whole future; a tie is an executed one whose future has exactly that work. |
| `TransactionConsensus.Consensus.UpdateAccumulatedWeight` | hathor/transaction/base_transaction.py:692-740 | The walk gives the work of the whole future; with a limit, a weight above it is kept, and otherwise the result is at most that work, and is that work unless it exceeds the limit. |
| `TransactionConsensus.Consensus.AddWeight` | hathor/consensus/transaction_consensus.py:190-198 | Each of the given transactions gains the work once, and no other does. |
| `AccumulatedWeight.SumBound` | hathor/transaction/base_transaction.py:727-734 | What the walk has added up is at most the work of the future, and all of it when nothing is pending. |
| `AccumulatedWeight.FutureLeast` | hathor/transaction/base_transaction.py:727-734 | The future is the least set that holds the transaction and whatever verifies or spends from a member. |
| `AccumulatedWeight.InheritWeighed` | hathor/consensus/transaction_consensus.py:190-203 | Adding the work of a new transaction to exactly what voids it keeps all weights at most the work of the future, and exact where own hashes void and no block comes after, by the subset law. |
| `AccumulatedWeight.GrowBlockWeighed` | hathor/consensus/consensus.py:83-112 | A block may leave weights too low, but only of what it comes after, and never too high. |
| `AccumulatedWeight.DecidedMeans` | hathor/consensus/transaction_consensus.py:282-317 | After a decision the transaction is executed if and only if no candidate was heavier and none of the executed ones as heavy; the executed conflicts stay executed if and only if a candidate was heavier. |
| `AccumulatedWeight.WorkDecides` | hathor/consensus/transaction_consensus.py:282-317 | With weights up to date and no block after the transactions compared, the transaction is highest if and only if no candidate has a future of more work, and tied if and only if an executed one has a future of the same work. |
| `AccumulatedWeight.NewestWins` | hathor/consensus/transaction_consensus.py:240-317 | A new transaction whose conflicts are decided is executed if and only if it outweighs them. |
| `TransactionConsensus.Consensus.CheckConflicts` | hathor/consensus/transaction_consensus.py:259-317 | It keeps the voidance sound, the weights up to date and, unless a hash is withdrawn while being spread, the subset law. If other hashes void the transaction or a candidate is heavier, nothing changes. When the conflicts can be decided without a cascade it completes: with no candidate heavier, the losers' hashes go on exactly their descendants, and the winner's hash is withdrawn from exactly its own if no executed one was as heavy. |
| `TransactionConsensus.Consensus.VoidConflicts` | hathor/consensus/transaction_consensus.py:310-313 | Every conflict that is executed or voided only by itself is voided by its own hash on exactly its descendants, under the same condition. |
| `TransactionConsensus.Consensus.MarkAsWinner` | hathor/consensus/transaction_consensus.py:319-329 | The winner's hash is withdrawn from exactly its descendants when they all carry it and have no conflicts of their own. |
| `TransactionConsensus.Consensus.RemoveWalk` | hathor/consensus/transaction_consensus.py:331-363 | If the hash is on all descendants, the pruned walk reaches every carrier, and the check list is exactly the descendants now voided only by themselves. |
| `TransactionConsensus.Consensus.RemoveVoidedBy` | hathor/consensus/transaction_consensus.py:331-371 | The hash is withdrawn from exactly the descendants if all carry it and none has a conflict; the voidance stays sound, and so does the subset law if the hash is not being spread. |
| `TransactionConsensus.Consensus.CheckAll` | hathor/consensus/transaction_consensus.py:365-371 | Going through a check list, which may name a transaction more than once, keeps the voidance sound and, in the same way, the subset law; an empty one changes nothing. |
| `TransactionConsensus.Consensus.MarkAsVoided` | hathor/consensus/transaction_consensus.py:373-383 | A transaction that carries its hash stays as it is; otherwise, if no descendant carries the hash or is confirmed by a block and every conflicted one carries its own, the hash goes on exactly it and its descendants. |
| `TransactionConsensus.Consensus.AddVoidedBy` | hathor/consensus/transaction_consensus.py:385-433 | The hash goes on exactly the transaction and its descendants under that condition; in any case the voidance stays sound, and the subset law is kept unless a hash is withdrawn while being spread. |
| `TransactionConsensus.Consensus.AddToDescendant` | hathor/consensus/transaction_consensus.py:404-425 | One step of that walk: the descendant is voided, and by itself too if it has a conflict, with its weight calculated anew; what it starts keeps the voidance sound and the subset law for all hashes not being spread. |
| `TransactionConsensus.Consensus.OnNewTransaction` | hathor/consensus/consensus.py:83-112 | An arrival that completes keeps the state valid, the weights up to date, and the subset law unless a hash is withdrawn while being spread. An arrival without conflicts on executed ones completes and voids nothing. A double spend that can be decided without a cascade completes as `UpdateVoidedInfo` says; with no block after its self-voided conflicts the newcomer is executed if and only if its work exceeds that of the future of each executed conflict and reaches that of the others. |
| `TransactionConsensus.Consensus.OnNewBlock` | hathor/consensus/consensus.py:83-112 | A block keeps all three, whatever transactions are confirmed after it. |
| `TransactionConsensus.Consensus.Run` | hathor/consensus/consensus.py:83-112 | Over any arrivals, with any confirmations, every run that completes without an assertion failure ends in a valid state; what voids a transaction voids its dependents and weights are up to date, unless a hash was withdrawn while being spread. |
| `TransactionConsensus.NoOutputSpentTwice` | hathor/consensus/transaction_consensus.py:52-96 | In a valid state two transactions that spend one output are recorded as conflicts, are not both executed, and carry their own hash when voided. |
| `TransactionConsensus.Consensus.VoidAndRestore` | hathor/consensus/transaction_consensus.py:331-433 | Voiding and withdrawing restores `voided_by` everywhere when no proper descendant has a conflict. |
| `TxMetadata.SpreadKeeps` | hathor/consensus/consensus.py:53-55 | Putting a hash on all descendants keeps what voids a transaction a subset of what voids its dependents. |
| `TxMetadata.CarriedForward` | hathor/consensus/consensus.py:53-55 | By that subset law a carried hash is on every descendant. |
| `TxMetadata.LawIsMonotone` | hathor/consensus/consensus.py:53-55 | With no hash being spread, the law that is kept through cascades is the subset law. |
| `TxMetadata.SpreadLaw` | hathor/consensus/consensus.py:53-55 | A walk that puts a hash on all descendants, whatever happens to the other hashes on the way, keeps the law. |
| `TxMetadata.WithdrawLaw` | hathor/consensus/consensus.py:53-55 | Withdrawing a hash that is not being spread keeps it too. |
| `RemoveTransactions.Storage.UnspendInputs` | hathor/consensus/consensus.py:211-216 | A removed transaction is taken off the spenders of its inputs and off nothing else. |
| `RemoveTransactions.Storage.Detach` | hathor/consensus/consensus.py:199-216 | The first pass fails exactly on a checkpoint or an executed transaction, and collects exactly the outside parents and what would dangle. |
| `RemoveTransactions.Storage.DropChildren` | hathor/consensus/consensus.py:218-223 | Outside parents lose exactly the removed children; each was there. |
| `RemoveTransactions.Storage.RemoveFromStorage` | hathor/consensus/consensus.py:224-226 | Deleting the listed transactions one by one, some perhaps twice, deletes exactly them with their metadata. |
| `RemoveTransactions.Storage.RemoveAll` | hathor/consensus/consensus.py:181-226 | It completes exactly when all are voided, none is a checkpoint, nothing that stays depends on them and none with something to take off is listed twice; then children and spent outputs are exact inverses on what stays, and nothing dangles. |
| `RemoveTransactions.NothingDangles` | hathor/consensus/consensus.py:208-217 | The collected set is empty if and only if nothing outside depends on the removed transactions. |
| `FeatureStates.IntervalState` | hathor/feature_activation/feature_service.py:96-137 | All blocks of an interval have the state of its boundary block. |
| `FeatureStates.StateStable` | hathor/feature_activation/feature_service.py:96-137 | The state of a block never changes when the DAG grows. |
| `FeatureStates.OnlyForward` | hathor/feature_activation/feature_service.py:139-206 | Along a chain states only move forward, and an active feature stays active. |
| `FeatureStates.BitCountIs` | hathor/transaction/static_metadata.py:132-175 | The count of a bit at a block is the number of blocks of its interval, up to it, that signal the bit. |
| `FeatureStates.NextState` | hathor/feature_activation/feature_service.py:139-206 | The state of every boundary block from that of the boundary before it: the whole table of transitions, by height, criteria and the set of blocks of the last interval that signal. |
| `FeatureStates.SignalsDecide` | hathor/feature_activation/feature_service.py:96-206 | The state of any block from heights and signals alone: the feature is locked in or active exactly if some earlier interval locked it in, active exactly if besides the minimum activation height was reached an interval later, and otherwise in the state that its height and criteria fix. |
| `FeatureStates.LockInActive` | hathor/feature_activation/feature_service.py:139-206 | A lock-in feature never fails, and is active from the later of timeout plus interval and minimum activation if and only if signalling could start in time. |
| `FeatureStates.MustSignalOneInterval` | hathor/feature_activation/feature_service.py:139-206 | Mandatory signalling lasts exactly the interval before the timeout, or the one after it when it could not start in time. |
| `FeatureStates.EarlyTimeout` | hathor/feature_activation/feature_service.py:139-206 | An instance of the late case: valid criteria whose feature is still locked in one interval after the timeout. |
| `FeatureStates.PlainHolds` | hathor/feature_activation/feature_service.py:139-206 | A feature without lock-in has left the started state by its timeout, and never signals mandatorily. |
| `FeatureStates.LockInHolds` | hathor/feature_activation/feature_service.py:139-206 | The state of a lock-in feature at every height, when signalling could start in time. |
| `FeatureStates.LateHolds` | hathor/feature_activation/feature_service.py:139-206 | The same when it could not. |
| `FeatureStates.MissesIffHopeless` | hathor/feature_activation/feature_service.py:69-94 | A block misses a mandatory signal exactly when in no larger DAG a block that ends its interval on top of it reaches the threshold. |
| `FeatureStates.AcceptedExtends` | hathor/feature_activation/feature_service.py:69-94 | From a block accepted for any number of mandatory features, the interval can be completed with blocks that are all accepted, reaching every threshold. |
| `FeatureStates.CompleteSignalling` | hathor/feature_activation/feature_service.py:69-94 | The interval can be completed with blocks that signal any given bits, each counted every time. |
| `FeatureStates.StillAccepted` | hathor/feature_activation/feature_service.py:69-94 | A block below an end of the interval that reached the threshold is accepted. |
| `FeatureStates.AcceptedAtEnd` | hathor/feature_activation/feature_service.py:69-94 | The last block of an interval is accepted if and only if the count reached the threshold. |
| `FeatureStates.CountWithin` | hathor/transaction/static_metadata.py:132-175 | Within an interval the count grows by at most one for each block. |
| `FeatureService.ConsistentIsTrusted` | hathor/feature_activation/feature_service.py:227-253 | Every state the block consensus reaches has a height index the shortcut may use. |
| `FeatureService.Service.GetAncestorIteratively` | hathor/feature_activation/feature_service.py:255-270 | The loop finds the block's own ancestor at the height. |
| `FeatureService.Service.GetAncestorAtHeight` | hathor/feature_activation/feature_service.py:227-253 | So does the shortcut, on every branch. |
| `FeatureService.Service.GetState` | hathor/feature_activation/feature_service.py:96-137 | With cache and shortcut the answer is the plain recursion's, for any order of queries; cached answers are never changed. A boundary block is cached afterwards, and so is the boundary block before any block that was not. `FeatureStates.SignalsDecide` says which state it is. |
| `FeatureService.Service.GetFeatureInfos` | hathor/feature_activation/feature_service.py:208-217 | The state of every feature, as the recursion gives it. |
| `FeatureService.Service.OnConsensusUpdate` | hathor/feature_activation/feature_service.py:96-137 | The cache stays right when the DAG grows and the best chain changes. |
| `FeatureService.Service.IsSignalingMandatoryFeatures` | hathor/feature_activation/feature_service.py:69-94 | The block is accepted if and only if no mandatory feature misses its signal; otherwise the first that does, in the order they are gone through, is reported. |
| `TipsIndex.LookupExact` | hathor/indexes/memory_tips_index.py:156-157 | With exact intervals, the lookup at a time gives exactly the indexed vertices without an indexed child by then. |
| `TipsIndex.SomeTip` | hathor/indexes/memory_tips_index.py:156-157 | There is a tip at every time by which a vertex is indexed. |
| `TipsIndex.MemoryTipsIndex.Lookup` | hathor/indexes/memory_tips_index.py:156-157 | The lookup gives exactly the tips, and some once there is a member. |
| `TipsIndex.MemoryTipsIndex.AddTx` | hathor/indexes/memory_tips_index.py:77-108 | Adding keeps every interval ending at the earliest indexed child. |
| `TipsIndex.MemoryTipsIndex.UpdateTx` | hathor/indexes/memory_tips_index.py:132-154 | The interval of a vertex is computed anew and no other changes; the assertions fail exactly as stated. |
| `TipsIndex.MemoryTipsIndex.DelTx` | hathor/indexes/memory_tips_index.py:110-130 | Deleting removes exactly the vertex; intervals stay exact always in strict mode, and otherwise if and only if voided parents are covered. |
| `TipsIndex.StaleParent` | hathor/indexes/memory_tips_index.py:110-130 | An instance where deleting with relaxed assertions succeeds and leaves a wrong interval. |
| `TipsIndex.GrowKeeps` | hathor/indexes/memory_tips_index.py:77-157 | Vertices that are stored but not indexed do not disturb the index. |
| `TopologicalSort.OrderedIsSound` | hathor/dag_builder/builder.py:286-322 | An order with every node after its dependencies excludes cycles and missing names. |
| `TopologicalSort.StuckIsCyclic` | hathor/dag_builder/builder.py:302-312 | Nodes that all wait for one another contain a cycle. |
| `TopologicalSort.Strike` | hathor/dag_builder/builder.py:313-320 | After striking a name off, the candidates are again exactly the nodes with all dependencies seen. |
| `TopologicalSort.TopologicalSorting` | hathor/dag_builder/builder.py:286-322 | Every node once and after its dependencies, or it raises; it raises if and only if there is a cycle or a missing name. |
| `DagBuilder.Builder.constructor` | hathor/dag_builder/default_filler.py:35-46 | The builder starts with the genesis nodes and the dummy; tokens are nodes that may be tokens, and every named token and spent node is a dependency that exists. |
| `DagBuilder.Builder.GetOrCreateNode` | hathor/dag_builder/builder.py:129-141 | It fails exactly on a different known kind, and settles a token that was pending. |
| `DagBuilder.Builder.AddDeps` | hathor/dag_builder/builder.py:143-148 | One dependency more; typing stays. |
| `DagBuilder.Builder.AddParentEdge` | hathor/dag_builder/builder.py:177-182 | One parent more; typing stays. |
| `DagBuilder.Builder.AddSlot` | hathor/dag_builder/builder.py:187-189 | The slot exists, as a placeholder with free slots before it if it is new; set outputs stay. |
| `DagBuilder.Builder.AddSpendingEdge` | hathor/dag_builder/builder.py:184-192 | One input more, whose slot exists; set outputs and typing stay. |
| `DagBuilder.Builder.SetOutput` | hathor/dag_builder/builder.py:194-203 | The output is set, its token is HTR or a token node and a dependency; it fails exactly if the token is the name of a node of another kind. |
| `DagBuilder.Builder.SetBalance` | hathor/dag_builder/builder.py:150-164 | The balance is set and its token is HTR or a token node; it fails exactly if it was set before or the token is the name of a node of another kind. |
| `DagBuilder.Builder.AddBlueprintAttribute` | hathor/dag_builder/builder.py:243-246 | The kind of the node is overwritten, whatever it was. |
| `DagBuilder.Builder.AddContractAttribute` | hathor/dag_builder/builder.py:213-226 | A dependency is added and no node for it; a name without a node is then missing. |
| `DagBuilder.Builder.AddChainBlock` | hathor/dag_builder/builder.py:166-175 | A block of a chain with its predecessor as a parent; it fails exactly if the block's name is taken by a node of another kind. |
| `DagBuilder.Builder.Apply` | hathor/dag_builder/builder.py:106-123 | A statement fails exactly if the nodes so far refuse it, and else does what it says; the nodes stay typed and refer to what exists. `DagBuilder.SaysAll` says what that comes to. |
| `DagBuilder.Builder.Parse` | hathor/dag_builder/builder.py:100-123 | For every description: it fails exactly at a statement that the nodes read so far refuse; otherwise the nodes are typed, refer to what exists, and are exactly what the statements say: nodes, kinds, inputs, parents, dependencies, balances and outputs. |
| `DagBuilder.SaysAll` | hathor/dag_builder/builder.py:100-203 | What accepted statements leave, stated over the list as a whole: a node for each name mentioned; its inputs, parents, dependencies and balances as some statement says; each output the last that was set for it; other slots free or placeholders; and no more slots than are used. |
| `DefaultFiller.CalculateBalance` | hathor/dag_builder/default_filler.py:106-128 | Outputs minus inputs for every token that occurs or has a target; it fails exactly if an output or a spent output is not set. |
| `DefaultFiller.GetNextIndex` | hathor/dag_builder/default_filler.py:57-65 | The first free slot, or a new one when all are set. |
| `DefaultFiller.Filler.FillParents` | hathor/dag_builder/default_filler.py:67-86 | Parents are only added, from the candidates, and their number afterwards is exact. |
| `DefaultFiller.Filler.FindTxin` | hathor/dag_builder/default_filler.py:88-104 | The input refers to a slot that was not set and now holds the amount; only the node that supplies it changes, and comes to refer to nothing but genesis. |
| `DefaultFiller.Filler.TakeFromDummy` | hathor/dag_builder/default_filler.py:90-98 | The dummy spends the genesis block, gets one more output of the amount in its first free slot, and has two parents, the new ones genesis transactions, unless it had more. |
| `DefaultFiller.Filler.BalanceNode` | hathor/dag_builder/default_filler.py:130-142 | It completes exactly on resolved nodes; the node then meets every target if and only if it was not short of a token of its own name; each other node gives out what it was short of, and nothing else. |
| `NodeBalance.BalancingDone` | hathor/dag_builder/default_filler.py:130-142 | Once no token is left, the node meets all targets if and only if it was not short of a token of its own name. |
| `FillerProgress.SettledKept` | hathor/dag_builder/default_filler.py:168-274 | Later fills never disturb a finished node whose own inputs and outputs they leave alone. |
| `FillerProgress.Foreign` | hathor/dag_builder/default_filler.py:168-228 | A node moves nothing, and wants nothing, of a token outside what it depends on. |
| `FillerProgress.WaitingNet` | hathor/dag_builder/default_filler.py:168-228 | What a node not yet completed is short of is what the description says. |
| `FillerProgress.PreparedDrains` | hathor/dag_builder/default_filler.py:144-166 | Filling gaps does not change who takes tokens from whom. |
| `Balances.Undisturbed` | hathor/dag_builder/default_filler.py:88-142 | A node whose own inputs and outputs stay keeps its net value, whatever is filled elsewhere. |
| `DefaultFiller.FillGaps` | hathor/dag_builder/default_filler.py:159-166 | Free slots and placeholders get one HTR, every other output stays; it fails exactly on a zero output that is no placeholder. |
| `DefaultFiller.Filler.FillOutputs` | hathor/dag_builder/default_filler.py:150-166 | The same over all nodes but genesis, the dummy and empty blocks; a node without inputs and outputs gets one HTR. It fails exactly on such a zero output. |
| `DefaultFiller.Filler.FillTransaction` | hathor/dag_builder/default_filler.py:219-228 | It completes exactly on resolved nodes; then an ordinary or blueprint transaction meets every target but for a token of its own name, others give out what it was short of, and it has two parents, the new ones genesis transactions, unless it had more. |
| `DefaultFiller.Filler.FillBlockParents` | hathor/dag_builder/default_filler.py:182-206 | It completes exactly if there is at most one block among the parents and three parents can be reached; then there are three, the new ones from genesis or from the parents of that block. |
| `DefaultFiller.Filler.FillBlock` | hathor/dag_builder/default_filler.py:175-217 | It completes exactly if the block spends nothing, has at most one output, can have three parents and gives out no more than is issued, in HTR only; then its outputs sum to the issued tokens, with one output more exactly if something was missing. |
| `DefaultFiller.Filler.IssueTokens` | hathor/dag_builder/default_filler.py:208-217 | It completes exactly when only HTR occurs and no more than the issued amount is given out; what is missing becomes one more output, and nothing changes if nothing is. |
| `DefaultFiller.Filler.FillToken` | hathor/dag_builder/default_filler.py:237-259 | The HTR of a token node meets its target less the deposit for its final minted amount; it completes exactly if only HTR and the token itself occur, and the token does. One that meets its target already is left alone. |
| `DefaultFiller.Filler.FillDummy` | hathor/dag_builder/default_filler.py:261-274 | It fails exactly when the dummy is not resolved, moves another token, or gives out more than it spends. The dummy is removed if and only if it moves nothing; otherwise it balances exactly, and is left alone if it did. |
| `DefaultFiller.Filler.DependOnDummy` | hathor/dag_builder/default_filler.py:276-283 | All but blocks, genesis and the dummy depend on the dummy, and nothing else changes. |
| `DefaultFiller.Filler.Begin` | hathor/dag_builder/default_filler.py:144-169 | It completes exactly if there is no bad zero output, no cycle and no missing name; then kinds are known, gaps are filled and the order is topological. |
| `DefaultFiller.Filler.FillNode` | hathor/dag_builder/default_filler.py:168-235 | It completes exactly as its kind demands: a transaction if everything it moves is set, a block as `FillBlock`, others always. It balances the node at the cost of others or keeps to itself; what it comes to refer to is only genesis, parents of its parent block, the dummy, and the tokens it is short of; and the dummy gives exactly the HTR it is short of. Its parents are filled up to the number its kind calls for. |
| `DefaultFiller.Filler.FillInOrder` | hathor/dag_builder/default_filler.py:168-235 | For a regular description it completes exactly if no node fails as described. After the nodes in their order, each is settled but for blueprints drained by those done so far; those still waiting have given exactly what the description makes the others take. |
| `DefaultFiller.Filler.FillTokens` | hathor/dag_builder/default_filler.py:237-259 | For a regular description it completes exactly if in each token node only HTR and the token occur, and the token does or is taken by someone. Each gets exactly its HTR with the deposit for all that is taken from it, and the others are not disturbed. |
| `FillerGraph.TracedStep` | hathor/dag_builder/default_filler.py:168-259 | Each step makes nodes refer only to what comes before them or to the dummy, and gives what the dummy reaches no way back to it. |
| `FillerLedger.LedgerStep` | hathor/dag_builder/default_filler.py:168-235 | Completing a node makes every other node give out exactly what the description says it is short of, and the dummy exactly the HTR. |
| `FillerLedger.StepFitsIff` | hathor/dag_builder/default_filler.py:168-235 | Whether completing the next node fails is the same in the run and in the description. |
| `FillerLedger.ParentsFitIff` | hathor/dag_builder/default_filler.py:182-206 | A block can be given three parents if and only if it is described with at most one block and, with that or the genesis block, at most three parents: its parent block always has two to hand on. |
| `FillerLedger.TokenFitsIff` | hathor/dag_builder/default_filler.py:237-252 | Whether completing a token node fails is the same in the run and in the description. |
| `FillerLedger.DummyFitsIff` | hathor/dag_builder/default_filler.py:261-274 | At the end the dummy fails exactly if the description makes it move another token, spend a free output, or give out more than it spends, where it gives the sum of what all nodes are short of. |
| `FillerLedger.IdleIff` | hathor/dag_builder/default_filler.py:261-266 | It moves nothing if and only if nothing is described of it, no transaction is short of HTR and no token node is with its deposit. |
| `FillerRun.RunDone` | hathor/dag_builder/vertex_exporter.py:534 | What the description says about a finished run: which nodes are done, what is kept, whether the dummy is there, and whether the nodes name a missing one or have a cycle. |
| `DefaultFiller.Filler.Run` | hathor/dag_builder/default_filler.py:144-283 | For a regular description the run finishes exactly if the description says so. When it finishes, every ordinary and blueprint transaction meets its targets, every token node its HTR target less the deposit, every block issues its tokens and the dummy balances, with the exception of exactly the blueprints that some transaction takes tokens from. Kinds, inputs, balances and set outputs of the description are kept; what is added is parents up to the number each kind calls for, one HTR in every output left open, and the dummy as a dependency if it stays; there was no cycle and no missing name. The dummy is removed exactly if the description leaves it unused; with that the description settles whether the result can be put in order again. |
| `DefaultFiller.Build` | hathor/dag_builder/builder.py:324-332 | For every description: if the build finishes, no statement was refused, the nodes are what the statements say, completed as `Run` says, there is no cycle and no missing name in what the statements say, and every node moves what it should, except exactly the blueprints that some transaction is short of a token of. For a regular one, the statements settle whether the build finishes; they also settle whether the dummy is removed and whether the result has a missing name or a cycle. |
| `FillerExample.BlueprintOnToken` | hathor/dag_builder/builder.py:243-246 | A description that is built and leaves a blueprint unbalanced. |
| `FillerExample.ParentThatIsGone` | hathor/dag_builder/default_filler.py:261-266 | A description that is built and leaves a node with a parent that was removed. |
| `FillerExample.CycleThroughDummy` | hathor/dag_builder/default_filler.py:276-283 | A description that is built and leaves a cycle through the dummy. |
| `Events.GroupContiguous` | hathor/event/event_manager.py:189-241 | The events of a group are one stretch, with its start first and its end last. |
| `Events.GroupOpened` | hathor/event/event_manager.py:204-216 | Every event of a group follows the start event of that group. |
| `Events.EarlierGroupClosed` | hathor/event/event_manager.py:218-227 | Every group but the last was closed by its end event. |
| `Events.ClosedIff` | hathor/event/event_manager.py:128-134 | The test on the last event alone decides whether a group is open. |
| `Events.PhaseSays` | hathor/event/event_manager.py:189-241 | The state kept along a log is what the log as a whole says: which group is unfinished, if any, and how many were started. |
| `Events.RecordedExactly` | hathor/event/event_manager.py:189-256 | What may be recorded next, and with which id and group, from the started and unfinished groups of the log. |
| `Events.EventStorage.SaveEvent` | hathor/event/storage/rocksdb_storage.py:77-90 | An event is stored if and only if its id is the next one. |
| `Events.EventStorage.ResetEvents` | hathor/event/storage/rocksdb_storage.py:115-123 | The log is empty and its caches with it. |
| `Events.EventManager.Start` | hathor/event/event_manager.py:87-126 | A resume succeeds if and only if every started group in the log was finished; a reload empties the log, succeeds if and only if the manager's last event left no group open, and leaves it in step if and only if it is new. |
| `Events.EventManager.CreateEvent` | hathor/event/event_manager.py:189-256 | It fails exactly on a start while a group is unfinished and on a finish while none is; the event gets the next id, and as its group the number of groups started before it if it starts one, that of the unfinished group if there is one, and none otherwise. |
| `Events.EventManager.HandleEvent` | hathor/event/event_manager.py:177-187 | In step, the log grows by exactly that event or it fails as `CreateEvent` does, and the storage never refuses; a manager whose next id is not the log's is refused and the log stays. |
| `Events.EventManager.LoadStarted` | hathor/event/event_manager.py:142-150 | The load event is stored and the node state saved. |
| `Events.EventManager.LoadFinished` | hathor/event/event_manager.py:152-160 | The end of the load is stored and the node state saved. |
| `Events.EventManager.HandleLoadPhaseVertices` | hathor/event/event_manager.py:270-311 | On a reload the load phase appends one event for each vertex and nothing otherwise; interrupted at a vertex, or after the last one before the rest is saved, exactly the full batches before it are stored. |
| `Events.EventManager.Proceed` | hathor/manager.py:286-464 | A session stopped anywhere, load events on every start included, appends exactly the events planned up to there: the load events, one for each vertex on a reload, in full batches if it is interrupted, and its own events up to the first that cannot be recorded; and the node state of the last load event is saved. The manager is ahead of the log exactly if an interrupted load lost a batch. |
| `Events.EventManager.HandleKinds` | hathor/event/event_manager.py:177-187 | Events are recorded one after the other, up to the first that starts a group while one is unfinished or finishes one while none is. |
| `Events.RunSession` | hathor/event/event_manager.py:87-311 | A session with a new manager starts if and only if it reloads or every group started in the log was finished; otherwise log and node state stay. A reload begins with an empty log; the log then grows as `Proceed` says, with a crash recorded last unless a batch was lost. |
| `Events.RunSessions` | hathor/event/event_manager.py:87-311 | Over any sessions with new managers, stopped or crashed anywhere, in a load phase included, each leaves what `RunSession` says of what the one before left; the stored ids are 0, 1, 2, ... and the groups are well formed. |
| `Events.RestartSameManager` | hathor/event/event_manager.py:87-126 | An instance: a manager started again for a reload is out of step, and its next event is refused. |
| `Rewards.HalvedIsDivision` | hathor/daa.py:214-228 | The repeated, clamped halving is one division by a power of two, clamped. |
| `Rewards.CutOffAgrees` | hathor/daa.py:214-228 | The early cut-off agrees with halving at every height if and only if one more halving than the limit does not exceed the minimum. |
| `Rewards.Schedule` | hathor/daa.py:214-228 | The initial reward up to the first halving, half of the reward one halving before after that, never less than the minimum, and the minimum beyond the limit of halvings. |
| `Rewards.LogLimitSuffices` | hathor/conf/settings.py:87-88 | A limit that is the floor of the base-2 logarithm of initial over minimum satisfies that condition. |
| `Rewards.GetMinedTokens` | hathor/daa.py:230-251 | The loop over halvings is the sum of the rewards halved step by step, of heights 1 to the given one, and so the sum of the rewards issued where the cut-off agrees. |
| `Rewards.MinedIffCutOff` | hathor/daa.py:214-251 | That sum is the sum of the rewards issued at every height if and only if the cut-off agrees with halving. |

## Left out

- Voidance of blocks by transactions and of transactions by blocks, `update_voided_by_from_parents` included: blocks are voided by the fork choice alone, and a forward walk that meets a block ends with the outcome `BlockReached`.
- Soft-voided transactions: the set of their ids is empty.
- Twins (`check_twins`, `set_conflict_twins`): they are labels that no decision reads.
- Weights as floating-point logarithms: work is an integer, as in the comparison itself, and `weight_to_work` is not modelled.
- TransactionConsensus.Consensus.CheckConflicts: the mutual recursion of the conflict resolution carries a fuel argument, because the code has no bound of its own; running out of fuel is a separate outcome, and everything stated for `Done` holds for every fuel.
- TransactionConsensus.Consensus.UpdateVoidedInfo: the subset law of the consensus docstring is not promised if, in a cascade of conflict resolutions, a hash is withdrawn while an outer walk is still putting it on descendants; the ghost result `clean` says whether that happened.
- TransactionConsensus.Consensus.OnNewTransaction: that work alone decides is stated where no block comes after a conflict that is voided only by itself; a block adds nothing to stored weights, and with one the stored weights decide, as stated without that condition.
- TransactionConsensus.Consensus.VoidConflicts: where exactly hashes go is stated when no further conflict has to be decided, here and for the other steps of the conflict resolution; through a cascade, soundness and the subset law are.
- RemoveTransactions.Storage.RemoveAll: says nothing about `conflict_with`, which the code does not update, nor about the indexes, from which a transaction listed twice is taken twice.
- The mempool tips index and the all-vertices tips index: the first has no single definition behind its two update rules, the second keeps voided vertices and skips parents of the other kind.
- DefaultFiller.Filler.Run: when it finishes is stated for regular descriptions: genesis nodes and dummy keep their kinds, no output of the dummy is left free, and no block is described with both the genesis block and another block for a parent. Otherwise the order of the run matters as well, such as whether a free output of the dummy is filled before a node that spends it is completed. Whether the dummy is removed is stated where those kinds are kept, and the order of the result where besides the genesis nodes depend on nothing.
- DagBuilder.Builder.Parse: starts from statements, not from text; attributes that change nothing of the nodes as modelled, and the export of nodes as vertices, are left out.
- `calculate_next_weight`, `hathor/difficulty.py` and other floating-point code.
- Nano contract indexes, wallets, signatures, hashing, the peer-to-peer and HTTP layers, RocksDB itself.
