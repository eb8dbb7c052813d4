# A verified model of a sharded blockchain's core

The system is a blockchain with one beacon chain and several shard chains. This project models, in Dafny 4.11, the parts
of it whose correctness is not visible in any single function, and proves what they promise for every input, every run
or every reachable state. `dafny verify dfyconfig.toml` checks everything.

- **Fee estimator** (`MachineWords`, `FeeLedger`, `FeeSteps`, `FeeRestart`, `FeeRuns`, `FeeShape`, `FeeBins`,
  `FeeUnwind`, `FeeRates`, `FeeOrder`, `FeeCodec`, `FeeLayout`, `FeeSave`, `FeeEstimator`, `FeeExample`). Records of observed transactions are shared by pointer between an index, 25 bins
  and an undo stack; a pointer is a reference into a record store, so sharing and in-place marking stay visible. The class
  `FeeEstimator` runs the program's loops. Its methods are proved against relations on views (the bins as sets), and the
  facts about whole runs are proved on those: undo undoes, the panic cannot be reached, also across restarts, and saving
  and restoring keep the sharing.
- **Committee rotation** (`Committee`, `BeaconState`, `Instructions`, `BeaconProducer`, `ShardState`, `Rotation`,
  `RotationSwaps`, `Candidates`, `RotationBooks`, `BeaconCandidates`, `CandidateTimes`). The beacon assigns candidates to shards, a shard learns of it later, swaps its own
  committee and reports the swap, and the beacon replays it. `Rotation` is the state machine over all interleavings of
  beacon and shard blocks, with both directions delayed.
- **Cross-shard delivery** (`CrossShard`, `Delivery`, `CrossShardBody`, `DeliveryRuns`, `CrossShardPool`). The beacon
  links the heights of the blocks each pair of shards must pass on; the receiver's pool, producer, pre-sign check and
  update follow the links. `DeliveryRuns` composes the beacon's pool, the beacon, the check and the update.
- **Block pools** (`BlockPools`, `ChainPools`). The sorted pools with a latest valid height, capacities and eviction.
- **Merkle structures** (`MerkleStore`, `ShardTxTree`, `CrossShardBlock`). The array tree with missing nodes, the
  cross-shard tree with its paths, and the cross-shard block that carries such a path.
- **Crowdsale** (`Crowdsale`, `SaleAnswers`). The producer's running accumulator against the later replay of what it
  emitted, and against a statement of which request gets which payment.

`Sorting` states what the library sorts give, `Filtering` what the elements of a list that pass a test are, and `Common`
holds two shared types. Hash functions are parameters, so every statement about trees holds for every hash function; the
statements that need an injective one say so.

## Where the code and its documentation differ

Where a property fails because of such a difference, the named lemmas give the exact condition under which it holds and
an input at which it does not.

- `RegisterBlock` returns an error at an already mined transaction after it has moved the height and some bins but before
  it records how to undo that (`mempool/estimatefee.go:245-248`). `FeeRuns.FitsAfterAbort` says exactly when the next
  rollback still finds its slots, in terms of the state and the block before the call. A block that starts with a mined
  transaction makes it panic whenever the previous block dropped anything (`FeeRuns.AbortMakesRollbackPanic`, and on the
  object `FeeEstimator.UndoAfterRefusal`); `FeeExample.PanicAfterRun` is a run that gets there.
- `RemoveValidator` keeps its index while the list shrinks (`blockchain/beaconprocess.go:829-836`), so it removes a prefix
  of distinct keys only when that prefix has at most one key: `Committee.RemovesPrefixUpToOne`,
  `Committee.ReplayMatchesOnlyOne`; `Committee.TwoSwapped` is an input. With the configured offset of 1 the replay is
  right: `Committee.ReplayMatchesSwap`.
- `ShuffleCandidate` is documented to order the candidates by their hash with the random number, but returns the values
  of a map (`blockchain/beaconprocess.go:840-863`). The order is therefore open, and nodes that apply the same block agree
  on the beacon's pending list for sure only with fewer than two candidates: `BeaconCandidates.NodesAgreeExactly` and,
  for an input, `BeaconCandidates.TwoOrders`. A candidate named twice comes out once: `BeaconCandidates.TwiceNamed`, and
  exactly `BeaconCandidates.ShuffleKeepsExactly` and `BeaconCandidates.RunBalancesExactly`.
- A committee with room makes a shard's producer emit an empty list that its own `Update` reads back as one empty key
  (`blockchain/shardprocess.go:603-607`): `ShardState.OwnBlockAccepted` is the exact condition for acceptance, and
  `ShardState.OwnBlockRefused` an input.
- The shard pool's update stops at the first block at or below the latest height (`mempool/shard_pool.go:111-120`), so its
  latest height is not always maximal: `BlockPools.StopsShort` is the exact condition, `BlockPools.StopsShortExample` an
  input.
- The sender of a cross-shard block compares a coin's last byte with the shard number, the grouping its remainder, and the
  sender looks at all transaction types (`blockchain/shardutils.go:330`, `blockchain/shardutils.go:424`):
  `CrossShardBlock.CoinsAgree` and `CrossShardBlock.CreatedVerifiesExactly` say exactly when the block still verifies, and
  `CrossShardBlock.StrayCoin` names coins for which a block is built and does not.
- For the same reason the header can name a shard for which no block is built, and a block can be built for a shard that
  the header does not name (`blockchain/shardutils.go:55-100`): `CrossShardBlock.RegisteredWhenBuilt` is the exact
  condition, `CrossShardBlock.RegisteredNotBuilt` and `CrossShardBlock.BuiltNotRegistered` are inputs. The receiver then
  stops at the registered height: `DeliveryRuns.WaitsForEver`.
- The tests before signing accept a body in which one list of coins is empty, as long as another is not, and `Update` then
  indexes position -1 (`blockchain/shardprocess.go:616-618`). `CrossShardBody.AcceptedThenPanics` is the exact condition
  and `CrossShardBody.TwoShards` an input. With empty lists only, the root of the coins is missing and the block refused.
- A payment is computed in 64-bit words that wrap around (`blockchain/dcbbeaconproducer.go:101-111`). It is the full one
  exactly when that costs no unit: `Crowdsale.OwedInFull`. `Crowdsale.WrapPaysNothing` is an input at which everything sent
  is taken and nothing is paid.
- A swap that fails gives the lists back as they were, except for an offset of zero, where they come back in the wrong
  places (`blockchain/beaconprocess.go:762-818`): `Committee.SwapOutcome`, `Committee.ZeroOffsetShifts`. The configured
  offset is 1.
- The branch of the beacon's `Update` for the last block of an epoch (`blockchain/beaconprocess.go:675`) cannot be entered,
  because remainder 0 satisfies the earlier test: `BeaconState.EndOfEpochIsEarly`. The beacon's committee changes through
  instructions only.

## Model

| member | source | states |
|---|---|---|
| `FeeLedger.UndoSound` | mempool/estimatefee.go:345-427 | undoing the top block of a sound ledger whose whole stack fits leaves a sound ledger |
| `FeeSteps.UndoRegister` | mempool/estimatefee.go:192-427 | after any accepted block rollback has a slot for everything dropped, and restores bins, mined marks, height, block count and the (possibly trimmed) stack |
| `FeeSteps.FitWithoutOldest` | mempool/estimatefee.go:290-298 | forgetting the oldest stack entry keeps every remaining block undoable |
| `FeeSteps.RegisterInv` | mempool/estimatefee.go:192-301 | an accepted block keeps the invariant: bins within capacity and disjoint, every binned or dropped record observed and marked for its bin, the whole stack undoable |
| `FeeSteps.RegisterCounts` | mempool/estimatefee.go:201-300 | an accepted block sets the height, counts one, and leaves on the stack the latest entries up to the limit |
| `FeeSteps.BinMeansWait` | mempool/estimatefee.go:241-279 | a record is in bin b when it was mined b + 1 blocks after it was observed |
| `FeeSteps.PurgeExactly` | mempool/estimatefee.go:282-287 | a block forgets exactly the known transactions it leaves unmined 25 blocks or more after they were observed |
| `FeeRuns.ObserveInv` | mempool/estimatefee.go:169-189 | observing a transaction keeps the invariant |
| `FeeRuns.UndoNInv` | mempool/estimatefee.go:320-343 | from an invariant state any number of rollbacks up to the stack's length succeeds and keeps the invariant |
| `FeeRuns.NoRunPanics` | mempool/estimatefee.go:364-394 | in every state of every run of observations, accepted blocks, rollbacks and restarts from saved data, rolling back to any block on the stack never meets the panic |
| `FeeRuns.UndoStretch` | mempool/estimatefee.go:320-427 | rolling back the n blocks of any stretch, observations in between included, gives back bins, marks, stack, height and count of its start, and no mined record has left the index |
| `FeeRuns.RollbackToBlock` | mempool/estimatefee.go:320-343 | Rollback(hash) undoes every block back to and including the latest one with that hash |
| `FeeRestart.UndoMoves` | mempool/estimatefee.go:345-427 | undoing a block commutes with moving every record to a new place |
| `FeeRestart.RelabelledInv` | mempool/estimatefee.go:654-723 | the invariant holds again of the estimator with its records in new places |
| `FeeRuns.FitsAfterAbort` | mempool/estimatefee.go:245-248 | after a block refused half-way, rollback has room if and only if, bin by bin, the distinct eligible records before the refused transaction, up to the replacement limit, are at least as many as the previous block dropped |
| `FeeRuns.RefusedAtFirstMined` | mempool/estimatefee.go:231-248 | a block without repetitions is refused at its first mined transaction |
| `FeeRuns.AbortMakesRollbackPanic` | mempool/estimatefee.go:245-248 | a block whose first transaction is already mined is refused right there and makes the next rollback panic whenever the previous block had dropped anything |
| `FeeExample.PanicAfterRun` | mempool/estimatefee.go:245-248 | a run of seven steps after which a refused block leaves a state whose rollback panics |
| `FeeShape.RegisterUsable` | mempool/estimatefee.go:192-301 | also outside the invariant a registered block leaves bins and marks in the shape that rollback and estimates rely on |
| `FeeShape.UndoUsable` | mempool/estimatefee.go:345-427 | so does a rollback, whether or not everything found a slot |
| `FeeBins.AddToBin` | mempool/estimatefee.go:265-279 | a full bin loses one member from before the block, for any random choice, and never one the same block brought |
| `FeeBins.TakeBlock` | mempool/estimatefee.go:231-280 | the loop over the block's transactions places exactly the eligible ones up to the replacement limit and lists exactly what left the bins |
| `FeeBins.Process` | mempool/estimatefee.go:201-300 | the whole of RegisterBlock after the height test meets the relation of an accepted block, or that of one refused at a transaction mined or taken in before, with none of the earlier ones mined |
| `FeeUnwind.ReturnDropped` | mempool/estimatefee.go:364-394 | the first loop returns each dropped transaction to the place of a newcomer, or panics exactly when a bin has none left |
| `FeeUnwind.Unwind` | mempool/estimatefee.go:358-420 | both loops: a panic if and only if the ledger has no room, and the undone ledger otherwise |
| `FeeRates.EstimateFee` | mempool/estimatefee.go:450-480 | for every number of confirmations: the infinite rate at or below zero, and otherwise the estimate whose place among all rates FeeOrder.EstimateIsMiddle fixes |
| `FeeOrder.EstimateIsMiddle` | mempool/estimatefee.go:450-507 | with any binned transaction the estimate for c confirmations is the middle rate of bin c - 1 when the bins are laid end to end from the highest rate: at most that many binned rates are higher and more are at least as high |
| `FeeOrder.OneMiddleRate` | mempool/estimatefee.go:465-479 | only one rate is that |
| `FeeRates.EstimatesNeverRise` | mempool/estimatefee.go:450-480 | for all bins, more confirmations never cost more |
| `FeeRates.EstimateIsARate` | mempool/estimatefee.go:483-507 | with any binned transaction every estimate is the rate of a binned transaction |
| `FeeRates.EstimatesFromMembers` | mempool/estimatefee.go:483-507 | estimates depend only on the members of the bins and their rates, not on the order inside a bin |
| `FeeCodec.SaveRestore` | mempool/estimatefee.go:597-723 | restoring a saved estimator gives an isomorphic one, sharing between index, bins and dropped lists included, if and only if every binned or dropped record is in the index |
| `FeeCodec.SaveIsDeterministic` | mempool/estimatefee.go:585-615 | one state has one saved form, whatever the map's iteration order |
| `FeeLayout.EncodeIsWhole` | mempool/estimatefee.go:597-651 | what is saved is the form, described below, of the parameters, the records in hash order, the bins and the stack |
| `FeeLayout.WordByte` | mempool/estimatefee.go:80-85 | a number is written with its highest byte first |
| `FeeLayout.HashByte` | mempool/estimatefee.go:80-85 | a hash is written as its bytes, which begin with the lowest of the number that it prints as |
| `FeeLayout.HeaderLayout` | mempool/estimatefee.go:601-624 | the saved form begins with version 1, the six parameters in order with their widths, and the number of records |
| `FeeLayout.RecordLayout` | mempool/estimatefee.go:80-85 | record i takes the 56 bytes after those before it: hash, rate, height observed, height mined |
| `FeeLayout.BinLayout` | mempool/estimatefee.go:632-640 | then each bin: its size and its records as places in the list |
| `FeeLayout.StackLayout` | mempool/estimatefee.go:642-651 | then the size of the undo stack; nothing follows its entries |
| `FeeLayout.EntryLayout` | mempool/estimatefee.go:112-119 | each entry: the hash of its block, the number of dropped records and their places |
| `FeeLayout.Refusals` | mempool/estimatefee.go:654-665 | data are refused for their version exactly when they have fewer than four bytes or do not begin with version 1 |
| `FeeLayout.BadReferences` | mempool/estimatefee.go:679-722 | data in this form are refused exactly when a bin names a record that is not there; otherwise every place leads to its record, and a dropped one that is not there becomes a nil pointer |
| `FeeLayout.LastOfHash` | mempool/estimatefee.go:679-690 | in the restored index a hash leads to the last record with it |
| `FeeSave.Save` | mempool/estimatefee.go:597-651 | the writing loops produce exactly the format's bytes for the one order of the records by hash |
| `FeeSave.Restore` | mempool/estimatefee.go:654-723 | the reading loops agree with the decoder on every byte string, malformed ones included |
| `FeeSave.ReachableSurvives` | mempool/estimatefee.go:597-723 | every estimator in an invariant state survives saving and restoring, with the same estimates, in an invariant state again, as one step of a run |
| `FeeEstimator.FeeEstimator.constructor` | mempool/estimatefee.go:156-166 | a new estimator is the initial state of a run: no block, no transaction, 25 empty bins of 100 with 10 replacements |
| `FeeEstimator.FeeEstimator.ObserveTransaction` | mempool/estimatefee.go:169-189 | is the observation step |
| `FeeEstimator.FeeEstimator.RegisterBlock` | mempool/estimatefee.go:192-301 | a height that does not follow changes nothing; otherwise the block is registered, or refused at a transaction that was mined before or taken in already, with none of the earlier ones mined; the cached answer is dropped |
| `FeeEstimator.FeeEstimator.EstimateFee` | mempool/estimatefee.go:523-549 | the answer, cached or not, is the one a fresh computation over the current bins gives: the middle rate of the group, or zero without any binned transaction |
| `FeeEstimator.FeeEstimator.UndoTop` | mempool/estimatefee.go:345-427 | panics if and only if some bin lacks a slot, otherwise gives the undone ledger |
| `FeeEstimator.FeeEstimator.UndoTops` | mempool/estimatefee.go:335-341 | the loop of Rollback undoes that many blocks, without a panic in an invariant state |
| `FeeEstimator.UndoAfterRefusal` | mempool/estimatefee.go:245-248 | on the object: registering a block that starts with a mined transaction and then rolling back panics, if the previous block had dropped anything |
| `FeeEstimator.FeeEstimator.Rollback` | mempool/estimatefee.go:320-343 | never panics in an invariant state, fails exactly for a hash that is not on the stack, and otherwise undoes back to and including its latest block |
| `FeeEstimator.FeeEstimator.Save` | mempool/estimatefee.go:597-651 | in an invariant state the saved bytes decode to an isomorphic estimator |
| `Committee.SwapValidator` | blockchain/beaconprocess.go:762-818 | the reslicing steps equal one move of the committee window along the queue of committee and pending, errors and panic included |
| `Committee.SwapConserves` | blockchain/beaconprocess.go:762-818 | on success swapped-out ++ committee ++ pending is the old committee ++ pending, and the committee's size is exact and never above its maximum |
| `Committee.SwapOutcome` | blockchain/beaconprocess.go:762-818 | a swap goes through exactly when somebody joins, not more than the maximum, and the committee is not above it; with an offset that is not zero a failed one changes nothing |
| `Committee.ZeroOffsetShifts` | blockchain/beaconprocess.go:762-770 | with offset zero the pending list comes back as the committee and the committee as swapped out |
| `Committee.OneSwapped` | blockchain/beaconprocess.go:762-818 | with offset one the first who waits joins and the first of a full committee leaves |
| `Committee.RemoveValidator` | blockchain/beaconprocess.go:824-838 | the loop over the shrinking list removes the keys if and only if the i-th key stands at position 2i, with the error of the first that does not |
| `Committee.RemoveExactly` | blockchain/beaconprocess.go:824-838 | the exact condition of success and of each error, by the first key that does not stand at twice its index |
| `Committee.RemovesPrefixUpToOne` | blockchain/beaconprocess.go:824-838 | removing the first k of distinct keys works if and only if k is at most 1 |
| `Committee.ReplayMatchesSwap` | blockchain/beaconprocess.go:524-581 | with offset 1, replaying a swap's instruction gives the lists of the swap |
| `Committee.ReplayMatchesOnlyOne` | blockchain/beaconprocess.go:524-581 | for a full committee of distinct keys the replay matches the swap if and only if one key is swapped |
| `Committee.TwoSwapped` | blockchain/beaconprocess.go:824-838 | two keys swapped at once: the swap works and its replay is refused |
| `BeaconState.BestStateBeacon.UpdateWith` | blockchain/beaconprocess.go:459-674 | applying a block instruction by instruction, then genesis or the end of the block, equals the update function on states, and fails exactly when that does |
| `BeaconState.GenesisShares` | blockchain/beaconprocess.go:609-621 | after genesis the beacon's committee is its first stakes, every active shard's committee is its own stretch of the stakes, of full size, and nothing else changes |
| `BeaconState.EndOfEpochIsEarly` | blockchain/beaconprocess.go:626-675 | the last block of an epoch satisfies the test for its first slots, so the last branch is dead |
| `BeaconState.BestStateBeacon.AssignValidatorShard` | blockchain/beaconprocess.go:727-733 | each candidate is appended to the pending list of its shard, in order |
| `Instructions.ApplyBySides` | blockchain/beaconprocess.go:508-608 | a block is accepted if and only if every shard's swaps and the beacon's own replay in turn, and each side ends as if it had been alone |
| `Instructions.AssignBySides` | blockchain/beaconprocess.go:727-733 | assigning a list gives each shard exactly its own candidates, in order |
| `BeaconProducer.GenerateInstruction` | blockchain/beaconproducer.go:343-414 | a produced block holds the collected swaps of each shard in order, the stakes and, when due, one random number with every waiting candidate assigned to its shard; it swaps the beacon's own committee if and only if its height is a multiple of 10 and somebody waits, once, the first who waits for the first of a full committee |
| `ShardState.BestStateShard.UpdateWith` | blockchain/shardprocess.go:578-614 | assigned keys join the pending list, then each swap is redone and compared, with failure exactly when a comparison fails |
| `ShardState.CreateBlock` | blockchain/shardproducer.go:19-180 | the block swaps if and only if the beacon height referred to is a multiple of 10 and a key is pending or assigned by the blocks read, and then the first such key for the first of a full committee |
| `ShardState.OwnBlockAccepted` | blockchain/shardprocess.go:593-614 | a producer's own block is accepted if and only if it holds no swap or the committee was full |
| `ShardState.OwnBlockRefused` | blockchain/shardprocess.go:593-614 | an empty committee of size 1 with one key pending: the produced block is refused |
| `ShardState.OnlyRightSwapAccepted` | blockchain/shardprocess.go:593-614 | a swap of a full committee is accepted if and only if it names the first who waits and the first who serves |
| `Rotation.ReplayWindow` | blockchain/beaconprocess.go:524-563 | replaying the next swaps of the queue moves the window along without any refusal |
| `Rotation.ShardNeverStuck` | blockchain/shardprocess.go:578-614 | in every invariant state a shard can make a block for any beacon height it may refer to, and its own update accepts it |
| `Rotation.BeaconNeverStuck` | blockchain/beaconprocess.go:524-581 | in every invariant state the beacon accepts every block its producer can build: no swap a shard emitted is ever refused |
| `Rotation.ShardStepInv` | blockchain/shardprocess.go:578-614 | a shard's block keeps both sides windows on one queue |
| `Rotation.BeaconStepInv` | blockchain/beaconprocess.go:459-674 | so does a beacon block with any number of included shard blocks |
| `Rotation.GenesisStarts` | blockchain/beaconprocess.go:609-621 | a genesis block of stakes brings an empty beacon into the first state of a run: its own committee is the first beacon stakes, the shards' are full |
| `Rotation.Agreement` | blockchain/beaconprocess.go:524-563 | in every state of every interleaving the beacon's committee of a shard is the one the shard had right after the last included block; both lists are windows on one queue, and the shard is never behind |
| `RotationSwaps.SwapsOnlyInTime` | blockchain/shardproducer.go:66-80 | over every interleaving each block of a shard was made at a step, and swaps exactly when the beacon height it refers to then was a multiple of 10 and somebody waited |
| `Candidates.StepConserves` | blockchain/beaconprocess.go:609-674 | a produced block changes the count of every key over next-random, current-random, pending and committee lists by its stakes and its swapped-out keys only |
| `Candidates.RunConserves` | blockchain/beaconprocess.go:609-674 | the books balance for every key over every run of produced blocks |
| `Candidates.PhaseMoves` | blockchain/beaconprocess.go:624-660 | the current-random list is empty whenever the snapshot overwrites it |
| `RotationBooks.BeaconBlockBalances` | blockchain/beaconproducer.go:289-305 | the books balance as well for each beacon block of the two-chain rotation |
| `RotationBooks.RunBalances` | blockchain/beaconproducer.go:289-305 | and over every interleaving: waiting, pending and serving keys with those that left are the keys of the start with the stakes |
| `BeaconCandidates.ShuffleCandidate` | blockchain/beaconprocess.go:846-863 | the loops give the last candidate of each digest once, in any order |
| `BeaconCandidates.LastOfDigest` | blockchain/beaconprocess.go:851-856 | of several candidates with one digest the last is kept |
| `BeaconCandidates.ShuffleKeepsExactly` | blockchain/beaconprocess.go:846-863 | the shuffle keeps every candidate if and only if no two have the same digest |
| `BeaconCandidates.TwoOrders` | blockchain/beaconprocess.go:840-863 | two candidates of different digests may come out in either order |
| `BeaconCandidates.TwiceNamed` | blockchain/beaconprocess.go:846-863 | a candidate named twice comes out once |
| `BeaconCandidates.NodesAgreeExactly` | blockchain/beaconprocess.go:660-671 | nodes with the same state and block are sure to agree on the next state if and only if the block shuffles fewer than two digests |
| `BeaconCandidates.StepBalances` | blockchain/beaconprocess.go:609-674 | a produced block changes the count of every key over the beacon's own candidate, pending and committee lists by its stakes, its swapped-out keys and what the shuffle drops |
| `BeaconCandidates.RunBalancesExactly` | blockchain/beaconprocess.go:609-674 | over every run these books balance without loss for every key if and only if each random number finds candidates of different digests |
| `CandidateTimes.AssignsInTime` | blockchain/beaconproducer.go:378-412 | a produced block brings a random number and assigns candidates only at the height after a snapshot: each shard gets, in order, those whom the number sends there |
| `CandidateTimes.Snapshot` | blockchain/beaconprocess.go:622-645 | over every run each snapshot takes exactly the keys staked since the one before, in order |
| `CandidateTimes.AssignedAfterSnapshot` | blockchain/beaconprocess.go:624-674 | the block after it assigns exactly these to the shards, and appends the shuffled beacon candidates to the beacon's pending list |
| `CandidateTimes.ShuffledAfterSnapshot` | blockchain/beaconprocess.go:660-671 | these are the beacon stakes between the two snapshots, each digest once |
| `CrossShard.RegisterExtends` | blockchain/beaconprocess.go:149-177 | registering keeps the links one ascending chain from 0, ending in 0, if and only if the height is positive and not below the last one |
| `CrossShard.HeightsMean` | blockchain/beaconprocess.go:149-177 | a height is registered for a receiver if and only if a block of that height names it |
| `CrossShard.CrossShardIndex.RegisterBlock` | blockchain/beaconprocess.go:149-180 | the nested loops extend each pair's links by exactly the heights of the sender's blocks that name the receiver, and touch no other pair |
| `Delivery.GetCrossShardData` | blockchain/shardproducer.go:251-317 | the loops with break and continue choose what following the links gives, shard by shard, and leave shards without a choice out |
| `Delivery.FollowCovers` | blockchain/shardproducer.go:260-292 | whatever the pool holds, the producer carries over exactly the next registered heights, from sound pooled blocks |
| `Delivery.FollowMaximal` | blockchain/shardproducer.go:260-292 | with an ordered pool above the best height it stops only where the pool has no sound next block |
| `Delivery.CheckCoins` | blockchain/shardprocess.go:424-476 | the nested loops with the shrinking slice compute the check |
| `Delivery.CheckShard` | blockchain/shardprocess.go:417-481 | one named shard: its pooled blocks sorted, and its coins checked from the receiver's best height |
| `Delivery.VerifyCrossShard` | blockchain/shardprocess.go:416-482 | the pre-sign check passes if and only if every named shard is pooled and its coins pass |
| `Delivery.PassesExactly` | blockchain/shardprocess.go:424-476 | coins pass if and only if they are the next registered heights and each matches a sound pooled block |
| `Delivery.ChoicePasses` | blockchain/shardprocess.go:416-482 | what a producer chooses passes its own check |
| `CrossShardBody.VerifyMerkleCrossOutputCoin` | blockchain/shardutils.go:517-557 | the coins of all shards in shard order, hashed into four leaves, must give the header's root; a body with empty lists only has none |
| `CrossShardBody.ListingAt` | blockchain/shardutils.go:523-540 | the coins are hashed shard by shard in rising order, within a shard in list order |
| `CrossShardBody.SomeRootFits` | blockchain/shardutils.go:517-557 | some header fits a body if and only if it names no shard or has a coin |
| `CrossShardBody.UpdateBest` | blockchain/shardprocess.go:616-618 | the loop over the named shards sets each best height to that of the last coin, and panics if and only if some list is empty |
| `CrossShardBody.VerifyPreSign` | blockchain/shardprocess.go:345-482 | the root test and the pre-sign check together |
| `CrossShardBody.AcceptedThenPanics` | blockchain/shardprocess.go:616-618 | a body is accepted under some header and then stops Update if and only if some list is empty, some is not, every named shard is pooled and every list passes |
| `CrossShardBody.AcceptedThenApplied` | blockchain/shardprocess.go:616-618 | an accepted body is applied if and only if no list is empty, and the best heights are then those of the last coins |
| `CrossShardBody.TwoShards` | blockchain/shardprocess.go:616-618 | an empty list beside a shard's next coin: accepted, and Update panics |
| `DeliveryRuns.RegisterAllExtends` | blockchain/beaconproducer.go:227-239 | shard blocks taken in height order keep the links one chain and only add to its end |
| `DeliveryRuns.OfferedConsecutive` | blockchain/beaconproducer.go:195-239 | whatever the producer's pool has gone through, the blocks it takes are consecutive from the beacon's best height |
| `DeliveryRuns.RunInv` | blockchain/beaconprocess.go:149-180 | over every run, beacon blocks drawn from the producer's pool, nodes any number of blocks behind and any accepted body, the links are one ascending chain and the carried coins a prefix of it |
| `DeliveryRuns.ExactlyOnce` | blockchain/shardprocess.go:616-618 | none skipped, repeated or reordered: the a-th carried block is the a-th registered height |
| `DeliveryRuns.RunGrows` | blockchain/beaconprocess.go:149-180 | registered heights and carried coins only grow |
| `DeliveryRuns.RegisteredExactly` | blockchain/beaconprocess.go:149-177 | over every run exactly the heights are registered whose block the beacon took and whose header names the receiver |
| `DeliveryRuns.HaltsAtEmptyList` | blockchain/shardprocess.go:616-618 | the receiver halts exactly at an accepted block with an empty list |
| `DeliveryRuns.CarriedFromPool` | blockchain/shardprocess.go:416-482 | every carried coin was held in some node's pool |
| `DeliveryRuns.WaitsForEver` | blockchain/shardprocess.go:432-438 | a registered height that reaches no pool stops the receiver there for good |
| `CrossShardPool.LinkedSees` | blockchain/beaconprocess.go:149-177 | the links of any number of registered heights are the view that the pool's updates assume |
| `CrossShardPool.UpdateOrderly` | mempool/cross_shard_pool_v2.go:85-112 | an update keeps exactly the blocks above the best height, at most one of them valid, and a block is valid if and only if the successor was valid already or is next in line and known to the node's links, which may lag behind |
| `CrossShardPool.EnqueueOrderly` | mempool/cross_shard_pool_v2.go:166-173 | an accepted block joins the pending ones in strict order |
| `CrossShardPool.WelcomeExactly` | mempool/cross_shard_pool_v2.go:121-165 | a block is welcome if and only if it is above the best height last seen, its height is not in the pool, and at most 100 are pending |
| `CrossShardPool.NextInv` | mempool/cross_shard_pool_v2.go:121-212 | every step keeps the pool orderly; blocks enter only by arriving and leave only at or below the best height |
| `CrossShardPool.RunInv` | mempool/cross_shard_pool_v2.go:85-212 | in every run, with links ahead of or behind the best height, at most one block per sender is valid, it is the registered successor of the best height, no height is both valid and pending, and at most 101 are pending |
| `CrossShardPool.Pool.UpdatePool` | mempool/cross_shard_pool_v2.go:85-112 | the loops equal the update of every sender's lane, and return the awaited height of each that still waits |
| `CrossShardPool.Pool.AddCrossShardBlock` | mempool/cross_shard_pool_v2.go:121-177 | a block is refused without any change, or joins and the pool is updated, with the exact condition |
| `CrossShardPool.Pool.RemoveBlockByHeight` | mempool/cross_shard_pool_v2.go:185-212 | blocks leave only from the front, at or below the given heights |
| `CrossShardPool.Pool.GetValidBlock` | mempool/cross_shard_pool_v2.go:214-228 | the valid blocks up to each limit, zero meaning none |
| `CrossShardPool.LimitedIs` | mempool/cross_shard_pool_v2.go:214-228 | what is handed out is the longest front part up to the limit |
| `BlockPools.ClimbFromBase` | mempool/shard_to_beacon_pool_v2.go:134-149 | from the base the latest height climbs exactly to the end of the longest stretch in the pool |
| `BlockPools.AddInv` | mempool/shard_to_beacon_pool_v2.go:67-133 | an arrival keeps the pool strictly sorted, contiguous up to the latest height and within 1201 blocks, never lowers that height, and evicts at most a block above it and above the arrival |
| `BlockPools.AcceptsExactly` | mempool/shard_to_beacon_pool_v2.go:67-112 | the exact condition for a new block: above the latest height, unknown, at most 1001 valid, and fewer than 200 others or below the highest |
| `BlockPools.ResetInv` | mempool/shard_to_beacon_pool_v2.go:43-57 | for any new base, lower or higher, exactly the blocks above it stay and the stretch is maximal |
| `BlockPools.RunInv` | mempool/shard_to_beacon_pool_v2.go:43-198 | all of this holds after every sequence of arrivals and base changes |
| `BlockPools.HandedOut` | mempool/shard_to_beacon_pool_v2.go:176-198 | in every reachable state the blocks handed out are exactly base+1 up to the latest height, and the next one is not in the pool |
| `BlockPools.StopsShort` | mempool/shard_pool.go:111-120 | the shard pool's latest height is maximal after an arrival if and only if no block was valid before, or nothing was missed before and the arrival is not the next block |
| `BlockPools.StopsShortExample` | mempool/shard_pool.go:111-120 | the next block after a valid one is held and not counted |
| `BlockPools.OrderIrrelevant` | mempool/beacon_pool.go:49-107 | the same blocks within 199 heights above the base leave the same pool and latest height in every arrival order, repetitions included |
| `BlockPools.WindowIsTight` | mempool/shard_to_beacon_pool_v2.go:92-112 | 200 heights are too many: two orders of the same 200 blocks end differently |
| `ChainPools.ChainPool.AddBlock` | mempool/beacon_pool.go:49-97 | the pool object's arrival is the specified one and keeps the invariant |
| `ChainPools.ChainPool.SetState` | mempool/shard_pool.go:48-54 | resetting the pool to a height is the specified reset |
| `ChainPools.ChainPool.GetValidBlock` | mempool/beacon_pool.go:126-136 | exactly the blocks after the base up to the latest height |
| `ChainPools.ShardToBeaconPool.AddShardToBeaconBlock` | mempool/shard_to_beacon_pool_v2.go:67-133 | changes only its shard, as specified, and asks for missing blocks exactly when none is valid |
| `ChainPools.ShardToBeaconPool.SetShardState` | mempool/shard_to_beacon_pool_v2.go:43-57 | each named shard is reset to its height, at least 1, and the others stay as they are |
| `ChainPools.ShardToBeaconPool.GetValidPendingBlock` | mempool/shard_to_beacon_pool_v2.go:176-208 | each shard's blocks up to its latest height and its limit |
| `ChainPools.ReadyBounded` | mempool/shard_to_beacon_pool_v2.go:176-198 | in an orderly pool these are the blocks right after the base, in order |
| `ChainPools.ReadyWithin` | mempool/shard_to_beacon_pool_v2.go:176-198 | with a limit, zero meaning none, exactly the blocks up to the latest height and the limit |
| `ChainPools.AskedExactly` | mempool/shard_to_beacon_pool_v2.go:122-131 | blocks are asked for if and only if some are held and none is valid: the missing ones below the lowest, and that one, up to a thousand |
| `MerkleStore.BuildMerkleTreeStore` | blockchain/merkle.go:47-87 | the array has the leaves, padded, and every parent combined from its two children |
| `MerkleStore.LevelSize` | blockchain/merkle.go:47-87 | level l of the recursive tree has a node at p if and only if p * 2^l is below the number of leaves |
| `MerkleStore.StoreLevel` | blockchain/merkle.go:62-84 | every level of the recursive tree lies in its place in the array |
| `MerkleStore.NodeOfLevel` | blockchain/merkle.go:62-84 | node p of level l is nil if and only if p is at least n / 2^l rounded up, and is otherwise the recursive tree's node |
| `MerkleStore.LastIsRoot` | blockchain/merkle.go:86-87 | the last slot is the root of the recursive tree that duplicates a lone left child |
| `MerkleStore.CalcMerkleRoot` | blockchain/merkle.go:161-170 | the recursive root, and zero for no transactions |
| `ShardTxTree.CreateShardTxRoot` | blockchain/shardutils.go:172-196 | the growing array with its cursor holds all levels of the tree, for every power of two of at least 2 leaves |
| `ShardTxTree.GetMerklePathCrossShard` | blockchain/shardutils.go:199-229 | every index is in range, the path is the siblings of the shard's leaf, and the root is the tree's |
| `ShardTxTree.VerifyMerkleTree` | blockchain/shardutils.go:270-286 | the loop folds the path from the leaf |
| `ShardTxTree.PathLeadsToRoot` | blockchain/shardutils.go:199-286 | for every hash function the extracted path is accepted for that shard's leaf |
| `ShardTxTree.OnlyTruePath` | blockchain/shardutils.go:270-286 | with an injective pair hash a path of full depth is accepted for shard i if and only if it starts from leaf i and is the true path |
| `ShardTxTree.AcceptedExactly` | blockchain/shardutils.go:270-286 | and a shorter path if and only if it is the true path of the node that many levels below the root, at the shard number's low bits |
| `CrossShardBlock.CoinsAgree` | blockchain/shardutils.go:317-437 | the sender's coins for a shard equal the grouped ones if and only if every coin passes both tests or neither |
| `CrossShardBlock.SentIsFilter` | blockchain/shardutils.go:418-437 | the sender sends, in order, exactly the coins of all transactions whose last byte is the shard's number |
| `CrossShardBlock.GroupedIsFilter` | blockchain/shardutils.go:317-345 | a shard's group is, in order, exactly the coins with its number as remainder, of all but privacy-token transactions |
| `CrossShardBlock.CoinsConserved` | blockchain/shardutils.go:317-345 | every such coin is in the four groups as often as in the transactions |
| `CrossShardBlock.GetTxTokenDataCrossShard` | blockchain/shardutils.go:439-468 | one record for each property that goes to the shard, in property order: exactly its outputs that go there, in order, under the terms of the first transaction that sends there |
| `CrossShardBlock.OutputsConserved` | blockchain/shardutils.go:346-361 | every output of a property is in the records of the four shards as often as in the transactions |
| `CrossShardBlock.GetCrossShardDataHash` | blockchain/shardutils.go:317-409 | one leaf per shard, from the grouped coins and tokens |
| `CrossShardBlock.CreateCrossShardBlock` | blockchain/shardblock.go:150-183 | nothing to send exactly when the shard gets neither coins nor tokens; a mismatch only when the transactions' root is not the header's; otherwise a block with the path to that root |
| `CrossShardBlock.LeavesUnique` | blockchain/shardutils.go:317-409 | the transactions determine the leaves, so the root that a header must carry is unique |
| `CrossShardBlock.VerifyCrossShardBlockUTXO` | blockchain/shardutils.go:238-268 | recomputes the leaf and folds the path |
| `CrossShardBlock.CreatedVerifies` | blockchain/shardblock.go:150-183 | every created block verifies when each coin to the shard passes both tests or neither |
| `CrossShardBlock.CreatedVerifiesExactly` | blockchain/shardutils.go:238-268 | with hashes that tell their inputs apart, only then |
| `CrossShardBlock.StrayCoin` | blockchain/shardutils.go:418-437 | one coin with the shard's number and one with that number plus the number of shards: a created block does not verify |
| `CrossShardBlock.CreateCrossShardByteArray` | blockchain/shardutils.go:55-100 | the header names in order exactly the other shards that a looked-at coin or token output goes to by its remainder |
| `CrossShardBlock.MarksExactly` | blockchain/shardutils.go:55-91 | a shard is marked if and only if some last byte that the transaction's kind looks at has its number as remainder |
| `CrossShardBlock.RegisteredWhenBuilt` | blockchain/shardutils.go:55-100 | a shard is named exactly when a block is built for it, if and only if a token output goes there, or the looked-at coins go there by remainder just when some coin does by its last byte |
| `CrossShardBlock.RegisteredNotBuilt` | blockchain/shardutils.go:418-437 | one coin beyond the shard numbers: named, and no block |
| `CrossShardBlock.BuiltNotRegistered` | blockchain/shardutils.go:418-437 | one coin of a token transaction: a block, and not named |
| `Crowdsale.ReplayMatches` | blockchain/stabilitybeaconprocess.go:416-437 | for every list of requests, replaying the emitted payments never fails, never subtracts below zero, and leaves each sale as the producer's accumulator had it |
| `Crowdsale.ReplayConserves` | blockchain/stabilitybeaconprocess.go:416-437 | a sale loses exactly what its payments say |
| `Crowdsale.OwedIsFair` | blockchain/dcbbeaconproducer.go:101-111 | the amount owed is never worth more than what was sent, wrap-around included |
| `Crowdsale.OwedInFull` | blockchain/dcbbeaconproducer.go:101-111 | the amount is the full one, one unit more being worth more than what was sent, if and only if wrap-around costs no unit |
| `Crowdsale.PriceIs` | blockchain/dcbbeaconproducer.go:75-85 | the recorded price, or the sale's own when that is missing or zero |
| `Crowdsale.WrapPaysNothing` | blockchain/dcbbeaconproducer.go:101-111 | two factors whose product wraps to zero: a trade that pays nothing |
| `Crowdsale.AllHonest` | blockchain/dcbbeaconproducer.go:21-127 | every emitted payment answers one of the requests: a trade within the price limit, at the sale's terms, fair and in full unless wrap-around costs a unit, or a refund in full |
| `SaleAnswers.AllAnswered` | blockchain/dcbbeaconproducer.go:21-127 | for every list of requests the payments are, one each and in order, the right answers to the answerable ones: a trade if and only if the prices are within the limit and the payments before leave enough on both sides |
| `Crowdsale.Accumulator.BuildPayment` | blockchain/dcbbeaconproducer.go:67-127 | the step-by-step decision is the specified answer, and the record changes only for a trade |
| `Crowdsale.Accumulator.BuildInstructions` | blockchain/dcbbeaconproducer.go:21-65 | an unknown sale has no effect, an off-chain one only enters the accumulator, any other is answered |
| `Crowdsale.BeaconSales.ProcessPayment` | blockchain/stabilitybeaconprocess.go:416-437 | replays one payment on the stored sale |

## Left out

- Networking, peers, RPC, wallet, configuration and logging: plumbing without an invariant to prove.
- Signatures, key handling and privacy proofs: their outcome is a parameter (`signed`, `sound`).
- LevelDB, JSON and base64: the database is a map and an instruction a datatype; keys contain no commas.
- Mutexes: every exported operation is one atomic step. Slices are values, so sharing of backing arrays is not captured.
- Randomness: the replaced bin member, the order of a block's transactions, the beacon's random number and the iteration order of maps are arbitrary choices.
- Fee rates: the division that computes a rate from a fee and a size; rates are whole numbers, and the infinite rate is a parameter.
- FeeEstimator.FeeEstimator.RegisterBlock: the block height is not the unmined sentinel, which the program cannot tell from a height, because its own test treats that height as "no block yet".
- FeeRuns.NoRunPanics: blocks of a run are accepted ones at heights that are not 0 after the first one and not the sentinel; the refused block is the subject of FeeRuns.FitsAfterAbort.
- FeeRuns.UndoStretch: the stretch starts after the first block and fits on the undo stack; records observed during it stay, as the program keeps them.
- BeaconState.BestStateBeacon.UpdateWith: the result of the shuffle is a parameter, because its order is open; BeaconCandidates says which results there are. With fewer stakes at genesis than the configured committees need the model fails, where the program panics or reads spare capacity of a slice; at most 256 shards are active. Best shard hashes and heights belong to the cross-shard part.
- Rotation.Agreement: committees are full at genesis, as Rotation.GenesisStarts shows of a block of stakes, and the offset is 1, as configured; Committee.ReplayMatchesOnlyOne and ShardState.OwnBlockAccepted say what happens otherwise.
- Candidates.RunConserves: speaks of shard candidates; the beacon's own are counted in BeaconCandidates.RunBalancesExactly.
- ShardState.CreateBlock: only the instructions of a new shard block; transactions, fees and headers are not modelled.
- BeaconProducer.GenerateInstruction: the filter of valid stakers is not modelled; the stakes are a parameter.
- Delivery.VerifyCrossShard: the comparison of token data with the block's transactions that follows the cited lines is not modelled.
- CrossShardBody.VerifyPreSign: the other tests on the block between the root test and the pre-sign check (transactions, token data) are not modelled; they only refuse more.
- DeliveryRuns.RunInv: one pair of shards, because the links, pools and best heights of different pairs do not interact; token data travel with the coins as one payload, and equal hashes mean equal payloads.
- CrossShardPool.Pool.UpdatePool: the best heights are read at each update; the program shares the map with the best state and so may refuse an old block one step earlier, with the same pool afterwards.
- BlockPools.RunInv: heights are unbounded numbers, so the difference of two heights is not truncated; the program's counts agree with it for heights below 2^63.
- MerkleStore.NextPowerOfTwo: computes by doubling what the program computes with a bit test and a floating-point logarithm.
- ShardTxTree.CreateShardTxRoot: the leaf count is a power of two of at least 2, as the configured four shards are; with one leaf the program indexes out of range.
- CrossShardBlock.CreateCrossShardBlock: header and signatures are copied by the program and not modelled; properties are ordered by number instead of by their printed form.
- Crowdsale.ReplayMatches: the stored sales carry their own identifier as key, as the program stores them; parsing of the stored text is not modelled.
- GOV funds, salaries, dividends, oracles, constitution phases, loans and the transaction pool: mostly calls into code that is not part of this model.
- CrossShardBody.VerifyMerkleCrossOutputCoin: covers the tree of four leaves that the program builds from however many coins; coins are hashed by a parameter.
