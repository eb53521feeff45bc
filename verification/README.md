# Verified model of a D-Platform node

This project models the logic at the heart of a D-Platform (DPOS) blockchain node in Dafny and proves
what that logic keeps true over whole runs.

| file | what it models |
|---|---|
| `Blocks.dfy` | blocks, hashes, ancestry and total work |
| `BlockStore.dfy` | the persistent chain: height and hash maps, total difficulties, the sequence log, as batches and runs of batches |
| `ChainView.dfy` | the in-memory node graph, the view of the best chain and the block index |
| `BlockChain.dfy`, `ChainRuns.dfy` | fork choice: accepting, connecting, disconnecting, reorganising, and whole runs of it |
| `OrphanPool.dfy` | blocks that wait for their parent |
| `StateDb.dfy`, `Execution.dfy` | the layered state cache and the execution of transactions, groups and lists over it |
| `Ledger.dfy`, `LedgerEffects.dfy`, `AccountDb.dfy` | balances and contract sub-accounts with 64-bit arithmetic: the operations as functions with their laws over runs, their exact effect on every account, and the object that carries them out |
| `LocalIndex.dfy`, `LocalIndexRuns.dfy` | the indexes derived from the best chain, and their laws over runs |
| `Caches.dfy` | the block cache, the transaction-hash cache and reading through them |
| `Task.dfy` | the download window |
| `ParaFilter.dfy` | picking the transactions of a parallel chain out of a block |
| `Push.dfy` | delivery of the sequence log to subscribers |

Main results, each for every input or every run:

- After any sequence of batches the stored chain is linked, the two maps are inverse to each other over
  exactly 0..tip, every total difficulty is the work of the whole ancestry, and replaying the sequence
  log gives exactly the best chain (`BlockStores.EveryRunKeepsInv`, `EveryIntermediateStateKeepsInv`).
  Every method of `BlockChain` only ever extends such a run, also when a reorganisation fails half-way.
- Connecting, reorganising, choosing and accepting each succeed exactly under a condition on the state
  and on what executing and undoing blocks will answer. How many blocks come off and how many of a block's
  route go on is determined by the same, also when a reorganisation fails half-way (`LandsOnce`,
  `LandsFully`); the tip after a success is the block that was offered, as executing left it. Through any
  run in which nothing fails and executing again changes nothing, no stored block above height 0 has more
  total work than the tip, and the tip is maximal among all stored blocks exactly if no stored genesis
  block has more work (`BlockChains.BlockChain.MaybeAcceptBlock`, `HealthyExactly`); `TwoGenesisBlocks` is
  a run in which one has.
- A node that is offered any blocks from peers, parents first, ends on a heaviest of them and keeps every
  other branch ready to be taken over (`ChainRuns.Feed`, `BranchOvertakes`); the order in which they come
  does not matter (`OrderDoesNotMatter`).
- Whatever a driver writes, the state after a transaction, a group or a whole list is the state before
  with exactly the receipts' pairs written over it, as long as they hold no nil value (`ExecTx`,
  `ExecTxGroup`, `ProcExecTxList`); with nil values, and for genesis transactions, whose writes nothing
  compares with their receipts, each piece of a list has its exact condition (`MovesExactly`). Every
  receipt in a list holds what that transaction's driver returned at its index (`ReceiptHolds`).
- Every run of ledger operations keeps every contract backed, all amounts non-negative and free of
  64-bit overflow, and the total changes only by what was issued (`Ledgers.RunStaysBacked`); when contracts
  pay from their plain accounts too, exactly if each payment leaves enough (`RunBackedExactly`); each
  operation succeeds exactly under a condition on true amounts, changes every account by exactly its
  entry in a table of effects, and is taken back by its counterpart (`LedgerEffects`).
- The transaction index, the address index, the address counts and the fee totals are those of the best
  chain after any run of connects and disconnects (`TxsFollowChain`, `AddrsFollowChain`,
  `CountsAndFeesFollowChain`), and undoing a block restores an entry exactly if the block had not
  overwritten one (`UndoRestoresExactly`).
- A subscriber of blocks receives every log entry once and in order, and can rebuild the best chain from
  what it received (`SubscriberRebuildsBest`).

Modelling choices. A hash is a constructor applied to the block, so hashing is injective and ancestry is
well founded. A database batch is one atomic change. Executing a block, undoing its local pairs, running
a driver, posting to a subscriber and the clock are parameters. A class stands for an object that the
node updates in place; its methods are proved against functions on the values it holds, and the laws are
lemmas about those functions. Heights and difficulties are unbounded integers; ledger amounts wrap as
64-bit integers do.

Where the code and its comments disagree the model follows the code: `DelBlock` returns -1 instead of the
new sequence number; a failed reorganisation is not rolled back; a write of nil into the state cache makes
the older value visible again instead of deleting the key (`StateDbs.CommitIsOverlayExactly` gives the exact
condition); the orphan remembered as oldest may have left the pool already, so the pool can exceed its limit
(`OrphanPools.OrphanPool.AddOrphanBlock` gives the exact condition and `StaleOldest` a case where it fails),
though never by more than one orphan (`Bounded`, which adding, removing and processing keep); a receipt of
the error type uses up an index (`Executions.ErrorTypeUsesIndex`).

## Model

| member | source | states |
|---|---|---|
| `Blocks.LinkedIsAncestry` | blockchain/blockstore.go:885-930 | a chain whose blocks each extend the one before is the ancestry of its tip, and its total work is that of the tip |
| `Blocks.TipDeterminesChain` | blockchain/process.go:524-599 | two linked chains with the same tip hash are equal |
| `Blocks.TotalWorkStep` | blockchain/blockstore.go:904-916 | adding a block's work to its parent's total gives the work of its whole ancestry |
| `BlockStores.LogConnect` | blockchain/blockstore.go:963-1025 | logging an added block keeps the log replayable to the best chain and every block's recorded sequence its latest add |
| `BlockStores.LogDisconnect` | blockchain/blockstore.go:963-1025 | logging a deleted tip pops it from the replay and leaves the other blocks' latest adds in place |
| `BlockStores.MapsConnect` | blockchain/blockstore.go:553-588 | connecting keeps height-to-hash and hash-to-height inverse over exactly 0..tip |
| `BlockStores.MapsDisconnect` | blockchain/blockstore.go:610-644 | disconnecting keeps them inverse over exactly 0..tip |
| `BlockStores.TdStored` | blockchain/process.go:342-359 | a batch that writes a block's total difficulty keeps every stored one equal to the work of the whole ancestry |
| `BlockStores.StoreKeepsInv` | blockchain/blockstore.go:885-930 | accepting a block keeps all of this and the best chain |
| `BlockStores.ConnectKeepsInv` | blockchain/process.go:316-366 | connecting the next block keeps all of this for the longer chain |
| `BlockStores.DisconnectKeepsInv` | blockchain/process.go:416-435 | disconnecting the tip keeps all of this for the shorter chain |
| `BlockStores.DisconnectUndoesConnect` | blockchain/blockstore.go:610-644 | disconnecting right after connecting restores both maps and the last height; the log shows the add and the delete, and the block stays stored |
| `BlockStores.StepKeepsInv` | blockchain/process.go:265-474 | so does every enabled step |
| `BlockStores.EveryRunKeepsInv` | blockchain/blockstore.go:553-644 | after any run from an empty database: linked chain, inverse maps over 0..tip, exact total difficulties, and a log whose replay is the best chain with each block's sequence its latest add |
| `BlockStores.EveryIntermediateStateKeepsInv` | blockchain/process.go:524-599 | the same after every prefix of the run, so also in the middle of a reorganisation |
| `BlockStores.BlockStore.SaveBlockSequence` | blockchain/blockstore.go:963-1000 | the next number gets the entry, and a hash gets its number only when it is added |
| `BlockStores.BlockStore.SaveBlock` | blockchain/blockstore.go:553-588 | together with the total difficulty, the batch of a connect step; the returned number is the new one, or -1 when nothing is recorded |
| `BlockStores.BlockStore.DelBlock` | blockchain/blockstore.go:610-644 | the batch of a disconnect step; the returned number is always -1 |
| `BlockStores.BlockStore.MaybeStoreBlock` | blockchain/blockstore.go:885-930 | stores block and total difficulty exactly if the height is 0 or the parent's total difficulty is known |
| `BlockStores.BlockStore.UpdateLastBlock` | blockchain/blockstore.go:468-480 | the last block becomes the stored block with that hash, or stays |
| `ChainViews.BlockNode.Ancestor` | blockchain/blockindex.go:86-97 | the node of that height on the parent path, or none |
| `ChainViews.PathFacts` | blockchain/blockindex.go:86-97 | the parent path goes down one height at a time through known nodes |
| `ChainViews.ChainView.NodeByHeight` | blockchain/chainview.go:130-141 | only a node in view, of that height |
| `ChainViews.ChainView.Contains` | blockchain/chainview.go:144-146 | holds exactly for the nodes in the view |
| `ChainViews.ChainView.SetTip` | blockchain/chainview.go:62-82 | a child of the tip becomes the tip, the oldest node leaves a full view, any other node is ignored; the view stays a parent-linked run of heights |
| `ChainViews.ChainView.DelTip` | blockchain/chainview.go:91-105 | takes out the node of that height; taking out the tip keeps the view a parent-linked run |
| `ChainViews.ChainView.FindFork` | blockchain/chainview.go:167-183 | the highest node on the parent path that is in the view, or none if there is no such node |
| `ChainViews.BlockIndex.AddNode` | blockchain/blockindex.go:129-144 | the node is appended and stored under its hash; when full the oldest leaves map and queue and loses its parent; under a new hash map and queue keep the same nodes |
| `ChainViews.BlockIndex.UpdateNode` | blockchain/blockindex.go:146-157 | the node takes the place of the one stored under the former hash and is stored under its own hash instead |
| `ChainViews.BlockIndex.DelNode` | blockchain/blockindex.go:160-170 | takes the node out of map and queue and clears its parent |
| `BlockChains.BlockChain.constructor` | blockchain/blockindex.go:74-84 | an empty node starts valid, with the pre-genesis node as only node, tip and only entry of the index, every node anchored and the tip maximal |
| `BlockChains.BlockChain.CommitBlock` | blockchain/process.go:316-373 | one connect step: database, in-memory height and last block agree with the longer chain |
| `BlockChains.BlockChain.UncommitBlock` | blockchain/process.go:416-438 | one disconnect step: they agree with the shorter chain; below the genesis block the last block is left as it was |
| `BlockChains.BlockChain.Rehash` | blockchain/process.go:308-314 | the graph of nodes and the index afterwards are exactly those before with a self-made block's node under its final hash |
| `BlockChains.BlockChain.Forget` | blockchain/process.go:293-301 | the graph and the index afterwards are exactly those before with the node cut off: without parent, entry and place in the queue |
| `BlockChains.FinishCarries` | blockchain/process.go:307-314 | a block is what executing left exactly if it is the given one, and for a self-made one carries the executed state hash and transactions |
| `BlockChains.BlockChain.ConnectBlock` | blockchain/process.go:265-404 | which of the errors it returns, or none; then the block is the new tip everywhere, otherwise chain, log, database and view are as before; the index exactly: untouched unless the parent is the tip, without the node after a rejection of a downloaded block or of a self-made one not to blame, with a self-made node under its final hash once it is executed, also if its local pairs then fail, and untouched otherwise |
| `BlockChains.BlockChain.DisconnectBlock` | blockchain/process.go:407-474 | succeeds exactly for the tip when its indexes can be undone; otherwise nothing changes; with which error |
| `BlockChains.BlockChain.BranchTo` | blockchain/process.go:481-485 | the parent path above the fork in ascending order |
| `BlockChains.BlockChain.ViewAbove` | blockchain/process.go:487-490 | the view above the fork in descending order |
| `BlockChains.BlockChain.GetReorganizeNodes` | blockchain/process.go:477-493 | with an ancestor in view: the highest common node, the view above it to detach and the path to the node to attach, none of which is in view |
| `BlockChains.SideIs` | blockchain/process.go:481-485 | a branch of nodes out of view that hangs from a node in view or from one without a parent is what following the parents of its last node gives |
| `BlockChains.SideFacts` | blockchain/process.go:481-485 | following parents gives a branch of nodes out of view that hangs from a node on the parent path |
| `BlockChains.BlockChain.LoadBlocks` | blockchain/process.go:528-556 | all blocks of the nodes, or failure exactly if one is not stored |
| `BlockChains.BlockChain.DetachAll` | blockchain/process.go:558-568 | the first blocks of the list came off, up to the first that cannot be undone, all of them exactly if there is none, and the view lost exactly these |
| `BlockChains.BlockChain.AttachAll` | blockchain/process.go:570-580 | each of the first blocks of the plan executed and had the hash below it as parent hash, and the first that does not ends it, with its error; the index is the one after executing these and the one that failed, one by one, and the view has exactly these on top; nodes stay anchored if executing changes none but a last leaf |
| `BlockChains.BlockChain.MoveTip` | blockchain/process.go:558-580 | blocks come off up to the first that cannot be undone; once all are off, blocks go on up to the first that does not execute or join; error, chain, run, index and view are those of exactly these moves |
| `BlockChains.BlockChain.ReorganizeChain` | blockchain/process.go:524-599 | succeeds exactly if every block to attach is stored, what comes off can be undone, and what goes on executes and joins by parent hash; in every case the blocks off and on are those the state before and the answers determine, so are the error, the index, every parent link and the view, and nothing at or below the fork changes |
| `BlockChains.BlockChain.OffIsAbove` | blockchain/process.go:528-541 | the blocks loaded for the view above the fork are those of the chain above that height, tip first |
| `BlockChains.LandsOnce` | blockchain/process.go:524-580 | how many blocks come off and go on is determined by the state before and the answers |
| `BlockChains.LandsFully` | blockchain/process.go:524-580 | all come off and go on exactly if there is no obstacle |
| `BlockChains.LandsOnTip` | blockchain/process.go:205-212 | for a block on top of the tip: it goes on exactly if it executes |
| `BlockChains.LeavesOnTip` | blockchain/process.go:205-212 | the same for error, index and view |
| `BlockChains.JoinedKeeps` | blockchain/blockindex.go:129-144 | one more node is indexed on top of its parent, and so is every node but the one a full index cuts off |
| `BlockChains.FreshTail` | blockchain/process.go:308-314 | connecting a block leaves the hashes that executing the blocks above it will give unused |
| `BlockChains.FreshPush` | blockchain/process.go:177-184 | so does indexing a block, for itself and the blocks below it |
| `BlockChains.TdAfterReorg` | blockchain/process.go:342-359 | a reorganisation stores total difficulties for the blocks it connects and for no others |
| `BlockChains.MaximalAfter` | blockchain/process.go:197-262 | storing a block and ending with no less work than before and than that block keeps the tip maximal among all stored blocks, and among those above height 0 |
| `BlockChains.StoreKeepsMaximalExactly` | blockchain/blockstore.go:885-930 | a block that is only stored keeps the tip maximal exactly if it has no more total work |
| `BlockChains.TwoGenesisBlocks` | blockchain/process.go:87-89 | a run of the node: after two genesis blocks, the second with more work, the tip is not maximal although nothing failed |
| `BlockChains.BlockChain.GenesisRefused` | blockchain/process.go:221-225 | a second genesis block finds no total difficulty for its parent: it is refused and the chain is not to move |
| `BlockChains.BlockChain.OnlyStored` | blockchain/blockstore.go:885-930 | after a batch that only stores a block the tip is maximal exactly if the block has no more total work |
| `BlockChains.BlockChain.HealthyExactly` | blockchain/process.go:197-262 | where no stored block above height 0 has more work than the tip, the tip is maximal exactly if no stored genesis block has |
| `BlockChains.BlockChain.ReliableAccepts` | blockchain/process.go:149-262 | with every node anchored, nothing failing of what the move takes, executing again changing nothing on the side and no second genesis block, every stored block is accepted |
| `BlockChains.BlockChain.IntactIsUnbroken` | blockchain/process.go:477-493 | with every node anchored, the side of any node is stored and linked by hashes |
| `BlockChains.BlockChain.SwitchTo` | blockchain/process.go:251-261 | succeeds exactly if the side of the node can be reorganised onto, and then its block, as executing left it, is the tip; in every case the chain moves along the plan of the side as far as determined, with error, index and view as determined |
| `BlockChains.BlockChain.MaybeReorganize` | blockchain/process.go:213-261 | moves along the side of the block exactly if it has more total work or wins a tie at the tip's height, as far as determined, and succeeds exactly if it gets all the way; then the block is the tip with its total work, no less than before; a block that does not win changes nothing and gives no error |
| `BlockChains.BlockChain.ExtendTip` | blockchain/process.go:205-212 | a block whose parent is the tip goes on top exactly if it executes; it is the tip then, as executing left it, and the tip's total work is the block's; otherwise chain and view stay; error and index as for `ConnectBlock` |
| `BlockChains.BlockChain.ConnectBestChain` | blockchain/process.go:197-262 | succeeds exactly if the block extends the tip and executes, or its parent's difficulty is known and it loses or can be switched to; if it extends the tip or wins, the chain moves along its side as far as determined, with error, index and view as determined, and on success the block is the tip; otherwise nothing changes, and the error says which total difficulty is missing; success never lowers the tip's total work |
| `BlockChains.BlockChain.IndexNew` | blockchain/blockindex.go:129-144 | indexing a new node keeps the node graph; map and queue are exactly the old ones with the node, and without the oldest node when the index was full |
| `BlockChains.BlockChain.JoinedIs` | blockchain/blockindex.go:129-144 | cutting off the oldest node of a full index is removing the entry of its hash and the front of the queue |
| `BlockChains.BlockChain.MakeNode` | blockchain/process.go:177-184 | the new node hangs from its parent under the block's hash; graph and index are exactly the old ones with it, a full one with its oldest node cut off |
| `BlockChains.BlockChain.AddNew` | blockchain/process.go:177-184 | the new node hangs from its parent, and its side and fork are those of its parent with the node on top |
| `BlockChains.BlockChain.AddAnchored` | blockchain/process.go:177-184 | the new node is anchored and a leaf, and the pre-genesis node stays indexed unless evicted |
| `BlockChains.BlockChain.StoreBlock` | blockchain/process.go:165-176 | a store step of the run, or nothing |
| `BlockChains.BlockChain.IndexBlock` | blockchain/process.go:177-184 | graph and index gain exactly the node; the indexed block can be chosen exactly if that could be seen from its parent before, and its plan, side and fork are those seen before; the results of executing stay fresh |
| `BlockChains.BlockChain.IndexAndConnect` | blockchain/process.go:177-193 | what `ConnectBestChain` gives, in terms of the parent's side before the block had a node: error, every parent link, index and view, both when the chain is to move and when it is not; no hash is indexed but the block's and those of its route |
| `BlockChains.BlockChain.StoreAndConnect` | blockchain/process.go:164-193 | for a block of the right height: stored exactly with known parent difficulty, accepted exactly if nothing stands in the way; if it is to move the chain, the chain moves along its route as far as determined; error, index and view as determined in every case |
| `BlockChains.BlockChain.SideIndexed` | blockchain/process.go:177-193 | a block that does not move the chain is indexed under its hash on top of its parent, and every other node except one evicted stays indexed |
| `BlockChains.BlockChain.ChosenExecutes` | blockchain/process.go:205-261 | a block that the chain moves to was executed |
| `BlockChains.BlockChain.StillAcceptable` | blockchain/process.go:164-176 | storing the block changes neither what its caller owes, nor its route, nor what stands in its way |
| `BlockChains.BlockChain.WorkAfter` | blockchain/process.go:149-262 | what each outcome of accepting a block does to the lead of the tip |
| `BlockChains.BlockChain.MaybeAcceptBlock` | blockchain/process.go:149-194 | what is stored, and with which error anything else is turned away; succeeds exactly if stored and nothing stands in the way; a block that is to move the chain moves it along its route as far as determined, and on success is the tip, a self-made one with the executed state hash and transactions, any other unchanged; a stored block that is not to move it is indexed on top of its parent, and every indexed hash stays with its node except an evicted one; error, parent links, index and view are determined in every case, and view, maps, log, database and index agree afterwards; the genesis block never comes off; success never lowers the tip's work, and through any run that goes smoothly the tip leads all stored blocks above height 0 and stays maximal exactly if no second genesis block brings more |
| `ChainRuns.ForksInView` | blockchain/process.go:477-493 | as long as nothing was dropped, every branch forks off in view |
| `ChainRuns.PeerAcceptable` | blockchain/process.go:149-194 | then any new block whose parent comes before it can be offered, and nothing goes wrong |
| `ChainRuns.PeersLeave` | blockchain/process.go:524-580 | moving onto blocks of peers, however far it gets, changes no parent link and no index entry |
| `ChainRuns.OneMoreNode` | blockchain/blockindex.go:129-144 | so every node made so far stays indexed |
| `ChainRuns.TdStays` | blockchain/blockstore.go:885-930 | no batch takes a total difficulty away |
| `ChainRuns.Offer` | blockchain/process.go:149-194 | the next block is accepted, also on a branch, and the tip is maximal among all blocks offered |
| `ChainRuns.Feed` | blockchain/process.go:149-262 | a run of the node: blocks from peers offered in any order with parents first are all accepted, stored and indexed, and the best chain ends at a heaviest of them |
| `ChainRuns.OrderDoesNotMatter` | blockchain/process.go:197-262 | two orders of the same blocks lead to chains of the same work, and to the same chain if no two blocks tie |
| `ChainRuns.BranchOvertakes` | blockchain/process.go:213-261 | a branch that is lighter at first is kept aside and taken over with its second block |
| `OrphanPools.RemoveKeepsGroups` | blockchain/orphanpool.go:115-140 | removing keeps the second map exactly the grouping by parent hash, with no empty group |
| `OrphanPools.AddKeepsGroups` | blockchain/orphanpool.go:185-190 | so does adding an unknown orphan |
| `OrphanPools.Drop` | blockchain/orphanpool.go:122-133 | the in-place deletion loop removes exactly the entries with that hash |
| `OrphanPools.HandedIsReachable` | blockchain/orphanpool.go:207-243 | blocks handed over parents first all hang from the start hash through pool blocks |
| `OrphanPools.RestIsUnreachable` | blockchain/orphanpool.go:207-243 | if no block left hangs from the start or from a block taken, none left is reachable |
| `OrphanPools.AheadPush` | blockchain/orphanpool.go:221-240 | taking the first child and queueing its hash leaves the rest of the breadth-first order |
| `OrphanPools.ArrivalLess` | blockchain/orphanpool.go:115-140 | removing an orphan keeps the order of the others in every group |
| `OrphanPools.OrphanPool.RemoveOrphanBlock` | blockchain/orphanpool.go:115-140 | exactly that block leaves both maps; the bound is kept |
| `OrphanPools.OrphanPool.Expire` | blockchain/orphanpool.go:156-168 | exactly the unexpired orphans stay, in the order they came in; the remembered orphan stays remembered exactly if none left expires strictly before it, otherwise it is one of those left, and none left expires before it |
| `OrphanPools.OrphanPool.AddOrphanBlock` | blockchain/orphanpool.go:148-191 | the unexpired orphans and the new one, last in its group, minus, when full, the remembered one, which is then forgotten; which one is remembered; a pool within its limit stays within it exactly if there is room, or nothing was remembered, or the remembered orphan is left, or one left expires before it; over any run there is at most one orphan too many |
| `OrphanPools.StaleOldest` | blockchain/orphanpool.go:164-175 | a full pool whose remembered orphan has left it exceeds its limit |
| `OrphanPools.OrphanPool.GetOrphanRoot` | blockchain/orphanpool.go:60-77 | a pool block whose parent is not in the pool and from which the given one hangs |
| `OrphanPools.OrphanPool.ProcessChildren` | blockchain/orphanpool.go:221-240 | all children of one hash are handed over and removed, in the order they came in, or a refusal ends it |
| `OrphanPools.OrphanPool.ProcessOrphans` | blockchain/orphanpool.go:207-243 | terminates; hands over each block once, breadth first with siblings in the order they came in, and removes it; the rest keeps its order; with no refusal exactly the blocks reachable from the hash; otherwise only the last one was refused; the bound is kept |
| `StateDbs.PutAt` | executor/statedb.go:198-204 | reading after ordered writes gives the last write of the key, else the old value |
| `StateDbs.ReceiptDominates` | executor/execenv.go:502-516 | writing pairs that cover all keys written earlier makes the earlier writes irrelevant |
| `StateDbs.CommitIsOverlay` | executor/statedb.go:88-100 | without nil values, merging the transaction layer is writing its pairs in order |
| `StateDbs.CommitIsOverlayExactly` | executor/statedb.go:198-204 | it is so exactly if the last write of no existing key is nil |
| `StateDbs.NilWriteShowsOldValue` | executor/statedb.go:198-204 | a nil write that makes the old value visible again |
| `StateDbs.SameEffectExactly` | executor/statedb.go:183-204 | two lists of pairs act alike on every state exactly if they agree on every key's last write |
| `StateDbs.ShownThrough` | executor/statedb.go:183-204 | after writes outside a transaction a read gives the last write, what is stored if that is nil, else the old value |
| `StateDbs.AgreesExactly` | executor/execenv.go:581-590 | such writes leave the state that a receipt's pairs would leave exactly if they show the same for every key |
| `StateDbs.AgreesAlways` | executor/execenv.go:581-590 | without nil writes they do so on every state exactly if both have the same last writes |
| `StateDbs.StateDB.Begin` | executor/statedb.go:72-80 | opens an empty layer over the same base |
| `StateDbs.StateDB.Rollback` | executor/statedb.go:83-85 | the view is the base again |
| `StateDbs.StateDB.Commit` | executor/statedb.go:88-100 | closes the layer without changing the view |
| `StateDbs.StateDB.Get` | executor/statedb.go:109-156 | gives the view's value; filling the cache changes no layer and no view |
| `StateDbs.StateDB.Set` | executor/statedb.go:183-196 | writes the layer and records the key inside a transaction, the cache outside |
| `StateDbs.StateDB.SetAll` | executor/execenv.go:492-498 | writes pairs in order and records their keys in order |
| `Executions.CheckKV` | executor/execenv.go:502-516 | holds exactly if every key written is in the receipt |
| `Executions.ExecTxOne` | executor/execenv.go:454-500 | fails exactly if the driver's run is not acceptable, with its reason as last log; on success the layer is the fee and result pairs, whatever the driver wrote, and the receipt has the driver's type, the fee pairs and logs and then the driver's |
| `Executions.ExecFee` | executor/execenv.go:421-442 | the fee pairs are in the view; the whole receipt: packed, with the fee pairs and the fee log |
| `Executions.FeeThenResults` | executor/execenv.go:580-626 | fee pairs in the base and fee plus result pairs in the layer act like the receipt's pairs alone |
| `Executions.FeeThenResultsExactly` | executor/execenv.go:580-626 | with nil values too they do exactly if no key that is there with the fee written ends with a nil write |
| `Executions.ChargeExactly` | executor/execenv.go:580-626 | the same for any pairs that cover the fee's keys |
| `Executions.ExecTx` | executor/execenv.go:580-626 | above height 0: fails exactly for a refused check or fee or an environment error, with that error; the whole receipt: the fee's and the driver's pairs and logs with the driver's type on success, the fee's pairs and log and the reason on failure; the view follows its pairs, with nil values exactly if no key is lost from sight; another error leaves the view as it was; at height 0 the receipt is the driver's, the view shows the driver's writes, and it follows the receipt exactly if the two agree on what every key shows |
| `Executions.GenesisMayDiverge` | executor/execenv.go:581-590 | a genesis transaction whose driver writes a key that its receipt does not name: view and receipt part in every state that does not hold that value already |
| `Executions.ExecMembers` | executor/execenv.go:379-398 | the members run until one fails; the layer is the pairs of the receipts so far |
| `Executions.RunGroup` | executor/execenv.go:362-404 | fails exactly with the environment error of the first member that is not accepted; otherwise the whole receipts: all members' pairs, logs and types, or after a failure the fee receipt and empty ones, the refused member with the reason, and the base unchanged |
| `Executions.ExecTxGroup` | executor/execenv.go:349-404 | replies exactly unless its check, a member of another size, the fee or an environment error of the first refused member stops it, and then with that error; all or nothing, with the whole receipts: the view follows the receipts' pairs together, or it is the old view plus the fee, every receipt is ExecPack without pairs but the fee's and only the refused member says why; an error that is not an environment error changes nothing |
| `Executions.GroupFollows` | executor/execenv.go:349-404 | on success the concatenated pairs overlay to the new view |
| `Executions.FeeOnlyKVs` | executor/execenv.go:444-452 | after a failure the receipts hold the fee pairs and nothing else |
| `Executions.ExecNext` | executor/executor.go:314-362 | stops exactly where the list stops; otherwise one receipt for each transaction handled together, executed with the contents their drivers returned from the given index on, or rejected with the reason |
| `Executions.MovesExactly` | executor/executor.go:314-362 | the view moves by the receipts of a piece exactly if it was rejected, or no key is lost from sight, or, for a genesis transaction, its writes show what its receipt says |
| `Executions.HandledFee` | executor/execenv.go:349-404 | the pairs of an executed piece cover its fee; those of a rejected one are none |
| `Executions.ProcExecTxList` | executor/executor.go:285-365 | the receipts cover the list piece by piece without gap, each piece handled with the number of executed transactions before it as index; the reply is those receipts, one for each transaction, exactly if no piece stops the list, and otherwise how it stops; above height 0 the view follows all receipts without nil values; the view at every boundary between pieces, and it follows all receipts if every piece meets its condition, at height 0 and with nil values too |
| `Executions.IndexInPiece` | executor/execenv.go:379-381 | inside an executed group the index goes up by one for each member |
| `Executions.ReceiptHolds` | executor/executor.go:311-364 | every executed transaction's receipt, in a group or alone, is what its driver returned at the number of executed transactions before it, type, pairs and logs, with the fee in front; without effect only the fee stays, with the reason |
| `Executions.TypeIsError` | executor/executor.go:316-361 | a receipt has the error type exactly if the transaction was rejected or its driver returned that type with effect |
| `Executions.IndexCountsReceipts` | executor/executor.go:311-364 | the index is the number of earlier non-error receipts exactly if no earlier driver returned a receipt of the error type that took effect |
| `Executions.ErrorTypeUsesIndex` | executor/executor.go:331-332 | a list in which the two differ |
| `Ledgers.SafeAddExact` | account/genesis.go:12-17 | over 64-bit integers the addition succeeds exactly if the true sum is within the token limit |
| `Ledgers.CheckAmountExact` | types/types.go:263-268 | the amounts allowed are exactly one up to the coin limit less one |
| `Ledgers.KeysInjective` | account/execaccount.go:57-64 | plain and sub-account keys of clean addresses are all different byte strings |
| `Ledgers.TotalSave` | account/account.go:194-202 | saving one account changes every total by that account's difference |
| `Ledgers.PlainDelta` | account/account.go:115-171 | adding to a plain balance within the bounds does not wrap and changes only that balance and the plain total |
| `Ledgers.SubDelta` | account/execaccount.go:99-147 | adding to a sub-account within the bounds does not wrap and changes only that account and its contract's total |
| `Ledgers.PayKeeps` | account/account.go:115-147 | a transfer from a non-contract keeps the ledger backed and the total |
| `Ledgers.PayKeepsBackingExactly` | account/account.go:115-147 | any transfer keeps the ledger backed exactly if the sender's remaining balance covers the sub-accounts inside the sender |
| `Ledgers.ToExecKeepsBackingExactly` | account/execaccount.go:67-78 | so does any move into a contract, whoever pays |
| `Ledgers.DebitKeepsExactly` | account/account.go:115-171 | so does destroying plain coins, by burning or as a fee |
| `Ledgers.OpKeepsExactly` | account/account.go:115-171 | every successful operation, whoever pays, keeps backing, bounds and the accounted total exactly if a plain debit leaves the payer enough for what is inside |
| `Ledgers.TotalAfter` | account/account.go:115-171 | whoever pays, the plain total changes by what was issued |
| `Ledgers.RunBackedExactly` | account/execaccount.go:67-334 | through any run, whoever pays, the ledger is backed all along exactly if every operation that succeeds leaves its payer enough |
| `Ledgers.ToExecKeeps` | account/execaccount.go:67-78 | moving into a contract keeps it backed |
| `Ledgers.WithdrawKeeps` | account/execaccount.go:81-96 | withdrawing keeps it backed |
| `Ledgers.FreezeKeeps` | account/execaccount.go:99-147 | freezing and activating keep it backed |
| `Ledgers.MoveKeeps` | account/execaccount.go:150-219 | transfers of free or frozen balance inside a contract keep it backed and conserve |
| `Ledgers.IssueKeeps` | account/execaccount.go:227-288 | issuing to a contract with a frozen or genesis deposit keeps it backed and adds the amount to the total |
| `Ledgers.PlainOpKeeps` | account/account.go:447-505 | mint, burn, fee and genesis change the total by their amount and keep the rest |
| `Ledgers.OpKeeps` | account/account.go:115-171 | every legal operation keeps backing, bounds and the accounted total |
| `Ledgers.RunStaysBacked` | account/execaccount.go:67-334 | through any run of legal operations with issuance within the token limit: every contract's plain balance covers its sub-accounts, nothing is negative or wraps, and the total changes only by what was issued |
| `Ledgers.ErrorKeepsStore` | account/account.go:102-147 | an operation that returns an error leaves the store as it was |
| `Ledgers.PanicsExactly` | account/execaccount.go:67-96 | the panics are reached exactly by a genesis deposit that adds safely but has the contract itself as user or an amount that the amount check refuses; moving in and out never panics |
| `Ledgers.CanAlwaysWithdraw` | account/execaccount.go:81-96 | in a backed ledger a user with enough exec balance can withdraw |
| `Ledgers.OpReceipted` | account/account.go:173-223 | the pairs in every operation's receipt are exactly the change it made to the store |
| `Ledgers.OpNames` | account/account.go:173-223 | they name exactly the accounts the operation touches, in order |
| `LedgerEffects.SucceedsExactly` | account/execaccount.go:67-334 | in a backed ledger each operation succeeds exactly under its condition on true amounts, so no check is fooled by wrap-around |
| `LedgerEffects.EndsExactly` | account/execaccount.go:67-334 | and which error it returns otherwise: that of the first check that fails, in the order of the code |
| `LedgerEffects.OpExact` | account/account.go:115-171 | a success changes every account by exactly its entry in the table of effects, in true integers, and no other account |
| `LedgerEffects.MoveExact` | account/execaccount.go:150-219 | the same for moves inside a contract |
| `LedgerEffects.CreditExact` | account/genesis.go:37-58 | the same for issuing and genesis credits into a contract |
| `LedgerEffects.Undo` | account/execaccount.go:81-147 | the counterpart of an operation has the opposite effect on every account |
| `LedgerEffects.UndoRestores` | account/execaccount.go:67-147 | after moving in or out, freezing, activating or minting, the counterpart succeeds and restores every account |
| `LedgerEffects.Laws` | account/execaccount.go:67-334 | for every store and operation: an error changes nothing, the receipt is the change and names the accounts touched in order, and in a backed ledger a legal operation succeeds exactly under its condition, otherwise with the error of its first failing check, changes every account exactly and keeps everything backed |
| `LedgerEffects.DepositBalanceExact` | account/account.go:149-171 | crediting a contract's plain balance alone keeps every contract backed, and the ledger within its limit exactly if the total stays there |
| `LedgerEffects.ExecDepositExact` | account/execaccount.go:291-310 | crediting a sub-account alone keeps the contract backed exactly if its plain balance covers the new total inside |
| `LedgerEffects.ExecWithdrawExact` | account/execaccount.go:313-334 | debiting a sub-account alone succeeds exactly with enough balance and keeps everything backed |
| `AccountDbs.AccountDb.Transfer` | account/account.go:115-147 | carries out the transfer with all laws of the operation: exact success, which error otherwise, exact effect, backing, and nothing changed by an error |
| `AccountDbs.AccountDb.DepositBalance` | account/account.go:149-171 | credits exactly the contract's plain balance or returns the amount error, keeps everything backed, and keeps the ledger valid exactly if the total stays within the limit |
| `AccountDbs.AccountDb.Mint` | account/account.go:447-468 | carries out minting with all laws of the operation: exact success, which error otherwise, exact effect, backing, and nothing changed by an error |
| `AccountDbs.AccountDb.Burn` | account/account.go:485-505 | carries out burning with all laws of the operation: exact success, which error otherwise, exact effect, backing, and nothing changed by an error |
| `AccountDbs.AccountDb.ProcessFee` | executor/execenv.go:115-127 | carries out taking the fee with all laws of the operation: exact success, which error otherwise, exact effect, backing, and nothing changed by an error |
| `AccountDbs.AccountDb.ExecFrozen` | account/execaccount.go:99-122 | carries out freezing with all laws of the operation: exact success, which error otherwise, exact effect, backing, and nothing changed by an error |
| `AccountDbs.AccountDb.ExecActive` | account/execaccount.go:125-147 | carries out activating with all laws of the operation: exact success, which error otherwise, exact effect, backing, and nothing changed by an error |
| `AccountDbs.AccountDb.ExecTransfer` | account/execaccount.go:150-183 | carries out the move of free balance inside a contract with all laws of the operation: exact success, which error otherwise, exact effect, backing, and nothing changed by an error |
| `AccountDbs.AccountDb.ExecTransferFrozen` | account/execaccount.go:186-219 | carries out the move of frozen balance inside a contract with all laws of the operation: exact success, which error otherwise, exact effect, backing, and nothing changed by an error |
| `AccountDbs.AccountDb.ExecDeposit` | account/execaccount.go:291-310 | credits exactly that sub-account or says which check failed, and keeps the contract backed exactly if its plain balance covers the new total inside |
| `AccountDbs.AccountDb.ExecWithdraw` | account/execaccount.go:313-334 | debits exactly that sub-account, exactly if it holds enough, otherwise says which check failed, and keeps everything backed |
| `AccountDbs.AccountDb.TransferToExec` | account/execaccount.go:67-78 | carries out moving into a contract with all laws of the operation: exact success, which error otherwise, exact effect, backing, and nothing changed by an error |
| `AccountDbs.AccountDb.TransferWithdraw` | account/execaccount.go:81-96 | carries out moving out of a contract with all laws of the operation: exact success, which error otherwise, exact effect, backing, and nothing changed by an error |
| `AccountDbs.AccountDb.ExecDepositFrozen` | account/execaccount.go:227-288 | carries out issuing to a contract into a frozen sub-account with all laws of the operation: exact success, which error otherwise, exact effect, backing, and nothing changed by an error |
| `AccountDbs.AccountDb.GenesisInit` | account/genesis.go:20-34 | carries out the genesis credit with all laws of the operation: exact success, which error otherwise, exact effect, backing, and nothing changed by an error |
| `AccountDbs.AccountDb.GenesisInitExec` | account/genesis.go:37-58 | carries out the genesis credit into a contract with all laws of the operation: exact success, which error otherwise, exact effect, backing, and nothing changed by an error |
| `LocalIndexes.LatestJoin` | blockchain/blockstore.go:718-724 | writing two lists after each other is the first effect overlaid with the second |
| `LocalIndexes.PartOfBlock` | executor/executor.go:402-427 | each plugin's effect is exactly the part of the block's effect on the keys it owns |
| `LocalIndexes.AddrEffectReads` | executor/plugin_addrindex.go:98-112 | the address index depends on the stored counts only |
| `LocalIndexes.Short` | types/localkv.go:57-59 | the short key is the first eight characters of the hash |
| `LocalIndexes.PlaceOrder` | executor/plugin_txindex.go:96 | the numbers of entries sort by height and then by place, below the limit of transactions in a block |
| `LocalIndexes.PaddedOrder` | executor/plugin_txindex.go:96 | numbers written with leading zeros sort as text exactly as they do as numbers |
| `LocalIndexes.EntriesSort` | types/localkv.go:63-71 | so the entries of an address sort by height and then by place |
| `LocalIndexes.FeesPush` | executor/plugin_fee.go:21-28 | one more transaction raises the fees by exactly its fee |
| `LocalIndexes.FeesJoin` | executor/plugin_fee.go:21-28 | the fees of two lists add up |
| `LocalIndexes.Executor.TxExecLocal` | executor/plugin_txindex.go:26-34 | the pairs write hash and short-hash entries with height and place |
| `LocalIndexes.Executor.TxExecDelLocal` | executor/plugin_txindex.go:36-48 | the pairs delete the same keys |
| `LocalIndexes.Executor.UpdateAddrTxsCount` | executor/plugin_addrindex.go:119-140 | the running count goes up or down by the amount, in the local database and in the pair; nothing for database version 0 |
| `LocalIndexes.Executor.AddrExecLocal` | executor/plugin_addrindex.go:25-57 | the pairs have the address index's effect, counts seeing earlier transactions of the block; other keys of the local database are untouched |
| `LocalIndexes.Executor.AddrExecDelLocal` | executor/plugin_addrindex.go:59-89 | the same for taking back |
| `LocalIndexes.Executor.FeeExecLocal` | executor/plugin_fee.go:21-57 | the block's total is the parent's total plus the fees of its transactions, each counted once, and their number |
| `LocalIndexes.Executor.FeeExecDelLocal` | executor/plugin_fee.go:35-61 | the block's total is deleted |
| `LocalIndexes.Executor.ProcExecAddBlock` | executor/executor.go:367-441 | in whatever order the plugins run, the pairs together have the block's effect on the plugins' keys and the contracts' own pairs on the others |
| `LocalIndexes.Executor.ProcExecDelBlock` | executor/executor.go:443-517 | the same for taking the block back |
| `LocalIndexes.LocalStore.AddTxs` | blockchain/blockstore.go:711-726 | the batch leaves at every plugin key what the block's effect says, nil deleting, and at every other key what the contracts' pairs say |
| `LocalIndexes.LocalStore.DelTxs` | blockchain/blockstore.go:729-747 | the same for a disconnected block |
| `LocalIndexRuns.TxEffectAt` | executor/plugin_txindex.go:26-69 | the transaction index touches a key exactly if a transaction of the block belongs there, with the place of the last one |
| `LocalIndexRuns.AddrEffectAt` | executor/plugin_addrindex.go:25-89 | the same for the address index |
| `LocalIndexRuns.UndoRestoresExactly` | executor/plugin_txindex.go:36-48 | connecting and disconnecting a block restores an entry exactly if the block did not overwrite one |
| `LocalIndexRuns.AddrEffectCounts` | executor/plugin_addrindex.go:119-140 | a block changes an address count by its number of appearances as sender and receiver |
| `LocalIndexRuns.EntryConnect` | blockchain/blockstore.go:711-726 | connecting keeps an entry exactly what the chain records there |
| `LocalIndexRuns.EntryDisconnect` | blockchain/blockstore.go:729-747 | so does disconnecting |
| `LocalIndexRuns.FeeConnect` | executor/plugin_fee.go:43-57 | connecting keeps every chain block's total the sum from genesis and no other block's total stored |
| `LocalIndexRuns.FeeDisconnect` | executor/plugin_fee.go:59-61 | so does disconnecting |
| `LocalIndexRuns.TotalPush` | executor/plugin_fee.go:43-57 | the sum over all transactions from genesis grows by those of the block |
| `LocalIndexRuns.EntriesFollowChain` | executor/executor.go:367-517 | through any run in which no chain records two transactions under a key, the key holds exactly what the best chain records there |
| `LocalIndexRuns.TxsFollowChain` | executor/plugin_txindex.go:26-69 | through any run in which no chain repeats the hash, a transaction is found exactly if it is on the best chain, at its height and place |
| `LocalIndexRuns.AddrsFollowChain` | executor/plugin_txindex.go:79-102 | address entries are exactly those of the best chain through any run whose chains are spaced |
| `LocalIndexRuns.SpacedExactly` | executor/plugin_txindex.go:96 | no two transactions of a chain share a height/place number exactly if no block has more transactions than the spacing up to the next block that has any |
| `LocalIndexRuns.CountsAndFeesFollowChain` | executor/plugin_addrindex.go:25-140 | through any run, address counts are the appearances on the best chain and each best-chain block, no other, has the fees and the number of all transactions from genesis up to it |
| `Tasks.LeastMissing` | blockchain/task.go:140-161 | everything below is reported and it is not |
| `Tasks.LeastMissingUnique` | blockchain/task.go:140-161 | that determines it, whatever the order of reports |
| `Tasks.CoveredExactly` | blockchain/task.go:151-157 | nothing is missing exactly if the whole range is reported |
| `Tasks.Task.Start` | blockchain/task.go:85-104 | refused while running or for an empty range, otherwise a fresh window |
| `Tasks.Task.Done` | blockchain/task.go:107-161 | in any order and with repeats, start is the least unreported height; the task ends, with one callback, exactly when none is left |
| `Tasks.Task.Cancel` | blockchain/task.go:133-138 | ends the task without callback |
| `Tasks.Task.Timeout` | blockchain/task.go:38-59 | ends a running task and reports the least missing height once |
| `Caches.IndexedRemove` | blockchain/cache.go:104-114 | removing a queue element from both maps keeps both in bijection with the queue |
| `Caches.IndexedPush` | blockchain/cache.go:104-109 | so does pushing a block of a new height |
| `Caches.IndexedMove` | blockchain/cache.go:39-50 | so does moving an element to the back |
| `Caches.BlockCache.CheckcacheBlock` | blockchain/cache.go:39-50 | the cached block of that height, which becomes the last to be evicted; contents unchanged |
| `Caches.BlockCache.GetCacheBlock` | blockchain/cache.go:53-61 | the cached block with that hash |
| `Caches.BlockCache.CacheBlock` | blockchain/cache.go:64-84 | the block is added to queue and both indexes and a full cache gives up its front; for a height that is not cached both indexes stay in bijection with the queue |
| `Caches.BlockCache.DelBlockFromCache` | blockchain/cache.go:87-102 | exactly that height leaves queue and both indexes |
| `Caches.SetRemove` | blockchain/cache.go:151-156 | dropping a block's hashes keeps the set exact for every hash without a clash, and ends the clash of a hash that has left the window |
| `Caches.SetPush` | blockchain/cache.go:170-178 | so does adding a block's hashes |
| `Caches.LostRemove` | blockchain/cache.go:151-156 | the set stays the window without the hashes that went with a block since they were last added, and only hashes that clashed can be lost |
| `Caches.LostPush` | blockchain/cache.go:170-178 | adding a block brings its lost hashes back |
| `Caches.TxCache.Add` | blockchain/cache.go:145-180 | a block of the same height is replaced, a full cache drops its oldest; set and window stay exact for hashes without a clash, and which hashes are lost |
| `Caches.TxCache.Del` | blockchain/cache.go:183-196 | exactly the block of that height leaves, and its hashes that are still in the window are lost |
| `Caches.TxCache.HasCacheTx` | blockchain/cache.go:199-205 | a hash is found exactly if it is in a cached block and has not gone with another one since it was last added; all hashes that have not been in two cached blocks at once are found |
| `Caches.CachedChain.GetBlock` | blockchain/chain.go:425-462 | the block now on the best chain at that height, or none exactly if there is none, whatever was cached before |
| `Caches.CachedChain.LoadBlockByHash` | blockchain/process.go:496-521 | the stored block with that hash, or none exactly if it is not stored |
| `Caches.CachedChain.Connect` | blockchain/process.go:331-366 | all caches agree with the longer chain; the cached transaction lists stay its last blocks in order; a hash clashes only if the chain already had it |
| `Caches.CachedChain.Disconnect` | blockchain/process.go:431-454 | all caches agree with the shorter chain |
| `Caches.CachedChain.DelCacheBlock` | blockchain/chain.go:612-617 | the block leaves all three caches |
| `ParaFilters.HeadsUnique` | types/block.go:237-246 | with distinct hashes a block can be divided into groups in one way only |
| `ParaFilters.IsSpecificParaExecName` | types/config.go:525-527 | holds exactly if the name starts, character by character, like the names of parallel chains and like the title |
| `ParaFilters.TitlesApart` | types/config.go:525-527 | two titles share a name only if one is the start of the other |
| `ParaFilters.SelectedApart` | types/block.go:208-234 | so no single transaction is selected for two titles of which neither is the start of the other |
| `ParaFilters.WantedExactly` | types/block.go:208-234 | the result has strictly increasing indexes, each with its own transaction and receipt, for exactly the selected transactions |
| `ParaFilters.FilterParaTxGroup` | types/block.go:237-257 | the whole group around a member, with its end |
| `ParaFilters.FilterParaTxsByTitle` | types/block.go:208-234 | exactly the single transactions whose executor has the title and the whole groups that hold one, in order |
| `Pushes.GetSeqs` | blockchain/push.go:667-726 | a non-empty batch of consecutive log entries, greedily filled up to count and size; fails exactly if an unreadable entry comes while there is room |
| `Pushes.GreedyUnique` | blockchain/push.go:667-726 | there is only one such batch |
| `Pushes.NotStuck` | blockchain/push.go:667-726 | a batch that ended at its count or size met no unreadable entry |
| `Pushes.DeliveredInOrder` | blockchain/push.go:499-555 | chained posts together are every number after the start up to the last, once and in order |
| `Pushes.PushTask.constructor` | blockchain/push.go:741-757 | starts at the stored number |
| `Pushes.PushTask.OnRun` | blockchain/push.go:479-486 | only counts the pause down |
| `Pushes.PushTask.Fail` | blockchain/push.go:526-551 | nothing advances; the failures in a row are counted, the third stops the task, and before that the pause is set |
| `Pushes.PushTask.Deliver` | blockchain/push.go:552-555 | the batch joins the accepted posts without gap or overlap and progress moves to its end |
| `Pushes.PushTask.OnSeqUpdate` | blockchain/push.go:488-555 | exactly by cases: without a due and readable batch only the pause counts down; a failed post only counts a failure and sets the pause or stops the task; a working one delivers the one batch just after the last, not past the last recorded number, forgets the failures and stores its end if that can be saved |
| `Pushes.SubscriberRebuildsBest` | blockchain/push.go:499-555 | a subscriber from the first entry on can always replay what it received, and holds exactly the best chain once it received everything |

## Left out

- BlockChains.BlockChain.ConnectBestChain: requires an ancestor of the block in the view, because the code dereferences the missing fork otherwise.
- BlockChains.BlockChain.DisconnectBlock: requires a second node in the view; the code would be left without a tip.
- BlockChains.BlockChain.ConnectBlock: requires that a block whose parent hash is the tip's has a node whose parent is the tip, which the index guarantees.
- BlockChains.BlockChain.Rehash: requires a final hash that no other node has.
- BlockChains.BlockChain.MaybeAcceptBlock: assumes that the index does not evict a node still needed, that the view is reached from the parent of a block to be compared, and that each block executed in this call keeps its hash or gets one no node has.
- ChainRuns.Feed: requires fewer blocks than the view holds (`blockNodeCacheLimit`), beyond which a fork may be out of sight, and an environment in which nothing fails; `MaybeAcceptBlock` covers both.
- BlockChains.BlockChain.ReorganizeChain: not atomic, as in the code; the contract says what a failure leaves behind.
- OrphanPools.OrphanPool.AddOrphanBlock: requires an orphan that is not in the pool, which `ProcessBlock` checks before.
- ParaFilters.FilterParaTxsByTitle: requires well-formed groups and distinct hashes; without them the code may read past the block or loop.
- Pushes.GetSeqs: one member for block and header batches, which differ only in what is loaded for an entry.
- Parallel chains: sequence numbers supplied from outside, deletion of their blocks and their panics.
- Forks before ForkBlockHash, ForkExecRollback, ForkStateDBSet and ForkResetTx0: the later rules are taken as active.
- Restart: rebuilding index, view and caches from disk.
- `ProcessBlock`, future blocks, fault peers, broadcasting and download scheduling: they decide which block is offered when.
- Byte encodings: stored values are typed, keys of different tables differ, and short hashes are the first eight characters; ledger keys are the exception and are modelled as byte strings.
- Pushing transaction receipts: a block that exactly fills a batch is counted but not sent.
- Rollback of the local database inside the executor, the statistics and multi-version plugins, and contracts' own local pairs except that they cannot touch the plugins' keys.
- The query for duplicate transactions.
- Merkle roots, signatures, the hash function, the work of a difficulty, driver bodies and fee policy: parameters or abstract values.
- Locks, goroutines and timers: each handler is one atomic step and a timeout may happen at any step.
- Sizes and eviction order of the cache of recently read blocks: it may drop or refuse any block.
- Overflow of fee totals and address counts.
- RPC, message queues, configuration, metrics and peer-to-peer networking.
