# Rust Blockchain: a verified model

*Rust Blockchain* keeps blocks in a fork tree and the state of every block in a flat key-value
store, and promises that "at each block there is a corresponding state", obtained by executing the
block on its parent's state.  This project models the in-memory implementation of that promise, and
the bookkeeping of the peer-info network protocol, and proves:

* **The fork tree** answers ancestor queries with a skip list of back-pointers at distances
  4^1 .. 4^16.  On every tree that insertions reach, the skip walk finds what following parent links
  finds, errs only as documented, and takes at most 6n - 4 hops across a gap below 4^n, a bound that
  is attained, and at most 96 + gap / 4^16 hops across any gap.  Insertion keeps the whole index
  exactly when the id is fresh.
* **The flat state** reads, for every known block and key, the write of the nearest ancestor,
  whatever order its hash maps are iterated in.  Writes at one block are seen exactly by its
  descendants that no later write hides.
* **The chain** (tree, overlay, state and two-copy transaction together) refines a *ledger* that
  simply maps each block to its executed state: in every run of imports, successful and failed, every
  import has the ledger's outcome and every block of the final tree reads, for every key, what executing
  the blocks of its own path from the genesis leaves there.
* **The peer-info protocol** as a step system: the record of connections is exact, every handler is
  told of every address change, what is remembered of a remote is its latest full info with all later
  pushes merged in, and every report that a handler yields reaches the swarm once and in order.  A
  handler reports exactly what the finished streams and failed dials of its connection call for, except
  failed dials still pending when the connection closes, which are lost; pending ones are reported last
  first.

## One comparison, two versions

The ancestor query starts with a comparison (`blockchain/src/memory/chain.rs:71`) that rejects every
ancestor depth *smaller* than the block's, while the error it returns is documented as "greater than
current block depth" (line 36) and the loop below repeats the documented direction (line 76).  The
model has one definition of every operation, taking a `Guard`:

* `AsWritten` is the source as it stands.  `WrittenGuard` and the `Written...` members state exactly
  when it meets the documented contract, with the smallest failing inputs: a query is right if and
  only if no strict ancestor is asked for, insertion if and only if the parent's depth is not 3 modulo
  4, a state query if and only if the block wrote the key itself or no shallower block of any fork
  did.  No run ever stores a block of depth 4, and the fifth block of a chain is refused.  With reused
  ids, what a state query can return is settled at the deepest depth that holds a write by the block
  itself or by a block of another depth, and depends on the order of a hash map exactly when that depth
  holds both.
* `AsDocumented` is the comparison the documentation describes.  The positive results about walks,
  hops and readings are about this version; the chain refinement covers both.

Two more places where code and documentation differ; the model follows the code.

* `is_ancestor` is documented to return true whenever the depths are equal
  (`blockchain/src/chain.rs:40`), but compares ids.  `EqualDepthsCompareIds` gives the exact answer,
  true if and only if the ids are equal, and `SiblingIsNoAncestor` the failing input: two siblings.
* `MemoryTransactional` is documented to halt "if either fails" (`blockchain/src/memory/mod.rs:15-17`),
  but a failure of the second run alone is reported as success.  `ReportsEitherFailureIff` shows that
  this is the only exception and that copies in step never meet it; `DriftedFailureUnreported` is an
  input that does.

Insertion relies on "The hash of a block is unique" (`blockchain/src/block.rs:4`), and the results ask
for no more than that no block is *accepted* under a known id.  `InsertKeepsValidIffFresh` and
`ImportRefinesIffFresh` show that this is also necessary for the index; `ReinsertKeepsAnswersIff` says
when a reused id changes an answer (exactly when the block changes its parent), and
`RepeatedIdLoopsForever` that it can make a walk run forever.

## Reading the project

| file | holds |
|---|---|
| Types, Powers | shared values; powers of four |
| ForkTree | the tree as a value: queries, insertion, `Path`, the invariant `Valid` |
| AncestorWalk, HopBound, HopWorstCase | the walk finds the path; how many hops it takes, and at worst |
| ForkTreeInsert, WrittenGuard | insertion and runs with each comparison |
| StoredBlocks | which block is returned for an id |
| ReusedId, SmallTrees | inserting under a known id; the smallest failing inputs |
| FlatState, OverlayCommit | versioned writes, nearest-ancestor reading, isolation, overlay commit |
| SearchOrder | what a state query can return over all iteration orders |
| StoreRuns | tree and state used without a transaction, failing insertions included |
| Transactional | two copies in step |
| ChainImport | import, the ledger, and the refinement between them |
| MemoryForkTree, MemoryFlatState, MemoryChain | the objects of the source, with their loops and updates in place |
| PeerHandler, PeerBehaviour | the protocol's handler and its behaviour, as values and as objects |
| PeerNetwork, PeerReports | both as one step system, and what it reports |

A Rust struct is a value that `&mut self` methods update; here it is a class whose methods are proved
against functions on an immutable view of its fields.  A mutating closure given to a transaction is a
function from a value to a new value and an outcome.

## Model

| member | source | states |
|---|---|---|
| `ForkTree.AncestorDepthsExact` | blockchain/src/memory/chain.rs:133-177 | a block keeps back-pointers for exactly the distances 4^1 .. 4^16 that divide its depth and do not exceed it |
| `ForkTree.LowestAtLeast` | blockchain/src/memory/chain.rs:91-107 | the selected pointer is one of those not below the target, none of which is shallower; none is selected just when all are below |
| `ForkTree.CollectAncestors` | blockchain/src/memory/chain.rs:179-185 | on success one true answer per requested depth, in order; on failure the error of one of the queries |
| `AncestorWalk.HopTarget` | blockchain/src/memory/chain.rs:84-112 | each hop goes to the ancestor at the largest dividing power-of-four distance that does not overshoot, or to the parent |
| `AncestorWalk.WalkFollowsPath` | blockchain/src/memory/chain.rs:75-114 | the skip walk ends at the ancestor that parent links lead to |
| `AncestorWalk.SoundHopsFall` | blockchain/src/memory/chain.rs:109-112 | every hop goes strictly up, so every walk ends |
| `AncestorWalk.QueryFindsAncestor` | blockchain/src/memory/chain.rs:61-114 | with the documented comparison, a query returns the parent-link ancestor, errs with `UnknownBlock` just for unknown ids and with `InvalidAncestorDepth` just for depths greater than the block's |
| `AncestorWalk.IsAncestorDecidesAbove` | blockchain/src/chain.rs:41-49 | `is_ancestor` answers whether the candidate is on the block's path, and errs just for unknown ids and deeper candidates |
| `AncestorWalk.AncestryIsForestOrder` | blockchain/src/chain.rs:41-49 | the answers are reflexive, antisymmetric, transitive, and any two ancestors of one block are comparable |
| `AncestorWalk.AncestorComposes` | blockchain/src/memory/chain.rs:61-114 | going up to one depth and then to another is going straight there |
| `HopBound.HopsLogarithmic` | blockchain/src/memory/chain.rs:91-112 | a gap below 4^n, for n from 1 to 17, is crossed in at most 6n - 3 hops |
| `HopWorstCase.HopsSharp` | blockchain/src/memory/chain.rs:91-112 | and for n from 2 on in at most 6n - 4 |
| `HopWorstCase.WorstCaseAttained` | blockchain/src/memory/chain.rs:91-112 | from depth 4^n - 1 the walk to depth 1 takes exactly 6n - 4 hops, for every n from 2 to 17 |
| `HopBound.HopsAnyGap` | blockchain/src/memory/chain.rs:91-112 | any gap is crossed in at most 96 hops and one for each 4^16 of it |
| `ForkTreeInsert.InsertFresh` | blockchain/src/memory/chain.rs:155-204 | inserting a fresh block fails exactly for an unknown parent and then changes nothing; otherwise the tree grows by that block alone, at the end of its parent's path, and the invariant (links, depth index, duplicate-free children, exact back-pointers) holds again |
| `ForkTreeInsert.InsertKeepsValidIffFresh` | blockchain/src/memory/chain.rs:192-201 | insertion keeps the invariant if and only if the id is fresh or the parent unknown |
| `ForkTreeInsert.RunsKeepAnswers` | blockchain/src/memory/chain.rs:155-204 | on every tree reached by a run in which no block is accepted under a known id, all ancestor queries are answered by the parent links, and blocks, depths, ancestors and ancestry known before are answered as before |
| `ForkTreeInsert.AcceptedComesLast` | blockchain/src/memory/chain.rs:158-192 | on any tree, an accepted block comes last among the blocks listed at its depth and the children of its parent, and no other list changes |
| `StoredBlocks.StoredAfterInsert` | blockchain/src/memory/chain.rs:44-51 | on any tree, after an accepted insertion its id is answered with the block, and every other id, or every id after a refused one, is answered as before |
| `StoredBlocks.EveryAcceptedBlockIsFound` | blockchain/src/memory/chain.rs:44-51 | on every tree that a run from the empty one reaches, an id is answered with the last block accepted under it, and with `UnknownBlock` exactly if none was |
| `StoredBlocks.WrittenRunEnds` | blockchain/src/memory/chain.rs:155-204 | as written that covers every run, with any ids |
| `StoredBlocks.FreshRunEnds` | blockchain/src/memory/chain.rs:155-204 | as documented it covers every run in which no block is accepted under a known id |
| `ReusedId.ReinsertKeepsAnswersIff` | blockchain/src/memory/chain.rs:192-201 | inserting again under a known id leaves every depth and ancestor answer as it was if and only if the block keeps its parent |
| `SmallTrees.RepeatedIdLoopsForever` | blockchain/src/memory/chain.rs:75-113 | with either comparison, three insertions that reuse an id leave a tree on which the walk to depth 0, which the documented comparison lets through, is still moving after any number of hops |
| `WrittenGuard.WrittenQueryAgreesIff` | blockchain/src/memory/chain.rs:71-73 | the query as written meets the documented contract if and only if the id is unknown or the depth is not smaller than the block's |
| `WrittenGuard.WrittenIsAncestorAgreesIff` | blockchain/src/chain.rs:46-48 | `is_ancestor` as written agrees with the documented one if and only if an id is unknown or the candidate is not shallower |
| `WrittenGuard.EqualDepthsCompareIds` | blockchain/src/chain.rs:38-49 | with either comparison, `is_ancestor` of a block at the same depth is true if and only if it is the same block |
| `SmallTrees.SiblingIsNoAncestor` | blockchain/src/chain.rs:40-48 | two siblings, reached by three insertions, are at equal depths and neither comparison calls one an ancestor of the other |
| `SmallTrees.ChildCannotFindParent` | blockchain/src/memory/chain.rs:71-73 | on a two-block tree, reached by two insertions, the query as written for the child's parent is refused |
| `WrittenGuard.WrittenInsert` | blockchain/src/memory/chain.rs:155-204 | on any tree, insertion as written succeeds exactly for roots and under known parents of depth not 3 modulo 4, with no back-pointers; under depth 3 modulo 4 it errs after the parent has recorded the child |
| `WrittenGuard.WrittenInsertAgreesIff` | blockchain/src/memory/chain.rs:169-185 | on a sound tree it does what the documented insertion does if and only if the parent is not a known block of depth 3 modulo 4 |
| `WrittenGuard.ChainStopsAtDepthThree` | blockchain/src/memory/chain.rs:158-185 | no run from the empty tree, with any ids, stores a block of depth 4 or more; an insertion under a depth-3 parent reports a query error and leaves the child recorded |
| `SmallTrees.FifthBlockRefused` | blockchain/src/memory/chain.rs:158-185 | four insertions of a chain reach a block of depth 3; inserting a block under it reports `InvalidAncestorDepth`, does not store the block and leaves it recorded as a child |
| `MemoryForkTree.MemoryForkTree.GetBlock` | blockchain/src/memory/chain.rs:44-51 | the stored block, or `UnknownBlock` exactly for an id that is not stored |
| `MemoryForkTree.MemoryForkTree.WalkUp` | blockchain/src/memory/chain.rs:75-113 | the loop computes the walk, and its iterations are the counted hops |
| `MemoryForkTree.MemoryForkTree.AncestorId` | blockchain/src/memory/chain.rs:61-114 | on a sound tree, with the documented comparison, the parent-link ancestor or the documented error, and within the hop bounds 6n - 4 (3 for n = 1) and 96 + gap / 4^16 |
| `MemoryForkTree.MemoryForkTree.CheckAncestor` | blockchain/src/chain.rs:41-49 | computes `IsAncestor` |
| `MemoryForkTree.MemoryForkTree.ResolvePointers` | blockchain/src/memory/chain.rs:179-185 | the loop collects the back-pointers, stopping at the first failing query |
| `MemoryForkTree.MemoryForkTree.InsertBlock` | blockchain/src/memory/chain.rs:155-204 | the update in place is `Insert`, including what is left behind on failure |
| `FlatState.ApplyEntry` | blockchain/src/memory/state.rs:80-89 | applying changes at a block writes its last change for each key there and nothing anywhere else |
| `FlatState.LastChangeIsLast` | blockchain/src/memory/state.rs:82-89 | that is the change of the key after which no other change of it comes |
| `FlatState.ApplyAnyOrder` | blockchain/src/memory/state.rs:82-89 | every order of iterating a changeset leads to the same state |
| `FlatState.DeepestWriterRead` | blockchain/src/memory/state.rs:51-57 | the reading is that of the deepest block on the path that wrote the key, a removal reading as none |
| `FlatState.NoWriterNoValue` | blockchain/src/memory/state.rs:60-60 | with no writer on the path nothing is read |
| `FlatState.ForkIsolation` | blockchain/src/memory/state.rs:47-57 | applying changes at b changes what c reads for k exactly when b is on c's path, the changes have k, and no block below b on that path wrote k; and then c reads the change |
| `FlatState.GrowthKeepsReadings` | blockchain/src/memory/state.rs:39-61 | growth of the tree changes no reading at an old block |
| `FlatState.RunsKeepReadings` | blockchain/src/memory/state.rs:39-61 | nor does any run of insertions, and writes stay placed, so that `get` itself answers as before |
| `FlatState.WrittenReadAgreesIff` | blockchain/src/memory/state.rs:46-57 | a reading as written is right if and only if the block wrote the key itself or no shallower block of any fork did |
| `MemoryFlatState.CheckedWrite` | blockchain/src/memory/state.rs:53-55 | a write whose block is called an ancestor is the promised one, others are not on the path, and an error is the promised error |
| `MemoryFlatState.MemoryFlatState.SearchDepth` | blockchain/src/memory/state.rs:51-57 | the inner loop, with ids visited in any order: it returns what one of the writers that decide says, an error or a write by an ancestor, and goes on above exactly when no writer decides |
| `MemoryFlatState.DepthPromised` | blockchain/src/memory/state.rs:51-57 | on a sound tree whichever writer decides says the promised outcome, and if none does the search may go on above |
| `SearchOrder.OutcomeIffSomeOrder` | blockchain/src/memory/state.rs:51-57 | as written, on any tree that files blocks under their own ids, the outcomes over all iteration orders are exactly: at the deepest depth with a write that decides, the block's own write or the error for a write by a block of another depth; none if no write decides |
| `SearchOrder.OutcomeUniqueIff` | blockchain/src/memory/state.rs:51-57 | when all writers are known blocks, the outcome is the same in every order if and only if that depth does not hold both kinds of write |
| `MemoryFlatState.MemoryFlatState.Get` | blockchain/src/memory/state.rs:39-61 | for a known block the nested search returns the nearest-ancestor reading without error (documented) or the reading as written; `Ok(None)` for a key never written, even at an unknown block; otherwise `UnknownBlock` for an unknown block; as written, on any tree that files blocks under their own ids, one of the outcomes of `OutcomeIffSomeOrder` |
| `StoreRuns.InsertKeepsSound` | blockchain/src/memory/chain.rs:155-204 | with either comparison, insertion keeps queries sound and earlier blocks as they were, also where it fails and leaves a child recorded |
| `StoreRuns.EveryStoreReadable` | blockchain/src/memory/state.rs:39-92 | every tree and state reached by insertions, failing ones included, and applications in any order meets the conditions of `Get` |
| `StoreRuns.Query` | blockchain/src/memory/state.rs:39-61 | on all of them a query has its promised outcome: as written, the block's own write, else `InvalidAncestorDepth` once any shallower block wrote, else none |
| `StoreRuns.WrittenRunsStayFiled` | blockchain/src/memory/chain.rs:155-204 | in runs as written with any ids, blocks stay filed under their own ids and writers stay known |
| `StoreRuns.WrittenStoreQuery` | blockchain/src/memory/state.rs:39-61 | on everything those runs reach, a query of a known block returns one of the outcomes of `OutcomeIffSomeOrder`: its own write, `InvalidAncestorDepth` or none, as the deepest deciding depth has it; and of an unknown block `UnknownBlock`, or none for a key never written |
| `StoreRuns.ReadDependsOnOrder` | blockchain/src/memory/state.rs:51-57 | five operations that insert a root again below another, after which the other root reads its own write in one iteration order and gets `InvalidAncestorDepth` in the other |
| `MemoryFlatState.MemoryFlatState.Apply` | blockchain/src/memory/state.rs:74-92 | the loop enters all changes under the block's depth, or fails for an unknown block and changes nothing |
| `MemoryFlatState.OverlayedFlatState.Get` | blockchain/src/state.rs:88-94 | a pending change if there is one, a removal included, and otherwise what the state returns at the block below, for known and unknown blocks |
| `MemoryFlatState.OverlayedFlatState.Insert` | blockchain/src/state.rs:97-99 | the pending change of the key is the value, and every other pending change is as it was |
| `MemoryFlatState.OverlayedFlatState.Remove` | blockchain/src/state.rs:102-104 | the pending change of the key is a removal, and every other pending change is as it was |
| `MemoryFlatState.OverlayedFlatState.IntoChangeset` | blockchain/src/state.rs:107-109 | lists every pending change once, in any order |
| `MemoryFlatState.PendingIsLastOp` | blockchain/src/state.rs:97-104 | after any inserts and removes, the pending change of a key is the value of the last operation on it, none if that is a removal, and absent exactly if no operation names it |
| `OverlayCommit.CommitReadsBack` | blockchain/src/state.rs:88-109 | after any inserts and removes over a parent, inserting a fresh child and applying the changeset to it in any order makes the child read, for every key, what the overlay read: the value last inserted, none after a removal, and otherwise what the parent reads |
| `Transactional.ApplyIsAtomic` | blockchain/src/memory/mod.rs:34-48 | on copies in step, an operation takes effect on both or leaves both as they were |
| `Transactional.BackInStepIff` | blockchain/src/memory/mod.rs:34-63 | from copies that drifted apart, they are equal afterwards if and only if a run failed or both runs ended in the same value |
| `Transactional.CopiedBack` | blockchain/src/memory/mod.rs:34-48 | from any two copies: both are the untouched second if the first run fails, both are what the first run made if only the second fails, and otherwise each is what its own run made; the outcome is that of the first run |
| `Transactional.ReportsEitherFailureIff` | blockchain/src/memory/mod.rs:11-48 | an apply reports failure exactly when either run fails if and only if the second run does not fail alone; copies in step always meet that |
| `Transactional.DriftedFailureUnreported` | blockchain/src/memory/mod.rs:36-42 | two copies that drifted apart and an operation whose second run fails, reported as success |
| `Transactional.RunsAreAtomic` | blockchain/src/memory/mod.rs:26-48 | after any run of operations, partial ones included, both copies are what the successful operations alone make of the start |
| `Transactional.MemoryTransactional.Apply` | blockchain/src/memory/mod.rs:34-48 | the update in place of both copies, failures of the second run included |
| `ChainImport.ExecuteIsOverlay` | blockchain/tests/simple.rs:132-141 | executing the extrinsics on a state reads as the overlay's changeset over that state |
| `ChainImport.LastSetIsRead` | blockchain/tests/simple.rs:132-138 | executing leaves under each key the value of the last extrinsic on it, and what was there before if there is none |
| `ChainImport.StartRefines` | blockchain/tests/simple.rs:228-242 | the chain after its genesis refines the ledger holding the genesis state |
| `ChainImport.ImportRefines` | blockchain/tests/simple.rs:121-146 | one import, accepted or refused, has the ledger's outcome, leaves both copies equal, and refines the ledger again; a refused one returns the copies unchanged, without even the child recorded early by insertion |
| `ChainImport.ImportOutcome` | blockchain/tests/simple.rs:121-146 | which error an import reports and when it succeeds, from the seal, the parent and its depth; the accepted block is then found as it was given and every other as before |
| `ChainImport.ImportRefinesIffFresh` | blockchain/tests/simple.rs:121-146 | the refinement survives an import if and only if the block is refused or its id is fresh |
| `ChainImport.ImportFollows` | blockchain/tests/simple.rs:121-146 | one import keeps every block's ledger state equal to the fold of the extrinsics along its path in the tree |
| `ChainImport.EveryBlockReadsItsExecution` | blockchain/tests/simple.rs:117-147 | from any genesis and for every run of imports, every outcome is the ledger's, and every block of the final tree has a path starting at the genesis and reads, for every key, the fold of the extrinsics of the blocks on that path over the genesis state |
| `ChainImport.DistinctIdsAreFresh` | blockchain/src/block.rs:4-4 | pairwise distinct unknown ids make a run the theorem covers |
| `ChainImport.WrittenChainReadIff` | blockchain/src/memory/state.rs:45-57 | on every chain that refines a ledger, a query as written returns the executed value if and only if the block wrote the key or no shallower block did, and otherwise reports `InvalidAncestorDepth` |
| `ChainImport.InheritedReadFails` | blockchain/src/memory/state.rs:52-54 | as written, a child that writes nothing, imported right after the genesis, gets `InvalidAncestorDepth` for a genesis value that its executed state holds |
| `MemoryChain.ImportBody` | blockchain/tests/simple.rs:127-145 | the transaction body on the objects: insertion, extrinsics into the overlay, changeset applied in any order |
| `MemoryChain.Chain.Import` | blockchain/tests/simple.rs:121-146 | keeps the refinement and has the ledger's outcome |
| `MemoryChain.Chain.Get` | blockchain/tests/simple.rs:253-266 | with the documented comparison, the value in the block's executed state |
| `PeerHandler.CompletionKeepsLatest` | blocknet/src/libp2p/peer_info/handler.rs:283-310 | a finished stream takes the remote info from the latest so far to the latest after it, and an identified notice carries exactly that |
| `PeerHandler.RemoteInfoIsLatest` | blocknet/src/libp2p/peer_info/handler.rs:212-325 | in every run, the remote info is the latest full identify with all later pushes merged in order, and the reports are exactly those the finished streams and failed dials call for, stated without the code: the successive values of the remote info in order, the pushes sent in order, one report for each identify sent and each time-out, and one with its cause for each failed stream and failed dial but the dials still pending |
| `PeerHandler.NoticesConserved` | blocknet/src/libp2p/peer_info/handler.rs:244-379 | in each step, the failures pending after it followed by the one it reports are those pending before followed by the new one: none is lost, and pending ones are taken from the end |
| `PeerHandler.FailedDialsReversed` | blocknet/src/libp2p/peer_info/handler.rs:267-269 | dial failures that were not reported yet are reported in reverse by the next polls, before any timer or stream |
| `PeerHandler.PushesConserved` | blocknet/src/libp2p/peer_info/handler.rs:249-257 | in every run, the push streams requested and those pending are exactly as many as were called for: one for each push told, and one for each change of protocols after an inbound identify was accepted |
| `PeerHandler.Handler.PollOnce` | blocknet/src/libp2p/peer_info/handler.rs:262-325 | a pending event comes first, the last of them, then the timer, which requests an identify stream, then a finished stream; what the handler remembers is the latest of the streams taken, and the reports it has yielded are those its streams and failed dials call for, all but the dials pending |
| `PeerHandler.Handler.Receive` | blocknet/src/libp2p/peer_info/handler.rs:244-259 | the handler knows the addresses last told, a push told is a push stream requested, and memory and reports still match its history |
| `PeerHandler.Handler.ConnectionChanged` | blocknet/src/libp2p/peer_info/handler.rs:327-379 | a change of protocols requests a push stream exactly if an inbound identify was accepted before, a failed dial is noted with its cause, and memory and reports still match the history |
| `PeerBehaviour.BehaviourObject.OnConnectionEstablished` | blocknet/src/libp2p/peer_info/behaviour.rs:191-209 | the record is again exactly the open connections, the new one included with its address and the others with theirs, with no peer without one |
| `PeerBehaviour.BehaviourObject.OnConnectionClosed` | blocknet/src/libp2p/peer_info/behaviour.rs:328-338 | the record is again exactly the open connections if and only if the count is zero just for the peer's last one, and so whenever the count is accurate; the others then keep their addresses |
| `PeerBehaviour.BehaviourObject.OnAddressEvent` | blocknet/src/libp2p/peer_info/behaviour.rs:293-322 | when either address book changed, queues the new addresses once for every connection, in any order, and then, if the listen addresses changed and pushing is configured, one push for every peer |
| `PeerBehaviour.BehaviourObject.Push` | blocknet/src/libp2p/peer_info/behaviour.rs:173-189 | the queue grows by one push for each position of the list that holds a connected peer, to that peer and in the order of the positions, and by nothing else |
| `PeerBehaviour.BehaviourObject.OnHandlerEvent` | blocknet/src/libp2p/peer_info/behaviour.rs:258-282 | the report comes last in the queue, with its kind and payload, under the peer it is about |
| `PeerBehaviour.BehaviourObject.Poll` | blocknet/src/libp2p/peer_info/behaviour.rs:285-291 | yields queued events first in, first out |
| `PeerBehaviour.CloseKeepsConnectedIff` | blocknet/src/libp2p/peer_info/behaviour.rs:328-338 | closing a connection keeps the record exact if and only if the remaining count is zero just for a peer's last connection |
| `PeerNetwork.EveryRunStaysInStep` | blocknet/src/libp2p/peer_info/behaviour.rs:293-344 | in every run, dial failures and protocol changes included, `connected` is exactly the open connections with no empty peer, and each open handler, once its queued messages have arrived in order, knows exactly the current addresses |
| `PeerNetwork.LateSetupInStepIff` | blocknet/src/libp2p/peer_info/behaviour.rs:224-239 | a connection whose handler was made earlier is in step if and only if the addresses have not changed since |
| `PeerReports.EveryReportArrivesOnce` | blocknet/src/libp2p/peer_info/behaviour.rs:258-291 | in every run, the reports given to the swarm and those still queued are exactly the reports the handlers yielded, once each and in order; on each connection, open or closed, they are exactly those its finished streams and failed dials call for, but for failed dials, which are the pending ones while it is open and lost once it has closed |

## Left out

- Identifiers, keys and values are unbounded numbers rather than generic types or `u32`; depths are unbounded rather than `usize`.
- Block building and the value of a seal beyond valid or invalid: record updates only.
- `ForkTreeTransactional`, `FlatStateTransactional`, `Headered` and `Keyed`: declared without an implementation that has anything to prove.
- Changes made to the first copy alone through `DerefMut` are covered only by `BackInStepIff` and `ReportsEitherFailureIff`, which start from arbitrary copies.
- A transactional closure is a function of the value it is given: panics and interior mutability are not modelled.
- Several parentless blocks are allowed in the tree; the chain results start from one genesis, since import refuses parentless blocks.
- The peer-info step system takes from its environment that address books report every change, that connection ids are never reused, that messages to one connection arrive in order, and that remaining counts are accurate.
- Stream reading and writing, JSON, the bound on concurrent streams, timers and wake-ups: library behaviour that appears only as inputs to a poll.
- The swarm, channels and gossip of `blocknet/src/libp2p/mod.rs`, and the lock wrappers and service traits.
