# Consensus prototypes: a verified model

A Dafny model of the consensus prototypes of this repository, and proofs about them.
`dafny verify dfyconfig.toml` checks all of it.

* **Cross-committee ledger** (RapidChain): `LedgerTypes`, `UtxoSet`, `Ledger`, `Proposal`, `Simulation`,
  `LedgerRules`, `CrossPayment`, `Conservation`, `Outpoints`, `ConservationRuns`, `ValueWitness`, `LedgerNode`,
  `LeaderNode`, `CatchUp`. A committee's leader speculates over its UTXO set with two scratch sets; members replay what
  it emits; laggards replay without checks. The speculation is shown to be what the replay does, nothing to be spent
  without its owner's signature, payments from several committees to complete, value to be conserved across committees
  with no outpoint ever in two places, and catching up to end where a peer is. `Ledger` and `Proposal` hold the
  specification functions; `LedgerNode` and `LeaderNode` are the in-place programs proved against them.
* **Merkle trees** with path proofs, pollards and multiproofs: `Bytes`, `Merkle`, `MerkleTree`, `MultiProof`; and the
  **proof of consensus** built on them: `ProofOfConsensus`, `ProofWitness`, and what it means for the ledger:
  `ResponseProofs`.
* **SS-Raft leader election and block commit**: `Raft`, `RaftElections`, `RaftCommit`.
* **Frustum** (the sharded PBFT variant) on top of its vote counter: `Quorum`, `Frustum`, `FrustumVotes`, `FrustumRuns`;
  when its rounds can end: `FrustumProgress`, `FrustumSmall`; and when they cannot: `FrustumHang`, `FrustumHangRun`.
* **IDA gossip**, from padding to reading the message back: `Padding`, `IdaGossip`, `IdaNode`, `IdaDepth`,
  `IdaDelivery`.
* **Committee arithmetic**: `Ring`, `LeaderElection`, `Allocation`. **Priority pool**: `TxPool`.

Hash functions, signature checks, closeness of committees and the erasure code are parameters. Where collisions
matter, the hash is assumed to have fixed-length digests, none of them zero, and no second preimage for the strings
hashed in the tree at hand; the erasure code is assumed systematic, with any kappa shards determining all and
rebuilding leaving those that are there. Fatal errors and panics are a missing result (`None`, `false`, `Fatal`). Walks
over Go maps may take any order. Handlers are atomic steps, and a run is any sequence of events: messages may be
delivered in any order, late or never.

Some expected properties do not hold of the code. Each has its exact condition here, but for the moments from which a
round of Frustum can end, where there is a condition that is enough and a run that shows it fail:

* A normal transaction that names an input twice passes the leader and stops every replica
  (`NormalCommitsIffDistinct`, `RepeatedInputStopsReplay`).
* Normal transactions are compared by 64-bit sums that wrap, and outputs are filed under their own nonces and a hash no
  receiver recomputes. Value changes unless as much is filed as is spent or filed over (`NormalKeepsValueIff`): outputs
  that overflow create it (`OverflowCreatesValue`); inputs that wrap, outputs under one nonce and a hash already in use
  lose it (`WrappedInputsLoseValue`, `RepeatedNonceLosesValue`, `TakenHashLosesValue`).
* Nothing checks that a completed original is balanced (`FinalKeepsValueIff`, `UnbalancedOriginalCreatesValue`), and a
  request that names an input twice is paid twice (`ResponseInMovesValueIff`, `RepeatedRequestCreatesValue`).
* The proof of consensus covers a response's identity, which is the hash of the original, and not its outputs; and its
  signatures are not tied to its gossip hash. A response whose outputs were altered passes with the same proof
  (`OutputsAreNotChecked`, `SignaturesAreNotTied`, `AlteredResponsePasses`), and value changes by exactly the alteration
  (`AlteredResponseValue`).
* The verifier of Merkle proofs does not look at the depth, so inner nodes pass as values (`InnerNodesVerify`,
  `AcceptedIsInner`). A member collecting chunks rebuilds the sender's shards when those it gathered came with
  proofs of full depth (`EndToEnd`), and only then as long as no shard begins or ends with a digest or
  is the padding pair (`EntryIsRightIff`; `RightChunkShallowProof` shows what may happen otherwise); a run that rebuilds wrong ones is given
  (`ShallowProofsMislead`).
* Covering a value is signed 64-bit arithmetic: an output far too small or far too large for what is left
  seems to cover it, or not to (`SafeToFillIff`, `ShortfallClaimsToCover`).
* Plain Raft removes the seed node from the shared member table and then still subtracts one, so for even sizes from
  four on two nodes can win one term (`WholeElectionSafety`). The sharded form is safe.
* The vote counter re-counts buffered messages with each message of the round, and not at all without one
  (`VotesExactly`, `CountsMessagesIff`). So a round of Frustum can always be ended from the moment its block is put up
  (`RoundCanEnd`), but not from every later moment: with four intra-leaders a member that gets all its votes before it
  is told never sends its own, and the others cannot do without it (`RoundMayHang`, `HangsForever`).
* With one or three intra-leaders Frustum never gets past its first block (`MiningCompletesIff`).
* A message whose length already divides gets no padding, so one that ends like padding is cut (`RecoveredExactly`,
  `PaddedTailIsCut`).
* An entry needs a second message (`RebuiltExactly`), but nothing is added once kappa chunks are held: a first message
  that brings them alone, as a sender with few neighbours makes it, is never rebuilt (`FirstMessageIsStuck`,
  `LargeShareIsStuck`).
* The allocation loop leaves the committee table when more nodes are left over than one committee holds (`Allocate`),
  and an odd number of committees may hold a third of adversaries or more (`BelowAThirdExactly`).
* A proof of consensus carries every message held for the block, not only the accepts that were counted, so it passes
  exactly when all of them are good signatures (`ProofRoundTrip`, `UncheckedVoteSpoilsProof`).
* The chain-request loop asks again without end when no peer is ahead (`RequestAndAddMissingBlocks`).
* `isHashesCorrect` in `datastructures.go` compares a hash with itself and is used nowhere; a block's gossip hash is
  taken to be computed by its leader as `setHash` does.

## Model

| member | source | states |
|---|---|---|
| `UtxoSets.UtxoSet.Add` | BlockChain/Consensus/rapidchain-master/datastructures.go:353-364 | Filling an inner map at the output's nonce sets exactly one outpoint of the flat map, keyed by that nonce |
| `UtxoSets.UtxoSet.RemoveOutput` | BlockChain/Consensus/rapidchain-master/datastructures.go:366-377 | Removing an output removes one outpoint of the flat map; an inner map left empty is dropped, an absent output changes nothing |
| `UtxoSets.UtxoSet.GetAndRemove` | BlockChain/Consensus/rapidchain-master/datastructures.go:420-430 | The output at an outpoint, if there is one, is returned and taken out of the flat map |
| `UtxoSets.UtxoSet.GetOutputsToFillValue` | BlockChain/Consensus/rapidchain-master/datastructures.go:482-509 | In whatever order the maps are walked: distinct present outpoints up to the first where the rest, as a signed 64-bit number, is not positive. For a value of one or more that is safe to ask of the wallet the answer is right (enough with the last one only, or not enough in all), and success is exactly having enough |
| `UtxoSets.SafeToFillIff` | BlockChain/Consensus/rapidchain-master/datastructures.go:486-507 | For every wallet and value of one or more: every walk, in whatever order, answers rightly if and only if no single output leaves 2^63 or more to go, and none overshoots by more than 2^63 what some others leave to go |
| `UtxoSets.RightIff` | BlockChain/Consensus/rapidchain-master/datastructures.go:486-507 | Walk by walk: an answer is right if and only if what is left never leaves the signed 64-bit range during it |
| `UtxoSets.ShortfallClaimsToCover` | BlockChain/Consensus/rapidchain-master/datastructures.go:486-503 | With a single output 2^63 or more short of the value, every walk claims to have covered it |
| `UtxoSets.Withdraw` | BlockChain/Consensus/rapidchain-master/tx-gen.go:317-334 | A wallet gives up exactly the chosen outpoints, keeps the rest, and the total is what they held, in 64 bits |
| `UtxoSets.BuildPayment` | BlockChain/Consensus/rapidchain-master/tx-gen.go:304-358 | A payment names distinct owned inputs, exactly those leave the wallet, and it always passes the ledger's 64-bit comparison; for a value below 2^63 that is safe to ask of the wallet it is built exactly when the wallet holds enough, and its outputs sum to exactly what its inputs held |
| `LedgerTypes.TotalSpend` | BlockChain/Consensus/rapidchain-master/datastructures.go:456-465 | Spending distinct present inputs takes exactly their value out of the total |
| `LedgerTypes.TotalUnion` | BlockChain/Consensus/rapidchain-master/datastructures.go:456-465 | Value of disjoint output sets adds up |
| `LedgerTypes.OutMapTotal` | BlockChain/Consensus/rapidchain-master/datastructures.go:779-783 | Outputs of distinct nonces filed under one transaction hold the sum of their values |
| `LedgerTypes.ResponseMapIsSpent` | BlockChain/Consensus/rapidchain-master/create-block.go:717-724 | Outputs handed on for spent inputs land under exactly the outpoints that were spent |
| `Ledger.ForceAgrees` | BlockChain/Consensus/rapidchain-master/datastructures.go:877-948 | Wherever the checked replay of a block succeeds, the unchecked one reaches the same UTXO set and waiting originals |
| `Ledger.CommitAppend` | BlockChain/Consensus/rapidchain-master/datastructures.go:762-874 | Processing a block of two parts is processing one part after the other |
| `Ledger.CommitKeepsNonces` | BlockChain/Consensus/rapidchain-master/datastructures.go:762-874 | Every processed transaction leaves each output under its own nonce |
| `LedgerNode.Node.ProcessOne` | BlockChain/Consensus/rapidchain-master/datastructures.go:768-865 | One transaction of a block, in place: succeeds exactly when its kind's checks pass, and then the node's UTXO set and originals are the committed ones |
| `LedgerNode.Node.ProcessBlock` | BlockChain/Consensus/rapidchain-master/datastructures.go:762-874 | The in-place loop over a block agrees with the specification, including when it stops |
| `LedgerNode.Node.ForceProcessBlock` | BlockChain/Consensus/rapidchain-master/datastructures.go:877-948 | The in-place loop without checks agrees with its specification |
| `LedgerNode.SettledAre` | BlockChain/Consensus/rapidchain-master/datastructures.go:213-221 | What leaves the pool with a block are exactly the transactions known by one of the two hashes of a transaction in it |
| `LedgerNode.SpendAll` | BlockChain/Consensus/rapidchain-master/datastructures.go:772-778 | Succeeds exactly when all inputs are present and no input repeats; returns their value as a wrapped 64-bit sum |
| `LedgerRules.NormalCommittedIff` | BlockChain/Consensus/rapidchain-master/datastructures.go:771-789 | Replicas take a normal transaction exactly when its inputs are all there, none is named twice, and, except in the genesis block, the 64-bit sums agree |
| `LedgerRules.FinalCommittedIff` | BlockChain/Consensus/rapidchain-master/datastructures.go:826-861 | Replicas take a final transaction exactly when an original waits under its id that has every one of its outputs; that original waits no more, all others do |
| `LeaderNode.ValidateInput` | BlockChain/Consensus/rapidchain-master/create-block.go:726-762 | Valid exactly when the output is known, not already spent in the batch, and the signature matches |
| `LedgerRules.NormalAcceptedIff` | BlockChain/Consensus/rapidchain-master/create-block.go:764-852 | A leader takes a transaction with all inputs its own exactly when each is unspent, in the UTXO set or among the batch's outputs, and signed over the transaction's hash by the key the output was paid to, the 64-bit sums agree, and no input outside the UTXO set is named twice |
| `LedgerRules.RequestAnsweredIff` | BlockChain/Consensus/rapidchain-master/create-block.go:602-654 | A leader answers a foreign request exactly when it is addressed to it and every input is in its UTXO set, unspent, and signed over the original's id by the output's owner; the answer names the same inputs, brings exactly their outputs, and its hash covers both |
| `LedgerRules.SplitAcceptedIff` | BlockChain/Consensus/rapidchain-master/create-block.go:656-690 | A transaction with foreign inputs is split exactly when its own inputs are unspent and signed by their owners over its hash |
| `LedgerRules.SplitIsComplete` | BlockChain/Consensus/rapidchain-master/create-block.go:656-705 | What a split emits: the original under its id, and exactly one request for each foreign committee, naming exactly that committee's inputs in their order; own and requested inputs together are the transaction's, each as often as it is there |
| `LedgerRules.SpentIsSigned` | BlockChain/Consensus/rapidchain-master/create-block.go:726-852 | Over every batch: each output spent was signed away by its owner in a transaction of the batch, or is an input of an original that its responses completed |
| `CrossPayments.ResponseAcceptedIff` | BlockChain/Consensus/rapidchain-master/create-block.go:398-600 | A leader takes a response exactly when its proof is there and good, it has one output per input, an original waits under its id, and that one, if it can be completed now, names no input twice; exactly then the final transaction follows, with the original's inputs and outputs |
| `CrossPayments.SplitIsFiled` | BlockChain/Consensus/rapidchain-master/create-block.go:337-355 | A split spends nothing; its original waits with the leader at once, and on every ledger that commits the list, beside those that waited |
| `CrossPayments.RequestIsAnswered` | BlockChain/Consensus/rapidchain-master/create-block.go:602-654 | A request so emitted is answered by the committee it is for whenever its inputs are unspent and signed there, and the answer pays its inputs |
| `CrossPayments.AnswersComplete` | BlockChain/Consensus/rapidchain-master/create-block.go:452-600 | With the answers to all requests taken in, in that order and not before the last of them, the original is completed: its inputs are spent and its outputs paid under its id |
| `CrossPayments.PaymentCompletes` | BlockChain/Consensus/rapidchain-master/create-block.go:287-396 | End to end over any number of committees: a payment split by its leader, answered by every foreign committee and answered with good proofs, is followed at home by exactly one final transaction that spends its inputs and pays its outputs |
| `LeaderNode.ProcessNormal` | BlockChain/Consensus/rapidchain-master/create-block.go:764-795 | The leader's in-place handling of a normal transaction reaches the specified scratch sets; it fails exactly when that does |
| `LeaderNode.ProcessIncoming` | BlockChain/Consensus/rapidchain-master/create-block.go:602-654 | A foreign request's own inputs are handed on as outputs and recorded as spent; the new hash covers them |
| `LeaderNode.SplitInputs` | BlockChain/Consensus/rapidchain-master/create-block.go:656-690 | Foreign inputs are grouped by committee in order; fails exactly when one of the committee's own is not valid |
| `LeaderNode.ProcessUnknown` | BlockChain/Consensus/rapidchain-master/create-block.go:656-705 | Emits the original followed by one request per foreign committee, in any order of the groups |
| `LeaderNode.SpendFinal` | BlockChain/Consensus/rapidchain-master/create-block.go:520-583 | Spends the completed original's inputs from both sets without taking them from the added one; fails exactly when an input repeats |
| `LeaderNode.ProcessResponse` | BlockChain/Consensus/rapidchain-master/create-block.go:452-600 | A response's outputs are added, and the original is completed exactly when all its inputs are then covered |
| `LeaderNode.ProcessTransactions` | BlockChain/Consensus/rapidchain-master/create-block.go:287-396 | The whole imperative batch loop agrees with the specification of the batch, success and emitted list alike |
| `Simulation.NormalCommitsIffDistinct` | BlockChain/Consensus/rapidchain-master/create-block.go:764-795 | What the leader accepts as a normal transaction is accepted by the replicas exactly when no input repeats |
| `Simulation.RepeatedInputStopsReplay` | BlockChain/Consensus/rapidchain-master/create-block.go:764-852 | A concrete transaction naming one input twice that passes the leader and stops every replica |
| `Simulation.NormalSimulates` | BlockChain/Consensus/rapidchain-master/create-block.go:764-795 | A normal transaction keeps leader and replicas in step |
| `Simulation.UnknownSimulates` | BlockChain/Consensus/rapidchain-master/create-block.go:656-705 | A transaction with foreign inputs keeps them in step: the original waits on both sides |
| `Simulation.IncomingSimulates` | BlockChain/Consensus/rapidchain-master/create-block.go:602-654 | A request from another committee keeps them in step |
| `Simulation.ResponseSimulates` | BlockChain/Consensus/rapidchain-master/create-block.go:452-600 | A response, with or without the original it completes, keeps them in step |
| `Simulation.FinalSimulates` | BlockChain/Consensus/rapidchain-master/create-block.go:529-582 | Completing an original spends on both sides the same outputs, although the leader leaves them in its added set |
| `Simulation.ProposalSimulatesCommit` | BlockChain/Consensus/rapidchain-master/create-block.go:287-396 | For every well-formed batch the leader gets through, the emitted list commits and the committed UTXO set is (utxo and added) minus spent, over all six kinds |
| `Conservation.NormalKeepsValueIff` | BlockChain/Consensus/rapidchain-master/datastructures.go:771-789 | Any normal transaction the replicas accept keeps the total exactly when it files as much as it spends or files over; at new outpoints, exactly when what it files is what its inputs were worth; and with outputs of distinct nonces and a total below 2^64 besides, exactly when its outputs do not overflow 64 bits |
| `Conservation.FinalKeepsValueIff` | BlockChain/Consensus/rapidchain-master/datastructures.go:813-861 | Any accepted final transaction keeps the total exactly when it files as much as it removes or files over; with its inputs there and its outpoints new, exactly when its original was balanced, which nothing checks |
| `ValueWitnesses.OverflowCreatesValue` | BlockChain/Consensus/rapidchain-master/create-block.go:764-795 | A concrete well-formed transaction without inputs whose two outputs wrap to zero: leader and replicas accept it, and the total goes from 0 to 2^64 |
| `ValueWitnesses.RepeatedNonceLosesValue` | BlockChain/Consensus/rapidchain-master/create-block.go:764-795 | A concrete well-formed transaction with two outputs under one nonce: leader and replicas accept it, and the total goes from 7 to 4 |
| `ValueWitnesses.WrappedInputsLoseValue` | BlockChain/Consensus/rapidchain-master/create-block.go:764-795 | A concrete well-formed transaction with two inputs of 2^63 and no outputs: it is accepted, and the total goes from 2^64 to 0 |
| `ValueWitnesses.TakenHashLosesValue` | BlockChain/Consensus/rapidchain-master/create-block.go:764-795 | A concrete transaction under the hash of an unspent output, which no receiver recomputes: it is accepted, and the total goes from 16 to 7 |
| `ValueWitnesses.UnbalancedOriginalCreatesValue` | BlockChain/Consensus/rapidchain-master/create-block.go:452-600 | A concrete well-formed batch whose response of one completes an original paying ten: it passes, and the total goes from 0 to 10 |
| `ValueWitnesses.RepeatedRequestCreatesValue` | BlockChain/Consensus/rapidchain-master/create-block.go:602-654 | A concrete request naming one input of three twice: the leader answers with outputs worth six |
| `Conservation.ResponseInValue` | BlockChain/Consensus/rapidchain-master/datastructures.go:797-802 | A response included at its origin takes out exactly what is there under its inputs, absent or repeated ones included |
| `Conservation.ResponseInMovesValueIff` | BlockChain/Consensus/rapidchain-master/create-block.go:602-654 | It moves exactly that value into the outputs handed on if and only if no input named again is worth anything; otherwise it creates value |
| `Conservation.ResponseOutValue` | BlockChain/Consensus/rapidchain-master/datastructures.go:803-812 | A response arriving brings what it files less what it files over; when it pays its inputs at new outpoints, exactly the value it carries |
| `Outpoints.BatchFlows` | BlockChain/Consensus/rapidchain-master/create-block.go:287-396 | A batch that takes its responses from those on their way, and mints nothing they carry, is well formed: no response brings an outpoint the leader has seen. What it adds was minted or brought, what it spends was that or the ledger's, and what it hands on was the ledger's own, is spent, and goes with one response only |
| `ConservationRuns.ProducedPay` | BlockChain/Consensus/rapidchain-master/create-block.go:602-654 | Every response a batch produces names distinct inputs and pays one output for each, under its nonce |
| `ConservationRuns.OutpointsMove` | BlockChain/Consensus/rapidchain-master/datastructures.go:762-874 | After a round no outpoint is in two ledgers, in a ledger and with a travelling response, or with two responses, if none was before and what the round mints is new: no output can be spent in two committees |
| `ConservationRuns.RoundKeepsOk` | BlockChain/Consensus/rapidchain-master/create-block.go:287-396 | A round keeps every ledger in order, every travelling response paying its inputs, and every outpoint in one place |
| `ConservationRuns.RoundKeepsValue` | BlockChain/Consensus/rapidchain-master/create-block.go:717-724 | A round of one committee keeps the value of all ledgers and of the travelling responses together; that the responses taken in pay their inputs and bring outpoints unseen at the receiver is what earlier rounds established |
| `ConservationRuns.ValueIsConserved` | BlockChain/Consensus/rapidchain-master/create-block.go:287-396 | Over every run of rounds of all committees the total of ledgers and travelling responses, each counted once, never changes, and no outpoint is ever in two places; responses are taken to arrive as they were sent |
| `ResponseProofs.AlteredResponsePasses` | BlockChain/Consensus/rapidchain-master/create-block.go:398-470 | With the program's own check of proofs, a response with other values and owners in its outputs passes the leader exactly when the unaltered one does |
| `ResponseProofs.AlteredResponseValue` | BlockChain/Consensus/rapidchain-master/datastructures.go:803-812 | And the replicas gain what the altered outputs say: the same value exactly when the sums agree |
| `CatchUp.Blockchain.GetByIteration` | BlockChain/Consensus/rapidchain-master/datastructures.go:1164-1180 | Walking back from the latest block finds the block of that iteration, or the latest if the chain ends before |
| `CatchUp.Answer` | BlockChain/Consensus/rapidchain-master/node.go:236-248 | A peer answers with its block of that iteration, or its latest, and with its latest iteration |
| `CatchUp.AnswerIsNewIff` | BlockChain/Consensus/rapidchain-master/node.go:276-308 | An answer brings a later iteration exactly when the peer is ahead, and it is then the very next agreed block |
| `CatchUp.RequestAndAddMissingBlocks` | BlockChain/Consensus/rapidchain-master/node.go:261-328 | Against any honest peers picked in any order: stops exactly when the iteration is out of step; otherwise chain, iteration and ledger stay in step with the agreed chain, and it either ends with the chain of a peer that was ahead, or is still asking when the picks run out, as it must be when none is ahead and cannot be with one peer that is ahead and asked often enough |
| `MerkleTrees.MerkleTree.constructor` | BlockChain/Consensus/rapidchain-master/merkletree/merkletree.go:160-195 | After the descending loops every slot of the array holds its node of the tree, padding included |
| `MerkleTrees.MerkleTree.Pollard` | BlockChain/Consensus/rapidchain-master/merkletree/merkletree.go:199-206 | The first 2^(height+1) - 1 nodes from the root on; the root alone for height 0 |
| `MerkleTrees.MerkleTree.GenerateProofUsingIndex` | BlockChain/Consensus/rapidchain-master/merkletree/merkletree.go:100-111 | Fills exactly the siblings on the leaf's path, as many as depth less height |
| `MerkleTrees.MerkleTree.GenerateProof` | BlockChain/Consensus/rapidchain-master/merkletree/merkletree.go:77-92 | An absent value is an error; otherwise the proof is the path of the first leaf holding it |
| `MerkleTrees.VerifyProofUsing` | BlockChain/Consensus/rapidchain-master/merkletree/proof.go:52-73 | The loop accepts exactly when climbing from the salted leaf reaches the root |
| `Merkle.ClimbPath` | BlockChain/Consensus/rapidchain-master/merkletree/proof.go:60-70 | Climbing a tree's own path from any node reaches its ancestor |
| `MerkleTrees.ProofsVerify` | BlockChain/Consensus/rapidchain-master/merkletree/merkletree.go:100-111 | Completeness: for every leaf and height, salted or not, the proof verifies against the path's node at that height, the root for height 0 |
| `MerkleTrees.ClimbOnlyFromNode` | BlockChain/Consensus/rapidchain-master/merkletree/proof.go:52-73 | Without a second preimage, reaching a tree node from a level below is possible only from that tree's node |
| `MerkleTrees.AcceptedIsTheLeaf` | BlockChain/Consensus/rapidchain-master/merkletree/proof.go:52-73 | Soundness: a full-depth proof accepted for a leaf in range shows that the data is that leaf's value |
| `MerkleTrees.SaltPinsPlace` | BlockChain/Consensus/rapidchain-master/merkletree/merkletree.go:160-180 | In a salted tree a full-depth proof accepted with the salt of one place is for that place and its value |
| `MerkleTrees.AcceptedIsALeaf` | BlockChain/Consensus/rapidchain-master/merkletree/proof.go:52-73 | Without salt, for any index: a full-depth proof accepted is for the value of the leaf the index names modulo the width |
| `MerkleTrees.AcceptedIsInner` | BlockChain/Consensus/rapidchain-master/merkletree/proof.go:52-73 | A proof accepted that is shallower than the tree is for exactly the two digests below the node it starts from |
| `MerkleTrees.InnerNodesVerify` | BlockChain/Consensus/rapidchain-master/merkletree/proof.go:52-73 | And for every inner node the two digests below it are accepted with the rest of the path: the verifier does not look at the depth |
| `MerkleTrees.ChildrenOfRootVerify` | BlockChain/Consensus/rapidchain-master/merkletree/proof.go:52-73 | On every tree of two leaves or more the root's two children are accepted with an empty proof |
| `MerkleTrees.AcceptedIsNotDeeper` | BlockChain/Consensus/rapidchain-master/merkletree/proof.go:52-73 | When no value begins or ends with a digest, nor is the padding pair, no proof deeper than the tree is accepted |
| `MerkleTrees.ShallowIsNotPlain` | BlockChain/Consensus/rapidchain-master/merkletree/proof.go:52-73 | And no proof shallower than the tree is accepted for such a value |
| `MultiProofs.GenerateMultiProof` | BlockChain/Consensus/rapidchain-master/merkletree/merkletree.go:114-150 | Absent values are an error; otherwise the map holds exactly the siblings of path nodes that are not path nodes themselves, each entry its tree node, and a non-empty proof verifies against the root |
| `MultiProofs.CombinePath` | BlockChain/Consensus/rapidchain-master/merkletree/merkletree.go:132-140 | Step 2 for one leaf files exactly its siblings' hashes and flags exactly its path |
| `MultiProofs.PrunePath` | BlockChain/Consensus/rapidchain-master/merkletree/merkletree.go:142-148 | Step 3 for one leaf drops exactly the hashes of flagged siblings |
| `MultiProofs.VerifyMultiProofUsing` | BlockChain/Consensus/rapidchain-master/merkletree/multiproof.go:45-77 | The two loops accept exactly when the completed map's root slot is the root |
| `MultiProofs.DeriveFills` | BlockChain/Consensus/rapidchain-master/merkletree/multiproof.go:60-71 | One step of the downward loop: every dropped path node is computed when its turn comes, and is its tree node |
| `MultiProofs.MultiProofsVerify` | BlockChain/Consensus/rapidchain-master/merkletree/multiproof.go:45-77 | Completeness: for every tree and non-empty list of present values, what generation promises verifies against the root |
| `ProofsOfConsensus.ConsensusMsgs.CountTagged` | BlockChain/Consensus/rapidchain-master/datastructures.go:1073-1101 | Votes and accepts are counted over distinct senders |
| `ProofsOfConsensus.ConsensusMsgs.Pop` | BlockChain/Consensus/rapidchain-master/datastructures.go:1061-1068 | All messages of a gossip hash, each once in some order, and none are left |
| `ProofsOfConsensus.ConsensusMsgs.Finalise` | BlockChain/Consensus/rapidchain-master/consensus.go:201-235 | A block becomes final exactly when the accepts reach the threshold, signed by every message held for it |
| `ProofsOfConsensus.AddProofOfConsensus` | BlockChain/Consensus/rapidchain-master/proof-of-consensus.go:24-64 | Fails exactly when the block has no transaction of that identity or another root; otherwise proves the last such leaf |
| `ProofsOfConsensus.CheckProofOfConsensus` | BlockChain/Consensus/rapidchain-master/create-block.go:407-449 | The receiver's checks accept exactly when path, recomposed hash, signature count and every signature are good |
| `ProofsOfConsensus.AcceptedIsSigned` | BlockChain/Consensus/rapidchain-master/create-block.go:407-449 | An accepted proof has enough signatures, and each of them verifies and is by a member of the committee the first input belongs to, which is not the receiver's; with path and hash good that is all it takes |
| `ProofsOfConsensus.GossipHashBinds` | BlockChain/Consensus/rapidchain-master/datastructures.go:700-717 | Without collisions blocks of one gossip hash have the same predecessor, iteration, committee, leader and root |
| `ProofsOfConsensus.EnoughSignatures` | BlockChain/Consensus/rapidchain-master/create-block.go:426-428 | The other members' majority is never smaller than the count asked for: (npm-1)/F + 1 is at least npm/F |
| `ProofsOfConsensus.ProofRoundTrip` | BlockChain/Consensus/rapidchain-master/create-block.go:407-449 | A proof attached from an accepted block passes every check of the receiver exactly when all messages held for the block are good signatures |
| `ProofWitnesses.UncheckedVoteSpoilsProof` | BlockChain/Consensus/rapidchain-master/create-block.go:424-449 | A concrete block with enough good accepts and one held echo whose signature nobody looked at: its proof is attached as it should be, and the receiver rejects it |
| `ProofsOfConsensus.AcceptedIsInTheBlock` | BlockChain/Consensus/rapidchain-master/create-block.go:407-425 | An accepted proof of any depth, under the gossip hash of a block whose identities are not digests of the trees' hash, carries its root and is for the identity of one of its transactions: identity only, not outputs |
| `ProofsOfConsensus.OutputsAreNotChecked` | BlockChain/Consensus/rapidchain-master/create-block.go:398-449 | Replacing a response's outputs and hash changes nothing in the checks of its proof |
| `ProofsOfConsensus.SignaturesAreNotTied` | BlockChain/Consensus/rapidchain-master/create-block.go:424-449 | An accepted proof stays accepted with any other signatures exactly when they are enough and good, whatever block they were for |
| `Raft.StepKeepsInv` | BlockChain/Consensus/SS-Raft/NodeMethod.go:116-223 | Every event keeps: one stand or one vote per node and term, true messages, counts within the distinct confirmations, winners backed by a quorum |
| `Raft.ElectionSafety` | BlockChain/Consensus/SS-Raft/NodeMethod.go:164-223 | In every run a quorum above half elects at most one leader per term |
| `RaftElections.ShardElectionSafety` | BlockChain/Consensus/SS-Raft/NodeMethod.go:164-173 | The sharded protocol, with floor(N/2) confirmations beside the candidate, is safe for every shard size and run |
| `RaftElections.SafeExactly` | BlockChain/Consensus/SS-Raft/NodeMethod.go:164-223 | The quorums that are safe over all runs are exactly those above half, and zero, which elects nobody; otherwise a run with two leaders is given |
| `RaftElections.WholeElectionSafety` | BlockChain/Consensus/SS-Raft/NodeMethod.go:55-62 | The unsharded protocol counts the members after the seed node was struck off, so it is safe exactly for odd sizes and for two nodes |
| `RaftElections.WinnerIsUpToDate` | BlockChain/Consensus/SS-Raft/NodeMethod.go:135-140 | A winner's height when it stood was at least that of each of its voters, who with it exceed the quorum |
| `RaftElections.UpToDateWins` | BlockChain/Consensus/SS-Raft/NodeMethod.go:116-223 | From every world of every run: a node whose next term is above the terms and last votes of q1 other members, with a log no shorter than theirs, leads that term once it stands and they are asked |
| `RaftElections.HeartBeatEndsCandidacy` | BlockChain/Consensus/SS-Raft/Node.go:104-118 | After a heartbeat a candidate wins nothing, whatever confirmations come, until it stands again |
| `RaftCommit.BlockCount.SSRaftCheckCommit` | BlockChain/Consensus/SS-Raft/NodeMethod.go:415-498 | Counting stops exactly at the first confirmation with which local and foreign ones both reach their quorum |
| `RaftCommit.CountsConfirmations` | BlockChain/Consensus/SS-Raft/NodeMethod.go:415-498 | What is counted are the confirmations of the height, those of the own shard and those of the others, each as often as it came |
| `Quorums.Quorum.ResetCount` | BlockChain/Consensus/PBFT/Quorum.go:33-61 | The counter moves to the round with no votes, keeping what it must of the buffer |
| `Quorums.Quorum.Handle` | BlockChain/Consensus/PBFT/Quorum.go:66-129 | One message: the new count with the buffer re-scanned up to the threshold, whether it completes the quorum, and the codes 1024 and 1025 |
| `Quorums.KeptExactly` | BlockChain/Consensus/PBFT/Quorum.go:42-58 | A reset keeps each buffered message of the new round or later as often as it was there, and no other |
| `Quorums.KeptInOrder` | BlockChain/Consensus/PBFT/Quorum.go:42-58 | What a reset keeps stays in order |
| `Quorums.VotesExactly` | BlockChain/Consensus/PBFT/Quorum.go:82-113 | Between resets, k messages of the round with b buffered give min(q, k(1+b)) votes; success is reported at most once, exactly when that reaches q |
| `Quorums.SuccessInTime` | BlockChain/Consensus/PBFT/Quorum.go:82-113 | Success comes no later than the threshold-th message of the round |
| `Quorums.CountsMessagesIff` | BlockChain/Consensus/PBFT/Quorum.go:92-104 | Every delivery counts each message of the round once exactly when none was buffered before the reset or the threshold is at most two more than the buffered ones |
| `Frustum.NeedIs` | BlockChain/Consensus/PBFT/Quorum.go:68-80 | The thresholds are floor(n/3)+1 for finality and 2 floor(n/3)+1 otherwise |
| `Frustum.Node.MSGHandle` | BlockChain/Consensus/frustum/Node.go:71-106 | Dispatching a message in place gives the specified state, messages and, when a round is over, the next block or the end of mining |
| `Frustum.Node.StartConsensus` | BlockChain/Consensus/frustum/ConsensusFunc.go:15-82 | Puts up the next block on the last one's hash, resets all six counters and tells both groups |
| `Frustum.Node.HandlePrePrepare` | BlockChain/Consensus/frustum/ConsensusFunc.go:74-89 | Moves to the told height, resets the counters and sends prepare votes to the group the message came through |
| `Frustum.Node.HandleCommit` | BlockChain/Consensus/frustum/ConsensusFunc.go:145-190 | A completed commit count sends one finality message to the global leader, never from the leader itself |
| `Frustum.Node.HandleFinality` | BlockChain/Consensus/frustum/ConsensusFunc.go:192-238 | Only a completed count of foreign finality messages ends the round |
| `FrustumVotes.LaunchTells` | BlockChain/Consensus/frustum/ConsensusFunc.go:49-63 | Putting up a block tells every other member of the leader's shard and every other intra-leader once |
| `FrustumVotes.ToldSendsPrepares` | BlockChain/Consensus/frustum/Node.go:82-84 | A node told of a round takes its height, counts afresh in all six counters, and sends one prepare vote to every other member of the group it was told through |
| `FrustumVotes.PreparesSendCommits` | BlockChain/Consensus/frustum/ConsensusFunc.go:91-143 | Counted by votes, in either group: k prepare votes of the round, with b kept from before, make a node send one commit vote to every other member of that group and nothing else exactly when k(1+b) reaches 2 floor(n/3)+1, and none before or again; so votes kept from before with none after never do |
| `FrustumVotes.CommitsSendFinality` | BlockChain/Consensus/frustum/ConsensusFunc.go:145-190 | In the same way commit votes make every node but the leader send it one finality message |
| `FrustumRuns.HandleEndedOnce` | BlockChain/Consensus/frustum/ConsensusFunc.go:145-190 | Whatever is delivered, a foreign intra-leader ends a height at most once, only after being told of it and by filling its commit count |
| `FrustumRuns.HandleTally` | BlockChain/Consensus/frustum/ConsensusFunc.go:192-238 | The leader's finality count is the number of distinct foreign voters, and a round ends exactly when it fills |
| `FrustumRuns.StepKeepsInv` | BlockChain/Consensus/frustum/Node.go:71-106 | Every event, in any order of delivery, keeps routing, levels, uniqueness, tally and chain |
| `FrustumRuns.RunsAreChains` | BlockChain/Consensus/frustum/ConsensusFunc.go:15-82 | In every run the leader's blocks are numbered 1, 2, 3, ... up to at most 64, each naming the hash of the one before; no message or node is ever ahead of the leader; mining stops at most once, at 64 |
| `FrustumRuns.BlocksOnlyGrow` | BlockChain/Consensus/frustum/ConsensusFunc.go:15-32 | A step adds at most one block behind those there are |
| `FrustumRuns.PutsUp` | BlockChain/Consensus/frustum/ConsensusFunc.go:15-32 | The block a step puts up holds the body and the time there were |
| `FrustumRuns.LeavesWithQuorum` | BlockChain/Consensus/frustum/ConsensusFunc.go:192-254 | The leader leaves a height only with finality messages of floor(n/3)+1 distinct foreign intra-leaders for it delivered |
| `FrustumProgress.RoundCanEnd` | BlockChain/Consensus/frustum/ConsensusFunc.go:49-254 | Progress: whenever in any run a block has just been put up, with two intra-leaders or four or more, there is a delivery after which the leader puts up the next one, or stops after the last |
| `FrustumProgress.MiningCanComplete` | BlockChain/Consensus/frustum/ConsensusFunc.go:240-254 | So from every block put up in any run there is a delivery that leads to the last block and the end of mining |
| `FrustumSmall.MiningCompletesIff` | BlockChain/Consensus/frustum/ConsensusFunc.go:91-254 | Some run gets past the first block, and some run to the end of mining, if and only if there are two intra-leaders, or four or more |
| `FrustumHang.HangsForever` | BlockChain/Consensus/frustum/ConsensusFunc.go:91-190 | With four or six intra-leaders: once one of them got all its prepare votes of the first round before it was told of it, with the others told and no commit vote of its own out, no delivery ever leads to the second block |
| `FrustumHangRun.RoundMayHang` | BlockChain/Consensus/frustum/Node.go:82-88 | A concrete run of four intra-leaders gets there: after it no sequence of events whatever leads to the second block |
| `Padding.PadByteToBeDivisible` | BlockChain/Consensus/rapidchain-master/helpers.go:110-138 | Adds the least number of bytes that makes the length divide; more than 255 is an error |
| `Padding.IsPaddedMethod` | BlockChain/Consensus/rapidchain-master/helpers.go:140-157 | The loop decides whether the last byte's value ends the string that many times, short of the whole string |
| `Padding.PadRoundTrip` | BlockChain/Consensus/rapidchain-master/helpers.go:126-163 | Padding by one byte or more is recognised exactly for non-empty strings, and undone |
| `Padding.RecoveredExactly` | BlockChain/Consensus/rapidchain-master/datastructures.go:1491-1505 | The flattened shards give the message back exactly when its length needed padding or its own tail does not read as padding |
| `Padding.PaddedTailIsCut` | BlockChain/Consensus/rapidchain-master/datastructures.go:1491-1505 | The message of two bytes 7, 1, which two divides, is read back as 7 alone |
| `IdaNode.IDAGossip` | BlockChain/Consensus/rapidchain-master/ida-gossip.go:22-149 | Fails exactly for an empty message or without neighbours; otherwise each neighbour gets the next equal share of leaves with their proofs |
| `IdaNode.SharesPass` | BlockChain/Consensus/rapidchain-master/ida-gossip.go:178-192 | A sender's share passes every check of the member that receives it |
| `IdaNode.LargeShareIsStuck` | BlockChain/Consensus/rapidchain-master/ida-gossip.go:22-149 | A sender's own share is such a message when it holds kappa leaves or more: the member it reaches first never rebuilds |
| `IdaNode.Member.HandleIDAGossipMsg` | BlockChain/Consensus/rapidchain-master/ida-gossip.go:162-272 | The handler in place: early returns, checks, first message stored, repeated index refused, rebuilding at kappa indices |
| `IdaNode.GetLenOfChunks` | BlockChain/Consensus/rapidchain-master/datastructures.go:1402-1421 | The number of distinct leaf indices held; an index beyond the shards is fatal |
| `IdaNode.Gather` | BlockChain/Consensus/rapidchain-master/ida-gossip.go:217-232 | The data array holds every known chunk at its leaf's place |
| `IdaNode.Member.GetData` | BlockChain/Consensus/rapidchain-master/datastructures.go:1491-1505 | Flattens the first kappa shards and takes off what reads as padding |
| `IdaGossip.RunCollects` | BlockChain/Consensus/rapidchain-master/ida-gossip.go:162-272 | In every run, whatever is held for a root was received and verified, under indices disjoint between messages, and an entry is what rebuilding gives for all that is held |
| `IdaGossip.RightSlotsAreDeep` | BlockChain/Consensus/rapidchain-master/ida-gossip.go:178-232 | When no leaf begins or ends with a digest or is the padding pair, or leaves are not two digests long and no proof is deeper than the tree, a gathered chunk is its leaf only with a proof of full depth |
| `IdaGossip.EndToEnd` | BlockChain/Consensus/rapidchain-master/ida-gossip.go:162-272 | Whatever messages arrive in whatever order: an entry for the sender's root gathered from full-depth proofs is the sender's shards, and a reader gets the message exactly under the padding condition |
| `IdaGossip.EntryIsRightIff` | BlockChain/Consensus/rapidchain-master/ida-gossip.go:162-272 | In every run, when no shard begins or ends with a digest or is the padding pair (shorter ones are neither), or shards are not two digests long and no gathered proof is deeper than the tree, an entry is the sender's shards if and only if every chunk gathered came with a proof of full depth |
| `IdaGossip.HeldWereReceived` | BlockChain/Consensus/rapidchain-master/ida-gossip.go:162-272 | When every message received for the root fits the tree, everything gathered has full depth |
| `IdaDepth.ShallowProofsMislead` | BlockChain/Consensus/rapidchain-master/ida-gossip.go:178-232 | For any hash, two messages that verify for the sender's root and are in range make an entry that is not the sender's |
| `IdaDepth.RightChunkShallowProof` | BlockChain/Consensus/rapidchain-master/ida-gossip.go:178-232 | Beyond that it need not be: for any hash, a shard that is the digests of two others passes in its own place with a proof too shallow |
| `IdaGossip.RebuiltExactly` | BlockChain/Consensus/rapidchain-master/ida-gossip.go:194-265 | In every run a root has an entry exactly when at least two messages are held for it that bring kappa indices together |
| `IdaDelivery.PartsArrive` | BlockChain/Consensus/rapidchain-master/ida-gossip.go:162-272 | Delivery: whatever else a member receives, in any order and however often, once parts with kappa leaves of a message have come, none of them with kappa alone and any two the same or apart, its root has an entry, the entry is the sender's shards, and a reader gets the message exactly under the padding condition; parts alone never stop the member |
| `IdaDelivery.DispersalArrives` | BlockChain/Consensus/rapidchain-master/ida-gossip.go:22-149 | So a message dispersed by its sender arrives wherever shares of it with kappa leaves do, when a share holds fewer |
| `IdaGossip.StuckForever` | BlockChain/Consensus/rapidchain-master/ida-gossip.go:162-272 | Once a root has one message that brings kappa chunks and no entry, every later run adds nothing to it and makes no entry |
| `IdaGossip.FirstMessageIsStuck` | BlockChain/Consensus/rapidchain-master/ida-gossip.go:193-209 | So a first message for its root that verifies and brings kappa chunks alone is never rebuilt, whatever comes after it |
| `Ring.BuildCurrentNeighbours` | BlockChain/Consensus/rapidchain-master/node-setup.go:233-300 | Neighbour i is the member 2^i places further round the sorted ring, for every committee and place |
| `Ring.RoundTheRing` | BlockChain/Consensus/rapidchain-master/node-setup.go:272-276 | Counting from one's place in the list without oneself is counting round the ring |
| `Ring.NeighboursDiffer` | BlockChain/Consensus/rapidchain-master/node-setup.go:233-300 | Neighbours are different members, and never the member itself |
| `Ring.EveryoneReachable` | BlockChain/Consensus/rapidchain-master/node-setup.go:228-232 | For four members or more, any rank reaches any other over at most degree + 6 neighbours |
| `LeaderElection.ElectLeader` | BlockChain/Consensus/rapidchain-master/leader.go:40-87 | A member sorting the others elects the lowest hash of the whole committee |
| `LeaderElection.LeadersAgree` | BlockChain/Consensus/rapidchain-master/leader.go:40-87 | With distinct hashes all members elect the same leader, though each leaves itself out |
| `LeaderElection.ShouldISendCrossTx` | BlockChain/Consensus/rapidchain-master/leader.go:89-131 | True exactly for members with at most floor(log2(N-1)) others before them |
| `LeaderElection.FirstMembers` | BlockChain/Consensus/rapidchain-master/leader.go:89-131 | Exactly c + 1 members have at most c before them |
| `LeaderElection.SendersAre` | BlockChain/Consensus/rapidchain-master/leader.go:89-131 | Exactly floor(log2(N-1)) + 1 members forward, the leader among them |
| `Allocation.Allocate` | BlockChain/Consensus/rapidchain-master/coordinator.go:316-358 | The dealing loop stops on a bad committee number exactly when there are two nodes or more and either fewer nodes than committees or more left over than a committee holds; otherwise every node has its block's committee and role |
| `Allocation.CommitteeShares` | BlockChain/Consensus/rapidchain-master/coordinator.go:316-393 | When m divides n, every committee gets exactly n/m nodes and fewer adversaries than half of them rounded up |
| `Allocation.BelowAThirdExactly` | BlockChain/Consensus/rapidchain-master/coordinator.go:334-336 | Adversaries are below a third overall for every even m, and for odd m exactly when the pairs' slack covers the last committee's excess |
| `Allocation.OneCommitteeAboveAThird` | BlockChain/Consensus/rapidchain-master/coordinator.go:334-336 | One committee of five is dealt adversaries above a third |
| `Allocation.AcceptanceIsHonest` | BlockChain/Consensus/rapidchain-master/consensus.go:206-222 | Every set of members meeting the required votes contains an honest one |
| `TxPools.TxPool.LengthCompare` | BlockChain/TxPool/TxPool.go:143-152 | The first level by which the queues reach the batch size, or the number of levels |
| `TxPools.TxPool.CommitTrs` | BlockChain/TxPool/TxPool.go:87-141 | A non-empty pool gives exactly its first min(k, total) transactions in priority order without receiving from an empty queue; batch and rest are the old pool, queue by queue a tail |
| `TxPools.FirstOfPool` | BlockChain/TxPool/TxPool.go:55-65 | With the levels before it drained, a level's head is the pool's first transaction |

## Left out

- Sockets, HTTP, gob and JSON encoding, storage, logging, command line and result files: no part of the logic. An empty output list and a missing one, which the encoding does not tell apart, are the same.
- Timers and delays: time-outs are events that may come at any time, and waiting for messages is not modelled.
- Data races: every handler is one atomic step. The one goroutine that matters, Frustum's sending of the leader's own prepare votes, is a step of its own that reads the height it finds.
- Internals of SHA-256, BLAKE2b, ECDSA and Reed-Solomon: functions and assumptions, as said above.
- XOR closeness of committees: a function. Its conversion of identities drops leading zero bytes, which no property here depends on; so are Kademlia lookups, whose metric does not guarantee progress.
- Floating point: logarithms, powers, `ceil` and `floor` on small integers are exact integer functions here; so is a third of the members, whose rounding in double precision does not cross an integer.
- `LedgerTypes.Hash`: 32-byte strings are numbers in the ledger, as only equality and zero matter there; `Bytes` has them as strings.
- Widths other than the 64-bit output values: terms, heights, nonces and iterations do not wrap, and a proof's index is not shifted past 64 bits.
- `Simulation.ProposalSimulatesCommit`: batches are well-formed, as the doc comment of `Shaped` lists: distinct inputs, unseen output keys, for a response too (over runs that follows, by `Outpoints.BatchFlows`), originals with outputs under an id nothing else waits for, transactions routed to their closest committee. A repeated input is a case where replay does fail.
- `ConservationRuns.ValueIsConserved`: batches are well-shaped (`Shaped`) and value-safe, as `ValueSafe` lists: outputs of a normal transaction have distinct nonces and do not overflow, a request names no input twice, and an original that is completed has outputs of distinct nonces and is balanced. What a round mints is at outpoints new to all ledgers and travelling responses, as hashes that do not collide make it; that responses bring outpoints unseen where they arrive follows. None of these is checked by the code; where a violation changes value there is an exact lemma. That a response taken in is one that travels, as it was sent, is assumed of the network: the proof of consensus does not give it, as `ResponseProofs` shows.
- `CatchUp.RequestAndAddMissingBlocks`: all peers are honest, with chains that are starts of one agreed chain, and do not grow meanwhile.
- The check of a response's proof is a parameter of the ledger modules; what it does is modelled in `ProofOfConsensus`, and put in its place in `ResponseProofs`.
- `MultiProofs.MultiProofsVerify`: completeness only; soundness of multiproofs is not claimed.
- `ProofsOfConsensus.ProofRoundTrip`: the receiving and the sending committee have n/m members each, a member counting the others.
- `IdaGossip.EntryIsRightIff`: for shards that begin or end with a digest or are the padding pair, and are two digests long or came with proofs deeper than the tree, only one direction is claimed (`EndToEnd`): full depth is enough. `IdaDepth.RightChunkShallowProof` shows a right chunk without full depth there.
- `ProofsOfConsensus.AcceptedIsInTheBlock`: identities of the block are taken not to be digests of the trees' hash; they are digests of another.
- `IdaNode.Member.HandleIDAGossipMsg`: forwarding to neighbours and the coordinator's statistics are not modelled.
- `FrustumRuns.RunsAreChains`: one global leader, one intra-leader per shard, fixed membership and a single start. Only the leader's own shard and the intra-leaders take part, as in the code.
- `FrustumProgress.RoundCanEnd`: from the moments at which a block has just been put up. From later ones a round may not be able to end, as `FrustumHangRun.RoundMayHang` shows; exactly from which is left open.
- `RaftElections.UpToDateWins`: the voters are asked and counted one after the other; other orders are not claimed.
- `CrossPayments.PaymentCompletes`: the answers are taken in one batch, in the order of the requests; the ledger at home has the payment's own inputs and none of the others; hashes of answers are not zero. What the proofs of the answers must be is a parameter here and is in `ProofOfConsensus`.
- `IdaDelivery.PartsArrive`: whatever claims the sender's root is one of the parts the sender's leaves were divided into; a message with other leaf ranges under the root could block a part, since an index held is refused.
- `RaftCommit.BlockCount.SSRaftCheckCommit`: starts from a counter of an earlier height, as mining leaves it. Which height a confirmation carries is up to the network package, which is not part of this model.
- `TxPools.TxPool.CommitTrs`: the pool is not empty, since on an empty one the code calls itself without end; transactions arriving, before or during the call, are not modelled.
- `Ring.EveryoneReachable`: the bound of degree + 6 is not the diameter.
- Liveness beyond what is said above: that what can be delivered is delivered. Raft log replication beyond the commit count, transaction generation beyond a single payment, reconfiguration, SS-PBFT-V1, the seed node and the `myBlockChain` simulations.
