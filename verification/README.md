# Leaderberry in Dafny

A model of the Leaderberry consensus engine, a Tendermint-style Byzantine fault tolerant engine, with
proofs about all its runs. `dafny verify dfyconfig.toml` checks the project.

## What is modelled

**Consensus.** `Node` gives one function per state transition of a node, with the whole cascade that an
event can start. `Consensus.ConsensusState` is the mutable object of the engine; each method is proved to
do what the function does, and its receive loop to keep the node invariant over any number of events.
`NodeInvariants`, `CastSafety` and `NodeSafety` prove what every transition keeps, and `PrevoteRule`
which prevotes a lock lets through. `Network` runs any number of honest nodes together with faulty
validators that sign anything, under the assumption that signatures of honest validators cannot be
forged. `Agreement` holds the main results: agreement unless a nil prevote quorum came between, certified
finality, no equivocation, justified locks. `Responses` and `Duties` say how a node must respond to every
event: which proposals it records and makes, what each of its votes is for, and when it joins a later
round. `CommitHalts` says when a node waits, when a commit is applied and when it stops a node.
`ThreeNodes`, `Split` and `Reproposal` give the runs that show why the condition of agreement is needed,
that honest nodes do stop, and that a block proposed again can be refused.

**Votes and certificates.** `Validators` (quorums), `VoteSets` (vote sets as values), `VoteTracker` (vote
sets as objects with generations), `Commits` and `ProofOfLock` (certificates and what two of them share).

**Signer.** `Privval` is a machine of memory, state file and released signatures with crashes and failed
saves at every point; `FilePV` is the object that makes its steps.

**Proposer rotation.** `Rotation` (arithmetic over any number of rotations), `ValidatorObjects` (the
objects that rotate in place), `SetData` (sets written out and read back).

**Block parts.** `Merkle`, `PartSets`, `PartSetObjects`, `Bitmaps`, `Bits`. SHA-256 is any function to 32
bytes. Where it would have to be injective, the lemma names a function that computes a collision.

**Write-ahead log.** `WalFrames` (framing) and `Wal` (segments, index, checkpoints).

**Evidence and authorization.** `Evidence` and `EvidencePool`, `VoteKeys`, `Authorization`.

`Types` and `Sorting` hold shared definitions.

## Where code and documentation differ

- Locks are there to keep honest validators from committing different blocks at one height. The code
  guarantees that only without a nil prevote quorum between the two commit rounds, because such a quorum
  clears the lock (engine/state.go:832-836); `Split.AgreementFails` is a run of three honest validators
  that disagree.
- A validator set read back from data is meant to continue the rotation. It starts over when all
  priorities are zero (types/validator.go:113-122); `SetData.RoundTrip` says exactly when that matters.
- `Diff` is documented as the parts one bitmap has and the other has not. Bits past the other's total
  count as present (types/block_parts.go:616-619); `Bitmaps.DiffExact` says exactly when it matters.
- A node that sees a block committed is meant to apply it. It panics when it holds no block, and when it
  holds another one (engine/state.go:912-928); `CommitHalts.CommitEndsByHeld` says exactly when, and
  `Split.MissedProposalStops` and `Split.OtherProposalStops` are runs of three honest validators in which
  one of them stops.
- A valid block is proposed again with its proof of lock so that others can follow. The proof sent is all
  prevotes of its round (engine/state.go:506-516), but a proof with any prevote for another value is refused
  (engine/state.go:663-668). `Duties.ReproposalAcceptedIff` says exactly when the proof is accepted, and
  `Reproposal.ReproposalRefused` is a run of three honest validators in which no node can accept it.
- A part is accepted on its Merkle proof, but the length of the proof is not checked
  (types/block_parts.go:228-232, 438-462). The two nodes under the root, with an empty proof, pass as every
  part of data of two or more parts, and keep the genuine part out (`PartSets.ForgedPartAccepted`,
  `PartSets.ForgedPartBlocks`). `PartSets.GenuineIffFullLength` says exactly which accepted parts are genuine.
- The log writer takes messages of any size; a message is read back exactly when it is shorter than 10 MB
  (`WalFrames.ReadBackIffSmall`). One of 10 MB up to 4 GB is read as corruption
  (`WalFrames.OversizeIsCorrupted`).
- The log is meant to survive a torn last write. A log reopened after one is appended to and never cut
  back to a frame boundary (wal/file_wal.go:245-265); `WalFrames.WrittenAfterTail` says exactly when what is
  written then can be read back, and `WalFrames.TornFrameSwallows` gives a family of logs that lose it.

## Model

| member | source | states |
|---|---|---|
| `Validators.QuorumIsLeastAboveTwoThirds` | types/validator.go:252-277 | the threshold is the least power strictly above two thirds of the total, for all three remainders, and a full set reaches it |
| `Validators.QuorumIntersection` | types/validator.go:252-277 | any two quorums share more than a third of the power |
| `Validators.HonestInIntersection` | types/validator.go:252-277 | with less than a third of the power faulty, two quorums share a validator that is not faulty |
| `VoteSets.AddVoteCorrect` | engine/vote_tracker.go:160-236 | an added vote keeps sums, per-block powers and majority exact, a recorded majority never changes, refusals change nothing, and both overflow refusals are unreachable |
| `VoteSets.AddedIff` | engine/vote_tracker.go:99-185 | a vote is added exactly when it is for the set, within the clock drift, names a validator, carries its signature, and none of that validator is recorded |
| `VoteSets.OneQuorumPerTally` | engine/vote_tracker.go:227-233 | at most one value of a vote set can have a quorum |
| `VoteSets.NoOverflow` | engine/vote_tracker.go:187-214 | no sum of recorded powers can pass the total power limit |
| `VoteSets.OrderIndependence` | engine/vote_tracker.go:160-236 | the same conflict-free votes in any order and with any repetition give the same votes, sum and majority |
| `VoteSets.VotesDetermineTally` | engine/vote_tracker.go:160-236 | sum and majority are determined by the recorded votes |
| `VoteSets.AddToHeightCorrect` | engine/vote_tracker.go:501-528 | adding a vote at a height keeps every vote set of the height valid and every recorded majority |
| `VoteTracker.VoteSet.AddVote` | engine/vote_tracker.go:99-130 | a stale vote set refuses and stays as it is; a live one becomes the value AddVote gives |
| `VoteTracker.VoteSet.AddVoteInternal` | engine/vote_tracker.go:160-236 | the in-place update refines the value update, with the same error order |
| `VoteTracker.VoteSet.GetVotes` | engine/vote_tracker.go:300-318 | whatever order the map yields, the votes come in order of validator index |
| `VoteTracker.VoteSet.MakeCommit` | engine/vote_tracker.go:387-441 | whatever order the map yields, the commit is the one determined by the recorded votes |
| `VoteTracker.HeightVoteSet.SetFor` | engine/vote_tracker.go:508-523 | the set of a round is made on demand and earlier sets stay in place |
| `VoteTracker.HeightVoteSet.AddVote` | engine/vote_tracker.go:501-528 | the in-place update refines AddToHeight on values and keeps handed-out sets |
| `VoteTracker.HeightVoteSet.Reset` | engine/vote_tracker.go:617-626 | the collection is empty, the generation moves on by one in 64 bits, and every live set handed out before is stale |
| `VoteTracker.ResetAll` | engine/vote_tracker.go:617-626 | after any sequence of resets a set handed out before is live again exactly when their number is a multiple of 2^64 |
| `Commits.VerifyCommit` | types/vote.go:110-196 | accepts exactly certificates: right height and block, distinct signers, all counted signatures valid, quorum power |
| `Commits.VerifyCommitLight` | types/vote.go:239-295 | accepts exactly commits whose named distinct validators have quorum power |
| `Commits.FullImpliesLight` | types/vote.go:110-295 | an accepted commit passes the light check exactly when its unsigned entries for the block name validators of the set |
| `Commits.MakeCommitVerifies` | engine/vote_tracker.go:387-441 | the commit a majority makes is accepted by both checks |
| `Commits.CommitOrderIndependence` | engine/vote_tracker.go:387-441 | commits are equal, signature by signature, for every arrival order of the votes |
| `Commits.CommitIsCertificate` | types/vote.go:110-196 | an accepted commit holds a quorum of verified precommits for its block |
| `Commits.MajorityIsCertificate` | engine/vote_tracker.go:160-236 | a recorded majority holds a quorum of verified votes for its value |
| `Commits.CertificatesIntersect` | types/validator.go:252-277 | two certificates for different values in one round expose more than a third of the power, each validator with two conflicting signed votes |
| `ProofOfLock.POLIsCertificate` | engine/state.go:635-698 | an accepted proof of lock holds a quorum of verified prevotes for its block |
| `ProofOfLock.ConflictingProofsOfLock` | engine/state.go:635-698 | two accepted proofs of lock for different blocks in one round share more than a third of the power |
| `Consensus.ConsensusState.constructor` | engine/state.go:124-144 | a new state is the start value of the state machine |
| `Consensus.ConsensusState.EnterNewRound` | engine/state.go:415-453 | takes the state where the value transition takes it, including the own proposal |
| `Consensus.ConsensusState.OwnProposal` | engine/state.go:496-520 | the proposal carries all prevotes of the valid round in order of validator |
| `Consensus.ConsensusState.CreateProposal` | engine/state.go:456-556 | re-proposes valid, then locked, then a new block, signs and enters prevote |
| `Consensus.ConsensusState.ValidatePOL` | engine/state.go:635-698 | accepts exactly a non-empty quorum of distinct, verified prevotes for the block |
| `Consensus.ConsensusState.CanUnlock` | engine/state.go:715-746 | a lock may be left only for a valid proof strictly between locked and proposal round |
| `Consensus.ConsensusState.DecidePrevote` | engine/state.go:759-791 | the prevote decision with its three locked cases |
| `Consensus.ConsensusState.EnterPrevote` | engine/state.go:752-794 | refines the value transition with everything the own prevote starts |
| `Consensus.ConsensusState.DecidePrecommit` | engine/state.go:819-857 | locks on a block majority it has, unlocks on a nil majority, else keeps the lock |
| `Consensus.ConsensusState.EnterPrecommit` | engine/state.go:812-861 | refines the value transition with everything the own precommit starts |
| `Consensus.ConsensusState.EnterCommit` | engine/state.go:879-906 | the downward search finds the latest round with a commit, or panics |
| `Consensus.ConsensusState.FinalizeCommit` | engine/state.go:910-997 | panics without a matching block, else applies it and moves to a clean next height |
| `Consensus.ConsensusState.OwnIndex` | engine/state.go:1196-1213 | the search finds the first validator with the own key |
| `Consensus.ConsensusState.Cast` | engine/state.go:1215-1256 | signs, records and counts an own vote, or panics when it is not added |
| `Consensus.ConsensusState.SignAndSendVote` | engine/state.go:1191-1273 | refines the value transition with the quorum check that follows an own vote |
| `Consensus.ConsensusState.HandlePrevote` | engine/state.go:1055-1095 | refines the value transition with its round skip |
| `Consensus.ConsensusState.HandlePrecommit` | engine/state.go:1100-1144 | refines the value transition with commit and round skip |
| `Consensus.ConsensusState.HandleProposal` | engine/state.go:559-631 | refines the value transition with all refusals |
| `Consensus.ConsensusState.HandleVote` | engine/state.go:1000-1050 | refines the value transition |
| `Consensus.ConsensusState.HandleTimeout` | engine/state.go:1147-1187 | refines the value transition, with the 32-bit round cap |
| `Consensus.ConsensusState.Start` | engine/state.go:269-294 | starting takes the object where the value machine starts, and the node invariant holds |
| `Consensus.ConsensusState.Handle` | engine/state.go:343-361 | one turn of the receive loop refines one step of the state machine; on an unforged event it keeps the node invariant, only moves forward, and casts no prevote against its lock |
| `Consensus.ConsensusState.ReceiveRoutine` | engine/state.go:343-361 | any number of turns on unforged events keeps the invariant: one own vote per place, every applied block certified at consecutive heights, a lock is the recorded prevote majority of its round |
| `NodeSafety.EnterPrevoteSafe` | engine/state.go:752-794 | entering prevote, with everything it starts, keeps the node invariant |
| `NodeSafety.EnterPrecommitSafe` | engine/state.go:812-861 | entering precommit, with everything it starts, keeps the node invariant |
| `NodeSafety.EnterCommitSafe` | engine/state.go:879-906 | committing keeps the node invariant, and what is applied is certified |
| `NodeSafety.HandleSafe` | engine/state.go:343-361 | every event keeps the node invariant: one vote per place, precommits backed by prevote quorums, prevotes faithful to precommits unless overtaken, locks justified |
| `NodeSafety.StartSafe` | engine/state.go:269-294 | a node that starts satisfies the invariant |
| `PrevoteRule.HandleObeys` | engine/state.go:715-794 | whatever one event starts, each prevote for a block is for the block locked before it, or for one with a prevote quorum strictly between the lock and the vote |
| `CastSafety.CastSafe` | engine/state.go:1191-1256 | signing and recording an own vote keeps what was signed before and the signer position |
| `Network.RunInv` | engine/state.go:343-361 | the invariant of all honest nodes and all signed votes holds in every state of every run |
| `Network.PerformInv` | engine/state.go:343-361 | every delivery to an honest node and every signature of a faulty one keeps the invariant |
| `Agreement.OneQuorumPerRound` | engine/state.go:812-861 | with less than a third faulty, one kind of vote has a quorum for at most one value in a round |
| `Agreement.PrecommitsNeedPrevotes` | engine/state.go:812-861 | a precommit quorum for a block comes with a prevote quorum for it in that round |
| `Agreement.NoLaterPrevotes` | engine/state.go:752-861 | after a precommit quorum for a block no later round gathers a prevote quorum for another one, unless a nil prevote quorum came strictly between |
| `Agreement.QuorumAgreement` | engine/state.go:715-861 | two precommit quorums for different blocks are in different rounds with a nil prevote quorum strictly between |
| `Agreement.AppliedAgreement` | engine/state.go:879-997 | over every run, honest nodes that apply different blocks at a height were split by a nil prevote quorum between the commit rounds |
| `Agreement.CertifiedFinality` | engine/state.go:879-997 | over every run, each applied block hashes to a certificate that verification accepts, heights are consecutive, one apply per height |
| `Agreement.CommitAlwaysFound` | engine/state.go:903-905 | over every run the panic for a missing commit is unreachable |
| `CommitHalts.CommitEndsByHeld` | engine/state.go:879-980 | over every run and on every event, a node stops for want of a block exactly when the event is the recorded precommit that completes a block quorum and it holds none, and for a mismatch exactly when it holds another; a quorum its own precommit completes never stops it so; a held block is applied and the next height starts clean with its commit |
| `CommitHalts.WaitsWithQuorum` | engine/state.go:1055-1144 | in every state of every run a node waits for prevotes only with quorum power and no majority, for precommits only with quorum power, and has recorded no block majority of precommits |
| `CommitHalts.PrevoteWaitIff` | engine/state.go:797-809 | over every run, a node that records a prevote after its own starts to wait exactly when there is then quorum power without a majority, casts nothing and keeps its lock |
| `CommitHalts.PrecommitWaitIff` | engine/state.go:864-876 | over every run, a node that records a precommit after its own starts to wait exactly when there is then quorum power without a block majority, casts nothing and keeps its lock |
| `Agreement.NoEquivocation` | engine/state.go:1191-1273 | over every run an honest node signs at most one vote per height, round and type |
| `Agreement.LocksJustified` | engine/state.go:812-861 | in every state of every run the locked and the valid block are recorded prevote majorities of a round up to the current one, backed by signed quorums |
| `Agreement.PrevoteWhileLocked` | engine/state.go:752-794 | over every run, a prevote for a block that a locked honest node signs is for the block it was locked on, or for one with a quorum of signed prevotes strictly between the lock and the round of the vote |
| `Duties.ProposalRecordedIff` | engine/state.go:559-631 | over every run, a node without a proposal records one exactly when it has the node's height and round, names and is signed by the round's proposer, carries an accepted proof of lock if it names a round for one, and has a valid block; it then prevotes, and any other proposal changes nothing |
| `Duties.VotesFollowRules` | engine/state.go:752-861 | over every run and on every event, each prevote cast is for the held proposal's block when the node was not locked, was locked on it, or the proposal carries an accepted proof strictly between lock and round, and else for nil; each precommit is for the held block exactly when that has a prevote majority |
| `Duties.JoinsForPrevotes` | engine/state.go:1064-1078 | over every run, a node that records a prevote of a later round joins it exactly when the recorded voters have quorum power; there it precommits on a majority and prevotes otherwise, and without quorum power it does nothing |
| `Duties.JoinsForPrecommits` | engine/state.go:1122-1132 | over every run, a node that records a precommit of a later round that commits no block joins it exactly when the recorded voters have quorum power, and casts both its votes there |
| `Duties.ProposesInTurn` | engine/state.go:415-556 | over every run, a node proposes only as the round's proposer: its valid block with its round and all prevotes of it, else its locked block, else a new one; as proposer with a block and a signer not yet in the round it does propose and sign |
| `Duties.ReproposalAcceptedIff` | engine/state.go:496-520 | over every run, the proof of lock of a block proposed again is accepted exactly when every prevote the proposer has recorded of its round is for the block |
| `Responses.RunResponds` | engine/state.go:343-361 | over every run, the state after every event is the one the state before and the event call for: votes, locks, round and step for proposals, votes and timeouts |
| `Responses.TimeoutResponds` | engine/state.go:1147-1187 | a timeout of the node's height and of its round or a later one prevotes, precommits or moves to the next round, by step; every other timeout changes nothing |
| `Agreement.NodesAdvance` | engine/state.go:415-453 | along every run height and round never go back and what was sent and applied stays |
| `Split.AgreementFails` | engine/state.go:832-836 | a run of three honest validators in which two apply different blocks at one height: unconditional agreement is false |
| `Split.MissedProposalStops` | engine/state.go:916-918 | a run of three honest validators in which one, still without the proposal, is stopped by the commit of a block |
| `Split.OtherProposalStops` | engine/state.go:924-928 | a run of three honest validators in which one, holding a later proposal, is stopped by the late commit of another block |
| `Reproposal.ReproposalRefused` | engine/state.go:663-668 | a run of three honest validators in which one proposes its valid block again and no node in any state can accept the proposal |
| `Privval.CheckHRSMeaning` | privval/signer.go:63-86 | the check passes exactly for later positions, reports a double sign exactly for the same position |
| `Privval.StepKeepsInv` | privval/file_pv.go:429-588 | every request, crash, failed save and restart keeps the invariant over memory, state file and released signatures |
| `Privval.RunKeepsInv` | privval/file_pv.go:429-651 | the invariant holds after every sequence of requests, crashes, failed saves and restarts |
| `Privval.NoDoubleSign` | privval/file_pv.go:520-715 | over every such sequence released positions never go back and two releases at one position have the same hash of sign bytes |
| `Privval.ReleasedSignaturesVerify` | privval/file_pv.go:520-588 | without a hash collision every released signature, fresh or cached, verifies for its own message |
| `Privval.LaterIsSigned` | privval/file_pv.go:520-588 | a request later than everything signed is signed, saved and handed out, and the same message again gets the same signature |
| `Privval.RestartResumes` | privval/file_pv.go:110-139 | a restart resumes at the position of the state file, unless that holds a block hash of another length than 0 or 32 |
| `Privval.FilePV.SaveState` | privval/file_pv.go:429-501 | the state file changes exactly when the rename was reached |
| `Privval.FilePV.Start` | privval/file_pv.go:110-139 | loading the state file makes the step of the machine |
| `Privval.FilePV.SignMessage` | privval/file_pv.go:520-588 | check, sign, save and roll back make the step of the machine and release exactly what is returned |
| `Privval.FilePV.SignVote` | privval/file_pv.go:520-588 | an unknown vote type panics and releases nothing; else the step of the machine |
| `Privval.FilePV.SignProposal` | privval/file_pv.go:591-651 | the step of the machine at the proposal step |
| `Rotation.BestAmongBeatsAll` | types/validator.go:189-204 | the scan settles on the validator that beats all others |
| `Rotation.ProposerOrderIndependent` | types/validator.go:189-204 | the proposer is the same for every permutation of the validators |
| `Rotation.RotateOnceExact` | types/validator.go:286-321 | in the balanced regime a rotation adds every power, takes the total from one validator, and no clamp fires |
| `Rotation.ClampedRotation` | types/validator.go:286-321 | for any priorities a rotation adds every power up to the maximum and takes the total from the best validator down to the minimum |
| `Rotation.RotationLedger` | types/validator.go:286-321 | after any number of rotations each priority is its start plus its credits minus its debits, and the set is balanced |
| `Rotation.CenterIsIdentity` | types/validator.go:145-183 | centering a balanced set changes nothing and its sum does not overflow |
| `Rotation.AverageMeaning` | types/validator.go:145-175 | the average is that of the priorities rounded toward zero, or zero when the sum overflows |
| `Rotation.BalancedBounds` | types/validator.go:281-325 | priorities of a balanced set stay between one minus the total and n minus one totals |
| `Rotation.InitialIsBalanced` | types/validator.go:131-137 | a set that starts from zero priorities is balanced |
| `Rotation.IncrementKeepsBalanced` | types/validator.go:281-325 | rotating keeps validators, total and priority sum |
| `Rotation.IncrementAdds` | types/validator.go:281-341 | rotating a times and then b times is rotating a plus b times |
| `Rotation.ProposerAfterRotations` | types/validator.go:212-227 | the proposer of a later round beats all other validators after as many rotations |
| `Rotation.ProportionalDebits` | types/validator.go:286-321 | after k rotations the debits of a validator differ from its proportional share by less than the number of validators |
| `Rotation.NoStarvation` | types/validator.go:286-321 | every validator is debited within every window whose share reaches twice the number of validators |
| `ValidatorObjects.BuildIffAcceptable` | types/validator.go:50-128 | a set is made exactly of lists with nonempty distinct names, positive powers and bounded total; it is valid and keeps names, keys and powers |
| `ValidatorObjects.NewValidatorSet` | types/validator.go:50-128 | the constructor makes that set or reports the first fault in order |
| `ValidatorObjects.ValidatorSetObject.IncrementProposerPriority` | types/validator.go:281-325 | the in-place rotation refines the value rotation |
| `ValidatorObjects.ValidatorSetObject.WithIncrementedPriority` | types/validator.go:330-341 | a fresh rotated copy; the original is unchanged |
| `ValidatorObjects.ValidatorSetObject.GetProposerForRound` | types/validator.go:212-227 | the proposer of a round, without changing the set |
| `ValidatorObjects.Rotate` | types/validator.go:286-321 | one rotation in place with its clamps |
| `ValidatorObjects.GetProposer` | types/validator.go:189-204 | the scan finds the best validator |
| `ValidatorObjects.AveragePriority` | types/validator.go:145-175 | the average of the priorities by truncating division, or zero when the running sum overflows |
| `ValidatorObjects.CenterPriorities` | types/validator.go:145-183 | centering in place, with the overflow exit and truncating division |
| `SetData.RoundTrip` | types/validator.go:407-443 | a set read back is the set written out exactly when its priorities are not all zero or its powers are all equal |
| `SetData.RotationNotRestored` | types/validator.go:407-443 | a set reached by rotation that names another proposer for the next round after being read back |
| `Merkle.ProofsVerify` | types/block_parts.go:355-462 | every proof of the builder verifies at its index |
| `Merkle.ProofSound` | types/block_parts.go:438-462 | an accepted proof of full length, whatever its siblings, is for the leaf at its index, or two colliding inputs are computed |
| `Merkle.InnerNodeAccepted` | types/block_parts.go:438-462 | without the full length every node of every level passes as a leaf |
| `Merkle.AcceptedShows` | types/block_parts.go:438-462 | an accepted proof of any length leads through a node of the tree, at the height its length says, or two colliding inputs are computed |
| `Merkle.RootBinds` | types/block_parts.go:322-350 | equally long lists with one root are equal, odd levels included, or two colliding inputs are computed |
| `Merkle.ComputeMerkleRoot` | types/block_parts.go:322-350 | the loop computes the root |
| `Merkle.VerifyMerkleProof` | types/block_parts.go:438-462 | the loop accepts exactly paths that fold to the root |
| `Merkle.BuildMerkleTreeWithProofs` | types/block_parts.go:355-434 | the builder computes the same root as the separate computation and the path of every leaf |
| `PartSets.AddKeepsValid` | types/block_parts.go:209-254 | adding a part keeps index, completeness, data and root consistent |
| `PartSets.StoredIff` | types/block_parts.go:209-254 | a part is stored exactly when index and size are in bounds, its slot is empty and its proof leads to the hash; only its slot changes |
| `PartSets.ChunksRejoin` | types/block_parts.go:82-92 | the parts of data joined are the data |
| `PartSets.FromDataValid` | types/block_parts.go:68-129 | a set made from data is valid and its parts are the chunks of the data |
| `PartSets.AnyOrder` | types/block_parts.go:209-305 | parts added in any order with any repetition give exactly the data once all are there, and nothing before |
| `PartSets.PartSetBinding` | types/block_parts.go:258-286 | two complete sets with the same header hold the same parts and data, or two colliding inputs are computed |
| `PartSets.AcceptedPartIsGenuine` | types/block_parts.go:209-254 | a part accepted under the header of data with a proof of full length is the part of the data, or two colliding inputs are computed |
| `PartSets.ForgedPartAccepted` | types/block_parts.go:228-240 | for data of two or more parts, a part that is not the data is accepted into every empty slot |
| `PartSets.ForgedPartBlocks` | types/block_parts.go:224-226 | after it the genuine part is refused, and whatever is added later no data is assembled, or two colliding inputs are computed |
| `PartSets.GenuineIffFullLength` | types/block_parts.go:209-254 | of the parts accepted with a proof no longer than the tree is high, exactly those are genuine that have a proof of full length, or whose chunk is itself the two hashes the proof leads to, which takes a last chunk of 64 bytes; or two colliding inputs are computed |
| `PartSets.LongProofEmbedded` | types/block_parts.go:209-254 | a part accepted with a longer proof gives two colliding inputs, or the data itself contains the joined hashes its proof goes through |
| `PartSetObjects.PartSet.AddPart` | types/block_parts.go:209-254 | the in-place update with words of bits and counter refines the value update |
| `PartSetObjects.PartSet.HasPart` | types/block_parts.go:188-195 | the bit says whether the part is there |
| `PartSetObjects.PartSet.AssembleData` | types/block_parts.go:258-286 | joins the parts and keeps the data exactly when the root matches |
| `PartSetObjects.PartSet.GetData` | types/block_parts.go:289-305 | the data once all parts are there |
| `PartSetObjects.PartSet.MissingParts` | types/block_parts.go:308-319 | the indexes without a part in increasing order |
| `PartSetObjects.NewPartSetFromData` | types/block_parts.go:68-129 | refuses empty and oversized data, else makes the full set with proofs and bits |
| `PartSetObjects.NewPartSetFromHeader` | types/block_parts.go:132-145 | refuses too many parts, else makes the empty set |
| `Bitmaps.BitmapRoundTrip` | types/block_parts.go:552-602 | a bitmap written out is read back exactly when its total is within the limit for blocks |
| `Bitmaps.DiffExact` | types/block_parts.go:605-626 | the difference lists exactly the parts one has and the other has not, if and only if there is no stray bit past the total |
| `Bitmaps.StrayBitDecoded` | types/block_parts.go:570-626 | such a stray bit can come from the wire and hide a missing part |
| `Bitmaps.PartSetBitmap.Set` | types/block_parts.go:510-520 | marks exactly that part, or none when out of range |
| `Bitmaps.PartSetBitmap.Has` | types/block_parts.go:523-533 | answers membership |
| `Bitmaps.PartSetBitmap.Missing` | types/block_parts.go:536-549 | lists exactly the unmarked parts in increasing order |
| `Bitmaps.PartSetBitmap.ToBytes` | types/block_parts.go:552-567 | writes the wire form byte by byte |
| `Bitmaps.PartSetBitmap.Diff` | types/block_parts.go:605-626 | the loop lists the marked positions of the difference |
| `Bitmaps.FromBytes` | types/block_parts.go:570-602 | reads the wire form or reports the first fault |
| `WalFrames.DecodeFrame` | wal/file_wal.go:668-774 | a frame is decoded to its message whatever follows |
| `WalFrames.ReadBackIffSmall` | wal/file_wal.go:668-774 | a message comes back from its frame, and what follows is left over, exactly when it is under the size limit |
| `WalFrames.OversizeIsCorrupted` | wal/file_wal.go:718-724 | a message at or over the limit whose length fits 32 bits is written but read as corruption |
| `WalFrames.DecodeCut` | wal/file_wal.go:712-774 | a frame cut short ends cleanly exactly where a read would start, else unexpectedly |
| `WalFrames.ReadFrames` | wal/file_wal.go:668-774 | reading a file of frames gives back exactly the messages |
| `WalFrames.ReadPrefix` | wal/file_wal.go:712-774 | reading any byte prefix returns exactly the messages whose whole frames lie inside, and how it ends |
| `WalFrames.WrittenAfterTail` | wal/file_wal.go:245-265 | messages written after a tail are read back exactly when the file goes on with their frames, tail included; on a frame boundary all are, and nothing else |
| `WalFrames.TornFrameSwallows` | wal/file_wal.go:245-265 | after a torn frame longer than all that follows, none of the later messages is read |
| `Wal.FileWAL.Write` | wal/file_wal.go:303-332 | opens a new segment exactly when the current one has reached the limit, adds the frame to the end of the segment, torn or not, and touches no other; on whole frames it appends the message to what all segments hold; notes an ended height; refuses when closed |
| `Wal.FileWAL.Rotate` | wal/file_wal.go:360-400 | opens an empty next segment and loses nothing |
| `Wal.FileWAL.PruneHeightIndex` | wal/file_wal.go:337-357 | keeps exactly as many entries as the limit allows, those of the greatest heights |
| `Wal.FileWAL.SearchSegment` | wal/file_wal.go:500-532 | finds the first end of a height in a segment and stands right after it |
| `Wal.FileWAL.SearchForEndHeight` | wal/file_wal.go:457-497 | finds a height exactly when some retained segment ends it, whatever the index holds, and notes where |
| `Wal.FileWAL.ReadLog` | wal/file_wal.go:850-887 | reading all segments gives back exactly the written messages in order |
| `Wal.FileWAL.BuildIndex` | wal/file_wal.go:145-176 | the index names the last segment of every height that ends |
| `Wal.FileWAL.CanDeleteSegment` | wal/file_wal.go:609-635 | answers whether all messages are at or below a nonnegative height, none when unreadable |
| `Wal.FileWAL.Checkpoint` | wal/file_wal.go:552-606 | drops exactly the oldest segments up to the first that is missing, holds a message above the height, or is the current one, with their index entries; nothing for a negative height |
| `Evidence.VerifiesIff` | evidence/pool.go:362-414 | evidence verifies exactly when one validator signed two votes for different blocks at one place |
| `Evidence.RunInv` | evidence/pool.go:99-255 | the pool invariant holds in every state of every run with growing heights |
| `Evidence.BoundedMemory` | evidence/pool.go:185-198 | over every run tracked votes and pending evidence stay within their limits |
| `Evidence.CommittedNeverPending` | evidence/pool.go:207-255 | over every run committed evidence is never pending again, even after pruning, and pending keys are unique |
| `Evidence.PendingIff` | evidence/pool.go:207-255 | over every run, evidence is pending exactly from its acceptance until it is committed or expires at an update |
| `Evidence.AcceptedIff` | evidence/pool.go:207-255 | over every run, evidence is accepted exactly when it has data, there is room, its key is not pending and was never committed, and it has not expired |
| `Evidence.UpdateForgets` | evidence/pool.go:417-450 | over every run, an update forgets exactly the committed keys and tracked votes that have become too old |
| `Evidence.StaysTracked` | evidence/pool.go:417-507 | over every run a tracked vote stays tracked while it is within the protection window and not expired |
| `Evidence.FirstVoteTracked` | evidence/pool.go:185-203 | over every run, a signed vote at a new place is tracked unless the pool is at its limit and all tracked votes are within the protection window |
| `Evidence.ConflictDetected` | evidence/pool.go:116-204 | over every run of operations, once a vote was answered with nothing, a signed vote for another block at its place and within the window is answered with evidence of both that verifies |
| `EvidencePool.Pool.CheckVote` | evidence/pool.go:116-204 | the method makes a step of the machine |
| `EvidencePool.Pool.AddEvidence` | evidence/pool.go:207-255 | the method makes a step of the machine, with the order of refusals |
| `EvidencePool.Pool.MarkCommitted` | evidence/pool.go:341-352 | the method makes a step of the machine |
| `EvidencePool.Pool.Update` | evidence/pool.go:99-108 | the method makes a step of the machine |
| `EvidencePool.Pool.PruneOldestVotes` | evidence/pool.go:456-507 | removes up to n votes below the protected height, oldest first, fewer only when none is left |
| `VoteKeys.KeyStringInjective` | evidence/pool.go:538-544 | two votes share the key string exactly when they agree in validator, height, round and type |
| `Authorization.SafeAddWeight` | types/account.go:32-37 | the sum, capped at the maximum |
| `Authorization.DirectSignatures` | types/account.go:119-139 | the capped sum over distinct authority keys with at least one valid signature |
| `Authorization.DirectOrderIndependent` | types/account.go:119-139 | the direct part does not depend on order or repetition of signatures |
| `Authorization.WeightMonotone` | types/account.go:95-190 | adding signatures or delegations anywhere in the tree never lowers the weight |
| `Authorization.SatisfactionMonotone` | types/account.go:193-204 | a satisfied authority stays satisfied when the authorization is extended |
| `Authorization.UnsignedIsWeightless` | types/account.go:95-190 | without a valid signature anywhere in the tree and with positive thresholds the weight is zero |
| `Authorization.UnsignedNeverSatisfies` | types/account.go:193-204 | without a valid signature no positive threshold is met |
| `Authorization.DelegationAdds` | types/account.go:142-187 | a delegation adds the first listed weight of its account, up to the cap, exactly when the account is known, not on the path and satisfied by it; else removing it changes nothing |
| `Authorization.SignatureAdds` | types/account.go:119-139 | a signature adds the first listed weight of its key, up to the cap, exactly when it is valid and the only valid one of its key; else removing it changes nothing |
| `Authorization.VerifyAuthorization` | types/account.go:95-190 | the loops compute the weight, with cycle detection per branch |
| `Authorization.IsAuthoritySatisfied` | types/account.go:193-204 | true exactly when the weight reaches the threshold |
| `VoteTracker.VoteSet.Standalone` | engine/vote_tracker.go:58-74 | an empty live set without a collection |
| `VoteTracker.VoteSet.WithParent` | engine/vote_tracker.go:78-94 | an empty set that remembers its collection and generation |
| `VoteTracker.HeightVoteSet.constructor` | engine/vote_tracker.go:488-496 | an empty collection |
| `VoteTracker.HeightVoteSet.Prevotes` | engine/vote_tracker.go:564-568 | the prevote set of a round, if one was made |
| `VoteTracker.HeightVoteSet.Precommits` | engine/vote_tracker.go:571-575 | the precommit set of a round, if one was made |
| `ValidatorObjects.ValidatorSetObject.Copy` | types/validator.go:347-383 | a fresh set with the same value |
| `ValidatorObjects.InitProposerPriorities` | types/validator.go:131-137 | priorities are the powers, centered |
| `ValidatorObjects.CopyAndCheck` | types/validator.go:64-109 | copies with positions as indexes up to the first fault |
| `Merkle.BuildLevel` | types/block_parts.go:378-431 | one level is hashed and every leaf below gets its sibling |
| `PartSets.GenuinePart` | types/block_parts.go:209-254 | a genuine part is accepted once and refused when repeated |
| `PartSetObjects.PartSet.FromHeader` | types/block_parts.go:132-145 | an empty set with all bits off |
| `PartSetObjects.SplitData` | types/block_parts.go:78-102 | the chunks and their hashes |
| `Bitmaps.PartSetBitmap.constructor` | types/block_parts.go:501-507 | an empty bitmap |
| `Wal.FileWAL.constructor` | wal/file_wal.go:109-141 | opening any directory keeps all bytes of its segments and continues at the greatest one; on whole frames it keeps all messages, with the index of all ended heights; starts an empty log when there is none |
| `Wal.FileWAL.OpenSegments` | wal/file_wal.go:180-265 | finds the least and the greatest segment and makes an empty one when there is none |
| `Wal.FileWAL.Append` | wal/file_wal.go:668-697 | the frame is added to the current segment |
| `Wal.FileWAL.FirstToKeep` | wal/file_wal.go:565-581 | the first segment that is missing, holds a message above the height, or is the current one |
| `Wal.FileWAL.DropBefore` | wal/file_wal.go:583-604 | files below are gone with the index entries that name them |
| `EvidencePool.Pool.constructor` | evidence/pool.go:90-96 | an empty pool |
| `EvidencePool.Pool.PruneExpired` | evidence/pool.go:417-450 | expired evidence, committed keys and votes are dropped |
| `EvidencePool.Pool.RemovePending` | evidence/pool.go:522-535 | keeps exactly the other pending items in order |
| `EvidencePool.GroupByHeight` | evidence/pool.go:469-477 | lists exactly the unprotected votes by height |
| `Authorization.DelegationWeight` | types/account.go:142-187 | the weight of an account counts when its own authority is satisfied and it is not on the path already |

## Left out

- Crash replay (engine/replay.go) and votes added during replay: runs start from fresh nodes.
- Block sync (engine/blocksync.go), peer gossip state, timers, channels, metrics and engine wrappers; timeouts are events that may come at any time.
- SkipTimeoutCommit is taken as false: with one validator and the flag set, the cascade through the commit does not end.
- Failures of the write-ahead log inside consensus, which panic, and the evidence pool calls of `handleVote`.
- Block execution and validator updates: `Config.vals` is any schedule of valid validator sets by height; the floating point penalty for new validators is not modelled.
- Validator sets that diverge: `Protocol.vals` is one schedule for all nodes, so heights after a split, where different blocks may bring different validator updates, are not covered.
- Collisions of the signer's hash of sign bytes within runs: in `Node`, `SameMessage` lets the bytes stand for their hash, so all results over runs of nodes take that hash as injective; `Privval` does not.
- All clock readings within one event are one value.
- Guards of the Go code against nil: values are always there, and absence is an option where the code treats it as a case.
- Ed25519, SHA-256, CRC-32 and the message serializer are parameters; serialization is taken to be invertible where a lemma says so.
- Consensus.ConsensusState.HandlePrevote: votes are held as the value that `VoteTracker.HeightVoteSet` refines, so the vote set object kept across a transition is modelled by its value after it.
- Consensus.ConsensusState.Cast: the signer's save is taken to succeed; failing saves are in `Privval`.
- Agreement.AppliedAgreement: one direction; a nil prevote quorum between two rounds allows a split but does not force one.
- Duties.JoinsForPrevotes: that the votes are cast is stated for validators whose signer has not reached the round; a save of the signer is taken to succeed.
- Authorization.UnsignedIsWeightless: for accounts with positive thresholds; an account with threshold zero is satisfied by nothing at all.
- Agreement.CommitAlwaysFound: for heights with less than a third of the power faulty.
- Privval.NoDoubleSign: without `Reset`, and without state files of the older form that lack the hash of the sign bytes.
- Merkle.ProofSound: for proofs of full length; `Merkle.AcceptedShows` is about all lengths.
- PartSets.AcceptedPartIsGenuine: for proofs of full length; `PartSets.GenuineIffFullLength` and `PartSets.LongProofEmbedded` are about the others.
- WalFrames.OversizeIsCorrupted: for lengths that fit 32 bits; `WalFrames.ReadBackIffSmall` is about all lengths.
- WalFrames.WrittenAfterTail: for a serializer with one encoding per message.
- Wal.FileWAL.constructor: the index is stated for segments of whole frames, and the move of a log file of the older form is not modelled.
- Wal.FileWAL.Write: buffering, fsync and I/O errors are not modelled; a write is in the file at once.
- Wal.FileWAL.SearchForEndHeight: stated for readable segments, all messages under the size limit.
- Wal.FileWAL.Checkpoint: removing a file always succeeds; what is dropped is stated for readable segments.
- PartSetObjects.PartSet.AddPart: words of bits are naturals below 2^64, and setting a bit is arithmetic on them.
- Evidence.ConflictDetected: for a fixed validator set, nonnegative vote heights and heights that do not go back.
- EvidencePool.Pool.AddEvidence: evidence keys are tuples with a shortened digest, not strings.
