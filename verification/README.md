# Verified model of the UTXOpia light client, note trees and redemption ledger

This project models the two on-chain programs of UTXOpia, a bridge that shields bitcoin as zkBTC notes: the
Bitcoin light client and the pool. Each instruction is a function from state to state, or to an error; classes
with the programs' accounts as fields carry out the same instructions step by step and are proved to follow
those functions; the laws are proved of the functions over whole runs, and carried by the classes' methods.

The four parts:

- **256-bit arithmetic and difficulty** (`U256.dfy`, `Pow.dfy`, `Difficulty.dfy`, on `Powers.dfy`). Limb and
  byte loops refine plain integers: division, chainwork, compact encoding, retargeting.
- **Bitcoin light client** (`MedianTime.dfy`, `Inclusion.dfy`, `LightClient.dfy`, `BlockTree.dfy`,
  `LightClientRuns.dfy`, `LightClientLaws.dfy`, `LightClientProgram.dfy`, `ShorteningPromotion.dfy`). Header batches, fork choice, the height index, finality,
  pruning and transaction attestation. A run keeps the tree of every header ever accepted; chainwork, median
  time and difficulty are stated on that tree.
- **Commitment trees, queue and rotation** (`CommitmentTree.dfy`, `Queue.dfy`, `QueueRuns.dfy`,
  `NotePool.dfy`, `Requeued.dfy`).
  The incremental tree against the full padded tree, the root ring against a window, deferred leaves against
  the places they land at, the nullifier counter against the nullifiers recorded.
- **Pool and redemption ledger** (`Requests.dfy`, `Ledger.dfy`, `LedgerProgram.dfy`, `Totals.dfy`,
  `Reservations.dfy`, `Payouts.dfy`, `LedgerRuns.dfy`, `CanonicalInputs.dfy`, `Approvals.dfy`,
  `ApprovedCompletion.dfy`, `LedgerLaws.dfy`, `RedemptionLaws.dfy`, `OverwrittenChange.dfy`). Deposit, shield, unshield, redeem, reserve, approve,
  cancel, complete and fee claims over pool, token, vault, UTXO records and requests.

## Assumptions

- Hash functions are parameters. Headers submitted in a run do not collide with each other, with the genesis
  hash or with zero (`SoundHashing`). The strings hashed in building a block's tree, up to its root, and in
  checking the submitted paths do not collide (`CollisionFree`, `Covers`): finitely many strings for a block and
  its proofs, and for an honest proof the block's own (`HonestCovered`). Poseidon is an arbitrary binary function
  whose hard-coded table of empty-subtree hashes satisfies `ZerosOk`.
- Reservation keys differ for the request addresses a run uses, and input commitments for the input lists it
  hashes (`WorldOk`). The pool script is fixed during a run and is not an OP_RETURN script.
- A failing instruction leaves every account as it was: partial writes are undone by the runtime. Any
  instruction may also fail for a reason outside the model, which is the same as not being in the run.
- The clock, the caller, the configured limits and rates, the parsed bitcoin transaction and, for the ledger, the
  outcome of the join-split part of a spend and whether the tree is full are parameters of each instruction.
  Configured limits may change from one instruction to the next.

## Where a law needs a condition

- The height index is the tip's ancestor path exactly when no promotion ends below the old tip
  (`PathIffNeverShortens`); `StaleEntry` is a run that breaks it. Finality and the heaviest tip do not need it.
- A completion keeps all ledger laws exactly when its change outpoint is fresh and its outputs add up in 64 bits
  (`CompleteInvIff`, over runs `LedgerRuns.LawsIffFresh`). Backing alone survives exactly when the record at the
  change outpoint, if there is one, is worth what the output sum saturates by (`CompleteBackedIff`).
  `BackingLost` is a run that breaks it: the completing transaction carries a deposit marker, so its change output
  can be credited as a direct deposit first. The approvals the program gives are never for such a transaction, but
  a completion does not ask whether its transaction was approved.
- Deferred leaves stay accounted for exactly when queue addresses are fresh (`QueueLeavesIff`, over runs
  `QueueRuns.LawsIffFresh`). The notes in
  `programs/utxopia/src/state/queued_leaf.rs:31-36` say that queueing a commitment twice is refused at account creation; the
  creation helper (`programs/utxopia/src/utils/validation.rs:90-128`) accepts an account that already exists, and
  the record is then rewritten. The model follows the code; `OutputLost` shows the consequence.
- Rotation leaves earlier trees alone exactly when the 32-bit index does not wrap (`RotateKeepsIff`).
- A block is attested with six confirmations unless it is the block at height 0, which a client started there
  attests at once (`AttestedBuried`, `AttestedWitness`).
- Block work is floor(2^256/(target+1)) exactly when the target is not zero (`BlockWorkExact`).
- Compact encoding rounds down exactly for targets below 2^255 (`EncodeRoundsDown`); the program only encodes
  targets at or below the maximum.

## Model

| member | source | states |
|---|---|---|
| `U256.LimbBytesRoundTrip` | programs/btc-light-client/src/utils/u256.rs:3-18 | bytes to limbs and back, and limbs to bytes and back, lose nothing and keep the integer value |
| `U256.Add` | programs/btc-light-client/src/utils/u256.rs:21-31 | the limb sum is the integer sum modulo 2^256 |
| `U256.Gt` | programs/btc-light-client/src/utils/u256.rs:34-44 | limb comparison is integer `>` |
| `U256.Gte` | programs/btc-light-client/src/utils/u256.rs:47-56 | limb comparison is integer `>=` |
| `U256.Sub` | programs/btc-light-client/src/utils/u256.rs:59-68 | the limb difference is the integer difference, wrapping modulo 2^256 |
| `U256.Shl` | programs/btc-light-client/src/utils/u256.rs:71-85 | a left shift by any amount is multiplication by 2^shift modulo 2^256, spills across limbs included |
| `U256.Clz` | programs/btc-light-client/src/utils/u256.rs:88-95 | 256 less the number of significant bits of the value |
| `U256.SetBit` | programs/btc-light-client/src/utils/u256.rs:113-125 | setting a free quotient bit adds its power of two |
| `U256.Div` | programs/btc-light-client/src/utils/u256.rs:98-127 | shift-subtract division is exact floor division for every dividend and nonzero divisor, and 0 for a zero divisor |
| `U256.MulU32` | programs/btc-light-client/src/utils/u256.rs:130-140 | product with a 32-bit factor modulo 2^256 |
| `U256.DivU32` | programs/btc-light-client/src/utils/u256.rs:143-153 | exact floor division by a nonzero 32-bit divisor |
| `U256.GtBytes` | programs/btc-light-client/src/utils/u256.rs:156-166 | byte-wise comparison from the top is integer `>` |
| `ProofOfWork.HashMeetsTarget` | programs/btc-light-client/src/utils/pow.rs:4-14 | accepts exactly the hashes whose value is at most the target |
| `ProofOfWork.TargetFromBits` | programs/btc-light-client/src/utils/pow.rs:17-35 | the 32 bytes decode to the compact target, small and oversized exponents included |
| `ProofOfWork.TargetBound` | programs/btc-light-client/src/utils/pow.rs:17-35 | every decoded target is below 2^255 |
| `ProofOfWork.TargetIs` | programs/btc-light-client/src/utils/pow.rs:17-35 | for every size byte, sign bit and 23-bit mantissa the target is mantissa * 256^(size-3), cut below size 3 and zero above size 32 |
| `ProofOfWork.CalculateChainwork` | programs/btc-light-client/src/utils/pow.rs:38-70 | the byte routine (complement, divide, increment) computes the block work for every bits value |
| `ProofOfWork.BlockWorkExact` | programs/btc-light-client/src/utils/pow.rs:38-70 | block work is floor(2^256/(target+1)) if and only if the target is at least 1; a zero target yields zero work |
| `ProofOfWork.AddChainwork` | programs/btc-light-client/src/utils/pow.rs:73-84 | byte addition with carry is addition modulo 2^256 |
| `Difficulty.BitsFromTarget` | programs/btc-light-client/src/utils/difficulty.rs:74-106 | the byte loop computes the compact encoding of the target |
| `Difficulty.EncodeRoundsDown` | programs/btc-light-client/src/utils/difficulty.rs:74-106 | decoding the encoding gives the largest compact-representable value not above the target if and only if the target is below 2^255 |
| `Difficulty.EncodeMonotone` | programs/btc-light-client/src/utils/difficulty.rs:74-106 | encoding and decoding preserves the order of targets below 2^255 |
| `Difficulty.CalculateNewBits` | programs/btc-light-client/src/utils/difficulty.rs:12-41 | the routine over limbs computes the new bits: from a target within the maximum, the compact rounding of min(max, floor(old * s / 1209600)) with s the timespan held between 302400 and 4838400 |
| `Difficulty.ScaledExact` | programs/btc-light-client/src/utils/difficulty.rs:18-33 | for old targets at or below the maximum, multiply-then-divide never overflows 256 bits and is floor(old*clamp/T) |
| `Difficulty.NewBitsRounds` | programs/btc-light-client/src/utils/difficulty.rs:12-41 | new bits never decode above the maximum target and, from an old target within it, are the compact rounding of min(max, floor(old*clamp/T)) |
| `Difficulty.RetargetRule` | programs/btc-light-client/src/utils/difficulty.rs:12-41 | the same rule in plain numbers, for every old target within the maximum and every timespan |
| `Difficulty.NewBitsMonotone` | programs/btc-light-client/src/utils/difficulty.rs:12-41 | a longer epoch never yields a smaller target |
| `Difficulty.RequiredBitsForNextBlock` | programs/btc-light-client/src/utils/difficulty.rs:43-72 | the routine computes the required bits: retarget on epoch boundaries, the 20-minute exception on testnet4, otherwise unchanged |
| `Difficulty.RequiredRule` | programs/btc-light-client/src/utils/difficulty.rs:43-72 | at a multiple of 2016 the compact rounding of the retarget rule over the epoch; else 0x1d00ffff on testnet4 more than 1200 seconds after the parent; else the epoch bits |
| `Difficulty.RequiredWithinMax` | programs/btc-light-client/src/utils/difficulty.rs:43-72 | an epoch target within the maximum never requires a target above it |
| `Difficulty.BackwardsTimeNeverEases` | programs/btc-light-client/src/utils/difficulty.rs:43-72 | timestamps running backwards never ease the requirement |
| `CommitmentTrees.FrontierInvariant` | programs/utxopia/src/state/commitment_tree.rs:239-265 | after any number of leaves, entry `l` of the frontier is the completed left sibling whenever bit `l` of the count is 1 |
| `CommitmentTrees.WalkReachesRoot` | programs/utxopia/src/state/commitment_tree.rs:239-265 | the O(depth) walk returns the root of the full padded tree for every leaf sequence that fits |
| `CommitmentTrees.EmptyRoot` | programs/utxopia/src/state/commitment_tree.rs:135-148 | the initial root is the root of the empty padded tree |
| `CommitmentTrees.RingIsWindow` | programs/utxopia/src/state/commitment_tree.rs:177-206 | a nonzero root is in the ring exactly when it is among the last 256 superseded roots |
| `CommitmentTrees.AcceptedRootsOfRun` | programs/utxopia/src/state/commitment_tree.rs:177-230 | over any mix of single and batch inserts, a root is accepted exactly when it is nonzero and is the root after one of the last 257 instructions |
| `CommitmentTrees.BatchMatchesSingles` | programs/utxopia/src/state/commitment_tree.rs:286-303 | a batch gives the same leaves, hence root, frontier and count, as single inserts, and uses one history slot |
| `CommitmentTrees.CommitmentTree.constructor` | programs/utxopia/src/state/commitment_tree.rs:135-148 | a new tree is valid and empty |
| `CommitmentTrees.CommitmentTree.IsValidRoot` | programs/utxopia/src/state/commitment_tree.rs:177-198 | returns exactly whether the root is accepted |
| `CommitmentTrees.CommitmentTree.UpdateRoot` | programs/utxopia/src/state/commitment_tree.rs:201-206 | pushes the superseded root into the ring and installs the new one |
| `CommitmentTrees.CommitmentTree.AppendLeaf` | programs/utxopia/src/state/commitment_tree.rs:239-265 | fails exactly when full; otherwise appends one leaf, returns the full tree's root and keeps the frontier invariant |
| `CommitmentTrees.CommitmentTree.InsertLeaf` | programs/utxopia/src/state/commitment_tree.rs:226-230 | appends one leaf and updates root and ring |
| `CommitmentTrees.CommitmentTree.InsertLeavesBatch` | programs/utxopia/src/state/commitment_tree.rs:286-303 | succeeds exactly for a non-empty batch that fits; appends all leaves with one ring update |
| `Inclusion.VerifyPath` | programs/btc-light-client/src/instructions/verify_transaction.rs:93-199 | accepts exactly what the path fold, the length bound and the 64-byte guard define |
| `Inclusion.InclusionSound` | programs/btc-light-client/src/instructions/verify_transaction.rs:161-199 | with no hash collision among the strings involved and no 64-byte transaction in the block, an accepted path of any length means the transaction is in the block |
| `Inclusion.HonestCovered` | programs/btc-light-client/src/instructions/verify_transaction.rs:161-199 | an honest path hashes only the block's own strings, so the assumption of soundness on it is that those do not collide |
| `Inclusion.OneTransactionBlock` | programs/btc-light-client/src/instructions/verify_transaction.rs:161-199 | the assumptions of soundness are met by a block of one transaction, whatever the hash |
| `Inclusion.InclusionComplete` | programs/btc-light-client/src/instructions/verify_transaction.rs:161-199 | in a block of up to 2^20 transactions an honest path, odd tails included, is accepted exactly when the transaction is not 64 bytes long |
| `MedianTime.SortInPlace` | programs/btc-light-client/src/instructions/extend_blockchain.rs:618-631 | in-place selection sort yields a sorted permutation |
| `MedianTime.MedianIs` | programs/btc-light-client/src/instructions/extend_blockchain.rs:608-632 | the median is element n/2 of any sorted permutation of the window: more than half of the window is at or below it, at least half at or above it |
| `MedianTime.MedianTimestamp` | programs/btc-light-client/src/instructions/extend_blockchain.rs:613-632 | the routine returns the median |
| `LightClientProgram.LightClient.constructor` | programs/btc-light-client/src/instructions/initialize.rs:131-263 | the initial client, genesis header and index |
| `LightClientProgram.LightClient.WalkAncestors` | programs/btc-light-client/src/instructions/extend_blockchain.rs:231-257 | collects the ancestors' timestamps exactly when they chain back from the parent |
| `LightClientProgram.LightClient.FillWindow` | programs/btc-light-client/src/instructions/extend_blockchain.rs:265-273 | the window is the reversed ancestors followed by the parent |
| `LightClientProgram.LightClient.CollectWindow` | programs/btc-light-client/src/instructions/extend_blockchain.rs:226-274 | builds the window, refusing fewer than ten ancestors unless they reach the genesis |
| `LightClientProgram.LightClient.CheckHeader` | programs/btc-light-client/src/instructions/extend_blockchain.rs:306-372 | accepts exactly the headers that satisfy drift, linkage, median time, height, proof of work and required bits |
| `LightClientProgram.LightClient.SlideWindow` | programs/btc-light-client/src/instructions/extend_blockchain.rs:325-333 | grows the window to eleven timestamps, then drops the oldest |
| `LightClientProgram.LightClient.NextCursor` | programs/btc-light-client/src/instructions/extend_blockchain.rs:379-391 | work, height, epoch parameters and window after an accepted header |
| `LightClientProgram.LightClient.StoreBatch` | programs/btc-light-client/src/instructions/extend_blockchain.rs:276-460 | the batch loop accepts and stores exactly what the specification of a batch says |
| `LightClientProgram.LightClient.RewriteIndex` | programs/btc-light-client/src/instructions/extend_blockchain.rs:484-547 | points each height above the parent at its batch header |
| `LightClientProgram.LightClient.Heavier` | programs/btc-light-client/src/instructions/extend_blockchain.rs:462-467 | compares chainwork as integers |
| `LightClientProgram.LightClient.ExtendBlockchain` | programs/btc-light-client/src/instructions/extend_blockchain.rs:90-604 | the whole instruction: batch, fork choice, finality gate, reindex and client update, or failure with no change; the laws of runs survive it; a new tip draws the finality line five below it unless that is lower |
| `LightClientProgram.LightClient.PruneObsoleteBlocks` | programs/btc-light-client/src/instructions/prune_obsolete_blocks.rs:59-135 | removes a header exactly when it is off the index and at or below the finality line; the laws of runs survive it |
| `LightClientProgram.LightClient.VerifyTransaction` | programs/btc-light-client/src/instructions/verify_transaction.rs:102-264 | attests exactly finalized, indexed blocks with an accepted path; repeating changes nothing; the laws of runs survive it |
| `BlockTrees.AcceptOne` | programs/btc-light-client/src/instructions/extend_blockchain.rs:296-460 | an accepted header is a valid child in the tree of all headers; one accepted again gets the record it already has |
| `BlockTrees.StartWindowExact` | programs/btc-light-client/src/instructions/extend_blockchain.rs:226-274 | the collected window is the last up-to-eleven timestamps of the parent's own chain |
| `BlockTrees.BatchGrows` | programs/btc-light-client/src/instructions/extend_blockchain.rs:276-460 | a batch adds a path to the tree of all headers, with running values that describe its end and no added header heavier than it |
| `BlockTrees.ChainworkIsPathWork` | programs/btc-light-client/src/instructions/extend_blockchain.rs:379-381 | a stored chainwork is the sum of block works along the path from genesis, modulo 2^256 |
| `LightClientRuns.ExtendPathIff` | programs/btc-light-client/src/instructions/extend_blockchain.rs:183-205 | a batch keeps the index the tip's path if and only if it is not promoted to a tip below the old one |
| `LightClientRuns.PathIffNeverShortens` | programs/btc-light-client/src/instructions/extend_blockchain.rs:484-561 | over a whole run the index is the tip's path at every moment if and only if no promotion shortens the chain |
| `LightClientRuns.IndexIsAncestorPath` | programs/btc-light-client/src/instructions/extend_blockchain.rs:484-561 | in a run without shortening promotions the index holds exactly the heights from start to tip, each naming the tip's ancestor, and the tip's work is `total_chainwork` |
| `ShorteningPromotion.StaleEntry` | programs/btc-light-client/src/instructions/extend_blockchain.rs:484-547 | a concrete run of two accepted batches that leaves an index entry above the tip |
| `LightClientRuns.HeaviestTip` | programs/btc-light-client/src/instructions/extend_blockchain.rs:462-467 | while no path reaches 2^256 work, every chainwork is exact and the tip's is at least that of every header ever stored |
| `LightClientRuns.FinalityHolds` | programs/btc-light-client/src/instructions/extend_blockchain.rs:469-580 | between any two moments of a run: the finality line does not fall, no index entry at or below it changes, no attestation disappears, and the line never exceeds the tip |
| `LightClientLaws.InitialIs` | programs/btc-light-client/src/instructions/initialize.rs:131-263 | a client starts exactly with difficulty parameters or on regtest, with the start block stored and indexed, its bits defaulting to the initial ones, and the line five below it |
| `LightClientLaws.FinalizedIs` | programs/btc-light-client/src/instructions/extend_blockchain.rs:563-580 | in every run the finality line is the highest of (tip - 5, floored at 0) over the start and every tip there has been |
| `LightClientLaws.AttestedAt` | programs/btc-light-client/src/instructions/verify_transaction.rs:126-264 | every attestation was written by one step of the run, for a stored, indexed block at or below the line at that moment, and carries its height, the submitted index and the clock |
| `LightClientLaws.AttestedBuried` | programs/btc-light-client/src/instructions/verify_transaction.rs:140-150 | when a block was attested some tip had been at least five blocks above it, unless it is the block at height 0 |
| `LightClientLaws.HeaderRule` | programs/btc-light-client/src/instructions/extend_blockchain.rs:306-372 | a header passes exactly the linkage, 7200-second, 64-bit height, proof-of-work and, on production networks, median-time and required-bits checks |
| `LightClientLaws.ExtendAcceptsIff` | programs/btc-light-client/src/instructions/extend_blockchain.rs:40-90 | a batch is accepted exactly with one to ten headers and up to ten ancestors, a stored canonical parent, a window, every header passing, and no promotion from below the finality line |
| `LightClientLaws.AcceptedFrom` | programs/btc-light-client/src/instructions/extend_blockchain.rs:296-460 | every header ever accepted was in one of the run's batches, at most 7200 seconds ahead of its clock |
| `LightClientLaws.HeaderCountIs` | programs/btc-light-client/src/instructions/extend_blockchain.rs:553-557 | the header counter counts every accepted submission, promoted or not |
| `LightClientLaws.StoredAbove` | programs/btc-light-client/src/instructions/prune_obsolete_blocks.rs:93-101 | every header ever accepted above the finality line is still stored |
| `LightClientLaws.EpochIs` | programs/btc-light-client/src/instructions/extend_blockchain.rs:383-391 | a header's epoch parameters are bits and timestamp of the latest block at a multiple of 2016 on its own chain, or the seed's |
| `LightClientLaws.DifficultyOfRun` | programs/btc-light-client/src/instructions/extend_blockchain.rs:354-391 | the difficulty rule on the chain of every accepted header, from epoch block and timestamps alone |
| `LightClientLaws.TipEpoch` | programs/btc-light-client/src/instructions/extend_blockchain.rs:582-590 | the client's difficulty fields are the tip's epoch parameters |
| `LightClientRuns.AttestedForever` | programs/btc-light-client/src/instructions/verify_transaction.rs:126-150 | a block once attested stays stored, indexed and finalized, with an accepted path to its root |
| `LightClientRuns.AttestedInBlock` | programs/btc-light-client/src/instructions/verify_transaction.rs:152-199 | in any run an attested transaction id is that of a transaction of the block |
| `LightClientRuns.AttestedWitness` | programs/btc-light-client/src/instructions/verify_transaction.rs:102-264 | a run that attests a transaction meets every assumption of the previous result |
| `LightClientRuns.RunInv` | programs/btc-light-client/src/instructions/prune_obsolete_blocks.rs:80-101 | every reachable state: headers form the tree, index entries name stored headers of their height, tip facts, attestations stand |
| `LightClientRuns.AcceptedHeadersValid` | programs/btc-light-client/src/instructions/extend_blockchain.rs:318-377 | every header ever accepted meets its target, is one above its parent and, on production networks, is later than the median of its own chain's window and has the required bits |
| `LightClientRuns.BatchWindowExact` | programs/btc-light-client/src/instructions/extend_blockchain.rs:318-334 | in every reachable state the window checked against any header of a production batch is its own chain's last up-to-eleven timestamps |
| `LightClientRuns.TargetsWithinMax` | programs/btc-light-client/src/instructions/extend_blockchain.rs:354-377 | a production run seeded at or below the maximum target never accepts a header with a target above it |
| `Requests.ApprovedIsBit` | programs/utxopia/src/state/redemption.rs:206-208 | the one-bit mask test reads that input's bit |
| `Requests.MarkApprovedAdds` | programs/utxopia/src/state/redemption.rs:230-240 | marking sets exactly one more input, leaves every other field, and raises the flag exactly when the set is complete |
| `Requests.AllApprovedIff` | programs/utxopia/src/state/redemption.rs:242-252 | the mask comparison holds exactly when every reserved input is approved, up to 32 inputs |
| `Requests.StoreFee` | programs/utxopia/src/state/redemption.rs:216-265 | the three stored bytes load back to the fee |
| `Reservations.FlipTotals` | programs/utxopia/src/instructions/mark_processing.rs:132-189 | moving records between statuses moves their count and value, keeps the total and touches no other status |
| `Reservations.DistinctIsAll` | programs/utxopia/src/instructions/cancel_redemption.rs:197-240 | an accepted list is distinct and no longer than the count of reserved records, and it is all of them exactly when as long; its sum is then the reserved value and none is left |
| `Reservations.ClosedIsAll` | programs/utxopia/src/instructions/complete_redemption.rs:682-767 | as many closed records as are reserved are all of them: the whole set is consumed |
| `Reservations.FlippableIff` | programs/utxopia/src/instructions/mark_processing.rs:132-189 | a change of status takes exactly distinct records that have the old status |
| `Reservations.ClosableIff` | programs/utxopia/src/instructions/complete_redemption.rs:720-762 | closing takes exactly distinct records reserved for the request and spent by the transaction |
| `Reservations.MarkOwns` | programs/utxopia/src/instructions/mark_processing.rs:132-260 | a marked request owns exactly the named records, which cover the payout with no superfluous one, pinned by the commitment |
| `Reservations.NoSmallerFunding` | programs/utxopia/src/instructions/mark_processing.rs:191-221 | no proper part of a reservation covers the payout plus the largest admissible fee; the whole does |
| `LedgerRuns.MinimalFunding` | programs/utxopia/src/instructions/mark_processing.rs:191-221 | the same for every processing request of every run |
| `RedemptionLaws.MarkAcceptsIff` | programs/utxopia/src/instructions/mark_processing.rs:38-260 | a pending request is marked exactly with one to twenty distinct unspent records that cover amount - fee + min(50000, fee) and of which none is spare |
| `RedemptionLaws.MarkDoes` | programs/utxopia/src/instructions/mark_processing.rs:229-260 | the named records, and no others, become the request's; slot modulo 2^32, count and sum are recorded |
| `RedemptionLaws.ApproveAcceptsIff` | programs/utxopia/src/instructions/approve_redemption_signing.rs:133-352 | an input is approved exactly when not paused, amount at most 10^8, fee at most 50000 and the pinned one, input in range and not approved, real fee within 50000 and the service fee, and the named records are the reserved ones |
| `RedemptionLaws.ApprovedSpendIs` | programs/utxopia/src/instructions/approve_redemption_signing.rs:312-352 | in any run an approved transaction pays amount - fee to the recipient first, change above 330 to the pool second, and nothing else, for a real fee within 50000 and the service fee |
| `RedemptionLaws.CancelNeeds` | programs/utxopia/src/instructions/cancel_redemption.rs:128-160 | a cancellation goes through only for the requester, never once fully approved, and from processing only after 216000 slots |
| `RedemptionLaws.CancelAcceptsIff` | programs/utxopia/src/instructions/cancel_redemption.rs:106-240 | in a lawful state a cancellation is accepted exactly when allowed and given the whole reserved set |
| `RedemptionLaws.CancelWaits` | programs/utxopia/src/instructions/cancel_redemption.rs:143-152 | in any run the slots of marking a and cancelling b satisfy (b - a) mod 2^32 >= 216000, and within one turn of the clock b >= a + 216000; only the requester cancels |
| `RedemptionLaws.PayoutAcceptsIff` | programs/utxopia/src/instructions/complete_redemption.rs:499-577 | the payout checks pass exactly for a transaction that pays the recipient at most the payout, at least 99% of it and at least it less 50000, with allowed outputs, at most one change output and a fee of at most 50000; with the exact burn and revenue |
| `RedemptionLaws.CompleteNeeds` | programs/utxopia/src/instructions/complete_redemption.rs:499-767 | a completion that goes through meets those bounds and spends exactly the reserved inputs |
| `RedemptionLaws.UnderpaymentFails` | programs/utxopia/src/instructions/complete_redemption.rs:506-530 | a transaction that pays less than either floor, more than the payout, or elsewhere is refused |
| `RedemptionLaws.CompleteAcceptsIff` | programs/utxopia/src/instructions/complete_redemption.rs:310-767 | in a lawful state with a fresh change outpoint a completion is accepted exactly when its transaction may complete the request and spends its reserved inputs, each once, and no other |
| `LedgerLaws.BpsFeeIs` | programs/utxopia/src/utils/policy.rs:63-70 | up to 100% the fee is floor(amount * bps / 10000), at least one unit of a charged amount, never above the amount |
| `LedgerLaws.BpsFeeWraps` | programs/utxopia/src/utils/policy.rs:63-70 | above 100% the quotient is cut to 64 bits first |
| `LedgerLaws.ServiceFeeIs` | programs/utxopia/src/state/pool.rs:240-252 | share of the amount plus base, each held at 2^64 - 1 |
| `LedgerLaws.DepositAcceptsIff` | programs/utxopia/src/instructions/complete_deposit.rs:1293-1323 | a deposit is credited exactly within all limits, with a fee below its amount, once per outpoint, under the cap, while the counters have room |
| `LedgerLaws.DepositDoes` | programs/utxopia/src/instructions/complete_deposit.rs:1193-1273 | the output is recorded and minted whole and split into note and fee |
| `LedgerLaws.ShieldAcceptsIff` | programs/utxopia/src/instructions/shield.rs:250-310 | a shield is accepted exactly within the limits on the nominal amount and under the cap on the note |
| `LedgerLaws.ShieldDoes` | programs/utxopia/src/instructions/shield.rs:268-349 | what the vault received is split into note and fee |
| `LedgerLaws.UnshieldDoes` | programs/utxopia/src/instructions/unshield.rs:443-521 | each of one to three recipients is paid its amount less its own fee |
| `LedgerLaws.UnshieldAcceptsIff` | programs/utxopia/src/instructions/unshield.rs:443-521 | with balanced books an unshield is accepted exactly when the notes cover it and no fee exceeds its amount |
| `LedgerLaws.ClaimAcceptsIff` | programs/utxopia/src/instructions/claim_fees.rs:78-113 | with balanced books a claim is accepted exactly up to the accumulated fees |
| `LedgerLaws.RedeemAcceptsIff` | programs/utxopia/src/instructions/redeem.rs:94-110 | with balanced books a redemption is accepted exactly for one to three orders with scripts of 1 to 34 bytes that do not start with 0x6a, distinct free addresses, fees below amounts, and notes that cover the sum |
| `LedgerLaws.RedeemDoes` | programs/utxopia/src/instructions/redeem.rs:440-555 | each order becomes a pending request with its amount, fee and script; no other request changes |
| `LedgerLaws.ExcessIs` | programs/utxopia/src/utils/bitcoin.rs:370-373 | the saturating output sum is short exactly by what exceeds 2^64 - 1 |
| `Payouts.PayoutBalances` | programs/utxopia/src/instructions/complete_redemption.rs:125-177 | inputs equal burn plus recorded change, up to saturation of the output sum, and burn plus revenue is the amount |
| `Payouts.ApprovedPassesIff` | programs/utxopia/src/instructions/approve_redemption_signing.rs:312-352 | an approved transaction balances at its effective fee, which is within the service fee; completion's payout checks accept it if and only if the recipient script is not the pool script, with the exact payout, burn, revenue and change |
| `LedgerRuns.CompleteBackedIff` | programs/utxopia/src/instructions/complete_redemption.rs:545-667 | backing survives a completion if and only if the record overwritten at the change outpoint is worth what the output sum exceeds 64 bits by |
| `OverwrittenChange.BackingLost` | programs/utxopia/src/instructions/complete_redemption.rs:605-667 | a five-step run, for any environment, taproot scripts and deposit marker, that meets every assumption but freshness: the settlement's change output is credited as a deposit first and backing is lost |
| `LedgerRuns.DepositInv` | programs/utxopia/src/instructions/complete_deposit.rs:1193-1273 | a deposit keeps every ledger law |
| `LedgerRuns.ShieldInv` | programs/utxopia/src/instructions/shield.rs:268-349 | a shield keeps every ledger law |
| `LedgerRuns.UnshieldInv` | programs/utxopia/src/instructions/unshield.rs:443-521 | an unshield keeps every ledger law |
| `LedgerRuns.ClaimInv` | programs/utxopia/src/instructions/claim_fees.rs:78-113 | a fee claim keeps every ledger law |
| `LedgerRuns.RedeemInv` | programs/utxopia/src/instructions/redeem.rs:342-555 | creating requests keeps every ledger law; the pending counter never saturates |
| `LedgerRuns.MarkInv` | programs/utxopia/src/instructions/mark_processing.rs:132-260 | reserving keeps every ledger law |
| `LedgerRuns.SignedInv` | programs/utxopia/src/instructions/approve_redemption_signing.rs:475-484 | approving keeps every ledger law |
| `LedgerRuns.CancelReleasesAll` | programs/utxopia/src/instructions/cancel_redemption.rs:197-240 | a cancellation releases exactly the request's reserved set, whose value is never zero |
| `LedgerRuns.CancelInv` | programs/utxopia/src/instructions/cancel_redemption.rs:203-295 | cancelling keeps every ledger law |
| `LedgerRuns.CompleteConsumesAll` | programs/utxopia/src/instructions/complete_redemption.rs:682-767 | a completion consumes exactly the request's reserved set, worth `total_input_sats` |
| `LedgerRuns.CompleteInvIff` | programs/utxopia/src/instructions/complete_redemption.rs:584-797 | completing keeps every ledger law if and only if the change outpoint is not on record and the outputs add up in 64 bits |
| `LedgerRuns.LawsIffFresh` | programs/utxopia/src/instructions/complete_redemption.rs:584-797 | over a whole run every ledger law holds at every moment if and only if every completion in it has a fresh change outpoint and outputs that add up in 64 bits |
| `LedgerRuns.RunInv` | programs/utxopia/src/state/pool.rs:488-536 | every reachable state satisfies backing, vault conservation, counters and reservation integrity |
| `LedgerRuns.Conservation` | programs/utxopia/src/instructions/complete_redemption.rs:769-797 | after every run records sum to minted less burned; the vault is shielded plus fees plus live requests plus donations; mirror, pending count, held sum and record count are exact |
| `LedgerRuns.OneOwner` | programs/utxopia/src/instructions/mark_processing.rs:104-105 | after every run a reserved record has exactly one live owner, whose records number `reserved_count` and sum to `total_input_sats` |
| `CanonicalInputs.CanonicalOrdered` | programs/utxopia/src/utils/sighash.rs:73-80 | the canonical list is ordered by amount downwards, then transaction id, then output index |
| `CanonicalInputs.CanonicalIgnoresOrder` | programs/utxopia/src/utils/sighash.rs:73-80 | the canonical list depends on which inputs there are, not on how they are listed |
| `CanonicalInputs.ListingAcceptedIff` | programs/utxopia/src/instructions/approve_redemption_signing.rs:276-310 | an approval accepts a listing of records if and only if it names every reserved record of the request exactly once and the pool script is 34 bytes long unless all of them have tapleaves |
| `Approvals.OneTransaction` | programs/utxopia/src/instructions/approve_redemption_signing.rs:167-203 | in any run all digests approved for one redemption are of one transaction: same inputs, fee and outputs |
| `Approvals.FlagMeansAllInputs` | programs/utxopia/src/instructions/approve_redemption_signing.rs:475-484 | in any run the global flag is set exactly when every reserved input has been approved |
| `Approvals.FullyApprovedForever` | programs/utxopia/src/instructions/cancel_redemption.rs:134-139 | a fully approved request is never cancelled or altered: it stays as it is until it is completed |
| `Approvals.ChangeNeverUnderflows` | programs/utxopia/src/instructions/approve_redemption_signing.rs:312-319 | for every admissible fee the change of a reserved request is not negative |
| `ApprovedCompletion.SpentIsReserved` | programs/utxopia/src/instructions/approve_redemption_signing.rs:276-310 | the inputs of an approved transaction are the request's reserved records, each once |
| `ApprovedCompletion.ApprovedCompletes` | programs/utxopia/src/instructions/complete_redemption.rs:499-767 | in any run a mined approved transaction completes its redemption if and only if the recipient script is not the pool script: payout, policy, fee, input and ledger checks all pass, dropped dust included |
| `LedgerProgram.ReceivedBy` | programs/utxopia/src/instructions/complete_redemption.rs:514-530 | sums all outputs to the recipient, failing exactly on 64-bit overflow |
| `LedgerProgram.OutputsWithinPolicy` | programs/utxopia/src/instructions/complete_redemption.rs:125-158 | accepts exactly OP_RETURN outputs of value zero, recipient outputs and at most one change output |
| `LedgerProgram.SaturatingSum` | programs/utxopia/src/utils/bitcoin.rs:370-373 | the saturating fold is the exact sum capped at 64 bits |
| `LedgerProgram.FindOutput` | programs/utxopia/src/utils/bitcoin.rs:390-395 | index of the first output paying a script |
| `LedgerProgram.VerifyPayout` | programs/utxopia/src/instructions/complete_redemption.rs:499-577 | the payout, policy, fee and accounting checks in the program's order; they pass exactly for a transaction that may complete the request |
| `LedgerProgram.Accounting` | programs/utxopia/src/instructions/complete_redemption.rs:165-177 | fails exactly when the burn overflows or exceeds the amount; burn and revenue add up to the amount |
| `LedgerProgram.PoolLedger.CompleteDeposit` | programs/utxopia/src/instructions/complete_deposit.rs:1147-1273 | effects of a deposit, or failure with no change; every ledger law survives it |
| `LedgerProgram.PoolLedger.ShieldTokens` | programs/utxopia/src/instructions/shield.rs:256-349 | effects of a shield measured by what the vault received, or failure with no change; every ledger law survives it |
| `LedgerProgram.PoolLedger.Payouts` | programs/utxopia/src/instructions/unshield.rs:443-466 | totals amounts and fees, failing exactly when a fee exceeds its amount or a total overflows |
| `LedgerProgram.PoolLedger.UnshieldTokens` | programs/utxopia/src/instructions/unshield.rs:443-521 | effects of an unshield, or failure with no change; every ledger law survives it |
| `LedgerProgram.PoolLedger.Claim` | programs/utxopia/src/instructions/claim_fees.rs:78-113 | effects of a fee claim, or failure with no change; every ledger law survives it |
| `LedgerProgram.PoolLedger.CheckOrders` | programs/utxopia/src/instructions/redeem.rs:342-352 | totals the amounts, failing exactly on a zero amount or overflow |
| `LedgerProgram.PoolLedger.OpenRequests` | programs/utxopia/src/instructions/redeem.rs:440-507 | creates one request per output, each address free at its turn and each fee below its amount |
| `LedgerProgram.PoolLedger.RedeemNotes` | programs/utxopia/src/instructions/redeem.rs:94-555 | effects of a redemption, or failure with no change; every ledger law survives it |
| `LedgerProgram.PoolLedger.MoveRecords` | programs/utxopia/src/instructions/mark_processing.rs:132-189 | moves exactly the named records from one status to the other and sums them, refusing a repeated or wrong one |
| `LedgerProgram.PoolLedger.SmallestInput` | programs/utxopia/src/instructions/mark_processing.rs:213-217 | the smallest named amount |
| `LedgerProgram.PoolLedger.RemoveUtxos` | programs/utxopia/src/state/pool.rs:522-536 | takes sum and count off the pool, failing exactly on underflow |
| `LedgerProgram.PoolLedger.MarkProcessing` | programs/utxopia/src/instructions/mark_processing.rs:38-274 | effects of a reservation, or failure with no change; every ledger law survives it |
| `LedgerProgram.PoolLedger.ReadReserved` | programs/utxopia/src/instructions/approve_redemption_signing.rs:276-303 | sums the named records, each of which must be reserved for the request |
| `LedgerProgram.PoolLedger.ListInputs` | programs/utxopia/src/instructions/approve_redemption_signing.rs:273-310 | the canonical input list if sum and commitment match |
| `LedgerProgram.PoolLedger.RebuildSpend` | programs/utxopia/src/instructions/approve_redemption_signing.rs:273-352 | the transaction rebuilt from the records and the fee |
| `LedgerProgram.PoolLedger.ApproveRedemptionSigning` | programs/utxopia/src/instructions/approve_redemption_signing.rs:133-484 | approves one input of the rebuilt transaction and pins the fee, or fails with no change; every ledger law survives it |
| `LedgerProgram.PoolLedger.CancelRedemption` | programs/utxopia/src/instructions/cancel_redemption.rs:106-295 | effects of a cancellation, or failure with no change; every ledger law survives it; one that goes through is the requester's, not fully approved, and not within the timeout |
| `LedgerProgram.PoolLedger.RecordChange` | programs/utxopia/src/instructions/complete_redemption.rs:605-667 | writes the change record at the first output paying the pool |
| `LedgerProgram.PoolLedger.CloseRecords` | programs/utxopia/src/instructions/complete_redemption.rs:720-762 | closes exactly the named records, each reserved for the request, spent by the transaction and named once |
| `LedgerProgram.PoolLedger.ConsumeInputs` | programs/utxopia/src/instructions/complete_redemption.rs:584-797 | burn, change, closing and counters of a completion |
| `LedgerProgram.PoolLedger.CompleteRedemption` | programs/utxopia/src/instructions/complete_redemption.rs:310-817 | effects of a completion, or failure with no change; every ledger law survives it; one that goes through pays the recipient within the bounds |
| `NotePools.NotePool.CreateNullifierRecords` | programs/utxopia/src/instructions/joinsplit_common.rs:400-506 | records the nullifiers of a spend exactly when none of them is on record at its turn |
| `NotePools.NotePool.QueueOutputs` | programs/utxopia/src/instructions/transact.rs:281-340 | one queued account per output, the first carrying the whole debt, written over whatever is at the address |
| `NotePools.NotePool.Transact` | programs/utxopia/src/instructions/transact.rs:243-353 | refuses a paused pool and a proof that does not verify; places outputs inline and counts now, or queues them and defers the count, or fails with no change; the laws of runs survive it; nullifiers are recorded under the tree whose root the proof names |
| `NotePools.NotePool.CheckLeaves` | programs/utxopia/src/instructions/merge_queued_leaves.rs:101-168 | accepts exactly distinct leaves queued for the active tree and sums their debt |
| `NotePools.NotePool.CloseLeaves` | programs/utxopia/src/instructions/merge_queued_leaves.rs:184-190 | closes the merged leaves |
| `NotePools.NotePool.MergeQueuedLeaves` | programs/utxopia/src/instructions/merge_queued_leaves.rs:56-193 | the three passes of a merge, or failure with no change, always when paused; the laws of runs survive it |
| `NotePools.NotePool.RotateTree` | programs/utxopia/src/instructions/rotate_tree.rs:54-131 | starts the next tree exactly when the active one is full; every earlier tree survives exactly when the index does not wrap |
| `QueueRuns.QueueLeavesIff` | programs/utxopia/src/instructions/transact.rs:281-340 | a queued spend keeps every deferred leaf accounted for if and only if its queue addresses are fresh |
| `QueueRuns.QueueCountIff` | programs/utxopia/src/instructions/transact.rs:325-333 | a queued spend keeps the nullifier counter reconcilable if and only if it writes over no debt |
| `Requeued.OutputLost` | programs/utxopia/src/state/queued_leaf.rs:31-36 | queueing one commitment twice is accepted, and one queued account is left for two spends |
| `QueueRuns.MergeLeaves` | programs/utxopia/src/instructions/merge_queued_leaves.rs:101-190 | a merge moves each merged leaf to one new index of its own tree and keeps all others accounted for |
| `QueueRuns.RotateKeepsIff` | programs/utxopia/src/instructions/rotate_tree.rs:75-131 | rotation leaves every earlier tree as it is if and only if the 32-bit tree index does not wrap |
| `QueueRuns.RunInv` | programs/utxopia/src/instructions/joinsplit_common.rs:400-506 | after every run: trees below the active one are full, every queued leaf is accounted for, no nullifier is recorded twice for a tree, the counter is exact |
| `QueueRuns.LawsIffFresh` | programs/utxopia/src/instructions/transact.rs:281-340 | over a whole run all of this holds at every moment if and only if queue addresses are fresh and the tree index never wraps |
| `QueueRuns.LandedForever` | programs/utxopia/src/instructions/merge_queued_leaves.rs:170-190 | an output placed at some moment of a run is at that index of that tree ever after |
| `QueueRuns.LandsOnce` | programs/utxopia/src/instructions/merge_queued_leaves.rs:116-190 | each queued output is still queued under its address for its tree, or at one index of that tree that no other queued output shares |
| `QueueRuns.FrozenForever` | programs/utxopia/src/instructions/rotate_tree.rs:75-131 | between any two moments of a run no leaf moves and no tree below the active one changes |
| `QueueRuns.LogGrows` | programs/utxopia/src/instructions/joinsplit_common.rs:431-452 | a spend never records a nullifier already recorded for the tree its notes are in |
| `QueueRuns.SourceIs` | programs/utxopia/src/instructions/joinsplit_common.rs:300-340 | the source tree is the active one if it accepts the root, else the named frozen one below it that does; otherwise there is none |
| `QueueRuns.SpendAcceptsIff` | programs/utxopia/src/instructions/joinsplit_common.rs:400-506 | a spend goes through exactly with up to ten notes and outputs, a root of the tree its notes are in, distinct nullifiers none of which is on record for that tree, and room for inline outputs; it records exactly those nullifiers under that tree, unscoped for tree 0 |
| `QueueRuns.UnknownRootFails` | programs/utxopia/src/instructions/joinsplit_common.rs:318-334 | a spend whose root neither the active nor the named frozen tree accepts fails |
| `QueueRuns.MergeAcceptsIff` | programs/utxopia/src/instructions/merge_queued_leaves.rs:56-168 | a merge takes exactly one to twenty-four distinct leaves queued for the active tree that fit |
| `QueueRuns.RotateAcceptsIff` | programs/utxopia/src/instructions/rotate_tree.rs:75-131 | a rotation goes through exactly when the active tree holds 65536 leaves, and opens an empty tree at the next index |
| `QueueRuns.CounterReconciles` | programs/utxopia/src/state/pool.rs:409-414 | the counter is the nullifiers recorded less the queue's debt, capped at 32 bits; below the cap counter plus debt is the number recorded |

## Left out

- Re-initialisation of the light client and its epoch stamp, and the development-only close: they start a new run.
- The submission time and last-update fields, and the height stored inside an index record, which always equals its key.
- Account plumbing: derived addresses, owners, signers, rent, cross-program calls and events. Accounts are maps keyed by their seeds.
- Groth16, Poseidon, SHA-256, secp256k1 and the BIP-341 digest. A digest is represented by the transaction it commits to; a failing Poseidon call is not modelled.
- Parsing and SPV checks of a deposit: the credited outpoint, value and tapleaf are parameters, and the per-deposit receipt is not modelled.
- SPV and confirmation checks of a completion: the mined transaction is a parameter.
- Tokens other than zkBTC, native SOL payouts and the separate ledgers they use.
- Policy approvals, exit destinations, TEE and MPC delegation, the verification-key registry and administrative setters.
- The ledger part does not hold the tree and the nullifiers: whether the tree is full and whether a join-split goes through are inputs of its instructions, and the note-tree part says when they do.
- The two 16-bit halves in which the pool stores its record count, and its deposit counter.
- `programs/equihash-bench` and `scripts/`.
- Liveness, such as every queued leaf being merged in the end.
- NotePools.NotePool: holds each tree as its leaves and superseded roots; that the in-place tree refines this value is proved of `CommitmentTrees.CommitmentTree`, not through an array inside `NotePool`.
- NotePools.NotePool.Transact: whether the Groth16 proof verifies is an input; permissioned pools and policy approvals are not modelled.
- LightClientProgram.LightClient.VerifyTransaction: does not record the re-initialisation epoch in the attestation, because re-initialisation starts a new run.
- LedgerProgram.PoolLedger.UnshieldTokens: does not model tokens other than zkBTC and native payouts, which use ledgers of their own.
- LedgerProgram.PoolLedger.CompleteDeposit: takes the credited outpoint and value as given; the SPV and script checks and the receipt are not modelled.
- LedgerProgram.PoolLedger: the error that is reported when several checks fail is not specified, only that the instruction fails.
- CommitmentTrees.CommitmentTree.InsertLeavesBatch: a batch that overruns the tree may leave leaves written before the failure, as in the program, where the runtime discards them.
- LightClientRuns.HeaviestTip: assumes path work below 2^256, as chainwork is stored in 256 bits; without it chainwork is exact modulo 2^256 (`BlockTrees.ChainworkIsPathWork`).
