# ArthNeura court: a Dafny model

ArthNeura's chain settles data deals between agents that do not trust each
other. A provider anchors the Merkle root of a payload, a consumer locks the
price in escrow, and the deal ends in one of four ways: settled, answered
dispute, lost dispute, or expiry. Three pallets take part (the commitment and
dispute machine, the escrow ledger, the agent registry), joined by small
adapters in the runtime; the provider's client cuts the payload into chunks,
keeps them on disk, and rebuilds proofs from them.

This project models the three pallets over their shared currency as one
transactional state machine, adds the client's chunking, storage and Merkle
path, and proves what holds over every run of the whole.

## How it is laid out

| file | content |
|---|---|
| Primitives, Sums | bytes, hashes, `u32` saturation; sums over maps and sequences |
| Merkle, Chunking, ChunkStore | the client side and the proof check both sides share |
| Chain | the storage of all pallets as one value, symbolic constants, errors |
| Currency, Escrow, Agents, Commitments | each pallet's operations on that value, with the source's guards in the source's order |
| Runtime, Operation | the same operations as a class that updates storage items in place, with rollback on failure; every method is proved against the function of the same name above, and `Operation` states the main results for an object of this class |
| Runs | calls, dispatch, runs from genesis, and the notes an observer keeps (`History`) |
| Effects | what each successful call needed and leaves behind |
| Deals | the abstract deal automaton, the simulation, commitment ids |
| Settlement, Exits, Disputes, Lifecycle | funded deals, recorded outcomes, frozen records, which funds can still move, verdicts, deadlines, liveness, revocation, call budget |
| Money, Payouts, Strikes, Stars, Reputation, Population | conservation, reserve backing, what payouts pay, slashes, stars, scores and suspension, index and counters |
| Admission | exactly when each call succeeds, and what each refusal says |
| Delivery | the client's path and the chain's verdict, end to end |
| Limits, Shortfall, Absence | where the code stops short of its own comments: exact conditions, and runs from genesis that show it |

A run is any list of calls from any genesis; a failed call leaves the state as
it was. `History` is computed by an observer from the state before a call, the
call, and the state after it: it is not part of the storage, and no operation
reads it. A FRAME pallet is a namespace of functions over global storage, so
the storage of the three pallets is one class, not three.

## Assumptions

- `blake2_256` is an uninterpreted function. Nothing assumes it injective.
  Binding results hand over an explicit collision. That the id preimages
  hashed in the run at hand do not collide (`Deals.Sound`) is assumed only
  where the claim is that no two deals share an id: the deal automaton in
  `Deals`, with its account of offered, lapsed and stranded ids, and the
  clauses that an acknowledged id has no escrow yet. The rest holds with
  colliding ids too: which records and funds a running, settled or disputed
  deal has (`Settlement.OpenDealsAreFunded`, `Settlement.OutcomesAreRecorded`),
  verdicts, deadlines, and when calls succeed.
- `rs_merkle` is not part of this repository. Its tree and single-leaf proof
  are modelled as the level-by-level fold that the repository's hasher
  implies: pairs are hashed left before right, an unpaired last node is
  promoted, siblings are listed bottom up. A proof that is too short is
  rejected; surplus hashes are not read, so the binding results also cover a
  verifier that is stricter about length. When a chunk count truncates to zero
  leaves, the model accepts the root itself as the only leaf, as it does for
  one leaf; the library may reject it. Counts below 2^32 do not get there.
- The currency is pallet-balances reduced to free and reserved balances: an
  account exists while it has an entry, `reserve` is all or nothing, every
  other operation on reserved funds is best effort, and `repatriate_reserved`
  fails for a payee that does not exist. Two environment steps, a transfer of
  free balance and the reaping of an emptied account, may occur anywhere in a
  run. Balances are unbounded, since total issuance fits a `u128`.
- Block numbers are `u32` and additions on them saturate, as in the source.
  `as usize` truncates to 32 bits, as on the wasm32 runtime.
- A directory rename follows POSIX: it fails when the source is missing or the
  target holds files.

Where the source and its documentation disagree, the model follows the code:
escrow does move money (`pallets/pallet-vector-db/README.md:98` says it does
not), removing a star clears the cooldown
(`pallets/pallet-agent-registry/src/lib.rs:562` says it is preserved), and a
deregistered agent's deposit comes back only as far as the reserve reaches
(`pallets/pallet-agent-registry/src/lib.rs:621` says in full;
`Shortfall.DepositsAreWholeIff` says for which constants that is so).

## Model

| member | source | states |
|---|---|---|
| Merkle.SmallTrees | pallets/pallet-vector-db/src/lib.rs:35-45 | Trees of one, two and three leaves: left is hashed before right, an unpaired node is promoted unhashed, siblings are listed bottom up |
| Merkle.RootSplits | pallets/pallet-vector-db/src/lib.rs:35-45 | For every leaf list: the first power of two leaves that leave at most as many over form the left subtree, and the root is the hash of left root before right root; with single leaves this fixes every root |
| Merkle.BuiltRootSplits | offchain-vector-db/src/merkle.rs:61-70 | The same for chunk lists, a leaf being the hash of its chunk |
| Merkle.ProofReachesRoot | offchain-vector-db/src/merkle.rs:65-78 | For every non-empty leaf list and index, folding the generated proof, with any surplus behind it, gives the tree's root |
| Merkle.ProofDepth | pallets/pallet-vector-db/src/lib.rs:141 | A tree of at most 2^k leaves needs at most k siblings |
| Merkle.HonestProofVerifies | offchain-vector-db/src/merkle.rs:65-78 | For every chunk list and index the generated proof verifies against the built root, and fits 32 hashes up to 2^32 chunks |
| Merkle.PositionBinding | pallets/pallet-vector-db/src/lib.rs:820-836 | For any root, index and leaf count, two different accepted leaf hashes yield a computed collision of two 64-byte node preimages |
| Merkle.ChunkBinding | pallets/pallet-vector-db/src/lib.rs:820-836 | Two different chunks accepted for one root and index yield a computed hash collision |
| Merkle.HonestRootAcceptsOnlyItsChunk | pallets/pallet-vector-db/src/lib.rs:767-774 | Against an honestly built root only the committed chunk passes at its index, or a collision is at hand |
| Chunking.ByteChunksFaithful | offchain-vector-db/src/lib.rs:164-166 | Byte chunks concatenate to the payload, number ceil(len/1024), are 1 to 1024 long, and are full except the last |
| Chunking.JoinUndoesSplit | offchain-vector-db/src/lib.rs:146 | Lines contain no LF and join back to the payload |
| Chunking.SplitUndoesJoin | offchain-vector-db/src/lib.rs:146 | Any LF-free lines, joined and split, come back: the split is the only possible one |
| Chunking.SplitRows | offchain-vector-db/src/lib.rs:144-163 | The row loop returns what row mode means: nothing when a row is over 1024 bytes or none is left, else the rows in order |
| Chunking.TextIsReadByRows | offchain-vector-db/src/lib.rs:144-163 | On any text, lines ended by LF or CR LF and blank lines anywhere: refused iff some row is over 1024 bytes or there is no row, else exactly the rows |
| Chunking.EveryPayloadIsText | offchain-vector-db/src/lib.rs:144-163 | Every payload is such a text |
| Chunking.RowsAreProper | offchain-vector-db/src/lib.rs:152-162 | Row mode yields at least one row, each 1 to 1024 bytes and free of LF |
| Chunking.RowsRoundTrip | offchain-vector-db/src/lib.rs:144-163 | Proper rows printed with CR LF and chunked again are the same rows |
| Chunking.RechunkingIsStable | offchain-vector-db/src/lib.rs:144-163 | Re-chunking the printed rows of any payload returns those rows |
| Chunking.ModesDiffer | offchain-vector-db/src/lib.rs:139-168 | Byte mode cuts the payload itself and refuses only the empty one; row mode gives the rows of its text, or refuses |
| Chunking.ChunkedIsWellChunked | offchain-vector-db/src/lib.rs:139-168 | In both modes a payload that is not refused gives a non-empty list of chunks within the on-chain bound |
| ChunkStore.FsChunkStore.Persist | offchain-vector-db/src/lib.rs:68-75 | Writes every chunk under its index, keeps stale files with larger indices, touches no other directory |
| ChunkStore.OverlaidKeeps | offchain-vector-db/src/lib.rs:68-75 | Files beyond the chunks written stay as they were, and no others appear |
| ChunkStore.FsChunkStore.Rekey | offchain-vector-db/src/lib.rs:85-87 | Moves a directory, or changes nothing and reports failure |
| ChunkStore.FsChunkStore.Stage | offchain-vector-db/src/lib.rs:136-173 | Refuses exactly oversized metadata and the payloads with no chunking, and then stores nothing; otherwise reports root and count of the chunks it staged |
| ChunkStore.FsChunkStore.CounterDispute | offchain-vector-db/src/lib.rs:549-566 | Returns the chunk on disk at the index with a proof that verifies against the root of all chunks on disk, within both on-chain bounds; refuses exactly an index out of range, a missing file or an oversized chunk, and a deep proof only beyond 2^32 chunks |
| ChunkStore.LoadedAllReads | offchain-vector-db/src/lib.rs:527-533 | Loading all chunks succeeds if and only if every file is there, and reads each under its index |
| ChunkStore.LoadedAllIs | offchain-vector-db/src/lib.rs:527-533 | Loading all chunks returns them in positional order when every one is on disk |
| ChunkStore.StagedChunksComeBack | offchain-vector-db/src/lib.rs:65-88 | Chunks staged under one id and promoted to another load back unchanged whatever stale files were there; promotion fails exactly when the other directory holds files; other directories are untouched |
| ChunkStore.FilesStay | offchain-vector-db/src/lib.rs:65-88 | Promoted files stay as they are through any later stagings and promotions of payloads that do not hash to their id |
| ChunkStore.PromotionSucceeds | offchain-vector-db/src/lib.rs:173-217 | Promotion succeeds and carries the staged files over, whatever other work ran while the registration was in flight, as long as none used the staging directory or took the id |
| ChunkStore.SharedStagingIsLost | offchain-vector-db/src/lib.rs:170-217 | Why the staging directory must be left alone: two registrations of one payload in flight share it, and the second promotion fails |
| ChunkStore.StagedPayloadAnswersEveryDispute | offchain-vector-db/src/lib.rs:553-566 | Any payload of fewer than 2^32 chunks, staged and promoted, answers every index with its own chunk and arguments within 1024 bytes and 32 hashes that verify against the submitted root, with such other work between staging and promotion and any work on other payload hashes after it |
| Runtime.Runtime.constructor | pallets/pallet-vector-db/src/lib.rs:372-379 | The storage is the opening state of a run with the given balances and dispute window override |
| Runtime.Runtime.Dispatch | pallets/pallet-vector-db/src/lib.rs:651-665 | A failed call leaves every storage item as it was, although some were already written |
| Runtime.Runtime.Replay | pallets/pallet-vector-db/src/lib.rs:457-949 | Feeding any list of calls to the in-place runtime leaves it where the run of those calls is |
| Operation.Operate | pallets/pallet-vector-db/src/lib.rs:457-949 | An object built at genesis and fed any calls: balances plus reported slashes equal the endowments, every reserve is short of deposits and open escrows by at most the reports naming the account, every open deal has its funds locked, and any signer can finalise a dispute if and only if its deadline has passed |
| Operation.RunBalances | pallets/pallet-agent-registry/src/lib.rs:709-719 | From any state and over any calls, all balances plus all reported slash amounts are constant |
| Effects.StepHasEffect | pallets/pallet-vector-db/src/lib.rs:457-949 | For every call: which records, dates and parties in good standing it needed, and what commitments, disputes, receipts, escrows, the clock and the slash reports become |
| Effects.StepEvolves | pallets/pallet-agent-registry/src/lib.rs:70-72 | No call changes a profile's controller or block, revives a revoked profile, or removes one |
| Deals.StepSimulates | pallets/pallet-vector-db/src/lib.rs:165-173 | One step of the three pallets is a move of the deal automaton and keeps escrow, receipt and dispute record in agreement with it |
| Deals.RunsSimulateTheAutomaton | pallets/pallet-vector-db/src/lib.rs:165-173 | In every run every call moves every deal along the automaton |
| Deals.RecordsAgree | pallets/pallet-vector-db/src/lib.rs:590-600 | Without id collisions the abstract deal accounts for every record: beyond what holds unconditionally, no escrow for an offered or lapsed id, and Locked iff running, disputed or expired while running |
| Deals.OfferBytesInjective | pallets/pallet-vector-db/src/lib.rs:510-517 | The id preimage determines provider, consumer, root and block |
| Deals.IdPreimage | pallets/pallet-vector-db/src/lib.rs:510-517 | The id is the hash of the spelled-out tag, provider, consumer, root, and the block in four bytes, least significant first |
| Agents.DidPreimage | pallets/pallet-agent-registry/src/lib.rs:345-349 | A DID is the hash of the spelled-out tag and the key |
| Deals.IdsNeverReused | pallets/pallet-vector-db/src/lib.rs:519-522 | Before the clock's last block, a registration never repeats an id of the run, even one whose record has expired |
| Settlement.EscrowsAreOneShot | pallets/pallet-escrow/src/lib.rs:128-134 | After any continuation every escrow record is still there with its parties and amount, and is unchanged once funds moved |
| Settlement.OpenDealsAreFunded | pallets/pallet-vector-db/src/lib.rs:590-600 | In every reachable state, colliding ids or not: a running or disputed deal has a locked escrow, a dispute record exists iff the deal is disputed or resolved, its index is in bounds, and `Expired` is never stored |
| Settlement.OutcomesAreRecorded | pallets/pallet-vector-db/src/lib.rs:651-665 | In every reachable state, colliding ids or not: a receipt iff settled, with the committed root; Released iff settled or answered; Refunded iff the provider lost; a dispute record carries the committed root, and has no verdict iff the deal is disputed |
| Settlement.StrandedFundsNeverMove | pallets/pallet-vector-db/src/lib.rs:942-946 | An escrow whose deal expired while running stays locked, unchanged, in every continuation, even if its id is handed out again |
| Settlement.LapsedDealsLockTheEscrow | pallets/pallet-vector-db/src/lib.rs:626-646 | Once the consumer of a running deal is revoked, or its last block has passed, its escrow stays locked, unchanged, in every continuation, expired by a call or not |
| Exits.LockedFundsCanMoveIff | pallets/pallet-vector-db/src/lib.rs:200-203 | In every reachable state some continuation releases or refunds a locked escrow if and only if its deal is disputed, or runs before its last block for a consumer not revoked; given, for a dispute, a deadline before the clock's end, and for a running deal someone to act for the consumer and the payee's account or time for a dispute |
| Settlement.PartiesAreFrozen | pallets/pallet-vector-db/src/lib.rs:594-596 | In every reachable state an escrow names the acknowledging account and the provider's controller of that moment |
| Settlement.ReleasePaysTheNotedPayee | pallets/pallet-escrow/src/lib.rs:234-244 | A payout moves what the payer's reserve reaches to the payee noted at acknowledgement and changes no other balance |
| Settlement.RefundPaysTheNotedPayer | pallets/pallet-escrow/src/lib.rs:266-270 | A refund returns what the reserve reaches to the account that acknowledged; only the guilty provider's controller can lose anything |
| Settlement.DealsAreIndependent | pallets/pallet-vector-db/src/lib.rs:336-353 | A call leaves every record of every deal it does not name as it was |
| Settlement.StaleRecordErrorsUnreachable | pallets/pallet-vector-db/src/lib.rs:718-721 | In reachable states no call fails because of a stale or missing escrow or dispute record; a used escrow id can only stop an acknowledgement, and only with colliding ids |
| Settlement.FinalizeSucceedsIff | pallets/pallet-vector-db/src/lib.rs:65-73 | Any signer's finalize succeeds if and only if the deal is disputed and its deadline has passed: the refund cannot fail |
| Disputes.VerdictsStand | pallets/pallet-vector-db/src/lib.rs:838-840 | No continuation of a run removes or replaces a dispute record or changes a verdict |
| Disputes.VerdictsKeepTheWindow | pallets/pallet-vector-db/src/lib.rs:329-331 | With the window of the genesis override, or of the runtime's constant where there is none: a dispute is recorded with its block and the full window, guilty falls only after it, an answer only within it, and a disputed commitment is never expired |
| Disputes.NoStuckDeal | pallets/pallet-vector-db/src/lib.rs:857-864 | Once maximal lifetime and one window have passed, any signer can retire a commitment if and only if it is undecided |
| Disputes.RevocationDecidesDisputes | pallets/pallet-vector-db/src/lib.rs:798-801 | From any state where a disputed deal's provider is revoked, every continuation leaves it open or ends guilty and refunded |
| Lifecycle.StepSpendsPotential | pallets/pallet-vector-db/src/lib.rs:165-173 | Every successful call on a commitment strictly lowers the moves it has left; registering adds three |
| Lifecycle.ProgressIsBounded | pallets/pallet-vector-db/src/lib.rs:457-949 | In any run, successful calls on commitments number at most three times the registrations |
| Money.MoneyIsConserved | pallets/pallet-escrow/src/lib.rs:188-279 | Over every run, all free and reserved balances plus what was burned equal the genesis issuance |
| Money.ReservesBackObligations | pallets/pallet-escrow/src/lib.rs:188-279 | Over every run and for every account, deposits plus open escrows exceed the reserve by at least zero and at most what was burned from it |
| Money.UnslashedIsExactlyBacked | pallets/pallet-agent-registry/src/lib.rs:396-400 | An account no slash reached holds in reserve exactly its deposits and open escrows |
| Payouts.ClosingPaysUpToBurns | pallets/pallet-escrow/src/lib.rs:224-279 | A settlement or an answered dispute pays the noted payee, a lost dispute the noted payer, and nobody else's free balance changes; the sum is the agreed price, short by at most what was burned from the payer |
| Payouts.DeregisteringPaysUpToBurns | pallets/pallet-agent-registry/src/lib.rs:621-622 | Deregistering in a reachable state returns the deposit, short by at most what was burned from the controller |
| Payouts.ControllersCanBePaid | pallets/pallet-escrow/src/lib.rs:234-244 | In every reachable state a payee that controls a DID and lost less than a deposit to slashes has an account, so no release to it fails |
| Strikes.StrikeArithmetic | pallets/pallet-agent-registry/src/lib.rs:687-720 | Over every run, guilty verdicts that found a DID registered are the threshold times its slashes plus its strikes, and strikes stay below the threshold |
| Strikes.ReportsAreExact | pallets/pallet-agent-registry/src/lib.rs:709-719 | The amount in a slash report is what left the controller's reserve |
| Strikes.BurnsAreReported | pallets/pallet-agent-registry/src/lib.rs:275-281 | Over every run, an account's losses to guilty verdicts are the sum of the reports naming it |
| Strikes.FreeStrikesBurnNothing | pallets/pallet-agent-registry/src/lib.rs:709-719 | Where a strike costs nothing, no run burns anything |
| Stars.ReputationCeiling | pallets/pallet-agent-registry/src/lib.rs:545-550 | Over every run, a score is at most the stars given and not taken back, over all givers |
| Stars.StarPace | pallets/pallet-agent-registry/src/lib.rs:534-541 | Before the clock's last block, each giver's net stars with a receiver are between zero and one plus elapsed cooldowns since the first |
| Stars.ReputationNeedsTime | pallets/pallet-agent-registry/src/lib.rs:534-550 | A score is bounded by one star per giver plus one per cooldown since that giver's first |
| Stars.CooldownIsReal | pallets/pallet-agent-registry/src/lib.rs:536-541 | The saturating cooldown test passes if and only if there is no star, the full cooldown is over, or the clock is at its last block |
| Reputation.StepMovesScores | runtime/src/adapters/reputation_handler.rs:24-39 | Every score after every call: a star adds one, its removal takes one, an answered dispute costs the consumer the false-dispute slash, a lost one the provider the guilty slash, none below zero; everything else leaves it, and new agents start at zero |
| Reputation.ScoresFit | pallets/pallet-agent-registry/src/lib.rs:545-550 | Scores fit a `u32` in every reachable state |
| Reputation.SuspensionStopsDealing | runtime/src/adapters/agent_registry.rs:30-34 | After a suspension every offer by or to the agent and every acknowledgement, settlement, dispute or answer in its name fails, through any calls that do not set its status or deregister it |
| Population.IndexEqualsScan | pallets/pallet-agent-registry/src/lib.rs:219-224 | In every reachable state an account's index lists exactly the DIDs whose profile names it, once each, at most 64 |
| Population.StarAuthorityIsControl | pallets/pallet-agent-registry/src/lib.rs:501-503 | The index test of the star calls fails if and only if the profile names another controller |
| Population.CountersExactIff | pallets/pallet-agent-registry/src/lib.rs:226-229 | Throughout a run both counters equal the cardinalities they stand for if and only if those always fit a `u32` |
| Delivery.ValidProofSettles | pallets/pallet-vector-db/src/lib.rs:820-848 | In reachable states, with a valid proof at the recorded index the counter succeeds, and pays out, if and only if the payee's account exists |
| Delivery.SettlementSucceedsIff | pallets/pallet-vector-db/src/lib.rs:622-665 | In reachable states closing succeeds if and only if the deal runs unexpired, the caller controls its consumer, which is active and verified, the hash matches and the payee's account exists |
| Delivery.AcknowledgementSucceedsIff | pallets/pallet-vector-db/src/lib.rs:566-596 | In reachable states acknowledging succeeds if and only if the offer is live, the caller controls the consumer, which is active and verified, the provider is registered, the price is free and the id has no escrow; the last always holds unless ids collide |
| Delivery.ReachedDerivesIds | pallets/pallet-vector-db/src/lib.rs:507-522 | In every reachable state a commitment lies under the hash of its own provider, consumer, root and block |
| Delivery.DisputedIsAsRegistered | pallets/pallet-vector-db/src/lib.rs:507-553 | A deal disputed under the id a registration reported has that registration's terms, or two id preimages collide |
| Delivery.HonestProviderWins | offchain-vector-db/src/lib.rs:535-566 | A payload chunked, staged, registered and promoted answers any later dispute of that registration's deal within the on-chain bounds, and the verdict and payout follow unless the payee's account is gone; or a collision is named. Any calls may come between registration and answer, and any other use of the store between staging and answer, except: in flight, the same payload or a promotion to the id; at any time, the id's own preimage as a payload |
| Delivery.StagingThePreimageSpoilsChunkZero | offchain-vector-db/src/lib.rs:68-75 | Why the preimage is excluded: staging the 119-byte preimage of an id puts it in place of chunk zero, and an answer built from disk submits it |
| Delivery.SpoiledAnswerFails | pallets/pallet-vector-db/src/lib.rs:820-836 | The chain refuses that answer to a dispute over chunk zero, unless the chunk was the preimage, or a collision is at hand |
| Delivery.OnlyTheAnchoredChunkAnswers | pallets/pallet-vector-db/src/lib.rs:769-774 | A counter that succeeds on an honestly anchored commitment submitted the anchored chunk, or a collision |
| Delivery.DisputesBindOneChunk | pallets/pallet-vector-db/src/lib.rs:264-270 | Whatever root was anchored, two different chunks that could answer one dispute yield a collision |
| Admission.RegisterAgentSucceedsIff | pallets/pallet-agent-registry/src/lib.rs:333-425 | In reachable states: the key is new and 1952 bytes long, its proof accepted and at most 64 blocks old, the caller controls fewer than 64 agents and can pay the deposit |
| Admission.RegisterAgentEffect | pallets/pallet-agent-registry/src/lib.rs:396-425 | The new profile is active, verified, of score zero, of this block and this controller; the deposit is reserved; all else is as it was |
| Admission.SetAgentStatusSucceedsIff | pallets/pallet-agent-registry/src/lib.rs:465-490 | The caller is the controller and the agent is not revoked; only its status and the counter change |
| Admission.GiveStarSucceedsIff | pallets/pallet-agent-registry/src/lib.rs:497-559 | In reachable states: the caller controls the giver, the receiver is registered, not revoked and of another controller, and the cooldown is over, never began, or the clock is at its end |
| Admission.RemoveStarSucceedsIff | pallets/pallet-agent-registry/src/lib.rs:566-598 | In reachable states: the caller controls the giver, a star is on the ledger and the receiver is registered |
| Admission.DeregisterSucceedsIff | pallets/pallet-agent-registry/src/lib.rs:605-640 | The caller is the controller and the agent is not revoked; exactly its profile disappears, and stars and strikes stay |
| Admission.RegisterCommitmentSucceedsIff | pallets/pallet-vector-db/src/lib.rs:465-553 | The caller controls the provider, both parties are active and verified and differ, count, root and lifetime are in range, and the id is unused |
| Admission.RaiseDisputeSucceedsIff | pallets/pallet-vector-db/src/lib.rs:684-765 | In reachable states: the deal runs unexpired, the caller controls its consumer, which is active and verified, and the index is in range |
| Admission.CounterDisputeSucceedsIff | pallets/pallet-vector-db/src/lib.rs:777-855 | In reachable states: the deal is disputed within its deadline, the caller controls its provider, which is active and verified, the proof holds for the recorded chunk, and the payee exists |
| Admission.ExpireSucceedsIff | pallets/pallet-vector-db/src/lib.rs:917-948 | The deal is offered or running and its expiry block is reached |
| Admission.RegistryRefusalsAreTrue | pallets/pallet-agent-registry/src/lib.rs:284-320 | Every error of a registry call states a fact about the call and the state |
| Admission.OfferRefusalsAreTrue | pallets/pallet-vector-db/src/lib.rs:465-553 | Every error of an offer states a fact |
| Admission.ConsumerRefusalsAreTrue | pallets/pallet-vector-db/src/lib.rs:561-765 | In reachable states every error of an acknowledgement, a settlement or a dispute states a fact |
| Admission.EndingRefusalsAreTrue | pallets/pallet-vector-db/src/lib.rs:777-948 | In reachable states every error of an answer, a verdict or an expiry states a fact |
| Limits.ReleasePaysInFullIff | pallets/pallet-escrow/src/lib.rs:234-239 | A release pays in full if and only if the payer's reserve covers the amount |
| Limits.DepositReturnsInFullIff | pallets/pallet-agent-registry/src/lib.rs:621-622 | Deregistering returns the whole deposit if and only if the controller's reserve covers it |
| Shortfall.DepositReturnedShort | pallets/pallet-agent-registry/src/lib.rs:621-622 | For any constants: a run from genesis of as many unanswered disputes as the strike threshold, after which deregistering returns the deposit less one slash |
| Shortfall.DepositsAreWholeIff | pallets/pallet-agent-registry/src/lib.rs:621-622 | Every deregistration of every run returns the whole deposit if and only if strikes or deposits cost nothing |
| Shortfall.PaidShort | pallets/pallet-escrow/src/lib.rs:234-251 | For any constants: a run in which the slashed consumer disputes its purchase and deregisters, and the provider's valid answer releases the escrow and pays nothing |
| Shortfall.PayoutsAreWholeIff | pallets/pallet-escrow/src/lib.rs:234-251 | Every settlement and answered dispute of every run pays the whole escrow if and only if strikes cost nothing |
| Shortfall.DeployedFallsShort | runtime/src/configs/mod.rs:169-215 | The deployed constants (deposit 100, slash 10, threshold 10) admit both runs, shown with a stand-in hash: some deposit comes back short and some answer goes unpaid |
| Shortfall.FundsCanBeStranded | pallets/pallet-vector-db/src/lib.rs:942-946 | For any price: a run from genesis that expires a running deal and leaves its price locked |
| Absence.PayeeCanBeGone | pallets/pallet-vector-db/src/lib.rs:838-848 | For any price: a run in which the payee's account deregisters the provider, empties itself and is reaped, and the provider's next controller answers in time with a valid proof and fails for lack of a payee |
| Limits.LastBlockHasNoCooldown | pallets/pallet-agent-registry/src/lib.rs:536-541 | At block 2^32 - 1 a star that can be given can be given again at once |
| Limits.LastBlockReusesIds | pallets/pallet-vector-db/src/lib.rs:507-522 | At block 2^32 - 1 an offer can be expired and made again under the same id at once |

## Left out

- Effects.StepHasEffect: leaves balances open, and the registry for the registry's own calls; those are in Settlement.ReleasePaysTheNotedPayee, Settlement.RefundPaysTheNotedPayer, Payouts, Money, Admission, Reputation, Stars and Population.
- Shortfall and Absence: the runs start from a genesis with a dispute window of zero blocks, which the genesis configuration allows, and need a strike threshold below 2^32 - 2 and a positive maximal lifetime; all other constants are arbitrary.
- ML-DSA-65 verification and BLAKE2: foreign libraries; the first is the parameter `SignatureCheck`, the second an uninterpreted function.
- `rs_merkle` internals: see the assumptions above.
- Events other than the deposit-slash report, weights, metadata, labels, capabilities and `update_profile`: they would only add easy members.
- Existential deposit, transaction fees, sudo and root balance calls: outside this repository's logic.
- File-system failures other than a missing or occupied directory: `FsChunkStore` is a map from ids to directories.
- `slice_file_into_chunks`: depends on how the operating system splits reads, and the client path does not use it.
- The subxt clients, event decoding, keystore, HTTP door, command-line tools, node service, RPC and genesis presets: input and output around the logic modelled here.
