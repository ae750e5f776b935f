/** pallet-vector-db: commitments, disputes, and the escrow and reputation hooks they drive. */
module Commitments {
  import opened Primitives
  import opened Merkle
  import opened Chain
  import opened Agents
  import Escrow

  type ChunkData = c: Bytes | |c| <= 1024
  type ProofHashes = p: seq<Hash> | |p| <= 32

  /** "ArthNeura-Vector-v1". */
  const VECTOR_DOMAIN: Bytes :=
    [0x41, 0x72, 0x74, 0x68, 0x4E, 0x65, 0x75, 0x72, 0x61, 0x2D, 0x56, 0x65, 0x63, 0x74, 0x6F, 0x72, 0x2D, 0x76, 0x31]

  /** What a commitment id is derived from. */
  datatype Offer = Offer(provider: Did, consumer: Did, root: Hash, block: nat)

  function OfferBytes(o: Offer): Bytes {
    VECTOR_DOMAIN + o.provider + o.consumer + o.root + LittleEndian(o.block)
  }

  function CommitmentId(cfg: Config, o: Offer): Hash {
    cfg.blake2(OfferBytes(o))
  }

  /** `effective_dispute_window`. */
  function EffectiveDisputeWindow(cfg: Config, s: State): nat {
    if s.db.windowOverride.Some? then s.db.windowOverride.value else cfg.disputeWindow
  }

  /** `controller_of(did) == caller` and `is_active_verified(did)`, with the pallet's two errors. */
  function Authorise(s: State, caller: Account, did: Did, ineligible: Error, notParty: Error): Check {
    if did !in s.registry.profiles then Fail(ineligible)
    else if s.registry.profiles[did].controller != caller then Fail(notParty)
    else if !IsActiveVerified(s.registry, did) then Fail(ineligible)
    else Pass
  }

  function RegisterCommitment(cfg: Config, s: State, caller: Account, provider: Did, consumer: Did, root: Hash,
                              total: nat, expiresIn: nat, price: nat): Result<State>
  {
    var id := CommitmentId(cfg, Offer(provider, consumer, root, s.now));
    :- Ensure(provider != consumer, SelfTrade);
    :- Ensure(total > 0, TotalChunksMustBePositive);
    :- Ensure(root != ZERO_HASH, InvalidMerkleRoot);
    :- Authorise(s, caller, provider, ProviderNotEligible, NotProvider);
    :- Ensure(IsActiveVerified(s.registry, consumer), ConsumerNotEligible);
    :- Ensure(expiresIn > 0, ExpiryMustBePositive);
    :- Ensure(expiresIn <= cfg.maxCommitmentLifetime, ExpiryTooFar);
    :- Ensure(id !in s.db.commitments, CommitmentAlreadyExists);
    var commitment := Commitment(provider, consumer, root, total, Pending, s.now,
                                 SaturatingAdd(s.now, expiresIn), None, price);
    Ok(s.(db := s.db.(commitments := s.db.commitments[id := commitment],
                      activeCommitments := SaturatingAdd(s.db.activeCommitments, 1))))
  }

  function WithCommitment(s: State, id: Hash, c: Commitment): State {
    s.(db := s.db.(commitments := s.db.commitments[id := c]))
  }

  function AcknowledgeCommitment(s: State, caller: Account, id: Hash, consumer: Did): Result<State> {
    var c :- Lookup(s.db.commitments, id, CommitmentNotFound);
    :- Ensure(c.status == Pending, NotPending);
    :- Ensure(s.now < c.expiresAt, CommitmentExpiredError);
    :- Ensure(c.consumer == consumer, NotConsumer);
    :- Authorise(s, caller, consumer, ConsumerNotEligible, NotConsumer);
    var provider :- Lookup(s.registry.profiles, c.provider, ProviderNotEligible);
    var locked :- Escrow.Lock(s, id, caller, provider.controller, c.price);
    Ok(WithCommitment(locked, id, c.(status := CommitmentStatus.Active, acknowledgedAt := Some(s.now))))
  }

  /** The three writes of `close_commitment`, made before the fallible release. */
  function Settle(s: State, id: Hash, c: Commitment, receipt: Receipt): State {
    s.(db := s.db.(receipts := s.db.receipts[id := receipt],
                   commitments := s.db.commitments[id := c.(status := Settled)],
                   activeCommitments := SaturatingSub(s.db.activeCommitments, 1)))
  }

  function CloseCommitment(s: State, caller: Account, id: Hash, consumer: Did, finalStreamHash: Hash, chunkCount: nat)
    : Result<State>
  {
    var c :- Lookup(s.db.commitments, id, CommitmentNotFound);
    :- Ensure(c.status == CommitmentStatus.Active, NotActive);
    :- Ensure(s.now < c.expiresAt, CommitmentExpiredError);
    :- Ensure(c.consumer == consumer, NotConsumer);
    :- Authorise(s, caller, consumer, ConsumerNotEligible, NotConsumer);
    :- Ensure(finalStreamHash == c.merkleRoot, StreamHashMismatch);
    Escrow.Release(Settle(s, id, c, Receipt(finalStreamHash, chunkCount, s.now)), id)
  }

  function RaiseDispute(cfg: Config, s: State, caller: Account, id: Hash, consumer: Did, index: nat, received: Hash)
    : Result<State>
  {
    var c :- Lookup(s.db.commitments, id, CommitmentNotFound);
    :- Ensure(c.status == CommitmentStatus.Active, NotActive);
    :- Ensure(c.consumer == consumer, NotConsumer);
    :- Ensure(s.now < c.expiresAt, CommitmentExpiredError);
    :- Authorise(s, caller, consumer, ConsumerNotEligible, NotConsumer);
    :- Ensure(id !in s.db.disputes, DisputeAlreadyRaised);
    :- Ensure(index < c.totalChunks, ChunkIndexOutOfBounds);
    var deadline := SaturatingAdd(s.now, EffectiveDisputeWindow(cfg, s));
    var record := DisputeRecord(c.merkleRoot, received, index, s.now, deadline, None);
    Ok(WithCommitment(s.(db := s.db.(disputes := s.db.disputes[id := record])), id, c.(status := Disputed)))
  }

  /** The writes made when a dispute gets its verdict. */
  function Resolve(s: State, id: Hash, c: Commitment, dispute: DisputeRecord, verdict: Verdict): State {
    s.(db := s.db.(disputes := s.db.disputes[id := dispute.(verdict := Some(verdict))],
                   commitments := s.db.commitments[id := c.(status := DisputeResolved)],
                   activeCommitments := SaturatingSub(s.db.activeCommitments, 1)))
  }

  /** The on-chain proof check, bound to the recorded index. */
  predicate ProofAnswers(cfg: Config, c: Commitment, dispute: DisputeRecord, chunk: Bytes, proof: seq<Hash>) {
    Verify(cfg.blake2, c.merkleRoot, AsUsize(dispute.disputedChunkIndex), cfg.blake2(chunk), AsUsize(c.totalChunks),
           proof)
  }

  function CounterDispute(cfg: Config, s: State, caller: Account, id: Hash, provider: Did, chunk: ChunkData,
                          proof: ProofHashes): Result<State>
  {
    var c :- Lookup(s.db.commitments, id, CommitmentNotFound);
    :- Ensure(c.status == Disputed, NotDisputed);
    :- Ensure(c.provider == provider, NotProvider);
    :- Authorise(s, caller, provider, ProviderNotEligible, NotProvider);
    var dispute :- Lookup(s.db.disputes, id, CommitmentNotFound);
    :- Ensure(s.now <= dispute.counterDeadline, DisputeWindowExpired);
    :- Ensure(dispute.disputedChunkIndex < c.totalChunks, ChunkIndexOutOfBounds);
    :- Ensure(ProofAnswers(cfg, c, dispute, chunk, proof), InvalidMerkleProof);
    var released :- Escrow.Release(Resolve(s, id, c, dispute, ClaimantUnsubstantiated), id);
    Ok(SlashReputation(released, c.consumer, cfg.falseDisputeSlash))
  }

  function FinalizeDispute(cfg: Config, s: State, id: Hash): Result<State> {
    var c :- Lookup(s.db.commitments, id, CommitmentNotFound);
    :- Ensure(c.status == Disputed, NotDisputed);
    var dispute :- Lookup(s.db.disputes, id, CommitmentNotFound);
    :- Ensure(s.now > dispute.counterDeadline, DisputeWindowStillOpen);
    var refunded :- Escrow.Refund(Resolve(s, id, c, dispute, ProviderGuilty), id);
    Ok(SlashForGuiltyDelivery(cfg, refunded, c.provider, cfg.providerGuiltySlash))
  }

  function ExpireCommitment(s: State, id: Hash): Result<State> {
    var c :- Lookup(s.db.commitments, id, CommitmentNotFound);
    :- Ensure(c.status == Pending || c.status == CommitmentStatus.Active, AlreadyFinalized);
    :- Ensure(s.now >= c.expiresAt, NotYetExpired);
    Ok(s.(db := s.db.(commitments := s.db.commitments - {id},
                      activeCommitments := SaturatingSub(s.db.activeCommitments, 1))))
  }
}
