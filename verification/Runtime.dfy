/**
 The runtime as the source writes it: storage items updated in place, guards
 with early returns, hooks that mutate other pallets' storage, and a storage
 layer that rolls a failed call back.
 */
module Runtime {
  import opened Primitives
  import opened Chain
  import opened Agents
  import opened Commitments
  import Currency
  import Effects
  import Escrow
  import Runs

  /** A method did what `spec` says: its state on success, its error on failure. */
  ghost predicate Follows(spec: Result<State>, r: Result<()>, after: State) {
    if spec.Ok? then r.Ok? && after == spec.value else r == Err(spec.error)
  }

  class Runtime {
    const cfg: Config

    // frame_system
    var blockNumber: nat
    var depositSlashed: seq<DepositSlashed>
    // pallet_balances
    var accounts: Balances
    // pallet_agent_registry
    var agentProfiles: map<Did, Profile>
    var controllerAgents: map<Account, seq<Did>>
    var activeAgentCount: nat
    var starGivers: map<(Did, Did), nat>
    var disputeStrikes: map<Did, nat>
    // pallet_escrow
    var escrows: map<Hash, EscrowRecord>
    // pallet_vector_db
    var vectorCommitments: map<Hash, Commitment>
    var activeCommitmentCount: nat
    var streamReceipts: map<Hash, Receipt>
    var disputeRecords: map<Hash, DisputeRecord>
    const disputeWindowOverride: Option<nat>

    function Snapshot(): State
      reads this
    {
      State(blockNumber, accounts,
            Registry(agentProfiles, controllerAgents, activeAgentCount, starGivers, disputeStrikes),
            escrows,
            VectorDb(vectorCommitments, activeCommitmentCount, streamReceipts, disputeRecords, disputeWindowOverride),
            depositSlashed)
    }

    constructor (cfg: Config, balances: Balances, window: Option<nat>)
      ensures this.cfg == cfg && Snapshot() == Runs.Opening(balances, window)
    {
      this.cfg := cfg;
      blockNumber, depositSlashed, accounts := 1, [], balances;
      agentProfiles, controllerAgents, activeAgentCount := map[], map[], 0;
      starGivers, disputeStrikes, escrows := map[], map[], map[];
      vectorCommitments, activeCommitmentCount, streamReceipts, disputeRecords := map[], 0, map[], map[];
      disputeWindowOverride := window;
    }

    // --------------------------------------------------------------- pallet_escrow

    method Lock(id: Hash, payer: Account, payee: Account, amount: nat) returns (r: Result<()>)
      modifies this
      ensures Follows(Escrow.Lock(old(Snapshot()), id, payer, payee, amount), r, Snapshot())
    {
      if id in escrows {
        return Err(EscrowAlreadyExists);
      }
      var reserved := Currency.Reserve(accounts, payer, amount);
      if reserved.Err? {
        return Err(InsufficientBalanceForEscrow);
      }
      accounts := reserved.value;
      escrows := escrows[id := EscrowRecord(payer, payee, amount, Locked, blockNumber)];
      return Ok(());
    }

    method Release(id: Hash) returns (r: Result<()>)
      modifies this
      ensures Follows(Escrow.Release(old(Snapshot()), id), r, Snapshot())
    {
      if id !in escrows {
        return Err(EscrowNotFound);
      }
      var record := escrows[id];
      if record.status != Locked {
        return Err(EscrowNotLocked);
      }
      var moved := Currency.Repatriate(accounts, record.payer, record.payee, record.amount);
      if moved.Err? {
        return Err(moved.error);
      }
      accounts := moved.value;
      record := record.(status := Released);
      escrows := escrows[id := record];
      return Ok(());
    }

    method Refund(id: Hash) returns (r: Result<()>)
      modifies this
      ensures Follows(Escrow.Refund(old(Snapshot()), id), r, Snapshot())
    {
      if id !in escrows {
        return Err(EscrowNotFound);
      }
      var record := escrows[id];
      if record.status != Locked {
        return Err(EscrowNotLocked);
      }
      accounts := Currency.Unreserve(accounts, record.payer, record.amount);
      record := record.(status := Refunded);
      escrows := escrows[id := record];
      return Ok(());
    }

    // ------------------------------------------------------- pallet_agent_registry

    method RegisterAgent(caller: Account, pubkey: Bytes, signedAt: nat, check: SignatureCheck) returns (r: Result<()>)
      modifies this
      ensures Follows(Agents.RegisterAgent(cfg, old(Snapshot()), caller, pubkey, signedAt, check), r, Snapshot())
    {
      hide DidOf;
      var did := DidOf(cfg, pubkey);
      if did in agentProfiles {
        return Err(DidAlreadyRegistered);
      }
      var dids := if caller in controllerAgents then controllerAgents[caller] else [];
      if |dids| >= MAX_AGENTS {
        return Err(TooManyAgentsForController);
      }
      if signedAt > blockNumber {
        return Err(InvalidChallengeBlock);
      }
      if SaturatingSub(blockNumber, signedAt) > REPLAY_WINDOW {
        return Err(ChallengeExpired);
      }
      if |pubkey| != MAX_PUBKEY_LEN || check == KeyRejected {
        return Err(InvalidPubkeyLength);
      }
      if check == SignatureRejected {
        return Err(InvalidSignatureLength);
      }
      if check != ProofAccepted {
        return Err(InvalidQuantumProof);
      }
      var reserved := Currency.Reserve(accounts, caller, cfg.registrationDeposit);
      if reserved.Err? {
        return Err(InsufficientBalanceForDeposit);
      }
      accounts := reserved.value;
      agentProfiles := agentProfiles[did := Profile(caller, 0, AgentStatus.Active, blockNumber, true)];
      var pushed := if caller in controllerAgents then controllerAgents[caller] else [];
      if |pushed| >= MAX_AGENTS {
        assert false; // the list read again for the bounded push is still the one checked above
      }
      controllerAgents := controllerAgents[caller := pushed + [did]];
      activeAgentCount := SaturatingAdd(activeAgentCount, 1);
      return Ok(());
    }

    method SetAgentStatus(caller: Account, did: Did, status: AgentStatus) returns (r: Result<()>)
      modifies this
      ensures Follows(Agents.SetAgentStatus(old(Snapshot()), caller, did, status), r, Snapshot())
    {
      if did !in agentProfiles {
        return Err(DidNotFound);
      }
      var profile := agentProfiles[did];
      if profile.controller != caller {
        return Err(NotController);
      }
      if profile.status == Revoked {
        return Err(AgentRevoked);
      }
      profile := profile.(status := status);
      agentProfiles := agentProfiles[did := profile];
      if status == Revoked {
        activeAgentCount := SaturatingSub(activeAgentCount, 1);
      }
      return Ok(());
    }

    method GiveStar(caller: Account, giver: Did, receiver: Did) returns (r: Result<()>)
      modifies this
      ensures Follows(Agents.GiveStar(cfg, old(Snapshot()), caller, giver, receiver), r, Snapshot())
    {
      var dids := if caller in controllerAgents then controllerAgents[caller] else [];
      if giver !in dids {
        return Err(NotController);
      }
      if giver == receiver {
        return Err(CannotStarSelf);
      }
      if receiver !in agentProfiles {
        return Err(DidNotFound);
      }
      var profile := agentProfiles[receiver];
      if profile.status == Revoked {
        return Err(AgentRevoked);
      }
      if profile.controller == caller {
        return Err(CannotStarSameController);
      }
      var last := if (giver, receiver) in starGivers then starGivers[(giver, receiver)] else 0;
      if last > 0 {
        if blockNumber < SaturatingAdd(last, cfg.starCooldown) {
          return Err(CooldownNotExpired);
        }
      }
      starGivers := starGivers[(giver, receiver) := blockNumber];
      profile := profile.(score := SaturatingAdd(profile.score, 1));
      agentProfiles := agentProfiles[receiver := profile];
      return Ok(());
    }

    method RemoveStar(caller: Account, giver: Did, receiver: Did) returns (r: Result<()>)
      modifies this
      ensures Follows(Agents.RemoveStar(old(Snapshot()), caller, giver, receiver), r, Snapshot())
    {
      var dids := if caller in controllerAgents then controllerAgents[caller] else [];
      if giver !in dids {
        return Err(NotController);
      }
      var last := if (giver, receiver) in starGivers then starGivers[(giver, receiver)] else 0;
      if last == 0 {
        return Err(NotStarred);
      }
      starGivers := starGivers[(giver, receiver) := 0];
      if receiver !in agentProfiles {
        return Err(DidNotFound);
      }
      var profile := agentProfiles[receiver];
      profile := profile.(score := SaturatingSub(profile.score, 1));
      agentProfiles := agentProfiles[receiver := profile];
      return Ok(());
    }

    method DeregisterAgent(caller: Account, did: Did) returns (r: Result<()>)
      modifies this
      ensures Follows(Agents.DeregisterAgent(cfg, old(Snapshot()), caller, did), r, Snapshot())
    {
      if did !in agentProfiles {
        return Err(DidNotFound);
      }
      if agentProfiles[did].controller != caller {
        return Err(NotController);
      }
      if agentProfiles[did].status == Revoked {
        return Err(AgentAlreadyRevoked);
      }
      accounts := Currency.Unreserve(accounts, caller, cfg.registrationDeposit);
      var dids := if caller in controllerAgents then controllerAgents[caller] else [];
      controllerAgents := controllerAgents[caller := Without(dids, did)];
      agentProfiles := agentProfiles - {did};
      activeAgentCount := SaturatingSub(activeAgentCount, 1);
      return Ok(());
    }

    method SlashReputation(did: Did, amount: nat)
      modifies this
      ensures Snapshot() == Agents.SlashReputation(old(Snapshot()), did, amount)
    {
      if did in agentProfiles {
        var profile := agentProfiles[did];
        profile := profile.(score := SaturatingSub(profile.score, amount));
        agentProfiles := agentProfiles[did := profile];
      }
    }

    method SlashReputationForGuiltyDelivery(did: Did, amount: nat)
      modifies this
      ensures Snapshot() == Agents.SlashForGuiltyDelivery(cfg, old(Snapshot()), did, amount)
    {
      hide Agents.SlashReputation, Currency.SlashReserved;
      SlashReputation(did, amount);
      if did !in agentProfiles {
        return;
      }
      var controller := agentProfiles[did].controller;
      var strikes := SaturatingAdd(if did in disputeStrikes then disputeStrikes[did] else 0, 1);
      disputeStrikes := disputeStrikes[did := strikes];
      if strikes < cfg.strikeThreshold {
        return;
      }
      disputeStrikes := disputeStrikes[did := 0];
      var slashAmount := cfg.depositSlashPerStrike;
      var unslashed := Currency.Unslashed(accounts, controller, slashAmount);
      accounts := Currency.SlashReserved(accounts, controller, slashAmount);
      var removed := SaturatingSub(slashAmount, unslashed);
      depositSlashed := depositSlashed + [DepositSlashed(did, controller, removed, strikes)];
    }

    // ------------------------------------------------------------ pallet_vector_db

    method CheckParty(caller: Account, did: Did, ineligible: Error, notParty: Error) returns (r: Result<()>)
      ensures match Authorise(Snapshot(), caller, did, ineligible, notParty)
              case Pass => r == Ok(())
              case Fail(e) => r == Err(e)
    {
      if did !in agentProfiles {
        return Err(ineligible);
      }
      var profile := agentProfiles[did];
      if profile.controller != caller {
        return Err(notParty);
      }
      if profile.status != AgentStatus.Active || !profile.verified {
        return Err(ineligible);
      }
      return Ok(());
    }

    method RegisterCommitment(caller: Account, provider: Did, consumer: Did, root: Hash, total: nat, expiresIn: nat,
                              price: nat) returns (r: Result<()>)
      modifies this
      ensures Follows(Commitments.RegisterCommitment(cfg, old(Snapshot()), caller, provider, consumer, root, total,
                                                     expiresIn, price), r, Snapshot())
    {
      if provider == consumer {
        return Err(SelfTrade);
      }
      if total == 0 {
        return Err(TotalChunksMustBePositive);
      }
      if root == ZERO_HASH {
        return Err(InvalidMerkleRoot);
      }
      var party := CheckParty(caller, provider, ProviderNotEligible, NotProvider);
      if party.Err? {
        return party;
      }
      if consumer !in agentProfiles || agentProfiles[consumer].status != AgentStatus.Active
         || !agentProfiles[consumer].verified {
        return Err(ConsumerNotEligible);
      }
      if expiresIn == 0 {
        return Err(ExpiryMustBePositive);
      }
      if expiresIn > cfg.maxCommitmentLifetime {
        return Err(ExpiryTooFar);
      }
      var expiresAt := SaturatingAdd(blockNumber, expiresIn);
      var id := CommitmentId(cfg, Offer(provider, consumer, root, blockNumber));
      if id in vectorCommitments {
        return Err(CommitmentAlreadyExists);
      }
      var commitment := Commitment(provider, consumer, root, total, Pending, blockNumber, expiresAt, None, price);
      vectorCommitments := vectorCommitments[id := commitment];
      activeCommitmentCount := SaturatingAdd(activeCommitmentCount, 1);
      return Ok(());
    }

    method AcknowledgeCommitment(caller: Account, id: Hash, consumer: Did) returns (r: Result<()>)
      modifies this
      ensures Follows(Commitments.AcknowledgeCommitment(old(Snapshot()), caller, id, consumer), r, Snapshot())
    {
      if id !in vectorCommitments {
        return Err(CommitmentNotFound);
      }
      var commitment := vectorCommitments[id];
      if commitment.status != Pending {
        return Err(NotPending);
      }
      if blockNumber >= commitment.expiresAt {
        return Err(CommitmentExpiredError);
      }
      if commitment.consumer != consumer {
        return Err(NotConsumer);
      }
      var party := CheckParty(caller, consumer, ConsumerNotEligible, NotConsumer);
      if party.Err? {
        return party;
      }
      if commitment.provider !in agentProfiles {
        return Err(ProviderNotEligible);
      }
      var payee := agentProfiles[commitment.provider].controller;
      var locked := Lock(id, caller, payee, commitment.price);
      if locked.Err? {
        return locked;
      }
      commitment := commitment.(status := CommitmentStatus.Active, acknowledgedAt := Some(blockNumber));
      vectorCommitments := vectorCommitments[id := commitment];
      return Ok(());
    }

    method CloseCommitment(caller: Account, id: Hash, consumer: Did, finalStreamHash: Hash, chunkCount: nat)
      returns (r: Result<()>)
      modifies this
      ensures Follows(Commitments.CloseCommitment(old(Snapshot()), caller, id, consumer, finalStreamHash, chunkCount),
                      r, Snapshot())
    {
      if id !in vectorCommitments {
        return Err(CommitmentNotFound);
      }
      var commitment := vectorCommitments[id];
      if commitment.status != CommitmentStatus.Active {
        return Err(NotActive);
      }
      if blockNumber >= commitment.expiresAt {
        return Err(CommitmentExpiredError);
      }
      if commitment.consumer != consumer {
        return Err(NotConsumer);
      }
      var party := CheckParty(caller, consumer, ConsumerNotEligible, NotConsumer);
      if party.Err? {
        return party;
      }
      if finalStreamHash != commitment.merkleRoot {
        return Err(StreamHashMismatch);
      }
      streamReceipts := streamReceipts[id := Receipt(finalStreamHash, chunkCount, blockNumber)];
      vectorCommitments := vectorCommitments[id := commitment.(status := Settled)];
      activeCommitmentCount := SaturatingSub(activeCommitmentCount, 1);
      r := Release(id);
    }

    method RaiseDispute(caller: Account, id: Hash, consumer: Did, index: nat, received: Hash) returns (r: Result<()>)
      modifies this
      ensures Follows(Commitments.RaiseDispute(cfg, old(Snapshot()), caller, id, consumer, index, received),
                      r, Snapshot())
    {
      if id !in vectorCommitments {
        return Err(CommitmentNotFound);
      }
      var commitment := vectorCommitments[id];
      if commitment.status != CommitmentStatus.Active {
        return Err(NotActive);
      }
      if commitment.consumer != consumer {
        return Err(NotConsumer);
      }
      if blockNumber >= commitment.expiresAt {
        return Err(CommitmentExpiredError);
      }
      var party := CheckParty(caller, consumer, ConsumerNotEligible, NotConsumer);
      if party.Err? {
        return party;
      }
      if id in disputeRecords {
        return Err(DisputeAlreadyRaised);
      }
      if index >= commitment.totalChunks {
        return Err(ChunkIndexOutOfBounds);
      }
      var window := if disputeWindowOverride.Some? then disputeWindowOverride.value else cfg.disputeWindow;
      var deadline := SaturatingAdd(blockNumber, window);
      disputeRecords := disputeRecords[id :=
        DisputeRecord(commitment.merkleRoot, received, index, blockNumber, deadline, None)];
      vectorCommitments := vectorCommitments[id := commitment.(status := Disputed)];
      return Ok(());
    }

    method CounterDispute(caller: Account, id: Hash, provider: Did, chunk: ChunkData, proof: ProofHashes)
      returns (r: Result<()>)
      modifies this
      ensures Follows(Commitments.CounterDispute(cfg, old(Snapshot()), caller, id, provider, chunk, proof),
                      r, Snapshot())
    {
      hide ProofAnswers, Agents.SlashReputation;
      if id !in vectorCommitments {
        return Err(CommitmentNotFound);
      }
      var commitment := vectorCommitments[id];
      if commitment.status != Disputed {
        return Err(NotDisputed);
      }
      if commitment.provider != provider {
        return Err(NotProvider);
      }
      var party := CheckParty(caller, provider, ProviderNotEligible, NotProvider);
      if party.Err? {
        return party;
      }
      if id !in disputeRecords {
        return Err(CommitmentNotFound);
      }
      var dispute := disputeRecords[id];
      if blockNumber > dispute.counterDeadline {
        return Err(DisputeWindowExpired);
      }
      if dispute.disputedChunkIndex >= commitment.totalChunks {
        return Err(ChunkIndexOutOfBounds);
      }
      if !ProofAnswers(cfg, commitment, dispute, chunk, proof) {
        return Err(InvalidMerkleProof);
      }
      disputeRecords := disputeRecords[id := dispute.(verdict := Some(ClaimantUnsubstantiated))];
      vectorCommitments := vectorCommitments[id := commitment.(status := DisputeResolved)];
      activeCommitmentCount := SaturatingSub(activeCommitmentCount, 1);
      r := Release(id);
      if r.Ok? {
        SlashReputation(commitment.consumer, cfg.falseDisputeSlash);
      }
    }

    method FinalizeDispute(id: Hash) returns (r: Result<()>)
      modifies this
      ensures Follows(Commitments.FinalizeDispute(cfg, old(Snapshot()), id), r, Snapshot())
    {
      hide Agents.SlashForGuiltyDelivery;
      if id !in vectorCommitments {
        return Err(CommitmentNotFound);
      }
      var commitment := vectorCommitments[id];
      if commitment.status != Disputed {
        return Err(NotDisputed);
      }
      if id !in disputeRecords {
        return Err(CommitmentNotFound);
      }
      var dispute := disputeRecords[id];
      if blockNumber <= dispute.counterDeadline {
        return Err(DisputeWindowStillOpen);
      }
      disputeRecords := disputeRecords[id := dispute.(verdict := Some(ProviderGuilty))];
      vectorCommitments := vectorCommitments[id := commitment.(status := DisputeResolved)];
      activeCommitmentCount := SaturatingSub(activeCommitmentCount, 1);
      r := Refund(id);
      if r.Ok? {
        SlashReputationForGuiltyDelivery(commitment.provider, cfg.providerGuiltySlash);
      }
    }

    method ExpireCommitment(id: Hash) returns (r: Result<()>)
      modifies this
      ensures Follows(Commitments.ExpireCommitment(old(Snapshot()), id), r, Snapshot())
    {
      if id !in vectorCommitments {
        return Err(CommitmentNotFound);
      }
      var commitment := vectorCommitments[id];
      if commitment.status != Pending && commitment.status != CommitmentStatus.Active {
        return Err(AlreadyFinalized);
      }
      if blockNumber < commitment.expiresAt {
        return Err(NotYetExpired);
      }
      vectorCommitments := vectorCommitments - {id};
      activeCommitmentCount := SaturatingSub(activeCommitmentCount, 1);
      return Ok(());
    }

    // --------------------------------------------------------------------- dispatch

    method MoveAccounts(moved: Result<Balances>) returns (r: Result<()>)
      modifies this
      ensures Follows(Runs.WithBalances(old(Snapshot()), moved), r, Snapshot())
    {
      if moved.Err? {
        return Err(moved.error);
      }
      accounts := moved.value;
      return Ok(());
    }

    method ExecuteDealCall(call: Runs.Call) returns (r: Result<()>)
      requires Effects.Progresses(call)
      modifies this
      ensures Follows(Runs.Step(cfg, old(Snapshot()), call), r, Snapshot())
    {
      hide Runs.Step;
      Runs.StepIs(cfg, Snapshot(), call);
      match call
      case AcknowledgeCommitment(caller, id, consumer) => r := AcknowledgeCommitment(caller, id, consumer);
      case CloseCommitment(caller, id, consumer, hash, count) =>
        r := CloseCommitment(caller, id, consumer, hash, count);
      case RaiseDispute(caller, id, consumer, index, received) =>
        r := RaiseDispute(caller, id, consumer, index, received);
      case CounterDispute(caller, id, provider, chunk, proof) =>
        r := CounterDispute(caller, id, provider, chunk, proof);
      case FinalizeDispute(_, id) => r := FinalizeDispute(id);
      case ExpireCommitment(_, id) => r := ExpireCommitment(id);
    }

    method Execute(call: Runs.Call) returns (r: Result<()>)
      modifies this
      ensures Follows(Runs.Step(cfg, old(Snapshot()), call), r, Snapshot())
    {
      match call
      case NextBlock =>
        if blockNumber >= U32_MAX {
          return Err(ClockExhausted);
        }
        blockNumber := blockNumber + 1;
        return Ok(());
      case Transfer(source, target, amount) =>
        r := MoveAccounts(Currency.Transfer(accounts, source, target, amount));
      case Reap(account) => r := MoveAccounts(Currency.Reap(accounts, account));
      case RegisterAgent(caller, pubkey, signedAt, check) => r := RegisterAgent(caller, pubkey, signedAt, check);
      case SetAgentStatus(caller, did, status) => r := SetAgentStatus(caller, did, status);
      case GiveStar(caller, giver, receiver) => r := GiveStar(caller, giver, receiver);
      case RemoveStar(caller, giver, receiver) => r := RemoveStar(caller, giver, receiver);
      case DeregisterAgent(caller, did) => r := DeregisterAgent(caller, did);
      case RegisterCommitment(caller, provider, consumer, root, total, expiresIn, price) =>
        r := RegisterCommitment(caller, provider, consumer, root, total, expiresIn, price);
      case _ => r := ExecuteDealCall(call);
    }

    method RestoreRegistry(r: Registry)
      modifies `agentProfiles, `controllerAgents, `activeAgentCount, `starGivers, `disputeStrikes
      ensures r == Registry(agentProfiles, controllerAgents, activeAgentCount, starGivers, disputeStrikes)
    {
      agentProfiles, controllerAgents, activeAgentCount := r.profiles, r.controllerAgents, r.activeAgents;
      starGivers, disputeStrikes := r.starGivers, r.disputeStrikes;
    }

    method RestoreVectorDb(db: VectorDb)
      modifies `vectorCommitments, `activeCommitmentCount, `streamReceipts, `disputeRecords
      ensures db == VectorDb(vectorCommitments, activeCommitmentCount, streamReceipts, disputeRecords,
                             db.windowOverride)
    {
      vectorCommitments, activeCommitmentCount := db.commitments, db.activeCommitments;
      streamReceipts, disputeRecords := db.receipts, db.disputes;
    }

    method Restore(s: State)
      requires s.db.windowOverride == disputeWindowOverride
      modifies this
      ensures Snapshot() == s
    {
      RestoreRegistry(s.registry);
      RestoreVectorDb(s.db);
      blockNumber, accounts, escrows, depositSlashed := s.now, s.balances, s.escrows, s.slashes;
    }

    /** One extrinsic inside its storage layer: a failed call is rolled back. */
    method Dispatch(call: Runs.Call) returns (r: Result<()>)
      modifies this
      ensures Snapshot() == Runs.Apply(cfg, old(Snapshot()), call)
      ensures r.Ok? <==> Runs.Step(cfg, old(Snapshot()), call).Ok?
    {
      hide Runs.Step;
      var saved := Snapshot();
      r := Execute(call);
      if r.Err? {
        Restore(saved);
      }
    }

    /** A sequence of extrinsics, each in its own storage layer. */
    method Replay(calls: seq<Runs.Call>)
      modifies this
      ensures Snapshot() == Runs.After(cfg, old(Snapshot()), calls)
    {
      hide Runs.Apply;
      for i := 0 to |calls|
        invariant Snapshot() == Runs.After(cfg, old(Snapshot()), calls[..i])
      {
        assert calls[..i + 1][..i] == calls[..i];
        var _ := Dispatch(calls[i]);
      }
      assert calls[..|calls|] == calls;
    }
  }
}
