/** Exactly when each call succeeds, and what every refusal says. */
module Admission {
  import opened Primitives
  import opened Chain
  import opened Currency
  import opened Agents
  import opened Commitments
  import opened Runs
  import opened Effects
  import opened Settlement
  import Escrow
  import Ledger = Money
  import Population
  import Stars
  import Exits

  // ------------------------------------------------------------------------- registry

  lemma {:induction false} DistinctCount(dids: seq<Did>, all: set<Did>)
    requires Population.Distinct(dids) && forall d :: d in dids <==> d in all
    ensures |dids| == |all|
  {
    if dids == [] {
      assert all == {};
    } else {
      var n := |dids| - 1;
      assert dids == dids[..n] + [dids[n]];
      assert dids[n] !in dids[..n];
      DistinctCount(dids[..n], all - {dids[n]});
    }
  }

  /** The index test of the agent limit counts the profiles an account controls. */
  lemma IndexCounts(cfg: Config, genesis: State, calls: seq<Call>, a: Account)
    requires Genesis(genesis)
    ensures var r := Reached(cfg, genesis, calls).chain.registry;
            && |AgentsOf(r, a)| == |Ledger.ControlledBy(r.profiles, a)|
            && forall d :: d in AgentsOf(r, a) <==> ControllerIs(r, d, a)
  {
    RunIsAfter(cfg, World(genesis, NO_HISTORY), calls);
    Population.IndexEqualsScan(cfg, genesis, calls, a);
    hide Reached, After;
    var r := Reached(cfg, genesis, calls).chain.registry;
    DistinctCount(AgentsOf(r, a), Ledger.ControlledBy(r.profiles, a));
  }

  /** A new key with an accepted, recent proof, a controller of fewer than 64 agents, and the deposit. */
  lemma RegisterAgentSucceedsIff(cfg: Config, genesis: State, calls: seq<Call>, caller: Account, pubkey: Bytes,
                                 signedAt: nat, check: SignatureCheck)
    requires Genesis(genesis)
    ensures var s := Reached(cfg, genesis, calls).chain;
            Step(cfg, s, RegisterAgent(caller, pubkey, signedAt, check)).Ok?
            <==> && DidOf(cfg, pubkey) !in s.registry.profiles
                 && |Ledger.ControlledBy(s.registry.profiles, caller)| < 64
                 && signedAt <= s.now <= signedAt + 64
                 && |pubkey| == 1952 && check == ProofAccepted
                 && cfg.registrationDeposit <= Funds(s.balances, caller).free
  {
    IndexCounts(cfg, genesis, calls, caller);
    hide Reached, DidOf, Ledger.ControlledBy;
  }

  /** What registration leaves: a verified active profile of this block, and the deposit in reserve. */
  lemma RegisterAgentEffect(cfg: Config, s: State, caller: Account, pubkey: Bytes, signedAt: nat, check: SignatureCheck,
                            d: Did, x: Account)
    requires Step(cfg, s, RegisterAgent(caller, pubkey, signedAt, check)).Ok?
    ensures var t := Step(cfg, s, RegisterAgent(caller, pubkey, signedAt, check)).value;
            && t == s.(registry := t.registry, balances := t.balances)
            && t.registry.starGivers == s.registry.starGivers && t.registry.disputeStrikes == s.registry.disputeStrikes
            && (d in t.registry.profiles <==> d in s.registry.profiles || d == DidOf(cfg, pubkey))
            && (d == DidOf(cfg, pubkey) ==>
                  var q := t.registry.profiles[d];
                  && q.controller == caller && q.score == 0 && q.status == AgentStatus.Active
                  && q.registeredAt == s.now && q.verified)
            && (d != DidOf(cfg, pubkey) && d in s.registry.profiles ==>
                  t.registry.profiles[d] == s.registry.profiles[d])
            && Wealth(t.balances, x) == Wealth(s.balances, x)
            && Funds(t.balances, x).reserved
               == Funds(s.balances, x).reserved + if x == caller then cfg.registrationDeposit else 0
  {
    hide DidOf;
  }

  /** Only the controller sets the status, never of a revoked agent; nothing but that status and the counter changes. */
  lemma SetAgentStatusSucceedsIff(cfg: Config, s: State, caller: Account, did: Did, status: AgentStatus)
    ensures var r := Step(cfg, s, SetAgentStatus(caller, did, status));
            && (r.Ok? <==> ControllerIs(s.registry, did, caller) && s.registry.profiles[did].status != Revoked)
            && (r.Ok? ==>
                  && r.value == s.(registry := r.value.registry)
                  && r.value.registry.profiles
                     == s.registry.profiles[did := s.registry.profiles[did].(status := status)])
  {
  }

  /** A star needs control of the giver, a receiver of another controller who is not revoked, and the cooldown. */
  lemma GiveStarSucceedsIff(cfg: Config, genesis: State, calls: seq<Call>, caller: Account, giver: Did, receiver: Did)
    requires Genesis(genesis)
    ensures var s := Reached(cfg, genesis, calls).chain;
            Step(cfg, s, GiveStar(caller, giver, receiver)).Ok?
            <==> && ControllerIs(s.registry, giver, caller)
                 && receiver in s.registry.profiles
                 && s.registry.profiles[receiver].status != Revoked
                 && s.registry.profiles[receiver].controller != caller
                 && var last := LastStar(s.registry, giver, receiver);
                    last == 0 || s.now >= last + cfg.starCooldown || s.now == U32_MAX
  {
    IndexCounts(cfg, genesis, calls, caller);
    Exits.ReachedIsStandard(cfg, genesis, calls);
    hide Reached, Ledger.ControlledBy, CooldownOver;
    var s := Reached(cfg, genesis, calls).chain;
    Stars.CooldownIsReal(cfg, s.now, LastStar(s.registry, giver, receiver));
  }

  lemma RemoveStarSucceedsIff(cfg: Config, genesis: State, calls: seq<Call>, caller: Account, giver: Did, receiver: Did)
    requires Genesis(genesis)
    ensures var s := Reached(cfg, genesis, calls).chain;
            Step(cfg, s, RemoveStar(caller, giver, receiver)).Ok?
            <==> && ControllerIs(s.registry, giver, caller) && receiver in s.registry.profiles
                 && LastStar(s.registry, giver, receiver) > 0
  {
    IndexCounts(cfg, genesis, calls, caller);
    hide Reached, Ledger.ControlledBy;
  }

  lemma DeregisterSucceedsIff(cfg: Config, s: State, caller: Account, did: Did)
    ensures Step(cfg, s, DeregisterAgent(caller, did)).Ok?
            <==> ControllerIs(s.registry, did, caller) && s.registry.profiles[did].status != Revoked
    ensures var r := Step(cfg, s, DeregisterAgent(caller, did));
            r.Ok? ==>
              && r.value == s.(registry := r.value.registry, balances := r.value.balances)
              && r.value.registry.profiles.Keys == s.registry.profiles.Keys - {did}
              && (forall d | d in r.value.registry.profiles ::
                    r.value.registry.profiles[d] == s.registry.profiles[d])
              && r.value.registry.starGivers == s.registry.starGivers
              && r.value.registry.disputeStrikes == s.registry.disputeStrikes
  {
  }

  // ---------------------------------------------------------------------------- deals

  /** An offer needs a provider's controller, a consumer in good standing, terms in range, and an unused id. */
  lemma RegisterCommitmentSucceedsIff(cfg: Config, s: State, call: Call)
    requires call.RegisterCommitment?
    ensures Step(cfg, s, call).Ok?
            <==> && ActsFor(s.registry, call.provider, call.caller)
                 && call.consumer in s.registry.profiles
                 && ActsFor(s.registry, call.consumer, s.registry.profiles[call.consumer].controller)
                 && call.provider != call.consumer && call.total > 0 && call.root != ZERO_HASH
                 && 0 < call.expiresIn <= cfg.maxCommitmentLifetime
                 && CommitmentId(cfg, Offer(call.provider, call.consumer, call.root, s.now)) !in s.db.commitments
  {
    hide CommitmentId;
  }

  /** Its consumer can dispute any chunk of a running deal until it expires. */
  lemma RaiseDisputeSucceedsIff(cfg: Config, genesis: State, calls: seq<Call>, call: Call)
    requires Genesis(genesis) && call.RaiseDispute?
    ensures var s := Reached(cfg, genesis, calls).chain;
            Step(cfg, s, call).Ok?
            <==> && call.id in s.db.commitments
                 && var c := s.db.commitments[call.id];
                 && c.status == CommitmentStatus.Active && s.now < c.expiresAt && c.consumer == call.consumer
                 && ActsFor(s.registry, c.consumer, call.caller)
                 && call.index < c.totalChunks
  {
    OpenDealsAreFunded(cfg, genesis, calls, call.id);
    hide Reached, Step;
    StepIs(cfg, Reached(cfg, genesis, calls).chain, call);
  }

  /** Its provider can answer a dispute until the deadline, with a proof for the recorded chunk, if the payee exists. */
  lemma CounterDisputeSucceedsIff(cfg: Config, genesis: State, calls: seq<Call>, call: Call)
    requires Genesis(genesis) && call.CounterDispute?
    ensures var s := Reached(cfg, genesis, calls).chain;
            Step(cfg, s, call).Ok?
            <==> && call.id in s.db.commitments && call.id in s.db.disputes && call.id in s.escrows
                 && var c := s.db.commitments[call.id];
                 && c.status == Disputed && c.provider == call.provider
                 && ActsFor(s.registry, c.provider, call.caller)
                 && s.now <= s.db.disputes[call.id].counterDeadline
                 && ProofAnswers(cfg, c, s.db.disputes[call.id], call.chunk, call.proof)
                 && !PayeeDead(s, s.escrows[call.id])
  {
    OpenDealsAreFunded(cfg, genesis, calls, call.id);
    hide Reached, Step, ProofAnswers, SlashReputation;
    StepIs(cfg, Reached(cfg, genesis, calls).chain, call);
  }

  /** Anyone can expire an offered or running deal from its expiry block on. */
  lemma ExpireSucceedsIff(cfg: Config, s: State, anyone: Account, id: Hash)
    ensures Step(cfg, s, ExpireCommitment(anyone, id)).Ok?
            <==> && id in s.db.commitments && s.now >= s.db.commitments[id].expiresAt
                 && var status := s.db.commitments[id].status;
                    status == Pending || status == CommitmentStatus.Active
  {
    hide Step;
    StepIs(cfg, s, ExpireCommitment(anyone, id));
  }

  // ------------------------------------------------------------------------- refusals

  /** What an error of the registry says about the call and the state. */
  predicate RegistryReason(cfg: Config, s: State, call: Call, e: Error)
    requires AgentCall(call)
  {
    var r := s.registry;
    match e
    case DidAlreadyRegistered => call.RegisterAgent? && DidOf(cfg, call.pubkey) in r.profiles
    case TooManyAgentsForController => call.RegisterAgent? && |AgentsOf(r, call.caller)| >= 64
    case InvalidChallengeBlock => call.RegisterAgent? && call.signedAt > s.now
    case ChallengeExpired => call.RegisterAgent? && s.now > call.signedAt + 64
    case InvalidPubkeyLength => call.RegisterAgent? && (|call.pubkey| != 1952 || call.check == KeyRejected)
    case InvalidSignatureLength => call.RegisterAgent? && call.check == SignatureRejected
    case InvalidQuantumProof => call.RegisterAgent? && call.check == ProofRejected
    case InsufficientBalanceForDeposit =>
      call.RegisterAgent? && Funds(s.balances, call.caller).free < cfg.registrationDeposit
    case DidNotFound =>
      if call.GiveStar? || call.RemoveStar? then call.receiver !in r.profiles
      else !call.RegisterAgent? && call.did !in r.profiles
    case NotController =>
      if call.GiveStar? || call.RemoveStar? then call.giver !in AgentsOf(r, call.caller)
      else !call.RegisterAgent? && call.did in r.profiles && r.profiles[call.did].controller != call.caller
    case AgentRevoked =>
      || (call.SetAgentStatus? && IsRevoked(r, call.did))
      || (call.GiveStar? && IsRevoked(r, call.receiver))
    case AgentAlreadyRevoked => call.DeregisterAgent? && IsRevoked(r, call.did)
    case CannotStarSelf => call.GiveStar? && call.giver == call.receiver
    case CannotStarSameController => call.GiveStar? && ControllerIs(r, call.receiver, call.caller)
    case CooldownNotExpired =>
      && call.GiveStar?
      && var last := LastStar(r, call.giver, call.receiver);
         last > 0 && s.now < last + cfg.starCooldown
    case NotStarred => call.RemoveStar? && LastStar(r, call.giver, call.receiver) == 0
    case _ => false
  }

  lemma RegistryRefusalsAreTrue(cfg: Config, s: State, call: Call)
    requires AgentCall(call) && Step(cfg, s, call).Err?
    ensures RegistryReason(cfg, s, call, Step(cfg, s, call).error)
  {
    hide DidOf;
  }

  /** `did` is unregistered, or its controller is `who` and it is suspended, revoked or unverified. */
  predicate Ineligible(r: Registry, did: Did, who: Account) {
    did !in r.profiles || (r.profiles[did].controller == who && !ActsFor(r, did, who))
  }

  /** `did` is registered to someone other than `who`. */
  predicate Foreign(r: Registry, did: Did, who: Account) {
    did in r.profiles && r.profiles[did].controller != who
  }

  lemma ConsumerRefused(s: State, caller: Account, did: Did)
    ensures match Authorise(s, caller, did, ConsumerNotEligible, NotConsumer)
            case Pass => ActsFor(s.registry, did, caller)
            case Fail(e) =>
              || (e.ConsumerNotEligible? && Ineligible(s.registry, did, caller))
              || (e.NotConsumer? && Foreign(s.registry, did, caller))
  {
  }

  lemma ProviderRefused(s: State, caller: Account, did: Did)
    ensures match Authorise(s, caller, did, ProviderNotEligible, NotProvider)
            case Pass => ActsFor(s.registry, did, caller)
            case Fail(e) =>
              || (e.ProviderNotEligible? && Ineligible(s.registry, did, caller))
              || (e.NotProvider? && Foreign(s.registry, did, caller))
  {
  }

  /** The release of a locked escrow fails only for lack of a payee. */
  lemma ReleaseRefusal(s: State, id: Hash)
    requires id in s.escrows && s.escrows[id].status == Locked
    ensures var r := Escrow.Release(s, id); r.Err? ==> r.error.DeadAccount? && PayeeDead(s, s.escrows[id])
  {
  }

  /** What an error of a registration says. */
  predicate OfferReason(cfg: Config, s: State, call: Call, e: Error)
    requires call.RegisterCommitment?
  {
    var r := s.registry;
    match e
    case SelfTrade => call.provider == call.consumer
    case TotalChunksMustBePositive => call.total == 0
    case InvalidMerkleRoot => call.root == ZERO_HASH
    case ProviderNotEligible => Ineligible(r, call.provider, call.caller)
    case NotProvider => Foreign(r, call.provider, call.caller)
    case ConsumerNotEligible =>
      call.consumer in r.profiles ==> !ActsFor(r, call.consumer, r.profiles[call.consumer].controller)
    case ExpiryMustBePositive => call.expiresIn == 0
    case ExpiryTooFar => call.expiresIn > cfg.maxCommitmentLifetime
    case CommitmentAlreadyExists =>
      CommitmentId(cfg, Offer(call.provider, call.consumer, call.root, s.now)) in s.db.commitments
    case _ => false
  }

  lemma OfferRefusalsAreTrue(cfg: Config, s: State, call: Call)
    requires call.RegisterCommitment? && Step(cfg, s, call).Err?
    ensures OfferReason(cfg, s, call, Step(cfg, s, call).error)
  {
    hide CommitmentId;
  }

  /** What an error of a consumer's call on a deal says. */
  predicate ConsumerReason(s: State, call: Call, e: Error)
    requires call.AcknowledgeCommitment? || call.CloseCommitment? || call.RaiseDispute?
  {
    var r := s.registry;
    if e.CommitmentNotFound? then call.id !in s.db.commitments
    else
      && call.id in s.db.commitments
      && var c := s.db.commitments[call.id];
      match e
      case NotPending => call.AcknowledgeCommitment? && c.status != Pending
      case NotActive => !call.AcknowledgeCommitment? && c.status != CommitmentStatus.Active
      case CommitmentExpiredError => s.now >= c.expiresAt
      case NotConsumer => c.consumer != call.consumer || Foreign(r, call.consumer, call.caller)
      case ConsumerNotEligible => Ineligible(r, call.consumer, call.caller)
      case ProviderNotEligible => call.AcknowledgeCommitment? && c.provider !in r.profiles
      case EscrowAlreadyExists => call.AcknowledgeCommitment? && call.id in s.escrows
      case InsufficientBalanceForEscrow =>
        call.AcknowledgeCommitment? && Funds(s.balances, call.caller).free < c.price
      case StreamHashMismatch => call.CloseCommitment? && call.finalStreamHash != c.merkleRoot
      case DeadAccount => call.CloseCommitment? && call.id in s.escrows && PayeeDead(s, s.escrows[call.id])
      case ChunkIndexOutOfBounds => call.RaiseDispute? && call.index >= c.totalChunks
      case _ => false
  }

  lemma AcknowledgeRefusal(cfg: Config, s: State, call: Call)
    requires call.AcknowledgeCommitment? && Step(cfg, s, call).Err?
    ensures ConsumerReason(s, call, Step(cfg, s, call).error)
  {
    hide Step, Authorise, Ineligible, Foreign, ActsFor;
    StepIs(cfg, s, call);
    ConsumerRefused(s, call.caller, call.consumer);
  }

  lemma CloseRefusal(cfg: Config, s: State, call: Call)
    requires call.CloseCommitment? && Upheld(s, call.id) && Step(cfg, s, call).Err?
    ensures ConsumerReason(s, call, Step(cfg, s, call).error)
  {
    hide Step, Authorise, Ineligible, Foreign, ActsFor, Escrow.Release;
    StepIs(cfg, s, call);
    ConsumerRefused(s, call.caller, call.consumer);
    if call.id in s.db.commitments && s.db.commitments[call.id].status == CommitmentStatus.Active {
      var receipt := Receipt(call.finalStreamHash, call.chunkCount, s.now);
      ReleaseRefusal(Settle(s, call.id, s.db.commitments[call.id], receipt), call.id);
    }
  }

  lemma RaiseRefusal(cfg: Config, s: State, call: Call)
    requires call.RaiseDispute? && Upheld(s, call.id) && Step(cfg, s, call).Err?
    ensures ConsumerReason(s, call, Step(cfg, s, call).error)
  {
    hide Step, Authorise, Ineligible, Foreign, ActsFor;
    StepIs(cfg, s, call);
    ConsumerRefused(s, call.caller, call.consumer);
  }

  lemma ConsumerRefusalsAreTrue(cfg: Config, genesis: State, calls: seq<Call>, call: Call)
    requires Genesis(genesis) && (call.AcknowledgeCommitment? || call.CloseCommitment? || call.RaiseDispute?)
    requires Step(cfg, Reached(cfg, genesis, calls).chain, call).Err?
    ensures var s := Reached(cfg, genesis, calls).chain; ConsumerReason(s, call, Step(cfg, s, call).error)
  {
    var s := Reached(cfg, genesis, calls).chain;
    OpenDealsAreFunded(cfg, genesis, calls, call.id);
    hide Reached, Step, ConsumerReason, Upheld;
    if call.AcknowledgeCommitment? {
      AcknowledgeRefusal(cfg, s, call);
    } else if call.CloseCommitment? {
      CloseRefusal(cfg, s, call);
    } else {
      RaiseRefusal(cfg, s, call);
    }
  }

  /** What an error of an answer, a verdict or an expiry says. */
  predicate EndingReason(cfg: Config, s: State, call: Call, e: Error)
    requires call.CounterDispute? || call.FinalizeDispute? || call.ExpireCommitment?
  {
    if e.CommitmentNotFound? then call.id !in s.db.commitments
    else
      && call.id in s.db.commitments
      && var c := s.db.commitments[call.id];
      match e
      case NotDisputed => !call.ExpireCommitment? && c.status != Disputed
      case NotProvider =>
        call.CounterDispute? && (c.provider != call.provider || Foreign(s.registry, call.provider, call.caller))
      case ProviderNotEligible => call.CounterDispute? && Ineligible(s.registry, call.provider, call.caller)
      case DisputeWindowExpired =>
        call.CounterDispute? && call.id in s.db.disputes && s.now > s.db.disputes[call.id].counterDeadline
      case InvalidMerkleProof =>
        call.CounterDispute? && call.id in s.db.disputes
        && !ProofAnswers(cfg, c, s.db.disputes[call.id], call.chunk, call.proof)
      case DeadAccount => call.CounterDispute? && call.id in s.escrows && PayeeDead(s, s.escrows[call.id])
      case DisputeWindowStillOpen =>
        call.FinalizeDispute? && call.id in s.db.disputes && s.now <= s.db.disputes[call.id].counterDeadline
      case AlreadyFinalized =>
        call.ExpireCommitment? && c.status != Pending && c.status != CommitmentStatus.Active
      case NotYetExpired => call.ExpireCommitment? && s.now < c.expiresAt
      case _ => false
  }

  lemma CounterRefusal(cfg: Config, s: State, call: Call)
    requires call.CounterDispute? && Upheld(s, call.id) && Step(cfg, s, call).Err?
    ensures EndingReason(cfg, s, call, Step(cfg, s, call).error)
  {
    hide Step, ProofAnswers, SlashReputation, Authorise, Ineligible, Foreign, ActsFor, Escrow.Release;
    StepIs(cfg, s, call);
    ProviderRefused(s, call.caller, call.provider);
    if call.id in s.db.commitments && s.db.commitments[call.id].status == Disputed {
      var c, dispute := s.db.commitments[call.id], s.db.disputes[call.id];
      ReleaseRefusal(Resolve(s, call.id, c, dispute, ClaimantUnsubstantiated), call.id);
    }
  }

  lemma FinalizeRefusal(cfg: Config, s: State, call: Call)
    requires call.FinalizeDispute? && Upheld(s, call.id) && Step(cfg, s, call).Err?
    ensures EndingReason(cfg, s, call, Step(cfg, s, call).error)
  {
    hide Step, ProofAnswers, SlashForGuiltyDelivery;
    StepIs(cfg, s, call);
  }

  lemma ExpireRefusal(cfg: Config, s: State, call: Call)
    requires call.ExpireCommitment? && Upheld(s, call.id) && Step(cfg, s, call).Err?
    ensures EndingReason(cfg, s, call, Step(cfg, s, call).error)
  {
    hide Step, ProofAnswers;
    StepIs(cfg, s, call);
  }

  lemma EndingRefusalsAreTrue(cfg: Config, genesis: State, calls: seq<Call>, call: Call)
    requires Genesis(genesis) && (call.CounterDispute? || call.FinalizeDispute? || call.ExpireCommitment?)
    requires Step(cfg, Reached(cfg, genesis, calls).chain, call).Err?
    ensures var s := Reached(cfg, genesis, calls).chain; EndingReason(cfg, s, call, Step(cfg, s, call).error)
  {
    var s := Reached(cfg, genesis, calls).chain;
    OpenDealsAreFunded(cfg, genesis, calls, call.id);
    hide Reached, Step, EndingReason, Upheld;
    if call.CounterDispute? {
      CounterRefusal(cfg, s, call);
    } else if call.FinalizeDispute? {
      FinalizeRefusal(cfg, s, call);
    } else {
      ExpireRefusal(cfg, s, call);
    }
  }
}
