/** When the funds of a deal can still move, and the calls that move them. */
module Exits {
  import opened Primitives
  import opened Chain
  import opened Currency
  import opened Agents
  import opened Commitments
  import opened Runs
  import opened Effects
  import opened Settlement

  predicate Moved(s: State, id: Hash) {
    id in s.escrows && s.escrows[id].status != Locked
  }

  /** Some continuation releases or refunds the escrow of `id`. */
  ghost predicate CanMove(cfg: Config, s: State, id: Hash) {
    exists more :: Moved(After(cfg, s, more), id)
  }

  lemma MovesAfter(cfg: Config, s: State, calls: seq<Call>, id: Hash)
    requires CanMove(cfg, After(cfg, s, calls), id)
    ensures CanMove(cfg, s, id)
  {
    var more :| Moved(After(cfg, After(cfg, s, calls), more), id);
    AfterSplits(cfg, s, calls, more);
    assert Moved(After(cfg, s, calls + more), id);
  }

  lemma MovesAfterCall(cfg: Config, s: State, call: Call, id: Hash)
    requires Moved(Apply(cfg, s, call), id) || CanMove(cfg, Apply(cfg, s, call), id)
    ensures CanMove(cfg, s, id)
  {
    hide Apply, Moved;
    AfterOne(cfg, s, call);
    if Moved(Apply(cfg, s, call), id) {
      assert Moved(After(cfg, s, [call]), id);
    } else {
      MovesAfter(cfg, s, [call], id);
    }
  }

  // ------------------------------------------------------------------------- standing

  /** Registered profiles are verified, commitments have chunks, and the clock fits. */
  ghost predicate Standard(s: State) {
    && s.now <= U32_MAX
    && (forall d | d in s.registry.profiles :: s.registry.profiles[d].verified)
    && (forall id | id in s.db.commitments :: s.db.commitments[id].totalChunks > 0)
  }

  lemma AgentCallIsStandard(cfg: Config, s: State, call: Call)
    requires AgentCall(call) && Step(cfg, s, call).Ok?
    requires forall d | d in s.registry.profiles :: s.registry.profiles[d].verified
    ensures forall d | d in Step(cfg, s, call).value.registry.profiles ::
              Step(cfg, s, call).value.registry.profiles[d].verified
  {
  }

  lemma StepIsStandard(cfg: Config, s: State, call: Call)
    requires Standard(s)
    ensures Standard(Apply(cfg, s, call))
  {
    hide Step, CommitmentId;
    if Step(cfg, s, call).Ok? {
      StepHasEffect(cfg, s, call);
      if AgentCall(call) {
        AgentCallIsStandard(cfg, s, call);
      }
    }
  }

  lemma {:induction false} ReachedIsStandard(cfg: Config, genesis: State, calls: seq<Call>)
    requires Genesis(genesis)
    ensures Standard(Reached(cfg, genesis, calls).chain)
  {
    if calls != [] {
      ReachedIsStandard(cfg, genesis, calls[..|calls| - 1]);
      StepIsStandard(cfg, Reached(cfg, genesis, calls[..|calls| - 1]).chain, calls[|calls| - 1]);
    }
  }

  // ---------------------------------------------------------------------------- exits

  function Blocks(n: nat): seq<Call> {
    seq(n, _ => NextBlock)
  }

  lemma {:induction false} Wait(cfg: Config, s: State, n: nat)
    requires s.now + n <= U32_MAX
    ensures After(cfg, s, Blocks(n)) == s.(now := s.now + n)
  {
    if n > 0 {
      assert Blocks(n)[..n - 1] == Blocks(n - 1);
      Wait(cfg, s, n - 1);
    }
  }

  /** A dispute whose deadline lies before the clock's last block ends in a verdict at the latest by waiting. */
  lemma DisputedFundsMove(cfg: Config, s: State, id: Hash)
    requires Upheld(s, id) && id in s.db.commitments && s.db.commitments[id].status == Disputed
    requires s.now <= U32_MAX && s.db.disputes[id].counterDeadline < U32_MAX
    ensures CanMove(cfg, s, id)
  {
    var deadline := s.db.disputes[id].counterDeadline;
    var n := if deadline < s.now then 0 else deadline + 1 - s.now;
    Wait(cfg, s, n);
    var t := s.(now := s.now + n);
    FinalizeMoves(cfg, t, id);
    MovesAfterCall(cfg, t, FinalizeDispute(0, id), id);
    MovesAfter(cfg, s, Blocks(n), id);
  }

  lemma FinalizeMoves(cfg: Config, s: State, id: Hash)
    requires Upheld(s, id) && id in s.db.commitments && s.db.commitments[id].status == Disputed
    requires s.db.disputes[id].counterDeadline < s.now
    ensures Moved(Apply(cfg, s, FinalizeDispute(0, id)), id)
  {
    hide Step, SlashForGuiltyDelivery;
    StepIs(cfg, s, FinalizeDispute(0, id));
    if Step(cfg, s, FinalizeDispute(0, id)).Ok? {
      StepHasEffect(cfg, s, FinalizeDispute(0, id));
    }
  }

  /** `caller` may act for the consumer of a running deal that has not expired. */
  predicate MayAct(s: State, caller: Account, id: Hash) {
    && id in s.db.commitments && s.db.commitments[id].status == CommitmentStatus.Active
    && s.now < s.db.commitments[id].expiresAt
    && ActsFor(s.registry, s.db.commitments[id].consumer, caller)
  }

  lemma CloseMoves(cfg: Config, s: State, caller: Account, id: Hash)
    requires Upheld(s, id) && MayAct(s, caller, id) && !PayeeDead(s, s.escrows[id])
    ensures CanMove(cfg, s, id)
  {
    hide Step, CanMove;
    var c := s.db.commitments[id];
    var call := CloseCommitment(caller, id, c.consumer, c.merkleRoot, 0);
    StepIs(cfg, s, call);
    MovesAfterCall(cfg, s, call, id);
  }

  /** Even when the payee's account is gone, disputing brings the funds back to the payer. */
  lemma DisputeMoves(cfg: Config, s: State, caller: Account, id: Hash)
    requires Upheld(s, id) && MayAct(s, caller, id) && s.db.commitments[id].totalChunks > 0
    requires s.now + EffectiveDisputeWindow(cfg, s) < U32_MAX
    ensures CanMove(cfg, s, id)
  {
    hide Step, CanMove;
    var call := RaiseDispute(caller, id, s.db.commitments[id].consumer, 0, ZERO_HASH);
    StepIs(cfg, s, call);
    StepUpholds(cfg, s, call, id);
    DisputedFundsMove(cfg, Apply(cfg, s, call), id);
    MovesAfterCall(cfg, s, call, id);
  }

  /** The consumer is registered, or `who` holds its key and can afford to register it again. */
  predicate Available(cfg: Config, s: State, consumer: Did, key: Bytes, who: Account) {
    || consumer in s.registry.profiles
    || (&& DidOf(cfg, key) == consumer && |key| == MAX_PUBKEY_LEN
        && |AgentsOf(s.registry, who)| < MAX_AGENTS && cfg.registrationDeposit <= Funds(s.balances, who).free)
  }

  /** The call that puts the consumer in good standing. */
  function Prepare(s: State, consumer: Did, key: Bytes, who: Account): Call {
    if consumer in s.registry.profiles then
      SetAgentStatus(s.registry.profiles[consumer].controller, consumer, AgentStatus.Active)
    else RegisterAgent(who, key, s.now, ProofAccepted)
  }

  lemma Prepared(cfg: Config, s: State, consumer: Did, key: Bytes, who: Account)
    requires Available(cfg, s, consumer, key, who) && !IsRevoked(s.registry, consumer)
    requires consumer in s.registry.profiles ==> s.registry.profiles[consumer].verified
    ensures var t := Apply(cfg, s, Prepare(s, consumer, key, who));
            && t == s.(registry := t.registry, balances := t.balances)
            && s.balances.Keys <= t.balances.Keys
            && consumer in t.registry.profiles
            && ActsFor(t.registry, consumer, t.registry.profiles[consumer].controller)
  {
    hide DidOf;
  }

  /** The registered consumer of a running deal has a way out until the deal expires. */
  lemma RunningFundsMove(cfg: Config, s: State, id: Hash, key: Bytes, who: Account)
    requires Upheld(s, id) && Standard(s)
    requires id in s.db.commitments && s.db.commitments[id].status == CommitmentStatus.Active
    requires s.now < s.db.commitments[id].expiresAt && !IsRevoked(s.registry, s.db.commitments[id].consumer)
    requires Available(cfg, s, s.db.commitments[id].consumer, key, who)
    requires !PayeeDead(s, s.escrows[id]) || s.now + EffectiveDisputeWindow(cfg, s) < U32_MAX
    ensures CanMove(cfg, s, id)
  {
    var consumer := s.db.commitments[id].consumer;
    var call := Prepare(s, consumer, key, who);
    var t := Apply(cfg, s, call);
    hide Apply, CanMove, DidOf;
    Prepared(cfg, s, consumer, key, who);
    var caller := t.registry.profiles[consumer].controller;
    if !PayeeDead(s, s.escrows[id]) {
      CloseMoves(cfg, t, caller, id);
    } else {
      DisputeMoves(cfg, t, caller, id);
    }
    MovesAfterCall(cfg, s, call, id);
  }

  /** A disputed deal, or one that runs before its last block for a consumer who is not revoked. */
  predicate HasExit(s: State, id: Hash) {
    && id in s.db.commitments
    && var c := s.db.commitments[id];
    || c.status == Disputed
    || (c.status == CommitmentStatus.Active && s.now < c.expiresAt && !IsRevoked(s.registry, c.consumer))
  }

  /**
   What a deal with an exit's exits need from outside it: for a dispute a deadline the
   clock can pass; for a running deal someone to act for the consumer, and the
   payee's account or time for a dispute.
   */
  predicate ExitOpen(cfg: Config, s: State, id: Hash, key: Bytes, who: Account)
    requires HasExit(s, id)
  {
    var c := s.db.commitments[id];
    if c.status == Disputed then id in s.db.disputes && s.db.disputes[id].counterDeadline < U32_MAX
    else
      && Available(cfg, s, c.consumer, key, who)
      && ((id in s.escrows && !PayeeDead(s, s.escrows[id])) || s.now + EffectiveDisputeWindow(cfg, s) < U32_MAX)
  }

  lemma VerdictCases(v: Option<Verdict>)
    ensures v == None || v == Some(ProviderGuilty) || v == Some(ClaimantUnsubstantiated)
  {
    assert v.Some? ==> v.value.ProviderGuilty? || v.value.ClaimantUnsubstantiated?;
  }

  /** A decided deal has no locked funds. */
  lemma LockedIsUndecided(s: State, id: Hash)
    requires Upheld(s, id) && Recorded(s, id) && id in s.escrows && s.escrows[id].status == Locked
    ensures id in s.db.commitments ==>
              var status := s.db.commitments[id].status;
              status == Pending || status == CommitmentStatus.Active || status == Disputed
  {
    if id in s.db.disputes {
      VerdictCases(s.db.disputes[id].verdict);
    }
  }

  /**
   Exactly which locked funds can still be released or refunded: those of a
   live deal. All others stay locked in every continuation.
   */
  lemma LockedFundsCanMoveIff(cfg: Config, genesis: State, calls: seq<Call>, id: Hash, key: Bytes, who: Account)
    requires Genesis(genesis)
    requires var s := Reached(cfg, genesis, calls).chain;
             && id in s.escrows && s.escrows[id].status == Locked
             && (HasExit(s, id) ==> ExitOpen(cfg, s, id, key, who))
    ensures var s := Reached(cfg, genesis, calls).chain; CanMove(cfg, s, id) <==> HasExit(s, id)
  {
    var s := Reached(cfg, genesis, calls).chain;
    OpenDealsAreFunded(cfg, genesis, calls, id);
    OutcomesAreRecorded(cfg, genesis, calls, id);
    ReachedIsStandard(cfg, genesis, calls);
    LockedIsUndecided(s, id);
    hide Reached, CanMove, DidOf;
    if !HasExit(s, id) {
      StaysLocked(cfg, s, id);
    } else if s.db.commitments[id].status == Disputed {
      DisputedFundsMove(cfg, s, id);
    } else {
      RunningFundsMove(cfg, s, id, key, who);
    }
  }

  lemma StaysLocked(cfg: Config, s: State, id: Hash)
    requires OutOfReach(s, id)
    ensures !CanMove(cfg, s, id)
  {
    forall more ensures !Moved(After(cfg, s, more), id) {
      OutOfReachForGood(cfg, s, more, id);
    }
  }
}
