/** What each successful call needed, and what it does to records, identities and notes. */
module Effects {
  import opened Primitives
  import opened Chain
  import opened Agents
  import opened Commitments
  import opened Runs
  import Currency
  import Escrow

  /** Identities survive penalties: only scores, and the strike ledger, may differ. */
  predicate OnlyScoresChange(r: Registry, q: Registry) {
    && q.profiles.Keys == r.profiles.Keys
    && (forall d | d in r.profiles :: q.profiles[d] == r.profiles[d].(score := q.profiles[d].score))
    && (forall d | d in r.profiles :: q.profiles[d].score <= r.profiles[d].score)
    && q.controllerAgents == r.controllerAgents
    && q.activeAgents == r.activeAgents
    && q.starGivers == r.starGivers
  }

  lemma SlashReputationEffect(s: State, did: Did, amount: nat)
    ensures var t := SlashReputation(s, did, amount);
            && t == s.(registry := t.registry)
            && OnlyScoresChange(s.registry, t.registry)
            && t.registry.disputeStrikes == s.registry.disputeStrikes
  {
  }

  lemma GuiltyEffect(cfg: Config, s: State, did: Did, amount: nat)
    ensures var t := SlashForGuiltyDelivery(cfg, s, did, amount);
            && t == s.(registry := t.registry, balances := t.balances, slashes := t.slashes)
            && OnlyScoresChange(s.registry, t.registry)
  {
    hide SlashReputation, Currency.SlashReserved;
    SlashReputationEffect(s, did, amount);
  }

  /** The three outcomes of the strike ledger: nobody there, one more strike, or a slash and a fresh count. */
  lemma GuiltyCases(cfg: Config, s: State, did: Did, amount: nat)
    ensures var t, n := SlashForGuiltyDelivery(cfg, s, did, amount), SaturatingAdd(Strikes(s.registry, did), 1);
            if did !in s.registry.profiles then t == s
            else if n < cfg.strikeThreshold then
              && t.registry.disputeStrikes == s.registry.disputeStrikes[did := n]
              && t.balances == s.balances && t.slashes == s.slashes
            else
              var a := s.registry.profiles[did].controller;
              && t.registry.disputeStrikes == s.registry.disputeStrikes[did := 0]
              && t.balances == Currency.SlashReserved(s.balances, a, cfg.depositSlashPerStrike)
              && t.slashes == s.slashes
                   + [DepositSlashed(did, a, Currency.Reach(s.balances, a, cfg.depositSlashPerStrike), n)]
  {
  }

  /** `who` controls `did`, a registered and verified agent that is neither suspended nor revoked. */
  predicate ActsFor(r: Registry, did: Did, who: Account) {
    && did in r.profiles
    && r.profiles[did].controller == who && r.profiles[did].status == AgentStatus.Active && r.profiles[did].verified
  }

  /** Storage outside `commitments`, `disputes`, `receipts`, the counter and `escrows`. */
  predicate SameElsewhere(s: State, t: State) {
    t.now == s.now && t.registry == s.registry && t.slashes == s.slashes && t.db.windowOverride == s.db.windowOverride
  }

  predicate AcknowledgeEffect(s: State, call: Call, t: State)
    requires call.AcknowledgeCommitment?
  {
    && call.id in s.db.commitments && call.id !in s.escrows
    && var c := s.db.commitments[call.id];
    && c.status == Pending && s.now < c.expiresAt
    && ActsFor(s.registry, c.consumer, call.caller) && call.consumer == c.consumer
    && c.provider in s.registry.profiles
    && SameElsewhere(s, t)
    && t.db == WithCommitment(s, call.id, c.(status := CommitmentStatus.Active, acknowledgedAt := Some(s.now))).db
    && t.escrows == s.escrows[call.id :=
         EscrowRecord(call.caller, s.registry.profiles[c.provider].controller, c.price, Locked, s.now)]
  }

  predicate CloseEffect(s: State, call: Call, t: State)
    requires call.CloseCommitment?
  {
    && call.id in s.db.commitments && call.id in s.escrows
    && var c, e := s.db.commitments[call.id], s.escrows[call.id];
    && c.status == CommitmentStatus.Active && s.now < c.expiresAt && e.status == Locked
    && ActsFor(s.registry, c.consumer, call.caller) && call.consumer == c.consumer
    && call.finalStreamHash == c.merkleRoot
    && SameElsewhere(s, t)
    && t.db == Settle(s, call.id, c, Receipt(c.merkleRoot, call.chunkCount, s.now)).db
    && t.escrows == s.escrows[call.id := e.(status := Released)]
  }

  predicate RaiseEffect(cfg: Config, s: State, call: Call, t: State)
    requires call.RaiseDispute?
  {
    && call.id in s.db.commitments && call.id !in s.db.disputes
    && var c := s.db.commitments[call.id];
    && c.status == CommitmentStatus.Active && s.now < c.expiresAt
    && ActsFor(s.registry, c.consumer, call.caller) && call.consumer == c.consumer
    && call.index < c.totalChunks
    && SameElsewhere(s, t)
    && t.db.disputes == s.db.disputes[call.id :=
         DisputeRecord(c.merkleRoot, call.received, call.index, s.now,
                       SaturatingAdd(s.now, EffectiveDisputeWindow(cfg, s)), None)]
    && t.db == WithCommitment(s, call.id, c.(status := Disputed)).db.(disputes := t.db.disputes)
    && t.escrows == s.escrows && t.balances == s.balances
  }

  predicate CounterEffect(s: State, call: Call, t: State)
    requires call.CounterDispute?
  {
    && call.id in s.db.commitments && call.id in s.db.disputes && call.id in s.escrows
    && var c, e := s.db.commitments[call.id], s.escrows[call.id];
    && c.status == Disputed && e.status == Locked
    && ActsFor(s.registry, c.provider, call.caller) && call.provider == c.provider
    && s.now <= s.db.disputes[call.id].counterDeadline
    && t.now == s.now && t.slashes == s.slashes
    && t.db == Resolve(s, call.id, c, s.db.disputes[call.id], ClaimantUnsubstantiated).db
    && t.escrows == s.escrows[call.id := e.(status := Released)]
    && OnlyScoresChange(s.registry, t.registry)
    && t.registry.disputeStrikes == s.registry.disputeStrikes
  }

  predicate FinalizeEffect(s: State, call: Call, t: State)
    requires call.FinalizeDispute?
  {
    && call.id in s.db.commitments && call.id in s.db.disputes && call.id in s.escrows
    && var c, e := s.db.commitments[call.id], s.escrows[call.id];
    && c.status == Disputed && e.status == Locked
    && s.now > s.db.disputes[call.id].counterDeadline
    && t.now == s.now
    && t.db == Resolve(s, call.id, c, s.db.disputes[call.id], ProviderGuilty).db
    && t.escrows == s.escrows[call.id := e.(status := Refunded)]
    && OnlyScoresChange(s.registry, t.registry)
  }

  predicate ExpireEffect(s: State, call: Call, t: State)
    requires call.ExpireCommitment?
  {
    && call.id in s.db.commitments
    && var c := s.db.commitments[call.id];
    && (c.status == Pending || c.status == CommitmentStatus.Active)
    && s.now >= c.expiresAt
    && t == s.(db := s.db.(commitments := s.db.commitments - {call.id},
                           activeCommitments := SaturatingSub(s.db.activeCommitments, 1)))
  }

  predicate RegisterEffect(cfg: Config, s: State, call: Call, t: State)
    requires call.RegisterCommitment?
  {
    var id := CommitmentId(cfg, Offer(call.provider, call.consumer, call.root, s.now));
    && id !in s.db.commitments
    && ActsFor(s.registry, call.provider, call.caller)
    && call.consumer in s.registry.profiles
    && ActsFor(s.registry, call.consumer, s.registry.profiles[call.consumer].controller)
    && call.provider != call.consumer && call.total > 0 && 0 < call.expiresIn <= cfg.maxCommitmentLifetime
    && t == s.(db := s.db.(
         commitments := s.db.commitments[id :=
           Commitment(call.provider, call.consumer, call.root, call.total, Pending, s.now,
                      SaturatingAdd(s.now, call.expiresIn), None, call.price)],
         activeCommitments := SaturatingAdd(s.db.activeCommitments, 1)))
  }

  /** What a successful call leaves behind. */
  predicate Effect(cfg: Config, s: State, call: Call, t: State) {
    match call
    case RegisterCommitment(_, _, _, _, _, _, _) => RegisterEffect(cfg, s, call, t)
    case AcknowledgeCommitment(_, _, _) => AcknowledgeEffect(s, call, t)
    case CloseCommitment(_, _, _, _, _) => CloseEffect(s, call, t)
    case RaiseDispute(_, _, _, _, _) => RaiseEffect(cfg, s, call, t)
    case CounterDispute(_, _, _, _, _) => CounterEffect(s, call, t)
    case FinalizeDispute(_, _) => FinalizeEffect(s, call, t)
    case ExpireCommitment(_, _) => ExpireEffect(s, call, t)
    case _ =>
      && t.db == s.db && t.escrows == s.escrows && t.slashes == s.slashes
      && (if call.NextBlock? then t.now == s.now + 1 <= U32_MAX else t.now == s.now)
      && (call.NextBlock? || call.Transfer? || call.Reap? ==> t.registry == s.registry)
  }

  lemma CounterHasEffect(cfg: Config, s: State, call: Call)
    requires call.CounterDispute? && Step(cfg, s, call).Ok?
    ensures CounterEffect(s, call, Step(cfg, s, call).value)
  {
    var id := call.id;
    var resolved := Resolve(s, id, s.db.commitments[id], s.db.disputes[id], ClaimantUnsubstantiated);
    hide SlashReputation;
    SlashReputationEffect(Escrow.Release(resolved, id).value, s.db.commitments[id].consumer, cfg.falseDisputeSlash);
  }

  lemma FinalizeHasEffect(cfg: Config, s: State, call: Call)
    requires call.FinalizeDispute? && Step(cfg, s, call).Ok?
    ensures FinalizeEffect(s, call, Step(cfg, s, call).value)
  {
    var id := call.id;
    var resolved := Resolve(s, id, s.db.commitments[id], s.db.disputes[id], ProviderGuilty);
    hide SlashForGuiltyDelivery;
    GuiltyEffect(cfg, Escrow.Refund(resolved, id).value, s.db.commitments[id].provider, cfg.providerGuiltySlash);
  }

  lemma DealHasEffect(cfg: Config, s: State, call: Call)
    requires call.RegisterCommitment? || call.AcknowledgeCommitment? || call.CloseCommitment? || call.RaiseDispute?
             || call.ExpireCommitment?
    requires Step(cfg, s, call).Ok?
    ensures Effect(cfg, s, call, Step(cfg, s, call).value)
  {
  }

  lemma StepHasEffect(cfg: Config, s: State, call: Call)
    requires Step(cfg, s, call).Ok?
    ensures Effect(cfg, s, call, Step(cfg, s, call).value)
  {
    if call.CounterDispute? {
      hide Step;
      CounterHasEffect(cfg, s, call);
    } else if call.FinalizeDispute? {
      hide Step;
      FinalizeHasEffect(cfg, s, call);
    } else if call.RegisterCommitment? || call.AcknowledgeCommitment? || call.CloseCommitment? || call.RaiseDispute?
              || call.ExpireCommitment? {
      hide Step;
      DealHasEffect(cfg, s, call);
    }
  }

  /** Identities change within limits: the controller and the block are fixed, and revocation is for good. */
  predicate ProfilesEvolve(s: State, t: State) {
    && (forall d | d in s.registry.profiles && d in t.registry.profiles ::
          var p, q := s.registry.profiles[d], t.registry.profiles[d];
          && q.controller == p.controller && q.registeredAt == p.registeredAt && q.verified == p.verified
          && (p.status == Revoked ==> q.status == Revoked))
    && (forall d | d in s.registry.profiles && d !in t.registry.profiles :: s.registry.profiles[d].status != Revoked)
  }

  lemma StepEvolves(cfg: Config, s: State, call: Call)
    requires Step(cfg, s, call).Ok?
    ensures ProfilesEvolve(s, Step(cfg, s, call).value)
  {
    hide Step;
    if AgentCall(call) {
      AgentCallEvolves(cfg, s, call);
    } else {
      StepHasEffect(cfg, s, call);
    }
  }

  predicate AgentCall(call: Call) {
    call.RegisterAgent? || call.SetAgentStatus? || call.GiveStar? || call.RemoveStar? || call.DeregisterAgent?
  }

  lemma AgentCallEvolves(cfg: Config, s: State, call: Call)
    requires AgentCall(call) && Step(cfg, s, call).Ok?
    ensures ProfilesEvolve(s, Step(cfg, s, call).value)
  {
  }

  /** The notes taken for one successful call, other than money and strikes. */
  lemma NotesTaken(cfg: Config, w: World, call: Call)
    requires Step(cfg, w.chain, call).Ok?
    ensures var h, k := w.past, Next(cfg, w, call).past;
            && (if call.RegisterCommitment? then
                  var o := Offer(call.provider, call.consumer, call.root, w.chain.now);
                  k.offers == h.offers + {o} && k.issued == h.issued + {CommitmentId(cfg, o)}
                else k.offers == h.offers && k.issued == h.issued)
            && k.registrations == h.registrations + (if call.RegisterCommitment? then 1 else 0)
            && (!call.AcknowledgeCommitment? ==> k.parties == h.parties)
            && (!call.FinalizeDispute? ==> k.guilty == h.guilty && k.burned == h.burned)
            && (!call.GiveStar? && !call.RemoveStar? ==> k.stars == h.stars)
            && (!call.ExpireCommitment? ==> k.stranded == h.stranded)
            && k.progress == h.progress + (if Progresses(call) then 1 else 0)
  {
  }

  /** Calls that act on an existing commitment. */
  predicate Progresses(call: Call) {
    call.AcknowledgeCommitment? || call.CloseCommitment? || call.RaiseDispute? || call.CounterDispute?
    || call.FinalizeDispute? || call.ExpireCommitment?
  }
}
