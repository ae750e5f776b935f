/** Verdicts, deadlines, and the promise that every deal can be brought to an end. */
module Disputes {
  import opened Primitives
  import opened Chain
  import opened Commitments
  import opened Runs
  import opened Effects
  import opened Settlement

  // ----------------------------------------------------------------------- verdicts

  /** Dispute records are never removed or replaced, and a verdict once given stands. */
  predicate DisputesFrozen(s: State, t: State) {
    forall id | id in s.db.disputes ::
      && id in t.db.disputes
      && t.db.disputes[id] == s.db.disputes[id].(verdict := t.db.disputes[id].verdict)
      && (s.db.disputes[id].verdict.Some? ==> t.db.disputes[id] == s.db.disputes[id])
  }

  /** An open dispute has a record without a verdict, raised before the commitment expired. */
  predicate OpenDisputesUndecided(s: State) {
    forall id | id in s.db.commitments && s.db.commitments[id].status == Disputed ::
      && id in s.db.disputes && s.db.disputes[id].verdict == None
      && s.db.disputes[id].raisedAt < s.db.commitments[id].expiresAt
  }

  /** Every deadline is the window fixed at genesis after the raising block. */
  predicate DeadlinesKept(cfg: Config, s: State, window: nat) {
    && EffectiveDisputeWindow(cfg, s) == window
    && forall id | id in s.db.disputes ::
         && s.db.disputes[id].raisedAt <= s.now
         && s.db.disputes[id].counterDeadline == SaturatingAdd(s.db.disputes[id].raisedAt, window)
  }

  /** No commitment outlives the configured maximum. */
  predicate LifetimesBounded(cfg: Config, s: State) {
    && s.now <= U32_MAX
    && forall id | id in s.db.commitments ::
         s.db.commitments[id].expiresAt <= s.db.commitments[id].createdAt + cfg.maxCommitmentLifetime
  }

  ghost predicate Orderly(cfg: Config, s: State, window: nat) {
    OpenDisputesUndecided(s) && DeadlinesKept(cfg, s, window) && LifetimesBounded(cfg, s)
  }

  lemma StepKeepsDisputes(cfg: Config, s: State, call: Call)
    requires OpenDisputesUndecided(s) && Step(cfg, s, call).Ok?
    ensures var t := Step(cfg, s, call).value; DisputesFrozen(s, t) && OpenDisputesUndecided(t)
  {
    hide Step, DisputesFrozen, OpenDisputesUndecided;
    if call.RaiseDispute? {
      RaiseKeepsDisputes(cfg, s, call);
    } else if call.CounterDispute? || call.FinalizeDispute? {
      VerdictKeepsDisputes(cfg, s, call);
    } else {
      OtherCallKeepsDisputes(cfg, s, call);
    }
  }

  lemma RaiseKeepsDisputes(cfg: Config, s: State, call: Call)
    requires call.RaiseDispute? && OpenDisputesUndecided(s) && Step(cfg, s, call).Ok?
    ensures var t := Step(cfg, s, call).value; DisputesFrozen(s, t) && OpenDisputesUndecided(t)
  {
    hide Step;
    StepHasEffect(cfg, s, call);
  }

  lemma VerdictKeepsDisputes(cfg: Config, s: State, call: Call)
    requires call.CounterDispute? || call.FinalizeDispute?
    requires OpenDisputesUndecided(s) && Step(cfg, s, call).Ok?
    ensures var t := Step(cfg, s, call).value; DisputesFrozen(s, t) && OpenDisputesUndecided(t)
  {
    hide Step, OnlyScoresChange;
    StepHasEffect(cfg, s, call);
  }

  lemma OtherCallKeepsDisputes(cfg: Config, s: State, call: Call)
    requires !call.RaiseDispute? && !call.CounterDispute? && !call.FinalizeDispute?
    requires OpenDisputesUndecided(s) && Step(cfg, s, call).Ok?
    ensures var t := Step(cfg, s, call).value; DisputesFrozen(s, t) && OpenDisputesUndecided(t)
  {
    hide Step, CommitmentId;
    StepHasEffect(cfg, s, call);
  }

  lemma StepKeepsDeadlines(cfg: Config, s: State, call: Call, window: nat)
    requires DeadlinesKept(cfg, s, window) && LifetimesBounded(cfg, s) && Step(cfg, s, call).Ok?
    ensures var t := Step(cfg, s, call).value; DeadlinesKept(cfg, t, window) && LifetimesBounded(cfg, t)
  {
    hide Step, OnlyScoresChange, CommitmentId;
    StepHasEffect(cfg, s, call);
  }

  lemma StepOrderly(cfg: Config, s: State, call: Call, window: nat)
    requires Orderly(cfg, s, window)
    ensures var t := Apply(cfg, s, call); Orderly(cfg, t, window) && DisputesFrozen(s, t)
  {
    hide Step;
    if Step(cfg, s, call).Ok? {
      hide OpenDisputesUndecided, DeadlinesKept, LifetimesBounded, DisputesFrozen;
      StepKeepsDisputes(cfg, s, call);
      StepKeepsDeadlines(cfg, s, call, window);
    }
  }

  lemma {:induction false} RunOrderly(cfg: Config, s: State, calls: seq<Call>, window: nat)
    requires Orderly(cfg, s, window)
    ensures var t := After(cfg, s, calls); Orderly(cfg, t, window) && DisputesFrozen(s, t)
  {
    if calls != [] {
      RunOrderly(cfg, s, calls[..|calls| - 1], window);
      StepOrderly(cfg, After(cfg, s, calls[..|calls| - 1]), calls[|calls| - 1], window);
    }
  }

  lemma ReachedOrderly(cfg: Config, genesis: State, calls: seq<Call>)
    requires Genesis(genesis)
    ensures Orderly(cfg, Reached(cfg, genesis, calls).chain, EffectiveDisputeWindow(cfg, genesis))
  {
    RunIsAfter(cfg, World(genesis, NO_HISTORY), calls);
    RunOrderly(cfg, genesis, calls, EffectiveDisputeWindow(cfg, genesis));
  }

  /** Each dispute receives at most one verdict, and no continuation of a run changes it. */
  lemma VerdictsStand(cfg: Config, genesis: State, calls: seq<Call>, more: seq<Call>)
    requires Genesis(genesis)
    ensures var s := Reached(cfg, genesis, calls).chain; DisputesFrozen(s, After(cfg, s, more))
  {
    ReachedOrderly(cfg, genesis, calls);
    RunOrderly(cfg, Reached(cfg, genesis, calls).chain, more, EffectiveDisputeWindow(cfg, genesis));
  }

  /** The window of a run is the genesis override, or the runtime's constant where there is none. */
  predicate WindowIs(cfg: Config, genesis: State, window: nat) {
    match genesis.db.windowOverride
    case Some(n) => window == n
    case None => window == cfg.disputeWindow
  }

  /**
   A dispute is recorded with its block and the full window after it. A guilty
   verdict falls only after that window, an answer only within it, and a
   disputed commitment cannot be expired however late it is.
   */
  lemma VerdictsKeepTheWindow(cfg: Config, genesis: State, calls: seq<Call>, call: Call, window: nat)
    requires Genesis(genesis) && WindowIs(cfg, genesis, window)
    requires Step(cfg, Reached(cfg, genesis, calls).chain, call).Ok?
    ensures var s := Reached(cfg, genesis, calls).chain;
            && (call.RaiseDispute? ==>
                  var t := Step(cfg, s, call).value;
                  && call.id in t.db.disputes && t.db.disputes[call.id].raisedAt == s.now
                  && t.db.disputes[call.id].counterDeadline == Min(s.now + window, U32_MAX))
            && (call.FinalizeDispute? ==>
                  call.id in s.db.disputes && s.now > s.db.disputes[call.id].raisedAt + window)
            && (call.CounterDispute? ==>
                  call.id in s.db.disputes && s.now <= s.db.disputes[call.id].raisedAt + window)
            && (call.ExpireCommitment? ==>
                  call.id in s.db.commitments && s.db.commitments[call.id].status != Disputed)
  {
    ReachedOrderly(cfg, genesis, calls);
    hide Reached, Step, CommitmentId;
    StepHasEffect(cfg, Reached(cfg, genesis, calls).chain, call);
  }

  // ----------------------------------------------------------------- no stuck deals

  /** The permissionless call that retires a commitment in its present state. */
  function Retire(s: State, anyone: Account, id: Hash): Call
    requires id in s.db.commitments
  {
    if s.db.commitments[id].status == Disputed then FinalizeDispute(anyone, id) else ExpireCommitment(anyone, id)
  }

  /**
   No stuck deal: once a commitment's maximal lifetime and one dispute window
   have passed, any signer can retire it unless it is already decided.
   */
  lemma NoStuckDeal(cfg: Config, genesis: State, calls: seq<Call>, anyone: Account, id: Hash, window: nat)
    requires Genesis(genesis) && WindowIs(cfg, genesis, window)
    requires var s := Reached(cfg, genesis, calls).chain;
             id in s.db.commitments && s.db.commitments[id].createdAt + cfg.maxCommitmentLifetime + window <= s.now
    ensures var s := Reached(cfg, genesis, calls).chain;
            var status := s.db.commitments[id].status;
            Step(cfg, s, Retire(s, anyone, id)).Ok? <==> status != Settled && status != DisputeResolved
  {
    ReachedOrderly(cfg, genesis, calls);
    FinalizeSucceedsIff(cfg, genesis, calls, anyone, id);
    OpenDealsAreFunded(cfg, genesis, calls, id);
    hide Reached, Commitments.FinalizeDispute;
  }

  // --------------------------------------------------------------------- revocation

  /** The disputed deal `id`, whose provider is revoked, is undecided or decided against the provider. */
  predicate DoomedDispute(s: State, id: Hash) {
    && id in s.db.commitments
    && var c := s.db.commitments[id];
    && IsRevoked(s.registry, c.provider)
    && (|| c.status == Disputed
        || (&& c.status == DisputeResolved
            && id in s.db.disputes && s.db.disputes[id].verdict == Some(ProviderGuilty)
            && id in s.escrows && s.escrows[id].status == Refunded))
  }

  lemma VerdictKeepsDoomed(cfg: Config, s: State, call: Call, id: Hash)
    requires call.CounterDispute? || call.FinalizeDispute?
    requires DoomedDispute(s, id) && Step(cfg, s, call).Ok?
    ensures DoomedDispute(Step(cfg, s, call).value, id)
  {
    hide Step;
    StepHasEffect(cfg, s, call);
  }

  lemma OtherCallKeepsDoomed(cfg: Config, s: State, call: Call, id: Hash)
    requires !call.CounterDispute? && !call.FinalizeDispute?
    requires DoomedDispute(s, id) && Step(cfg, s, call).Ok?
    ensures DoomedDispute(Step(cfg, s, call).value, id)
  {
    hide Step, CommitmentId;
    StepHasEffect(cfg, s, call);
    StepEvolves(cfg, s, call);
  }

  lemma StepKeepsDoomed(cfg: Config, s: State, call: Call, id: Hash)
    requires DoomedDispute(s, id)
    ensures DoomedDispute(Apply(cfg, s, call), id)
  {
    hide Step, DoomedDispute;
    if Step(cfg, s, call).Ok? {
      if call.CounterDispute? || call.FinalizeDispute? {
        VerdictKeepsDoomed(cfg, s, call, id);
      } else {
        OtherCallKeepsDoomed(cfg, s, call, id);
      }
    }
  }

  /** Revocation decides open disputes: every continuation leaves it open or ends in a guilty verdict and a refund. */
  lemma {:induction false} RevocationDecidesDisputes(cfg: Config, s: State, calls: seq<Call>, id: Hash)
    requires id in s.db.commitments && s.db.commitments[id].status == Disputed
    requires IsRevoked(s.registry, s.db.commitments[id].provider)
    ensures DoomedDispute(After(cfg, s, calls), id)
  {
    if calls != [] {
      RevocationDecidesDisputes(cfg, s, calls[..|calls| - 1], id);
      StepKeepsDoomed(cfg, After(cfg, s, calls[..|calls| - 1]), calls[|calls| - 1], id);
    }
  }
}
