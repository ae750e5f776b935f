/** Every way a call moves a reputation score, and what suspension stops. */
module Reputation {
  import opened Primitives
  import opened Chain
  import opened Agents
  import opened Commitments
  import opened Runs
  import opened Effects
  import Currency
  import Strikes

  // --------------------------------------------------------------------------- scores

  function Lowered(score: nat, penalty: nat): int {
    if penalty <= score then score - penalty else 0
  }

  /** What a successful `call` leaves of the score of `d`. */
  function ScoreAfter(cfg: Config, s: State, call: Call, d: Did, score: nat): int {
    match call
    case GiveStar(_, _, receiver) => if d == receiver && score < U32_MAX then score + 1 else score
    case RemoveStar(_, _, receiver) => if d == receiver then Lowered(score, 1) else score
    case CounterDispute(_, id, _, _, _) =>
      if id in s.db.commitments && d == s.db.commitments[id].consumer then Lowered(score, cfg.falseDisputeSlash)
      else score
    case FinalizeDispute(_, id) =>
      if id in s.db.commitments && d == s.db.commitments[id].provider then Lowered(score, cfg.providerGuiltySlash)
      else score
    case _ => score
  }

  predicate ScoresMove(cfg: Config, s: State, call: Call, t: State, d: Did) {
    d in t.registry.profiles ==>
      t.registry.profiles[d].score
      == if d in s.registry.profiles then ScoreAfter(cfg, s, call, d, s.registry.profiles[d].score) else 0
  }

  lemma CounterMovesScores(cfg: Config, s: State, call: Call, d: Did)
    requires call.CounterDispute? && Step(cfg, s, call).Ok?
    ensures ScoresMove(cfg, s, call, Step(cfg, s, call).value, d)
  {
    hide Step, ProofAnswers;
    StepIs(cfg, s, call);
  }

  lemma SlashIsPlainForScores(cfg: Config, s: State, did: Did, amount: nat)
    ensures SlashForGuiltyDelivery(cfg, s, did, amount).registry.profiles
            == SlashReputation(s, did, amount).registry.profiles
  {
    hide SlashReputation, Currency.SlashReserved;
  }

  lemma SlashMovesScores(cfg: Config, s: State, did: Did, amount: nat, d: Did)
    requires d in s.registry.profiles
    ensures var t := SlashForGuiltyDelivery(cfg, s, did, amount);
            && d in t.registry.profiles
            && t.registry.profiles[d].score
               == if d == did then Lowered(s.registry.profiles[d].score, amount) else s.registry.profiles[d].score
  {
    hide SlashForGuiltyDelivery;
    SlashIsPlainForScores(cfg, s, did, amount);
  }

  lemma FinalizeMovesScores(cfg: Config, s: State, call: Call, d: Did)
    requires call.FinalizeDispute? && Step(cfg, s, call).Ok?
    ensures ScoresMove(cfg, s, call, Step(cfg, s, call).value, d)
  {
    hide Step, SlashForGuiltyDelivery;
    StepHasEffect(cfg, s, call);
    Strikes.FinalizeIsRefundThenSlash(cfg, s, call);
    if d in s.registry.profiles {
      var provider := s.db.commitments[call.id].provider;
      SlashMovesScores(cfg, Strikes.Refunded(s, call.id), provider, cfg.providerGuiltySlash, d);
    }
  }

  lemma AgentCallMovesScores(cfg: Config, s: State, call: Call, d: Did)
    requires AgentCall(call) && Step(cfg, s, call).Ok?
    requires d in s.registry.profiles ==> s.registry.profiles[d].score <= U32_MAX
    ensures ScoresMove(cfg, s, call, Step(cfg, s, call).value, d)
  {
  }

  /**
   Scores move only by stars and verdicts: an answered dispute costs the
   consumer who raised it, a lost one the provider, each its own amount and
   nobody else anything; a new agent starts at zero.
   */
  lemma StepMovesScores(cfg: Config, s: State, call: Call, d: Did)
    requires Step(cfg, s, call).Ok?
    requires d in s.registry.profiles ==> s.registry.profiles[d].score <= U32_MAX
    ensures ScoresMove(cfg, s, call, Step(cfg, s, call).value, d)
  {
    hide Step;
    if call.CounterDispute? {
      CounterMovesScores(cfg, s, call, d);
    } else if call.FinalizeDispute? {
      FinalizeMovesScores(cfg, s, call, d);
    } else if AgentCall(call) {
      AgentCallMovesScores(cfg, s, call, d);
    } else {
      StepHasEffect(cfg, s, call);
    }
  }

  /** Scores fit their type in every reachable state, so the law above holds of every step of every run. */
  lemma {:induction false} ScoresFit(cfg: Config, genesis: State, calls: seq<Call>, d: Did)
    requires Genesis(genesis)
    ensures var s := Reached(cfg, genesis, calls).chain;
            d in s.registry.profiles ==> s.registry.profiles[d].score <= U32_MAX
  {
    if calls != [] {
      var s, last := Reached(cfg, genesis, calls[..|calls| - 1]).chain, calls[|calls| - 1];
      ScoresFit(cfg, genesis, calls[..|calls| - 1], d);
      if Step(cfg, s, last).Ok? {
        hide Step;
        StepMovesScores(cfg, s, last, d);
        StepHasEffect(cfg, s, last);
      }
    }
  }

  // ----------------------------------------------------------------------- suspension

  predicate Suspends(s: State, did: Did) {
    did in s.registry.profiles && s.registry.profiles[did].status == Suspended
  }

  /** The call changes the status of `did` or removes it. */
  predicate Releases(call: Call, did: Did) {
    (call.SetAgentStatus? || call.DeregisterAgent?) && call.did == did
  }

  /** The call names `did` as the party it acts for, or offers it a deal. */
  predicate Needs(call: Call, did: Did) {
    || (call.RegisterCommitment? && (call.provider == did || call.consumer == did))
    || ((call.AcknowledgeCommitment? || call.CloseCommitment? || call.RaiseDispute?) && call.consumer == did)
    || (call.CounterDispute? && call.provider == did)
  }

  lemma SuspendedCannotDeal(cfg: Config, s: State, call: Call, did: Did)
    requires Suspends(s, did) && Needs(call, did)
    ensures Step(cfg, s, call).Err?
  {
    hide Step;
    if Step(cfg, s, call).Ok? {
      StepHasEffect(cfg, s, call);
    }
  }

  lemma AgentCallKeepsSuspended(cfg: Config, s: State, call: Call, did: Did)
    requires AgentCall(call) && Suspends(s, did) && !Releases(call, did) && Step(cfg, s, call).Ok?
    ensures Suspends(Step(cfg, s, call).value, did)
  {
  }

  lemma StepKeepsSuspended(cfg: Config, s: State, call: Call, did: Did)
    requires Suspends(s, did) && !Releases(call, did)
    ensures Suspends(Apply(cfg, s, call), did)
  {
    hide Step;
    if Step(cfg, s, call).Ok? {
      if AgentCall(call) {
        AgentCallKeepsSuspended(cfg, s, call, did);
      } else {
        StepHasEffect(cfg, s, call);
      }
    }
  }

  lemma {:induction false} SuspensionLasts(cfg: Config, s: State, calls: seq<Call>, did: Did)
    requires Suspends(s, did) && forall c | c in calls :: !Releases(c, did)
    ensures Suspends(After(cfg, s, calls), did)
  {
    if calls != [] {
      SuspensionLasts(cfg, s, calls[..|calls| - 1], did);
      StepKeepsSuspended(cfg, After(cfg, s, calls[..|calls| - 1]), calls[|calls| - 1], did);
    }
  }

  /**
   Suspension stops an agent's business at once and for as long as nobody
   changes its status or deregisters it, whatever else happens.
   */
  lemma SuspensionStopsDealing(cfg: Config, s: State, caller: Account, did: Did, calls: seq<Call>, call: Call)
    requires Step(cfg, s, SetAgentStatus(caller, did, Suspended)).Ok?
    requires (forall c | c in calls :: !Releases(c, did)) && Needs(call, did)
    ensures Step(cfg, After(cfg, Apply(cfg, s, SetAgentStatus(caller, did, Suspended)), calls), call).Err?
  {
    var t := Apply(cfg, s, SetAgentStatus(caller, did, Suspended));
    assert Suspends(t, did);
    hide Step, Apply;
    SuspensionLasts(cfg, t, calls, did);
    SuspendedCannotDeal(cfg, After(cfg, t, calls), call, did);
  }
}
