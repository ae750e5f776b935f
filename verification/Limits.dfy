/**
 Where the code stops short of what its comments promise: best-effort reserves,
 and the clock's last block.
 */
module Limits {
  import opened Primitives
  import opened Chain
  import opened Currency
  import opened Agents
  import opened Commitments
  import opened Runs
  import Escrow

  // ------------------------------------------------------------------ money

  /** A release pays in full if and only if the payer's reserve still covers the amount. */
  lemma ReleasePaysInFullIff(s: State, id: Hash)
    requires Escrow.Release(s, id).Ok?
    ensures var e, t := s.escrows[id], Escrow.Release(s, id).value;
            Funds(t.balances, e.payee).free == Funds(s.balances, e.payee).free + e.amount
            <==> Funds(s.balances, e.payer).reserved >= e.amount
  {
  }

  /** Deregistering returns the deposit in full if and only if the controller's reserve still covers it. */
  lemma DepositReturnsInFullIff(cfg: Config, s: State, caller: Account, did: Did)
    requires Agents.DeregisterAgent(cfg, s, caller, did).Ok?
    ensures var t := Agents.DeregisterAgent(cfg, s, caller, did).value;
            Funds(t.balances, caller).free == Funds(s.balances, caller).free + cfg.registrationDeposit
            <==> Funds(s.balances, caller).reserved >= cfg.registrationDeposit
  {
  }

  // ------------------------------------------------------------------ the last block

  /** At the clock's last block the cooldown is gone: a star that can be given can be given again at once. */
  lemma LastBlockHasNoCooldown(cfg: Config, s: State, call: Call)
    requires s.now == U32_MAX && call.GiveStar? && Step(cfg, s, call).Ok?
    ensures Step(cfg, Step(cfg, s, call).value, call).Ok?
  {
  }

  /** At the clock's last block an offer expires as it is made, and its id can be handed out again. */
  lemma LastBlockReusesIds(cfg: Config, s: State, call: Call, anyone: Account)
    requires s.now == U32_MAX && call.RegisterCommitment? && Step(cfg, s, call).Ok?
    ensures var id := CommitmentId(cfg, Offer(call.provider, call.consumer, call.root, s.now));
            var expired := Step(cfg, Step(cfg, s, call).value, ExpireCommitment(anyone, id));
            && expired.Ok? && id !in expired.value.db.commitments
            && Step(cfg, expired.value, call).Ok? && id in Step(cfg, expired.value, call).value.db.commitments
  {
  }
}
