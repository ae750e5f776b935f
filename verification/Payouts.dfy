/** What closing an escrow, or deregistering an agent, actually pays, over every run. */
module Payouts {
  import opened Primitives
  import opened Chain
  import opened Currency
  import opened Runs
  import opened Effects
  import opened Settlement
  import Ledger = Money

  /** `amount`, or short of it by at most what was burned from the payer. */
  predicate UpToBurns(h: History, payer: Account, amount: nat, paid: int) {
    && amount - Burned(h, payer) <= paid <= amount
    && (Burned(h, payer) == 0 ==> paid == amount)
  }

  function Gain(s: State, t: State, x: Account): int {
    Funds(t.balances, x).free - Funds(s.balances, x).free
  }

  /**
   Settling and answering a dispute pay the noted payee, a lost dispute the
   noted payer, and nobody else; the sum is the agreed price, short by at most
   what was burned from the payer.
   */
  lemma ClosingPaysUpToBurns(cfg: Config, genesis: State, calls: seq<Call>, call: Call, x: Account)
    requires Genesis(genesis) && (call.CloseCommitment? || call.CounterDispute? || call.FinalizeDispute?)
    requires Step(cfg, Reached(cfg, genesis, calls).chain, call).Ok?
    ensures var w := Reached(cfg, genesis, calls);
            && call.id in w.past.parties
            && var p, paid := w.past.parties[call.id], Gain(w.chain, Step(cfg, w.chain, call).value, x);
            if x == (if call.FinalizeDispute? then p.payer else p.payee) then UpToBurns(w.past, p.payer, p.amount, paid)
            else paid == 0
  {
    var w := Reached(cfg, genesis, calls);
    PartiesAreFrozen(cfg, genesis, calls, call.id);
    hide Reached, Step, OnlyScoresChange, Reach;
    StepHasEffect(cfg, w.chain, call);
    Ledger.OpenEscrowIsCovered(cfg, genesis, calls, call.id);
    if call.FinalizeDispute? {
      RefundPaysTheNotedPayer(cfg, genesis, calls, call, x);
    } else {
      ReleasePaysTheNotedPayee(cfg, genesis, calls, call, x);
    }
  }

  lemma DeregisterPays(cfg: Config, s: State, caller: Account, did: Did)
    requires Step(cfg, s, DeregisterAgent(caller, did)).Ok?
    ensures did in Ledger.ControlledBy(s.registry.profiles, caller)
    ensures Gain(s, Step(cfg, s, DeregisterAgent(caller, did)).value, caller)
            == Reach(s.balances, caller, cfg.registrationDeposit)
  {
  }

  /** Deregistering returns the deposit, short by at most what was burned from the controller. */
  lemma DeregisteringPaysUpToBurns(cfg: Config, genesis: State, calls: seq<Call>, caller: Account, did: Did)
    requires Genesis(genesis) && Step(cfg, Reached(cfg, genesis, calls).chain, DeregisterAgent(caller, did)).Ok?
    ensures var w := Reached(cfg, genesis, calls);
            UpToBurns(w.past, caller, cfg.registrationDeposit,
                      Gain(w.chain, Step(cfg, w.chain, DeregisterAgent(caller, did)).value, caller))
  {
    var w := Reached(cfg, genesis, calls);
    var mine := Ledger.ControlledBy(w.chain.registry.profiles, caller);
    hide Reached, Step;
    DeregisterPays(cfg, w.chain, caller, did);
    Ledger.ReservesBackObligations(cfg, genesis, calls, caller);
    Ledger.HeldIsNonNegative(w.chain, caller, ZERO_HASH);
    assert |mine| > 0 by {
      assert did in mine;
    }
    Ledger.DepositsGrow(cfg.registrationDeposit, |mine| - 1);
  }

  /** A controller whose burned slashes do not reach its deposit has an account, so it can always be paid. */
  lemma ControllersCanBePaid(cfg: Config, genesis: State, calls: seq<Call>, a: Account, did: Did)
    requires Genesis(genesis)
    requires var w := Reached(cfg, genesis, calls);
             did in Ledger.ControlledBy(w.chain.registry.profiles, a) && Burned(w.past, a) < cfg.registrationDeposit
    ensures var s := Reached(cfg, genesis, calls).chain;
            a in s.balances && forall e: EscrowRecord | e.payee == a :: !PayeeDead(s, e)
  {
    var w := Reached(cfg, genesis, calls);
    var mine := Ledger.ControlledBy(w.chain.registry.profiles, a);
    hide Reached;
    Ledger.ReservesBackObligations(cfg, genesis, calls, a);
    Ledger.HeldIsNonNegative(w.chain, a, ZERO_HASH);
    assert |mine| > 0 by {
      assert did in mine;
    }
    Ledger.DepositsGrow(cfg.registrationDeposit, |mine| - 1);
  }
}
