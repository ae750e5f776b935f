/** The in-place runtime, built at genesis and driven by any list of extrinsics. */
module Operation {
  import opened Primitives
  import opened Sums
  import opened Chain
  import opened Currency
  import opened Agents
  import opened Runs
  import opened Effects
  import opened Settlement
  import opened Runtime
  import opened Strikes
  import Ledger = Money

  function AmountOf(e: DepositSlashed): int {
    e.amount
  }

  /** All amounts ever reported as slashed. */
  ghost function Slashed(s: State): int {
    SeqSum(s.slashes, AmountOf)
  }

  lemma GuiltyBalances(cfg: Config, s: State, did: Did, amount: nat)
    ensures var t := SlashForGuiltyDelivery(cfg, s, did, amount);
            Ledger.Issuance(t.balances) + Slashed(t) == Ledger.Issuance(s.balances) + Slashed(s)
  {
    hide SlashForGuiltyDelivery, SlashReserved, SeqSum, Ledger.Issuance;
    var t := SlashForGuiltyDelivery(cfg, s, did, amount);
    GuiltyCases(cfg, s, did, amount);
    if t.slashes != s.slashes {
      SeqSumPush(s.slashes, AmountOf, t.slashes[|s.slashes|]);
      Ledger.SlashBurns(s.balances, s.registry.profiles[did].controller, cfg.depositSlashPerStrike);
    }
  }

  /** The storage alone balances: what balances lose, slash reports gain. */
  lemma StepBalances(cfg: Config, s: State, call: Call)
    ensures var t := Apply(cfg, s, call);
            Ledger.Issuance(t.balances) + Slashed(t) == Ledger.Issuance(s.balances) + Slashed(s)
  {
    hide Step, SlashForGuiltyDelivery, SeqSum, Ledger.Issuance;
    if Step(cfg, s, call).Ok? {
      if call.FinalizeDispute? {
        FinalizeIsRefundThenSlash(cfg, s, call);
        Ledger.UnreserveConserves(s.balances, s.escrows[call.id].payer, s.escrows[call.id].amount);
        GuiltyBalances(cfg, Strikes.Refunded(s, call.id), s.db.commitments[call.id].provider, cfg.providerGuiltySlash);
      } else {
        StrikesUntouched(cfg, s, call);
        if Progresses(call) || call.RegisterCommitment? {
          Ledger.DealConserves(cfg, s, call);
        } else {
          Ledger.QuietConserves(cfg, s, call);
        }
      }
    }
  }

  lemma {:induction false} RunBalances(cfg: Config, s: State, calls: seq<Call>)
    ensures var t := After(cfg, s, calls);
            Ledger.Issuance(t.balances) + Slashed(t) == Ledger.Issuance(s.balances) + Slashed(s)
  {
    if calls != [] {
      RunBalances(cfg, s, calls[..|calls| - 1]);
      StepBalances(cfg, After(cfg, s, calls[..|calls| - 1]), calls[|calls| - 1]);
    }
  }

  /** The books of a storage grown from `balances`: nothing created, every reserve short by at most its reports. */
  ghost predicate BooksInOrder(cfg: Config, balances: Balances, s: State) {
    && Ledger.Issuance(s.balances) + Slashed(s) == Ledger.Issuance(balances)
    && forall a :: 0 <= Ledger.Owed(cfg, s, a) - Funds(s.balances, a).reserved <= Reported(s, a)
  }

  /** A dispute past its deadline can be finalised by `anyone`, and not before. */
  predicate FinalizesOnTime(cfg: Config, s: State, anyone: Account, id: Hash) {
    id in s.db.commitments && s.db.commitments[id].status == Disputed ==>
      && id in s.db.disputes
      && (Step(cfg, s, FinalizeDispute(anyone, id)).Ok? <==> s.now > s.db.disputes[id].counterDeadline)
  }

  /** No open deal is without its funds, and no dispute can be kept open past its deadline. */
  ghost predicate DealsInOrder(cfg: Config, s: State) {
    && (forall id :: Upheld(s, id))
    && (forall anyone, id :: FinalizesOnTime(cfg, s, anyone, id))
  }

  lemma BooksBalance(cfg: Config, genesis: State, calls: seq<Call>)
    requires Genesis(genesis)
    ensures BooksInOrder(cfg, genesis.balances, Reached(cfg, genesis, calls).chain)
  {
    var s := Reached(cfg, genesis, calls).chain;
    RunIsAfter(cfg, World(genesis, NO_HISTORY), calls);
    RunBalances(cfg, genesis, calls);
    assert Slashed(genesis) == 0;
    forall a ensures 0 <= Ledger.Owed(cfg, s, a) - Funds(s.balances, a).reserved <= Reported(s, a) {
      Ledger.ReservesBackObligations(cfg, genesis, calls, a);
      BurnsAreReported(cfg, genesis, calls, a);
    }
  }

  lemma DealsStand(cfg: Config, genesis: State, calls: seq<Call>)
    requires Genesis(genesis)
    ensures DealsInOrder(cfg, Reached(cfg, genesis, calls).chain)
  {
    var s := Reached(cfg, genesis, calls).chain;
    hide Reached, Step;
    forall id ensures Upheld(s, id) {
      OpenDealsAreFunded(cfg, genesis, calls, id);
    }
    forall anyone, id ensures FinalizesOnTime(cfg, s, anyone, id) {
      OpenDealsAreFunded(cfg, genesis, calls, id);
      FinalizeSucceedsIff(cfg, genesis, calls, anyone, id);
    }
  }

  /** A runtime built at genesis and fed any calls is where the run says, with books and deals in order. */
  method Operate(cfg: Config, balances: Balances, window: Option<nat>, calls: seq<Call>) returns (runtime: Runtime)
    requires forall a :: a in balances ==> balances[a].reserved == 0
    ensures fresh(runtime) && runtime.cfg == cfg
    ensures runtime.Snapshot() == Reached(cfg, Opening(balances, window), calls).chain
    ensures BooksInOrder(cfg, balances, runtime.Snapshot())
    ensures DealsInOrder(cfg, runtime.Snapshot())
  {
    runtime := new Runtime(cfg, balances, window);
    runtime.Replay(calls);
    RunIsAfter(cfg, World(Opening(balances, window), NO_HISTORY), calls);
    BooksBalance(cfg, Opening(balances, window), calls);
    DealsStand(cfg, Opening(balances, window), calls);
  }
}
