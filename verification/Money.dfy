/** Conservation of money, and how well reserved balances back what is owed from them. */
module Money {
  import opened Primitives
  import opened Sums
  import opened Chain
  import opened Currency
  import opened Agents
  import opened Commitments
  import opened Runs
  import opened Effects
  import Escrow
  import Strikes

  // ------------------------------------------------------------------- conservation

  function Worth(a: Account, d: AccountData): int {
    d.free + d.reserved
  }

  /** All free and reserved balances together. */
  ghost function Issuance(b: Balances): int {
    MapSum(b, Worth)
  }

  function Loss(a: Account, x: int): int {
    x
  }

  ghost function TotalBurned(h: History): int {
    MapSum(h.burned, Loss)
  }

  lemma ReserveConserves(b: Balances, who: Account, amount: nat)
    requires Reserve(b, who, amount).Ok?
    ensures Issuance(Reserve(b, who, amount).value) == Issuance(b)
  {
    var d := Funds(b, who);
    if amount > 0 {
      MapSumPut(b, Worth, who, AccountData(d.free - amount, d.reserved + amount));
    }
  }

  lemma UnreserveConserves(b: Balances, who: Account, amount: nat)
    ensures Issuance(Unreserve(b, who, amount)) == Issuance(b)
  {
    var m := Reach(b, who, amount);
    if m > 0 {
      MapSumPut(b, Worth, who, AccountData(b[who].free + m, b[who].reserved - m));
    }
  }

  lemma SlashBurns(b: Balances, who: Account, amount: nat)
    ensures Issuance(SlashReserved(b, who, amount)) == Issuance(b) - Reach(b, who, amount)
    ensures Wealth(SlashReserved(b, who, amount), who) == Wealth(b, who) - Reach(b, who, amount)
    ensures forall a | a != who :: Funds(SlashReserved(b, who, amount), a) == Funds(b, a)
  {
    var m := Reach(b, who, amount);
    if m > 0 {
      MapSumPut(b, Worth, who, b[who].(reserved := b[who].reserved - m));
    }
  }

  lemma RepatriateConserves(b: Balances, payer: Account, payee: Account, amount: nat)
    requires Repatriate(b, payer, payee, amount).Ok?
    ensures Issuance(Repatriate(b, payer, payee, amount).value) == Issuance(b)
  {
    var m := Reach(b, payer, amount);
    if payer == payee {
      UnreserveConserves(b, payer, amount);
    } else if m > 0 {
      var debited: Balances := b[payer := b[payer].(reserved := b[payer].reserved - m)];
      MapSumPut(b, Worth, payer, debited[payer]);
      MapSumPut(debited, Worth, payee, b[payee].(free := b[payee].free + m));
    }
  }

  lemma TransferConserves(b: Balances, from: Account, to: Account, amount: nat)
    requires Currency.Transfer(b, from, to, amount).Ok?
    ensures Issuance(Currency.Transfer(b, from, to, amount).value) == Issuance(b)
  {
    if from != to && amount > 0 {
      var debited: Balances := b[from := b[from].(free := b[from].free - amount)];
      MapSumPut(b, Worth, from, debited[from]);
      var d := Funds(debited, to);
      MapSumPut(debited, Worth, to, d.(free := d.free + amount));
    }
  }

  lemma GuiltyBurns(cfg: Config, s: State, did: Did, amount: nat)
    ensures var t := SlashForGuiltyDelivery(cfg, s, did, amount);
            && (did !in s.registry.profiles ==> t.balances == s.balances)
            && (did in s.registry.profiles ==>
                  var a := s.registry.profiles[did].controller;
                  && Issuance(t.balances) - Issuance(s.balances) == Wealth(t.balances, a) - Wealth(s.balances, a)
                  && Wealth(t.balances, a) <= Wealth(s.balances, a)
                  && forall x | x != a :: Funds(t.balances, x) == Funds(s.balances, x))
  {
    hide SlashForGuiltyDelivery, SlashReserved;
    GuiltyCases(cfg, s, did, amount);
    if did in s.registry.profiles {
      SlashBurns(s.balances, s.registry.profiles[did].controller, cfg.depositSlashPerStrike);
    }
  }

  /** The ways money moves in one successful call other than a guilty verdict: between balances only. */
  lemma QuietConserves(cfg: Config, s: State, call: Call)
    requires Step(cfg, s, call).Ok?
    requires call.NextBlock? || call.Transfer? || call.Reap? || call.RegisterAgent? || call.DeregisterAgent?
             || call.SetAgentStatus? || call.GiveStar? || call.RemoveStar?
    ensures Issuance(Step(cfg, s, call).value.balances) == Issuance(s.balances)
  {
    match call
    case Transfer(source, target, amount) => TransferConserves(s.balances, source, target, amount);
    case Reap(account) => MapSumDrop(s.balances, Worth, account);
    case RegisterAgent(caller, _, _, _) => ReserveConserves(s.balances, caller, cfg.registrationDeposit);
    case DeregisterAgent(caller, _) => UnreserveConserves(s.balances, caller, cfg.registrationDeposit);
    case _ =>
  }

  lemma ReleaseConserves(cfg: Config, s: State, call: Call)
    requires call.CloseCommitment? || call.CounterDispute?
    requires Step(cfg, s, call).Ok?
    ensures Issuance(Step(cfg, s, call).value.balances) == Issuance(s.balances)
  {
    hide Step, Issuance, ProofAnswers;
    StepIs(cfg, s, call);
    var e := s.escrows[call.id];
    RepatriateConserves(s.balances, e.payer, e.payee, e.amount);
  }

  lemma DealConserves(cfg: Config, s: State, call: Call)
    requires Step(cfg, s, call).Ok?
    requires call.RegisterCommitment? || call.AcknowledgeCommitment? || call.CloseCommitment? || call.RaiseDispute?
             || call.CounterDispute? || call.ExpireCommitment?
    ensures Issuance(Step(cfg, s, call).value.balances) == Issuance(s.balances)
  {
    if call.CloseCommitment? || call.CounterDispute? {
      hide Step, Issuance;
      ReleaseConserves(cfg, s, call);
    } else if call.AcknowledgeCommitment? {
      ReserveConserves(s.balances, call.caller, s.db.commitments[call.id].price);
    } else if call.ExpireCommitment? || call.RaiseDispute? {
      hide Step;
      StepHasEffect(cfg, s, call);
    }
  }

  lemma BurnsAreGuilty(cfg: Config, w: World, call: Call)
    requires !call.FinalizeDispute?
    ensures Next(cfg, w, call).past.burned == w.past.burned
  {
  }

  /** Every step keeps issuance plus burned slashes constant. */
  lemma StepConserves(cfg: Config, w: World, call: Call)
    ensures var v := Next(cfg, w, call);
            Issuance(v.chain.balances) + TotalBurned(v.past) == Issuance(w.chain.balances) + TotalBurned(w.past)
  {
    hide *;
    NextIs(cfg, w, call);
    if Step(cfg, w.chain, call).Ok? {
      if call.FinalizeDispute? {
        FinalizeConserves(cfg, w, call);
      } else {
        BurnsAreGuilty(cfg, w, call);
        SameBurned(w.past, Next(cfg, w, call).past);
        if call.RegisterCommitment? || call.AcknowledgeCommitment? || call.CloseCommitment? || call.RaiseDispute?
           || call.CounterDispute? || call.ExpireCommitment? {
          DealConserves(cfg, w.chain, call);
        } else {
          QuietConserves(cfg, w.chain, call);
        }
      }
    }
  }

  lemma SameBurned(h: History, k: History)
    requires h.burned == k.burned
    ensures TotalBurned(h) == TotalBurned(k)
  {
  }

  lemma FinalizeConserves(cfg: Config, w: World, call: Call)
    requires call.FinalizeDispute? && Step(cfg, w.chain, call).Ok?
    ensures var v := Next(cfg, w, call);
            Issuance(v.chain.balances) + TotalBurned(v.past) == Issuance(w.chain.balances) + TotalBurned(w.past)
  {
    hide Step, Next, Observe, SlashForGuiltyDelivery, Issuance;
    var s, id := w.chain, call.id;
    NextIs(cfg, w, call);
    Strikes.FinalizeIsRefundThenSlash(cfg, s, call);
    Strikes.GuiltyNotes(cfg, w, call);
    UnreserveConserves(s.balances, s.escrows[id].payer, s.escrows[id].amount);
    var refunded, provider := Strikes.Refunded(s, id), s.db.commitments[id].provider;
    GuiltyBurns(cfg, refunded, provider, cfg.providerGuiltySlash);
    if provider in s.registry.profiles {
      var a := s.registry.profiles[provider].controller;
      assert Wealth(refunded.balances, a) == Wealth(s.balances, a);
      MapSumPut(w.past.burned, Loss, a, Next(cfg, w, call).past.burned[a]);
    }
  }

  /** Over every run, from any genesis, no money appears and only reported slashes make it disappear. */
  lemma {:induction false} MoneyIsConserved(cfg: Config, genesis: State, calls: seq<Call>)
    ensures var w := Reached(cfg, genesis, calls);
            Issuance(w.chain.balances) + TotalBurned(w.past) == Issuance(genesis.balances)
  {
    if calls != [] {
      MoneyIsConserved(cfg, genesis, calls[..|calls| - 1]);
      StepConserves(cfg, Reached(cfg, genesis, calls[..|calls| - 1]), calls[|calls| - 1]);
    }
  }

  // ------------------------------------------------------------------------ backing

  /** The DIDs an account has registered, revoked ones included. */
  function ControlledBy(profiles: map<Did, Profile>, a: Account): set<Did> {
    set d | d in profiles && profiles[d].controller == a
  }

  function HeldFrom(a: Account): (Hash, EscrowRecord) -> int {
    (id: Hash, r: EscrowRecord) => if r.status == Locked && r.payer == a then r.amount else 0
  }

  /** What `a`'s reserved balance is supposed to hold: its deposits and its open escrows. */
  ghost function Owed(cfg: Config, s: State, a: Account): int {
    cfg.registrationDeposit * |ControlledBy(s.registry.profiles, a)| + MapSum(s.escrows, HeldFrom(a))
  }

  /** The shortfall of `a`'s reserve. */
  ghost function Gap(cfg: Config, s: State, a: Account): int {
    Owed(cfg, s, a) - Funds(s.balances, a).reserved
  }

  ghost predicate Backed(cfg: Config, s: State, a: Account, burned: int) {
    0 <= Gap(cfg, s, a) <= burned
  }

  lemma HeldIsNonNegative(s: State, a: Account, id: Hash)
    ensures 0 <= At(s.escrows, HeldFrom(a), id) <= MapSum(s.escrows, HeldFrom(a))
  {
    MapSumAtLeast(s.escrows, HeldFrom(a), id);
  }

  lemma DepositsGrow(d: nat, n: nat)
    ensures d * (n + 1) == d * n + d && d * n >= 0
  {
  }

  lemma RegisterBacked(cfg: Config, s: State, call: Call, a: Account, burned: int)
    requires call.RegisterAgent? && Step(cfg, s, call).Ok? && Backed(cfg, s, a, burned)
    ensures Backed(cfg, Step(cfg, s, call).value, a, burned)
  {
    var t := Step(cfg, s, call).value;
    var did := DidOf(cfg, call.pubkey);
    var was := ControlledBy(s.registry.profiles, a);
    if a == call.caller {
      assert ControlledBy(t.registry.profiles, a) == was + {did};
      DepositsGrow(cfg.registrationDeposit, |was|);
    } else {
      assert ControlledBy(t.registry.profiles, a) == was;
    }
  }

  lemma DeregisterBacked(cfg: Config, s: State, call: Call, a: Account, burned: int)
    requires call.DeregisterAgent? && Step(cfg, s, call).Ok? && Backed(cfg, s, a, burned)
    ensures Backed(cfg, Step(cfg, s, call).value, a, burned)
  {
    var t := Step(cfg, s, call).value;
    var now := ControlledBy(t.registry.profiles, a);
    HeldIsNonNegative(s, a, ZERO_HASH);
    DepositsGrow(cfg.registrationDeposit, |now|);
    if a == call.caller {
      assert ControlledBy(s.registry.profiles, a) == now + {call.did};
    } else {
      assert ControlledBy(s.registry.profiles, a) == now;
    }
  }

  lemma LockBacked(cfg: Config, s: State, id: Hash, payer: Account, payee: Account, amount: nat, a: Account,
                   burned: int)
    requires Escrow.Lock(s, id, payer, payee, amount).Ok? && Backed(cfg, s, a, burned)
    ensures Backed(cfg, Escrow.Lock(s, id, payer, payee, amount).value, a, burned)
  {
    MapSumPut(s.escrows, HeldFrom(a), id, EscrowRecord(payer, payee, amount, Locked, s.now));
  }

  /** Taking a closed escrow off the books and up to its amount out of the reserve keeps the gap in range. */
  lemma CloseEscrowBacked(cfg: Config, s: State, id: Hash, status: EscrowStatus, t: State, a: Account, burned: int)
    requires id in s.escrows && s.escrows[id].status == Locked && status != Locked
    requires Backed(cfg, s, a, burned)
    requires t.registry == s.registry
    requires t.escrows == s.escrows[id := s.escrows[id].(status := status)]
    requires Funds(t.balances, a).reserved == Funds(s.balances, a).reserved
             - if a == s.escrows[id].payer then Reach(s.balances, a, s.escrows[id].amount) else 0
    ensures Backed(cfg, t, a, burned)
  {
    MapSumPut(s.escrows, HeldFrom(a), id, t.escrows[id]);
    HeldIsNonNegative(t, a, ZERO_HASH);
    DepositsGrow(cfg.registrationDeposit, |ControlledBy(s.registry.profiles, a)|);
  }

  lemma ReleaseBacked(cfg: Config, s: State, id: Hash, a: Account, burned: int)
    requires Escrow.Release(s, id).Ok? && Backed(cfg, s, a, burned)
    ensures Backed(cfg, Escrow.Release(s, id).value, a, burned)
  {
    CloseEscrowBacked(cfg, s, id, Released, Escrow.Release(s, id).value, a, burned);
  }

  lemma RefundBacked(cfg: Config, s: State, id: Hash, a: Account, burned: int)
    requires Escrow.Refund(s, id).Ok? && Backed(cfg, s, a, burned)
    ensures Backed(cfg, Escrow.Refund(s, id).value, a, burned)
  {
    CloseEscrowBacked(cfg, s, id, Refunded, Escrow.Refund(s, id).value, a, burned);
  }

  /** Changing a score or a status leaves every controller's deposits alone. */
  lemma SameControllers(s: State, t: State, a: Account)
    requires t.registry.profiles.Keys == s.registry.profiles.Keys
    requires forall d | d in s.registry.profiles ::
               t.registry.profiles[d].controller == s.registry.profiles[d].controller
    ensures ControlledBy(t.registry.profiles, a) == ControlledBy(s.registry.profiles, a)
  {
  }

  lemma GuiltyBacked(cfg: Config, s: State, did: Did, amount: nat, a: Account, burned: int)
    requires Backed(cfg, s, a, burned)
    ensures var t := SlashForGuiltyDelivery(cfg, s, did, amount);
            Backed(cfg, t, a, burned + Wealth(s.balances, a) - Wealth(t.balances, a))
  {
    hide SlashForGuiltyDelivery;
    var t := SlashForGuiltyDelivery(cfg, s, did, amount);
    GuiltyEffect(cfg, s, did, amount);
    GuiltyCases(cfg, s, did, amount);
    SameControllers(s, t, a);
    if did in s.registry.profiles {
      SlashBurns(s.balances, s.registry.profiles[did].controller, cfg.depositSlashPerStrike);
    }
  }

  lemma RefundedBacked(cfg: Config, s: State, id: Hash, a: Account, burned: int)
    requires id in s.db.commitments && id in s.db.disputes && id in s.escrows && s.escrows[id].status == Locked
    requires Backed(cfg, s, a, burned)
    ensures Backed(cfg, Strikes.Refunded(s, id), a, burned)
  {
    var resolved := Resolve(s, id, s.db.commitments[id], s.db.disputes[id], ProviderGuilty);
    assert Backed(cfg, resolved, a, burned);
    RefundBacked(cfg, resolved, id, a, burned);
  }

  lemma FinalizeBacked(cfg: Config, w: World, call: Call, a: Account)
    requires call.FinalizeDispute? && Step(cfg, w.chain, call).Ok?
    requires Backed(cfg, w.chain, a, Burned(w.past, a))
    ensures var v := Next(cfg, w, call); Backed(cfg, v.chain, a, Burned(v.past, a))
  {
    hide Step, Next, Observe, SlashForGuiltyDelivery, Backed, Strikes.Refunded;
    NextIs(cfg, w, call);
    Strikes.FinalizeIsRefundThenSlash(cfg, w.chain, call);
    Strikes.GuiltyNotes(cfg, w, call);
    var refunded, provider := Strikes.Refunded(w.chain, call.id), w.chain.db.commitments[call.id].provider;
    RefundedBacked(cfg, w.chain, call.id, a, Burned(w.past, a));
    GuiltyBacked(cfg, refunded, provider, cfg.providerGuiltySlash, a, Burned(w.past, a));
    GuiltyBurns(cfg, refunded, provider, cfg.providerGuiltySlash);
  }

  lemma AcknowledgeBacked(cfg: Config, s: State, call: Call, a: Account, burned: int)
    requires call.AcknowledgeCommitment? && Step(cfg, s, call).Ok? && Backed(cfg, s, a, burned)
    ensures Backed(cfg, Step(cfg, s, call).value, a, burned)
  {
    var c := s.db.commitments[call.id];
    LockBacked(cfg, s, call.id, call.caller, s.registry.profiles[c.provider].controller, c.price, a, burned);
  }

  lemma CloseBacked(cfg: Config, s: State, call: Call, a: Account, burned: int)
    requires call.CloseCommitment? && Step(cfg, s, call).Ok? && Backed(cfg, s, a, burned)
    ensures Backed(cfg, Step(cfg, s, call).value, a, burned)
  {
    var receipt := Receipt(call.finalStreamHash, call.chunkCount, s.now);
    ReleaseBacked(cfg, Settle(s, call.id, s.db.commitments[call.id], receipt), call.id, a, burned);
  }

  lemma CounterBacked(cfg: Config, s: State, call: Call, a: Account, burned: int)
    requires call.CounterDispute? && Step(cfg, s, call).Ok? && Backed(cfg, s, a, burned)
    ensures Backed(cfg, Step(cfg, s, call).value, a, burned)
  {
    var resolved := Resolve(s, call.id, s.db.commitments[call.id], s.db.disputes[call.id], ClaimantUnsubstantiated);
    ReleaseBacked(cfg, resolved, call.id, a, burned);
    SameControllers(Escrow.Release(resolved, call.id).value, Step(cfg, s, call).value, a);
  }

  lemma ProfileChangeBacked(cfg: Config, s: State, call: Call, a: Account, burned: int)
    requires call.SetAgentStatus? || call.GiveStar? || call.RemoveStar?
    requires Step(cfg, s, call).Ok? && Backed(cfg, s, a, burned)
    ensures Backed(cfg, Step(cfg, s, call).value, a, burned)
  {
    SameControllers(s, Step(cfg, s, call).value, a);
  }

  lemma StepBacked(cfg: Config, w: World, call: Call, a: Account)
    requires Backed(cfg, w.chain, a, Burned(w.past, a))
    ensures var v := Next(cfg, w, call); Backed(cfg, v.chain, a, Burned(v.past, a))
  {
    hide *;
    var s, burned := w.chain, Burned(w.past, a);
    NextIs(cfg, w, call);
    if Step(cfg, s, call).Ok? {
      if !call.FinalizeDispute? {
        BurnsAreGuilty(cfg, w, call);
        SameBurnedBy(w.past, Next(cfg, w, call).past, a);
      }
      match call
      case RegisterAgent(_, _, _, _) => RegisterBacked(cfg, s, call, a, burned);
      case DeregisterAgent(_, _) => DeregisterBacked(cfg, s, call, a, burned);
      case SetAgentStatus(_, _, _) => ProfileChangeBacked(cfg, s, call, a, burned);
      case GiveStar(_, _, _) => ProfileChangeBacked(cfg, s, call, a, burned);
      case RemoveStar(_, _, _) => ProfileChangeBacked(cfg, s, call, a, burned);
      case AcknowledgeCommitment(_, _, _) => AcknowledgeBacked(cfg, s, call, a, burned);
      case CloseCommitment(_, _, _, _, _) => CloseBacked(cfg, s, call, a, burned);
      case CounterDispute(_, _, _, _, _) => CounterBacked(cfg, s, call, a, burned);
      case FinalizeDispute(_, _) => FinalizeBacked(cfg, w, call, a);
      case _ => UnrelatedBacked(cfg, s, call, a, burned);
    }
  }

  lemma UnrelatedBacked(cfg: Config, s: State, call: Call, a: Account, burned: int)
    requires call.NextBlock? || call.Transfer? || call.Reap? || call.RegisterCommitment? || call.RaiseDispute?
             || call.ExpireCommitment?
    requires Step(cfg, s, call).Ok? && Backed(cfg, s, a, burned)
    ensures Backed(cfg, Step(cfg, s, call).value, a, burned)
  {
  }

  lemma SameBurnedBy(h: History, k: History, a: Account)
    requires h.burned == k.burned
    ensures Burned(h, a) == Burned(k, a)
  {
  }

  /**
   Reserve backing over every run: what an account's reserve is short of its
   deposits and open escrows is never more than strike slashes burned from it.
   */
  lemma {:induction false} ReservesBackObligations(cfg: Config, genesis: State, calls: seq<Call>, a: Account)
    requires Genesis(genesis)
    ensures var w := Reached(cfg, genesis, calls);
            0 <= Owed(cfg, w.chain, a) - Funds(w.chain.balances, a).reserved <= Burned(w.past, a)
  {
    if calls == [] {
      assert ControlledBy(genesis.registry.profiles, a) == {};
      MapSumZero(genesis.escrows, HeldFrom(a));
    } else {
      ReservesBackObligations(cfg, genesis, calls[..|calls| - 1], a);
      StepBacked(cfg, Reached(cfg, genesis, calls[..|calls| - 1]), calls[|calls| - 1], a);
    }
  }

  /** An account no slash ever reached holds in reserve exactly what it owes. */
  lemma UnslashedIsExactlyBacked(cfg: Config, genesis: State, calls: seq<Call>, a: Account)
    requires Genesis(genesis)
    requires Burned(Reached(cfg, genesis, calls).past, a) == 0
    ensures var w := Reached(cfg, genesis, calls); Funds(w.chain.balances, a).reserved == Owed(cfg, w.chain, a)
  {
    ReservesBackObligations(cfg, genesis, calls, a);
  }

  /** What an open escrow can draw from its payer's reserve: its amount less at most what was burned from the payer. */
  lemma OpenEscrowIsCovered(cfg: Config, genesis: State, calls: seq<Call>, id: Hash)
    requires Genesis(genesis)
    requires var e := Reached(cfg, genesis, calls).chain.escrows; id in e && e[id].status == Locked
    ensures var w := Reached(cfg, genesis, calls);
            var e := w.chain.escrows[id];
            && e.amount - Burned(w.past, e.payer) <= Reach(w.chain.balances, e.payer, e.amount) <= e.amount
            && (Burned(w.past, e.payer) == 0 ==> Reach(w.chain.balances, e.payer, e.amount) == e.amount)
  {
    var w := Reached(cfg, genesis, calls);
    var payer := w.chain.escrows[id].payer;
    ReservesBackObligations(cfg, genesis, calls, payer);
    HeldIsNonNegative(w.chain, payer, id);
    DepositsGrow(cfg.registrationDeposit, |ControlledBy(w.chain.registry.profiles, payer)|);
  }
}
