/** Guilty verdicts, strikes and deposit slashes over whole runs. */
module Strikes {
  import opened Primitives
  import opened Sums
  import opened Chain
  import opened Currency
  import opened Agents
  import opened Commitments
  import opened Runs
  import opened Effects
  import Escrow

  function IsAbout(did: Did): DepositSlashed -> int {
    (e: DepositSlashed) => if e.did == did then 1 else 0
  }

  function TakenFrom(a: Account): DepositSlashed -> int {
    (e: DepositSlashed) => if e.controller == a then e.amount else 0
  }

  /** Deposit slashes reported for `did`. */
  ghost function SlashCount(s: State, did: Did): int {
    SeqSum(s.slashes, IsAbout(did))
  }

  /** Amounts reported as slashed from `a`. */
  ghost function Reported(s: State, a: Account): int {
    SeqSum(s.slashes, TakenFrom(a))
  }

  /** Verdicts that found the provider registered are strikes on file plus a threshold's worth per slash. */
  ghost predicate StrikesCounted(cfg: Config, w: World, did: Did) {
    && Agents.Strikes(w.chain.registry, did) < cfg.strikeThreshold
    && GuiltyCount(w.past, did)
       == cfg.strikeThreshold * SlashCount(w.chain, did) + Agents.Strikes(w.chain.registry, did)
  }

  lemma GuiltyStrikes(cfg: Config, s: State, did: Did, amount: nat, d: Did)
    requires cfg.Valid() && Agents.Strikes(s.registry, d) < cfg.strikeThreshold
    ensures var t := SlashForGuiltyDelivery(cfg, s, did, amount);
            && Agents.Strikes(t.registry, d) < cfg.strikeThreshold
            && (d == did && did in s.registry.profiles ==>
                  cfg.strikeThreshold * (SlashCount(t, d) - SlashCount(s, d))
                  == Agents.Strikes(s.registry, d) + 1 - Agents.Strikes(t.registry, d))
            && (d != did || did !in s.registry.profiles ==>
                  && SlashCount(t, d) == SlashCount(s, d)
                  && Agents.Strikes(t.registry, d) == Agents.Strikes(s.registry, d))
  {
    hide SlashForGuiltyDelivery, SlashReserved, SeqSum;
    var t := SlashForGuiltyDelivery(cfg, s, did, amount);
    GuiltyCases(cfg, s, did, amount);
    if t.slashes != s.slashes {
      SeqSumPush(s.slashes, IsAbout(d), t.slashes[|s.slashes|]);
    }
  }

  /** The amount in a slash report is exactly what left the controller's reserve. */
  lemma ReportsAreExact(cfg: Config, s: State, did: Did, amount: nat, a: Account)
    ensures var t := SlashForGuiltyDelivery(cfg, s, did, amount);
            && Reported(t, a) - Reported(s, a) == Wealth(s.balances, a) - Wealth(t.balances, a)
            && Reported(t, a) - Reported(s, a) == Funds(s.balances, a).reserved - Funds(t.balances, a).reserved
  {
    hide SlashForGuiltyDelivery, SeqSum;
    var t := SlashForGuiltyDelivery(cfg, s, did, amount);
    GuiltyCases(cfg, s, did, amount);
    if t.slashes != s.slashes {
      SeqSumPush(s.slashes, TakenFrom(a), t.slashes[|s.slashes|]);
    }
  }

  /** The state a guilty verdict hands to the reputation hook. */
  function Refunded(s: State, id: Hash): State
    requires id in s.db.commitments && id in s.db.disputes && id in s.escrows && s.escrows[id].status == Locked
  {
    Escrow.Refund(Resolve(s, id, s.db.commitments[id], s.db.disputes[id], ProviderGuilty), id).value
  }

  lemma FinalizeIsRefundThenSlash(cfg: Config, s: State, call: Call)
    requires call.FinalizeDispute? && Step(cfg, s, call).Ok?
    ensures call.id in s.db.commitments && call.id in s.db.disputes && call.id in s.escrows
    ensures s.escrows[call.id].status == Locked
    ensures var r := Refunded(s, call.id);
            && Step(cfg, s, call).value
               == SlashForGuiltyDelivery(cfg, r, s.db.commitments[call.id].provider, cfg.providerGuiltySlash)
            && r.registry == s.registry && r.slashes == s.slashes
            && forall a :: Wealth(r.balances, a) == Wealth(s.balances, a)
  {
    hide SlashForGuiltyDelivery;
  }

  lemma GuiltyNotes(cfg: Config, w: World, call: Call)
    requires call.FinalizeDispute? && Step(cfg, w.chain, call).Ok?
    ensures var p := w.chain.db.commitments[call.id].provider;
            var v := Next(cfg, w, call);
            if p !in w.chain.registry.profiles then v.past.guilty == w.past.guilty && v.past.burned == w.past.burned
            else
              var a := w.chain.registry.profiles[p].controller;
              && v.past.guilty == w.past.guilty[p := GuiltyCount(w.past, p) + 1]
              && v.past.burned == w.past.burned[a :=
                   Burned(w.past, a) + Wealth(w.chain.balances, a) - Wealth(v.chain.balances, a)]
  {
    hide SlashForGuiltyDelivery;
  }

  lemma StrikesUntouched(cfg: Config, s: State, call: Call)
    requires !call.FinalizeDispute? && Step(cfg, s, call).Ok?
    ensures var t := Step(cfg, s, call).value;
            t.registry.disputeStrikes == s.registry.disputeStrikes && t.slashes == s.slashes
  {
    if Progresses(call) || call.RegisterCommitment? {
      hide Step;
      StepHasEffect(cfg, s, call);
    }
  }

  lemma StepCountsStrikes(cfg: Config, w: World, call: Call, did: Did)
    requires cfg.Valid() && StrikesCounted(cfg, w, did)
    ensures StrikesCounted(cfg, Next(cfg, w, call), did)
  {
    hide Step, Next, Observe, SlashForGuiltyDelivery, Refunded;
    NextIs(cfg, w, call);
    if Step(cfg, w.chain, call).Ok? {
      if call.FinalizeDispute? {
        FinalizeIsRefundThenSlash(cfg, w.chain, call);
        GuiltyNotes(cfg, w, call);
        var provider := w.chain.db.commitments[call.id].provider;
        GuiltyStrikes(cfg, Refunded(w.chain, call.id), provider, cfg.providerGuiltySlash, did);
        Distribute(cfg.strikeThreshold, SlashCount(Next(cfg, w, call).chain, did), SlashCount(w.chain, did));
      } else {
        StrikesUntouched(cfg, w.chain, call);
        NotesTaken(cfg, w, call);
      }
    }
  }

  lemma Distribute(k: int, x: int, y: int)
    ensures k * (x - y) == k * x - k * y
  {
  }

  /**
   Strike arithmetic over every run, across deregistration and
   re-registration: guilty verdicts that found the DID registered are the
   threshold times its deposit slashes, plus the strikes on file.
   */
  lemma {:induction false} StrikeArithmetic(cfg: Config, genesis: State, calls: seq<Call>, did: Did)
    requires cfg.Valid() && Genesis(genesis)
    ensures StrikesCounted(cfg, Reached(cfg, genesis, calls), did)
  {
    if calls != [] {
      StrikeArithmetic(cfg, genesis, calls[..|calls| - 1], did);
      StepCountsStrikes(cfg, Reached(cfg, genesis, calls[..|calls| - 1]), calls[|calls| - 1], did);
    }
  }

  lemma StepReportsBurns(cfg: Config, w: World, call: Call, a: Account)
    requires Burned(w.past, a) == Reported(w.chain, a)
    ensures var v := Next(cfg, w, call); Burned(v.past, a) == Reported(v.chain, a)
  {
    hide Step, Next, Observe, SlashForGuiltyDelivery, Refunded;
    NextIs(cfg, w, call);
    if Step(cfg, w.chain, call).Ok? {
      if call.FinalizeDispute? {
        var s := w.chain;
        FinalizeIsRefundThenSlash(cfg, s, call);
        GuiltyNotes(cfg, w, call);
        ReportsAreExact(cfg, Refunded(s, call.id), s.db.commitments[call.id].provider, cfg.providerGuiltySlash, a);
        OnlyTheControllerPays(cfg, Refunded(s, call.id), s.db.commitments[call.id].provider, cfg.providerGuiltySlash,
                              a);
      } else {
        StrikesUntouched(cfg, w.chain, call);
        NotesTaken(cfg, w, call);
      }
    }
  }

  lemma OnlyTheControllerPays(cfg: Config, s: State, did: Did, amount: nat, a: Account)
    ensures var t := SlashForGuiltyDelivery(cfg, s, did, amount);
            Wealth(t.balances, a) == Wealth(s.balances, a) || ControllerIs(s.registry, did, a)
  {
    hide SlashForGuiltyDelivery;
    GuiltyCases(cfg, s, did, amount);
  }

  /** Over every run, what an account lost to guilty verdicts is the sum of the slash reports naming it. */
  lemma {:induction false} BurnsAreReported(cfg: Config, genesis: State, calls: seq<Call>, a: Account)
    requires Genesis(genesis)
    ensures var w := Reached(cfg, genesis, calls); Burned(w.past, a) == Reported(w.chain, a) >= 0
  {
    if calls != [] {
      BurnsAreReported(cfg, genesis, calls[..|calls| - 1], a);
      StepReportsBurns(cfg, Reached(cfg, genesis, calls[..|calls| - 1]), calls[|calls| - 1], a);
    }
    ReportsAreNonNegative(Reached(cfg, genesis, calls).chain.slashes, a);
  }

  lemma {:induction false} ReportsAreNonNegative(log: seq<DepositSlashed>, a: Account)
    ensures SeqSum(log, TakenFrom(a)) >= 0
  {
    if log != [] {
      ReportsAreNonNegative(log[..|log| - 1], a);
    }
  }

  lemma StepBurnsNothing(cfg: Config, w: World, call: Call, a: Account)
    requires cfg.depositSlashPerStrike == 0 && Reported(w.chain, a) == 0
    ensures Reported(Next(cfg, w, call).chain, a) == 0
  {
    hide Step, Next, Observe, SlashForGuiltyDelivery, Refunded, SeqSum;
    NextIs(cfg, w, call);
    if Step(cfg, w.chain, call).Ok? {
      if call.FinalizeDispute? {
        var s := w.chain;
        FinalizeIsRefundThenSlash(cfg, s, call);
        var provider := s.db.commitments[call.id].provider;
        ReportsAreExact(cfg, Refunded(s, call.id), provider, cfg.providerGuiltySlash, a);
        GuiltyCases(cfg, Refunded(s, call.id), provider, cfg.providerGuiltySlash);
      } else {
        StrikesUntouched(cfg, w.chain, call);
      }
    }
  }

  /** Where a strike costs nothing, no run burns anything. */
  lemma {:induction false} FreeStrikesBurnNothing(cfg: Config, genesis: State, calls: seq<Call>, a: Account)
    requires Genesis(genesis) && cfg.depositSlashPerStrike == 0
    ensures var w := Reached(cfg, genesis, calls); Burned(w.past, a) == Reported(w.chain, a) == 0
  {
    if calls != [] {
      FreeStrikesBurnNothing(cfg, genesis, calls[..|calls| - 1], a);
      StepBurnsNothing(cfg, Reached(cfg, genesis, calls[..|calls| - 1]), calls[|calls| - 1], a);
    }
    BurnsAreReported(cfg, genesis, calls, a);
  }
}
