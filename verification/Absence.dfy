/**
 A run in which a valid answer cannot be paid: the account that controlled the
 provider at acknowledgement has since deregistered it, given its money away
 and been reaped, and another account answers for the provider.
 */
module Absence {
  import opened Primitives
  import opened Chain
  import opened Currency
  import opened Agents
  import opened Commitments
  import opened Runs
  import opened Effects
  import opened Settlement
  import opened Delivery
  import opened Shortfall

  /** A's purchase at `price` is disputed in the block it was made. */
  predicate UnderDispute(cfg: Config, p: Scene, s: State, price: nat) {
    var y := Y(cfg, p, 1);
    && s.now == 1
    && y in s.db.commitments && s.db.commitments[y].status == Disputed && s.db.commitments[y].provider == B(cfg, p)
    && s.db.commitments[y].merkleRoot == cfg.blake2(p.chunk) && s.db.commitments[y].totalChunks == 1
    && y in s.db.disputes && s.db.disputes[y].counterDeadline == 1 && s.db.disputes[y].disputedChunkIndex == 0
    && y in s.escrows && s.escrows[y] == EscrowRecord(1, 2, price, Locked, 1)
  }

  /** Account 2 still owns B. */
  ghost predicate Attended(cfg: Config, p: Scene, s: State, price: nat) {
    && UnderDispute(cfg, p, s, price)
    && s.registry.profiles == Profiles(cfg, p) && s.registry.controllerAgents.Keys == {1, 2}
    && s.balances == map[1 := AccountData(0, cfg.registrationDeposit + price),
                         2 := AccountData(0, cfg.registrationDeposit), 3 := AccountData(cfg.registrationDeposit, 0)]
  }

  /** B is deregistered, its deposit returned. */
  ghost predicate Departed(cfg: Config, p: Scene, s: State, price: nat) {
    && UnderDispute(cfg, p, s, price)
    && B(cfg, p) !in s.registry.profiles && s.registry.controllerAgents.Keys == {1, 2}
    && s.balances.Keys == {1, 2, 3} && s.balances[2] == AccountData(cfg.registrationDeposit, 0)
    && s.balances[3] == AccountData(cfg.registrationDeposit, 0)
  }

  /** B answers for its deal again, under account 3; the payee is gone. */
  ghost predicate Absent(cfg: Config, p: Scene, s: State, price: nat) {
    && UnderDispute(cfg, p, s, price)
    && ActsFor(s.registry, B(cfg, p), 3)
    && 2 !in s.balances
  }

  lemma DisputeIt(cfg: Config, p: Scene, s: State, price: nat)
    requires Fits(cfg, p) && Running(cfg, p, s, price)
    ensures Attended(cfg, p, Apply(cfg, s, RaiseDispute(1, Y(cfg, p, 1), A(cfg, p), 0, ZERO_HASH)), price)
  {
    hide Apply, A, B, Y;
    Disputing(cfg, s, 1, Y(cfg, p, 1));
  }

  lemma Leaving(cfg: Config, s: State, who: Account, did: Did)
    requires did in s.registry.profiles && s.registry.profiles[did].controller == who
    requires s.registry.profiles[did].status != Revoked
    ensures var t := Apply(cfg, s, DeregisterAgent(who, did));
            && t == s.(registry := t.registry, balances := t.balances)
            && t.registry.profiles == s.registry.profiles - {did}
            && t.registry.controllerAgents.Keys == s.registry.controllerAgents.Keys + {who}
            && t.balances == Unreserve(s.balances, who, cfg.registrationDeposit)
  {
  }

  /** Account 2 gives its deposit to account 3 and is reaped. */
  lemma Vanishing(cfg: Config, s: State, free: nat)
    requires s.balances.Keys == {1, 2, 3} && s.balances[2] == AccountData(free, 0) && s.balances[3].reserved == 0
    requires s.balances[3].free >= cfg.registrationDeposit
    ensures var t := Apply(cfg, Apply(cfg, s, Transfer(2, 3, free)), Reap(2));
            && t == s.(balances := t.balances)
            && 2 !in t.balances && 3 in t.balances
            && t.balances[3].reserved == 0 && t.balances[3].free >= cfg.registrationDeposit
  {
    var moved := Apply(cfg, s, Transfer(2, 3, free));
    assert moved.balances[2] == AccountData(0, 0) && moved.balances[3] == AccountData(s.balances[3].free + free, 0);
  }

  /** The calls that leave B with account 3. */
  function Handover(cfg: Config, p: Scene, price: nat): seq<Call> {
    Purchasing(cfg, p, price) + [RaiseDispute(1, Y(cfg, p, 1), A(cfg, p), 0, ZERO_HASH)]
    + [DeregisterAgent(2, B(cfg, p))] + [Transfer(2, 3, cfg.registrationDeposit)] + [Reap(2)]
    + [RegisterAgent(3, p.keyB, 1, ProofAccepted)]
  }

  lemma LeaveIt(cfg: Config, p: Scene, s: State, price: nat)
    requires Fits(cfg, p) && Attended(cfg, p, s, price)
    ensures Departed(cfg, p, Apply(cfg, s, DeregisterAgent(2, B(cfg, p))), price)
  {
    hide Apply, A, B, Y;
    Leaving(cfg, s, 2, B(cfg, p));
  }

  lemma ReturnIt(cfg: Config, p: Scene, s: State, price: nat)
    requires Fits(cfg, p) && Departed(cfg, p, s, price)
    ensures var gone := Apply(cfg, Apply(cfg, s, Transfer(2, 3, cfg.registrationDeposit)), Reap(2));
            Absent(cfg, p, Apply(cfg, gone, RegisterAgent(3, p.keyB, 1, ProofAccepted)), price)
  {
    var gone := Apply(cfg, Apply(cfg, s, Transfer(2, 3, cfg.registrationDeposit)), Reap(2));
    hide Apply, DidOf, Y;
    Vanishing(cfg, s, cfg.registrationDeposit);
    Join(cfg, gone, 3, p.keyB);
  }

  lemma HandItOver(cfg: Config, p: Scene, price: nat)
    requires Fits(cfg, p)
    ensures Absent(cfg, p, After(cfg, Funded(cfg, price), Handover(cfg, p, price)), price)
  {
    var g, d, c0 := Funded(cfg, price), cfg.registrationDeposit, Purchasing(cfg, p, price);
    hide Apply, After, Funded, Purchasing, A, B, Y, Running, Attended, Departed, Absent, Fits;
    var raise, leave := RaiseDispute(1, Y(cfg, p, 1), A(cfg, p), 0, ZERO_HASH), DeregisterAgent(2, B(cfg, p));
    var s := After(cfg, g, c0);
    One(cfg, g, c0, raise);
    One(cfg, g, c0 + [raise], leave);
    One(cfg, g, c0 + [raise] + [leave], Transfer(2, 3, d));
    One(cfg, g, c0 + [raise] + [leave] + [Transfer(2, 3, d)], Reap(2));
    One(cfg, g, c0 + [raise] + [leave] + [Transfer(2, 3, d)] + [Reap(2)], RegisterAgent(3, p.keyB, 1, ProofAccepted));
    PurchaseIt(cfg, p, price);
    DisputeIt(cfg, p, s, price);
    LeaveIt(cfg, p, Apply(cfg, s, raise), price);
    ReturnIt(cfg, p, Apply(cfg, Apply(cfg, s, raise), leave), price);
  }

  lemma ProofOfOneChunk(cfg: Config, p: Scene, s: State, price: nat)
    requires UnderDispute(cfg, p, s, price)
    ensures ProofAnswers(cfg, s.db.commitments[Y(cfg, p, 1)], s.db.disputes[Y(cfg, p, 1)], p.chunk, [])
  {
    hide Y, B;
  }

  lemma AnswerUnpayable(cfg: Config, p: Scene, s: State, price: nat)
    requires Absent(cfg, p, s, price) && price > 0
    ensures Step(cfg, s, CounterDispute(3, Y(cfg, p, 1), B(cfg, p), p.chunk, [])) == Err(DeadAccount)
  {
    ProofOfOneChunk(cfg, p, s, price);
    hide Step, Y, B, ProofAnswers, SlashReputation;
    StepIs(cfg, s, CounterDispute(3, Y(cfg, p, 1), B(cfg, p), p.chunk, []));
  }

  /**
   The exception of `HonestProviderWins` is real: for any price, a run after
   which an answer in time, with a proof that verifies, fails because the
   payee's account is gone.
   */
  lemma PayeeCanBeGone(cfg: Config, p: Scene, price: nat)
    requires Fits(cfg, p) && price > 0
    ensures var s, y := Reached(cfg, Funded(cfg, price), Handover(cfg, p, price)).chain, Y(cfg, p, 1);
            && MayAnswer(s, 3, y) && ProofAnswers(cfg, s.db.commitments[y], s.db.disputes[y], p.chunk, [])
            && y in s.escrows && PayeeDead(s, s.escrows[y])
            && Step(cfg, s, CounterDispute(3, y, s.db.commitments[y].provider, p.chunk, [])) == Err(DeadAccount)
  {
    RunIsAfter(cfg, World(Funded(cfg, price), NO_HISTORY), Handover(cfg, p, price));
    HandItOver(cfg, p, price);
    hide After, Run, Step, Handover, Y, B, ProofAnswers;
    var s := Reached(cfg, Funded(cfg, price), Handover(cfg, p, price)).chain;
    ProofOfOneChunk(cfg, p, s, price);
    AnswerUnpayable(cfg, p, s, price);
  }
}
