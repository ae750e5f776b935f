/**
 Runs that end short of what the comments promise, for every choice of the
 runtime constants that leaves room for one. Account 1 owns agent A, account 2
 owns agent B. B accepts free deliveries from A and disputes each of them, and
 A never answers, until A has the strikes that cost it part of its deposit.
 */
module Shortfall {
  import opened Primitives
  import opened Merkle
  import opened Chain
  import opened Currency
  import opened Agents
  import opened Commitments
  import opened Runs
  import opened Effects
  import opened Payouts
  import Deals
  import Escrow
  import Settlement
  import Strikes

  datatype Scene = Scene(keyA: Bytes, keyB: Bytes, rootX: Hash, chunk: ChunkData)

  function A(cfg: Config, p: Scene): Did {
    DidOf(cfg, p.keyA)
  }

  function B(cfg: Config, p: Scene): Did {
    DidOf(cfg, p.keyB)
  }

  /** The id of A's delivery to B offered at block `b`. */
  function X(cfg: Config, p: Scene, b: nat): Hash {
    CommitmentId(cfg, Offer(A(cfg, p), B(cfg, p), p.rootX, b))
  }

  /** The id of B's delivery to A, of one chunk, offered at block `b`. */
  function Y(cfg: Config, p: Scene, b: nat): Hash {
    CommitmentId(cfg, Offer(B(cfg, p), A(cfg, p), cfg.blake2(p.chunk), b))
  }

  /**
   Any constants, deployed ones included, that allow an offer and end before
   the clock does; of the hash, distinct values where the runs need them.
   */
  ghost predicate Fits(cfg: Config, p: Scene) {
    && cfg.Valid() && cfg.strikeThreshold + 1 < U32_MAX && cfg.maxCommitmentLifetime >= 1
    && |p.keyA| == MAX_PUBKEY_LEN && |p.keyB| == MAX_PUBKEY_LEN && A(cfg, p) != B(cfg, p)
    && p.rootX != ZERO_HASH && cfg.blake2(p.chunk) != ZERO_HASH
    && (forall b, c | 1 <= b < c <= cfg.strikeThreshold :: X(cfg, p, b) != X(cfg, p, c))
    && (forall b | 1 <= b <= cfg.strikeThreshold :: X(cfg, p, b) != Y(cfg, p, cfg.strikeThreshold + 1))
  }

  /** Genesis: the deposits, the price of one purchase for account 1, and a dispute window of zero. */
  function Endowed(cfg: Config): (s: State)
    ensures Genesis(s)
  {
    Opening(map[1 := AccountData(cfg.registrationDeposit + cfg.depositSlashPerStrike, 0),
                2 := AccountData(cfg.registrationDeposit, 0)], Some(0))
  }

  function Registrations(p: Scene): seq<Call> {
    [RegisterAgent(1, p.keyA, 1, ProofAccepted), RegisterAgent(2, p.keyB, 1, ProofAccepted)]
  }

  function Profiles(cfg: Config, p: Scene): map<Did, Profile> {
    map[A(cfg, p) := Profile(1, 0, AgentStatus.Active, 1, true),
        B(cfg, p) := Profile(2, 0, AgentStatus.Active, 1, true)]
  }

  /** Account 1's free and reserved balance; account 2 has only its deposit. */
  function Accounts(cfg: Config, free: nat, reserved: nat): Balances {
    map[1 := AccountData(free, reserved), 2 := AccountData(0, cfg.registrationDeposit)]
  }

  predicate Unused(s: State, id: Hash) {
    id !in s.db.commitments && id !in s.db.disputes && id !in s.escrows
  }

  /** Both agents stand, A with `n` strikes; ids of deals from block `from` on are unused. */
  ghost predicate Scenery(cfg: Config, p: Scene, s: State, n: nat, from: nat, b: Balances) {
    && s.registry.profiles == Profiles(cfg, p)
    && Agents.Strikes(s.registry, A(cfg, p)) == n
    && s.balances == b
    && s.db.windowOverride == Some(0)
    && (forall k | from <= k <= cfg.strikeThreshold :: Unused(s, X(cfg, p, k)))
    && Unused(s, Y(cfg, p, cfg.strikeThreshold + 1))
  }

  /** After `n` guilty verdicts, one per block. */
  ghost predicate Ready(cfg: Config, p: Scene, s: State, n: nat) {
    && s.now == n + 1
    && Scenery(cfg, p, s, n, n + 1, Accounts(cfg, cfg.depositSlashPerStrike, cfg.registrationDeposit))
  }

  /** The next free delivery is offered. */
  ghost predicate Offered(cfg: Config, p: Scene, s: State, n: nat) {
    var x := X(cfg, p, n + 1);
    && s.now == n + 1
    && Scenery(cfg, p, s, n, n + 2, Accounts(cfg, cfg.depositSlashPerStrike, cfg.registrationDeposit))
    && x in s.db.commitments
    && s.db.commitments[x] == Commitment(A(cfg, p), B(cfg, p), p.rootX, 1, Pending, n + 1, n + 2, None, 0)
    && x !in s.escrows && x !in s.db.disputes
  }

  /** The next free delivery is acknowledged. */
  ghost predicate Engaged(cfg: Config, p: Scene, s: State, n: nat) {
    && s.now == n + 1
    && Scenery(cfg, p, s, n, n + 2, Accounts(cfg, cfg.depositSlashPerStrike, cfg.registrationDeposit))
    && Delivered(cfg, p, s, n, CommitmentStatus.Active) && X(cfg, p, n + 1) !in s.db.disputes
  }

  /** The delivery of block `n + 1` is on record in the given status, with nothing at stake. */
  predicate Delivered(cfg: Config, p: Scene, s: State, n: nat, status: CommitmentStatus) {
    var x := X(cfg, p, n + 1);
    && x in s.db.commitments
    && s.db.commitments[x] == Commitment(A(cfg, p), B(cfg, p), p.rootX, 1, status, n + 1, n + 2, Some(n + 1), 0)
    && x in s.escrows && s.escrows[x] == EscrowRecord(2, 1, 0, Locked, n + 1)
  }

  /** It is disputed and its window is over. */
  ghost predicate Contested(cfg: Config, p: Scene, s: State, n: nat, b: Balances) {
    var x := X(cfg, p, n + 1);
    && s.now == n + 2
    && Scenery(cfg, p, s, n, n + 2, b)
    && Delivered(cfg, p, s, n, Disputed)
    && x in s.db.disputes && s.db.disputes[x].counterDeadline == n + 1
  }

  lemma One(cfg: Config, s: State, calls: seq<Call>, c: Call)
    ensures After(cfg, s, calls + [c]) == Apply(cfg, After(cfg, s, calls), c)
  {
    hide Apply;
    assert (calls + [c])[..|calls|] == calls;
  }

  /** The profile and balance parts of the two registrations. */
  lemma Join(cfg: Config, s: State, who: Account, key: Bytes)
    requires s.now == 1 && |key| == MAX_PUBKEY_LEN && DidOf(cfg, key) !in s.registry.profiles
    requires who !in s.registry.controllerAgents && who in s.balances && s.balances[who].reserved == 0
    requires cfg.registrationDeposit <= s.balances[who].free
    ensures var t := Apply(cfg, s, RegisterAgent(who, key, 1, ProofAccepted));
            && t == s.(registry := t.registry, balances := t.balances)
            && t.registry.profiles == s.registry.profiles[DidOf(cfg, key) :=
                 Profile(who, 0, AgentStatus.Active, 1, true)]
            && t.registry.controllerAgents.Keys == s.registry.controllerAgents.Keys + {who}
            && t.registry.disputeStrikes == s.registry.disputeStrikes
            && t.balances == s.balances[who :=
                 AccountData(s.balances[who].free - cfg.registrationDeposit, cfg.registrationDeposit)]
  {
    hide DidOf;
  }

  // --------------------------------------------------------------------- single calls

  lemma Offering(cfg: Config, s: State, caller: Account, provider: Did, consumer: Did, root: Hash, price: nat)
    requires provider != consumer && root != ZERO_HASH && cfg.maxCommitmentLifetime >= 1 && s.now < U32_MAX
    requires ActsFor(s.registry, provider, caller) && consumer in s.registry.profiles
    requires ActsFor(s.registry, consumer, s.registry.profiles[consumer].controller)
    requires CommitmentId(cfg, Offer(provider, consumer, root, s.now)) !in s.db.commitments
    ensures var t := Apply(cfg, s, RegisterCommitment(caller, provider, consumer, root, 1, 1, price));
            var id := CommitmentId(cfg, Offer(provider, consumer, root, s.now));
            t == s.(db := s.db.(commitments := s.db.commitments[id :=
                                  Commitment(provider, consumer, root, 1, Pending, s.now, s.now + 1, None, price)],
                                activeCommitments := t.db.activeCommitments))
  {
    hide CommitmentId;
  }

  lemma Accepting(cfg: Config, s: State, caller: Account, id: Hash)
    requires id in s.db.commitments && id !in s.escrows
    requires var c := s.db.commitments[id];
             && c.status == Pending && s.now < c.expiresAt && c.provider in s.registry.profiles
             && ActsFor(s.registry, c.consumer, caller)
             && c.price <= Funds(s.balances, caller).free
    ensures var c := s.db.commitments[id];
            Apply(cfg, s, AcknowledgeCommitment(caller, id, c.consumer))
            == WithCommitment(s, id, c.(status := CommitmentStatus.Active, acknowledgedAt := Some(s.now))).(
                 balances := Reserve(s.balances, caller, c.price).value,
                 escrows := s.escrows[id :=
                   EscrowRecord(caller, s.registry.profiles[c.provider].controller, c.price, Locked, s.now)])
  {
    hide Step;
    StepIs(cfg, s, AcknowledgeCommitment(caller, id, s.db.commitments[id].consumer));
  }

  lemma Disputing(cfg: Config, s: State, caller: Account, id: Hash)
    requires id in s.db.commitments && id !in s.db.disputes && s.db.windowOverride == Some(0) && s.now <= U32_MAX
    requires var c := s.db.commitments[id];
             && c.status == CommitmentStatus.Active && s.now < c.expiresAt && c.totalChunks == 1
             && ActsFor(s.registry, c.consumer, caller)
    ensures var c := s.db.commitments[id];
            Apply(cfg, s, RaiseDispute(caller, id, c.consumer, 0, ZERO_HASH))
            == WithCommitment(s, id, c.(status := Disputed)).(
                 db := WithCommitment(s, id, c.(status := Disputed)).db.(
                   disputes := s.db.disputes[id := DisputeRecord(c.merkleRoot, ZERO_HASH, 0, s.now, s.now, None)]))
  {
    hide Step;
    StepIs(cfg, s, RaiseDispute(caller, id, s.db.commitments[id].consumer, 0, ZERO_HASH));
  }

  lemma NoScoreToLose(cfg: Config, s: State, did: Did, amount: nat)
    requires did in s.registry.profiles && s.registry.profiles[did].score == 0
    ensures SlashForGuiltyDelivery(cfg, s, did, amount).registry.profiles == s.registry.profiles
  {
  }

  /** What a guilty verdict over a delivery with nothing at stake leaves behind. */
  lemma Condemning(cfg: Config, s: State, anyone: Account, id: Hash)
    requires id in s.db.commitments && id in s.db.disputes && id in s.escrows
    requires s.db.commitments[id].status == Disputed && s.db.disputes[id].counterDeadline < s.now
    requires s.escrows[id].status == Locked && s.escrows[id].amount == 0
    requires var d := s.db.commitments[id].provider; d in s.registry.profiles && s.registry.profiles[d].score == 0
    ensures var t, d := Apply(cfg, s, FinalizeDispute(anyone, id)), s.db.commitments[id].provider;
            var n := SaturatingAdd(Agents.Strikes(s.registry, d), 1);
            && t.now == s.now && t.registry.profiles == s.registry.profiles
            && t.db == Resolve(s, id, s.db.commitments[id], s.db.disputes[id], ProviderGuilty).db
            && t.escrows == s.escrows[id := s.escrows[id].(status := Refunded)]
            && Agents.Strikes(t.registry, d) == (if n < cfg.strikeThreshold then n else 0)
            && t.balances == if n < cfg.strikeThreshold then s.balances
                             else
                               SlashReserved(s.balances, s.registry.profiles[d].controller, cfg.depositSlashPerStrike)
  {
    hide Step, SlashForGuiltyDelivery;
    StepIs(cfg, s, FinalizeDispute(anyone, id));
    var c, refunded := s.db.commitments[id], Strikes.Refunded(s, id);
    GuiltyEffect(cfg, refunded, c.provider, cfg.providerGuiltySlash);
    GuiltyCases(cfg, refunded, c.provider, cfg.providerGuiltySlash);
    NoScoreToLose(cfg, refunded, c.provider, cfg.providerGuiltySlash);
  }

  // --------------------------------------------------------------------------- rounds

  /** Both agents registered on any opening state that can pay for them. */
  lemma Joined(cfg: Config, p: Scene, g: State)
    requires Fits(cfg, p) && Genesis(g) && g.now == 1 && 1 in g.balances && 2 in g.balances
    requires cfg.registrationDeposit <= g.balances[1].free && cfg.registrationDeposit <= g.balances[2].free
    ensures var s, d := After(cfg, g, Registrations(p)), cfg.registrationDeposit;
            && s == g.(registry := s.registry, balances := s.balances)
            && s.registry.profiles == Profiles(cfg, p) && s.registry.disputeStrikes == map[]
            && s.registry.controllerAgents.Keys == {1, 2}
            && s.balances == g.balances[1 := AccountData(g.balances[1].free - d, d)]
                                       [2 := AccountData(g.balances[2].free - d, d)]
  {
    hide Apply, DidOf;
    var first := RegisterAgent(1, p.keyA, 1, ProofAccepted);
    var second := RegisterAgent(2, p.keyB, 1, ProofAccepted);
    One(cfg, g, [], first);
    One(cfg, g, [first], second);
    assert [] + [first] == [first] && [first] + [second] == Registrations(p);
    hide After, Fits;
    Join(cfg, g, 1, p.keyA);
    Join(cfg, Apply(cfg, g, first), 2, p.keyB);
  }

  lemma Arrive(cfg: Config, p: Scene)
    requires Fits(cfg, p)
    ensures var s := After(cfg, Endowed(cfg), Registrations(p));
            Ready(cfg, p, s, 0) && s.db == Endowed(cfg).db && s.escrows == map[]
  {
    hide After, A, B, X, Y, Profiles;
    Joined(cfg, p, Endowed(cfg));
  }

  lemma OfferDelivery(cfg: Config, p: Scene, s: State, n: nat)
    requires Fits(cfg, p) && n < cfg.strikeThreshold && Ready(cfg, p, s, n)
    ensures Offered(cfg, p, Apply(cfg, s, RegisterCommitment(1, A(cfg, p), B(cfg, p), p.rootX, 1, 1, 0)), n)
  {
    var x := X(cfg, p, n + 1);
    assert x == CommitmentId(cfg, Offer(A(cfg, p), B(cfg, p), p.rootX, s.now));
    assert Unused(s, x);
    hide Apply, CommitmentId, A, B, X, Y;
    Offering(cfg, s, 1, A(cfg, p), B(cfg, p), p.rootX, 0);
  }

  lemma Engage(cfg: Config, p: Scene, s: State, n: nat)
    requires Fits(cfg, p) && n < cfg.strikeThreshold && Offered(cfg, p, s, n)
    ensures Engaged(cfg, p, Apply(cfg, s, AcknowledgeCommitment(2, X(cfg, p, n + 1), B(cfg, p))), n)
  {
    hide Apply, CommitmentId, A, B, X, Y;
    Accepting(cfg, s, 2, X(cfg, p, n + 1));
  }

  lemma Complain(cfg: Config, p: Scene, s: State, n: nat)
    requires Fits(cfg, p) && n < cfg.strikeThreshold && Engaged(cfg, p, s, n)
    ensures var raised := Apply(cfg, s, RaiseDispute(2, X(cfg, p, n + 1), B(cfg, p), 0, ZERO_HASH));
            Contested(cfg, p, Apply(cfg, raised, NextBlock), n,
                      Accounts(cfg, cfg.depositSlashPerStrike, cfg.registrationDeposit))
  {
    var x := X(cfg, p, n + 1);
    hide CommitmentId, A, B, X, Y;
    Disputing(cfg, s, 2, x);
    var raised := Apply(cfg, s, RaiseDispute(2, x, B(cfg, p), 0, ZERO_HASH));
    Tick(cfg, raised);
    hide Apply;
  }

  lemma Tick(cfg: Config, s: State)
    requires s.now < U32_MAX
    ensures Apply(cfg, s, NextBlock) == s.(now := s.now + 1)
  {
  }

  lemma Strike(cfg: Config, p: Scene, s: State, n: nat)
    requires Fits(cfg, p) && n + 1 < cfg.strikeThreshold
    requires Contested(cfg, p, s, n, Accounts(cfg, cfg.depositSlashPerStrike, cfg.registrationDeposit))
    ensures Ready(cfg, p, Apply(cfg, s, FinalizeDispute(2, X(cfg, p, n + 1))), n + 1)
  {
    hide Apply, CommitmentId, A, B, X, Y;
    Condemning(cfg, s, 2, X(cfg, p, n + 1));
  }

  /** One more delivery, acknowledged and disputed, and the block after it. */
  function WithDispute(cfg: Config, p: Scene, calls: seq<Call>, n: nat): seq<Call> {
    calls + [RegisterCommitment(1, A(cfg, p), B(cfg, p), p.rootX, 1, 1, 0)]
          + [AcknowledgeCommitment(2, X(cfg, p, n + 1), B(cfg, p))]
          + [RaiseDispute(2, X(cfg, p, n + 1), B(cfg, p), 0, ZERO_HASH)]
          + [NextBlock]
  }

  /** `n` guilty verdicts. */
  function Rounds(cfg: Config, p: Scene, n: nat): seq<Call> {
    if n == 0 then Registrations(p)
    else WithDispute(cfg, p, Rounds(cfg, p, n - 1), n - 1) + [FinalizeDispute(2, X(cfg, p, n))]
  }

  lemma DisputeAfter(cfg: Config, p: Scene, calls: seq<Call>, n: nat)
    requires Fits(cfg, p) && n < cfg.strikeThreshold && Ready(cfg, p, After(cfg, Endowed(cfg), calls), n)
    ensures Contested(cfg, p, After(cfg, Endowed(cfg), WithDispute(cfg, p, calls, n)), n,
                      Accounts(cfg, cfg.depositSlashPerStrike, cfg.registrationDeposit))
  {
    hide Apply, After, Ready, Offered, Engaged, Contested, A, B, X, Fits;
    var s := After(cfg, Endowed(cfg), calls);
    var offer := RegisterCommitment(1, A(cfg, p), B(cfg, p), p.rootX, 1, 1, 0);
    var accept := AcknowledgeCommitment(2, X(cfg, p, n + 1), B(cfg, p));
    var raise := RaiseDispute(2, X(cfg, p, n + 1), B(cfg, p), 0, ZERO_HASH);
    One(cfg, Endowed(cfg), calls, offer);
    One(cfg, Endowed(cfg), calls + [offer], accept);
    One(cfg, Endowed(cfg), calls + [offer] + [accept], raise);
    One(cfg, Endowed(cfg), calls + [offer] + [accept] + [raise], NextBlock);
    OfferDelivery(cfg, p, s, n);
    Engage(cfg, p, Apply(cfg, s, offer), n);
    Complain(cfg, p, Apply(cfg, Apply(cfg, s, offer), accept), n);
  }

  lemma {:induction false} AfterRounds(cfg: Config, p: Scene, n: nat)
    requires Fits(cfg, p) && n < cfg.strikeThreshold
    ensures Ready(cfg, p, After(cfg, Endowed(cfg), Rounds(cfg, p, n)), n)
  {
    hide Apply, After, Ready, Contested, WithDispute;
    if n == 0 {
      Arrive(cfg, p);
    } else {
      var calls := WithDispute(cfg, p, Rounds(cfg, p, n - 1), n - 1);
      AfterRounds(cfg, p, n - 1);
      DisputeAfter(cfg, p, Rounds(cfg, p, n - 1), n - 1);
      Strike(cfg, p, After(cfg, Endowed(cfg), calls), n - 1);
      One(cfg, Endowed(cfg), calls, FinalizeDispute(2, X(cfg, p, n)));
    }
  }

  /** All but the last strike, and the delivery that brings it already past its deadline. */
  function Prelude(cfg: Config, p: Scene): seq<Call>
    requires cfg.Valid()
  {
    WithDispute(cfg, p, Rounds(cfg, p, cfg.strikeThreshold - 1), cfg.strikeThreshold - 1)
  }

  lemma AfterPrelude(cfg: Config, p: Scene)
    requires Fits(cfg, p)
    ensures Contested(cfg, p, After(cfg, Endowed(cfg), Prelude(cfg, p)), cfg.strikeThreshold - 1,
                      Accounts(cfg, cfg.depositSlashPerStrike, cfg.registrationDeposit))
  {
    hide After, Ready, Contested, WithDispute;
    AfterRounds(cfg, p, cfg.strikeThreshold - 1);
    DisputeAfter(cfg, p, Rounds(cfg, p, cfg.strikeThreshold - 1), cfg.strikeThreshold - 1);
  }

  // --------------------------------------------------------------------- the deposit

  /** The last strike falls. */
  function Slashing(cfg: Config, p: Scene): seq<Call>
    requires cfg.Valid()
  {
    Prelude(cfg, p) + [FinalizeDispute(2, X(cfg, p, cfg.strikeThreshold))]
  }

  lemma LastStrike(cfg: Config, p: Scene)
    requires Fits(cfg, p)
    ensures var s := After(cfg, Endowed(cfg), Slashing(cfg, p));
            && s.registry.profiles == Profiles(cfg, p)
            && Funds(s.balances, 1).reserved
               == cfg.registrationDeposit - Min(cfg.depositSlashPerStrike, cfg.registrationDeposit)
  {
    var x := X(cfg, p, cfg.strikeThreshold);
    AfterPrelude(cfg, p);
    One(cfg, Endowed(cfg), Prelude(cfg, p), FinalizeDispute(2, x));
    hide After, Apply, Prelude, CommitmentId, A, B, X, Y;
    Condemning(cfg, After(cfg, Endowed(cfg), Prelude(cfg, p)), 2, x);
  }

  /** A run from genesis after which A's owner deregisters and gets back the deposit less the slash. */
  lemma DepositReturnedShort(cfg: Config, p: Scene)
    requires Fits(cfg, p)
    ensures var s := Reached(cfg, Endowed(cfg), Slashing(cfg, p)).chain;
            var r := Step(cfg, s, DeregisterAgent(1, A(cfg, p)));
            && r.Ok?
            && Gain(s, r.value, 1) == cfg.registrationDeposit - Min(cfg.depositSlashPerStrike, cfg.registrationDeposit)
  {
    RunIsAfter(cfg, World(Endowed(cfg), NO_HISTORY), Slashing(cfg, p));
    LastStrike(cfg, p);
    hide After, Slashing, DidOf, Run, Endowed;
    var s := Reached(cfg, Endowed(cfg), Slashing(cfg, p)).chain;
    DeregisterPays(cfg, s, 1, A(cfg, p));
  }

  /** Every deregistration in every run returns the whole deposit. */
  ghost predicate DepositsAreWhole(cfg: Config) {
    forall genesis, calls, caller, did :: DepositIsWhole(cfg, genesis, calls, caller, did)
  }

  predicate DepositIsWhole(cfg: Config, genesis: State, calls: seq<Call>, caller: Account, did: Did) {
    var s := Reached(cfg, genesis, calls).chain;
    var r := Step(cfg, s, DeregisterAgent(caller, did));
    Genesis(genesis) && r.Ok? ==> Gain(s, r.value, caller) == cfg.registrationDeposit
  }

  /** "Returned in full" holds of the code exactly for runtimes whose strikes, or whose deposits, cost nothing. */
  lemma DepositsAreWholeIff(cfg: Config, p: Scene)
    requires Fits(cfg, p)
    ensures DepositsAreWhole(cfg) <==> cfg.depositSlashPerStrike == 0 || cfg.registrationDeposit == 0
  {
    hide Reached, Step, Gain, Slashing;
    if cfg.depositSlashPerStrike == 0 || cfg.registrationDeposit == 0 {
      forall genesis, calls, caller, did ensures DepositIsWhole(cfg, genesis, calls, caller, did) {
        if Genesis(genesis) && Step(cfg, Reached(cfg, genesis, calls).chain, DeregisterAgent(caller, did)).Ok? {
          DeregisterPays(cfg, Reached(cfg, genesis, calls).chain, caller, did);
          DeregisteringPaysUpToBurns(cfg, genesis, calls, caller, did);
          if cfg.depositSlashPerStrike == 0 {
            Strikes.FreeStrikesBurnNothing(cfg, genesis, calls, caller);
          }
        }
      }
    } else {
      DepositReturnedShort(cfg, p);
      assert !DepositIsWhole(cfg, Endowed(cfg), Slashing(cfg, p), 1, A(cfg, p));
    }
  }

  // ---------------------------------------------------------------------- the payout

  /** Account 1's purchase from B, at the price of one slash, is on record in the given status. */
  predicate Purchase(cfg: Config, p: Scene, s: State, status: CommitmentStatus) {
    var now := cfg.strikeThreshold + 1;
    var y := Y(cfg, p, now);
    && s.now == now
    && y in s.db.commitments
    && s.db.commitments[y] == Commitment(B(cfg, p), A(cfg, p), cfg.blake2(p.chunk), 1, status, now, now + 1, Some(now),
                                         cfg.depositSlashPerStrike)
    && y in s.escrows && s.escrows[y] == EscrowRecord(1, 2, cfg.depositSlashPerStrike, Locked, now)
    && s.db.windowOverride == Some(0)
  }

  /** A's last strike has yet to fall. */
  ghost predicate StrikePending(cfg: Config, p: Scene, s: State) {
    var x := X(cfg, p, cfg.strikeThreshold);
    && s.now == cfg.strikeThreshold + 1 && s.db.windowOverride == Some(0)
    && s.registry.profiles == Profiles(cfg, p) && Agents.Strikes(s.registry, A(cfg, p)) == cfg.strikeThreshold - 1
    && cfg.strikeThreshold > 0 && Delivered(cfg, p, s, cfg.strikeThreshold - 1, Disputed)
    && x in s.db.disputes && s.db.disputes[x].counterDeadline == cfg.strikeThreshold
  }

  /** B offers A its one chunk. */
  function Order(cfg: Config, p: Scene, price: nat): Call {
    RegisterCommitment(2, B(cfg, p), A(cfg, p), cfg.blake2(p.chunk), 1, 1, price)
  }

  ghost predicate Ordered(cfg: Config, p: Scene, s: State) {
    var now := cfg.strikeThreshold + 1;
    var y := Y(cfg, p, now);
    && StrikePending(cfg, p, s)
    && y in s.db.commitments && y !in s.escrows && y !in s.db.disputes
    && s.db.commitments[y] == Commitment(B(cfg, p), A(cfg, p), cfg.blake2(p.chunk), 1, Pending, now, now + 1, None,
                                         cfg.depositSlashPerStrike)
    && s.balances == Accounts(cfg, cfg.depositSlashPerStrike, cfg.registrationDeposit)
  }

  ghost predicate Bought(cfg: Config, p: Scene, s: State) {
    && StrikePending(cfg, p, s)
    && Purchase(cfg, p, s, CommitmentStatus.Active) && Y(cfg, p, cfg.strikeThreshold + 1) !in s.db.disputes
    && s.balances == Accounts(cfg, 0, cfg.registrationDeposit + cfg.depositSlashPerStrike)
  }

  lemma PlaceOrder(cfg: Config, p: Scene, s: State)
    requires Fits(cfg, p)
    requires Contested(cfg, p, s, cfg.strikeThreshold - 1,
                       Accounts(cfg, cfg.depositSlashPerStrike, cfg.registrationDeposit))
    ensures Ordered(cfg, p, Apply(cfg, s, Order(cfg, p, cfg.depositSlashPerStrike)))
  {
    assert Y(cfg, p, s.now) == CommitmentId(cfg, Offer(B(cfg, p), A(cfg, p), cfg.blake2(p.chunk), s.now));
    hide Apply, CommitmentId, A, B, X, Y;
    Offering(cfg, s, 2, B(cfg, p), A(cfg, p), cfg.blake2(p.chunk), cfg.depositSlashPerStrike);
  }

  lemma TakeOrder(cfg: Config, p: Scene, s: State)
    requires Fits(cfg, p) && Ordered(cfg, p, s)
    ensures Bought(cfg, p, Apply(cfg, s, AcknowledgeCommitment(1, Y(cfg, p, cfg.strikeThreshold + 1), A(cfg, p))))
  {
    hide Apply, CommitmentId, A, B, X, Y;
    Accepting(cfg, s, 1, Y(cfg, p, cfg.strikeThreshold + 1));
  }

  /** The purchase still runs, but the slash has taken its price out of the reserve. */
  ghost predicate Slashed(cfg: Config, p: Scene, s: State) {
    && s.registry.profiles == Profiles(cfg, p)
    && Purchase(cfg, p, s, CommitmentStatus.Active) && Y(cfg, p, cfg.strikeThreshold + 1) !in s.db.disputes
    && s.balances == Accounts(cfg, 0, cfg.registrationDeposit)
  }

  lemma SlashLeavesTheDeposit(cfg: Config)
    ensures SlashReserved(Accounts(cfg, 0, cfg.registrationDeposit + cfg.depositSlashPerStrike), 1,
                          cfg.depositSlashPerStrike) == Accounts(cfg, 0, cfg.registrationDeposit)
  {
  }

  lemma SlashTheReserve(cfg: Config, p: Scene, s: State)
    requires Fits(cfg, p) && Bought(cfg, p, s)
    ensures Slashed(cfg, p, Apply(cfg, s, FinalizeDispute(2, X(cfg, p, cfg.strikeThreshold))))
  {
    hide Apply, CommitmentId, A, B, X, Y, SlashReserved, Accounts;
    SlashLeavesTheDeposit(cfg);
    Condemning(cfg, s, 2, X(cfg, p, cfg.strikeThreshold));
  }

  /** A disputes its purchase. */
  ghost predicate Challenged(cfg: Config, p: Scene, s: State) {
    var y := Y(cfg, p, cfg.strikeThreshold + 1);
    && s.registry.profiles == Profiles(cfg, p)
    && Purchase(cfg, p, s, Disputed) && y in s.db.disputes
    && s.db.disputes[y].counterDeadline == s.now && s.db.disputes[y].disputedChunkIndex == 0
    && s.balances == Accounts(cfg, 0, cfg.registrationDeposit)
  }

  lemma Challenge(cfg: Config, p: Scene, s: State)
    requires Fits(cfg, p) && Slashed(cfg, p, s)
    ensures var y := Y(cfg, p, cfg.strikeThreshold + 1);
            Challenged(cfg, p, Apply(cfg, s, RaiseDispute(1, y, A(cfg, p), 0, ZERO_HASH)))
  {
    hide Apply, CommitmentId, A, B, X, Y;
    Disputing(cfg, s, 1, Y(cfg, p, cfg.strikeThreshold + 1));
  }

  /** A is gone, and its deposit with it: nothing is reserved for the purchase any more. */
  ghost predicate Vacated(cfg: Config, p: Scene, s: State) {
    var y := Y(cfg, p, cfg.strikeThreshold + 1);
    && ActsFor(s.registry, B(cfg, p), 2)
    && Purchase(cfg, p, s, Disputed) && y in s.db.disputes
    && s.db.disputes[y].counterDeadline == s.now && s.db.disputes[y].disputedChunkIndex == 0
    && s.balances == Accounts(cfg, cfg.registrationDeposit, 0)
  }

  lemma Vacate(cfg: Config, p: Scene, s: State)
    requires Fits(cfg, p) && Challenged(cfg, p, s)
    ensures Vacated(cfg, p, Apply(cfg, s, DeregisterAgent(1, A(cfg, p))))
  {
    hide CommitmentId, A, B, X, Y, Without;
  }

  /** The honest answer to A's dispute is accepted, and pays nothing. */
  lemma AnswerForNothing(cfg: Config, p: Scene, s: State)
    requires Fits(cfg, p) && Vacated(cfg, p, s)
    ensures var y := Y(cfg, p, cfg.strikeThreshold + 1);
            var r := Step(cfg, s, CounterDispute(2, y, B(cfg, p), p.chunk, []));
            && r.Ok? && r.value.balances == s.balances
            && y in r.value.escrows && r.value.escrows[y].status == Released
            && s.escrows[y].payee == 2 && s.escrows[y].amount == cfg.depositSlashPerStrike
  {
    var y := Y(cfg, p, cfg.strikeThreshold + 1);
    hide Step, CommitmentId, A, B, X, Y, Accounts, SlashReputation;
    StepIs(cfg, s, CounterDispute(2, y, B(cfg, p), p.chunk, []));
    assert ProofAnswers(cfg, s.db.commitments[y], s.db.disputes[y], p.chunk, []);
    hide ProofAnswers;
    NothingLeft(cfg, s.balances);
    var resolved := Resolve(s, y, s.db.commitments[y], s.db.disputes[y], ClaimantUnsubstantiated);
    SlashReputationEffect(Escrow.Release(resolved, y).value, A(cfg, p), cfg.falseDisputeSlash);
  }

  lemma NothingLeft(cfg: Config, b: Balances)
    requires b == Accounts(cfg, cfg.registrationDeposit, 0)
    ensures Repatriate(b, 1, 2, cfg.depositSlashPerStrike) == Ok(b)
  {
  }

  /** The calls up to the answer. */
  function BeforeAnswer(cfg: Config, p: Scene): seq<Call>
    requires cfg.Valid()
  {
    var y := Y(cfg, p, cfg.strikeThreshold + 1);
    Prelude(cfg, p) + [Order(cfg, p, cfg.depositSlashPerStrike)] + [AcknowledgeCommitment(1, y, A(cfg, p))]
    + [FinalizeDispute(2, X(cfg, p, cfg.strikeThreshold))]
    + [RaiseDispute(1, y, A(cfg, p), 0, ZERO_HASH)] + [DeregisterAgent(1, A(cfg, p))]
  }

  lemma ReachTheAnswer(cfg: Config, p: Scene)
    requires Fits(cfg, p)
    ensures Vacated(cfg, p, After(cfg, Endowed(cfg), BeforeAnswer(cfg, p)))
  {
    var g, x, y := Endowed(cfg), X(cfg, p, cfg.strikeThreshold), Y(cfg, p, cfg.strikeThreshold + 1);
    AfterPrelude(cfg, p);
    hide Apply, After, Prelude, Order, Contested, Ordered, Bought, Slashed, Challenged, Vacated, X, Y, A;
    var c0 := Prelude(cfg, p);
    var c1 := c0 + [Order(cfg, p, cfg.depositSlashPerStrike)];
    var c2 := c1 + [AcknowledgeCommitment(1, y, A(cfg, p))];
    var c3 := c2 + [FinalizeDispute(2, x)];
    var c4 := c3 + [RaiseDispute(1, y, A(cfg, p), 0, ZERO_HASH)];
    One(cfg, g, c0, Order(cfg, p, cfg.depositSlashPerStrike));
    PlaceOrder(cfg, p, After(cfg, g, c0));
    One(cfg, g, c1, AcknowledgeCommitment(1, y, A(cfg, p)));
    TakeOrder(cfg, p, After(cfg, g, c1));
    One(cfg, g, c2, FinalizeDispute(2, x));
    SlashTheReserve(cfg, p, After(cfg, g, c2));
    One(cfg, g, c3, RaiseDispute(1, y, A(cfg, p), 0, ZERO_HASH));
    Challenge(cfg, p, After(cfg, g, c3));
    One(cfg, g, c4, DeregisterAgent(1, A(cfg, p)));
    Vacate(cfg, p, After(cfg, g, c4));
  }

  /** A run from genesis after which an honest answer wins its dispute and is paid nothing of the price. */
  lemma PaidShort(cfg: Config, p: Scene)
    requires Fits(cfg, p)
    ensures var s, y := Reached(cfg, Endowed(cfg), BeforeAnswer(cfg, p)).chain, Y(cfg, p, cfg.strikeThreshold + 1);
            var r := Step(cfg, s, CounterDispute(2, y, B(cfg, p), p.chunk, []));
            && r.Ok? && y in r.value.escrows && r.value.escrows[y].status == Released
            && y in s.escrows && s.escrows[y].payee == 2 && s.escrows[y].amount == cfg.depositSlashPerStrike
            && Gain(s, r.value, 2) == 0
  {
    RunIsAfter(cfg, World(Endowed(cfg), NO_HISTORY), BeforeAnswer(cfg, p));
    ReachTheAnswer(cfg, p);
    AnswerForNothing(cfg, p, After(cfg, Endowed(cfg), BeforeAnswer(cfg, p)));
    hide Step, Run, After, BeforeAnswer;
  }

  /** Every settlement and every answered dispute in every run pays the whole price. */
  ghost predicate PayoutsAreWhole(cfg: Config) {
    forall genesis, calls, call :: PayoutIsWhole(cfg, genesis, calls, call)
  }

  predicate PayoutIsWhole(cfg: Config, genesis: State, calls: seq<Call>, call: Call) {
    var s := Reached(cfg, genesis, calls).chain;
    var r := Step(cfg, s, call);
    Genesis(genesis) && (call.CloseCommitment? || call.CounterDispute?) && r.Ok? ==>
      call.id in s.escrows && Gain(s, r.value, s.escrows[call.id].payee) == s.escrows[call.id].amount
  }

  /** Escrows pay what was locked, in every run, exactly for runtimes whose strikes cost nothing. */
  lemma PayoutsAreWholeIff(cfg: Config, p: Scene)
    requires Fits(cfg, p)
    ensures PayoutsAreWhole(cfg) <==> cfg.depositSlashPerStrike == 0
  {
    hide Reached, Step, Gain, BeforeAnswer, Y, B;
    if cfg.depositSlashPerStrike == 0 {
      forall genesis, calls, call ensures PayoutIsWhole(cfg, genesis, calls, call) {
        var w := Reached(cfg, genesis, calls);
        if Genesis(genesis) && (call.CloseCommitment? || call.CounterDispute?) && Step(cfg, w.chain, call).Ok? {
          StepHasEffect(cfg, w.chain, call);
          Settlement.PartiesAreFrozen(cfg, genesis, calls, call.id);
          var e := w.chain.escrows[call.id];
          ClosingPaysUpToBurns(cfg, genesis, calls, call, e.payee);
          Strikes.FreeStrikesBurnNothing(cfg, genesis, calls, e.payer);
        }
      }
    } else {
      PaidShort(cfg, p);
      var call := CounterDispute(2, Y(cfg, p, cfg.strikeThreshold + 1), B(cfg, p), p.chunk, []);
      assert !PayoutIsWhole(cfg, Endowed(cfg), BeforeAnswer(cfg, p), call);
    }
  }

  // ------------------------------------------------------------------ the stranded deal

  /** Genesis for runs with a purchase at any price; account 3 could register an agent too. */
  function Funded(cfg: Config, price: nat): (s: State)
    ensures Genesis(s)
  {
    Opening(map[1 := AccountData(cfg.registrationDeposit + price, 0), 2 := AccountData(cfg.registrationDeposit, 0),
                3 := AccountData(cfg.registrationDeposit, 0)], Some(0))
  }

  /** Account 1 buys from B at once. */
  function Purchasing(cfg: Config, p: Scene, price: nat): seq<Call> {
    Registrations(p) + [Order(cfg, p, price)] + [AcknowledgeCommitment(1, Y(cfg, p, 1), A(cfg, p))]
  }

  ghost predicate Running(cfg: Config, p: Scene, s: State, price: nat) {
    var y := Y(cfg, p, 1);
    && s.now == 1 && s.db.windowOverride == Some(0)
    && s.registry.profiles == Profiles(cfg, p) && s.registry.controllerAgents.Keys == {1, 2}
    && y in s.db.commitments && y !in s.db.disputes
    && s.db.commitments[y] == Commitment(B(cfg, p), A(cfg, p), cfg.blake2(p.chunk), 1, CommitmentStatus.Active, 1, 2,
                                         Some(1), price)
    && y in s.escrows && s.escrows[y] == EscrowRecord(1, 2, price, Locked, 1)
    && s.balances == map[1 := AccountData(0, cfg.registrationDeposit + price),
                         2 := AccountData(0, cfg.registrationDeposit), 3 := AccountData(cfg.registrationDeposit, 0)]
  }

  /** The state between the two calls, `s` having both agents and nothing else. */
  ghost predicate Joint(cfg: Config, p: Scene, s: State, price: nat) {
    && s.now == 1 && s.db.windowOverride == Some(0)
    && s.registry.profiles == Profiles(cfg, p) && s.registry.controllerAgents.Keys == {1, 2}
    && s.db.disputes == map[] && s.escrows == map[]
    && s.balances == map[1 := AccountData(price, cfg.registrationDeposit), 2 := AccountData(0, cfg.registrationDeposit),
                         3 := AccountData(cfg.registrationDeposit, 0)]
  }

  lemma JoinIt(cfg: Config, p: Scene, price: nat)
    requires Fits(cfg, p)
    ensures var s := After(cfg, Funded(cfg, price), Registrations(p));
            Joint(cfg, p, s, price) && s.db.commitments == map[]
  {
    hide After, A, B, X, Y, Registrations, Profiles;
    Joined(cfg, p, Funded(cfg, price));
  }

  lemma OrderIt(cfg: Config, p: Scene, s: State, price: nat)
    requires Fits(cfg, p) && Joint(cfg, p, s, price) && s.db.commitments == map[]
    ensures var t, y := Apply(cfg, s, Order(cfg, p, price)), Y(cfg, p, 1);
            && Joint(cfg, p, t, price)
            && t.db.commitments == map[y :=
                 Commitment(B(cfg, p), A(cfg, p), cfg.blake2(p.chunk), 1, Pending, 1, 2, None, price)]
  {
    assert Y(cfg, p, 1) == CommitmentId(cfg, Offer(B(cfg, p), A(cfg, p), cfg.blake2(p.chunk), 1));
    hide Apply, CommitmentId, A, B, X, Y;
    Offering(cfg, s, 2, B(cfg, p), A(cfg, p), cfg.blake2(p.chunk), price);
  }

  lemma AcceptIt(cfg: Config, p: Scene, s: State, price: nat)
    requires Fits(cfg, p) && Joint(cfg, p, s, price)
    requires s.db.commitments == map[Y(cfg, p, 1) :=
               Commitment(B(cfg, p), A(cfg, p), cfg.blake2(p.chunk), 1, Pending, 1, 2, None, price)]
    ensures Running(cfg, p, Apply(cfg, s, AcknowledgeCommitment(1, Y(cfg, p, 1), A(cfg, p))), price)
  {
    hide Apply, CommitmentId, A, B, X, Y;
    Accepting(cfg, s, 1, Y(cfg, p, 1));
  }

  lemma PurchaseIt(cfg: Config, p: Scene, price: nat)
    requires Fits(cfg, p)
    ensures Running(cfg, p, After(cfg, Funded(cfg, price), Purchasing(cfg, p, price)), price)
  {
    var g, c0 := Funded(cfg, price), Registrations(p);
    One(cfg, g, c0, Order(cfg, p, price));
    One(cfg, g, c0 + [Order(cfg, p, price)], AcknowledgeCommitment(1, Y(cfg, p, 1), A(cfg, p)));
    hide Apply, After, A, B, X, Y, Registrations, Running, Joint, Funded, Order, Fits;
    var s := After(cfg, g, c0);
    JoinIt(cfg, p, price);
    OrderIt(cfg, p, s, price);
    AcceptIt(cfg, p, Apply(cfg, s, Order(cfg, p, price)), price);
  }

  lemma ExpireIt(cfg: Config, p: Scene, w: World, price: nat)
    requires Running(cfg, p, w.chain.(now := 1), price) && w.chain.now == 2
    ensures var v, y := Next(cfg, w, ExpireCommitment(2, Y(cfg, p, 1))), Y(cfg, p, 1);
            && y in v.past.stranded && y !in v.chain.db.commitments && v.chain.escrows == w.chain.escrows
  {
    hide Step, Next, Observe, A, B, Y;
    var call := ExpireCommitment(2, Y(cfg, p, 1));
    StepIs(cfg, w.chain, call);
    NextIs(cfg, w, call);
    Deals.DealNotes(cfg, w, call);
  }

  /** A run from genesis that strands the price of a deal, whatever it is. */
  lemma FundsCanBeStranded(cfg: Config, p: Scene, price: nat)
    requires Fits(cfg, p)
    ensures var y := Y(cfg, p, 1);
            var calls := Purchasing(cfg, p, price) + [NextBlock] + [ExpireCommitment(2, y)];
            var w := Reached(cfg, Funded(cfg, price), calls);
            && y in w.past.stranded && y !in w.chain.db.commitments
            && y in w.chain.escrows && w.chain.escrows[y] == EscrowRecord(1, 2, price, Locked, 1)
  {
    var g, bought := Funded(cfg, price), Purchasing(cfg, p, price);
    var calls, call := bought + [NextBlock], ExpireCommitment(2, Y(cfg, p, 1));
    assert (calls + [call])[..|calls|] == calls;
    RunIsAfter(cfg, World(g, NO_HISTORY), calls);
    PurchaseIt(cfg, p, price);
    One(cfg, g, bought, NextBlock);
    Tick(cfg, After(cfg, g, bought));
    hide Next, Apply, After, Purchasing, A, B, Y;
    ExpireIt(cfg, p, Run(cfg, World(g, NO_HISTORY), calls), price);
  }

  // -------------------------------------------------------------- the deployed constants

  const UNIT: nat := 1_000_000_000_000

  /** The constants of the runtime. */
  function Deployed(h: HashFunction): Config {
    Config(h, 1200, 100 * UNIT, 10, 10 * UNIT, 14_400, 100_800, 5, 2)
  }

  /** A stand-in for the hash that keeps of an offer its block and the first byte of its provider. */
  function Digest(x: Bytes): Hash {
    if |x| < 119 then seq(32, _ => 1)
    else x[115..119] + [x[19]] + seq(27, _ => 0)
  }

  function Key(b: Byte): Bytes {
    seq(MAX_PUBKEY_LEN, _ => b)
  }

  function Sample(): Scene {
    Scene(Key(1), Key(2), Digest([]), [])
  }

  lemma DigestOfOffer(o: Offer, q: Offer)
    requires o.block <= U32_MAX && q.block <= U32_MAX
    requires Digest(OfferBytes(o)) == Digest(OfferBytes(q))
    ensures o.block == q.block && o.provider[0] == q.provider[0]
  {
    Deals.OfferLayout(o);
    Deals.OfferLayout(q);
    var x, y := OfferBytes(o), OfferBytes(q);
    assert x[19] == o.provider[0] && y[19] == q.provider[0];
    assert Digest(x)[..4] == x[115..] && Digest(y)[..4] == y[115..];
    assert Digest(x)[4] == x[19] && Digest(y)[4] == y[19];
    LittleEndianInjective(o.block, q.block);
  }

  lemma DigestOfKey(cfg: Config, b: Byte)
    requires cfg.blake2 == Digest
    ensures DidOf(cfg, Key(b))[0] == b
  {
    var x := DID_DOMAIN + Key(b);
    assert x[115] == b;
    assert Digest(x)[0] == x[115];
  }

  /** The runs exist under the deployed constants: deposits come back short and answers go unpaid. */
  lemma DeployedFallsShort()
    ensures var cfg := Deployed(Digest); Fits(cfg, Sample()) && !DepositsAreWhole(cfg) && !PayoutsAreWhole(cfg)
  {
    var cfg, p := Deployed(Digest), Sample();
    DigestOfKey(cfg, 1);
    DigestOfKey(cfg, 2);
    hide DepositsAreWhole, PayoutsAreWhole, OfferBytes, DidOf;
    assert Digest([])[0] == 1;
    forall b, c | 1 <= b < c <= 10 ensures X(cfg, p, b) != X(cfg, p, c) {
      if X(cfg, p, b) == X(cfg, p, c) {
        DigestOfOffer(Offer(A(cfg, p), B(cfg, p), p.rootX, b), Offer(A(cfg, p), B(cfg, p), p.rootX, c));
      }
    }
    forall b | 1 <= b <= 10 ensures X(cfg, p, b) != Y(cfg, p, 11) {
      if X(cfg, p, b) == Y(cfg, p, 11) {
        DigestOfOffer(Offer(A(cfg, p), B(cfg, p), p.rootX, b), Offer(B(cfg, p), A(cfg, p), cfg.blake2(p.chunk), 11));
      }
    }
    DepositsAreWholeIff(cfg, p);
    PayoutsAreWholeIff(cfg, p);
  }
}
