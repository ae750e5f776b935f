/** From a payload on the provider's disk to a verdict on chain. */
module Delivery {
  import opened Primitives
  import opened Merkle
  import opened Chunking
  import opened ChunkStore
  import opened Chain
  import opened Agents
  import opened Commitments
  import opened Runs
  import opened Effects
  import opened Deals
  import opened Settlement
  import Escrow
  import Currency

  /** `commitment` anchors exactly this chunk list. */
  predicate Anchors(cfg: Config, c: Commitment, chunks: seq<Bytes>) {
    chunks != [] && c.totalChunks == |chunks| < USIZE_RANGE && c.merkleRoot == BuiltRoot(cfg.blake2, chunks)
  }

  /** A dispute is open on `id`, and `caller` may still answer it for the provider. */
  predicate MayAnswer(s: State, caller: Account, id: Hash) {
    && id in s.db.commitments && s.db.commitments[id].status == Disputed
    && ActsFor(s.registry, s.db.commitments[id].provider, caller)
    && id in s.db.disputes && s.now <= s.db.disputes[id].counterDeadline
  }

  lemma AsUsizeExact(x: nat)
    requires x < USIZE_RANGE
    ensures AsUsize(x) == x
  {
  }

  /** The provider's answer is accepted, and with it the payout, unless the payout account is gone. */
  predicate AnswerWins(cfg: Config, s: State, caller: Account, id: Hash, chunk: ChunkData, proof: ProofHashes) {
    && id in s.db.commitments && id in s.escrows
    && var r := Step(cfg, s, CounterDispute(caller, id, s.db.commitments[id].provider, chunk, proof));
    && (r.Ok? <==> !PayeeDead(s, s.escrows[id]))
    && (r.Ok? ==>
          && id in r.value.db.disputes && r.value.db.disputes[id].verdict == Some(ClaimantUnsubstantiated)
          && EscrowStatusOf(r.value, id) == Some(Released))
  }

  lemma FundedAnswerWins(cfg: Config, s: State, caller: Account, id: Hash, chunk: ChunkData, proof: ProofHashes)
    requires Upheld(s, id) && MayAnswer(s, caller, id)
    requires ProofAnswers(cfg, s.db.commitments[id], s.db.disputes[id], chunk, proof)
    ensures AnswerWins(cfg, s, caller, id, chunk, proof)
  {
    hide Step, ProofAnswers, SlashReputation;
    var c := s.db.commitments[id];
    StepIs(cfg, s, CounterDispute(caller, id, c.provider, chunk, proof));
    var released := Escrow.Release(Resolve(s, id, c, s.db.disputes[id], ClaimantUnsubstantiated), id);
    if released.Ok? {
      SlashReputationEffect(released.value, c.consumer, cfg.falseDisputeSlash);
    }
  }

  /** A valid proof for the recorded index settles the dispute, unless the payee's account is gone. */
  lemma ValidProofSettles(cfg: Config, genesis: State, calls: seq<Call>, caller: Account, id: Hash, chunk: ChunkData,
                          proof: ProofHashes)
    requires Genesis(genesis) && MayAnswer(Reached(cfg, genesis, calls).chain, caller, id)
    requires var s := Reached(cfg, genesis, calls).chain;
             ProofAnswers(cfg, s.db.commitments[id], s.db.disputes[id], chunk, proof)
    ensures AnswerWins(cfg, Reached(cfg, genesis, calls).chain, caller, id, chunk, proof)
  {
    OpenDealsAreFunded(cfg, genesis, calls, id);
    hide Reached;
    FundedAnswerWins(cfg, Reached(cfg, genesis, calls).chain, caller, id, chunk, proof);
  }

  /** A consumer in good standing can settle a running deal until it expires, unless the payee's account is gone. */
  lemma SettlementSucceedsIff(cfg: Config, genesis: State, calls: seq<Call>, call: Call)
    requires Genesis(genesis) && call.CloseCommitment?
    ensures var s := Reached(cfg, genesis, calls).chain;
            Step(cfg, s, call).Ok?
            <==> && call.id in s.db.commitments && call.id in s.escrows
                 && var c := s.db.commitments[call.id];
                 && c.status == CommitmentStatus.Active && s.now < c.expiresAt && c.consumer == call.consumer
                 && ActsFor(s.registry, call.consumer, call.caller)
                 && call.finalStreamHash == c.merkleRoot
                 && !PayeeDead(s, s.escrows[call.id])
  {
    OpenDealsAreFunded(cfg, genesis, calls, call.id);
    hide Reached;
  }

  /**
   Acknowledging takes only a live offer, a consumer in good standing, a
   registered provider, the price, and an id no escrow has used; the last is
   certain unless id preimages collide.
   */
  lemma AcknowledgementSucceedsIff(cfg: Config, genesis: State, calls: seq<Call>, call: Call)
    requires Genesis(genesis) && call.AcknowledgeCommitment?
    ensures var s := Reached(cfg, genesis, calls).chain;
            Step(cfg, s, call).Ok?
            <==> && call.id in s.db.commitments && call.id !in s.escrows
                 && var c := s.db.commitments[call.id];
                 && c.status == Pending && s.now < c.expiresAt && c.consumer == call.consumer
                 && ActsFor(s.registry, call.consumer, call.caller)
                 && c.provider in s.registry.profiles
                 && c.price <= Currency.Funds(s.balances, call.caller).free
    ensures var w := Reached(cfg, genesis, calls);
            Sound(cfg, w) && call.id in w.chain.db.commitments && w.chain.db.commitments[call.id].status == Pending ==>
              call.id !in w.chain.escrows
  {
    if Sound(cfg, Reached(cfg, genesis, calls)) {
      RecordsAgree(cfg, genesis, calls, call.id);
    }
    hide Reached, Sound;
  }

  // ------------------------------------------------------------------ from registration

  /** What a stored commitment's id was derived from. */
  function OfferOf(c: Commitment): Offer {
    Offer(c.provider, c.consumer, c.merkleRoot, c.createdAt)
  }

  /** Every stored commitment lies under the hash of its own terms. */
  ghost predicate IdsDerived(cfg: Config, s: State) {
    && s.now <= U32_MAX
    && forall id | id in s.db.commitments ::
         CommitmentId(cfg, OfferOf(s.db.commitments[id])) == id && s.db.commitments[id].createdAt <= s.now
  }

  lemma StepDerivesIds(cfg: Config, s: State, call: Call)
    requires IdsDerived(cfg, s)
    ensures IdsDerived(cfg, Apply(cfg, s, call))
  {
    hide Step, OnlyScoresChange, CommitmentId;
    if Step(cfg, s, call).Ok? {
      StepHasEffect(cfg, s, call);
    }
  }

  lemma {:induction false} ReachedDerivesIds(cfg: Config, genesis: State, calls: seq<Call>)
    requires Genesis(genesis)
    ensures IdsDerived(cfg, Reached(cfg, genesis, calls).chain)
  {
    if calls != [] {
      ReachedDerivesIds(cfg, genesis, calls[..|calls| - 1]);
      StepDerivesIds(cfg, Reached(cfg, genesis, calls[..|calls| - 1]).chain, calls[|calls| - 1]);
    }
  }

  predicate SameTerms(c: Commitment, d: Commitment) {
    d == c.(status := d.status, acknowledgedAt := d.acknowledgedAt)
  }

  /**
   What became of commitment `c`, registered under `id`: its terms are still
   there, or it is gone and anything under `id` is younger. At the clock's
   last block it expired as it was made, and nothing under `id` can run.
   */
  predicate Followed(s: State, id: Hash, c: Commitment) {
    if c.createdAt >= U32_MAX then
      id in s.db.commitments ==> s.db.commitments[id].status == Pending && s.db.commitments[id].expiresAt <= s.now
    else
      || (id in s.db.commitments && SameTerms(c, s.db.commitments[id]))
      || (c.createdAt < s.now && (id in s.db.commitments ==> c.createdAt < s.db.commitments[id].createdAt))
  }

  lemma StepFollows(cfg: Config, s: State, call: Call, id: Hash, c: Commitment)
    requires Followed(s, id, c) && s.now <= U32_MAX
    requires c.createdAt < U32_MAX ==> c.createdAt < c.expiresAt
    requires c.createdAt >= U32_MAX ==> s.now == U32_MAX
    ensures var t := Apply(cfg, s, call);
            Followed(t, id, c) && t.now <= U32_MAX && (c.createdAt >= U32_MAX ==> t.now == U32_MAX)
  {
    hide Step, OnlyScoresChange, CommitmentId;
    if Step(cfg, s, call).Ok? {
      StepHasEffect(cfg, s, call);
    }
  }

  lemma {:induction false} RunFollows(cfg: Config, s: State, calls: seq<Call>, id: Hash, c: Commitment)
    requires Followed(s, id, c) && s.now <= U32_MAX
    requires c.createdAt < U32_MAX ==> c.createdAt < c.expiresAt
    requires c.createdAt >= U32_MAX ==> s.now == U32_MAX
    ensures var t := After(cfg, s, calls);
            Followed(t, id, c) && t.now <= U32_MAX && (c.createdAt >= U32_MAX ==> t.now == U32_MAX)
  {
    if calls != [] {
      RunFollows(cfg, s, calls[..|calls| - 1], id, c);
      StepFollows(cfg, After(cfg, s, calls[..|calls| - 1]), calls[|calls| - 1], id, c);
    }
  }

  /** What a registration stores. */
  function Registration(s: State, call: Call): Commitment
    requires call.RegisterCommitment?
  {
    Commitment(call.provider, call.consumer, call.root, call.total, Pending, s.now,
               SaturatingAdd(s.now, call.expiresIn), None, call.price)
  }

  /** The run in which `call` is made after `calls`, and `more` after that. */
  function Later(cfg: Config, genesis: State, calls: seq<Call>, call: Call, more: seq<Call>): State {
    Reached(cfg, genesis, calls + [call] + more).chain
  }

  lemma LaterIs(cfg: Config, genesis: State, calls: seq<Call>, call: Call, more: seq<Call>)
    ensures Later(cfg, genesis, calls, call, more)
            == After(cfg, Apply(cfg, Reached(cfg, genesis, calls).chain, call), more)
  {
    hide Next, Apply;
    var start, made := World(genesis, NO_HISTORY), calls + [call];
    assert made[..|made| - 1] == calls;
    RunSplits(cfg, start, made, more);
    RunIsAfter(cfg, Run(cfg, start, made), more);
    RunIsAfter(cfg, start, made);
    RunIsAfter(cfg, start, calls);
  }

  /**
   A deal disputed under the id a registration reported is that registration's
   deal, root and chunk count included, or two id preimages collide.
   */
  lemma DisputedIsAsRegistered(cfg: Config, genesis: State, calls: seq<Call>, call: Call, more: seq<Call>)
    requires Genesis(genesis) && call.RegisterCommitment? && Step(cfg, Reached(cfg, genesis, calls).chain, call).Ok?
    requires var id, t := NewId(cfg, Reached(cfg, genesis, calls).chain, call), Later(cfg, genesis, calls, call, more);
             id in t.db.commitments && t.db.commitments[id].status == Disputed
    ensures var s, t := Reached(cfg, genesis, calls).chain, Later(cfg, genesis, calls, call, more);
            var d := t.db.commitments[NewId(cfg, s, call)];
            || SameTerms(Registration(s, call), d)
            || Collision(cfg.blake2, OfferBytes(OfferOf(Registration(s, call))), OfferBytes(OfferOf(d)))
  {
    var s, t := Reached(cfg, genesis, calls).chain, Later(cfg, genesis, calls, call, more);
    var id, c := NewId(cfg, s, call), Registration(s, call);
    ReachedDerivesIds(cfg, genesis, calls);
    ReachedDerivesIds(cfg, genesis, calls + [call] + more);
    LaterIs(cfg, genesis, calls, call, more);
    StepHasEffect(cfg, s, call);
    hide Step, Reached, Later, OfferBytes;
    RunFollows(cfg, Apply(cfg, s, call), more, id, c);
    if OfferBytes(OfferOf(c)) == OfferBytes(OfferOf(t.db.commitments[id])) {
      OfferBytesInjective(OfferOf(c), OfferOf(t.db.commitments[id]));
    }
  }

  /** The terms submitted with a registration are those of the staged payload. */
  predicate Submits(cfg: Config, call: Call, chunks: seq<Bytes>)
    requires call.RegisterCommitment?
  {
    chunks != [] && call.total == |chunks| < USIZE_RANGE && call.root == BuiltRoot(cfg.blake2, chunks)
  }

  /** `x` collides with the payload of one of the errands. */
  ghost predicate CollidesWith(cfg: Config, x: Bytes, errands: seq<Errand>) {
    exists e | e in errands :: Collision(cfg.blake2, x, e.payload)
  }

  /** Two id preimages collide, or one with a payload of other client work, or two payloads. */
  ghost predicate HashesCollide(cfg: Config, o: Offer, p: Offer, payload: Bytes, inFlight: seq<Errand>,
                                errands: seq<Errand>)
  {
    || Collision(cfg.blake2, OfferBytes(o), OfferBytes(p))
    || CollidesWith(cfg, OfferBytes(o), inFlight) || CollidesWith(cfg, OfferBytes(o), errands)
    || CollidesWith(cfg, payload, inFlight)
  }

  lemma NoCollisionNoMatch(cfg: Config, x: Bytes, errands: seq<Errand>, e: Errand)
    requires !CollidesWith(cfg, x, errands) && e in errands && e.payload != x
    ensures cfg.blake2(e.payload) != cfg.blake2(x)
  {
    assert !Collision(cfg.blake2, x, e.payload);
  }

  /**
   Other client work that leaves a registration alone: none of it handles the
   id's own 119-byte preimage as a payload, and while the registration is in
   flight none handles the same payload or promotes to its id.
   */
  predicate Considerate(id: Hash, preimage: Bytes, payload: Bytes, inFlight: seq<Errand>, errands: seq<Errand>) {
    && (forall e | e in inFlight :: e.payload != payload && e.payload != preimage && (e.Promotion? ==> e.target != id))
    && (forall e | e in errands :: e.payload != preimage)
  }

  /**
   An honest provider always wins: the payload it chunked, staged, registered
   and promoted answers a dispute at any index of that registration's deal,
   with arguments inside the on-chain bounds, and the verdict goes its way
   unless its own payout account is gone. Between registration and answer any
   calls may fall, and any considerate use of the store between staging and
   answer. The alternative is an explicit collision.
   */
  lemma HonestProviderWins(cfg: Config, genesis: State, calls: seq<Call>, call: Call, more: seq<Call>,
                           dirs: Directories, mode: ChunkMode, payload: Bytes, inFlight: seq<Errand>,
                           errands: seq<Errand>, caller: Account, r: CounterArguments)
    requires Genesis(genesis) && call.RegisterCommitment? && Step(cfg, Reached(cfg, genesis, calls).chain, call).Ok?
    requires Chunked(mode, payload).Some? && Submits(cfg, call, Chunked(mode, payload).value)
    requires var s := Reached(cfg, genesis, calls).chain;
             var id := NewId(cfg, s, call);
             && (cfg.blake2(payload) == id || Existing(dirs, id) == map[])
             && Considerate(id, OfferBytes(OfferOf(Registration(s, call))), payload, inFlight, errands)
             && MayAnswer(Later(cfg, genesis, calls, call, more), caller, id)
    ensures var s, t := Reached(cfg, genesis, calls).chain, Later(cfg, genesis, calls, call, more);
            var id, chunks := NewId(cfg, s, call), Chunked(mode, payload).value;
            var index := t.db.disputes[id].disputedChunkIndex;
            var promoted := Promoted(cfg.blake2, dirs, payload, chunks, inFlight, id);
            || HashesCollide(cfg, OfferOf(Registration(s, call)), OfferOf(t.db.commitments[id]), payload, inFlight,
                             errands)
            || (&& promoted.Some?
                && (Answers(cfg.blake2, Tended(cfg.blake2, promoted.value, errands), id, index, |chunks|, r) ==>
                      && r.Arguments? && |r.chunk| <= 1024 && |r.proof| <= 32
                      && AnswerWins(cfg, t, caller, id, r.chunk, r.proof)))
  {
    var s, t := Reached(cfg, genesis, calls).chain, Later(cfg, genesis, calls, call, more);
    var id, chunks := NewId(cfg, s, call), Chunked(mode, payload).value;
    var o := OfferOf(Registration(s, call));
    DisputedIsAsRegistered(cfg, genesis, calls, call, more);
    if !HashesCollide(cfg, o, OfferOf(t.db.commitments[id]), payload, inFlight, errands) {
      var index := t.db.disputes[id].disputedChunkIndex;
      OpenDealsAreFunded(cfg, genesis, calls + [call] + more, id);
      assert cfg.blake2(OfferBytes(o)) == id;
      hide Reached, Step, AnswerWins, Verify, Answers, Promoted, BuiltRoot, Tended, CommitmentId, OfferBytes,
        CollidesWith;
      forall e | e in errands ensures cfg.blake2(e.payload) != id {
        NoCollisionNoMatch(cfg, OfferBytes(o), errands, e);
      }
      forall e | e in inFlight ensures cfg.blake2(e.payload) != id && cfg.blake2(e.payload) != cfg.blake2(payload) {
        NoCollisionNoMatch(cfg, OfferBytes(o), inFlight, e);
        NoCollisionNoMatch(cfg, payload, inFlight, e);
      }
      StagedPayloadAnswersEveryDispute(cfg.blake2, dirs, mode, payload, inFlight, id, errands, index, r);
      var promoted := Promoted(cfg.blake2, dirs, payload, chunks, inFlight, id).value;
      if Answers(cfg.blake2, Tended(cfg.blake2, promoted, errands), id, index, |chunks|, r) {
        AsUsizeExact(index);
        AsUsizeExact(|chunks|);
        ValidProofSettles(cfg, genesis, calls + [call] + more, caller, id, r.chunk, r.proof);
      }
    }
  }

  /** Why the preimage is excluded: once staged in place of chunk zero, any answer built from disk submits it. */
  lemma StagingThePreimageSpoilsChunkZero(cfg: Config, dirs: Directories, o: Offer, total: nat, r: CounterArguments)
    requires var later := Ran(cfg.blake2, dirs, Staging(ByteMode, OfferBytes(o)));
             Answers(cfg.blake2, later, CommitmentId(cfg, o), 0, total, r)
    ensures r.Arguments? ==> r.chunk == OfferBytes(o)
  {
    var x := OfferBytes(o);
    OfferLayout(o);
    hide Verify, BuiltRoot;
    assert ByteChunks(x) == [x];
    OverlaidAt(Existing(dirs, CommitmentId(cfg, o)), [x], 0);
  }

  /** And the chain refuses that answer to a dispute over chunk zero, or a collision is at hand. */
  lemma SpoiledAnswerFails(cfg: Config, s: State, call: Call, dirs: Directories, o: Offer, chunks: seq<Bytes>,
                           r: CounterArguments)
    requires call.CounterDispute? && call.id == CommitmentId(cfg, o)
    requires call.id in s.db.commitments && Anchors(cfg, s.db.commitments[call.id], chunks)
    requires call.id in s.db.disputes && s.db.disputes[call.id].disputedChunkIndex == 0
    requires var later := Ran(cfg.blake2, dirs, Staging(ByteMode, OfferBytes(o)));
             Answers(cfg.blake2, later, call.id, 0, |chunks|, r) && r == Arguments(call.chunk, call.proof)
    requires chunks[0] != OfferBytes(o)
    ensures || Step(cfg, s, call).Err?
            || var (x, y) := ChunkCollision(cfg.blake2, call.chunk, chunks[0], 0, |chunks|, call.proof,
                                            GeneratedProof(cfg.blake2, chunks, 0));
               Collision(cfg.blake2, x, y)
  {
    hide Step, Answers, OfferBytes, CommitmentId, Ran, BuiltRoot, ChunkCollision;
    StagingThePreimageSpoilsChunkZero(cfg, dirs, o, |chunks|, r);
    if Step(cfg, s, call).Ok? {
      OnlyTheAnchoredChunkAnswers(cfg, s, call, chunks);
    }
  }

  /** A dispute on an honestly anchored commitment can be answered only with the anchored chunk, or a collision. */
  lemma OnlyTheAnchoredChunkAnswers(cfg: Config, s: State, call: Call, chunks: seq<Bytes>)
    requires call.CounterDispute? && Step(cfg, s, call).Ok?
    requires call.id in s.db.commitments && Anchors(cfg, s.db.commitments[call.id], chunks)
    ensures call.id in s.db.disputes
    ensures var index := s.db.disputes[call.id].disputedChunkIndex;
            && index < |chunks|
            && (|| call.chunk == chunks[index]
                || var (x, y) := ChunkCollision(cfg.blake2, call.chunk, chunks[index], index, |chunks|, call.proof,
                                                GeneratedProof(cfg.blake2, chunks, index));
                   Collision(cfg.blake2, x, y))
  {
    var index := CounteredIndex(cfg, s, call);
    AsUsizeExact(index);
    AsUsizeExact(|chunks|);
    HonestRootAcceptsOnlyItsChunk(cfg.blake2, chunks, index, call.chunk, call.proof);
  }

  /** What a successful counter says about its proof. */
  lemma CounteredIndex(cfg: Config, s: State, call: Call) returns (index: nat)
    requires call.CounterDispute? && Step(cfg, s, call).Ok?
    ensures call.id in s.db.commitments && call.id in s.db.disputes
    ensures index == s.db.disputes[call.id].disputedChunkIndex < s.db.commitments[call.id].totalChunks
    ensures ProofAnswers(cfg, s.db.commitments[call.id], s.db.disputes[call.id], call.chunk, call.proof)
  {
    index := s.db.disputes[call.id].disputedChunkIndex;
  }

  /** Whatever root was anchored, two different chunks that could both answer one dispute exhibit a collision. */
  lemma DisputesBindOneChunk(cfg: Config, s: State, one: Call, other: Call)
    requires one.CounterDispute? && other.CounterDispute? && one.id == other.id && one.chunk != other.chunk
    requires Step(cfg, s, one).Ok? && Step(cfg, s, other).Ok?
    ensures one.id in s.db.commitments && one.id in s.db.disputes
    ensures var i := AsUsize(s.db.disputes[one.id].disputedChunkIndex);
            var n := AsUsize(s.db.commitments[one.id].totalChunks);
            var (x, y) := ChunkCollision(cfg.blake2, one.chunk, other.chunk, i, n, one.proof, other.proof);
            Collision(cfg.blake2, x, y)
  {
    hide Step;
    var _ := CounteredIndex(cfg, s, one);
    var _ := CounteredIndex(cfg, s, other);
    var c, d := s.db.commitments[one.id], s.db.disputes[one.id];
    ChunkBinding(cfg.blake2, c.merkleRoot, AsUsize(d.disputedChunkIndex), AsUsize(c.totalChunks),
                 one.chunk, other.chunk, one.proof, other.proof);
  }
}
