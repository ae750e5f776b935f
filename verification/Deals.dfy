/**
 The abstract deal that commitments, disputes, receipts and escrows together
 implement, and the ids deals are known by.
 */
module Deals {
  import opened Primitives
  import opened Chain
  import opened Commitments
  import opened Runs
  import opened Effects

  // -------------------------------------------------------------- the abstract deal

  datatype Deal =
    | Unknown
    | Offered
    | Running
    | Paid
    | Contested
    | Vindicated   // dispute answered, provider paid
    | Reimbursed   // dispute lost by the provider, consumer refunded
    | Lapsed       // expired before acknowledgement
    | Stranded     // expired while running: its escrow stays locked

  /** The moves of the deal automaton. */
  predicate Edge(a: Deal, b: Deal) {
    match a
    case Unknown => b == Offered
    case Offered => b == Running || b == Lapsed
    case Running => b == Paid || b == Contested || b == Stranded
    case Contested => b == Vindicated || b == Reimbursed
    case _ => false
  }

  /** Where the money of a deal is supposed to be. */
  function Money(d: Deal): Option<EscrowStatus> {
    match d
    case Unknown | Offered | Lapsed => None
    case Running | Contested | Stranded => Some(Locked)
    case Paid | Vindicated => Some(Released)
    case Reimbursed => Some(Refunded)
  }

  function DealOf(w: World, id: Hash): Deal {
    var db := w.chain.db;
    if id in db.commitments then
      match db.commitments[id].status
      case Pending => Offered
      case Active => Running
      case Settled => Paid
      case Disputed => Contested
      case DisputeResolved =>
        if id in db.disputes && db.disputes[id].verdict == Some(ProviderGuilty) then Reimbursed else Vindicated
      case Expired => Lapsed
    else if id in w.past.stranded then Stranded
    else if id in w.past.issued then Lapsed
    else Unknown
  }

  function EscrowStatusOf(s: State, id: Hash): Option<EscrowStatus> {
    if id in s.escrows then Some(s.escrows[id].status) else None
  }

  /** Escrow, receipt and dispute record of `id` say what its deal says. */
  predicate Consistent(w: World, id: Hash) {
    var db, d := w.chain.db, DealOf(w, id);
    && EscrowStatusOf(w.chain, id) == Money(d)
    && (id in db.commitments ==> db.commitments[id].status != Expired && id in w.past.issued)
    && (id in w.past.stranded ==> id in w.past.issued && id !in db.commitments)
    && (id in db.receipts <==> d == Paid)
    && (d == Paid ==> db.receipts[id].finalStreamHash == db.commitments[id].merkleRoot)
    && (id in db.disputes <==> d == Contested || d == Vindicated || d == Reimbursed)
    && (id in db.disputes ==>
          && db.disputes[id].merkleRoot == db.commitments[id].merkleRoot
          && db.disputes[id].disputedChunkIndex < db.commitments[id].totalChunks
          && (db.disputes[id].verdict == None <==> d == Contested)
          && (db.disputes[id].verdict == Some(ClaimantUnsubstantiated) <==> d == Vindicated))
  }

  /** A registration hands out an id that holds no funds, and that is new unless the clock has run out. */
  predicate HandsOutCleanId(cfg: Config, w: World, call: Call) {
    call.RegisterCommitment? && Step(cfg, w.chain, call).Ok? ==>
      && NewId(cfg, w.chain, call) !in w.past.stranded
      && (w.chain.now < U32_MAX ==> NewId(cfg, w.chain, call) !in w.past.issued)
  }

  function NewId(cfg: Config, s: State, call: Call): Hash
    requires call.RegisterCommitment?
  {
    CommitmentId(cfg, Offer(call.provider, call.consumer, call.root, s.now))
  }

  /** The deal rests, or takes an edge; only at the clock's last block can a lapsed offer be made again. */
  predicate Moves(w: World, v: World, id: Hash) {
    || DealOf(v, id) == DealOf(w, id)
    || Edge(DealOf(w, id), DealOf(v, id))
    || (w.chain.now >= U32_MAX && DealOf(w, id) == Lapsed && DealOf(v, id) == Offered)
  }

  /** The two notes a deal's state depends on beside the chain. */
  lemma DealNotes(cfg: Config, w: World, call: Call)
    requires Step(cfg, w.chain, call).Ok?
    ensures var h, k := w.past, Next(cfg, w, call).past;
            && k.issued == h.issued + (if call.RegisterCommitment? then {NewId(cfg, w.chain, call)} else {})
            && k.stranded == h.stranded
               + (if call.ExpireCommitment? && w.chain.db.commitments[call.id].status == CommitmentStatus.Active
                  then {call.id} else {})
  {
  }

  lemma RaiseMoves(cfg: Config, w: World, call: Call, id: Hash)
    requires call.RaiseDispute? && Consistent(w, id) && Step(cfg, w.chain, call).Ok?
    ensures var v := Next(cfg, w, call); Consistent(v, id) && Moves(w, v, id)
  {
    hide Step, Next, Observe;
    NextIs(cfg, w, call);
    StepHasEffect(cfg, w.chain, call);
    DealNotes(cfg, w, call);
  }

  lemma CounterMoves(cfg: Config, w: World, call: Call, id: Hash)
    requires call.CounterDispute?
    requires Consistent(w, id) && Step(cfg, w.chain, call).Ok?
    ensures var v := Next(cfg, w, call); Consistent(v, id) && Moves(w, v, id)
  {
    hide Step, Next, Observe, OnlyScoresChange;
    NextIs(cfg, w, call);
    StepHasEffect(cfg, w.chain, call);
    DealNotes(cfg, w, call);
  }

  lemma FinalizeMoves(cfg: Config, w: World, call: Call, id: Hash)
    requires call.FinalizeDispute?
    requires Consistent(w, id) && Step(cfg, w.chain, call).Ok?
    ensures var v := Next(cfg, w, call); Consistent(v, id) && Moves(w, v, id)
  {
    hide Step, Next, Observe, OnlyScoresChange;
    NextIs(cfg, w, call);
    StepHasEffect(cfg, w.chain, call);
    DealNotes(cfg, w, call);
  }

  lemma RegisterMoves(cfg: Config, w: World, call: Call, id: Hash)
    requires call.RegisterCommitment?
    requires Consistent(w, id) && HandsOutCleanId(cfg, w, call) && Step(cfg, w.chain, call).Ok?
    ensures var v := Next(cfg, w, call); Consistent(v, id) && Moves(w, v, id)
  {
    hide Step, Next, Observe, CommitmentId;
    NextIs(cfg, w, call);
    StepHasEffect(cfg, w.chain, call);
    DealNotes(cfg, w, call);
  }

  lemma AcknowledgeMoves(cfg: Config, w: World, call: Call, id: Hash)
    requires call.AcknowledgeCommitment?
    requires Consistent(w, id) && Step(cfg, w.chain, call).Ok?
    ensures var v := Next(cfg, w, call); Consistent(v, id) && Moves(w, v, id)
  {
    hide Step, Next, Observe;
    NextIs(cfg, w, call);
    StepHasEffect(cfg, w.chain, call);
    DealNotes(cfg, w, call);
  }

  lemma CloseMoves(cfg: Config, w: World, call: Call, id: Hash)
    requires call.CloseCommitment?
    requires Consistent(w, id) && Step(cfg, w.chain, call).Ok?
    ensures var v := Next(cfg, w, call); Consistent(v, id) && Moves(w, v, id)
  {
    hide Step, Next, Observe;
    NextIs(cfg, w, call);
    StepHasEffect(cfg, w.chain, call);
    DealNotes(cfg, w, call);
  }

  lemma ExpireMoves(cfg: Config, w: World, call: Call, id: Hash)
    requires call.ExpireCommitment?
    requires Consistent(w, id) && Step(cfg, w.chain, call).Ok?
    ensures var v := Next(cfg, w, call); Consistent(v, id) && Moves(w, v, id)
  {
    hide Step, Next, Observe;
    NextIs(cfg, w, call);
    StepHasEffect(cfg, w.chain, call);
    DealNotes(cfg, w, call);
  }

  lemma QuietMoves(cfg: Config, w: World, call: Call, id: Hash)
    requires !call.RegisterCommitment? && !Progresses(call)
    requires Consistent(w, id) && Step(cfg, w.chain, call).Ok?
    ensures var v := Next(cfg, w, call); Consistent(v, id) && Moves(w, v, id)
  {
    hide Step, Next, Observe;
    NextIs(cfg, w, call);
    StepHasEffect(cfg, w.chain, call);
    DealNotes(cfg, w, call);
  }

  /** Every step of the three pallets is a move of the deal automaton, and keeps the records in agreement. */
  lemma StepSimulates(cfg: Config, w: World, call: Call, id: Hash)
    requires Consistent(w, id) && HandsOutCleanId(cfg, w, call)
    ensures var v := Next(cfg, w, call); Consistent(v, id) && Moves(w, v, id)
  {
    hide Step, Next, Observe, Consistent, DealOf;
    NextIs(cfg, w, call);
    if Step(cfg, w.chain, call).Ok? {
      if call.RegisterCommitment? {
        RegisterMoves(cfg, w, call, id);
      } else if call.RaiseDispute? {
        RaiseMoves(cfg, w, call, id);
      } else if call.CounterDispute? {
        CounterMoves(cfg, w, call, id);
      } else if call.FinalizeDispute? {
        FinalizeMoves(cfg, w, call, id);
      } else if call.AcknowledgeCommitment? {
        AcknowledgeMoves(cfg, w, call, id);
      } else if call.CloseCommitment? {
        CloseMoves(cfg, w, call, id);
      } else if call.ExpireCommitment? {
        ExpireMoves(cfg, w, call, id);
      } else {
        QuietMoves(cfg, w, call, id);
      }
    }
  }

  // -------------------------------------------------------------------------- ids

  /** The preimage layout fixes provider, consumer, root and block. */
  lemma OfferBytesInjective(o: Offer, p: Offer)
    requires o.block <= U32_MAX && p.block <= U32_MAX
    requires OfferBytes(o) == OfferBytes(p)
    ensures o == p
  {
    OfferLayout(o);
    OfferLayout(p);
    LittleEndianInjective(o.block, p.block);
  }

  lemma OfferLayout(o: Offer)
    ensures var x := OfferBytes(o);
            && |x| == 119
            && x[..19] == VECTOR_DOMAIN
            && x[19..51] == o.provider && x[51..83] == o.consumer && x[83..115] == o.root
            && x[115..] == LittleEndian(o.block)
  {
  }

  /** The id is the hash of a tag that spells its name, provider, consumer, root, and the block in four bytes. */
  lemma IdPreimage(cfg: Config, o: Offer, x: Bytes, tag: string)
    requires tag == "ArthNeura-Vector-v1" && |x| == 119 && o.block <= U32_MAX
    requires forall i | 0 <= i < 19 :: x[i] == tag[i] as int
    requires x[19..51] == o.provider && x[51..83] == o.consumer && x[83..115] == o.root
    requires o.block == Weighed(x[115], x[116], x[117], x[118])
    ensures CommitmentId(cfg, o) == cfg.blake2(x)
  {
    var y := OfferBytes(o);
    OfferLayout(o);
    TagSpelled(tag);
    BlockBytes(o.block, x[115..]);
    assert x[..19] == VECTOR_DOMAIN;
    assert x == x[..19] + x[19..51] + x[51..83] + x[83..115] + x[115..];
  }

  lemma TagSpelled(tag: string)
    requires tag == "ArthNeura-Vector-v1"
    ensures |tag| == |VECTOR_DOMAIN| == 19 && forall i | 0 <= i < 19 :: VECTOR_DOMAIN[i] == tag[i] as int
  {
  }

  lemma BlockBytes(n: nat, b: Bytes)
    requires n <= U32_MAX && |b| == 4 && n == Weighed(b[0], b[1], b[2], b[3])
    ensures LittleEndian(n) == b
  {
    var b0: nat, b1: nat, b2: nat, b3: nat := b[0], b[1], b[2], b[3];
    assert n / 256 == b1 + 256 * b2 + 65536 * b3;
    assert n / 65536 == b2 + 256 * b3;
    assert n / 16777216 == b3;
  }

  /** No two different preimages hashed for a commitment id in this run collide. */
  ghost predicate CollisionFree(cfg: Config, offers: set<Offer>) {
    forall o, p | o in offers && p in offers ::
      CommitmentId(cfg, o) == CommitmentId(cfg, p) ==> OfferBytes(o) == OfferBytes(p)
  }

  /** How an offer made during a run is on record. */
  predicate OfferFiled(cfg: Config, w: World, o: Offer) {
    var id, now := CommitmentId(cfg, o), w.chain.now;
    && o.block <= now
    && id in w.past.issued
    && (id in w.chain.db.commitments ==> w.chain.db.commitments[id].createdAt == o.block)
    && (id in w.past.stranded ==> o.block < now)
    && (o.block == now < U32_MAX ==> id in w.chain.db.commitments)
  }

  /** The dates of a commitment: it expires after its block, except at the clock's last block. */
  predicate TermsFiled(now: nat, c: Commitment) {
    && c.createdAt <= now
    && (c.createdAt < U32_MAX || c.status == CommitmentStatus.Active ==> c.createdAt < c.expiresAt)
  }

  ghost predicate Filed(cfg: Config, w: World) {
    && w.chain.now <= U32_MAX
    && (forall o | o in w.past.offers :: OfferFiled(cfg, w, o))
    && (forall id | id in w.past.issued :: exists o :: o in w.past.offers && CommitmentId(cfg, o) == id)
    && (forall id | id in w.chain.db.commitments :: TermsFiled(w.chain.now, w.chain.db.commitments[id]))
    && w.past.stranded <= w.past.issued
    && w.chain.db.commitments.Keys <= w.past.issued
  }

  /** How any call treats what is on file. */
  ghost predicate FileStep(s: State, t: State) {
    && s.now <= t.now <= s.now + 1
    && (forall id | id in t.db.commitments && id in s.db.commitments ::
          var c, d := s.db.commitments[id], t.db.commitments[id];
          && d.createdAt == c.createdAt && d.expiresAt == c.expiresAt
          && (d.status == CommitmentStatus.Active ==> c.status == CommitmentStatus.Active || s.now < c.expiresAt))
    && (forall id | id in s.db.commitments && id !in t.db.commitments :: s.db.commitments[id].expiresAt <= s.now)
    && (forall id | id in t.db.commitments && id !in s.db.commitments ::
          var d := t.db.commitments[id];
          && d.status == Pending && d.createdAt == s.now == t.now && (s.now < U32_MAX ==> s.now < d.expiresAt))
    && (t.now != s.now ==> t.db == s.db && t.now <= U32_MAX)
  }

  lemma StepFiles(cfg: Config, s: State, call: Call)
    ensures FileStep(s, Apply(cfg, s, call))
  {
    hide Step;
    if Step(cfg, s, call).Ok? {
      StepHasEffect(cfg, s, call);
    }
  }

  /** The notes on offers, ids and stranded deals only grow, and how they do. */
  lemma NotesGrow(cfg: Config, w: World, call: Call)
    ensures var v := Next(cfg, w, call);
            && w.past.offers <= v.past.offers && w.past.issued <= v.past.issued && w.past.stranded <= v.past.stranded
            && (if call.RegisterCommitment? && Step(cfg, w.chain, call).Ok? then
                  var o, id := Offer(call.provider, call.consumer, call.root, w.chain.now), NewId(cfg, w.chain, call);
                  && v.past.offers == w.past.offers + {o} && v.past.issued == w.past.issued + {id}
                  && v.past.stranded == w.past.stranded
                  && id !in w.chain.db.commitments
                  && v.chain.db.commitments.Keys == w.chain.db.commitments.Keys + {id}
                else
                  && v.past.offers == w.past.offers && v.past.issued == w.past.issued
                  && v.chain.db.commitments.Keys <= w.chain.db.commitments.Keys)
  {
    hide Step, Next, Observe;
    NextIs(cfg, w, call);
    if Step(cfg, w.chain, call).Ok? {
      StepHasEffect(cfg, w.chain, call);
      DealNotes(cfg, w, call);
      NotesTaken(cfg, w, call);
    }
  }

  lemma StrandedNote(cfg: Config, w: World, call: Call, id: Hash)
    requires id in Next(cfg, w, call).past.stranded && id !in w.past.stranded
    ensures id in w.chain.db.commitments && Next(cfg, w, call).chain.now == w.chain.now
    ensures var c := w.chain.db.commitments[id]; c.status == CommitmentStatus.Active && c.expiresAt <= w.chain.now
  {
    hide Step, Next, Observe;
    NextIs(cfg, w, call);
    if Step(cfg, w.chain, call).Ok? {
      StepHasEffect(cfg, w.chain, call);
      DealNotes(cfg, w, call);
    }
  }

  /** A registration cannot repeat an offer that is on record, so without collisions its id is clean. */
  lemma IdsAreClean(cfg: Config, w: World, call: Call)
    requires Filed(cfg, w) && CollisionFree(cfg, Next(cfg, w, call).past.offers)
    ensures HandsOutCleanId(cfg, w, call)
  {
    hide Step, Next, Observe, OfferBytes, CommitmentId;
    NotesGrow(cfg, w, call);
    if call.RegisterCommitment? && Step(cfg, w.chain, call).Ok? {
      var o := Offer(call.provider, call.consumer, call.root, w.chain.now);
      if CommitmentId(cfg, o) in w.past.issued {
        var p :| p in w.past.offers && CommitmentId(cfg, p) == CommitmentId(cfg, o);
        OfferBytesInjective(o, p);
        assert OfferFiled(cfg, w, o);
      }
    }
  }

  lemma StepFilesOffer(cfg: Config, w: World, call: Call, o: Offer)
    requires Filed(cfg, w) && CollisionFree(cfg, Next(cfg, w, call).past.offers)
    requires o in Next(cfg, w, call).past.offers
    ensures OfferFiled(cfg, Next(cfg, w, call), o)
  {
    hide Step, Next, Observe, OfferBytes, CommitmentId;
    var v, id := Next(cfg, w, call), CommitmentId(cfg, o);
    NextIs(cfg, w, call);
    NotesGrow(cfg, w, call);
    StepFiles(cfg, w.chain, call);
    IdsAreClean(cfg, w, call);
    assert v.chain == Apply(cfg, w.chain, call);
    if o in w.past.offers {
      assert OfferFiled(cfg, w, o);
      if id in v.past.stranded && id !in w.past.stranded {
        StrandedNote(cfg, w, call, id);
      }
      if call.RegisterCommitment? && Step(cfg, w.chain, call).Ok? && NewId(cfg, w.chain, call) == id {
        OfferBytesInjective(o, Offer(call.provider, call.consumer, call.root, w.chain.now));
      }
    }
  }

  lemma StepFiled(cfg: Config, w: World, call: Call)
    requires Filed(cfg, w) && CollisionFree(cfg, Next(cfg, w, call).past.offers)
    ensures Filed(cfg, Next(cfg, w, call))
  {
    hide Step, Next, Observe, CommitmentId, OfferFiled;
    var v := Next(cfg, w, call);
    NextIs(cfg, w, call);
    NotesGrow(cfg, w, call);
    StepFiles(cfg, w.chain, call);
    assert v.chain == Apply(cfg, w.chain, call);
    forall o | o in v.past.offers ensures OfferFiled(cfg, v, o) {
      StepFilesOffer(cfg, w, call, o);
    }
    forall id | id in v.past.issued ensures exists o :: o in v.past.offers && CommitmentId(cfg, o) == id {
      if id in w.past.issued {
        var o :| o in w.past.offers && CommitmentId(cfg, o) == id;
        assert o in v.past.offers;
      }
    }
    forall id | id in v.past.stranded ensures id in v.past.issued {
      if id !in w.past.stranded {
        StrandedNote(cfg, w, call, id);
      }
    }
  }

  /** The run's commitment ids are trustworthy: no two of their preimages collide. */
  ghost predicate Sound(cfg: Config, w: World) {
    CollisionFree(cfg, w.past.offers)
  }

  lemma SoundBefore(cfg: Config, w: World, call: Call)
    requires Sound(cfg, Next(cfg, w, call))
    ensures Sound(cfg, w)
  {
    hide Step, Next, Observe, CommitmentId, OfferBytes;
    NotesGrow(cfg, w, call);
  }

  lemma {:induction false} RunFiled(cfg: Config, genesis: State, calls: seq<Call>)
    requires Genesis(genesis) && Sound(cfg, Reached(cfg, genesis, calls))
    ensures Filed(cfg, Reached(cfg, genesis, calls))
  {
    if calls != [] {
      var before, last := calls[..|calls| - 1], calls[|calls| - 1];
      var w := Reached(cfg, genesis, before);
      assert Reached(cfg, genesis, calls) == Next(cfg, w, last);
      hide Next, CollisionFree, Filed;
      SoundBefore(cfg, w, last);
      RunFiled(cfg, genesis, before);
      StepFiled(cfg, w, last);
    }
  }

  /** Settlement correspondence: in every reachable state the three pallets tell one story about every id. */
  lemma {:induction false} RecordsAgree(cfg: Config, genesis: State, calls: seq<Call>, id: Hash)
    requires Genesis(genesis) && Sound(cfg, Reached(cfg, genesis, calls))
    ensures Consistent(Reached(cfg, genesis, calls), id)
  {
    if calls != [] {
      var before, last := calls[..|calls| - 1], calls[|calls| - 1];
      var w := Reached(cfg, genesis, before);
      assert Reached(cfg, genesis, calls) == Next(cfg, w, last);
      hide Next, CollisionFree, Filed, Consistent, HandsOutCleanId;
      SoundBefore(cfg, w, last);
      RunFiled(cfg, genesis, before);
      RecordsAgree(cfg, genesis, before, id);
      IdsAreClean(cfg, w, last);
      StepSimulates(cfg, w, last, id);
    }
  }

  /** The simulation over whole runs: every call moves every deal along the automaton. */
  lemma RunsSimulateTheAutomaton(cfg: Config, genesis: State, calls: seq<Call>, call: Call, id: Hash)
    requires Genesis(genesis) && Sound(cfg, Next(cfg, Reached(cfg, genesis, calls), call))
    ensures var w := Reached(cfg, genesis, calls); Moves(w, Next(cfg, w, call), id)
  {
    var w := Reached(cfg, genesis, calls);
    hide Next, CollisionFree, Filed, Consistent, HandsOutCleanId, Reached;
    SoundBefore(cfg, w, call);
    RunFiled(cfg, genesis, calls);
    RecordsAgree(cfg, genesis, calls, id);
    IdsAreClean(cfg, w, call);
    StepSimulates(cfg, w, call, id);
  }

  /** A commitment id is handed out at most once in a run, even after expiry removed its record. */
  lemma IdsNeverReused(cfg: Config, genesis: State, calls: seq<Call>, call: Call)
    requires Genesis(genesis) && Sound(cfg, Next(cfg, Reached(cfg, genesis, calls), call))
    requires call.RegisterCommitment? && Step(cfg, Reached(cfg, genesis, calls).chain, call).Ok?
    requires Reached(cfg, genesis, calls).chain.now < U32_MAX
    ensures NewId(cfg, Reached(cfg, genesis, calls).chain, call) !in Reached(cfg, genesis, calls).past.issued
  {
    var w := Reached(cfg, genesis, calls);
    hide Step, Next, Observe, CollisionFree, Filed, Reached;
    SoundBefore(cfg, w, call);
    RunFiled(cfg, genesis, calls);
    IdsAreClean(cfg, w, call);
  }
}
