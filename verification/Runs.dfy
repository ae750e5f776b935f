/** Calls, transactional dispatch, and whole runs with a record of what was observed. */
module Runs {
  import opened Primitives
  import opened Chain
  import opened Agents
  import opened Commitments
  import Currency

  datatype Call =
    // the environment
    | NextBlock
    | Transfer(source: Account, target: Account, amount: nat)
    | Reap(account: Account)
    // pallet-agent-registry
    | RegisterAgent(caller: Account, pubkey: Bytes, signedAt: nat, check: SignatureCheck)
    | SetAgentStatus(caller: Account, did: Did, status: AgentStatus)
    | GiveStar(caller: Account, giver: Did, receiver: Did)
    | RemoveStar(caller: Account, giver: Did, receiver: Did)
    | DeregisterAgent(caller: Account, did: Did)
    // pallet-vector-db
    | RegisterCommitment(
        caller: Account, provider: Did, consumer: Did, root: Hash, total: nat, expiresIn: nat, price: nat)
    | AcknowledgeCommitment(caller: Account, id: Hash, consumer: Did)
    | CloseCommitment(caller: Account, id: Hash, consumer: Did, finalStreamHash: Hash, chunkCount: nat)
    | RaiseDispute(caller: Account, id: Hash, consumer: Did, index: nat, received: Hash)
    | CounterDispute(caller: Account, id: Hash, provider: Did, chunk: ChunkData, proof: ProofHashes)
    | FinalizeDispute(caller: Account, id: Hash)
    | ExpireCommitment(caller: Account, id: Hash)

  function WithBalances(s: State, b: Result<Balances>): Result<State> {
    if b.Ok? then Ok(s.(balances := b.value)) else Err(b.error)
  }

  /** One call: the state it would commit, or the error it returns. */
  function Step(cfg: Config, s: State, call: Call): Result<State> {
    match call
    case NextBlock => if s.now < U32_MAX then Ok(s.(now := s.now + 1)) else Err(ClockExhausted)
    case Transfer(source, target, amount) => WithBalances(s, Currency.Transfer(s.balances, source, target, amount))
    case Reap(account) => WithBalances(s, Currency.Reap(s.balances, account))
    case RegisterAgent(caller, pubkey, signedAt, check) => Agents.RegisterAgent(cfg, s, caller, pubkey, signedAt, check)
    case SetAgentStatus(caller, did, status) => Agents.SetAgentStatus(s, caller, did, status)
    case GiveStar(caller, giver, receiver) => Agents.GiveStar(cfg, s, caller, giver, receiver)
    case RemoveStar(caller, giver, receiver) => Agents.RemoveStar(s, caller, giver, receiver)
    case DeregisterAgent(caller, did) => Agents.DeregisterAgent(cfg, s, caller, did)
    case RegisterCommitment(caller, provider, consumer, root, total, expiresIn, price) =>
      Commitments.RegisterCommitment(cfg, s, caller, provider, consumer, root, total, expiresIn, price)
    case AcknowledgeCommitment(caller, id, consumer) => Commitments.AcknowledgeCommitment(s, caller, id, consumer)
    case CloseCommitment(caller, id, consumer, finalStreamHash, chunkCount) =>
      Commitments.CloseCommitment(s, caller, id, consumer, finalStreamHash, chunkCount)
    case RaiseDispute(caller, id, consumer, index, received) =>
      Commitments.RaiseDispute(cfg, s, caller, id, consumer, index, received)
    case CounterDispute(caller, id, provider, chunk, proof) =>
      Commitments.CounterDispute(cfg, s, caller, id, provider, chunk, proof)
    case FinalizeDispute(_, id) => Commitments.FinalizeDispute(cfg, s, id)
    case ExpireCommitment(_, id) => Commitments.ExpireCommitment(s, id)
  }

  /** `Step` on the calls that carry a deal forward, one pallet function each. */
  lemma StepIs(cfg: Config, s: State, call: Call)
    ensures match call
            case AcknowledgeCommitment(caller, id, consumer) =>
              Step(cfg, s, call) == Commitments.AcknowledgeCommitment(s, caller, id, consumer)
            case CloseCommitment(caller, id, consumer, finalStreamHash, chunkCount) =>
              Step(cfg, s, call) == Commitments.CloseCommitment(s, caller, id, consumer, finalStreamHash, chunkCount)
            case RaiseDispute(caller, id, consumer, index, received) =>
              Step(cfg, s, call) == Commitments.RaiseDispute(cfg, s, caller, id, consumer, index, received)
            case CounterDispute(caller, id, provider, chunk, proof) =>
              Step(cfg, s, call) == Commitments.CounterDispute(cfg, s, caller, id, provider, chunk, proof)
            case FinalizeDispute(_, id) => Step(cfg, s, call) == Commitments.FinalizeDispute(cfg, s, id)
            case ExpireCommitment(_, id) => Step(cfg, s, call) == Commitments.ExpireCommitment(s, id)
            case _ => true
  {
    hide Commitments.AcknowledgeCommitment, Commitments.CloseCommitment, Commitments.RaiseDispute,
      Commitments.CounterDispute, Commitments.FinalizeDispute, Commitments.ExpireCommitment;
  }

  /** Transactional dispatch: a failed call leaves the state as it was. */
  function Apply(cfg: Config, s: State, call: Call): State {
    match Step(cfg, s, call)
    case Ok(t) => t
    case Err(_) => s
  }

  /** The state after a list of calls. */
  function After(cfg: Config, s: State, calls: seq<Call>): State {
    if calls == [] then s else Apply(cfg, After(cfg, s, calls[..|calls| - 1]), calls[|calls| - 1])
  }

  // ------------------------------------------------------------------------- history

  /** Stars one DID gave another, stars it took back, and the block of the first. */
  datatype Tally = Tally(given: nat, removed: nat, first: nat)

  datatype Parties = Parties(payer: Account, payee: Account, amount: nat)

  /** What an outside observer notes down while a run unfolds. */
  datatype History = History(
    offers: set<Offer>,               // what every successful registration committed to
    issued: set<Hash>,                // the ids those registrations reported
    stranded: set<Hash>,              // ids expired while Active
    parties: map<Hash, Parties>,      // who controlled both sides when a deal was acknowledged, and its price
    burned: map<Account, int>,        // wealth lost by a guilty provider's controller
    stars: map<(Did, Did), Tally>,
    guilty: map<Did, nat>,            // guilty verdicts that found the provider registered
    registrations: nat,
    progress: nat)                    // successful calls that move an existing commitment

  const NO_HISTORY: History := History({}, {}, {}, map[], map[], map[], map[], 0, 0)

  function Burned(h: History, a: Account): int {
    if a in h.burned then h.burned[a] else 0
  }

  function TallyOf(h: History, giver: Did, receiver: Did): Tally {
    if (giver, receiver) in h.stars then h.stars[(giver, receiver)] else Tally(0, 0, 0)
  }

  function GuiltyCount(h: History, did: Did): nat {
    if did in h.guilty then h.guilty[did] else 0
  }

  /** The note taken when `call` turns `s` into `t`. */
  function Observe(cfg: Config, h: History, s: State, call: Call, t: State): History
    requires Step(cfg, s, call) == Ok(t)
  {
    match call
    case RegisterCommitment(_, provider, consumer, root, _, _, _) =>
      var offer := Offer(provider, consumer, root, s.now);
      h.(offers := h.offers + {offer}, issued := h.issued + {CommitmentId(cfg, offer)},
         registrations := h.registrations + 1)
    case AcknowledgeCommitment(caller, id, _) =>
      var c := s.db.commitments[id];
      h.(parties := h.parties[id := Parties(caller, s.registry.profiles[c.provider].controller, c.price)],
         progress := h.progress + 1)
    case CloseCommitment(_, _, _, _, _) => h.(progress := h.progress + 1)
    case RaiseDispute(_, _, _, _, _) => h.(progress := h.progress + 1)
    case CounterDispute(_, _, _, _, _) => h.(progress := h.progress + 1)
    case FinalizeDispute(_, id) =>
      var provider := s.db.commitments[id].provider;
      if provider !in s.registry.profiles then h.(progress := h.progress + 1)
      else
        var a := s.registry.profiles[provider].controller;
        var loss := Currency.Wealth(s.balances, a) - Currency.Wealth(t.balances, a);
        h.(burned := h.burned[a := Burned(h, a) + loss],
           guilty := h.guilty[provider := GuiltyCount(h, provider) + 1],
           progress := h.progress + 1)
    case ExpireCommitment(_, id) =>
      h.(stranded := if s.db.commitments[id].status == CommitmentStatus.Active then h.stranded + {id} else h.stranded,
         progress := h.progress + 1)
    case GiveStar(_, giver, receiver) =>
      var tally := TallyOf(h, giver, receiver);
      var first := if (giver, receiver) in h.stars then tally.first else s.now;
      h.(stars := h.stars[(giver, receiver) := Tally(tally.given + 1, tally.removed, first)])
    case RemoveStar(_, giver, receiver) =>
      var tally := TallyOf(h, giver, receiver);
      h.(stars := h.stars[(giver, receiver) := tally.(removed := tally.removed + 1)])
    case _ => h
  }

  /** A chain together with its observed past. */
  datatype World = World(chain: State, past: History)

  function Next(cfg: Config, w: World, call: Call): World {
    match Step(cfg, w.chain, call)
    case Ok(t) => World(t, Observe(cfg, w.past, w.chain, call, t))
    case Err(_) => w
  }

  lemma NextIs(cfg: Config, w: World, call: Call)
    ensures var r := Step(cfg, w.chain, call);
            && (r.Ok? ==> Next(cfg, w, call) == World(r.value, Observe(cfg, w.past, w.chain, call, r.value)))
            && (r.Err? ==> Next(cfg, w, call) == w)
  {
  }

  function Run(cfg: Config, w: World, calls: seq<Call>): World {
    if calls == [] then w else Next(cfg, Run(cfg, w, calls[..|calls| - 1]), calls[|calls| - 1])
  }

  /** A chain at its first block: nothing registered, nothing reserved. */
  predicate Genesis(s: State) {
    && 1 <= s.now <= U32_MAX
    && (forall a :: a in s.balances ==> s.balances[a].reserved == 0)
    && s.registry == Registry(map[], map[], 0, map[], map[])
    && s.escrows == map[]
    && s.db == VectorDb(map[], 0, map[], map[], s.db.windowOverride)
    && s.slashes == []
  }

  /** What `BuildGenesisConfig` writes: the endowments, and the dispute window if one is given. */
  function Opening(balances: Balances, window: Option<nat>): (s: State)
    ensures (forall a :: a in balances ==> balances[a].reserved == 0) <==> Genesis(s)
  {
    State(1, balances, Registry(map[], map[], 0, map[], map[]), map[], VectorDb(map[], 0, map[], map[], window), [])
  }

  /** The world reached from genesis by a list of calls. */
  function Reached(cfg: Config, genesis: State, calls: seq<Call>): World {
    Run(cfg, World(genesis, NO_HISTORY), calls)
  }

  /** The chain of a run does not depend on the note-taking. */
  lemma {:induction false} RunIsAfter(cfg: Config, w: World, calls: seq<Call>)
    ensures Run(cfg, w, calls).chain == After(cfg, w.chain, calls)
  {
    if calls != [] {
      RunIsAfter(cfg, w, calls[..|calls| - 1]);
    }
  }

  lemma {:induction false} RunSplits(cfg: Config, w: World, calls: seq<Call>, more: seq<Call>)
    ensures Run(cfg, w, calls + more) == Run(cfg, Run(cfg, w, calls), more)
  {
    if more == [] {
      assert calls + more == calls;
    } else {
      RunSplits(cfg, w, calls, more[..|more| - 1]);
      assert (calls + more)[..|calls + more| - 1] == calls + more[..|more| - 1];
    }
  }

  lemma {:induction false} AfterSplits(cfg: Config, s: State, calls: seq<Call>, more: seq<Call>)
    ensures After(cfg, s, calls + more) == After(cfg, After(cfg, s, calls), more)
  {
    if more == [] {
      assert calls + more == calls;
    } else {
      AfterSplits(cfg, s, calls, more[..|more| - 1]);
      assert (calls + more)[..|calls + more| - 1] == calls + more[..|more| - 1];
    }
  }

  lemma AfterOne(cfg: Config, s: State, call: Call)
    ensures After(cfg, s, [call]) == Apply(cfg, s, call)
  {
    hide Apply;
    assert [call][..0] == [];
  }
}
