/** What happens to the money and the verdict of a deal once they are recorded. */
module Settlement {
  import opened Primitives
  import opened Chain
  import opened Currency
  import opened Agents
  import opened Commitments
  import opened Runs
  import opened Effects
  import opened Deals

  // ------------------------------------------------------------------------ escrows

  /** Escrow records are never removed, keep their parties and amount, and are final once funds have moved. */
  predicate EscrowsFrozen(s: State, t: State) {
    forall id | id in s.escrows ::
      && id in t.escrows
      && t.escrows[id] == s.escrows[id].(status := t.escrows[id].status)
      && (s.escrows[id].status != Locked ==> t.escrows[id] == s.escrows[id])
  }

  lemma StepKeepsEscrows(cfg: Config, s: State, call: Call)
    ensures EscrowsFrozen(s, Apply(cfg, s, call))
  {
    hide Step;
    if Step(cfg, s, call).Ok? {
      StepHasEffect(cfg, s, call);
    }
  }

  /** Each escrow id moves funds at most once, and between the parties named when it was locked, whatever follows. */
  lemma {:induction false} EscrowsAreOneShot(cfg: Config, s: State, calls: seq<Call>)
    ensures EscrowsFrozen(s, After(cfg, s, calls))
  {
    if calls != [] {
      EscrowsAreOneShot(cfg, s, calls[..|calls| - 1]);
      StepKeepsEscrows(cfg, After(cfg, s, calls[..|calls| - 1]), calls[|calls| - 1]);
    }
  }

  // ---------------------------------------------------------------------- open deals

  /** What an open deal can rely on, whatever ids were handed out: its escrow, and its dispute record if it has one. */
  predicate Upheld(s: State, id: Hash) {
    && (id in s.db.commitments ==>
          var c := s.db.commitments[id];
          && c.status != Expired
          && (c.status == CommitmentStatus.Active || c.status == Disputed ==>
                id in s.escrows && s.escrows[id].status == Locked))
    && (id in s.db.disputes <==>
          id in s.db.commitments
          && (s.db.commitments[id].status == Disputed || s.db.commitments[id].status == DisputeResolved))
    && (id in s.db.disputes ==> s.db.disputes[id].disputedChunkIndex < s.db.commitments[id].totalChunks)
  }

  lemma VerdictUpholds(cfg: Config, s: State, call: Call, id: Hash)
    requires call.CounterDispute? || call.FinalizeDispute?
    requires Upheld(s, id) && Step(cfg, s, call).Ok?
    ensures Upheld(Step(cfg, s, call).value, id)
  {
    hide Step, OnlyScoresChange;
    StepHasEffect(cfg, s, call);
  }

  lemma OtherCallUpholds(cfg: Config, s: State, call: Call, id: Hash)
    requires !call.CounterDispute? && !call.FinalizeDispute?
    requires Upheld(s, id) && Step(cfg, s, call).Ok?
    ensures Upheld(Step(cfg, s, call).value, id)
  {
    hide Step, CommitmentId;
    StepHasEffect(cfg, s, call);
  }

  lemma StepUpholds(cfg: Config, s: State, call: Call, id: Hash)
    requires Upheld(s, id)
    ensures Upheld(Apply(cfg, s, call), id)
  {
    hide Step, Upheld;
    if Step(cfg, s, call).Ok? {
      if call.CounterDispute? || call.FinalizeDispute? {
        VerdictUpholds(cfg, s, call, id);
      } else {
        OtherCallUpholds(cfg, s, call, id);
      }
    }
  }

  /** In every reachable state, colliding ids or not, a running or disputed deal has its funds locked. */
  lemma {:induction false} OpenDealsAreFunded(cfg: Config, genesis: State, calls: seq<Call>, id: Hash)
    requires Genesis(genesis)
    ensures Upheld(Reached(cfg, genesis, calls).chain, id)
  {
    if calls != [] {
      var w := Reached(cfg, genesis, calls[..|calls| - 1]);
      OpenDealsAreFunded(cfg, genesis, calls[..|calls| - 1], id);
      StepUpholds(cfg, w.chain, calls[|calls| - 1], id);
    }
  }

  /** The outcome of `id`, as escrow, receipt and dispute record tell it. */
  predicate Recorded(s: State, id: Hash) {
    var settled := id in s.db.commitments && s.db.commitments[id].status == Settled;
    var verdict := if id in s.db.disputes then s.db.disputes[id].verdict else None;
    && (id in s.db.receipts <==> settled)
    && (settled ==> s.db.receipts[id].finalStreamHash == s.db.commitments[id].merkleRoot)
    && (EscrowStatusOf(s, id) == Some(Released) <==> settled || verdict == Some(ClaimantUnsubstantiated))
    && (EscrowStatusOf(s, id) == Some(Refunded) <==> verdict == Some(ProviderGuilty))
    && (id in s.db.disputes ==>
          && id in s.db.commitments
          && s.db.disputes[id].merkleRoot == s.db.commitments[id].merkleRoot
          && (verdict == None <==> s.db.commitments[id].status == Disputed))
  }

  lemma VerdictRecords(cfg: Config, s: State, call: Call, id: Hash)
    requires call.CounterDispute? || call.FinalizeDispute?
    requires Upheld(s, id) && Recorded(s, id) && Step(cfg, s, call).Ok?
    ensures Recorded(Step(cfg, s, call).value, id)
  {
    hide Step, OnlyScoresChange;
    StepHasEffect(cfg, s, call);
  }

  lemma AcknowledgeRecords(cfg: Config, s: State, call: Call, id: Hash)
    requires call.AcknowledgeCommitment? && Upheld(s, id) && Recorded(s, id) && Step(cfg, s, call).Ok?
    ensures Recorded(Step(cfg, s, call).value, id)
  {
    hide Step;
    StepHasEffect(cfg, s, call);
  }

  lemma RaiseRecords(cfg: Config, s: State, call: Call, id: Hash)
    requires call.RaiseDispute? && Upheld(s, id) && Recorded(s, id) && Step(cfg, s, call).Ok?
    ensures Recorded(Step(cfg, s, call).value, id)
  {
    hide Step;
    StepHasEffect(cfg, s, call);
  }

  lemma CloseRecords(cfg: Config, s: State, call: Call, id: Hash)
    requires call.CloseCommitment? && Upheld(s, id) && Recorded(s, id) && Step(cfg, s, call).Ok?
    ensures Recorded(Step(cfg, s, call).value, id)
  {
    hide Step;
    StepHasEffect(cfg, s, call);
  }

  lemma OtherCallRecords(cfg: Config, s: State, call: Call, id: Hash)
    requires !call.CounterDispute? && !call.FinalizeDispute?
    requires !call.AcknowledgeCommitment? && !call.CloseCommitment? && !call.RaiseDispute?
    requires Upheld(s, id) && Recorded(s, id) && Step(cfg, s, call).Ok?
    ensures Recorded(Step(cfg, s, call).value, id)
  {
    hide Step, CommitmentId;
    StepHasEffect(cfg, s, call);
  }

  lemma StepRecords(cfg: Config, s: State, call: Call, id: Hash)
    requires Upheld(s, id) && Recorded(s, id)
    ensures Recorded(Apply(cfg, s, call), id)
  {
    hide Step, Upheld, Recorded;
    if Step(cfg, s, call).Ok? {
      if call.CounterDispute? || call.FinalizeDispute? {
        VerdictRecords(cfg, s, call, id);
      } else if call.AcknowledgeCommitment? {
        AcknowledgeRecords(cfg, s, call, id);
      } else if call.RaiseDispute? {
        RaiseRecords(cfg, s, call, id);
      } else if call.CloseCommitment? {
        CloseRecords(cfg, s, call, id);
      } else {
        OtherCallRecords(cfg, s, call, id);
      }
    }
  }

  /**
   In every reachable state, colliding ids or not: a receipt exactly for a
   settled deal, with the committed root; funds released exactly when settled
   or vindicated, refunded exactly on a guilty verdict.
   */
  lemma {:induction false} OutcomesAreRecorded(cfg: Config, genesis: State, calls: seq<Call>, id: Hash)
    requires Genesis(genesis)
    ensures Recorded(Reached(cfg, genesis, calls).chain, id)
  {
    if calls != [] {
      var w := Reached(cfg, genesis, calls[..|calls| - 1]);
      OutcomesAreRecorded(cfg, genesis, calls[..|calls| - 1], id);
      OpenDealsAreFunded(cfg, genesis, calls[..|calls| - 1], id);
      StepRecords(cfg, w.chain, calls[|calls| - 1], id);
    }
  }

  // ---------------------------------------------------------------- funds out of reach

  predicate IsRevoked(r: Registry, did: Did) {
    did in r.profiles && r.profiles[did].status == Revoked
  }

  /**
   Locked funds no call can move: their deal is gone, was only offered anew, or
   runs past its last block or for a revoked consumer.
   */
  predicate OutOfReach(s: State, id: Hash) {
    && id in s.escrows && s.escrows[id].status == Locked
    && (id in s.db.commitments ==>
          var c := s.db.commitments[id];
          || c.status == Pending
          || (c.status == CommitmentStatus.Active && (IsRevoked(s.registry, c.consumer) || c.expiresAt <= s.now)))
  }

  lemma StepKeepsOutOfReach(cfg: Config, s: State, call: Call, id: Hash)
    requires OutOfReach(s, id)
    ensures OutOfReach(Apply(cfg, s, call), id)
  {
    hide Step, OnlyScoresChange, CommitmentId;
    if Step(cfg, s, call).Ok? {
      StepHasEffect(cfg, s, call);
      StepEvolves(cfg, s, call);
    }
  }

  lemma {:induction false} OutOfReachForGood(cfg: Config, s: State, calls: seq<Call>, id: Hash)
    requires OutOfReach(s, id)
    ensures var t := After(cfg, s, calls); OutOfReach(t, id) && t.escrows[id] == s.escrows[id]
  {
    if calls != [] {
      OutOfReachForGood(cfg, s, calls[..|calls| - 1], id);
      StepKeepsOutOfReach(cfg, After(cfg, s, calls[..|calls| - 1]), calls[|calls| - 1], id);
      EscrowsAreOneShot(cfg, s, calls);
    }
  }

  lemma StrandingPutsOutOfReach(cfg: Config, w: World, call: Call, id: Hash)
    requires Upheld(w.chain, id) && id in Next(cfg, w, call).past.stranded && id !in w.past.stranded
    ensures OutOfReach(Next(cfg, w, call).chain, id)
  {
    hide Step, Next, Observe;
    NextIs(cfg, w, call);
    if Step(cfg, w.chain, call).Ok? {
      StepHasEffect(cfg, w.chain, call);
      DealNotes(cfg, w, call);
    }
  }

  lemma {:induction false} StrandedIsOutOfReach(cfg: Config, genesis: State, calls: seq<Call>, id: Hash)
    requires Genesis(genesis) && id in Reached(cfg, genesis, calls).past.stranded
    ensures OutOfReach(Reached(cfg, genesis, calls).chain, id)
  {
    if calls != [] {
      var before, last := calls[..|calls| - 1], calls[|calls| - 1];
      var w := Reached(cfg, genesis, before);
      assert Reached(cfg, genesis, calls) == Next(cfg, w, last);
      hide Next, Reached, OutOfReach, Upheld;
      if id in w.past.stranded {
        StrandedIsOutOfReach(cfg, genesis, before, id);
        StepKeepsOutOfReach(cfg, w.chain, last, id);
        NextIs(cfg, w, last);
      } else {
        OpenDealsAreFunded(cfg, genesis, before, id);
        StrandingPutsOutOfReach(cfg, w, last, id);
      }
    }
  }

  /** Funds of a deal that expired while running never move again: the record is the same after any continuation. */
  lemma StrandedFundsNeverMove(cfg: Config, genesis: State, calls: seq<Call>, more: seq<Call>, id: Hash)
    requires Genesis(genesis) && id in Reached(cfg, genesis, calls).past.stranded
    ensures var s := Reached(cfg, genesis, calls).chain;
            var t := After(cfg, s, more);
            && id in s.escrows && s.escrows[id].status == Locked
            && id in t.escrows && t.escrows[id] == s.escrows[id]
  {
    StrandedIsOutOfReach(cfg, genesis, calls, id);
    OutOfReachForGood(cfg, Reached(cfg, genesis, calls).chain, more, id);
  }

  /**
   A running deal whose consumer is revoked, or whose last block has passed,
   can never be settled or disputed: its escrow stays locked, unchanged, in
   every continuation, whether or not anyone expires it.
   */
  lemma LapsedDealsLockTheEscrow(cfg: Config, genesis: State, calls: seq<Call>, more: seq<Call>, id: Hash)
    requires Genesis(genesis)
    requires var s := Reached(cfg, genesis, calls).chain;
             && id in s.db.commitments && s.db.commitments[id].status == CommitmentStatus.Active
             && (IsRevoked(s.registry, s.db.commitments[id].consumer) || s.db.commitments[id].expiresAt <= s.now)
    ensures var s := Reached(cfg, genesis, calls).chain;
            var t := After(cfg, s, more);
            && id in s.escrows && s.escrows[id].status == Locked
            && id in t.escrows && t.escrows[id] == s.escrows[id]
  {
    OpenDealsAreFunded(cfg, genesis, calls, id);
    OutOfReachForGood(cfg, Reached(cfg, genesis, calls).chain, more, id);
  }

  // ------------------------------------------------------------------------ parties

  /** The escrow of `id` names exactly the parties noted when the deal was acknowledged. */
  predicate PartiesNoted(w: World, id: Hash) {
    && (id in w.chain.escrows <==> id in w.past.parties)
    && (id in w.chain.escrows ==>
          var e := w.chain.escrows[id];
          w.past.parties[id] == Parties(e.payer, e.payee, e.amount))
  }

  lemma AcknowledgeNotes(cfg: Config, w: World, call: Call)
    requires call.AcknowledgeCommitment? && Step(cfg, w.chain, call).Ok?
    ensures var c := w.chain.db.commitments[call.id];
            Next(cfg, w, call).past.parties == w.past.parties[call.id :=
              Parties(call.caller, w.chain.registry.profiles[c.provider].controller, c.price)]
  {
  }

  lemma StepNotesParties(cfg: Config, w: World, call: Call, id: Hash)
    requires PartiesNoted(w, id)
    ensures PartiesNoted(Next(cfg, w, call), id)
  {
    hide Step, Next, Observe;
    NextIs(cfg, w, call);
    if Step(cfg, w.chain, call).Ok? {
      StepHasEffect(cfg, w.chain, call);
      NotesTaken(cfg, w, call);
      if call.AcknowledgeCommitment? {
        AcknowledgeNotes(cfg, w, call);
      }
    }
  }

  lemma {:induction false} PartiesAreFrozen(cfg: Config, genesis: State, calls: seq<Call>, id: Hash)
    requires Genesis(genesis)
    ensures PartiesNoted(Reached(cfg, genesis, calls), id)
  {
    if calls != [] {
      PartiesAreFrozen(cfg, genesis, calls[..|calls| - 1], id);
      StepNotesParties(cfg, Reached(cfg, genesis, calls[..|calls| - 1]), calls[|calls| - 1], id);
    }
  }

  /** The only thing that can stop a release: someone else's account, owed something, that no longer exists. */
  predicate PayeeDead(s: State, e: EscrowRecord) {
    e.amount > 0 && e.payer != e.payee && e.payee !in s.balances
  }

  /** `amount` leaves the payer's reserve for the payee's free balance, as far as the reserve reaches. */
  predicate Pays(b: Balances, d: Balances, payer: Account, payee: Account, amount: nat, x: Account) {
    var m := Reach(b, payer, amount);
    && Funds(d, x).free == Funds(b, x).free + (if x == payee then m else 0)
    && Funds(d, x).reserved == Funds(b, x).reserved - (if x == payer then m else 0)
  }

  lemma ClosePays(cfg: Config, s: State, call: Call, x: Account)
    requires call.CloseCommitment? && Step(cfg, s, call).Ok?
    ensures call.id in s.escrows
    ensures var e := s.escrows[call.id];
            Pays(s.balances, Step(cfg, s, call).value.balances, e.payer, e.payee, e.amount, x)
  {
    hide Step;
    StepIs(cfg, s, call);
  }

  lemma CounterPays(cfg: Config, s: State, call: Call, x: Account)
    requires call.CounterDispute? && Step(cfg, s, call).Ok?
    ensures call.id in s.escrows
    ensures var e := s.escrows[call.id];
            Pays(s.balances, Step(cfg, s, call).value.balances, e.payer, e.payee, e.amount, x)
  {
    hide Step, ProofAnswers;
    StepIs(cfg, s, call);
  }

  /**
   A settled or vindicated deal pays the account that controlled the provider
   at acknowledgement, out of the reserve of the account that acknowledged;
   nobody else's balance changes, whatever happened to the identities since.
   */
  lemma ReleasePaysTheNotedPayee(cfg: Config, genesis: State, calls: seq<Call>, call: Call, x: Account)
    requires Genesis(genesis) && (call.CloseCommitment? || call.CounterDispute?)
    requires Step(cfg, Reached(cfg, genesis, calls).chain, call).Ok?
    ensures var w := Reached(cfg, genesis, calls);
            && call.id in w.past.parties
            && var p := w.past.parties[call.id];
            Pays(w.chain.balances, Step(cfg, w.chain, call).value.balances, p.payer, p.payee, p.amount, x)
  {
    hide Reached, Step, Pays;
    PartiesAreFrozen(cfg, genesis, calls, call.id);
    if call.CloseCommitment? {
      ClosePays(cfg, Reached(cfg, genesis, calls).chain, call, x);
    } else {
      CounterPays(cfg, Reached(cfg, genesis, calls).chain, call, x);
    }
  }

  /** A lost dispute returns the escrow to the account that acknowledged, before any strike slash. */
  lemma RefundPaysTheNotedPayer(cfg: Config, genesis: State, calls: seq<Call>, call: Call, x: Account)
    requires Genesis(genesis) && call.FinalizeDispute?
    requires Step(cfg, Reached(cfg, genesis, calls).chain, call).Ok?
    ensures var w := Reached(cfg, genesis, calls);
            && call.id in w.past.parties
            && var p := w.past.parties[call.id];
            var b, d := w.chain.balances, Step(cfg, w.chain, call).value.balances;
            && Funds(d, x).free == Funds(b, x).free + (if x == p.payer then Reach(b, p.payer, p.amount) else 0)
            && (Agents.ControllerIs(w.chain.registry, w.chain.db.commitments[call.id].provider, x)
                || Pays(b, d, p.payer, p.payer, p.amount, x))
  {
    hide Reached, Step;
    PartiesAreFrozen(cfg, genesis, calls, call.id);
    StepIs(cfg, Reached(cfg, genesis, calls).chain, call);
  }

  // ------------------------------------------------------------------- independence

  /** Everything the storage holds under `id` is the same. */
  predicate SameDeal(s: State, t: State, id: Hash) {
    && (id in t.db.commitments <==> id in s.db.commitments)
    && (id in s.db.commitments ==> t.db.commitments[id] == s.db.commitments[id])
    && (id in t.db.disputes <==> id in s.db.disputes)
    && (id in s.db.disputes ==> t.db.disputes[id] == s.db.disputes[id])
    && (id in t.db.receipts <==> id in s.db.receipts)
    && (id in s.db.receipts ==> t.db.receipts[id] == s.db.receipts[id])
    && EscrowStatusOf(t, id) == EscrowStatusOf(s, id)
  }

  /** Only calls naming a deal, or registering it, touch it. */
  lemma DealsAreIndependent(cfg: Config, s: State, call: Call, id: Hash)
    requires Progresses(call) ==> call.id != id
    requires call.RegisterCommitment? ==> NewId(cfg, s, call) != id
    ensures SameDeal(s, Apply(cfg, s, call), id)
  {
    hide Step, OnlyScoresChange;
    if Step(cfg, s, call).Ok? {
      StepHasEffect(cfg, s, call);
    }
  }

  // -------------------------------------------------------------------- reachability

  /** Not an error that only a stale or a missing record could cause; a used escrow id is the one exception. */
  predicate NotStale(s: State, call: Call, e: Error)
    requires Progresses(call)
  {
    && e != EscrowNotFound && e != EscrowNotLocked && e != DisputeAlreadyRaised
    && (e == CommitmentNotFound ==> call.id !in s.db.commitments)
    && (e == ChunkIndexOutOfBounds ==> call.RaiseDispute?)
    && (e == EscrowAlreadyExists ==> call.AcknowledgeCommitment? && call.id in s.escrows)
  }

  /** Errors that only stale or missing records could cause are out of reach; a used escrow id needs an id collision. */
  lemma StaleRecordErrorsUnreachable(cfg: Config, genesis: State, calls: seq<Call>, call: Call)
    requires Genesis(genesis)
    requires Progresses(call) && Step(cfg, Reached(cfg, genesis, calls).chain, call).Err?
    ensures var s := Reached(cfg, genesis, calls).chain; NotStale(s, call, Step(cfg, s, call).error)
    ensures var s := Reached(cfg, genesis, calls).chain;
            Sound(cfg, Reached(cfg, genesis, calls)) ==> Step(cfg, s, call).error != EscrowAlreadyExists
  {
    var w := Reached(cfg, genesis, calls);
    OpenDealsAreFunded(cfg, genesis, calls, call.id);
    if Sound(cfg, w) {
      RecordsAgree(cfg, genesis, calls, call.id);
    }
    hide Reached, Sound, Step, Consistent, NotStale, Upheld;
    if call.AcknowledgeCommitment? {
      NoStaleAcknowledgement(cfg, w, call);
    } else if call.CloseCommitment? || call.RaiseDispute? {
      NoStaleErrors(cfg, w.chain, call);
    } else if call.CounterDispute? {
      NoStaleAnswer(cfg, w.chain, call);
    } else {
      NoStaleErrorsLate(cfg, w.chain, call);
    }
  }

  lemma NoStaleAcknowledgement(cfg: Config, w: World, call: Call)
    requires call.AcknowledgeCommitment? && Step(cfg, w.chain, call).Err?
    ensures NotStale(w.chain, call, Step(cfg, w.chain, call).error)
    ensures Consistent(w, call.id) ==> Step(cfg, w.chain, call).error != EscrowAlreadyExists
  {
    hide Step;
    StepIs(cfg, w.chain, call);
  }

  lemma NoStaleErrors(cfg: Config, s: State, call: Call)
    requires call.CloseCommitment? || call.RaiseDispute?
    requires Upheld(s, call.id) && Step(cfg, s, call).Err?
    ensures NotStale(s, call, Step(cfg, s, call).error) && Step(cfg, s, call).error != EscrowAlreadyExists
  {
    hide Step;
    StepIs(cfg, s, call);
  }

  lemma NoStaleAnswer(cfg: Config, s: State, call: Call)
    requires call.CounterDispute?
    requires Upheld(s, call.id) && Step(cfg, s, call).Err?
    ensures NotStale(s, call, Step(cfg, s, call).error) && Step(cfg, s, call).error != EscrowAlreadyExists
  {
    hide Step, SlashForGuiltyDelivery, SlashReputation, ProofAnswers;
    StepIs(cfg, s, call);
  }

  lemma NoStaleErrorsLate(cfg: Config, s: State, call: Call)
    requires call.FinalizeDispute? || call.ExpireCommitment?
    requires Upheld(s, call.id) && Step(cfg, s, call).Err?
    ensures NotStale(s, call, Step(cfg, s, call).error) && Step(cfg, s, call).error != EscrowAlreadyExists
  {
    hide Step, SlashForGuiltyDelivery, SlashReputation, ProofAnswers;
    StepIs(cfg, s, call);
  }

  /** A refund cannot fail: any signer's `finalize_dispute` succeeds exactly when status and deadline allow it. */
  lemma FinalizeSucceedsIff(cfg: Config, genesis: State, calls: seq<Call>, anyone: Account, id: Hash)
    requires Genesis(genesis)
    ensures var s := Reached(cfg, genesis, calls).chain;
            Step(cfg, s, FinalizeDispute(anyone, id)).Ok?
            <==> && id in s.db.commitments && s.db.commitments[id].status == Disputed
                 && id in s.db.disputes && s.now > s.db.disputes[id].counterDeadline
  {
    OpenDealsAreFunded(cfg, genesis, calls, id);
    hide Reached;
  }
}
