/** How far a commitment has come, and how many calls that leaves. */
module Lifecycle {
  import opened Primitives
  import opened Sums
  import opened Chain
  import opened Commitments
  import opened Runs
  import opened Effects

  /** The moves a commitment can still make. */
  function Remaining(id: Hash, c: Commitment): int {
    match c.status
    case Pending => 3
    case Active => 2
    case Disputed => 1
    case _ => 0
  }

  ghost function Potential(s: State): int {
    MapSum(s.db.commitments, Remaining)
  }

  /** The commitment a progressing call acts on, after the call. */
  ghost function Left(t: State, id: Hash): int {
    At(t.db.commitments, Remaining, id)
  }

  lemma UpdateSpendsPotential(cfg: Config, s: State, call: Call)
    requires Progresses(call) && !call.ExpireCommitment? && Step(cfg, s, call).Ok?
    ensures var t := Step(cfg, s, call).value;
            && call.id in s.db.commitments && call.id in t.db.commitments
            && t.db.commitments == s.db.commitments[call.id := t.db.commitments[call.id]]
            && Left(t, call.id) < Left(s, call.id)
  {
    hide Step, OnlyScoresChange;
    StepHasEffect(cfg, s, call);
  }

  /** Every successful call on a commitment uses up at least one of its moves; registering adds three. */
  lemma StepSpendsPotential(cfg: Config, s: State, call: Call)
    requires Step(cfg, s, call).Ok?
    ensures var t := Step(cfg, s, call).value;
            && (Progresses(call) ==> call.id in s.db.commitments && Left(t, call.id) < Left(s, call.id))
            && (Progresses(call) ==> Potential(t) <= Potential(s) - 1)
            && (call.RegisterCommitment? ==> Potential(t) == Potential(s) + 3)
            && (!Progresses(call) && !call.RegisterCommitment? ==> Potential(t) == Potential(s))
  {
    var t := Step(cfg, s, call).value;
    hide Step;
    if Progresses(call) && !call.ExpireCommitment? {
      UpdateSpendsPotential(cfg, s, call);
      MapSumPut(s.db.commitments, Remaining, call.id, t.db.commitments[call.id]);
    } else {
      StepHasEffect(cfg, s, call);
      if call.ExpireCommitment? {
        MapSumDrop(s.db.commitments, Remaining, call.id);
      } else if call.RegisterCommitment? {
        var id := CommitmentId(cfg, Offer(call.provider, call.consumer, call.root, s.now));
        MapSumPut(s.db.commitments, Remaining, id, t.db.commitments[id]);
      }
    }
  }

  lemma {:induction false} ProgressIsPaidFor(cfg: Config, genesis: State, calls: seq<Call>)
    requires Genesis(genesis)
    ensures var w := Reached(cfg, genesis, calls);
            w.past.progress + Potential(w.chain) <= 3 * w.past.registrations
  {
    if calls != [] {
      var w, call := Reached(cfg, genesis, calls[..|calls| - 1]), calls[|calls| - 1];
      ProgressIsPaidFor(cfg, genesis, calls[..|calls| - 1]);
      NextIs(cfg, w, call);
      assert Reached(cfg, genesis, calls) == Next(cfg, w, call);
      hide Step, Next, Observe, Potential;
      if Step(cfg, w.chain, call).Ok? {
        StepSpendsPotential(cfg, w.chain, call);
        NotesTaken(cfg, w, call);
      }
    }
  }

  /** In any run, successful calls on commitments number at most three times the registrations. */
  lemma ProgressIsBounded(cfg: Config, genesis: State, calls: seq<Call>)
    requires Genesis(genesis)
    ensures var w := Reached(cfg, genesis, calls); w.past.progress <= 3 * w.past.registrations
  {
    var s := Reached(cfg, genesis, calls).chain;
    ProgressIsPaidFor(cfg, genesis, calls);
    MapSumAtLeast(s.db.commitments, Remaining, ZERO_HASH);
  }
}
