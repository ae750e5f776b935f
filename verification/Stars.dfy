/** The star ledger: how fast reputation can grow, and what it can never exceed. */
module Stars {
  import opened Primitives
  import opened Sums
  import opened Chain
  import opened Agents
  import opened Runs
  import opened Effects

  /** Stars given less stars taken back. */
  function Net(t: Tally): int {
    t.given - t.removed
  }

  /** Away from the clock's last block the saturating deadline is the real one. */
  lemma CooldownIsReal(cfg: Config, now: nat, last: nat)
    requires now <= U32_MAX
    ensures CooldownOver(cfg, now, last) <==> last == 0 || now >= last + cfg.starCooldown || now == U32_MAX
  {
  }

  /** What the last star of a pair says about its tally at block `now`. */
  predicate InPace(c: nat, noted: bool, t: Tally, last: nat, now: nat)
    requires c > 0
  {
    if !noted then last == 0
    else
      && t.first <= now
      && 0 <= Net(t)
      && (last > 0 ==> t.first <= last <= now && 1 <= Net(t) <= 1 + (last - t.first) / c)
      && (last == 0 ==> Net(t) <= (now - t.first) / c)
  }

  predicate Paced(cfg: Config, w: World, giver: Did, receiver: Did)
    requires cfg.starCooldown > 0
  {
    InPace(cfg.starCooldown, (giver, receiver) in w.past.stars, TallyOf(w.past, giver, receiver),
           LastStar(w.chain.registry, giver, receiver), w.chain.now)
  }

  lemma GiveInPace(c: nat, noted: bool, t: Tally, last: nat, now: nat)
    requires c > 0 && now >= 1 && InPace(c, noted, t, last, now)
    requires last == 0 || now >= last + c
    ensures InPace(c, true, Tally(if noted then t.given + 1 else 1, if noted then t.removed else 0,
                                  if noted then t.first else now), now, now)
  {
    if noted && last > 0 {
      DivisionGrows(last - t.first, now - t.first, c);
    }
  }

  lemma RemoveInPace(c: nat, t: Tally, last: nat, now: nat)
    requires c > 0 && last > 0 && InPace(c, true, t, last, now)
    ensures InPace(c, true, t.(removed := t.removed + 1), 0, now)
  {
    DivisionGrows(last - t.first, now - t.first, c);
  }

  lemma WaitInPace(c: nat, noted: bool, t: Tally, last: nat, now: nat, later: nat)
    requires c > 0 && now <= later && InPace(c, noted, t, last, now)
    ensures InPace(c, noted, t, last, later)
  {
    if noted {
      DivisionGrows(now - t.first, later - t.first, c);
    }
  }

  lemma DivisionGrows(x: nat, y: nat, c: nat)
    requires c > 0 && x <= y
    ensures x / c <= y / c
    ensures x + c <= y ==> x / c + 1 <= y / c
  {
    var q, p := x / c, y / c;
    assert x == c * q + x % c && y == c * p + y % c;
    if q > p {
      Multiples(c, p + 1, q);
    }
    if q >= p {
      Multiples(c, p, q);
    }
  }

  lemma Multiples(c: nat, m: int, n: int)
    requires m <= n
    ensures c * m <= c * n && c * (m + 1) == c * m + c
  {
  }

  lemma GiveEffect(cfg: Config, w: World, call: Call)
    requires call.GiveStar? && Step(cfg, w.chain, call).Ok?
    ensures var v, pair := Next(cfg, w, call), (call.giver, call.receiver);
            var r, t := w.chain.registry, TallyOf(w.past, call.giver, call.receiver);
            && call.receiver in r.profiles
            && CooldownOver(cfg, w.chain.now, LastStar(r, call.giver, call.receiver))
            && v.chain.now == w.chain.now
            && v.chain.registry.starGivers == r.starGivers[pair := w.chain.now]
            && v.past.stars == w.past.stars[pair :=
                 Tally(t.given + 1, t.removed, if pair in w.past.stars then t.first else w.chain.now)]
            && v.chain.registry.profiles == r.profiles[call.receiver :=
                 r.profiles[call.receiver].(score := SaturatingAdd(r.profiles[call.receiver].score, 1))]
  {
  }

  lemma RemoveEffect(cfg: Config, w: World, call: Call)
    requires call.RemoveStar? && Step(cfg, w.chain, call).Ok?
    ensures var v, pair := Next(cfg, w, call), (call.giver, call.receiver);
            var r, t := w.chain.registry, TallyOf(w.past, call.giver, call.receiver);
            && call.receiver in r.profiles
            && LastStar(r, call.giver, call.receiver) > 0
            && v.chain.now == w.chain.now
            && v.chain.registry.starGivers == r.starGivers[pair := 0]
            && v.past.stars == w.past.stars[pair := t.(removed := t.removed + 1)]
            && v.chain.registry.profiles == r.profiles[call.receiver :=
                 r.profiles[call.receiver].(score := SaturatingSub(r.profiles[call.receiver].score, 1))]
  {
  }

  /** Every other call leaves the ledger alone and raises no score. */
  lemma OtherCallsGiveNoStars(cfg: Config, s: State, call: Call)
    requires !call.GiveStar? && !call.RemoveStar? && Step(cfg, s, call).Ok?
    ensures var t := Step(cfg, s, call).value;
            && t.registry.starGivers == s.registry.starGivers
            && s.now <= t.now
            && forall d | d in t.registry.profiles ::
                 t.registry.profiles[d].score == 0
                 || (d in s.registry.profiles && t.registry.profiles[d].score <= s.registry.profiles[d].score)
  {
    if Progresses(call) || call.RegisterCommitment? {
      hide Step;
      StepHasEffect(cfg, s, call);
    }
  }

  /** What a star call leaves of another pair, or of its own. */
  lemma GivePaced(cfg: Config, w: World, call: Call, giver: Did, receiver: Did)
    requires cfg.Valid() && 1 <= w.chain.now < U32_MAX && Paced(cfg, w, giver, receiver)
    requires call.GiveStar? && Step(cfg, w.chain, call).Ok?
    ensures Paced(cfg, Next(cfg, w, call), giver, receiver)
  {
    hide Step, Next, Observe, InPace;
    GiveEffect(cfg, w, call);
    if giver == call.giver && receiver == call.receiver {
      var last := LastStar(w.chain.registry, giver, receiver);
      CooldownIsReal(cfg, w.chain.now, last);
      GiveInPace(cfg.starCooldown, (giver, receiver) in w.past.stars, TallyOf(w.past, giver, receiver), last,
                 w.chain.now);
    }
  }

  lemma RemovePaced(cfg: Config, w: World, call: Call, giver: Did, receiver: Did)
    requires cfg.Valid() && Paced(cfg, w, giver, receiver)
    requires call.RemoveStar? && Step(cfg, w.chain, call).Ok?
    ensures Paced(cfg, Next(cfg, w, call), giver, receiver)
  {
    hide Step, Next, Observe;
    RemoveEffect(cfg, w, call);
    if giver == call.giver && receiver == call.receiver {
      var last := LastStar(w.chain.registry, giver, receiver);
      RemoveInPace(cfg.starCooldown, TallyOf(w.past, giver, receiver), last, w.chain.now);
    }
  }

  lemma OthersPaced(cfg: Config, w: World, call: Call, giver: Did, receiver: Did)
    requires cfg.Valid() && Paced(cfg, w, giver, receiver)
    requires !call.GiveStar? && !call.RemoveStar? && Step(cfg, w.chain, call).Ok?
    ensures Paced(cfg, Next(cfg, w, call), giver, receiver)
  {
    hide Step, Next, Observe, TallyOf, LastStar, InPace;
    SameTally(cfg, w, call, giver, receiver);
    SameLastStar(cfg, w, call, giver, receiver);
    WaitInPace(cfg.starCooldown, (giver, receiver) in w.past.stars, TallyOf(w.past, giver, receiver),
               LastStar(w.chain.registry, giver, receiver), w.chain.now, Next(cfg, w, call).chain.now);
  }

  lemma StepPaced(cfg: Config, w: World, call: Call, giver: Did, receiver: Did)
    requires cfg.Valid() && 1 <= w.chain.now < U32_MAX && Paced(cfg, w, giver, receiver)
    ensures Paced(cfg, Next(cfg, w, call), giver, receiver)
  {
    hide Step, Next, Observe, Paced;
    NextIs(cfg, w, call);
    if Step(cfg, w.chain, call).Ok? {
      if call.GiveStar? {
        GivePaced(cfg, w, call, giver, receiver);
      } else if call.RemoveStar? {
        RemovePaced(cfg, w, call, giver, receiver);
      } else {
        OthersPaced(cfg, w, call, giver, receiver);
      }
    }
  }

  // -------------------------------------------------------------------------- ceiling

  /** The contribution of a pair to the stars held by `d`. */
  function HeldBy(d: Did): ((Did, Did), Tally) -> int {
    (pair: (Did, Did), t: Tally) => if pair.1 == d then Net(t) else 0
  }

  /** Over all givers, stars given to `d` less stars taken back. */
  ghost function Standing(h: History, d: Did): int {
    MapSum(h.stars, HeldBy(d))
  }

  /** Nobody takes back more stars than they gave, and a star on the ledger is still held. */
  predicate InBalance(t: Tally, last: nat) {
    if last > 0 then 1 <= Net(t) else 0 <= Net(t)
  }

  predicate Tallied(w: World, giver: Did, receiver: Did) {
    InBalance(TallyOf(w.past, giver, receiver), LastStar(w.chain.registry, giver, receiver))
  }

  lemma StarKeepsBalance(t: Tally, last: nat, u: Tally, now: nat)
    requires InBalance(t, last)
    ensures u.given == t.given + 1 && u.removed == t.removed ==> InBalance(u, now)
    ensures last > 0 && u.given == t.given && u.removed == t.removed + 1 ==> InBalance(u, 0)
  {
  }

  lemma GiveTallied(cfg: Config, w: World, call: Call, giver: Did, receiver: Did)
    requires 1 <= w.chain.now && Tallied(w, giver, receiver) && call.GiveStar? && Step(cfg, w.chain, call).Ok?
    ensures Tallied(Next(cfg, w, call), giver, receiver)
  {
    hide Step, Next, Observe, CooldownOver, InBalance;
    GiveEffect(cfg, w, call);
    if giver == call.giver && receiver == call.receiver {
      StarKeepsBalance(TallyOf(w.past, giver, receiver), LastStar(w.chain.registry, giver, receiver),
                       TallyOf(Next(cfg, w, call).past, giver, receiver), w.chain.now);
    }
  }

  lemma RemoveTallied(cfg: Config, w: World, call: Call, giver: Did, receiver: Did)
    requires Tallied(w, giver, receiver) && call.RemoveStar? && Step(cfg, w.chain, call).Ok?
    ensures Tallied(Next(cfg, w, call), giver, receiver)
  {
    hide Step, Next, Observe, InBalance;
    RemoveEffect(cfg, w, call);
    if giver == call.giver && receiver == call.receiver {
      StarKeepsBalance(TallyOf(w.past, giver, receiver), LastStar(w.chain.registry, giver, receiver),
                       TallyOf(Next(cfg, w, call).past, giver, receiver), w.chain.now);
    }
  }

  lemma OthersTallied(cfg: Config, w: World, call: Call, giver: Did, receiver: Did)
    requires Tallied(w, giver, receiver) && !call.GiveStar? && !call.RemoveStar? && Step(cfg, w.chain, call).Ok?
    ensures Tallied(Next(cfg, w, call), giver, receiver)
  {
    hide Step, Next, Observe, TallyOf, LastStar;
    SameTally(cfg, w, call, giver, receiver);
    SameLastStar(cfg, w, call, giver, receiver);
  }

  lemma SameTally(cfg: Config, w: World, call: Call, giver: Did, receiver: Did)
    requires !call.GiveStar? && !call.RemoveStar? && Step(cfg, w.chain, call).Ok?
    ensures TallyOf(Next(cfg, w, call).past, giver, receiver) == TallyOf(w.past, giver, receiver)
    ensures (giver, receiver) in Next(cfg, w, call).past.stars <==> (giver, receiver) in w.past.stars
  {
    hide Step, Next, Observe;
    NotesTaken(cfg, w, call);
  }

  lemma SameLastStar(cfg: Config, w: World, call: Call, giver: Did, receiver: Did)
    requires !call.GiveStar? && !call.RemoveStar? && Step(cfg, w.chain, call).Ok?
    ensures LastStar(Next(cfg, w, call).chain.registry, giver, receiver) == LastStar(w.chain.registry, giver, receiver)
    ensures w.chain.now <= Next(cfg, w, call).chain.now
  {
    hide Step, Next, Observe;
    NextIs(cfg, w, call);
    OtherCallsGiveNoStars(cfg, w.chain, call);
  }

  lemma StepTallied(cfg: Config, w: World, call: Call, giver: Did, receiver: Did)
    requires 1 <= w.chain.now && Tallied(w, giver, receiver)
    ensures Tallied(Next(cfg, w, call), giver, receiver)
  {
    hide Step, Next, Observe, Tallied;
    NextIs(cfg, w, call);
    if Step(cfg, w.chain, call).Ok? {
      if call.GiveStar? {
        GiveTallied(cfg, w, call, giver, receiver);
      } else if call.RemoveStar? {
        RemoveTallied(cfg, w, call, giver, receiver);
      } else {
        OthersTallied(cfg, w, call, giver, receiver);
      }
    }
  }

  /** All tallies are in order, and no score exceeds the stars behind it. */
  ghost predicate StarsInOrder(w: World) {
    && 1 <= w.chain.now
    && (forall giver, receiver :: Tallied(w, giver, receiver))
    && (forall d | d in w.chain.registry.profiles :: w.chain.registry.profiles[d].score <= Standing(w.past, d))
  }

  lemma StandingIsNonNegative(w: World, d: Did, pair: (Did, Did))
    requires forall giver, receiver :: Tallied(w, giver, receiver)
    ensures 0 <= At(w.past.stars, HeldBy(d), pair) <= Standing(w.past, d)
  {
    forall p | p in w.past.stars ensures HeldBy(d)(p, w.past.stars[p]) >= 0 {
      assert Tallied(w, p.0, p.1);
    }
    MapSumAtLeast(w.past.stars, HeldBy(d), pair);
  }

  lemma HeldAt(h: History, giver: Did, receiver: Did, tally: Tally, d: Did)
    ensures At(h.stars, HeldBy(d), (giver, receiver)) == if receiver == d then Net(TallyOf(h, giver, receiver)) else 0
    ensures HeldBy(d)((giver, receiver), tally) == if receiver == d then Net(tally) else 0
  {
  }

  lemma StandingMoves(h: History, k: History, giver: Did, receiver: Did, tally: Tally, d: Did)
    requires k.stars == h.stars[(giver, receiver) := tally]
    ensures Standing(k, d) == Standing(h, d)
            + if receiver == d then Net(tally) - Net(TallyOf(h, giver, receiver)) else 0
  {
    hide HeldBy, At, TallyOf;
    MapSumPut(h.stars, HeldBy(d), (giver, receiver), tally);
    HeldAt(h, giver, receiver, tally, d);
  }

  lemma GiveRaisesStanding(cfg: Config, w: World, call: Call, d: Did)
    requires call.GiveStar? && Step(cfg, w.chain, call).Ok?
    ensures Standing(Next(cfg, w, call).past, d) == Standing(w.past, d) + if call.receiver == d then 1 else 0
  {
    hide Step, Next, Observe, Standing, CooldownOver, LastStar, TallyOf;
    GiveEffect(cfg, w, call);
    var k := Next(cfg, w, call).past;
    StandingMoves(w.past, k, call.giver, call.receiver, k.stars[(call.giver, call.receiver)], d);
  }

  lemma GiveCapped(cfg: Config, w: World, call: Call, d: Did)
    requires call.GiveStar? && Step(cfg, w.chain, call).Ok?
    requires d in w.chain.registry.profiles ==> w.chain.registry.profiles[d].score <= Standing(w.past, d)
    requires d in Next(cfg, w, call).chain.registry.profiles
    ensures var v := Next(cfg, w, call); v.chain.registry.profiles[d].score <= Standing(v.past, d)
  {
    hide Step, Next, Observe, Standing, CooldownOver, LastStar, TallyOf;
    GiveEffect(cfg, w, call);
    GiveRaisesStanding(cfg, w, call, d);
  }

  lemma RemoveCapped(cfg: Config, w: World, call: Call, d: Did)
    requires StarsInOrder(w) && call.RemoveStar? && Step(cfg, w.chain, call).Ok?
    requires d in Next(cfg, w, call).chain.registry.profiles
    ensures var v := Next(cfg, w, call); v.chain.registry.profiles[d].score <= Standing(v.past, d)
  {
    hide Step, Next, Observe, Standing, LastStar;
    RemoveEffect(cfg, w, call);
    var k := Next(cfg, w, call).past;
    StandingMoves(w.past, k, call.giver, call.receiver, k.stars[(call.giver, call.receiver)], d);
    assert Tallied(w, call.giver, call.receiver);
    StandingIsNonNegative(w, d, (call.giver, call.receiver));
  }

  lemma OthersCapped(cfg: Config, w: World, call: Call, d: Did)
    requires StarsInOrder(w) && !call.GiveStar? && !call.RemoveStar? && Step(cfg, w.chain, call).Ok?
    requires d in Next(cfg, w, call).chain.registry.profiles
    ensures var v := Next(cfg, w, call); v.chain.registry.profiles[d].score <= Standing(v.past, d)
  {
    hide Step, Next, Observe, Tallied;
    NextIs(cfg, w, call);
    OtherCallsGiveNoStars(cfg, w.chain, call);
    NotesTaken(cfg, w, call);
    StandingIsNonNegative(w, d, (d, d));
  }

  lemma StepKeepsOrder(cfg: Config, w: World, call: Call)
    requires StarsInOrder(w)
    ensures StarsInOrder(Next(cfg, w, call))
  {
    hide Step, Next, Observe, Tallied;
    NextIs(cfg, w, call);
    if Step(cfg, w.chain, call).Ok? {
      var v := Next(cfg, w, call);
      forall giver, receiver ensures Tallied(v, giver, receiver) {
        StepTallied(cfg, w, call, giver, receiver);
      }
      forall d | d in v.chain.registry.profiles ensures v.chain.registry.profiles[d].score <= Standing(v.past, d) {
        if call.GiveStar? {
          GiveCapped(cfg, w, call, d);
        } else if call.RemoveStar? {
          RemoveCapped(cfg, w, call, d);
        } else {
          OthersCapped(cfg, w, call, d);
        }
      }
      ClockRuns(cfg, w.chain, call);
    }
  }

  lemma ClockRuns(cfg: Config, s: State, call: Call)
    ensures s.now <= Apply(cfg, s, call).now
  {
    hide Step;
    if Step(cfg, s, call).Ok? {
      StepHasEffect(cfg, s, call);
    }
  }

  lemma {:induction false} RunKeepsOrder(cfg: Config, genesis: State, calls: seq<Call>)
    requires Genesis(genesis)
    ensures StarsInOrder(Reached(cfg, genesis, calls))
  {
    if calls == [] {
      assert Reached(cfg, genesis, calls) == World(genesis, NO_HISTORY);
    } else {
      RunKeepsOrder(cfg, genesis, calls[..|calls| - 1]);
      StepKeepsOrder(cfg, Reached(cfg, genesis, calls[..|calls| - 1]), calls[|calls| - 1]);
    }
  }

  /**
   The reputation ceiling over every run: a score never exceeds the stars its
   givers have given and not taken back, although removals clear cooldowns,
   slashes eat decrements, scores saturate, and DIDs come and go.
   */
  lemma ReputationCeiling(cfg: Config, genesis: State, calls: seq<Call>, d: Did)
    requires Genesis(genesis) && d in Reached(cfg, genesis, calls).chain.registry.profiles
    ensures var w := Reached(cfg, genesis, calls); w.chain.registry.profiles[d].score <= Standing(w.past, d)
  {
    RunKeepsOrder(cfg, genesis, calls);
  }

  lemma {:induction false} RunPaced(cfg: Config, genesis: State, calls: seq<Call>, giver: Did, receiver: Did)
    requires cfg.Valid() && Genesis(genesis) && Reached(cfg, genesis, calls).chain.now < U32_MAX
    ensures Paced(cfg, Reached(cfg, genesis, calls), giver, receiver)
  {
    if calls != [] {
      var before, call := calls[..|calls| - 1], calls[|calls| - 1];
      var w := Reached(cfg, genesis, before);
      assert Reached(cfg, genesis, calls) == Next(cfg, w, call);
      NextIs(cfg, w, call);
      ClockRuns(cfg, w.chain, call);
      RunKeepsOrder(cfg, genesis, before);
      hide Next, Paced;
      RunPaced(cfg, genesis, before, giver, receiver);
      StepPaced(cfg, w, call, giver, receiver);
    }
  }

  /** Each giver holds between zero and one star per elapsed cooldown, plus one, with any receiver. */
  lemma StarPace(cfg: Config, genesis: State, calls: seq<Call>, giver: Did, receiver: Did)
    requires cfg.Valid() && Genesis(genesis) && Reached(cfg, genesis, calls).chain.now < U32_MAX
    requires (giver, receiver) in Reached(cfg, genesis, calls).past.stars
    ensures var w := Reached(cfg, genesis, calls);
            var t := TallyOf(w.past, giver, receiver);
            t.first <= w.chain.now && 0 <= Net(t) <= 1 + (w.chain.now - t.first) / cfg.starCooldown
  {
    var w := Reached(cfg, genesis, calls);
    RunPaced(cfg, genesis, calls, giver, receiver);
    hide Reached;
    var t, last := TallyOf(w.past, giver, receiver), LastStar(w.chain.registry, giver, receiver);
    if last > 0 {
      DivisionGrows(last - t.first, w.chain.now - t.first, cfg.starCooldown);
    }
  }

  /** The most stars a pair can hold by block `now`. */
  function Quota(cfg: Config, now: nat, d: Did): ((Did, Did), Tally) -> int
    requires cfg.starCooldown > 0
  {
    (pair: (Did, Did), t: Tally) => if pair.1 == d then 1 + (now - t.first) / cfg.starCooldown else 0
  }

  /** So a score is bounded by time alone: one star per giver, and one more per cooldown since that giver's first. */
  lemma ReputationNeedsTime(cfg: Config, genesis: State, calls: seq<Call>, d: Did)
    requires cfg.Valid() && Genesis(genesis) && Reached(cfg, genesis, calls).chain.now < U32_MAX
    requires d in Reached(cfg, genesis, calls).chain.registry.profiles
    ensures var w := Reached(cfg, genesis, calls);
            w.chain.registry.profiles[d].score <= MapSum(w.past.stars, Quota(cfg, w.chain.now, d))
  {
    var w := Reached(cfg, genesis, calls);
    ReputationCeiling(cfg, genesis, calls, d);
    forall p | p in w.past.stars
      ensures HeldBy(d)(p, w.past.stars[p]) <= Quota(cfg, w.chain.now, d)(p, w.past.stars[p])
    {
      StarPace(cfg, genesis, calls, p.0, p.1);
      assert p == (p.0, p.1);
    }
    MapSumMonotone(w.past.stars, HeldBy(d), Quota(cfg, w.chain.now, d));
  }
}
