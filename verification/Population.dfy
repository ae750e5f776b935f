/** The registry's reverse index and the two running counters, against full scans. */
module Population {
  import opened Primitives
  import opened Chain
  import opened Agents
  import opened Commitments
  import opened Runs
  import opened Effects

  // ------------------------------------------------------------------ reverse index

  predicate Distinct(dids: seq<Did>) {
    forall i, j | 0 <= i < j < |dids| :: dids[i] != dids[j]
  }

  /** `a`'s entry lists exactly the DIDs whose profile names `a`, once each, and fits its bound. */
  ghost predicate Indexed(r: Registry, a: Account) {
    && |AgentsOf(r, a)| <= MAX_AGENTS
    && Distinct(AgentsOf(r, a))
    && forall d :: d in AgentsOf(r, a) <==> ControllerIs(r, d, a)
  }

  /** `retain(|d| *d != did)`. */
  lemma {:induction false} WithoutSpec(dids: seq<Did>, did: Did)
    ensures |Without(dids, did)| <= |dids|
    ensures forall d :: d in Without(dids, did) <==> d in dids && d != did
    ensures Distinct(dids) ==> Distinct(Without(dids, did))
  {
    if dids != [] {
      var init, last := dids[..|dids| - 1], dids[|dids| - 1];
      WithoutSpec(init, did);
      assert dids == init + [last];
      assert forall i | 0 <= i < |init| :: init[i] == dids[i];
      assert Distinct(dids) ==> Distinct(init) && last !in init;
    }
  }

  lemma PushIndexed(cfg: Config, s: State, call: Call, a: Account)
    requires call.RegisterAgent? && Step(cfg, s, call).Ok? && Indexed(s.registry, a)
    ensures Indexed(Step(cfg, s, call).value.registry, a)
  {
    var did := DidOf(cfg, call.pubkey);
    var r := Step(cfg, s, call).value.registry;
    assert did !in AgentsOf(s.registry, a);
    assert forall d | d != did :: ControllerIs(r, d, a) == ControllerIs(s.registry, d, a);
    if a == call.caller {
      assert AgentsOf(r, a) == AgentsOf(s.registry, a) + [did];
    }
  }

  lemma PruneIndexed(cfg: Config, s: State, call: Call, a: Account)
    requires call.DeregisterAgent? && Step(cfg, s, call).Ok? && Indexed(s.registry, a)
    ensures Indexed(Step(cfg, s, call).value.registry, a)
  {
    var r := Step(cfg, s, call).value.registry;
    WithoutSpec(AgentsOf(s.registry, a), call.did);
    assert forall d | d != call.did :: ControllerIs(r, d, a) == ControllerIs(s.registry, d, a);
  }

  /** Apart from registering and deregistering, no call touches the index or a controller. */
  lemma ControllersKept(cfg: Config, s: State, call: Call)
    requires !call.RegisterAgent? && !call.DeregisterAgent? && Step(cfg, s, call).Ok?
    ensures var r, q := s.registry, Step(cfg, s, call).value.registry;
            && q.controllerAgents == r.controllerAgents
            && forall d, a :: ControllerIs(q, d, a) == ControllerIs(r, d, a)
  {
    if Progresses(call) || call.RegisterCommitment? {
      hide Step;
      StepHasEffect(cfg, s, call);
    }
  }

  lemma StepIndexed(cfg: Config, s: State, call: Call, a: Account)
    requires Indexed(s.registry, a)
    ensures Indexed(Apply(cfg, s, call).registry, a)
  {
    hide Step;
    if Step(cfg, s, call).Ok? {
      if call.RegisterAgent? {
        PushIndexed(cfg, s, call, a);
      } else if call.DeregisterAgent? {
        PruneIndexed(cfg, s, call, a);
      } else {
        ControllersKept(cfg, s, call);
      }
    }
  }

  /** In every reachable state the reverse index of every account equals a full scan of the profiles. */
  lemma {:induction false} IndexEqualsScan(cfg: Config, genesis: State, calls: seq<Call>, a: Account)
    requires Genesis(genesis)
    ensures Indexed(After(cfg, genesis, calls).registry, a)
  {
    if calls != [] {
      IndexEqualsScan(cfg, genesis, calls[..|calls| - 1], a);
      StepIndexed(cfg, After(cfg, genesis, calls[..|calls| - 1]), calls[|calls| - 1], a);
    }
  }

  /** So the index test of the star calls is the profile's controller test. */
  lemma StarAuthorityIsControl(cfg: Config, genesis: State, calls: seq<Call>, call: Call)
    requires Genesis(genesis) && (call.GiveStar? || call.RemoveStar?)
    ensures var s := After(cfg, genesis, calls);
            Step(cfg, s, call) == Err(NotController) <==> !ControllerIs(s.registry, call.giver, call.caller)
  {
    IndexEqualsScan(cfg, genesis, calls, call.caller);
    hide After;
  }

  // ----------------------------------------------------------------------- counters

  function Members(s: State): set<Did> {
    set d | d in s.registry.profiles && s.registry.profiles[d].status != Revoked
  }

  predicate IsLive(c: Commitment) {
    c.status == Pending || c.status == CommitmentStatus.Active || c.status == Disputed
  }

  function LiveIn(commitments: map<Hash, Commitment>): set<Hash> {
    set id | id in commitments && IsLive(commitments[id])
  }

  function Live(s: State): set<Hash> {
    LiveIn(s.db.commitments)
  }

  lemma OpenedCommitment(m: map<Hash, Commitment>, id: Hash, c: Commitment)
    requires id !in m && IsLive(c)
    ensures |LiveIn(m[id := c])| == |LiveIn(m)| + 1
  {
    assert LiveIn(m[id := c]) == LiveIn(m) + {id};
  }

  lemma EndedCommitment(m: map<Hash, Commitment>, id: Hash, c: Commitment)
    requires id in m && IsLive(m[id]) && !IsLive(c)
    ensures |LiveIn(m)| == |LiveIn(m[id := c])| + 1 == |LiveIn(m - {id})| + 1
  {
    assert LiveIn(m) == LiveIn(m[id := c]) + {id};
    assert LiveIn(m[id := c]) == LiveIn(m - {id});
  }

  predicate Exact(s: State) {
    s.registry.activeAgents == |Members(s)| && s.db.activeCommitments == |Live(s)|
  }

  /** The populations a `u32` can count. */
  predicate Countable(s: State) {
    |Members(s)| <= U32_MAX && |Live(s)| <= U32_MAX
  }

  lemma ArrivalCounts(cfg: Config, s: State, call: Call)
    requires call.RegisterAgent? && Step(cfg, s, call).Ok?
    ensures var t := Step(cfg, s, call).value;
            && |Members(t)| == |Members(s)| + 1
            && t.registry.activeAgents == SaturatingAdd(s.registry.activeAgents, 1)
  {
    assert Members(Step(cfg, s, call).value) == Members(s) + {DidOf(cfg, call.pubkey)};
  }

  lemma DepartureCounts(cfg: Config, s: State, call: Call)
    requires call.DeregisterAgent? || (call.SetAgentStatus? && call.status == Revoked)
    requires Step(cfg, s, call).Ok?
    ensures var t := Step(cfg, s, call).value;
            && |Members(s)| == |Members(t)| + 1
            && t.registry.activeAgents == SaturatingSub(s.registry.activeAgents, 1)
  {
    var t := Step(cfg, s, call).value;
    assert t.registry.profiles == if call.DeregisterAgent? then s.registry.profiles - {call.did}
                                  else s.registry.profiles[call.did := t.registry.profiles[call.did]];
    assert Members(s) == Members(t) + {call.did};
  }

  lemma ProfileChangesKeepMembers(cfg: Config, s: State, call: Call)
    requires (call.SetAgentStatus? && call.status != Revoked) || call.GiveStar? || call.RemoveStar?
    requires Step(cfg, s, call).Ok?
    ensures var t := Step(cfg, s, call).value;
            t.registry.activeAgents == s.registry.activeAgents && Members(t) == Members(s)
  {
  }

  lemma OtherCallsKeepMembers(cfg: Config, s: State, call: Call)
    requires !call.RegisterAgent? && !call.SetAgentStatus? && !call.DeregisterAgent?
    requires !call.GiveStar? && !call.RemoveStar?
    requires Step(cfg, s, call).Ok?
    ensures var t := Step(cfg, s, call).value;
            t.registry.activeAgents == s.registry.activeAgents && Members(t) == Members(s)
  {
    hide Step, CommitmentId;
    StepHasEffect(cfg, s, call);
  }

  lemma OpeningCounts(cfg: Config, s: State, call: Call)
    requires call.RegisterCommitment? && Step(cfg, s, call).Ok?
    ensures var t := Step(cfg, s, call).value;
            t.db.activeCommitments == SaturatingAdd(s.db.activeCommitments, 1) && |Live(t)| == |Live(s)| + 1
  {
    var t := Step(cfg, s, call).value;
    var id := CommitmentId(cfg, Offer(call.provider, call.consumer, call.root, s.now));
    hide Step, CommitmentId, LiveIn;
    StepHasEffect(cfg, s, call);
    OpenedCommitment(s.db.commitments, id, t.db.commitments[id]);
  }

  lemma EndingCounts(cfg: Config, s: State, call: Call)
    requires Progresses(call) && !call.AcknowledgeCommitment? && !call.RaiseDispute? && Step(cfg, s, call).Ok?
    ensures var t := Step(cfg, s, call).value;
            t.db.activeCommitments == SaturatingSub(s.db.activeCommitments, 1) && |Live(s)| == |Live(t)| + 1
  {
    var t := Step(cfg, s, call).value;
    hide Step, OnlyScoresChange, LiveIn;
    StepHasEffect(cfg, s, call);
    var ended := if call.ExpireCommitment? then s.db.commitments[call.id].(status := Expired)
                 else t.db.commitments[call.id];
    EndedCommitment(s.db.commitments, call.id, ended);
  }

  lemma OtherCallsKeepLive(cfg: Config, s: State, call: Call)
    requires !call.RegisterCommitment? && (Progresses(call) ==> call.AcknowledgeCommitment? || call.RaiseDispute?)
    requires Step(cfg, s, call).Ok?
    ensures var t := Step(cfg, s, call).value;
            t.db.activeCommitments == s.db.activeCommitments && Live(t) == Live(s)
  {
    hide Step;
    StepHasEffect(cfg, s, call);
  }

  lemma DealCallCounts(cfg: Config, s: State, call: Call)
    requires s.db.activeCommitments == |Live(s)| && Step(cfg, s, call).Ok?
    requires |Live(Step(cfg, s, call).value)| <= U32_MAX
    ensures var t := Step(cfg, s, call).value; t.db.activeCommitments == |Live(t)|
  {
    hide Step, Live;
    if call.RegisterCommitment? {
      OpeningCounts(cfg, s, call);
    } else if Progresses(call) && !call.AcknowledgeCommitment? && !call.RaiseDispute? {
      EndingCounts(cfg, s, call);
    } else {
      OtherCallsKeepLive(cfg, s, call);
    }
  }

  lemma StepExact(cfg: Config, s: State, call: Call)
    requires Exact(s) && Countable(Apply(cfg, s, call))
    ensures Exact(Apply(cfg, s, call))
  {
    hide Step, Members, Live;
    if Step(cfg, s, call).Ok? {
      DealCallCounts(cfg, s, call);
      if call.RegisterAgent? {
        ArrivalCounts(cfg, s, call);
      } else if call.DeregisterAgent? || (call.SetAgentStatus? && call.status == Revoked) {
        DepartureCounts(cfg, s, call);
      } else if call.SetAgentStatus? || call.GiveStar? || call.RemoveStar? {
        ProfileChangesKeepMembers(cfg, s, call);
      } else {
        OtherCallsKeepMembers(cfg, s, call);
      }
    }
  }

  lemma {:induction false} CountersExactWhileCountable(cfg: Config, genesis: State, calls: seq<Call>)
    requires Genesis(genesis)
    requires forall k | 0 <= k <= |calls| :: Countable(After(cfg, genesis, calls[..k]))
    ensures Exact(After(cfg, genesis, calls))
  {
    if calls == [] {
      assert Members(genesis) == {} && Live(genesis) == {};
    } else {
      var before := calls[..|calls| - 1];
      assert forall k | 0 <= k <= |before| :: before[..k] == calls[..k];
      assert calls[..|calls|] == calls;
      CountersExactWhileCountable(cfg, genesis, before);
      StepExact(cfg, After(cfg, genesis, before), calls[|calls| - 1]);
    }
  }

  lemma StepFitsU32(cfg: Config, s: State, call: Call)
    requires s.registry.activeAgents <= U32_MAX && s.db.activeCommitments <= U32_MAX
    ensures var t := Apply(cfg, s, call); t.registry.activeAgents <= U32_MAX && t.db.activeCommitments <= U32_MAX
  {
    if Progresses(call) || call.RegisterCommitment? {
      hide Step;
      if Step(cfg, s, call).Ok? {
        StepHasEffect(cfg, s, call);
      }
    }
  }

  lemma {:induction false} CountersFitU32(cfg: Config, genesis: State, calls: seq<Call>)
    requires Genesis(genesis)
    ensures var s := After(cfg, genesis, calls); s.registry.activeAgents <= U32_MAX && s.db.activeCommitments <= U32_MAX
  {
    if calls != [] {
      CountersFitU32(cfg, genesis, calls[..|calls| - 1]);
      StepFitsU32(cfg, After(cfg, genesis, calls[..|calls| - 1]), calls[|calls| - 1]);
    }
  }

  /** Throughout a run both counters equal the cardinalities they stand for, if and only if those always fit a `u32`. */
  lemma CountersExactIff(cfg: Config, genesis: State, calls: seq<Call>)
    requires Genesis(genesis)
    ensures (forall k | 0 <= k <= |calls| :: Exact(After(cfg, genesis, calls[..k])))
            <==> (forall k | 0 <= k <= |calls| :: Countable(After(cfg, genesis, calls[..k])))
  {
    hide Exact, After;
    if forall k | 0 <= k <= |calls| :: Countable(After(cfg, genesis, calls[..k])) {
      forall k | 0 <= k <= |calls| ensures Exact(After(cfg, genesis, calls[..k])) {
        assert forall j | 0 <= j <= k :: calls[..k][..j] == calls[..j];
        CountersExactWhileCountable(cfg, genesis, calls[..k]);
      }
    }
    if forall k | 0 <= k <= |calls| :: Exact(After(cfg, genesis, calls[..k])) {
      forall k | 0 <= k <= |calls| ensures Countable(After(cfg, genesis, calls[..k])) {
        CountersFitU32(cfg, genesis, calls[..k]);
        ExactIsCountable(After(cfg, genesis, calls[..k]));
      }
    }
  }

  lemma ExactIsCountable(s: State)
    requires Exact(s) && s.registry.activeAgents <= U32_MAX && s.db.activeCommitments <= U32_MAX
    ensures Countable(s)
  {
  }
}
