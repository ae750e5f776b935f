/** pallet-agent-registry: identities, stars, and penalties. */
module Agents {
  import opened Primitives
  import opened Chain
  import opened Currency

  const MAX_AGENTS: nat := 64
  const REPLAY_WINDOW: nat := 64
  const MAX_PUBKEY_LEN: nat := 1952

  /** "ArthNeura-DID-v1". */
  const DID_DOMAIN: Bytes :=
    [0x41, 0x72, 0x74, 0x68, 0x4E, 0x65, 0x75, 0x72, 0x61, 0x2D, 0x44, 0x49, 0x44, 0x2D, 0x76, 0x31]

  /** What the ML-DSA-65 library says about a key, a signature and a challenge. */
  datatype SignatureCheck = KeyRejected | SignatureRejected | ProofRejected | ProofAccepted

  function DidOf(cfg: Config, pubkey: Bytes): Did {
    cfg.blake2(DID_DOMAIN + pubkey)
  }

  /** A DID is the hash of a tag that spells its name, followed by the key. */
  lemma DidPreimage(cfg: Config, pubkey: Bytes, x: Bytes, tag: string)
    requires tag == "ArthNeura-DID-v1" && |x| == 16 + |pubkey|
    requires (forall i | 0 <= i < 16 :: x[i] == tag[i] as int) && x[16..] == pubkey
    ensures DidOf(cfg, pubkey) == cfg.blake2(x)
  {
    assert x[..16] == DID_DOMAIN;
    assert x == x[..16] + x[16..];
  }

  function AgentsOf(r: Registry, who: Account): seq<Did> {
    if who in r.controllerAgents then r.controllerAgents[who] else []
  }

  /** Block of the last star; zero when there is none. */
  function LastStar(r: Registry, giver: Did, receiver: Did): nat {
    if (giver, receiver) in r.starGivers then r.starGivers[(giver, receiver)] else 0
  }

  function Strikes(r: Registry, did: Did): nat {
    if did in r.disputeStrikes then r.disputeStrikes[did] else 0
  }

  /** `AgentLookup::is_active_verified`. */
  predicate IsActiveVerified(r: Registry, did: Did) {
    did in r.profiles && r.profiles[did].status == AgentStatus.Active && r.profiles[did].verified
  }

  predicate ControllerIs(r: Registry, did: Did, who: Account) {
    did in r.profiles && r.profiles[did].controller == who
  }

  function Without(dids: seq<Did>, did: Did): seq<Did> {
    if dids == [] then []
    else Without(dids[..|dids| - 1], did) + if dids[|dids| - 1] == did then [] else [dids[|dids| - 1]]
  }

  function RegisterAgent(cfg: Config, s: State, caller: Account, pubkey: Bytes, signedAt: nat, check: SignatureCheck)
    : Result<State>
  {
    var r := s.registry;
    var did := DidOf(cfg, pubkey);
    :- Ensure(did !in r.profiles, DidAlreadyRegistered);
    :- Ensure(|AgentsOf(r, caller)| < MAX_AGENTS, TooManyAgentsForController);
    :- Ensure(signedAt <= s.now, InvalidChallengeBlock);
    :- Ensure(SaturatingSub(s.now, signedAt) <= REPLAY_WINDOW, ChallengeExpired);
    :- Ensure(|pubkey| == MAX_PUBKEY_LEN && check != KeyRejected, InvalidPubkeyLength);
    :- Ensure(check != SignatureRejected, InvalidSignatureLength);
    :- Ensure(check == ProofAccepted, InvalidQuantumProof);
    var reserved := Reserve(s.balances, caller, cfg.registrationDeposit);
    :- Ensure(reserved.Ok?, InsufficientBalanceForDeposit);
    Ok(s.(balances := reserved.value,
          registry := r.(profiles := r.profiles[did := Profile(caller, 0, AgentStatus.Active, s.now, true)],
                         controllerAgents := r.controllerAgents[caller := AgentsOf(r, caller) + [did]],
                         activeAgents := SaturatingAdd(r.activeAgents, 1))))
  }

  function SetAgentStatus(s: State, caller: Account, did: Did, status: AgentStatus): Result<State> {
    var r := s.registry;
    var profile :- Lookup(r.profiles, did, DidNotFound);
    :- Ensure(profile.controller == caller, NotController);
    :- Ensure(profile.status != Revoked, AgentRevoked);
    Ok(s.(registry := r.(profiles := r.profiles[did := profile.(status := status)],
                         activeAgents :=
                           if status == Revoked then SaturatingSub(r.activeAgents, 1) else r.activeAgents)))
  }

  /** The cooldown test of `give_star`. */
  predicate CooldownOver(cfg: Config, now: nat, last: nat) {
    last > 0 ==> now >= SaturatingAdd(last, cfg.starCooldown)
  }

  function GiveStar(cfg: Config, s: State, caller: Account, giver: Did, receiver: Did): Result<State> {
    var r := s.registry;
    :- Ensure(giver in AgentsOf(r, caller), NotController);
    :- Ensure(giver != receiver, CannotStarSelf);
    var profile :- Lookup(r.profiles, receiver, DidNotFound);
    :- Ensure(profile.status != Revoked, AgentRevoked);
    :- Ensure(profile.controller != caller, CannotStarSameController);
    :- Ensure(CooldownOver(cfg, s.now, LastStar(r, giver, receiver)), CooldownNotExpired);
    Ok(s.(registry := r.(starGivers := r.starGivers[(giver, receiver) := s.now],
                         profiles := r.profiles[receiver := profile.(score := SaturatingAdd(profile.score, 1))])))
  }

  function RemoveStar(s: State, caller: Account, giver: Did, receiver: Did): Result<State> {
    var r := s.registry;
    :- Ensure(giver in AgentsOf(r, caller), NotController);
    :- Ensure(LastStar(r, giver, receiver) > 0, NotStarred);
    var profile :- Lookup(r.profiles, receiver, DidNotFound);
    Ok(s.(registry := r.(starGivers := r.starGivers[(giver, receiver) := 0],
                         profiles := r.profiles[receiver := profile.(score := SaturatingSub(profile.score, 1))])))
  }

  function DeregisterAgent(cfg: Config, s: State, caller: Account, did: Did): Result<State> {
    var r := s.registry;
    var profile :- Lookup(r.profiles, did, DidNotFound);
    :- Ensure(profile.controller == caller, NotController);
    :- Ensure(profile.status != Revoked, AgentAlreadyRevoked);
    Ok(s.(balances := Unreserve(s.balances, caller, cfg.registrationDeposit),
          registry := r.(profiles := r.profiles - {did},
                         controllerAgents := r.controllerAgents[caller := Without(AgentsOf(r, caller), did)],
                         activeAgents := SaturatingSub(r.activeAgents, 1))))
  }

  /** `slash_reputation`: nothing happens to an unregistered DID. */
  function SlashReputation(s: State, did: Did, amount: nat): State {
    var r := s.registry;
    if did !in r.profiles then s
    else
      var profile := r.profiles[did];
      s.(registry := r.(profiles := r.profiles[did := profile.(score := SaturatingSub(profile.score, amount))]))
  }

  /** `slash_reputation_for_guilty_delivery`: a strike, and at the threshold a deposit slash. */
  function SlashForGuiltyDelivery(cfg: Config, s0: State, did: Did, amount: nat): State {
    var s := SlashReputation(s0, did, amount);
    var r := s.registry;
    if did !in r.profiles then s
    else
      var strikes := SaturatingAdd(Strikes(r, did), 1);
      if strikes < cfg.strikeThreshold then s.(registry := r.(disputeStrikes := r.disputeStrikes[did := strikes]))
      else
        var controller := r.profiles[did].controller;
        var unslashed := Unslashed(s.balances, controller, cfg.depositSlashPerStrike);
        var removed := SaturatingSub(cfg.depositSlashPerStrike, unslashed);
        s.(registry := r.(disputeStrikes := r.disputeStrikes[did := 0]),
           balances := SlashReserved(s.balances, controller, cfg.depositSlashPerStrike),
           slashes := s.slashes + [DepositSlashed(did, controller, removed, strikes)])
  }
}
