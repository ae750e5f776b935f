/** The storage of the three pallets and the currency under them, as one value. */
module Chain {
  import opened Primitives
  import opened Merkle

  type Account = nat
  type Did = Hash

  // ------------------------------------------------------------------ configuration

  /** The runtime constants, kept symbolic, and the hash function. */
  datatype Config = Config(
    blake2: HashFunction,
    starCooldown: nat,
    registrationDeposit: nat,
    strikeThreshold: nat,
    depositSlashPerStrike: nat,
    disputeWindow: nat,
    maxCommitmentLifetime: nat,
    providerGuiltySlash: nat,
    falseDisputeSlash: nat)
  {
    predicate Valid() {
      0 < starCooldown && 0 < strikeThreshold <= U32_MAX
    }
  }

  // ----------------------------------------------------------------------- currency

  datatype AccountData = AccountData(free: nat, reserved: nat)

  /** An account exists exactly when it has an entry. */
  type Balances = map<Account, AccountData>

  // ----------------------------------------------------------------------- registry

  datatype AgentStatus = Active | Suspended | Revoked

  datatype Profile = Profile(
    controller: Account, score: nat, status: AgentStatus, registeredAt: nat, verified: bool)

  datatype Registry = Registry(
    profiles: map<Did, Profile>,
    controllerAgents: map<Account, seq<Did>>,
    activeAgents: nat,
    starGivers: map<(Did, Did), nat>,
    disputeStrikes: map<Did, nat>)

  /** The `DepositSlashed` event. */
  datatype DepositSlashed = DepositSlashed(did: Did, controller: Account, amount: nat, strikes: nat)

  // ------------------------------------------------------------------------- escrow

  datatype EscrowStatus = Locked | Released | Refunded

  datatype EscrowRecord = EscrowRecord(
    payer: Account, payee: Account, amount: nat, status: EscrowStatus, lockedAt: nat)

  // ---------------------------------------------------------------------- vector db

  datatype CommitmentStatus = Pending | Active | Settled | Disputed | DisputeResolved | Expired

  datatype Commitment = Commitment(
    provider: Did, consumer: Did, merkleRoot: Hash, totalChunks: nat, status: CommitmentStatus,
    createdAt: nat, expiresAt: nat, acknowledgedAt: Option<nat>, price: nat)

  datatype Receipt = Receipt(finalStreamHash: Hash, chunkCount: nat, submittedAt: nat)

  datatype Verdict = ProviderGuilty | ClaimantUnsubstantiated

  datatype DisputeRecord = DisputeRecord(
    merkleRoot: Hash, receivedChunkHash: Hash, disputedChunkIndex: nat,
    raisedAt: nat, counterDeadline: nat, verdict: Option<Verdict>)

  datatype VectorDb = VectorDb(
    commitments: map<Hash, Commitment>,
    activeCommitments: nat,
    receipts: map<Hash, Receipt>,
    disputes: map<Hash, DisputeRecord>,
    windowOverride: Option<nat>)

  // -------------------------------------------------------------------------- state

  datatype State = State(
    now: nat,
    balances: Balances,
    registry: Registry,
    escrows: map<Hash, EscrowRecord>,
    db: VectorDb,
    slashes: seq<DepositSlashed>)

  // ----------------------------------------------------------------------- outcomes

  datatype Error =
    // currency and environment
    | InsufficientBalance | DeadAccount | AccountInUse | ClockExhausted
    // pallet-agent-registry
    | DidAlreadyRegistered | DidNotFound | NotController | AgentRevoked | TooManyAgentsForController
    | CooldownNotExpired | NotStarred | CannotStarSelf | CannotStarSameController
    | InvalidPubkeyLength | InvalidSignatureLength | InvalidChallengeBlock | ChallengeExpired
    | InvalidQuantumProof | InsufficientBalanceForDeposit | AgentAlreadyRevoked
    // pallet-escrow
    | EscrowAlreadyExists | EscrowNotFound | EscrowNotLocked | InsufficientBalanceForEscrow
    // pallet-vector-db
    | CommitmentAlreadyExists | CommitmentNotFound | NotProvider | NotConsumer
    | ProviderNotEligible | ConsumerNotEligible | SelfTrade | ExpiryMustBePositive | ExpiryTooFar
    | CommitmentExpiredError | NotPending | NotActive | NotDisputed | AlreadyFinalized
    | StreamHashMismatch | InvalidMerkleProof | DisputeAlreadyRaised | DisputeWindowStillOpen
    | DisputeWindowExpired | NotYetExpired | TotalChunksMustBePositive | InvalidMerkleRoot
    | ChunkIndexOutOfBounds

  datatype Result<+T> = Ok(value: T) | Err(error: Error) {
    predicate IsFailure() {
      Err?
    }

    function PropagateFailure<U>(): Result<U>
      requires Err?
    {
      Err(error)
    }

    function Extract(): T
      requires Ok?
    {
      value
    }
  }

  datatype Check = Pass | Fail(error: Error) {
    predicate IsFailure() {
      Fail?
    }

    function PropagateFailure<U>(): Result<U>
      requires Fail?
    {
      Err(error)
    }
  }

  /** `ensure!(condition, error)`. */
  function Ensure(condition: bool, error: Error): Check {
    if condition then Pass else Fail(error)
  }

  /** `map.get(key).ok_or(error)`. */
  function Lookup<K, V>(m: map<K, V>, key: K, error: Error): Result<V> {
    if key in m then Ok(m[key]) else Err(error)
  }
}
