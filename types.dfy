/**
 * Shared vocabulary of the "I'm online" (heartbeat) pallet: fixed-width
 * integers, the heartbeat and worker-status records, the dispatchable call,
 * events, offences and the error enums.
 */
module Types {

  const U32: int := 0x1_0000_0000
  const U64: int := 0x1_0000_0000_0000_0000

  type byte = x: int | 0 <= x < 256
  type u32 = x: int | 0 <= x < 0x1_0000_0000
  type u64 = x: int | 0 <= x < 0x1_0000_0000_0000_0000

  /** `session::SessionIndex` is a `u32`. */
  type SessionIndex = u32
  /** `AuthIndex`: position of an authority in the `Keys` roster. */
  type AuthIndex = u32
  /** `T::BlockNumber`, taken to be a `u64` as in the node runtime. */
  type BlockNumber = u64

  /** Public sr25519 key of an authority (its raw bytes). */
  type AuthorityId = seq<byte>
  /** Account identifier of a validator; only passed through. */
  type AccountId = seq<byte>
  /** An sr25519 signature (64 raw bytes once decoded). */
  type Signature = seq<byte>
  /**
   * The opaque network state of a node. The model does not distinguish the
   * structure from its canonical encoding: a value of this type IS that
   * encoding, so `network_state.encode()` is the value itself.
   */
  type NetworkState = seq<byte>

  /** `u32` truncating cast (`as u32`) of a non-negative integer. */
  function AsU32(x: nat): (r: u32)
    ensures x < U32 ==> r == x
  {
    x % U32
  }

  datatype Option<+T> = None | Some(value: T)

  datatype Result<+T, +E> = Success(value: T) | Failure(error: E)

  /** The heartbeat payload that an authority signs and gossips. */
  datatype Heartbeat = Heartbeat(
    blockNumber: BlockNumber,
    networkState: NetworkState,
    sessionIndex: SessionIndex,
    authorityIndex: AuthIndex)

  /** Persisted progress of the local off-chain worker. */
  datatype WorkerStatus = WorkerStatus(done: bool, gossippingAt: BlockNumber)

  /** The pallet's only dispatchable call, `heartbeat(heartbeat, signature)`. */
  datatype Call = HeartbeatCall(heartbeat: Heartbeat, signature: Signature)

  /** Origin of a dispatch; `Unsigned` is the framework's `RawOrigin::None`. */
  datatype Origin = Root | Signed(who: AccountId) | Unsigned

  /** The error `ensure_none` raises for any origin other than none. */
  datatype DispatchError = BadOrigin

  /** Errors of the off-chain worker; all of them are logged and dropped. */
  datatype OffchainErr =
    | DecodeWorkerStatus
    | NoKeys
    | ExtrinsicCreation
    | FailedSigning
    | NetworkStateErr
    | SubmitTransaction

  /** Events the pallet deposits. */
  datatype Event = HeartbeatReceived(authority: AuthorityId)

  /** The report filed at the end of a session for authorities that sent no heartbeat. */
  datatype UnresponsivenessOffence = UnresponsivenessOffence(
    sessionIndex: u32,
    currentEraStartSessionIndex: u32,
    validatorsCount: u32,
    offenders: seq<AuthorityId>)
}
