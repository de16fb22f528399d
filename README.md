# I'm-online (heartbeat) pallet, modelled in Dafny

This project models the core of the Substrate "I'm online" pallet
(`srml/im-online/src/lib.rs`). Validators use it to prove once per session
that they are live. It has four parts:

- **Off-chain worker.** Runs after every block. It reads a persisted
  `WorkerStatus {done, gossipping_at}` and decides whether a heartbeat is due.
  It claims the round with an atomic compare-and-set, then builds, signs and
  submits a `heartbeat` call. The status is marked done once the submission
  is accepted.
- **Admission check (`validate_unsigned`).** Rejects a duplicate or
  wrong-session heartbeat as `Stale`. Rejects an out-of-roster index or a bad
  signature as `BadSignature`. Cheap checks come first; the signature is
  checked last.
- **Ledger (`ReceivedHeartbeats`, `Keys`, `GossipAt`).** The `heartbeat` call
  records one entry per (session, authority index) and deposits
  `HeartbeatReceived`. The session hooks clear entries and install the next
  roster, and report the authorities that sent no heartbeat as an
  `UnresponsivnessOffence`.
- **Slash curve.** `slash_fraction(k, n) = min(3 (k - 1) / n, 1) * 5%`,
  computed in parts per billion.

Modules:

- `Types`: fixed-width integers and records.
- `Codec`: the SCALE encodings the pallet relies on.
- `SlashCurve`
- `Ledger`: class `ImOnline`, which holds the pallet's storage, events and
  reported offences.
- `Admission`
- `Worker`: class `LocalStore`, the node's persistent local storage, plus the
  worker's functions and methods.
- `Scenarios`: runs of several operations.

Inputs the pallet reads from other pallets are parameters:

- `session::current_index()`
- `system::block_number()`
- `CurrentEraStartSessionIndex`
- the next validators handed to `on_new_session`

Host functions are oracles:

- `Admission.Verifier` stands for `sr25519_verify`.
- `Worker.Host` stands for `pubkey`, `network_state`, `sign`, `new_unsigned`
  and `submit_transaction`. Each one may fail.

Two behaviours of the worker worth noting:

- **The status is marked done only after submission.** `do_gossip_at` calls
  `set_worker_status(block, true)` only after `submit_transaction` succeeds
  (lib.rs:329-335). After any earlier failure, the claimed
  `{done: false, gossipping_at: now}` stays in place, and a later block sees
  it as an aborted attempt and retries it (`Worker.DoGossipAt`,
  `Worker.AbortedAttemptIsRetried`).
- **A status claimed at a later block.** `{done: false, gossipping_at > now}`
  is treated as "do not gossip" (lib.rs:382-391). It is the sixth state of
  `Worker.GossipState`, `ClaimedLater` (`Worker.CheckMatchesClassification`).

## Model

| member | source | states |
|---|---|---|
| `Codec.EncodeStatus` | srml/im-online/src/lib.rs:345-353 | A `WorkerStatus` is stored as nine bytes: a first byte of 0 or 1 that is 1 exactly when `done`, then eight bytes that read back as `gossipping_at`. |
| `Codec.DecodeStatus` | srml/im-online/src/lib.rs:379-380 | Decoding fails exactly when there are fewer than nine bytes or the `done` byte is not 0 or 1. A decoded status re-encodes to the nine bytes it was read from. |
| `Codec.StatusRoundTrip` | srml/im-online/src/lib.rs:124-129 | Decoding an encoded `WorkerStatus` gives back the same status. |
| `Codec.StatusEncodingInjective` | srml/im-online/src/lib.rs:345-353 | Distinct worker statuses are stored as distinct bytes. The compare-and-set compares these bytes. |
| `Codec.EncodeHeartbeat` | srml/im-online/src/lib.rs:312-322 | The signed payload is the block number in eight bytes, the network state, then the session index and the authority index in four bytes each, every field reading back as its value. |
| `Codec.HeartbeatEncodingInjective` | srml/im-online/src/lib.rs:156-166 | Two heartbeats with the same signed encoding are equal, so a signature covers all four fields. |
| `Codec.EncodeProvidesTag` | srml/im-online/src/lib.rs:489 | The `provides` tag is four bytes that read back as the session index, followed by the authority id. |
| `Codec.ProvidesTagInjective` | srml/im-online/src/lib.rs:489 | Two equal tags come from the same session and the same authority, so the pool admits one heartbeat per `(session, authority)`. |
| `Codec.DecodeSignature` | srml/im-online/src/lib.rs:324-325 | Decoding a signature succeeds exactly when there are at least 64 bytes, and gives a 64-byte prefix. |
| `SlashCurve.FromRationalApproximation` | srml/im-online/src/lib.rs:535 | Assumed `Perbill` ratio: a full `Perbill` once `p >= q`, and zero for `p = 0`. |
| `SlashCurve.SlashFraction` | srml/im-online/src/lib.rs:533-543 | Needs `offenders >= 1` (a `u32` subtraction). The `u32` product `3 (k - 1)` wraps as written. The result never exceeds 5% (50,000,000 parts). |
| `SlashCurve.SlashFractionNoOverflow` | srml/im-online/src/lib.rs:541-542 | The `u64` product `x * 50_000_000` cannot overflow, and the final `as u32` cast loses nothing. |
| `SlashCurve.SlashFractionExact` | srml/im-online/src/lib.rs:534-541 | The two truncations (to billionths, then after the scaling) equal one floor division: the result is `floor(50_000_000 * min(3 (k - 1), n) / n)`. |
| `SlashCurve.SingleOffenderIsFree` | srml/im-online/src/lib.rs:552-556 | A single offender is never slashed, whatever the validator count. |
| `SlashCurve.SlashFractionSaturates` | srml/im-online/src/lib.rs:534 | Once `3 (k - 1) >= n` the fraction is exactly 5%. |
| `SlashCurve.SlashFractionMonotone` | srml/im-online/src/lib.rs:534 | For a fixed validator count, more offenders never give a smaller fraction. |
| `SlashCurve.SlashFractionTestValues` | srml/im-online/src/lib.rs:550-568 | `(1, 50)` gives 0 parts, `(3, 50)` gives 6,000,000 and `(17, 50)` gives 48,000,000. |
| `Ledger.Unresponsive` | srml/im-online/src/lib.rs:420-425 | The roster authorities whose slot has no heartbeat this session, in roster order. There are never more of them than there are slots. |
| `Ledger.UnresponsiveMembers` | srml/im-online/src/lib.rs:421-424 | An authority is an offender exactly when some roster slot holding it has no heartbeat for the session. |
| `Ledger.AllOnlineNoOffenders` | srml/im-online/src/lib.rs:421-425 | If every slot has a heartbeat, the offender list is empty. |
| `Ledger.NoneOnlineAllOffenders` | srml/im-online/src/lib.rs:421-425 | If no slot has a heartbeat, the offender list is the whole roster in roster order. |
| `Ledger.ImOnline.IsOnlineInCurrentSession` | srml/im-online/src/lib.rs:249-252 | True exactly when a heartbeat is recorded for the index in the current session. A roster slot that is not online has its key in the session's offender list; on a roster of distinct keys, a slot is online exactly when its key is not an offender. |
| `Ledger.AuthorityKeys` | srml/im-online/src/lib.rs:413 | The new roster holds the next validators' authority keys, one per validator, in iteration order. |
| `Ledger.RemoveSession` | srml/im-online/src/lib.rs:407 | `remove_prefix` leaves no entry for the session. Entries of every other session are kept unchanged, and nothing is added. |
| `Ledger.ImOnline.constructor` | srml/im-online/src/lib.rs:193-205 | Genesis configures `GossipAt` and `Keys`, and starts with an empty ledger. |
| `Ledger.ImOnline.Heartbeat` | srml/im-online/src/lib.rs:213-237 | Any origin but none gets `BadOrigin`. An entry is inserted, with one `HeartbeatReceived(Keys[i])` event, only when the slot is empty and `i` is inside `Keys`. Otherwise nothing changes. Existing entries are never overwritten, and other keys are never touched. |
| `Ledger.ImOnline.OnNewSession` | srml/im-online/src/lib.rs:403-414 | Clears every entry of the current session index and sets `GossipAt` to the current block. `Keys` becomes the next validators' keys. |
| `Ledger.ImOnline.OnBeforeSessionEnding` | srml/im-online/src/lib.rs:416-440 | Reports exactly one offence: the current session, the era-start index, `validators_count` equal to the roster length cast to `u32`, and the offenders in roster order. Nothing else changes. |
| `Admission.ValidateUnsigned` | srml/im-online/src/lib.rs:450-496 | Result is `Stale` iff the slot already has a heartbeat or the session differs. It is `BadSignature` iff not stale and the index is out of range or the signature over the encoded heartbeat fails. Otherwise it is valid with priority 0, no requires, one provides tag `(session, id)`, maximal longevity and propagate on. |
| `Admission.CheapChecksDecideFirst` | srml/im-online/src/lib.rs:470-484 | For a stale or out-of-roster heartbeat, the verdict does not depend on the signature verifier. |
| `Admission.AdmittedIsRecorded` | srml/im-online/src/lib.rs:452-468 | An admitted heartbeat names the current session and an empty slot inside the roster, so dispatching it records it. |
| `Admission.RecordedSlotIsStale` | srml/im-online/src/lib.rs:452-455 | After a heartbeat is recorded for `(session, i)`, every heartbeat for `i` in that session is `Stale`, whatever its payload or signature. |
| `Admission.PreviousSessionIsStale` | srml/im-online/src/lib.rs:457-461 | A heartbeat for the previous session is `Stale`, even from an authority with no heartbeat this session. |
| `Worker.LocalStore.constructor` | srml/im-online/src/lib.rs:394 | A fresh node has no status stored. |
| `Worker.LocalStore.Get` | srml/im-online/src/lib.rs:376 | Reading returns the stored bytes, or absent. |
| `Worker.LocalStore.CompareAndSet` | srml/im-online/src/lib.rs:349-354 | Writes only when the stored value equals the expected one (absent counts as a value), and reports whether it wrote. |
| `Worker.LocalStore.Set` | srml/im-online/src/lib.rs:365-366 | Writes unconditionally. |
| `Worker.CheckNotYetGossipped` | srml/im-online/src/lib.rs:372-396 | An absent status gives `(None, true)`. Undecodable bytes give `DecodeWorkerStatus`. Otherwise it returns `(Some(raw), b)`, where `b` holds iff `!done && at < now` or `done && at < next_gossip`. |
| `Worker.CheckMatchesClassification` | srml/im-online/src/lib.rs:382-391 | The check says "not yet" exactly in three states: never started, aborted, or finished before the current round. It says no when in progress at this block, claimed at a later block, or finished this round. |
| `Worker.AlreadySubmittingSkips` | srml/im-online/src/lib.rs:384-386 | A stored `{done: false, gossipping_at: now}` always gives false. |
| `Worker.ProceedingAdvancesStatus` | srml/im-online/src/lib.rs:264 | When the worker proceeds, the observed status decodes and its block is strictly before `now`. |
| `Worker.ClaimDiffersFromObservation` | srml/im-online/src/lib.rs:265-271 | The status a worker writes when it claims differs from any status that let it proceed. So a second worker holding the same observation loses the compare-and-set. |
| `Worker.AbortedAttemptIsRetried` | srml/im-online/src/lib.rs:382 | An unfinished claim from an earlier block is retried. |
| `Worker.FinishedRoundIsNotRepeated` | srml/im-online/src/lib.rs:388-389 | A finished round is repeated only when the gossip block lies after it. |
| `Worker.FirstLocalAuthority` | srml/im-online/src/lib.rs:293-308 | Returns the first roster position holding a local key. If there is none, no position holds one. |
| `Worker.BuildHeartbeatCall` | srml/im-online/src/lib.rs:280-328 | Each outcome holds exactly in its own case. No local key gives `NoKeys`. A key without a roster slot skips the round. Missing network state gives `NetworkState`. A failed `sign` gives `FailedSigning`. A signature that does not decode, or a refused `new_unsigned`, gives `ExtrinsicCreation`. A call is built exactly when every host step succeeds. It carries the given block and session, the network state and the first matching index, signed over that heartbeat's encoding. |
| `Worker.BuiltHeartbeatIsAdmissible` | srml/im-online/src/lib.rs:309-328 | If the verifier accepts the node's own signature and the slot is empty, the admission check accepts the built heartbeat. |
| `Worker.CompareAndSetWorkerStatus` | srml/im-online/src/lib.rs:340-355 | Stores the encoded `{done, gossipping_at}` only when the store still holds the observed value. |
| `Worker.SetWorkerStatus` | srml/im-online/src/lib.rs:357-367 | Stores the encoded `{done, gossipping_at}` unconditionally. |
| `Worker.DoGossipAt` | srml/im-online/src/lib.rs:280-338 | Returns each builder error, or `SubmitTransaction`, without touching the status. Returns `Ok` and leaves the status alone when no roster key matches. Marks `{done: true, block}` only after a submission is accepted. |
| `Worker.ClaimAndGossip` | srml/im-online/src/lib.rs:264-277 | A lost claim writes and submits nothing. A won claim always goes on to gossip: a heartbeat is sent exactly when it is built and the host accepts it. The status ends at `{done: true, now}` when sent and at `{done: false, now}` otherwise. |
| `Worker.Offchain` | srml/im-online/src/lib.rs:254-278 | Gossips only when `GossipAt < now` and the check says "not yet". Otherwise the store is unchanged and nothing is submitted. When due, the claim against the value just read succeeds, and a heartbeat is sent exactly when it is built and the host accepts it. Any new status is stamped `now`, later than the block of the status it replaces. |
| `Scenarios.SilentAuthorityIsReported` | srml/im-online/src/lib.rs:416-440 | Roster of three, with slots 1 and 2 heartbeating in session 4. The offence reports `[slot 0]` with `validators_count` 3. A replayed heartbeat from slot 1 is `Stale`, and dispatching it anyway keeps the first network state. |
| `Scenarios.RacingWorkers` | srml/im-online/src/lib.rs:265-271 | Two workers read the same status at the same block. When gossip is due, exactly the first claim succeeds, and the second submits nothing. |

## Left out

- Host functions are oracle inputs: `sr25519_verify`, `sign`, `pubkey`,
  `network_state`, `submit_transaction` and `UncheckedExtrinsic::new_unsigned`.
  Their code is not part of this model. Each may fail, or accept any input.
- SCALE encoding is modelled concretely only for fixed-width integers, `bool`
  and the 64-byte signature. The network state is treated as its own encoded
  bytes. `T::BlockNumber` is taken to be `u64`.
- The `blake2_256` hashing of the inner key of `ReceivedHeartbeats` is not
  modelled. The map is keyed by the index directly, and hashing changes only
  where entries sit in storage.
- `Perbill::from_rational_approximation` and `into_parts` are not part of this
  model. The ratio is assumed to be `floor(min(p, q) * 10^9 / q)`, with a zero
  `q` read as 1. Its reduction step for `q > 10^9` is not modelled.
- SlashCurve.SlashFractionExact, SlashCurve.SlashFractionSaturates and
  SlashCurve.SlashFractionMonotone hold only while `3 (offenders - 1)` fits in
  a `u32`. Past that (more than 1,431,655,766 offenders) the product wraps as
  written, so more offenders can give a smaller fraction.
- SlashCurve.SlashFraction requires `offenders >= 1`. At `offenders = 0` the
  source's `u32` subtraction `offenders - 1` underflows. In a build with
  overflow checks that panics. Without them it wraps to `2^32 - 1`, the
  product `3 * (2^32 - 1)` wraps to `2^32 - 3`, and the fraction is the full
  5% for any validator count up to `2^32 - 3`. The model writes out the
  wrap of the product but not of the subtraction.
- Which session `on_new_session` clears depends on when the session module
  (not part of this model) advances `current_index`. The hook takes that index
  as a parameter.
- Real concurrency is not modelled. Only one interleaving is: two workers that
  both read the status before either claims (`Scenarios.RacingWorkers`).
  `local_storage_compare_and_set` is one atomic method.
- `print`/`Printable` logging of off-chain errors is left out. Each error ends
  the run, as in the source.
- `report_offence` is modelled as appending the offence to
  `ImOnline.reported`. Its result is ignored, as in the source.
- The pallet's only dispatchable is `heartbeat`, so the fall-through
  `TransactionValidity::Invalid(0)` of `validate_unsigned` cannot occur in the
  model.
- `offchain_worker` only forwards to `offchain`. `on_disabled` does nothing.
  The `_changed` and `_validators` arguments of `on_new_session` are unused.
- The `Offence` accessors (`offenders`, `validators_count`,
  `current_era_start_session_index`, `time_slot`) only read fields, so they
  are the fields of `Types.UnresponsivenessOffence`. `Offence::ID`
  (`im-online:offlin`) is read only by the offence reporter, which is not part
  of this model.
- Framework macros (`decl_module!`, `decl_storage!`, `decl_event!`) are left
  out, and so are `srml/support/src/error.rs` (error-enum code generation) and
  `core/network/src/protocol/event.rs` (enum declarations only).
