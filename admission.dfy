/**
 * `validate_unsigned` for the `heartbeat` call: the check the transaction
 * pool runs before a heartbeat may enter a block. It reads the ledger and
 * the roster and changes nothing. The checks run cheapest first and stop at
 * the first failure; the signature is verified last.
 */
module Admission {
  import opened Types
  import opened Codec
  import opened Ledger

  datatype InvalidReason = Stale | BadSignature

  /** Pool metadata of an admitted transaction. */
  datatype ValidTransaction = ValidTransaction(
    priority: nat,
    requiredTags: seq<seq<byte>>,
    providedTags: seq<seq<byte>>,
    longevity: u64,
    propagate: bool)

  datatype TransactionValidity = Invalid(reason: InvalidReason) | Valid(validity: ValidTransaction)

  /** `TransactionLongevity::max_value()` (a `u64`). */
  const MaxLongevity: u64 := 0xFFFF_FFFF_FFFF_FFFF

  /**
   * `sr25519_verify(signature, message, public)`: a host function, not part
   * of this model, passed in as a parameter.
   */
  type Verifier = (Signature, seq<byte>, AuthorityId) -> bool

  /** A heartbeat is stale when one is already recorded for its slot or it names another session. */
  predicate IsStale(h: Heartbeat, currentSession: SessionIndex, received: HeartbeatMap)
  {
    IsOnline(received, currentSession, h.authorityIndex) || h.sessionIndex != currentSession
  }

  function ValidateUnsigned(
    call: Call, currentSession: SessionIndex, keys: seq<AuthorityId>, received: HeartbeatMap, verify: Verifier)
    : (r: TransactionValidity)
    ensures r == Invalid(Stale) <==> IsStale(call.heartbeat, currentSession, received)
    ensures r == Invalid(BadSignature) <==>
              !IsStale(call.heartbeat, currentSession, received)
              && (call.heartbeat.authorityIndex >= |keys|
                  || !verify(call.signature, EncodeHeartbeat(call.heartbeat), keys[call.heartbeat.authorityIndex]))
    ensures r.Valid? ==>
              && call.heartbeat.authorityIndex < |keys|
              && r.validity == ValidTransaction(
                   0, [], [EncodeProvidesTag(currentSession, keys[call.heartbeat.authorityIndex])], MaxLongevity, true)
  {
    var heartbeat := call.heartbeat;
    if IsOnline(received, currentSession, heartbeat.authorityIndex) then
      Invalid(Stale)
    else if heartbeat.sessionIndex != currentSession then
      Invalid(Stale)
    else if heartbeat.authorityIndex >= |keys| then
      Invalid(BadSignature)
    else
      var authorityId := keys[heartbeat.authorityIndex];
      if !verify(call.signature, EncodeHeartbeat(heartbeat), authorityId) then
        Invalid(BadSignature)
      else
        Valid(ValidTransaction(
          0, [], [EncodeProvidesTag(currentSession, authorityId)], MaxLongevity, true))
  }

  /**
   * The signature is consulted only when the cheap checks pass: a stale or
   * out-of-roster heartbeat gets the same verdict whatever the verifier does.
   */
  lemma CheapChecksDecideFirst(
    call: Call, currentSession: SessionIndex, keys: seq<AuthorityId>, received: HeartbeatMap, v1: Verifier, v2: Verifier)
    requires IsStale(call.heartbeat, currentSession, received) || call.heartbeat.authorityIndex >= |keys|
    ensures ValidateUnsigned(call, currentSession, keys, received, v1)
         == ValidateUnsigned(call, currentSession, keys, received, v2)
  {
  }

  /** A heartbeat the pool admits is recorded when it is dispatched on the same state. */
  lemma AdmittedIsRecorded(
    call: Call, currentSession: SessionIndex, keys: seq<AuthorityId>, received: HeartbeatMap, verify: Verifier)
    requires ValidateUnsigned(call, currentSession, keys, received, verify).Valid?
    ensures Admits(received, keys, currentSession, call.heartbeat.authorityIndex)
    ensures call.heartbeat.sessionIndex == currentSession
  {
  }

  /**
   * Once a heartbeat is recorded for `(session, index)`, every later heartbeat
   * for that index in that session is rejected as stale, whatever its payload
   * or signature.
   */
  lemma RecordedSlotIsStale(
    call: Call, currentSession: SessionIndex, keys: seq<AuthorityId>, received: HeartbeatMap,
    state: seq<byte>, verify: Verifier)
    ensures ValidateUnsigned(call, currentSession, keys,
              received[(currentSession, call.heartbeat.authorityIndex) := state], verify) == Invalid(Stale)
  {
  }

  /** A heartbeat of the previous session is stale even if its authority never heartbeated this session. */
  lemma PreviousSessionIsStale(
    call: Call, currentSession: SessionIndex, keys: seq<AuthorityId>, received: HeartbeatMap, verify: Verifier)
    requires currentSession >= 1 && call.heartbeat.sessionIndex == currentSession - 1
    ensures ValidateUnsigned(call, currentSession, keys, received, verify) == Invalid(Stale)
  {
  }
}
