/**
 * The off-chain worker: once per block it reads the persisted
 * `WorkerStatus`, decides whether a heartbeat is due, claims the round with
 * an atomic compare-and-set, builds and signs the heartbeat and submits it,
 * and marks the round done once the submission is accepted.
 */
module Worker {
  import opened Types
  import opened Codec
  import opened Ledger
  import opened Admission

  /**
   * The persistent local storage of one node, restricted to the one key the
   * worker uses (`srml/im-online-worker-status`): the raw bytes stored under
   * it, if any.
   */
  class LocalStore {
    var status: Option<seq<byte>>

    constructor ()
      ensures status == None
    {
      status := None;
    }

    /** `local_storage_get`. */
    method Get() returns (value: Option<seq<byte>>)
      ensures value == status
    {
      value := status;
    }

    /**
     * `local_storage_compare_and_set`: writes `value` only when the stored
     * value still equals `expected` (`None` expects the key to be absent),
     * in one atomic step.
     */
    method CompareAndSet(expected: Option<seq<byte>>, value: seq<byte>) returns (ok: bool)
      modifies this
      ensures ok <==> old(status) == expected
      ensures status == if ok then Some(value) else old(status)
    {
      ok := status == expected;
      if ok {
        status := Some(value);
      }
    }

    /** `local_storage_set`: an unconditional write. */
    method Set(value: seq<byte>)
      modifies this
      ensures status == Some(value)
    {
      status := Some(value);
    }
  }

  /**
   * What the host offers the worker; none of these host functions is part of
   * this model, so each is an outcome chosen by the environment.
   */
  datatype Host = Host(
    /** `sr_io::pubkey(CryptoKey::AuthorityKey)`, `None` when it fails. */
    localKey: Option<AuthorityId>,
    /** `sr_io::network_state()`, `None` when it fails. */
    networkState: Option<NetworkState>,
    /** `sr_io::sign(CryptoKey::AuthorityKey, payload)`: raw signature bytes, `None` when it fails. */
    sign: seq<byte> -> Option<seq<byte>>,
    /** Whether `UncheckedExtrinsic::new_unsigned` builds an extrinsic for the call. */
    newUnsigned: Call -> bool,
    /** Whether `sr_io::submit_transaction` accepts the extrinsic of the call. */
    submit: Call -> bool)

  // ---------------------------------------------------------------------------
  // Deciding whether to gossip.

  /**
   * `check_not_yet_gossipped`: the stored status as read, and whether this
   * node still has to gossip. An absent status means "not yet"; a status
   * that does not decode is an error.
   */
  function CheckNotYetGossipped(now: BlockNumber, nextGossip: BlockNumber, lastGossip: Option<seq<byte>>)
    : (r: Result<(Option<seq<byte>>, bool), OffchainErr>)
    ensures lastGossip.None? ==> r == Success((None, true))
    ensures lastGossip.Some? && DecodeStatus(lastGossip.value).None? ==> r == Failure(DecodeWorkerStatus)
    ensures lastGossip.Some? && DecodeStatus(lastGossip.value).Some? ==>
              var s := DecodeStatus(lastGossip.value).value;
              && r.Success? && r.value.0 == lastGossip
              && (r.value.1 <==> (!s.done && s.gossippingAt < now) || (s.done && s.gossippingAt < nextGossip))
  {
    match lastGossip
    case None => Success((None, true))
    case Some(last) =>
      match DecodeStatus(last)
      case None => Failure(DecodeWorkerStatus)
      case Some(workerStatus) =>
        var wasAborted := !workerStatus.done && workerStatus.gossippingAt < now;
        var alreadySubmitting := !workerStatus.done && workerStatus.gossippingAt == now;
        var notYetGossipped := workerStatus.done && workerStatus.gossippingAt < nextGossip;
        Success((Some(last), (wasAborted && !alreadySubmitting) || notYetGossipped))
  }

  /** The situations a stored status can describe at block `now`. */
  datatype GossipState =
    | NeverStarted   // nothing stored
    | InProgress     // claimed at this very block, not done
    | Aborted        // claimed at an earlier block, never finished
    | ClaimedLater   // claimed at a later block than `now`, not done
    | DoneStale      // finished before the current gossip round began
    | DoneCurrent    // finished within the current gossip round

  function Classify(status: Option<WorkerStatus>, now: BlockNumber, nextGossip: BlockNumber): GossipState
  {
    match status
    case None => NeverStarted
    case Some(s) =>
      if !s.done then
        if s.gossippingAt == now then InProgress
        else if s.gossippingAt < now then Aborted
        else ClaimedLater
      else if s.gossippingAt < nextGossip then DoneStale
      else DoneCurrent
  }

  /**
   * The check answers "not yet" exactly for a node that never started, one
   * whose attempt was aborted, and one whose last round is over.
   */
  lemma CheckMatchesClassification(now: BlockNumber, nextGossip: BlockNumber, lastGossip: Option<seq<byte>>)
    requires lastGossip.Some? ==> DecodeStatus(lastGossip.value).Some?
    ensures var state := Classify(if lastGossip.None? then None else DecodeStatus(lastGossip.value), now, nextGossip);
            var r := CheckNotYetGossipped(now, nextGossip, lastGossip);
            r.Success? && (r.value.1 <==> state == NeverStarted || state == Aborted || state == DoneStale)
  {
  }

  /** A node whose status says it is submitting at this block never starts a second attempt. */
  lemma AlreadySubmittingSkips(now: BlockNumber, nextGossip: BlockNumber)
    ensures CheckNotYetGossipped(now, nextGossip, Some(EncodeStatus(WorkerStatus(false, now)))) == Success((Some(EncodeStatus(WorkerStatus(false, now))), false))
  {
    StatusRoundTrip(WorkerStatus(false, now));
  }

  /**
   * When gossip is due and the check says "not yet", the status observed was
   * claimed or finished strictly before `now`: the block the worker is about
   * to store is later than any stored before.
   */
  lemma ProceedingAdvancesStatus(now: BlockNumber, nextGossip: BlockNumber, lastGossip: Option<seq<byte>>)
    requires nextGossip < now
    requires CheckNotYetGossipped(now, nextGossip, lastGossip) == Success((lastGossip, true))
    ensures lastGossip.Some? ==> DecodeStatus(lastGossip.value).Some? && DecodeStatus(lastGossip.value).value.gossippingAt < now
  {
  }

  /**
   * The status a worker writes when it claims the round differs from any
   * status it could have observed before proceeding, so a second worker
   * holding the same observation loses the compare-and-set.
   */
  lemma {:induction false} ClaimDiffersFromObservation(now: BlockNumber, nextGossip: BlockNumber, observed: Option<seq<byte>>, done: bool)
    requires nextGossip < now
    requires CheckNotYetGossipped(now, nextGossip, observed) == Success((observed, true))
    ensures observed != Some(EncodeStatus(WorkerStatus(done, now)))
  {
    if observed == Some(EncodeStatus(WorkerStatus(done, now))) {
      StatusRoundTrip(WorkerStatus(done, now));
      assert false;
    }
  }

  /**
   * A claimed attempt that never finished (`{done: false, gossipping_at: t}`)
   * is retried at any later block once gossip is due.
   */
  lemma AbortedAttemptIsRetried(t: BlockNumber, now: BlockNumber, nextGossip: BlockNumber)
    requires t < now
    ensures var stored := Some(EncodeStatus(WorkerStatus(false, t)));
            CheckNotYetGossipped(now, nextGossip, stored) == Success((stored, true))
  {
    StatusRoundTrip(WorkerStatus(false, t));
  }

  /**
   * A finished round (`{done: true, gossipping_at: t}`) is repeated only once
   * the gossip block has moved past `t`, that is, in a later round.
   */
  lemma FinishedRoundIsNotRepeated(t: BlockNumber, now: BlockNumber, nextGossip: BlockNumber)
    ensures var stored := Some(EncodeStatus(WorkerStatus(true, t)));
            CheckNotYetGossipped(now, nextGossip, stored) == Success((stored, t < nextGossip))
  {
    StatusRoundTrip(WorkerStatus(true, t));
  }

  // ---------------------------------------------------------------------------
  // Building the heartbeat.

  /** The first roster position at or after `from` whose key is one of the local keys. */
  function FirstLocalAuthority(authorities: seq<AuthorityId>, localKeys: seq<AuthorityId>, from: nat): (r: Option<nat>)
    requires from <= |authorities|
    ensures r.Some? ==> from <= r.value < |authorities| && authorities[r.value] in localKeys
    ensures r.Some? ==> forall j :: from <= j < r.value ==> authorities[j] !in localKeys
    ensures r.None? ==> forall j :: from <= j < |authorities| ==> authorities[j] !in localKeys
    decreases |authorities| - from
  {
    if from == |authorities| then None
    else if authorities[from] in localKeys then Some(from)
    else FirstLocalAuthority(authorities, localKeys, from + 1)
  }

  /** The node holds a key and that key has a slot in the roster. */
  predicate HasSlot(keys: seq<AuthorityId>, host: Host)
  {
    host.localKey.Some? && FirstLocalAuthority(keys, [host.localKey.value], 0).Some?
  }

  /** The heartbeat the node signs once it has a roster slot and its network state. */
  function Payload(blockNumber: BlockNumber, keys: seq<AuthorityId>, session: SessionIndex, host: Host): Heartbeat
    requires HasSlot(keys, host) && host.networkState.Some?
  {
    Heartbeat(blockNumber, host.networkState.value, session,
              AsU32(FirstLocalAuthority(keys, [host.localKey.value], 0).value))
  }

  /**
   * The heartbeat call of `do_gossip_at` up to the point of submission: find
   * the node's roster slot, capture the network state, sign the encoded
   * heartbeat, decode the signature and build the unsigned extrinsic.
   * `Success(None)` means the node holds no roster key and skips the round.
   * Each host failure maps to its own error, and a call is built exactly
   * when every host step succeeds.
   */
  function BuildHeartbeatCall(blockNumber: BlockNumber, keys: seq<AuthorityId>, session: SessionIndex, host: Host)
    : (r: Result<Option<Call>, OffchainErr>)
    ensures r == Failure(NoKeys) <==> host.localKey.None?
    ensures r == Success(None) <==> host.localKey.Some? && !HasSlot(keys, host)
    ensures r == Failure(NetworkStateErr) <==> HasSlot(keys, host) && host.networkState.None?
    ensures r == Failure(FailedSigning) <==>
              HasSlot(keys, host) && host.networkState.Some?
              && host.sign(EncodeHeartbeat(Payload(blockNumber, keys, session, host))).None?
    ensures r == Failure(ExtrinsicCreation) <==>
              HasSlot(keys, host) && host.networkState.Some?
              && var h := Payload(blockNumber, keys, session, host);
                 var raw := host.sign(EncodeHeartbeat(h));
                 && raw.Some?
                 && (DecodeSignature(raw.value).None? || !host.newUnsigned(HeartbeatCall(h, DecodeSignature(raw.value).value)))
    ensures r.Success? && r.value.Some? <==>
              HasSlot(keys, host) && host.networkState.Some?
              && var h := Payload(blockNumber, keys, session, host);
                 var raw := host.sign(EncodeHeartbeat(h));
                 && raw.Some? && DecodeSignature(raw.value).Some?
                 && host.newUnsigned(HeartbeatCall(h, DecodeSignature(raw.value).value))
    ensures r.Failure? ==> r.error != DecodeWorkerStatus && r.error != SubmitTransaction
    ensures r.Success? && r.value.Some? ==>
              var c := r.value.value;
              && host.localKey.Some? && host.networkState == Some(c.heartbeat.networkState)
              && c.heartbeat.blockNumber == blockNumber && c.heartbeat.sessionIndex == session
              && FirstLocalAuthority(keys, [host.localKey.value], 0).Some?
              && c.heartbeat.authorityIndex == AsU32(FirstLocalAuthority(keys, [host.localKey.value], 0).value)
              && keys[FirstLocalAuthority(keys, [host.localKey.value], 0).value] == host.localKey.value
              && host.sign(EncodeHeartbeat(c.heartbeat)).Some?
              && DecodeSignature(host.sign(EncodeHeartbeat(c.heartbeat)).value) == Some(c.signature)
              && host.newUnsigned(c)
  {
    match host.localKey
    case None => Failure(NoKeys)
    case Some(key) =>
      match FirstLocalAuthority(keys, [key], 0)
      case None => Success(None)
      case Some(index) =>
        match host.networkState
        case None => Failure(NetworkStateErr)
        case Some(networkState) =>
          var heartbeatData := Heartbeat(blockNumber, networkState, session, AsU32(index));
          match host.sign(EncodeHeartbeat(heartbeatData))
          case None => Failure(FailedSigning)
          case Some(raw) =>
            match DecodeSignature(raw)
            case None => Failure(ExtrinsicCreation)
            case Some(signature) =>
              var call := HeartbeatCall(heartbeatData, signature);
              if host.newUnsigned(call) then Success(Some(call)) else Failure(ExtrinsicCreation)
  }

  /**
   * A heartbeat built by this node passes admission on any ledger that has
   * no heartbeat for its slot yet, provided the verifier accepts the node's
   * own signature and the roster fits `u32` positions.
   */
  lemma {:induction false} BuiltHeartbeatIsAdmissible(
    blockNumber: BlockNumber, keys: seq<AuthorityId>, session: SessionIndex, host: Host,
    received: HeartbeatMap, verify: Verifier)
    requires |keys| < U32
    requires BuildHeartbeatCall(blockNumber, keys, session, host).Success?
    requires BuildHeartbeatCall(blockNumber, keys, session, host).value.Some?
    requires var c := BuildHeartbeatCall(blockNumber, keys, session, host).value.value;
             && !IsOnline(received, session, c.heartbeat.authorityIndex)
             && verify(c.signature, EncodeHeartbeat(c.heartbeat), host.localKey.value)
    ensures var c := BuildHeartbeatCall(blockNumber, keys, session, host).value.value;
            ValidateUnsigned(c, session, keys, received, verify).Valid?
  {
    var c := BuildHeartbeatCall(blockNumber, keys, session, host).value.value;
    var index := FirstLocalAuthority(keys, [host.localKey.value], 0).value;
    assert c.heartbeat.authorityIndex == index;
    assert keys[c.heartbeat.authorityIndex] == host.localKey.value;
  }

  // ---------------------------------------------------------------------------
  // The worker.

  /** `compare_and_set_worker_status`. */
  method CompareAndSetWorkerStatus(store: LocalStore, gossippingAt: BlockNumber, done: bool, currWorkerStatus: Option<seq<byte>>)
    returns (valueSet: bool)
    modifies store
    ensures valueSet <==> old(store.status) == currWorkerStatus
    ensures store.status == if valueSet then Some(EncodeStatus(WorkerStatus(done, gossippingAt))) else old(store.status)
  {
    valueSet := store.CompareAndSet(currWorkerStatus, EncodeStatus(WorkerStatus(done, gossippingAt)));
  }

  /** `set_worker_status`. */
  method SetWorkerStatus(store: LocalStore, gossippingAt: BlockNumber, done: bool)
    modifies store
    ensures store.status == Some(EncodeStatus(WorkerStatus(done, gossippingAt)))
  {
    store.Set(EncodeStatus(WorkerStatus(done, gossippingAt)));
  }

  /**
   * `do_gossip_at`. `sent` is the call that `submit_transaction` accepted.
   * The status is marked done only after an accepted submission; on every
   * earlier failure, and when the node holds no roster key, it is left as
   * it was.
   */
  method DoGossipAt(store: LocalStore, blockNumber: BlockNumber, keys: seq<AuthorityId>, session: SessionIndex, host: Host)
    returns (r: Result<(), OffchainErr>, sent: Option<Call>)
    modifies store
    ensures var built := BuildHeartbeatCall(blockNumber, keys, session, host);
            && (built.Failure? ==> r == Failure(built.error) && sent == None)
            && (built == Success(None) ==> r == Success(()) && sent == None)
            && (built.Success? && built.value.Some? ==>
                  if host.submit(built.value.value) then r == Success(()) && sent == built.value
                  else r == Failure(SubmitTransaction) && sent == None)
    ensures store.status == if sent.Some? then Some(EncodeStatus(WorkerStatus(true, blockNumber))) else old(store.status)
  {
    sent := None;
    var built := BuildHeartbeatCall(blockNumber, keys, session, host);
    if built.Failure? {
      return Failure(built.error), None;
    }
    if built.value.Some? {
      var call := built.value.value;
      if !host.submit(call) {
        return Failure(SubmitTransaction), None;
      }
      sent := Some(call);
      // The heartbeat was submitted: mark the round done without comparing.
      SetWorkerStatus(store, blockNumber, true);
    }
    r := Success(());
  }

  /** Every step of `do_gossip_at` succeeds: a call is built and the host accepts it. */
  predicate Submits(blockNumber: BlockNumber, keys: seq<AuthorityId>, session: SessionIndex, host: Host)
  {
    var built := BuildHeartbeatCall(blockNumber, keys, session, host);
    built.Success? && built.value.Some? && host.submit(built.value.value)
  }

  /**
   * The gossiping branch of `offchain`: claim the round by writing
   * `{done: false, gossipping_at: now}` over the observed status, and gossip
   * only if the claim succeeded. A lost claim means another worker got there
   * first: nothing is written and nothing submitted.
   */
  method ClaimAndGossip(store: LocalStore, now: BlockNumber, currWorkerStatus: Option<seq<byte>>,
                        keys: seq<AuthorityId>, session: SessionIndex, host: Host)
    returns (claimed: bool, sent: Option<Call>)
    modifies store
    ensures claimed <==> old(store.status) == currWorkerStatus
    ensures !claimed ==> store.status == old(store.status) && sent == None
    ensures claimed ==> store.status == Some(EncodeStatus(WorkerStatus(sent.Some?, now)))
    ensures claimed ==> (sent.Some? <==> Submits(now, keys, session, host))
    ensures sent.Some? ==> BuildHeartbeatCall(now, keys, session, host) == Success(sent) && host.submit(sent.value)
  {
    sent := None;
    claimed := CompareAndSetWorkerStatus(store, now, false, currWorkerStatus);
    if !claimed {
      return;
    }
    var result;
    result, sent := DoGossipAt(store, now, keys, session, host);
  }

  /**
   * `offchain(now)`, run after every block: gossip only when the gossip
   * block `GossipAt` lies before `now` and the check says this node has not
   * gossipped yet; a status that does not decode ends the run. `session` is
   * what the session module reports as the current index.
   */
  method Offchain(chain: ImOnline, store: LocalStore, now: BlockNumber, session: SessionIndex, host: Host)
    returns (sent: Option<Call>)
    modifies store
    ensures var check := CheckNotYetGossipped(now, chain.gossipAt, old(store.status));
            var due := check.Success? && chain.gossipAt < now && check.value.1;
            && (!due ==> store.status == old(store.status) && sent == None)
            && (due ==> store.status == Some(EncodeStatus(WorkerStatus(sent.Some?, now))))
            && (due ==> (sent.Some? <==> Submits(now, chain.keys, session, host)))
    ensures sent.Some? ==> BuildHeartbeatCall(now, chain.keys, session, host) == Success(sent) && host.submit(sent.value)
    ensures old(store.status) != store.status && old(store.status).Some? ==>
              && DecodeStatus(old(store.status).value).Some?
              && DecodeStatus(old(store.status).value).value.gossippingAt < now
  {
    sent := None;
    var nextGossip := chain.gossipAt;
    var lastGossip := store.Get();
    var check := CheckNotYetGossipped(now, nextGossip, lastGossip);
    if check.Failure? {
      return;
    }
    var (currWorkerStatus, notYetGossipped) := check.value;
    if nextGossip < now && notYetGossipped {
      ProceedingAdvancesStatus(now, nextGossip, lastGossip);
      var claimed;
      claimed, sent := ClaimAndGossip(store, now, currWorkerStatus, chain.keys, session, host);
    }
  }
}
