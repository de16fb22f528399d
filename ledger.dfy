/**
 * On-chain state of the pallet and the calls that change it: the
 * `heartbeat` dispatchable and the two session hooks. `ImOnline` holds the
 * pallet's storage items (`GossipAt`, `Keys`, `ReceivedHeartbeats`) together
 * with the events it deposits and the offences it hands to the reporter.
 */
module Ledger {
  import opened Types

  /**
   * `ReceivedHeartbeats`: the double map from (session index, authority
   * index) to the encoded network state carried by the heartbeat.
   */
  type HeartbeatMap = map<(SessionIndex, AuthIndex), seq<byte>>

  /** `exists(session, index)` on `ReceivedHeartbeats`. */
  predicate IsOnline(received: HeartbeatMap, session: SessionIndex, index: AuthIndex)
  {
    (session, index) in received
  }

  /** A heartbeat for `index` is recorded by the dispatch: none yet this session and a roster slot exists. */
  predicate Admits(received: HeartbeatMap, keys: seq<AuthorityId>, session: SessionIndex, index: AuthIndex)
  {
    !IsOnline(received, session, index) && index < |keys|
  }

  /**
   * The first `n` authorities of the roster that have no heartbeat recorded
   * for `session`, in roster order. Positions are cast to `u32` as the source
   * does (`auth_idx as u32`).
   */
  function Unresponsive(keys: seq<AuthorityId>, received: HeartbeatMap, session: SessionIndex, n: nat): (offenders: seq<AuthorityId>)
    requires n <= |keys|
    ensures |offenders| <= n
  {
    if n == 0 then []
    else
      Unresponsive(keys, received, session, n - 1)
      + (if IsOnline(received, session, AsU32(n - 1)) then [] else [keys[n - 1]])
  }

  /** An authority is reported exactly when one of its roster slots has no heartbeat. */
  lemma {:induction false} UnresponsiveMembers(keys: seq<AuthorityId>, received: HeartbeatMap, session: SessionIndex, n: nat, x: AuthorityId)
    requires n <= |keys|
    ensures x in Unresponsive(keys, received, session, n)
        <==> exists i :: 0 <= i < n && keys[i] == x && !IsOnline(received, session, AsU32(i))
  {
    if n > 0 {
      UnresponsiveMembers(keys, received, session, n - 1, x);
      var offline := !IsOnline(received, session, AsU32(n - 1));
      if x in Unresponsive(keys, received, session, n) && !(x in Unresponsive(keys, received, session, n - 1)) {
        assert offline && keys[n - 1] == x;
      }
    }
  }

  /** When every slot has a heartbeat nobody is reported. */
  lemma {:induction false} AllOnlineNoOffenders(keys: seq<AuthorityId>, received: HeartbeatMap, session: SessionIndex, n: nat)
    requires n <= |keys|
    requires forall i :: 0 <= i < n ==> IsOnline(received, session, AsU32(i))
    ensures Unresponsive(keys, received, session, n) == []
  {
    if n > 0 {
      AllOnlineNoOffenders(keys, received, session, n - 1);
    }
  }

  /** When no slot has a heartbeat the whole roster is reported, in roster order. */
  lemma {:induction false} NoneOnlineAllOffenders(keys: seq<AuthorityId>, received: HeartbeatMap, session: SessionIndex, n: nat)
    requires n <= |keys|
    requires forall i :: 0 <= i < n ==> !IsOnline(received, session, AsU32(i))
    ensures Unresponsive(keys, received, session, n) == keys[..n]
  {
    if n > 0 {
      NoneOnlineAllOffenders(keys, received, session, n - 1);
      assert keys[..n] == keys[..n - 1] + [keys[n - 1]];
    }
  }

  /** No authority key occurs twice in the roster. */
  predicate Distinct(keys: seq<AuthorityId>)
  {
    forall i, j :: 0 <= i < j < |keys| ==> keys[i] != keys[j]
  }

  /** The authority keys of the next validators, in iteration order. */
  function AuthorityKeys(validators: seq<(AccountId, AuthorityId)>): (ks: seq<AuthorityId>)
    ensures |ks| == |validators|
    ensures forall i :: 0 <= i < |ks| ==> ks[i] == validators[i].1
  {
    seq(|validators|, i requires 0 <= i < |validators| => validators[i].1)
  }

  /** `ReceivedHeartbeats` with every entry of `session` removed (`remove_prefix`). */
  function RemoveSession(received: HeartbeatMap, session: SessionIndex): (rest: HeartbeatMap)
    ensures forall i :: !IsOnline(rest, session, i)
    ensures forall s, i :: s != session ==> (IsOnline(rest, s, i) <==> IsOnline(received, s, i))
    ensures forall k :: k in rest ==> k in received && rest[k] == received[k]
  {
    map k | k in received && k.0 != session :: received[k]
  }

  class ImOnline {
    /** `GossipAt`: the block at which the off-chain workers should start gossiping. */
    var gossipAt: BlockNumber
    /** `Keys`: the roster of authorities that may issue a heartbeat this session. */
    var keys: seq<AuthorityId>
    /** `ReceivedHeartbeats`. */
    var received: HeartbeatMap
    /** Events deposited so far, oldest first. */
    var events: seq<Event>
    /** Offences handed to `ReportUnresponsivness::report_offence`, oldest first. */
    var reported: seq<UnresponsivenessOffence>

    /** Genesis: `GossipAt` and `Keys` come from the chain configuration. */
    constructor (gossipAt: BlockNumber, keys: seq<AuthorityId>)
      ensures this.gossipAt == gossipAt && this.keys == keys
      ensures received == map[] && events == [] && reported == []
    {
      this.gossipAt := gossipAt;
      this.keys := keys;
      received := map[];
      events := [];
      reported := [];
    }

    /**
     * The `heartbeat` call. Only an unsigned (none) origin may dispatch it.
     * A heartbeat is recorded under `(currentSession, authority_index)`, and
     * `HeartbeatReceived` deposited for the roster key at that index, only
     * when no heartbeat exists for the pair and the index is inside `Keys`;
     * otherwise nothing changes. The signature is not looked at here: the
     * admission check does that before dispatch.
     */
    method Heartbeat(origin: Origin, heartbeat: Heartbeat, signature: Signature, currentSession: SessionIndex)
      returns (r: Result<(), DispatchError>)
      modifies this`received, this`events
      ensures r == if origin == Unsigned then Success(()) else Failure(BadOrigin)
      ensures var i := heartbeat.authorityIndex;
              var recorded := origin == Unsigned && Admits(old(received), keys, currentSession, i);
              && received == (if recorded then old(received)[(currentSession, i) := heartbeat.networkState] else old(received))
              && events == old(events) + (if recorded then [HeartbeatReceived(keys[i])] else [])
      ensures forall k :: k in old(received) ==> k in received && received[k] == old(received)[k]
      ensures IsOnline(received, currentSession, heartbeat.authorityIndex) <==>
              IsOnline(old(received), currentSession, heartbeat.authorityIndex)
              || (origin == Unsigned && heartbeat.authorityIndex < |keys|)
    {
      if origin != Unsigned {
        return Failure(BadOrigin);
      }
      var alreadyReceived := (currentSession, heartbeat.authorityIndex) in received;
      if !alreadyReceived && heartbeat.authorityIndex < |keys| {
        var public := keys[heartbeat.authorityIndex];
        events := events + [HeartbeatReceived(public)];
        received := received[(currentSession, heartbeat.authorityIndex) := heartbeat.networkState];
      }
      r := Success(());
    }

    /**
     * `is_online_in_current_session`: whether a heartbeat is recorded for
     * `authorityIndex` in the current session. An authority whose slot is
     * not online is reported when the session ends; on a roster of distinct
     * keys, exactly those are.
     */
    function IsOnlineInCurrentSession(currentSession: SessionIndex, authorityIndex: AuthIndex): (online: bool)
      reads this
      ensures online <==> IsOnline(received, currentSession, authorityIndex)
      ensures authorityIndex < |keys| < U32 && !online ==>
                keys[authorityIndex] in Unresponsive(keys, received, currentSession, |keys|)
      ensures authorityIndex < |keys| < U32 && Distinct(keys) ==>
                (online <==> keys[authorityIndex] !in Unresponsive(keys, received, currentSession, |keys|))
    {
      var online := IsOnline(received, currentSession, authorityIndex);
      if authorityIndex < |keys| < U32 then
        UnresponsiveMembers(keys, received, currentSession, |keys|, keys[authorityIndex]);
        assert AsU32(authorityIndex as nat) == authorityIndex;
        online
      else
        online
    }

    /**
     * `on_new_session`: drops every heartbeat recorded under the session
     * index the session module reports as current, asks the off-chain
     * workers to gossip from `blockNumber` on, and installs the next
     * validators' authority keys as the roster.
     */
    method OnNewSession(currentSession: SessionIndex, blockNumber: BlockNumber, nextValidators: seq<(AccountId, AuthorityId)>)
      modifies this`received, this`gossipAt, this`keys
      ensures received == RemoveSession(old(received), currentSession)
      ensures forall i :: !IsOnline(received, currentSession, i)
      ensures gossipAt == blockNumber
      ensures keys == AuthorityKeys(nextValidators)
    {
      received := RemoveSession(received, currentSession);
      gossipAt := blockNumber;
      keys := AuthorityKeys(nextValidators);
    }

    /**
     * `on_before_session_ending`: walks the roster in order, collects the
     * authorities without a heartbeat in `currentSession`, and reports one
     * offence with the roster size (cast to `u32`) as validator count.
     */
    method OnBeforeSessionEnding(currentSession: SessionIndex, currentEraStartSessionIndex: u32)
      modifies this`reported
      ensures reported == old(reported) + [UnresponsivenessOffence(
                currentSession, currentEraStartSessionIndex, AsU32(|keys|),
                Unresponsive(keys, received, currentSession, |keys|))]
    {
      var unresponsive: seq<AuthorityId> := [];
      var authIdx := 0;
      while authIdx < |keys|
        invariant 0 <= authIdx <= |keys|
        invariant unresponsive == Unresponsive(keys, received, currentSession, authIdx)
      {
        if (currentSession, AsU32(authIdx)) !in received {
          unresponsive := unresponsive + [keys[authIdx]];
        }
        authIdx := authIdx + 1;
      }
      var offence := UnresponsivenessOffence(
        currentSession, currentEraStartSessionIndex, AsU32(|keys|), unresponsive);
      reported := reported + [offence];
    }
  }
}
