/**
 * Runs of several operations in sequence: a session with one silent
 * authority, a replayed heartbeat, and two off-chain workers racing for the
 * same gossip round.
 */
module Scenarios {
  import opened Types
  import opened Ledger
  import opened Admission
  import opened Worker

  /**
   * A roster of three; the authorities at positions 1 and 2 send heartbeats
   * in session 4, the one at position 0 does not. Then a second heartbeat
   * from position 1 is checked for admission and dispatched anyway. The
   * session ends with position 0 alone reported.
   */
  method SilentAuthorityIsReported(
    a0: AuthorityId, a1: AuthorityId, a2: AuthorityId, state: NetworkState, replayState: NetworkState,
    signature: Signature, verify: Verifier)
    returns (offence: UnresponsivenessOffence, replay: TransactionValidity, recorded: seq<byte>)
    ensures offence == UnresponsivenessOffence(4, 0, 3, [a0])
    ensures replay == Invalid(Stale)
    ensures recorded == state
  {
    var chain := new ImOnline(0, [a0, a1, a2]);
    var r1 := chain.Heartbeat(Unsigned, Heartbeat(10, state, 4, 1), signature, 4);
    var r2 := chain.Heartbeat(Unsigned, Heartbeat(11, state, 4, 2), signature, 4);
    var second := HeartbeatCall(Heartbeat(12, replayState, 4, 1), signature);
    replay := ValidateUnsigned(second, 4, chain.keys, chain.received, verify);
    var r3 := chain.Heartbeat(Unsigned, second.heartbeat, signature, 4);
    recorded := chain.received[(4, 1)];
    chain.OnBeforeSessionEnding(4, 0);
    assert chain.received.Keys == {(4, 1), (4, 2)};
    assert Unresponsive([a0, a1, a2], chain.received, 4, 1) == [a0];
    assert Unresponsive([a0, a1, a2], chain.received, 4, 2) == [a0];
    offence := chain.reported[0];
  }

  /**
   * Two workers run `offchain(now)` on the same node and both read the
   * stored status before either claims the round. When gossip is due, the
   * first claim succeeds and the second fails and submits nothing.
   */
  method RacingWorkers(chain: ImOnline, store: LocalStore, now: BlockNumber, session: SessionIndex, host: Host)
    returns (claimedFirst: bool, claimedSecond: bool, sentSecond: Option<Call>)
    modifies store
    ensures var check := CheckNotYetGossipped(now, chain.gossipAt, old(store.status));
            check.Success? && chain.gossipAt < now && check.value.1 ==>
              claimedFirst && !claimedSecond && sentSecond == None
  {
    claimedFirst, claimedSecond, sentSecond := false, false, None;
    var lastFirst := store.Get();
    var lastSecond := store.Get();
    var checkFirst := CheckNotYetGossipped(now, chain.gossipAt, lastFirst);
    var checkSecond := CheckNotYetGossipped(now, chain.gossipAt, lastSecond);
    if checkFirst.Success? && chain.gossipAt < now && checkFirst.value.1 {
      var sentFirst;
      claimedFirst, sentFirst := ClaimAndGossip(store, now, checkFirst.value.0, chain.keys, session, host);
      ClaimDiffersFromObservation(now, chain.gossipAt, lastSecond, sentFirst.Some?);
      claimedSecond, sentSecond := ClaimAndGossip(store, now, checkSecond.value.0, chain.keys, session, host);
    }
  }
}
