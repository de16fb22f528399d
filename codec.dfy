/**
 * The parts of the SCALE codec the pallet relies on: fixed-width
 * little-endian integers, the persisted `WorkerStatus`, the signed heartbeat
 * payload, the `provides` tag of an admitted heartbeat and the decoding of a
 * raw signature. Decoding reads a prefix and ignores trailing bytes.
 */
module Codec {
  import opened Types

  function Pow256(n: nat): (r: nat)
    ensures r >= 1
  {
    if n == 0 then 1 else 256 * Pow256(n - 1)
  }

  lemma Pow256Widths()
    ensures Pow256(4) == U32 && Pow256(8) == U64
  {
    assert Pow256(2) == 0x1_0000;
    assert Pow256(4) == 0x1_0000_0000 by { assert Pow256(3) == 0x100_0000; }
    assert Pow256(6) == 0x1_0000_0000_0000 by { assert Pow256(5) == 0x100_0000_0000; }
    assert Pow256(8) == 0x1_0000_0000_0000_0000 by { assert Pow256(7) == 0x100_0000_0000_0000; }
  }

  /** The `n` low-order bytes of `x`, least significant first. */
  function LittleEndian(x: nat, n: nat): (s: seq<byte>)
    ensures |s| == n
  {
    if n == 0 then [] else [x % 256] + LittleEndian(x / 256, n - 1)
  }

  /** The number whose little-endian bytes are `s`; always fits in `|s|` bytes. */
  function FromLittleEndian(s: seq<byte>): (x: nat)
    ensures x < Pow256(|s|)
  {
    if s == [] then 0 else s[0] + 256 * FromLittleEndian(s[1..])
  }

  /** Reading back `n` little-endian bytes of a number that fits gives the number. */
  lemma {:induction false} LittleEndianRoundTrip(x: nat, n: nat)
    requires x < Pow256(n)
    ensures FromLittleEndian(LittleEndian(x, n)) == x
  {
    if n > 0 {
      assert x / 256 < Pow256(n - 1);
      LittleEndianRoundTrip(x / 256, n - 1);
      assert LittleEndian(x, n)[1..] == LittleEndian(x / 256, n - 1);
    }
  }

  function EncodeU32(x: u32): (s: seq<byte>)
    ensures |s| == 4
  {
    LittleEndian(x, 4)
  }

  function EncodeU64(x: u64): (s: seq<byte>)
    ensures |s| == 8
  {
    LittleEndian(x, 8)
  }

  /** Decodes a `u64` from the first eight bytes of `s`. */
  function DecodeU64(s: seq<byte>): (x: u64)
    requires |s| >= 8
    ensures EncodeU64(x) == s[..8]
  {
    Pow256Widths();
    var x := FromLittleEndian(s[..8]);
    LittleEndianInverse(s[..8]);
    x
  }

  /** Encoding the number read from `s` gives back `s`. */
  lemma {:induction false} LittleEndianInverse(s: seq<byte>)
    ensures LittleEndian(FromLittleEndian(s), |s|) == s
  {
    if s != [] {
      var x := FromLittleEndian(s);
      LittleEndianInverse(s[1..]);
      assert x % 256 == s[0] && x / 256 == FromLittleEndian(s[1..]);
    }
  }

  lemma U32RoundTrip(x: u32)
    ensures FromLittleEndian(EncodeU32(x)) == x
  {
    Pow256Widths();
    LittleEndianRoundTrip(x, 4);
  }

  lemma U64RoundTrip(x: u64)
    ensures DecodeU64(EncodeU64(x)) == x
  {
    Pow256Widths();
    LittleEndianRoundTrip(x, 8);
    assert EncodeU64(x)[..8] == EncodeU64(x);
  }

  // ---------------------------------------------------------------------------
  // WorkerStatus { done: bool, gossipping_at: BlockNumber }

  /**
   * SCALE encoding: one byte for `done` (0 or 1), then the block number,
   * which the eight remaining bytes read back as.
   */
  function EncodeStatus(s: WorkerStatus): (bytes: seq<byte>)
    ensures |bytes| == 9
    ensures bytes[0] <= 1 && (bytes[0] == 1 <==> s.done)
    ensures FromLittleEndian(bytes[1..]) == s.gossippingAt
  {
    Pow256Widths();
    LittleEndianRoundTrip(s.gossippingAt, 8);
    var bytes := [if s.done then 1 else 0] + EncodeU64(s.gossippingAt);
    assert bytes[1..] == EncodeU64(s.gossippingAt);
    bytes
  }

  /** Fails on input shorter than nine bytes or a first byte other than 0 or 1. */
  function DecodeStatus(bytes: seq<byte>): (r: Option<WorkerStatus>)
    ensures r.Some? <==> |bytes| >= 9 && bytes[0] <= 1
    ensures r.Some? ==> EncodeStatus(r.value) == bytes[..9]
  {
    if |bytes| < 9 || bytes[0] > 1 then None
    else
      var s := WorkerStatus(bytes[0] == 1, DecodeU64(bytes[1..]));
      assert bytes[1..][..8] == bytes[1..9];
      assert bytes[..9] == [bytes[0]] + bytes[1..9];
      Some(s)
  }

  lemma {:induction false} StatusRoundTrip(s: WorkerStatus)
    ensures DecodeStatus(EncodeStatus(s)) == Some(s)
  {
    var bytes := EncodeStatus(s);
    assert bytes[1..] == EncodeU64(s.gossippingAt);
    U64RoundTrip(s.gossippingAt);
  }

  /** Distinct statuses have distinct encodings. */
  lemma StatusEncodingInjective(a: WorkerStatus, b: WorkerStatus)
    requires EncodeStatus(a) == EncodeStatus(b)
    ensures a == b
  {
    StatusRoundTrip(a);
    StatusRoundTrip(b);
  }

  // ---------------------------------------------------------------------------
  // Heartbeat { block_number, network_state, session_index, authority_index }

  /** The byte string an authority signs: the four fields in declaration order. */
  function EncodeHeartbeat(h: Heartbeat): (bytes: seq<byte>)
    ensures |bytes| == 16 + |h.networkState|
    ensures bytes[..8] == EncodeU64(h.blockNumber)
    ensures bytes[8..|bytes| - 8] == h.networkState
    ensures FromLittleEndian(bytes[|bytes| - 8..|bytes| - 4]) == h.sessionIndex
    ensures FromLittleEndian(bytes[|bytes| - 4..]) == h.authorityIndex
  {
    U32RoundTrip(h.sessionIndex);
    U32RoundTrip(h.authorityIndex);
    EncodeU64(h.blockNumber) + h.networkState + EncodeU32(h.sessionIndex) + EncodeU32(h.authorityIndex)
  }

  /** The signed payload determines the heartbeat: a signature covers every field. */
  lemma {:induction false} HeartbeatEncodingInjective(a: Heartbeat, b: Heartbeat)
    requires EncodeHeartbeat(a) == EncodeHeartbeat(b)
    ensures a == b
  {
    var e := EncodeHeartbeat(a);
    var n := |e|;
    U64RoundTrip(a.blockNumber);
    U64RoundTrip(b.blockNumber);
    assert e[n - 8..n - 4] == EncodeU32(a.sessionIndex) == EncodeU32(b.sessionIndex);
    assert e[n - 4..] == EncodeU32(a.authorityIndex) == EncodeU32(b.authorityIndex);
    U32RoundTrip(a.sessionIndex);
    U32RoundTrip(b.sessionIndex);
    U32RoundTrip(a.authorityIndex);
    U32RoundTrip(b.authorityIndex);
  }

  /** The `provides` tag of an admitted heartbeat: `(session_index, authority_id).encode()`. */
  function EncodeProvidesTag(session: SessionIndex, id: AuthorityId): (tag: seq<byte>)
    ensures |tag| == 4 + |id| && tag[4..] == id
    ensures FromLittleEndian(tag[..4]) == session
  {
    U32RoundTrip(session);
    var tag := EncodeU32(session) + id;
    assert tag[..4] == EncodeU32(session);
    tag
  }

  /** Distinct `(session, authority)` pairs provide distinct tags. */
  lemma ProvidesTagInjective(s1: SessionIndex, a1: AuthorityId, s2: SessionIndex, a2: AuthorityId)
    requires EncodeProvidesTag(s1, a1) == EncodeProvidesTag(s2, a2)
    ensures s1 == s2 && a1 == a2
  {
    var t := EncodeProvidesTag(s1, a1);
    assert FromLittleEndian(t[..4]) == s1 && FromLittleEndian(t[..4]) == s2;
  }

  /** `AuthoritySignature::decode`: a signature is the first 64 bytes. */
  function DecodeSignature(bytes: seq<byte>): (r: Option<Signature>)
    ensures r.Some? <==> |bytes| >= 64
    ensures r.Some? ==> |r.value| == 64 && r.value <= bytes
  {
    if |bytes| < 64 then None else Some(bytes[..64])
  }
}
