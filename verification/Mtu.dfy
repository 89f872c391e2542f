/** MTU discovery (pkg/tunnel/mtu_discovery.go) and the size budget that keeps every framed FEC shard in one
    raw TCP segment (pkg/tunnel/tunnel.go, pkg/faketcp/faketcp_raw.go). */
module Mtu {
  import opened Bytes
  import Fec
  import FecSessions
  import TcpConn
  import Sealing

  const MIN_MTU := 576
  const MAX_MTU := 1500
  const MAX_ATTEMPTS := 10
  const PROTOCOL_OVERHEAD := 20 + 20 + 1 + 28
  const SAFE_MAX := 1371

  ghost predicate Monotone(probe: int -> bool) {
    forall x: int, y: int | x <= y && probe(y) :: probe(x)
  }

  /** `best` is the largest accepted size in range, or the smallest size if none is accepted. */
  ghost predicate IsBest(probe: int -> bool, best: int) {
    && MIN_MTU <= best <= MAX_MTU
    && (best == MIN_MTU || probe(best))
    && forall m: int | best < m <= MAX_MTU :: !probe(m)
  }

  /** Binary search cut off after ten attempts: ten always suffice. */
  method Search(probe: int -> bool) returns (optimal: int)
    requires Monotone(probe)
    ensures IsBest(probe, optimal)
  {
    var low, high := MIN_MTU, MAX_MTU;
    optimal := MIN_MTU;
    var attempts := 0;
    ghost var room := 1023;  // high - low + 1 stays below a halving bound
    while low <= high && attempts < MAX_ATTEMPTS
      invariant 0 <= attempts <= MAX_ATTEMPTS && MIN_MTU <= low <= high + 1 <= MAX_MTU + 1
      invariant room == Pow2(MAX_ATTEMPTS - attempts) - 1 && high - low + 1 <= room
      invariant MIN_MTU <= optimal <= MAX_MTU && (optimal == MIN_MTU || probe(optimal))
      invariant optimal == low - 1 || (low == MIN_MTU && optimal == MIN_MTU)
      invariant high == MAX_MTU || !probe(high + 1)
      decreases MAX_ATTEMPTS - attempts
    {
      attempts := attempts + 1;
      var testMTU := (low + high) / 2;
      if probe(testMTU) {
        optimal := testMTU;
        low := testMTU + 1;
      } else {
        high := testMTU - 1;
      }
      room := Pow2(MAX_ATTEMPTS - attempts) - 1;
    }
    assert low > high;
  }

  /** The tunnel MTU: the path MTU less protocol overhead, between 500 and 1371. */
  method DiscoverOptimalMTU(probe: int -> bool) returns (safeMTU: int)
    requires Monotone(probe)
    ensures exists best: int ::
              && IsBest(probe, best)
              && safeMTU == if best - PROTOCOL_OVERHEAD > SAFE_MAX then SAFE_MAX else best - PROTOCOL_OVERHEAD
    ensures 507 <= safeMTU <= SAFE_MAX
  {
    var optimal := Search(probe);
    safeMTU := optimal - PROTOCOL_OVERHEAD;
    if safeMTU < 500 {
      safeMTU := 500;
    }
    if safeMTU > SAFE_MAX {
      safeMTU := SAFE_MAX;
    }
  }

  lemma BestIsUnique(probe: int -> bool, x: int, y: int)
    requires Monotone(probe) && IsBest(probe, x) && IsBest(probe, y)
    ensures x == y
  {
    assert x < y ==> !probe(y);
    assert y < x ==> !probe(x);
  }

  /** `NewTunnel` lowers the MTU when a key is set, so that an encrypted packet fits one segment. */
  function AdjustedMTU(mtu: int, keyed: bool): int {
    var maxSafe := TcpConn.MAX_SEGMENT - 1 - Sealing.OVERHEAD;
    if keyed && mtu > maxSafe then maxSafe else mtu
  }

  /** Without a key the MTU stays; with one it is cut to what fits a segment, type byte and encryption included, and
      to nothing less. */
  lemma AdjustedIs(mtu: int, keyed: bool)
    ensures AdjustedMTU(mtu, keyed) <= mtu && (!keyed ==> AdjustedMTU(mtu, keyed) == mtu)
    ensures keyed ==> (AdjustedMTU(mtu, keyed) == mtu <==> mtu + 1 + 28 <= 1400)
    ensures AdjustedMTU(mtu, keyed) < mtu ==> AdjustedMTU(mtu, keyed) + 1 + 28 == 1400
  {
  }

  /** With a key and at least two data shards, every framed shard of a packet within the adjusted MTU fits
      one segment, sealed or passed through. */
  lemma FramedShardFits(c: Fec.Codec, mtu: int, packet: seq<byte>, wire: seq<byte>, h: FecSessions.Header, i: nat)
    requires 0 <= mtu && c.Valid() && c.dataShards >= 2 && c.shardSize == AdjustedMTU(mtu, true) / c.dataShards
    requires |packet| <= AdjustedMTU(mtu, true) && |wire| <= 1 + |packet| + Sealing.OVERHEAD && i < c.Total()
    ensures |FecSessions.Frame(h, Fec.Shards(c, wire)[i])| <= TcpConn.MAX_SEGMENT
  {
    var n := |wire|;
    assert |Fec.Shards(c, wire)[i]| == Fec.ShardSize(c, n);
    HalfFits(n, c.dataShards);
    HalfFits(AdjustedMTU(mtu, true), c.dataShards);
  }

  lemma HalfFits(n: nat, d: nat)
    requires n <= 1400 && d >= 2
    ensures (n + d - 1) / d <= 700 + 1 && n / d <= 700
  {
    DivBound(n + d - 1, d, 701);
    DivBound(n, d, 700);
  }

  lemma DivBound(x: nat, d: nat, b: nat)
    requires d >= 2 && x < (b + 1) * d
    ensures x / d <= b
  {
    var q := x / d;
    assert q * d <= x;
    if q > b {
      Fec.MulMono(b + 1, q, d);
      assert false;
    }
  }

  /** One data shard is too few for the budget: a frame then fits one segment if and only if neither the packet on
      the wire nor the configured shard size exceeds 1387 bytes. */
  lemma OneDataShardFitsIff(c: Fec.Codec, wire: seq<byte>, h: FecSessions.Header, i: nat)
    requires c.Valid() && c.dataShards == 1 && i < c.Total()
    ensures |FecSessions.Frame(h, Fec.Shards(c, wire)[i])| <= TcpConn.MAX_SEGMENT <==>
              |wire| <= 1387 && c.shardSize <= 1387
  {
    assert |Fec.Shards(c, wire)[i]| == Fec.ShardSize(c, |wire|);
  }

  /** At full size the frame has 1413 bytes and is cut in two. */
  lemma OneDataShardIsCut(c: Fec.Codec, packet: seq<byte>, wire: seq<byte>, h: FecSessions.Header, seqNum: u32,
      ackNum: u32)
    requires c.Valid() && c.dataShards == 1 && c.shardSize == SAFE_MAX
    requires |packet| == SAFE_MAX && |wire| == 1 + |packet| + Sealing.OVERHEAD
    ensures var frame := FecSessions.Frame(h, Fec.Shards(c, wire)[0]);
            |frame| == 1413 && |TcpConn.Chunks(seqNum, ackNum, frame)| == 2
  {
    var frame := FecSessions.Frame(h, Fec.Shards(c, wire)[0]);
    OneDataShardFitsIff(c, wire, h, 0);
    assert |Fec.Shards(c, wire)[0]| == Fec.ShardSize(c, |wire|) == 1400;
    TcpConn.ChunksAreFull(seqNum, ackNum, frame);
  }
}
