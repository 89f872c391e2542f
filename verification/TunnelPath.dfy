/** A data packet end to end: typed, sealed, FEC-encoded, framed and sent as raw TCP packets; then parsed,
    queued, stripped, reassembled and opened (pkg/tunnel/tunnel.go, pkg/faketcp, pkg/rawsocket, pkg/fec). */
module TunnelPath {
  import opened Bytes
  import Fec
  import FecSessions
  import opened FecDelivery
  import Packet
  import TcpConn
  import Classifier
  import Sealing
  import Mtu

  /** Addresses and ports of a connection, from the sender to the receiver. */
  datatype Link = Link(srcIP: Packet.Address, srcPort: u16, dstIP: Packet.Address, dstPort: u16)

  /** Everything the sender has or chooses for one inner packet `ip`: `skip` is its verdict on outer encryption,
      `seqNum` its sequence number before the first frame; `acks` and `options` are the acknowledgement number
      and the TCP options at the time of each frame. */
  datatype Journey = Journey(
    aead: Sealing.Aead, key: string, prev: Option<string>, nonce: seq<byte>, skip: bool,
    ip: seq<byte>, mtu: int, codec: Fec.Codec, peer: string, session: u32,
    link: Link, seqNum: u32, acks: seq<u32>, options: seq<seq<byte>>)

  function Typed(j: Journey): seq<byte> {
    Sealing.Prepend(Sealing.PACKET_TYPE_DATA, j.ip)
  }

  function OnWire(j: Journey): seq<byte> {
    Sealing.Encrypt(j.aead, Some(j.key), j.nonce, Typed(j), j.skip)
  }

  function FlowOf(j: Journey): Flow {
    Flow(j.codec, j.peer, j.session, OnWire(j))
  }

  function FrameOf(j: Journey, i: nat): seq<byte>
    requires j.codec.Valid() && i < j.codec.Total()
  {
    FecSessions.Frame(FecSessions.HeaderFor(j.session, i, j.codec.Total(), |OnWire(j)|),
        Fec.Shards(j.codec, OnWire(j))[i])
  }

  function FramesOf(j: Journey): (frames: seq<seq<byte>>)
    requires j.codec.Valid()
    ensures |frames| == j.codec.Total()
  {
    seq(j.codec.Total(), i requires 0 <= i < j.codec.Total() => FrameOf(j, i))
  }

  /** The premises: a lawful cipher, two or more data shards sized from the adjusted MTU, a packet within it,
      the receiver agreeing with a verdict to skip encryption, and a plaintext that is no ciphertext. */
  ghost predicate Sound(j: Journey) {
    && Sealing.Lawful(j.aead) && |j.nonce| == Sealing.NONCE
    && j.codec.Valid() && j.codec.dataShards >= 2 && j.codec.Total() < 0x1_0000
    && 0 <= j.mtu && j.codec.shardSize == Mtu.AdjustedMTU(j.mtu, true) / j.codec.dataShards
    && |j.ip| <= Mtu.AdjustedMTU(j.mtu, true)
    && (j.skip ==> Classifier.LikelyEncrypted(j.ip))
    && j.aead.open(j.key, Typed(j)).None? && Sealing.Open(j.aead, j.prev, Typed(j)).None?
    && Equipped(j) && forall i | 0 <= i < |j.options| :: |j.options[i]| <= 40
  }

  predicate Equipped(j: Journey) {
    |j.acks| == |j.options| == j.codec.Total()
  }

  // ----- The sending path -----

  function RawSegment(l: Link, g: TcpConn.Seg): Packet.Segment {
    Packet.Segment(l.srcIP, l.srcPort, l.dstIP, l.dstPort, g.seqNum, g.ackNum, g.flags, g.payload)
  }

  /** The raw packets of some TCP segments. */
  function Assembled(l: Link, gs: seq<TcpConn.Seg>, options: seq<byte>): seq<seq<byte>> {
    seq(|gs|, k requires 0 <= k < |gs| => Packet.Assemble(RawSegment(l, gs[k]), options))
  }

  /** Frames to be written one after the other on a connection that stands at `seqNum`. */
  datatype Outgoing = Outgoing(link: Link, seqNum: u32, frames: seq<seq<byte>>, acks: seq<u32>, options: seq<seq<byte>>)
  {
    predicate Valid() {
      |acks| == |options| == |frames|
    }
  }

  /** The sequence number at which frame `i` is sent. */
  function SeqAt(o: Outgoing, i: nat): u32
    requires i <= |o.frames|
  {
    if i == 0 then o.seqNum else Add32(SeqAt(o, i - 1), |o.frames[i - 1]|)
  }

  /** The raw packets of frame `i`. */
  function Burst(o: Outgoing, i: nat): seq<seq<byte>>
    requires o.Valid() && i < |o.frames|
  {
    Assembled(o.link, TcpConn.Chunks(SeqAt(o, i), o.acks[i], o.frames[i]), o.options[i])
  }

  function Bursts(o: Outgoing): seq<seq<seq<byte>>>
    requires o.Valid()
  {
    seq(|o.frames|, i requires 0 <= i < |o.frames| => Burst(o, i))
  }

  /** Everything from burst `i` on, in order. */
  function Flat(bursts: seq<seq<seq<byte>>>, i: nat): seq<seq<byte>>
    requires i <= |bursts|
    decreases |bursts| - i
  {
    if i == |bursts| then [] else bursts[i] + Flat(bursts, i + 1)
  }

  function OutgoingOf(j: Journey): Outgoing
    requires j.codec.Valid()
  {
    Outgoing(j.link, j.seqNum, FramesOf(j), j.acks, j.options)
  }

  /** Everything the sender puts on the network for the inner packet. */
  function Raw(j: Journey): seq<seq<byte>>
    requires j.codec.Valid() && Equipped(j)
  {
    Flat(Bursts(OutgoingOf(j)), 0)
  }

  method SendSegments(l: Link, gs: seq<TcpConn.Seg>, options: seq<byte>) returns (packets: seq<seq<byte>>)
    ensures packets == Assembled(l, gs, options)
  {
    packets := [];
    for k := 0 to |gs|
      invariant packets == Assembled(l, gs[..k], options)
    {
      var packet := Packet.SendPacket(RawSegment(l, gs[k]), options, None, false);
      AssembledNext(l, gs, options, k, packet);
      packets := packets + [packet];
    }
    assert gs[..|gs|] == gs;
  }

  lemma AssembledNext(l: Link, gs: seq<TcpConn.Seg>, options: seq<byte>, k: nat, packet: seq<byte>)
    requires k < |gs| && packet == Packet.Assemble(RawSegment(l, gs[k]), options)
    ensures Assembled(l, gs[..k + 1], options) == Assembled(l, gs[..k], options) + [packet]
  {
  }

  lemma NoMoreChunksThanBytes(seqNum: u32, ackNum: u32, data: seq<byte>)
    ensures |TcpConn.Chunks(seqNum, ackNum, data)| <= |data|
    ensures Add32(seqNum, |TcpConn.Payloads(TcpConn.Chunks(seqNum, ackNum, data))|) == Add32(seqNum, |data|)
  {
    TcpConn.ChunksAreFull(seqNum, ackNum, data);
    TcpConn.ChunksAreTheData(seqNum, ackNum, data);
  }

  /** `netWriter` on one packet: prepend, encrypt, FEC-encode and frame, segment, assemble. */
  method SendInner(j: Journey) returns (packets: seq<seq<byte>>)
    requires j.codec.Valid() && Equipped(j)
    ensures packets == if OnWire(j) == [] then [] else Raw(j)
  {
    var wire := SealInner(j);
    var frames := FrameWire(j, wire);
    if frames.None? {
      return [];
    }
    packets := SendFrames(Outgoing(j.link, j.seqNum, frames.value, j.acks, j.options));
  }

  method SealInner(j: Journey) returns (wire: seq<byte>)
    ensures wire == OnWire(j)
  {
    var buf := new byte[|j.ip| + 1](i requires 0 <= i => if i < |j.ip| then j.ip[i] else 0);
    assert buf[..|j.ip|] == j.ip;
    var len := Sealing.PrependInPlace(buf, |j.ip|, Sealing.PACKET_TYPE_DATA);
    wire := Sealing.Encrypt(j.aead, Some(j.key), j.nonce, buf[..len], j.skip);
  }

  method FrameWire(j: Journey, wire: seq<byte>) returns (frames: Option<seq<seq<byte>>>)
    requires j.codec.Valid() && wire == OnWire(j)
    ensures frames == if wire == [] then None else Some(FramesOf(j))
  {
    var r, _ := FecSessions.SendPacketWithFEC(j.codec, j.session, wire);
    if !r.Ok? {
      return None;
    }
    assert r.value == FramesOf(j);
    return Some(r.value);
  }

  method SendFrames(o: Outgoing) returns (packets: seq<seq<byte>>)
    requires o.Valid()
    ensures packets == Flat(Bursts(o), 0)
  {
    var conn := new TcpConn.ConnRaw(o.seqNum);
    packets := SendAll(o, conn, Bursts(o));
  }

  method SendAll(o: Outgoing, conn: TcpConn.ConnRaw, ghost bursts: seq<seq<seq<byte>>>)
    returns (packets: seq<seq<byte>>)
    requires o.Valid() && !conn.closed && conn.seqNum == o.seqNum && bursts == Bursts(o)
    modifies conn
    ensures packets == Flat(bursts, 0)
  {
    packets := [];
    for i := 0 to |o.frames|
      invariant !conn.closed && conn.seqNum == SeqAt(o, i)
      invariant packets + Flat(bursts, i) == Flat(bursts, 0)
    {
      var raws := SendBurst(o, conn, i, bursts);
      FlatNext(bursts, i, packets, raws);
      packets := packets + raws;
    }
  }

  lemma FlatNext(bursts: seq<seq<seq<byte>>>, i: nat, packets: seq<seq<byte>>, raws: seq<seq<byte>>)
    requires i < |bursts| && raws == bursts[i] && packets + Flat(bursts, i) == Flat(bursts, 0)
    ensures packets + raws + Flat(bursts, i + 1) == Flat(bursts, 0)
  {
    Reassociate(packets, bursts[i], Flat(bursts, i + 1));
  }

  method SendBurst(o: Outgoing, conn: TcpConn.ConnRaw, i: nat, ghost bursts: seq<seq<seq<byte>>>)
    returns (raws: seq<seq<byte>>)
    requires o.Valid() && i < |o.frames| && !conn.closed && conn.seqNum == SeqAt(o, i) && bursts == Bursts(o)
    modifies conn
    ensures raws == bursts[i] && !conn.closed && conn.seqNum == SeqAt(o, i + 1)
  {
    raws := SendFrame(o.link, conn, o.acks[i], o.frames[i], o.options[i]);
  }

  method SendFrame(l: Link, conn: TcpConn.ConnRaw, ackNum: u32, frame: seq<byte>, options: seq<byte>)
    returns (raws: seq<seq<byte>>)
    requires !conn.closed
    modifies conn
    ensures raws == Assembled(l, TcpConn.Chunks(old(conn.seqNum), ackNum, frame), options)
    ensures !conn.closed && conn.seqNum == Add32(old(conn.seqNum), |frame|)
  {
    conn.ackNum := ackNum;
    NoMoreChunksThanBytes(conn.seqNum, ackNum, frame);
    var ok, segments := conn.WritePacket(frame, |frame|);
    raws := SendSegments(l, segments, options);
  }

  lemma Reassociate(a: seq<seq<byte>>, b: seq<seq<byte>>, c: seq<seq<byte>>)
    ensures a + (b + c) == a + b + c
  {
  }

  /** The one segment of frame `i`. */
  function SegmentOf(j: Journey, i: nat): Packet.Segment
    requires j.codec.Valid() && Equipped(j) && i < j.codec.Total()
  {
    var ack := j.acks[i];
    RawSegment(j.link, TcpConn.Seg(SeqAt(OutgoingOf(j), i), ack, TcpConn.PSH + TcpConn.ACK, FrameOf(j, i)))
  }

  lemma OnePacketBurst(j: Journey, i: nat)
    requires Sound(j) && i < j.codec.Total()
    ensures Burst(OutgoingOf(j), i) == [Packet.Assemble(SegmentOf(j, i), j.options[i])]
  {
    OneSegmentPerShard(j, i, SeqAt(OutgoingOf(j), i), j.acks[i]);
  }

  lemma {:induction false} FlatSingles(bursts: seq<seq<seq<byte>>>, i: nat)
    requires i <= |bursts| && forall k | 0 <= k < |bursts| :: |bursts[k]| == 1
    ensures |Flat(bursts, i)| == |bursts| - i
    ensures forall k | i <= k < |bursts| :: Flat(bursts, i)[k - i] == bursts[k][0]
    decreases |bursts| - i
  {
    if i < |bursts| {
      FlatSingles(bursts, i + 1);
    }
  }

  lemma SinglesInOrder(bursts: seq<seq<seq<byte>>>)
    requires forall k | 0 <= k < |bursts| :: |bursts[k]| == 1
    ensures |Flat(bursts, 0)| == |bursts| && forall k | 0 <= k < |bursts| :: Flat(bursts, 0)[k] == bursts[k][0]
  {
    FlatSingles(bursts, 0);
    assert forall k | 0 <= k < |bursts| :: Flat(bursts, 0)[k] == Flat(bursts, 0)[k - 0];
  }

  /** Within the budget each frame travels in one raw packet. */
  lemma {:induction false} OnePacketPerFrame(j: Journey)
    requires Sound(j)
    ensures |Raw(j)| == j.codec.Total()
    ensures forall i | 0 <= i < j.codec.Total() :: Raw(j)[i] == Packet.Assemble(SegmentOf(j, i), j.options[i])
  {
    var o := OutgoingOf(j);
    var bursts := Bursts(o);
    forall i | 0 <= i < |bursts| ensures bursts[i] == [Packet.Assemble(SegmentOf(j, i), j.options[i])] {
      assert bursts[i] == Burst(o, i);
      OnePacketBurst(j, i);
    }
    SinglesInOrder(bursts);
  }

  // ----- The receiving path, from raw packet to inner packet -----

  /** What the network reader makes of a reassembled packet: the payload of a data packet, or nothing. */
  function Inner(j: Journey, o: FecSessions.Outcome): Option<seq<byte>> {
    if !o.Deliver? then None
    else
      var plain := Sealing.Decrypt(j.aead, Some(j.key), j.prev, o.packet);
      if plain.Some? && Sealing.IsData(plain.value) then Some(plain.value[1..]) else None
  }

  /** Nothing but the payload of an opened data packet comes out: other types, and what does not open, do not. */
  lemma OnlyDataComesOut(j: Journey, o: FecSessions.Outcome, ip: seq<byte>)
    ensures Inner(j, o) == Some(ip) <==>
              o.Deliver? && Sealing.Decrypt(j.aead, Some(j.key), j.prev, o.packet) == Some([1] + ip)
  {
    if o.Deliver? {
      var plain := Sealing.Decrypt(j.aead, Some(j.key), j.prev, o.packet);
      if plain.Some? && plain.value != [] {
        assert plain.value == [plain.value[0]] + plain.value[1..];
      }
    }
  }

  /** A raw packet up to the reader: parsed, queued behind a rebuilt header and stripped again. */
  function ReadRaw(raw: seq<byte>, random: u16): Option<seq<byte>> {
    var p := Packet.Parse(raw);
    if p.Bad? then None else Packet.Strip(Packet.QueueEntry(p.segment, random))
  }

  function ReceiveRaw(j: Journey, st: FecSessions.Sessions, raw: seq<byte>, random: u16, now: int)
    : (r: (FecSessions.Sessions, Option<seq<byte>>))
    requires FecSessions.AllShaped(j.codec, st)
    ensures FecSessions.AllShaped(j.codec, r.0)
  {
    var packet := ReadRaw(raw, random);
    if packet.None? || |packet.value| == 0 || packet.value[0] != FecSessions.PACKET_TYPE_FEC_SHARD then (st, None)
    else
      var (st', o) := FecSessions.Receive(j.codec, st, j.peer, packet.value[1..], now);
      (st', Inner(j, o))
  }

  /** One event; `raws` are the sender's raw packets and `random` the checksum drawn for a rebuilt header. */
  function PathStep(j: Journey, raws: seq<seq<byte>>, st: FecSessions.Sessions, e: Event, random: u16)
    : (r: (FecSessions.Sessions, seq<Option<seq<byte>>>))
    requires FecSessions.AllShaped(j.codec, st) && |raws| == j.codec.Total() && Possible(FlowOf(j), e)
    ensures FecSessions.AllShaped(j.codec, r.0)
  {
    match e
    case Arrive(i, now) =>
      var (st', out) := ReceiveRaw(j, st, raws[i], random, now);
      (st', [out])
    case Foreign(peer, pkt, now) => (FecSessions.Receive(j.codec, st, peer, pkt, now).0, [])
    case Tick(now) => (FecSessions.Cleanup(st, now), [])
  }

  /** The process ends in this step: a call for a shard panics. */
  predicate PathCrashes(j: Journey, raws: seq<seq<byte>>, st: FecSessions.Sessions, e: Event, random: u16)
    requires FecSessions.AllShaped(j.codec, st) && |raws| == j.codec.Total() && Possible(FlowOf(j), e)
  {
    match e
    case Arrive(i, now) =>
      var packet := ReadRaw(raws[i], random);
      && packet.Some? && |packet.value| > 0 && packet.value[0] == FecSessions.PACKET_TYPE_FEC_SHARD
      && FecSessions.Receive(j.codec, st, j.peer, packet.value[1..], now).1.Crash?
    case Foreign(peer, pkt, now) => FecSessions.Receive(j.codec, st, peer, pkt, now).1.Crash?
    case Tick(_) => false
  }

  /** What reaches the TUN device on each arrival of the journey's packets. */
  function PathRun(j: Journey, raws: seq<seq<byte>>, st: FecSessions.Sessions, es: seq<Event>, randoms: seq<u16>)
    : seq<Option<seq<byte>>>
    requires FecSessions.AllShaped(j.codec, st) && |raws| == j.codec.Total() && PossibleRun(FlowOf(j), es)
    requires |randoms| == |es|
    decreases |es|
  {
    if es == [] then []
    else
      var (st', outs) := PathStep(j, raws, st, es[0], randoms[0]);
      if PathCrashes(j, raws, st, es[0], randoms[0]) then outs else outs + PathRun(j, raws, st', es[1..], randoms[1..])
  }

  // ----- Correctness -----

  lemma OnWireSize(j: Journey)
    requires Sound(j)
    ensures 0 < |OnWire(j)| <= 1 + |j.ip| + Sealing.OVERHEAD && FlowOf(j).Valid()
  {
    assert |Typed(j)| == 1 + |j.ip|;
  }

  /** Each frame is written as a single segment. */
  lemma {:induction false} OneSegmentPerShard(j: Journey, i: nat, seqNum: u32, ackNum: u32)
    requires Sound(j) && i < j.codec.Total()
    ensures TcpConn.Chunks(seqNum, ackNum, FrameOf(j, i))
        == [TcpConn.Seg(seqNum, ackNum, TcpConn.PSH + TcpConn.ACK, FrameOf(j, i))]
  {
    OnWireSize(j);
    var h := FecSessions.Header(j.session, i, j.codec.Total(), |OnWire(j)|);
    Mtu.FramedShardFits(j.codec, j.mtu, j.ip, OnWire(j), h, i);
    OneChunk(seqNum, ackNum, FrameOf(j, i));
  }

  lemma OneChunk(seqNum: u32, ackNum: u32, data: seq<byte>)
    requires 0 < |data| <= TcpConn.MAX_SEGMENT
    ensures TcpConn.Chunks(seqNum, ackNum, data) == [TcpConn.Seg(seqNum, ackNum, TcpConn.PSH + TcpConn.ACK, data)]
  {
    assert data[..|data|] == data && data[|data|..] == [];
  }

  lemma HeaderFits(j: Journey, i: nat)
    requires Sound(j) && i < j.codec.Total()
    ensures FlowOf(j).Valid()
    ensures FrameOf(j, i)[1..] == FlowOf(j).Wire(i) && FrameOf(j, i)[0] == FecSessions.PACKET_TYPE_FEC_SHARD
  {
    OnWireSize(j);
    FrameIsWire(FlowOf(j), i);
  }

  /** Transport is transparent: the reader gets the frame that was written. */
  lemma {:induction false} FrameArrives(j: Journey, i: nat, random: u16)
    requires Sound(j) && i < j.codec.Total()
    ensures ReadRaw(Packet.Assemble(SegmentOf(j, i), j.options[i]), random) == Some(FrameOf(j, i))
  {
    Packet.TransportRoundTrip(SegmentOf(j, i), j.options[i], random);
  }

  /** What the reader got is the flow's shard `i` behind the type byte of a shard. */
  predicate IsShard(j: Journey, i: nat, packet: Option<seq<byte>>)
    requires FlowOf(j).Valid() && i < j.codec.Total()
  {
    && packet.Some? && |packet.value| > 0 && packet.value[0] == FecSessions.PACKET_TYPE_FEC_SHARD
    && packet.value[1..] == FlowOf(j).Wire(i)
  }

  /** Every raw packet, as read, is the flow's shard behind its type byte. */
  ghost predicate ReadsAsWire(j: Journey, raws: seq<seq<byte>>) {
    && j.codec.Valid() && FlowOf(j).Valid() && |raws| == j.codec.Total()
    && forall i, random: u16 | 0 <= i < |raws| ::
         IsShard(j, i, ReadRaw(raws[i], random))
  }

  /** The sender's packets do. */
  lemma SenderReadsAsWire(j: Journey)
    requires Sound(j)
    ensures ReadsAsWire(j, Raw(j))
  {
    OnWireSize(j);
    OnePacketPerFrame(j);
    forall i, random: u16 | 0 <= i < j.codec.Total() ensures IsShard(j, i, ReadRaw(Raw(j)[i], random)) {
      PacketReads(j, i, random);
    }
  }

  lemma PacketReads(j: Journey, i: nat, random: u16)
    requires Sound(j) && FlowOf(j).Valid() && i < j.codec.Total()
    ensures IsShard(j, i, ReadRaw(Packet.Assemble(SegmentOf(j, i), j.options[i]), random))
  {
    FrameArrives(j, i, random);
    HeaderFits(j, i);
  }

  lemma StepIsFecStep(j: Journey, raws: seq<seq<byte>>, st: FecSessions.Sessions, e: Event, random: u16)
    requires ReadsAsWire(j, raws) && FecSessions.AllShaped(j.codec, st) && Possible(FlowOf(j), e)
    ensures PathStep(j, raws, st, e, random).0 == Step(FlowOf(j), st, e).0
    ensures PathStep(j, raws, st, e, random).1 == Inners(j, Step(FlowOf(j), st, e).1)
    ensures PathCrashes(j, raws, st, e, random) <==> Crashes(FlowOf(j), st, e)
  {
    if e.Arrive? {
      assert IsShard(j, e.index, ReadRaw(raws[e.index], random));
    }
  }

  function Inners(j: Journey, os: seq<FecSessions.Outcome>): seq<Option<seq<byte>>> {
    seq(|os|, i requires 0 <= i < |os| => Inner(j, os[i]))
  }

  lemma InnersConcat(j: Journey, a: seq<FecSessions.Outcome>, b: seq<FecSessions.Outcome>)
    ensures Inners(j, a + b) == Inners(j, a) + Inners(j, b)
  {
  }

  lemma {:induction false} RunIsFecRun(j: Journey, raws: seq<seq<byte>>, st: FecSessions.Sessions, es: seq<Event>,
                                       randoms: seq<u16>, os: seq<FecSessions.Outcome>)
    requires ReadsAsWire(j, raws) && FecSessions.AllShaped(j.codec, st) && PossibleRun(FlowOf(j), es)
    requires |randoms| == |es| && os == Run(FlowOf(j), st, es)
    ensures PathRun(j, raws, st, es, randoms) == Inners(j, os)
    decreases |es|
  {
    if es != [] {
      StepIsFecStep(j, raws, st, es[0], randoms[0]);
      if !Crashes(FlowOf(j), st, es[0]) {
        var st', first := Step(FlowOf(j), st, es[0]).0, Step(FlowOf(j), st, es[0]).1;
        var rest := Run(FlowOf(j), st', es[1..]);
        RunIsFecRun(j, raws, st', es[1..], randoms[1..], rest);
        InnersConcat(j, first, rest);
      }
    }
  }

  /** The reassembled packet opens to the inner packet. */
  lemma OpensToInner(j: Journey)
    requires Sound(j)
    ensures Inner(j, FecSessions.Deliver(OnWire(j))) == Some(j.ip)
  {
    assert Typed(j)[1..] == j.ip;
    Sealing.DecryptInvertsEncrypt(j.aead, j.key, j.prev, j.nonce, Typed(j), j.skip);
  }

  /** End-to-end safety: over every order of arrivals, with repeats, losses, cleanup and other traffic, what
      reaches the TUN device is the original inner packet or nothing. */
  lemma {:induction false} OnlyTheInnerPacket(j: Journey, raws: seq<seq<byte>>, st: FecSessions.Sessions,
      es: seq<Event>,
                                              randoms: seq<u16>)
    requires Sound(j) && raws == Raw(j) && FecSessions.AllShaped(j.codec, st) && FlowOf(j).Key() !in st
    requires PossibleRun(FlowOf(j), es) && |randoms| == |es|
    ensures |raws| == j.codec.Total()
    ensures forall o | o in PathRun(j, raws, st, es, randoms) :: o == None || o == Some(j.ip)
  {
    SenderReadsAsWire(j);
    var os := Run(FlowOf(j), st, es);
    RunIsFecRun(j, raws, st, es, randoms, os);
    OnlyTheOriginalPacket(FlowOf(j), st, es);
    OpensToInner(j);
    InnersAreInner(j, os, OnWire(j));
  }

  lemma InnersAreInner(j: Journey, os: seq<FecSessions.Outcome>, wire: seq<byte>)
    requires Inner(j, FecSessions.Deliver(wire)) == Some(j.ip)
    requires forall o | o in os :: !o.Deliver? || o == FecSessions.Deliver(wire)
    ensures forall x | x in Inners(j, os) :: x == None || x == Some(j.ip)
  {
    forall x | x in Inners(j, os) ensures x == None || x == Some(j.ip) {
      var k :| 0 <= k < |os| && Inners(j, os)[k] == x;
      assert os[k] in os;
    }
  }

  /** End-to-end liveness: if no other session gets shards of different lengths, the original inner packet has
      been delivered once a recoverable set of the packets has arrived, none held longer than the timeout. */
  lemma {:induction false} InnerPacketArrives(j: Journey, raws: seq<seq<byte>>, st: FecSessions.Sessions,
      es: seq<Event>,
                                              randoms: seq<u16>)
    requires Sound(j) && raws == Raw(j) && FecSessions.AllShaped(j.codec, st) && FlowOf(j).Key() !in st
    requires PossibleRun(FlowOf(j), es) && |randoms| == |es|
    requires Enough(j.codec, Arrived(es)) && Timely(es) && EvenTraffic(FlowOf(j), st, es)
    ensures |raws| == j.codec.Total() && Some(j.ip) in PathRun(j, raws, st, es, randoms)
  {
    SenderReadsAsWire(j);
    var os := Run(FlowOf(j), st, es);
    RunIsFecRun(j, raws, st, es, randoms, os);
    EnoughIsDelivered(FlowOf(j), st, es);
    OpensToInner(j);
    DeliveredIsInner(j, os, OnWire(j));
  }

  lemma DeliveredIsInner(j: Journey, os: seq<FecSessions.Outcome>, wire: seq<byte>)
    requires Inner(j, FecSessions.Deliver(wire)) == Some(j.ip) && FecSessions.Deliver(wire) in os
    ensures Some(j.ip) in Inners(j, os)
  {
    var k :| 0 <= k < |os| && os[k] == FecSessions.Deliver(wire);
    assert Inners(j, os)[k] == Some(j.ip);
  }

  // ----- The premises can be met -----

  /** A lawful pair of functions: nonce, sixteen zero bytes, plaintext. */
  function SampleAead(): Sealing.Aead {
    Sealing.Aead(
      (key, nonce, plain) => nonce + Zeros(16) + plain,
      (key, data) => if |data| >= 28 && data[12..28] == Zeros(16) then Some(data[28..]) else None)
  }

  function SampleJourney(): Journey {
    Journey(SampleAead(), "key", None, Zeros(12), false, [0x45] + Zeros(19), 1371, Fec.Codec(2, 1, 685), "peer", 7,
            Link([10, 0, 0, 1], 4000, [10, 0, 0, 2], 443), 100, [5, 5, 5], [[], [], []])
  }

  lemma SampleIsLawful()
    ensures Sealing.Lawful(SampleAead())
  {
    forall key: string, nonce: seq<byte>, plain: seq<byte> | |nonce| == Sealing.NONCE
      ensures var sealed := SampleAead().seal(key, nonce, plain);
              && SampleAead().open(key, sealed) == Some(plain)
              && |sealed| == |plain| + Sealing.OVERHEAD && sealed[..Sealing.NONCE] == nonce
    {
      var sealed := nonce + Zeros(16) + plain;
      assert sealed[12..28] == Zeros(16) && sealed[28..] == plain && sealed[..12] == nonce;
    }
  }

  lemma SampleIsSound()
    ensures Sound(SampleJourney())
  {
    SampleIsLawful();
  }
}
