/** One end of a raw TCP connection (pkg/faketcp/faketcp_raw.go): handshake, segmentation and the
    sequence and acknowledgement numbers, which wrap at 2^32 (sections 3.3 and 3.4 of RFC 793). */
module TcpConn {
  import opened Bytes

  const FIN: byte := 0x01
  const SYN: byte := 0x02
  const RST: byte := 0x04
  const PSH: byte := 0x08
  const ACK: byte := 0x10
  const MAX_SEGMENT := 1400

  predicate Has(flags: byte, bit: byte)
    requires bit > 0
  {
    flags / bit % 2 == 1
  }

  datatype Seg = Seg(seqNum: u32, ackNum: u32, flags: byte, payload: seq<byte>)

  predicate IsSyn(g: Seg) {
    Has(g.flags, SYN) && !Has(g.flags, ACK)
  }

  predicate IsSynAck(g: Seg) {
    Has(g.flags, SYN) && Has(g.flags, ACK)
  }

  /** Sequence number just behind a segment's payload. */
  function End(g: Seg): u32 {
    Add32(g.seqNum, |g.payload|)
  }

  function PureAck(seqNum: u32, ackNum: u32): Seg {
    Seg(seqNum, ackNum, ACK, [])
  }

  // ----- Writing -----

  function ChunkLen(n: nat): nat {
    if n > MAX_SEGMENT then MAX_SEGMENT else n
  }

  /** The segments of one write: at most 1400 bytes each. */
  function Chunks(seqNum: u32, ackNum: u32, data: seq<byte>): seq<Seg>
    decreases |data|
  {
    if data == [] then []
    else
      var n := ChunkLen(|data|);
      [Seg(seqNum, ackNum, PSH + ACK, data[..n])] + Chunks(Add32(seqNum, n), ackNum, data[n..])
  }

  function Payloads(segs: seq<Seg>): seq<byte> {
    if segs == [] then [] else segs[0].payload + Payloads(segs[1..])
  }

  /** `segs` is a gapless stretch of the byte stream from `from` to `to`; repeated SYNs carry no data. */
  ghost predicate Chain(from: u32, segs: seq<Seg>, to: u32)
    decreases |segs|
  {
    if segs == [] then from == to
    else if IsSyn(segs[0]) then Chain(from, segs[1..], to)
    else segs[0].seqNum == from && Chain(End(segs[0]), segs[1..], to)
  }

  /** Segmentation loses and reorders nothing and numbers the segments without a gap. */
  lemma {:induction false} ChunksAreTheData(seqNum: u32, ackNum: u32, data: seq<byte>)
    ensures Payloads(Chunks(seqNum, ackNum, data)) == data
    ensures Chain(seqNum, Chunks(seqNum, ackNum, data), Add32(seqNum, |data|))
    decreases |data|
  {
    if data != [] {
      var n := ChunkLen(|data|);
      var rest := Chunks(Add32(seqNum, n), ackNum, data[n..]);
      ChunksAreTheData(Add32(seqNum, n), ackNum, data[n..]);
      assert data == data[..n] + data[n..];
      Add32Twice(seqNum, n, |data| - n);
      assert Chunks(seqNum, ackNum, data)[1..] == rest;
    }
  }

  /** Every segment but the last is full: there are no more segments than the data needs. */
  lemma {:induction false} ChunksAreFull(seqNum: u32, ackNum: u32, data: seq<byte>)
    ensures var segs := Chunks(seqNum, ackNum, data);
            && (forall g | g in segs :: 0 < |g.payload| <= MAX_SEGMENT && g.flags == PSH + ACK && g.ackNum == ackNum)
            && (|data| <= |segs| * MAX_SEGMENT < |data| + MAX_SEGMENT)
    decreases |data|
  {
    if data != [] {
      var n := ChunkLen(|data|);
      ChunksAreFull(Add32(seqNum, n), ackNum, data[n..]);
    }
  }

  lemma Add32Twice(x: nat, m: nat, n: nat)
    ensures Add32(Add32(x, m), n) == Add32(x, m + n)
  {
  }

  lemma {:induction false} ChainAppend(from: u32, a: seq<Seg>, mid: u32, b: seq<Seg>, to: u32)
    requires Chain(from, a, mid) && Chain(mid, b, to)
    ensures Chain(from, a + b, to)
    decreases |a|
  {
    if a == [] {
      assert a + b == b;
    } else {
      assert (a + b)[1..] == a[1..] + b;
      ChainAppend(if IsSyn(a[0]) then from else End(a[0]), a[1..], mid, b, to);
    }
  }

  /** Over a gapless stretch, the start plus the payload bytes is the end, modulo 2^32. */
  lemma {:induction false} ChainSum(from: u32, segs: seq<Seg>, to: u32)
    requires Chain(from, segs, to) && forall g | g in segs :: IsSyn(g) ==> g.payload == []
    ensures Add32(from, |Payloads(segs)|) == to
    decreases |segs|
  {
    if segs != [] {
      ChainSum(if IsSyn(segs[0]) then from else End(segs[0]), segs[1..], to);
      Add32Twice(from, |segs[0].payload|, |Payloads(segs[1..])|);
    }
  }

  // ----- The client end -----

  /** A dialling client; `queue` is `recvQueue`, `isn` its initial sequence number. */
  datatype Client = Client(isn: u32, seqNum: u32, ackNum: u32, connected: bool, queue: seq<Seg>)

  function NewClient(isn: u32): Client {
    Client(isn, isn, 0, false, [])
  }

  function Syn(c: Client): Seg {
    Seg(c.seqNum, 0, SYN, [])
  }

  /** `recvLoop` on one packet of the connection; `room` says whether the queue could take it. */
  function ClientHears(c: Client, g: Seg, room: bool): (Client, seq<Seg>) {
    var c1 := if g.payload != [] then c.(ackNum := End(g)) else c;
    var acks := if g.payload != [] && c.connected then [PureAck(c1.seqNum, c1.ackNum)] else [];
    (if room && (!c.connected || g.payload != []) then c1.(queue := c1.queue + [g]) else c1, acks)
  }

  /** A client that is not connected yet answers nothing: what it hears waits for the handshake, if there is room. */
  lemma SilentBeforeConnecting(c: Client, g: Seg, room: bool)
    requires !c.connected
    ensures var (d, sent) := ClientHears(c, g, room);
            && sent == [] && d.queue == (if room then c.queue + [g] else c.queue)
            && d == c.(queue := d.queue, ackNum := d.ackNum)
  {
  }

  /** One turn of the handshake's wait for SYN-ACK. */
  function ClientPolls(c: Client): (Client, seq<Seg>) {
    if c.connected || c.queue == [] then (c, [])
    else if IsSynAck(c.queue[0]) then
      var c1 := c.(seqNum := Add32(c.seqNum, 1), ackNum := Add32(c.queue[0].seqNum, 1), connected := true, queue := []);
      (c1, [PureAck(c1.seqNum, c1.ackNum)])
    else (c.(queue := c.queue[1..]), [])
  }

  /** The handshake completes on a packet with both SYN and ACK, and on no other; others are taken from the queue and
      not answered. */
  lemma CompletesIff(c: Client)
    requires !c.connected
    ensures var (d, sent) := ClientPolls(c);
            var complete := c.queue != [] && c.queue[0].flags / 2 % 2 == 1 && c.queue[0].flags / 16 % 2 == 1;
            && (d.connected <==> complete)
            && (!complete ==> d == c.(queue := d.queue) && sent == [])
            && (!complete && c.queue != [] ==> d.queue == c.queue[1..])
  {
  }

  predicate HasSynAck(c: Client) {
    c.queue != [] && IsSynAck(c.queue[0])
  }

  /** A dialling client whose final acknowledgement could not be sent: both numbers have moved, but it is not open. */
  function Refused(c: Client): (r: Client)
    requires HasSynAck(c)
    ensures !c.connected ==> r == ClientPolls(c).0.(connected := false, queue := c.queue[1..])
  {
    c.(seqNum := Add32(c.seqNum, 1), ackNum := Add32(c.queue[0].seqNum, 1), queue := c.queue[1..])
  }

  // ----- The server end: one peer's entry in the listener -----

  /** `queue` holds the payloads the application has yet to read. */
  datatype Server = NoEntry | Entry(isn: u32, seqNum: u32, ackNum: u32, connected: bool, queue: seq<seq<byte>>)

  const QUEUE_SIZE := 4096

  /** A payload is queued if there is one and the queue is not full; otherwise it is dropped. */
  function Enqueue(queue: seq<seq<byte>>, payload: seq<byte>): seq<seq<byte>> {
    if payload != [] && |queue| < QUEUE_SIZE then queue + [payload] else queue
  }

  /** `acceptLoop` on a packet of this peer that is neither FIN nor RST; `isn` is drawn if a connection starts. */
  function ServerHears(s: Server, g: Seg, isn: u32): (Server, seq<Seg>) {
    if s.NoEntry? then
      if IsSyn(g) then
        (Entry(isn, Add32(isn, 1), Add32(g.seqNum, 1), false, []), [Seg(isn, Add32(g.seqNum, 1), SYN + ACK, [])])
      else (s, [])
    else if !s.connected then
      if Has(g.flags, ACK) && !Has(g.flags, SYN) then
        (s.(connected := true, ackNum := End(g), queue := Enqueue(s.queue, g.payload)), [])
      else (s, [])
    else if g.payload != [] then
      (s.(ackNum := End(g), queue := Enqueue(s.queue, g.payload)), [PureAck(s.seqNum, End(g))])
    else (s, [])
  }

  function ChunkStart(offset: nat, n: nat): (r: nat)
    ensures r <= n
  {
    if offset < n then offset else n
  }

  lemma NextChunk(seqNum: u32, ackNum: u32, data: seq<byte>, offset: nat, end: nat)
    requires offset < |data| && end == offset + ChunkLen(|data| - offset)
    ensures Chunks(seqNum, ackNum, data[offset..])
         == [Seg(seqNum, ackNum, PSH + ACK, data[offset..end])]
             + Chunks(Add32(seqNum, end - offset), ackNum, data[end..])
  {
    var rest := data[offset..];
    assert rest[..end - offset] == data[offset..end] && rest[end - offset..] == data[end..];
  }

  lemma {:induction false} PayloadsAppend(a: seq<Seg>, g: Seg)
    ensures Payloads(a + [g]) == Payloads(a) + g.payload
  {
    if a == [] {
      assert a + [g] == [g] && [g][1..] == [];
    } else {
      PayloadsAppend(a[1..], g);
      assert (a + [g])[1..] == a[1..] + [g];
    }
  }

  lemma OneMore(sent: seq<Seg>, g: Seg, rest: seq<Seg>, all: seq<Seg>)
    requires sent + ([g] + rest) == all
    ensures sent + [g] + rest == all && |all| > |sent| && all[..|sent|] == sent
  {
  }

  lemma SentOneMore(first: u32, sent: seq<Seg>, g: Seg)
    ensures Add32(Add32(first, |Payloads(sent)|), |g.payload|) == Add32(first, |Payloads(sent + [g])|)
  {
    PayloadsAppend(sent, g);
    Add32Twice(first, |Payloads(sent)|, |g.payload|);
  }

  /** The first `offset` bytes are sent, as `sent`, and the sequence number stands behind them. */
  ghost predicate Written(first: u32, ackNum: u32, data: seq<byte>, offset: nat, seqNum: u32, sent: seq<Seg>) {
    && offset <= |data| && sent + Chunks(seqNum, ackNum, data[offset..]) == Chunks(first, ackNum, data)
    && seqNum == Add32(first, |Payloads(sent)|)
  }

  /** The segments that the socket takes. */
  function Taken(all: seq<Seg>, takes: nat): seq<Seg> {
    if |all| <= takes then all else all[..takes]
  }

  lemma WrittenNothing(first: u32, ackNum: u32, data: seq<byte>)
    ensures Written(first, ackNum, data, 0, first, [])
  {
    assert data[0..] == data;
  }

  lemma WrittenAll(first: u32, ackNum: u32, data: seq<byte>, seqNum: u32, sent: seq<Seg>)
    requires Written(first, ackNum, data, |data|, seqNum, sent)
    ensures sent == Chunks(first, ackNum, data) && seqNum == Add32(first, |Payloads(sent)|)
  {
    assert data[|data|..] == [];
  }

  lemma WrittenPart(first: u32, ackNum: u32, data: seq<byte>, offset: nat, seqNum: u32, sent: seq<Seg>)
    requires Written(first, ackNum, data, offset, seqNum, sent) && offset < |data|
    ensures |Chunks(first, ackNum, data)| > |sent| && sent == Taken(Chunks(first, ackNum, data), |sent|)
    ensures seqNum == Add32(first, |Payloads(sent)|)
  {
    var g := Seg(seqNum, ackNum, PSH + ACK, data[offset..offset + ChunkLen(|data| - offset)]);
    var end := offset + ChunkLen(|data| - offset);
    NextChunk(seqNum, ackNum, data, offset, end);
    OneMore(sent, g, Chunks(Add32(seqNum, end - offset), ackNum, data[end..]), Chunks(first, ackNum, data));
  }

  lemma WrittenNext(first: u32, ackNum: u32, data: seq<byte>, offset: nat, seqNum: u32, sent: seq<Seg>)
    requires Written(first, ackNum, data, offset, seqNum, sent) && offset < |data|
    ensures var end := offset + ChunkLen(|data| - offset);
            Written(first, ackNum, data, end, Add32(seqNum, end - offset),
                    sent + [Seg(seqNum, ackNum, PSH + ACK, data[offset..end])])
  {
    var end := offset + ChunkLen(|data| - offset);
    var g := Seg(seqNum, ackNum, PSH + ACK, data[offset..end]);
    NextChunk(seqNum, ackNum, data, offset, end);
    SentOneMore(first, sent, g);
    OneMore(sent, g, Chunks(Add32(seqNum, end - offset), ackNum, data[end..]), Chunks(first, ackNum, data));
  }

  /** The connection object: numbers and a receive queue that change in place. */
  class ConnRaw {
    const isn: u32
    var seqNum: u32
    var ackNum: u32
    var isConnected: bool
    var closed: bool
    var queue: seq<Seg>

    function View(): Client reads this {
      Client(isn, seqNum, ackNum, isConnected, queue)
    }

    constructor (isn: u32)
      ensures View() == NewClient(isn) && !closed
    {
      this.isn := isn;
      seqNum, ackNum, isConnected, closed, queue := isn, 0, false, false, [];
    }

    /** Cuts the data into segments and advances the sequence number past those sent. The socket takes the
        first `takes` segments; a refusal ends the call with an error, and so does a closed connection. */
    method WritePacket(data: seq<byte>, takes: nat) returns (ok: bool, sent: seq<Seg>)
      modifies this`seqNum
      ensures ok <==> !closed && |Chunks(old(seqNum), ackNum, data)| <= takes
      ensures sent == if closed then [] else Taken(Chunks(old(seqNum), ackNum, data), takes)
      ensures seqNum == Add32(old(seqNum), |Payloads(sent)|)
    {
      if closed {
        return false, [];
      }
      sent := [];
      var offset := 0;
      ghost var first := seqNum;
      WrittenNothing(first, ackNum, data);
      while offset < |data|
        invariant 0 <= offset && |sent| <= takes
        invariant Written(first, ackNum, data, ChunkStart(offset, |data|), seqNum, sent)
      {
        if |sent| == takes {
          WrittenPart(first, ackNum, data, offset, seqNum, sent);
          return false, sent;
        }
        sent := WriteSegment(data, offset, sent, first);
        offset := offset + MAX_SEGMENT;
      }
      WrittenAll(first, ackNum, data, seqNum, sent);
      ok := true;
    }

    /** One turn of that loop. */
    method WriteSegment(data: seq<byte>, offset: nat, sent: seq<Seg>, ghost first: u32) returns (more: seq<Seg>)
      requires offset < |data| && Written(first, ackNum, data, offset, seqNum, sent)
      modifies this`seqNum
      ensures |more| == |sent| + 1
      ensures Written(first, ackNum, data, ChunkStart(offset + MAX_SEGMENT, |data|), seqNum, more)
    {
      WrittenNext(first, ackNum, data, offset, seqNum, sent);
      var end := offset + MAX_SEGMENT;
      if end > |data| {
        end := |data|;
      }
      more := sent + [Seg(seqNum, ackNum, PSH + ACK, data[offset..end])];
      seqNum := Add32(seqNum, end - offset);
    }

    /** `recvLoop` on one packet of the connection; `room` says whether the queue can take it. */
    method ReceivePacket(g: Seg, room: bool) returns (acks: seq<Seg>)
      modifies this
      ensures (View(), acks) == ClientHears(old(View()), g, room) && closed == old(closed)
    {
      acks := [];
      if |g.payload| > 0 {
        ackNum := Add32(g.seqNum, |g.payload|);
        if isConnected {
          acks := [PureAck(seqNum, ackNum)];
        }
      }
      if isConnected && |g.payload| == 0 {
        return;
      }
      if room {
        queue := queue + [g];
      }
    }

    /** One turn of the handshake's wait: the oldest packet is taken, a SYN-ACK completes the handshake. If its
        acknowledgement cannot be sent (`sendable`), dialling fails. */
    method PollHandshake(sendable: bool) returns (acks: seq<Seg>, failed: bool)
      requires !isConnected
      modifies this
      ensures closed == old(closed) && (failed <==> !sendable && HasSynAck(old(View())))
      ensures (View(), acks) == if failed then (Refused(old(View())), []) else ClientPolls(old(View()))
    {
      acks, failed := [], false;
      if queue == [] {
        return;
      }
      var g := queue[0];
      queue := queue[1..];
      if Has(g.flags, SYN) && Has(g.flags, ACK) {
        seqNum := Add32(seqNum, 1);
        ackNum := Add32(g.seqNum, 1);
        if !sendable {
          failed := true;
          return;
        }
        acks := [PureAck(seqNum, ackNum)];
        isConnected := true;
        queue := [];
      }
    }
  }
}
