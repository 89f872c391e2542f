/** The same two ends over channels that deliver in order and without loss: what a side has acknowledged
    plus what is in flight towards it is exactly what the peer has sent (section 3.3 of RFC 793). */
module TcpPipe {
  import opened Bytes
  import opened TcpConn

  datatype Pipe = Pipe(client: Client, server: Server, up: seq<Seg>, down: seq<Seg>)

  datatype Action =
    | SendSyn
    | ClientWrites(data: seq<byte>)
    | ServerWrites(data: seq<byte>)
    | ToClient(room: bool)
    | Poll
    | ToServer(isn: u32)

  predicate Enabled(p: Pipe, a: Action) {
    match a
    case SendSyn => !p.client.connected
    case ClientWrites(_) => p.client.connected
    case ServerWrites(_) => p.server.Entry? && p.server.connected
    case ToClient(room) => p.down != [] && (!p.client.connected ==> room)
    case Poll => true
    case ToServer(_) => p.up != []
  }

  function Next(p: Pipe, a: Action): Pipe
    requires Enabled(p, a)
  {
    match a
    case SendSyn => p.(up := p.up + [Syn(p.client)])
    case ClientWrites(data) =>
      p.(client := p.client.(seqNum := Add32(p.client.seqNum, |data|)),
         up := p.up + Chunks(p.client.seqNum, p.client.ackNum, data))
    case ServerWrites(data) =>
      p.(server := p.server.(seqNum := Add32(p.server.seqNum, |data|)),
         down := p.down + Chunks(p.server.seqNum, p.server.ackNum, data))
    case ToClient(room) =>
      var (c, sent) := ClientHears(p.client, p.down[0], room);
      p.(client := c, up := p.up + sent, down := p.down[1..])
    case Poll =>
      var (c, sent) := ClientPolls(p.client);
      p.(client := c, up := p.up + sent)
    case ToServer(isn) =>
      var (s, sent) := ServerHears(p.server, p.up[0], isn);
      p.(server := s, up := p.up[1..], down := p.down + sent)
  }

  ghost predicate Runs(p: Pipe, acts: seq<Action>)
    decreases |acts|
  {
    acts == [] || (Enabled(p, acts[0]) && Runs(Next(p, acts[0]), acts[1..]))
  }

  ghost function After(p: Pipe, acts: seq<Action>): Pipe
    requires Runs(p, acts)
    decreases |acts|
  {
    if acts == [] then p else After(Next(p, acts[0]), acts[1..])
  }

  function Fresh(isn: u32): Pipe {
    Pipe(NewClient(isn), NoEntry, [], [])
  }

  // ----- The phases of a connection -----

  ghost predicate OnlySyns(ch: seq<Seg>, isn: u32) {
    forall i | 0 <= i < |ch| :: ch[i] == Seg(isn, 0, SYN, [])
  }

  /** Repeated SYNs, bare acknowledgements and data. */
  ghost predicate Ordinary(ch: seq<Seg>) {
    forall i | 0 <= i < |ch| ::
      (ch[i].flags == SYN && ch[i].payload == []) || ch[i].flags == ACK || ch[i].flags == PSH + ACK
  }

  ghost predicate Dialling(p: Pipe) {
    && !p.client.connected && p.client.seqNum == p.client.isn && OnlySyns(p.up, p.client.isn)
    && (p.server.NoEntry? ==> p.down == [] && p.client.queue == [])
    && (p.server.Entry? ==>
          && !p.server.connected && p.server.ackNum == Add32(p.client.isn, 1)
              && p.server.seqNum == Add32(p.server.isn, 1)
          && var synAck := Seg(p.server.isn, p.server.ackNum, SYN + ACK, []);
             (p.down == [synAck] && p.client.queue == []) || (p.down == [] && p.client.queue == [synAck]))
  }

  ghost predicate Open(p: Pipe) {
    && p.client.connected && p.server.Entry?
    && Ordinary(p.up) && Chain(p.server.ackNum, p.up, p.client.seqNum)
    && Ordinary(p.down) && Chain(p.client.ackNum, p.down, p.server.seqNum)
    && (!p.server.connected ==> p.down == [])
  }

  ghost predicate Inv(p: Pipe) {
    Dialling(p) || Open(p)
  }

  /** Appending what a side sends at its own sequence number keeps the stretch gapless. */
  lemma SendKeeps(from: u32, ch: seq<Seg>, mid: u32, more: seq<Seg>, to: u32)
    requires Ordinary(ch) && Chain(from, ch, mid) && Ordinary(more) && Chain(mid, more, to)
    ensures Ordinary(ch + more) && Chain(from, ch + more, to)
  {
    ChainAppend(from, ch, mid, more, to);
  }

  lemma WriteKeeps(seqNum: u32, ackNum: u32, data: seq<byte>)
    ensures Ordinary(Chunks(seqNum, ackNum, data))
    ensures Chain(seqNum, Chunks(seqNum, ackNum, data), Add32(seqNum, |data|))
  {
    ChunksAreTheData(seqNum, ackNum, data);
    ChunksAreFull(seqNum, ackNum, data);
  }

  lemma AckKeeps(seqNum: u32, ackNum: u32)
    ensures Chain(seqNum, [PureAck(seqNum, ackNum)], seqNum)
  {
    assert [PureAck(seqNum, ackNum)][1..] == [];
  }

  lemma {:induction false} SynsAreSkipped(from: u32, ch: seq<Seg>, isn: u32)
    requires OnlySyns(ch, isn)
    ensures Chain(from, ch, from)
  {
    if ch != [] {
      SynsAreSkipped(from, ch[1..], isn);
    }
  }

  lemma PollKeeps(p: Pipe)
    requires Inv(p)
    ensures Inv(Next(p, Poll))
  {
    assert p.up + [] == p.up;
    if Dialling(p) && p.client.queue != [] {
      var q := Next(p, Poll);
      var ack := PureAck(q.client.seqNum, q.client.ackNum);
      SynsAreSkipped(p.server.ackNum, p.up, p.client.isn);
      AckKeeps(q.client.seqNum, q.client.ackNum);
      SendKeeps(p.server.ackNum, p.up, p.server.ackNum, [ack], q.client.seqNum);
      assert Open(q);
    }
  }

  lemma ClientHearsSynAck(p: Pipe)
    requires Dialling(p) && p.down != []
    ensures Dialling(Next(p, ToClient(true)))
  {
    assert p.up + [] == p.up && [] + [p.down[0]] == [p.down[0]];
  }

  lemma ClientHearsData(p: Pipe, room: bool)
    requires Open(p) && p.down != [] && p.down[0].payload != []
    ensures Open(Next(p, ToClient(room)))
  {
    var ack := PureAck(p.client.seqNum, End(p.down[0]));
    AckKeeps(p.client.seqNum, End(p.down[0]));
    SendKeeps(p.server.ackNum, p.up, p.client.seqNum, [ack], p.client.seqNum);
  }

  lemma ClientHearsNothing(p: Pipe, room: bool)
    requires Open(p) && p.down != [] && p.down[0].payload == []
    ensures Open(Next(p, ToClient(room)))
  {
    assert p.up + [] == p.up;
  }

  lemma ToClientKeeps(p: Pipe, room: bool)
    requires Inv(p) && Enabled(p, ToClient(room))
    ensures Inv(Next(p, ToClient(room)))
  {
    if Dialling(p) {
      ClientHearsSynAck(p);
    } else if p.down[0].payload != [] {
      ClientHearsData(p, room);
    } else {
      ClientHearsNothing(p, room);
    }
  }

  lemma ServerHearsSyn(p: Pipe, isn: u32)
    requires Dialling(p) && p.up != []
    ensures Dialling(Next(p, ToServer(isn)))
  {
    assert p.up[0] == Seg(p.client.isn, 0, SYN, []);
    assert p.down + [] == p.down;
  }

  lemma ServerHearsData(p: Pipe, isn: u32)
    requires Open(p) && p.up != [] && p.server.connected && p.up[0].payload != []
    ensures Open(Next(p, ToServer(isn)))
  {
    var ack := PureAck(p.server.seqNum, End(p.up[0]));
    AckKeeps(p.server.seqNum, End(p.up[0]));
    SendKeeps(p.client.ackNum, p.down, p.server.seqNum, [ack], p.server.seqNum);
  }

  lemma ServerHearsOther(p: Pipe, isn: u32)
    requires Open(p) && p.up != [] && !(p.server.connected && p.up[0].payload != [])
    ensures Open(Next(p, ToServer(isn)))
  {
    assert p.down + [] == p.down;
  }

  lemma ServerHearsOpen(p: Pipe, isn: u32)
    requires Open(p) && p.up != []
    ensures Open(Next(p, ToServer(isn)))
  {
    if p.server.connected && p.up[0].payload != [] {
      ServerHearsData(p, isn);
    } else {
      ServerHearsOther(p, isn);
    }
  }

  lemma ToServerKeeps(p: Pipe, isn: u32)
    requires Inv(p) && Enabled(p, ToServer(isn))
    ensures Inv(Next(p, ToServer(isn)))
  {
    if Dialling(p) {
      ServerHearsSyn(p, isn);
    } else {
      ServerHearsOpen(p, isn);
    }
  }

  lemma StepKeeps(p: Pipe, a: Action)
    requires Inv(p) && Enabled(p, a)
    ensures Inv(Next(p, a))
  {
    match a
    case SendSyn => assert Dialling(Next(p, a));
    case ClientWrites(data) =>
      WriteKeeps(p.client.seqNum, p.client.ackNum, data);
      SendKeeps(p.server.ackNum, p.up, p.client.seqNum, Chunks(p.client.seqNum, p.client.ackNum, data),
          Add32(p.client.seqNum, |data|));
    case ServerWrites(data) =>
      WriteKeeps(p.server.seqNum, p.server.ackNum, data);
      SendKeeps(p.client.ackNum, p.down, p.server.seqNum, Chunks(p.server.seqNum, p.server.ackNum, data),
          Add32(p.server.seqNum, |data|));
    case ToClient(room) => ToClientKeeps(p, room);
    case Poll => PollKeeps(p);
    case ToServer(isn) => ToServerKeeps(p, isn);
  }

  lemma {:induction false} RunKeeps(p: Pipe, acts: seq<Action>)
    requires Inv(p) && Runs(p, acts)
    ensures Inv(After(p, acts))
    decreases |acts|
  {
    if acts != [] {
      StepKeeps(p, acts[0]);
      RunKeeps(Next(p, acts[0]), acts[1..]);
    }
  }

  /** Over every run with in-order lossless delivery, once the client is connected, each side's
      acknowledgement number plus the payload bytes in flight towards it is the peer's sequence number. */
  lemma AcknowledgedPlusInFlight(isn: u32, acts: seq<Action>)
    requires Runs(Fresh(isn), acts) && After(Fresh(isn), acts).client.connected
    ensures var p := After(Fresh(isn), acts);
            && p.server.Entry?
            && Add32(p.server.ackNum, |Payloads(p.up)|) == p.client.seqNum
            && Add32(p.client.ackNum, |Payloads(p.down)|) == p.server.seqNum
  {
    RunKeeps(Fresh(isn), acts);
    OpenSums(After(Fresh(isn), acts));
  }

  lemma OpenSums(p: Pipe)
    requires Inv(p) && p.client.connected
    ensures p.server.Entry?
    ensures Add32(p.server.ackNum, |Payloads(p.up)|) == p.client.seqNum
    ensures Add32(p.client.ackNum, |Payloads(p.down)|) == p.server.seqNum
  {
    ChainSum(p.server.ackNum, p.up, p.client.seqNum);
    ChainSum(p.client.ackNum, p.down, p.server.seqNum);
  }

  /** Over every run the answers on the wire are exact: a SYN gets a SYN-ACK for the number behind it, that gets the
      handshake's last acknowledgement, data gets its own acknowledgement, and nothing else is answered. */
  lemma {:induction false} RepliesAreExact(isn: u32, acts: seq<Action>, p: Pipe, start: u32, room: bool)
    requires Runs(Fresh(isn), acts) && p == After(Fresh(isn), acts)
    ensures p.up != [] ==> var g, q := p.up[0], Next(p, ToServer(start));
              if p.server.NoEntry? then q.down == p.down + [Seg(start, Add32(isn, 1), SYN + ACK, [])]
              else if p.server.connected && g.payload != [] then
                q.down == p.down + [Seg(p.server.seqNum, (g.seqNum + |g.payload|) % 0x1_0000_0000, ACK, [])]
              else q.down == p.down
    ensures p.client.connected && p.down != [] ==> var g, q := p.down[0], Next(p, ToClient(room));
              if g.payload != [] then
                q.up == p.up + [Seg(p.client.seqNum, (g.seqNum + |g.payload|) % 0x1_0000_0000, ACK, [])]
              else q.up == p.up
    ensures var q := Next(p, Poll);
            if !p.client.connected && p.client.queue != [] then
              p.server.Entry? && q.up == p.up + [Seg(Add32(isn, 1), Add32(p.server.isn, 1), ACK, [])]
            else q.up == p.up
  {
    RunKeeps(Fresh(isn), acts);
    RunKeepsISN(Fresh(isn), acts);
    if p.up != [] {
      ServerAnswers(p, start);
    }
    if p.client.connected && p.down != [] {
      ClientAnswers(p, room);
    }
  }

  lemma {:induction false} RunKeepsISN(p: Pipe, acts: seq<Action>)
    requires Runs(p, acts)
    ensures After(p, acts).client.isn == p.client.isn
    decreases |acts|
  {
    if acts != [] {
      RunKeepsISN(Next(p, acts[0]), acts[1..]);
    }
  }

  lemma ServerAnswers(p: Pipe, start: u32)
    requires Inv(p) && p.up != []
    ensures var g, q := p.up[0], Next(p, ToServer(start));
            if p.server.NoEntry? then q.down == p.down + [Seg(start, Add32(p.client.isn, 1), SYN + ACK, [])]
            else if p.server.connected && g.payload != [] then
              q.down == p.down + [Seg(p.server.seqNum, (g.seqNum + |g.payload|) % 0x1_0000_0000, ACK, [])]
            else q.down == p.down
  {
    var g := p.up[0];
    if p.server.NoEntry? {
      assert g == Seg(p.client.isn, 0, SYN, []);
    }
  }

  lemma ClientAnswers(p: Pipe, room: bool)
    requires p.client.connected && p.down != []
    ensures var g, q := p.down[0], Next(p, ToClient(room));
            if g.payload != [] then
              q.up == p.up + [Seg(p.client.seqNum, (g.seqNum + |g.payload|) % 0x1_0000_0000, ACK, [])]
            else q.up == p.up
  {
  }

  /** So what an acknowledgement on the wire says, plus the payload bytes still in flight, is what the peer has sent. */
  lemma {:induction false} RepliesAreCumulative(isn: u32, acts: seq<Action>, p: Pipe, start: u32, room: bool)
    requires Runs(Fresh(isn), acts) && p == After(Fresh(isn), acts)
    ensures p.up != [] && p.server.Entry? && p.server.connected && p.up[0].payload != [] ==>
              var q := Next(p, ToServer(start));
              q.down != [] && Add32(q.down[|q.down| - 1].ackNum, |Payloads(q.up)|) == p.client.seqNum
    ensures p.down != [] && p.client.connected && p.down[0].payload != [] ==>
              var q := Next(p, ToClient(room));
              && p.server.Entry? && q.up != []
              && Add32(q.up[|q.up| - 1].ackNum, |Payloads(q.down)|) == p.server.seqNum
  {
    RunKeeps(Fresh(isn), acts);
    if p.up != [] && p.server.Entry? && p.server.connected && p.up[0].payload != [] {
      ServerAnswers(p, start);
      ToServerKeeps(p, start);
      OpenSums(Next(p, ToServer(start)));
    }
    if p.down != [] && p.client.connected && p.down[0].payload != [] {
      ClientAnswers(p, room);
      ToClientKeeps(p, room);
      OpenSums(Next(p, ToClient(room)));
    }
  }
}
