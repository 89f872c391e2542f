/** Two honest ends of a raw TCP connection on a fresh client port, before any FIN: first over a network
    that drops, reorders and repeats packets at will, then over one that delivers in order without loss. */
module TcpNetwork {
  import opened Bytes
  import opened TcpConn

  // ----- A network without guarantees: whatever was ever sent may arrive at any time, any number of times -----

  datatype Net = Net(client: Client, server: Server, up: set<Seg>, down: set<Seg>)

  datatype Action =
    | SendSyn
    | ClientWrites(data: seq<byte>)
    | ServerWrites(data: seq<byte>)
    | ToClient(seg: Seg, room: bool)
    | Poll
    | ToServer(seg: Seg, isn: u32)

  function Set(s: seq<Seg>): set<Seg> {
    set g | g in s
  }

  predicate Enabled(n: Net, a: Action) {
    match a
    case SendSyn => !n.client.connected
    case ClientWrites(_) => n.client.connected
    case ServerWrites(_) => n.server.Entry? && n.server.connected
    case ToClient(g, _) => g in n.down
    case Poll => true
    case ToServer(g, _) => g in n.up
  }

  function Next(n: Net, a: Action): Net
    requires Enabled(n, a)
  {
    match a
    case SendSyn => n.(up := n.up + {Syn(n.client)})
    case ClientWrites(data) =>
      n.(client := n.client.(seqNum := Add32(n.client.seqNum, |data|)),
         up := n.up + Set(Chunks(n.client.seqNum, n.client.ackNum, data)))
    case ServerWrites(data) =>
      n.(server := n.server.(seqNum := Add32(n.server.seqNum, |data|)),
         down := n.down + Set(Chunks(n.server.seqNum, n.server.ackNum, data)))
    case ToClient(g, room) =>
      var (c, sent) := ClientHears(n.client, g, room);
      n.(client := c, up := n.up + Set(sent))
    case Poll =>
      var (c, sent) := ClientPolls(n.client);
      n.(client := c, up := n.up + Set(sent))
    case ToServer(g, isn) =>
      var (s, sent) := ServerHears(n.server, g, isn);
      n.(server := s, down := n.down + Set(sent))
  }

  ghost predicate Runs(n: Net, acts: seq<Action>)
    decreases |acts|
  {
    acts == [] || (Enabled(n, acts[0]) && Runs(Next(n, acts[0]), acts[1..]))
  }

  ghost function After(n: Net, acts: seq<Action>): Net
    requires Runs(n, acts)
    decreases |acts|
  {
    if acts == [] then n else After(Next(n, acts[0]), acts[1..])
  }

  function Fresh(isn: u32): Net {
    Net(NewClient(isn), NoEntry, {}, {})
  }

  /** `ack` is what a side may acknowledge: the peer's initial number plus one, or the end of a segment with
      data that the peer really sent. */
  ghost predicate Acknowledgeable(ack: u32, isn: u32, sent: set<Seg>) {
    ack == Add32(isn, 1) || exists g | g in sent :: g.payload != [] && ack == End(g)
  }

  ghost predicate IsData(g: Seg) {
    g.flags == PSH + ACK && g.payload != []
  }

  /** What the client has sent: SYNs before it is connected, then acknowledgements and data. A bare
      acknowledgement beyond the handshake's own exists only once the server is connected. */
  ghost predicate UpInv(n: Net) {
    && (forall g | g in n.up ::
          || g == Seg(n.client.isn, 0, SYN, [])
          || (n.client.connected && (IsData(g) || (g.flags == ACK && g.payload == []))))
    && (!(n.server.Entry? && n.server.connected) ==>
          forall g | g in n.up && g.flags == ACK :: g.seqNum == Add32(n.client.isn, 1))
  }

  ghost predicate DownInv(n: Net) {
    && (n.server.NoEntry? ==> n.down == {})
    && (n.server.Entry? ==> forall g | g in n.down ::
          || (g.flags == SYN + ACK && g.payload == [] && g.seqNum == n.server.isn)
          || (n.server.connected && (IsData(g) || (g.flags == ACK && g.payload == []))))
  }

  ghost predicate ClientInv(n: Net) {
    var c := n.client;
    && (!c.connected ==> c.seqNum == c.isn && !(n.server.Entry? && n.server.connected)
                         && (forall g | g in c.queue :: g in n.down))
    && (c.connected ==> n.server.Entry? && Acknowledgeable(c.ackNum, n.server.isn, n.down))
  }

  ghost predicate ServerInv(n: Net) {
    n.server.Entry? ==> Acknowledgeable(n.server.ackNum, n.client.isn, n.up)
  }

  /** Every segment with the ACK flag that was ever sent carries a number its sender may acknowledge. */
  ghost predicate SentAcksInv(n: Net) {
    && (forall g | g in n.up && Has(g.flags, ACK) ::
          n.server.Entry? && Acknowledgeable(g.ackNum, n.server.isn, n.down))
    && (forall g | g in n.down && Has(g.flags, ACK) :: Acknowledgeable(g.ackNum, n.client.isn, n.up))
  }

  ghost predicate Inv(n: Net) {
    UpInv(n) && DownInv(n) && ClientInv(n) && ServerInv(n) && SentAcksInv(n)
  }

  lemma WritesAreData(seqNum: u32, ackNum: u32, data: seq<byte>)
    ensures forall g | g in Set(Chunks(seqNum, ackNum, data)) :: IsData(g) && g.ackNum == ackNum
  {
    ChunksAreFull(seqNum, ackNum, data);
  }

  lemma ToClientKeeps(n: Net, g: Seg, room: bool)
    requires Inv(n) && g in n.down
    ensures Inv(Next(n, ToClient(g, room)))
  {
    var m := Next(n, ToClient(g, room));
    if g.payload != [] {
      assert n.client.connected;
      assert Acknowledgeable(m.client.ackNum, n.server.isn, n.down);
    }
  }

  lemma PollKeeps(n: Net)
    requires Inv(n)
    ensures Inv(Next(n, Poll))
  {
    var c := n.client;
    if !c.connected && c.queue != [] {
      assert c.queue[0] in c.queue;
      assert c.queue[0] in n.down;
    }
  }

  lemma ToServerKeeps(n: Net, g: Seg, isn: u32)
    requires Inv(n) && g in n.up
    ensures Inv(Next(n, ToServer(g, isn)))
  {
    var m := Next(n, ToServer(g, isn));
    if n.server.Entry? && !n.server.connected && g.flags == ACK {
      assert End(g) == g.seqNum;
    }
  }

  lemma StepKeeps(n: Net, a: Action)
    requires Inv(n) && Enabled(n, a)
    ensures Inv(Next(n, a))
  {
    match a
    case SendSyn =>
    case ClientWrites(data) => WritesAreData(n.client.seqNum, n.client.ackNum, data);
    case ServerWrites(data) => WritesAreData(n.server.seqNum, n.server.ackNum, data);
    case ToClient(g, room) => ToClientKeeps(n, g, room);
    case Poll => PollKeeps(n);
    case ToServer(g, isn) => ToServerKeeps(n, g, isn);
  }

  lemma {:induction false} RunKeeps(n: Net, acts: seq<Action>)
    requires Inv(n) && Runs(n, acts)
    ensures Inv(After(n, acts))
    decreases |acts|
  {
    if acts != [] {
      StepKeeps(n, acts[0]);
      RunKeeps(Next(n, acts[0]), acts[1..]);
    }
  }

  /** Over every run of such a network, each connected side acknowledges only the peer's SYN or the end,
      modulo 2^32, of a data segment the peer really sent. */
  lemma OnlySentDataIsAcknowledged(isn: u32, acts: seq<Action>)
    requires Runs(Fresh(isn), acts)
    ensures var n := After(Fresh(isn), acts);
            && (n.client.connected ==> n.server.Entry? && Acknowledgeable(n.client.ackNum, n.server.isn, n.down))
            && (n.server.Entry? && n.server.connected ==>
                  n.client.connected && Acknowledgeable(n.server.ackNum, n.client.isn, n.up))
  {
    RunKeeps(Fresh(isn), acts);
  }

  /** And so does the wire: every segment with the ACK flag that either side ever put on the network, SYN-ACKs and
      data included, carries the peer's initial number plus one or the end of a data segment the peer really sent. */
  lemma EverySentAckIsHonest(isn: u32, acts: seq<Action>)
    requires Runs(Fresh(isn), acts)
    ensures var n := After(Fresh(isn), acts);
            && (forall g | g in n.up && Has(g.flags, ACK) ::
                  n.server.Entry? && Acknowledgeable(g.ackNum, n.server.isn, n.down))
            && (forall g | g in n.down && Has(g.flags, ACK) :: Acknowledgeable(g.ackNum, n.client.isn, n.up))
  {
    RunKeeps(Fresh(isn), acts);
  }
}
