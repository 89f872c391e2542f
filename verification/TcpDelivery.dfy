/** Which written bytes reach the two readers of a connection with in-order lossless delivery: the receive queues,
    and the drain of the server's queue by `Accept` (pkg/faketcp/faketcp_raw.go). */
module TcpDelivery {
  import opened Bytes
  import opened TcpConn
  import TcpPipe

  /** A payload that arrived and was acknowledged; `kept` says that the receive queue took it. */
  datatype Arrival = Arrival(payload: seq<byte>, kept: bool)

  /** One direction: what was written, what has arrived, what has been read. */
  datatype Flow = Flow(written: seq<byte>, arrived: seq<Arrival>, read: seq<byte>)

  /** `early` is what arrived at the server before `Accept`; `up` counts from then on. */
  datatype State = State(pipe: TcpPipe.Pipe, accepted: bool, early: seq<Arrival>, up: Flow, down: Flow)

  datatype Action =
    | Net(a: TcpPipe.Action)
    | Accept
    | ServerReads
    | ClientReads

  function Fresh(isn: u32): State {
    State(TcpPipe.Fresh(isn), false, [], Flow([], [], []), Flow([], [], []))
  }

  predicate Enabled(d: State, a: Action) {
    match a
    case Net(b) => TcpPipe.Enabled(d.pipe, b)
    case Accept => !d.accepted && d.pipe.server.Entry? && d.pipe.server.connected
    case ServerReads => d.accepted && d.pipe.server.Entry? && d.pipe.server.queue != []
    case ClientReads => d.pipe.client.connected && d.pipe.client.queue != []
  }

  function Arrived(items: seq<Arrival>, payload: seq<byte>, kept: bool): seq<Arrival> {
    if payload == [] then items else items + [Arrival(payload, kept)]
  }

  function AtServer(d: State): State
    requires d.pipe.up != []
  {
    var g := d.pipe.up[0];
    var kept := d.pipe.server.Entry? && |d.pipe.server.queue| < QUEUE_SIZE;
    if d.accepted then d.(up := d.up.(arrived := Arrived(d.up.arrived, g.payload, kept)))
    else d.(early := Arrived(d.early, g.payload, kept))
  }

  function Noted(d: State, a: TcpPipe.Action): State
    requires TcpPipe.Enabled(d.pipe, a)
  {
    match a
    case ClientWrites(data) => d.(up := d.up.(written := d.up.written + data))
    case ServerWrites(data) => d.(down := d.down.(written := d.down.written + data))
    case ToServer(_) => AtServer(d)
    case ToClient(room) => d.(down := d.down.(arrived := Arrived(d.down.arrived, d.pipe.down[0].payload, room)))
    case _ => d
  }

  function WithQueue(p: TcpPipe.Pipe, queue: seq<seq<byte>>): TcpPipe.Pipe
    requires p.server.Entry?
  {
    p.(server := p.server.(queue := queue))
  }

  function Next(d: State, a: Action): State
    requires Enabled(d, a)
  {
    match a
    case Net(b) => Noted(d, b).(pipe := TcpPipe.Next(d.pipe, b))
    case Accept => d.(pipe := WithQueue(d.pipe, []), accepted := true)
    case ServerReads =>
      var queue := d.pipe.server.queue;
      d.(pipe := WithQueue(d.pipe, queue[1..]), up := d.up.(read := d.up.read + queue[0]))
    case ClientReads =>
      var queue := d.pipe.client.queue;
      d.(pipe := d.pipe.(client := d.pipe.client.(queue := queue[1..])),
         down := d.down.(read := d.down.read + queue[0].payload))
  }

  ghost predicate Runs(d: State, acts: seq<Action>)
    decreases |acts|
  {
    acts == [] || (Enabled(d, acts[0]) && Runs(Next(d, acts[0]), acts[1..]))
  }

  ghost function After(d: State, acts: seq<Action>): State
    requires Runs(d, acts)
    decreases |acts|
  {
    if acts == [] then d else After(Next(d, acts[0]), acts[1..])
  }

  // ----- Bytes -----

  /** The bytes of all arrivals, and of those kept. */
  function All(items: seq<Arrival>): seq<byte> {
    if items == [] then [] else All(items[..|items| - 1]) + items[|items| - 1].payload
  }

  function Kept(items: seq<Arrival>): seq<byte> {
    if items == [] then []
    else if items[|items| - 1].kept then Kept(items[..|items| - 1]) + items[|items| - 1].payload
    else Kept(items[..|items| - 1])
  }

  function Joined(queue: seq<seq<byte>>): seq<byte> {
    if queue == [] then [] else queue[0] + Joined(queue[1..])
  }

  lemma {:induction false} JoinedAppend(queue: seq<seq<byte>>, payload: seq<byte>)
    ensures Joined(queue + [payload]) == Joined(queue) + payload
  {
    if queue == [] {
      assert queue + [payload] == [payload] && [payload][1..] == [];
    } else {
      assert (queue + [payload])[1..] == queue[1..] + [payload];
      JoinedAppend(queue[1..], payload);
    }
  }

  lemma {:induction false} PayloadsConcat(a: seq<Seg>, b: seq<Seg>)
    ensures Payloads(a + b) == Payloads(a) + Payloads(b)
  {
    if a == [] {
      assert a + b == b;
    } else {
      assert (a + b)[1..] == a[1..] + b;
      PayloadsConcat(a[1..], b);
    }
  }

  lemma NoteArrival(items: seq<Arrival>, payload: seq<byte>, kept: bool)
    ensures All(Arrived(items, payload, kept)) == All(items) + payload
    ensures Kept(Arrived(items, payload, kept)) == if kept then Kept(items) + payload else Kept(items)
  {
    if payload != [] {
      assert (items + [Arrival(payload, kept)])[..|items|] == items;
    }
  }

  lemma Bare(segs: seq<Seg>)
    requires |segs| <= 1 && forall i | 0 <= i < |segs| :: segs[i].payload == []
    ensures Payloads(segs) == []
  {
    assert segs == [] || segs[1..] == [];
  }

  // ----- The invariant -----

  ghost predicate NonEmpty(items: seq<Arrival>) {
    forall i | 0 <= i < |items| :: items[i].payload != []
  }

  /** Written is arrived plus in flight; before `Accept` the queue is what was kept, after it what was kept since
      then and is not yet read. */
  ghost predicate UpOk(accepted: bool, early: seq<Arrival>, f: Flow, inFlight: seq<byte>, s: Server) {
    && NonEmpty(early) && NonEmpty(f.arrived)
    && f.written == All(early) + All(f.arrived) + inFlight
    && (!accepted ==> f.arrived == [] && f.read == [])
    && (accepted ==> s.Entry? && s.connected)
    && (s.NoEntry? ==> early == [])
    && (s.Entry? ==> f.read + Joined(s.queue) == if accepted then Kept(f.arrived) else Kept(early))
  }

  ghost predicate DownOk(f: Flow, inFlight: seq<byte>, c: Client) {
    && NonEmpty(f.arrived)
    && f.written == All(f.arrived) + inFlight
    && (if c.connected then f.read + Payloads(c.queue) == Kept(f.arrived) else f.read == [] && f.arrived == [])
  }

  ghost predicate UpInv(d: State) {
    UpOk(d.accepted, d.early, d.up, Payloads(d.pipe.up), d.pipe.server)
  }

  ghost predicate DownInv(d: State) {
    DownOk(d.down, Payloads(d.pipe.down), d.pipe.client)
  }

  ghost predicate Inv(d: State) {
    TcpPipe.Inv(d.pipe) && UpInv(d) && DownInv(d)
  }

  // ----- Steps -----

  /** What the client sends on its own account carries no data. */
  lemma UpBare(d: State, a: TcpPipe.Action)
    requires TcpPipe.Enabled(d.pipe, a) && (a.SendSyn? || a.Poll? || a.ToClient?)
    ensures Payloads(TcpPipe.Next(d.pipe, a).up) == Payloads(d.pipe.up)
    ensures TcpPipe.Next(d.pipe, a).server == d.pipe.server
  {
    var sent := match a
      case SendSyn => [Syn(d.pipe.client)]
      case Poll => ClientPolls(d.pipe.client).1
      case ToClient(room) => ClientHears(d.pipe.client, d.pipe.down[0], room).1;
    Bare(sent);
    PayloadsConcat(d.pipe.up, sent);
  }

  lemma UpWrites(d: State, data: seq<byte>)
    requires TcpPipe.Enabled(d.pipe, TcpPipe.ClientWrites(data))
    ensures Payloads(TcpPipe.Next(d.pipe, TcpPipe.ClientWrites(data)).up) == Payloads(d.pipe.up) + data
  {
    var c := d.pipe.client;
    ChunksAreTheData(c.seqNum, c.ackNum, data);
    PayloadsConcat(d.pipe.up, Chunks(c.seqNum, c.ackNum, data));
  }

  /** What happens to the server's entry when a segment with `payload` reaches it. */
  predicate Takes(s: Server, t: Server, payload: seq<byte>) {
    && (payload != [] ==> s.Entry?)
    && (s.Entry? ==> t.Entry? && t.queue == Enqueue(s.queue, payload) && (s.connected ==> t.connected))
    && (t.Entry? && s.NoEntry? ==> t.queue == [])
  }

  /** Whatever carries data finds the server ready to queue it. */
  lemma ServerTakes(p: TcpPipe.Pipe, isn: u32)
    requires TcpPipe.Inv(p) && p.up != []
    ensures Takes(p.server, TcpPipe.Next(p, TcpPipe.ToServer(isn)).server, p.up[0].payload)
  {
    if TcpPipe.Dialling(p) {
      assert p.up[0] == Seg(p.client.isn, 0, SYN, []);
    }
  }

  lemma QueueTakes(s: Server, t: Server, payload: seq<byte>, kept: bool)
    requires s.Entry? && Takes(s, t, payload) && kept == (|s.queue| < QUEUE_SIZE)
    ensures t.Entry? && Joined(t.queue) == if kept then Joined(s.queue) + payload else Joined(s.queue)
  {
    JoinedAppend(s.queue, payload);
  }

  lemma UpTakesLate(early: seq<Arrival>, f: Flow, payload: seq<byte>, rest: seq<byte>, s: Server, t: Server, kept: bool)
    requires UpOk(true, early, f, payload + rest, s) && Takes(s, t, payload) && kept == (|s.queue| < QUEUE_SIZE)
    ensures UpOk(true, early, f.(arrived := Arrived(f.arrived, payload, kept)), rest, t)
  {
    QueueTakes(s, t, payload, kept);
    UpNotesLate(early, f, payload, rest, s, t, kept);
  }

  lemma UpNotesLate(early: seq<Arrival>, f: Flow, payload: seq<byte>, rest: seq<byte>, s: Server, t: Server, kept: bool)
    requires UpOk(true, early, f, payload + rest, s) && t.Entry? && t.connected
    requires Joined(t.queue) == if kept then Joined(s.queue) + payload else Joined(s.queue)
    ensures UpOk(true, early, f.(arrived := Arrived(f.arrived, payload, kept)), rest, t)
  {
    NoteArrival(f.arrived, payload, kept);
    ArrivedIsNonEmpty(f.arrived, payload, kept);
    Regroup(All(early), All(f.arrived), payload, rest);
    Appended(f.read, Joined(s.queue), payload);
  }

  lemma UpTakesEarly(early: seq<Arrival>, f: Flow, payload: seq<byte>, rest: seq<byte>, s: Server, t: Server,
                     kept: bool)
    requires UpOk(false, early, f, payload + rest, s) && Takes(s, t, payload)
    requires kept == (s.Entry? && |s.queue| < QUEUE_SIZE)
    ensures UpOk(false, Arrived(early, payload, kept), f, rest, t)
  {
    if s.Entry? {
      QueueTakes(s, t, payload, kept);
      UpNotes(early, f, payload, rest, s, t, kept);
    } else {
      assert payload + rest == rest;
    }
  }

  lemma UpNotes(early: seq<Arrival>, f: Flow, payload: seq<byte>, rest: seq<byte>, s: Server, t: Server, kept: bool)
    requires UpOk(false, early, f, payload + rest, s) && s.Entry? && t.Entry?
    requires Joined(t.queue) == if kept then Joined(s.queue) + payload else Joined(s.queue)
    ensures UpOk(false, Arrived(early, payload, kept), f, rest, t)
  {
    NoteArrival(early, payload, kept);
    ArrivedIsNonEmpty(early, payload, kept);
    RegroupEarly(All(early), All(f.arrived), payload, rest);
    assert f.read == [] && [] + Joined(t.queue) == Joined(t.queue) && [] + Joined(s.queue) == Joined(s.queue);
  }

  lemma ArrivedIsNonEmpty(items: seq<Arrival>, payload: seq<byte>, kept: bool)
    requires NonEmpty(items)
    ensures NonEmpty(Arrived(items, payload, kept))
  {
  }

  lemma RegroupEarly(a: seq<byte>, b: seq<byte>, c: seq<byte>, d: seq<byte>)
    requires b == []
    ensures a + b + (c + d) == a + c + b + d
  {
  }

  lemma Appended(a: seq<byte>, b: seq<byte>, c: seq<byte>)
    ensures a + (b + c) == a + b + c
  {
  }

  lemma Regroup(a: seq<byte>, b: seq<byte>, c: seq<byte>, d: seq<byte>)
    ensures a + b + (c + d) == a + (b + c) + d
  {
  }

  lemma UpArrives(d: State, isn: u32)
    requires Inv(d) && d.pipe.up != []
    ensures UpInv(Next(d, Net(TcpPipe.ToServer(isn))))
  {
    var t := TcpPipe.Next(d.pipe, TcpPipe.ToServer(isn)).server;
    var kept := d.pipe.server.Entry? && |d.pipe.server.queue| < QUEUE_SIZE;
    ServerTakes(d.pipe, isn);
    if d.accepted {
      UpTakesLate(d.early, d.up, d.pipe.up[0].payload, Payloads(d.pipe.up[1..]), d.pipe.server, t, kept);
    } else {
      UpTakesEarly(d.early, d.up, d.pipe.up[0].payload, Payloads(d.pipe.up[1..]), d.pipe.server, t, kept);
    }
  }

  lemma UpGrows(accepted: bool, early: seq<Arrival>, f: Flow, inFlight: seq<byte>, s: Server, data: seq<byte>)
    requires UpOk(accepted, early, f, inFlight, s)
    ensures UpOk(accepted, early, f.(written := f.written + data), inFlight + data, s)
  {
    assert All(early) + All(f.arrived) + inFlight + data == All(early) + All(f.arrived) + (inFlight + data);
  }

  lemma UpWritten(d: State, data: seq<byte>)
    requires Inv(d) && TcpPipe.Enabled(d.pipe, TcpPipe.ClientWrites(data))
    ensures UpInv(Next(d, Net(TcpPipe.ClientWrites(data))))
  {
    UpWrites(d, data);
    UpGrows(d.accepted, d.early, d.up, Payloads(d.pipe.up), d.pipe.server, data);
  }

  lemma UpSame(d: State, a: TcpPipe.Action)
    requires Inv(d) && TcpPipe.Enabled(d.pipe, a) && !a.ClientWrites? && !a.ToServer?
    ensures UpInv(Next(d, Net(a)))
  {
    if !a.ServerWrites? {
      UpBare(d, a);
    }
  }

  lemma UpKeeps(d: State, a: TcpPipe.Action)
    requires Inv(d) && TcpPipe.Enabled(d.pipe, a)
    ensures UpInv(Next(d, Net(a)))
  {
    match a
    case ClientWrites(data) => UpWritten(d, data);
    case ToServer(isn) => UpArrives(d, isn);
    case _ => UpSame(d, a);
  }

  lemma DownWrites(d: State, data: seq<byte>)
    requires TcpPipe.Enabled(d.pipe, TcpPipe.ServerWrites(data))
    ensures Payloads(TcpPipe.Next(d.pipe, TcpPipe.ServerWrites(data)).down) == Payloads(d.pipe.down) + data
  {
    var s := d.pipe.server;
    ChunksAreTheData(s.seqNum, s.ackNum, data);
    PayloadsConcat(d.pipe.down, Chunks(s.seqNum, s.ackNum, data));
  }

  lemma DownBare(d: State, isn: u32)
    requires d.pipe.up != []
    ensures Payloads(TcpPipe.Next(d.pipe, TcpPipe.ToServer(isn)).down) == Payloads(d.pipe.down)
  {
    var sent := ServerHears(d.pipe.server, d.pipe.up[0], isn).1;
    Bare(sent);
    PayloadsConcat(d.pipe.down, sent);
  }

  lemma DownTakes(f: Flow, g: Seg, rest: seq<byte>, c: Client, room: bool)
    requires DownOk(f, g.payload + rest, c) && (!c.connected ==> g.payload == [])
    ensures DownOk(f.(arrived := Arrived(f.arrived, g.payload, room)), rest, ClientHears(c, g, room).0)
  {
    var d := ClientHears(c, g, room).0;
    PayloadsAppend(c.queue, g);
    assert c.connected ==> Payloads(d.queue) == if room then Payloads(c.queue) + g.payload else Payloads(c.queue);
    DownNotes(f, g.payload, rest, c, d, room);
  }

  lemma DownNotes(f: Flow, payload: seq<byte>, rest: seq<byte>, c: Client, d: Client, kept: bool)
    requires DownOk(f, payload + rest, c) && (!c.connected ==> payload == []) && d.connected == c.connected
    requires c.connected ==> Payloads(d.queue) == if kept then Payloads(c.queue) + payload else Payloads(c.queue)
    ensures DownOk(f.(arrived := Arrived(f.arrived, payload, kept)), rest, d)
  {
    NoteArrival(f.arrived, payload, kept);
    ArrivedIsNonEmpty(f.arrived, payload, kept);
    Appended(All(f.arrived), payload, rest);
    Appended(f.read, Payloads(c.queue), payload);
  }

  lemma DownArrives(d: State, room: bool)
    requires Inv(d) && TcpPipe.Enabled(d.pipe, TcpPipe.ToClient(room))
    ensures DownInv(Next(d, Net(TcpPipe.ToClient(room))))
  {
    DownTakes(d.down, d.pipe.down[0], Payloads(d.pipe.down[1..]), d.pipe.client, room);
  }

  lemma DownGrows(f: Flow, inFlight: seq<byte>, c: Client, data: seq<byte>)
    requires DownOk(f, inFlight, c)
    ensures DownOk(f.(written := f.written + data), inFlight + data, c)
  {
    assert All(f.arrived) + inFlight + data == All(f.arrived) + (inFlight + data);
  }

  lemma DownWritten(d: State, data: seq<byte>)
    requires Inv(d) && TcpPipe.Enabled(d.pipe, TcpPipe.ServerWrites(data))
    ensures DownInv(Next(d, Net(TcpPipe.ServerWrites(data))))
  {
    DownWrites(d, data);
    DownGrows(d.down, Payloads(d.pipe.down), d.pipe.client, data);
  }

  lemma DownHears(d: State, isn: u32)
    requires Inv(d) && d.pipe.up != []
    ensures DownInv(Next(d, Net(TcpPipe.ToServer(isn))))
  {
    DownBare(d, isn);
  }

  lemma DownSame(d: State, a: TcpPipe.Action)
    requires Inv(d) && TcpPipe.Enabled(d.pipe, a) && (a.SendSyn? || a.ClientWrites? || a.Poll?)
    ensures DownInv(Next(d, Net(a)))
  {
  }

  lemma DownKeeps(d: State, a: TcpPipe.Action)
    requires Inv(d) && TcpPipe.Enabled(d.pipe, a)
    ensures DownInv(Next(d, Net(a)))
  {
    match a
    case ServerWrites(data) => DownWritten(d, data);
    case ToServer(isn) => DownHears(d, isn);
    case ToClient(room) => DownArrives(d, room);
    case _ => DownSame(d, a);
  }

  /** The pipe's own invariant says nothing about the server's queue, nor about a connected client's. */
  lemma QueuesDoNotMatter(p: TcpPipe.Pipe, queue: seq<seq<byte>>, segs: seq<Seg>)
    requires TcpPipe.Inv(p)
    ensures p.server.Entry? ==> TcpPipe.Inv(WithQueue(p, queue))
    ensures p.client.connected ==> TcpPipe.Inv(p.(client := p.client.(queue := segs)))
  {
  }

  lemma AcceptKeeps(d: State)
    requires Inv(d) && Enabled(d, Accept)
    ensures Inv(Next(d, Accept))
  {
    QueuesDoNotMatter(d.pipe, [], []);
  }

  lemma UpReads(early: seq<Arrival>, f: Flow, inFlight: seq<byte>, s: Server)
    requires UpOk(true, early, f, inFlight, s) && s.Entry? && s.queue != []
    ensures UpOk(true, early, f.(read := f.read + s.queue[0]), inFlight, s.(queue := s.queue[1..]))
  {
    assert f.read + (s.queue[0] + Joined(s.queue[1..])) == f.read + s.queue[0] + Joined(s.queue[1..]);
  }

  lemma ServerReadsKeeps(d: State)
    requires Inv(d) && Enabled(d, ServerReads)
    ensures Inv(Next(d, ServerReads))
  {
    QueuesDoNotMatter(d.pipe, d.pipe.server.queue[1..], []);
    UpReads(d.early, d.up, Payloads(d.pipe.up), d.pipe.server);
  }

  lemma DownReads(f: Flow, inFlight: seq<byte>, c: Client)
    requires DownOk(f, inFlight, c) && c.connected && c.queue != []
    ensures DownOk(f.(read := f.read + c.queue[0].payload), inFlight, c.(queue := c.queue[1..]))
  {
    var first, rest := c.queue[0].payload, Payloads(c.queue[1..]);
    assert f.read + (first + rest) == f.read + first + rest;
  }

  lemma ClientReadsKeeps(d: State)
    requires Inv(d) && Enabled(d, ClientReads)
    ensures Inv(Next(d, ClientReads))
  {
    QueuesDoNotMatter(d.pipe, [], d.pipe.client.queue[1..]);
    DownReads(d.down, Payloads(d.pipe.down), d.pipe.client);
  }

  lemma StepKeeps(d: State, a: Action)
    requires Inv(d) && Enabled(d, a)
    ensures Inv(Next(d, a))
  {
    match a
    case Net(b) =>
      TcpPipe.StepKeeps(d.pipe, b);
      UpKeeps(d, b);
      DownKeeps(d, b);
    case Accept => AcceptKeeps(d);
    case ServerReads => ServerReadsKeeps(d);
    case ClientReads => ClientReadsKeeps(d);
  }

  lemma ConnectedOnceAccepted(d: State)
    requires Inv(d) && d.accepted
    ensures d.pipe.client.connected
  {
  }

  lemma {:induction false} RunKeeps(d: State, acts: seq<Action>)
    requires Inv(d) && Runs(d, acts)
    ensures Inv(After(d, acts))
    decreases |acts|
  {
    if acts != [] {
      StepKeeps(d, acts[0]);
      RunKeeps(Next(d, acts[0]), acts[1..]);
    }
  }

  // ----- What the readers get -----

  /** Over every run, for the accepted connection: what the client wrote is what arrived before `Accept`, what
      arrived since and what is in flight, in order; the reader has got, and will get from the queue, exactly
      what arrived since and found room. Everything that arrived is acknowledged, also what is thrown away. */
  lemma {:induction false} WhatTheServerReads(isn: u32, acts: seq<Action>, d: State)
    requires Runs(Fresh(isn), acts) && d == After(Fresh(isn), acts) && d.accepted
    ensures d.up.written == All(d.early) + All(d.up.arrived) + Payloads(d.pipe.up)
    ensures d.pipe.server.Entry? && d.up.read + Joined(d.pipe.server.queue) == Kept(d.up.arrived)
    ensures Add32(d.pipe.server.ackNum, |Payloads(d.pipe.up)|) == d.pipe.client.seqNum
  {
    RunKeeps(Fresh(isn), acts);
    ConnectedOnceAccepted(d);
    TcpPipe.OpenSums(d.pipe);
  }

  /** The same for the client, whose handshake throws nothing away. */
  lemma {:induction false} WhatTheClientReads(isn: u32, acts: seq<Action>, d: State)
    requires Runs(Fresh(isn), acts) && d == After(Fresh(isn), acts) && d.pipe.client.connected
    ensures d.down.written == All(d.down.arrived) + Payloads(d.pipe.down)
    ensures d.down.read + Payloads(d.pipe.client.queue) == Kept(d.down.arrived)
    ensures d.pipe.server.Entry? && Add32(d.pipe.client.ackNum, |Payloads(d.pipe.down)|) == d.pipe.server.seqNum
  {
    RunKeeps(Fresh(isn), acts);
    TcpPipe.OpenSums(d.pipe);
  }

  lemma {:induction false} KeptIsAll(items: seq<Arrival>)
    requires NonEmpty(items)
    ensures |Kept(items)| <= |All(items)| && |items| <= |All(items)|
    ensures |Kept(items)| == |All(items)| <==> forall i | 0 <= i < |items| :: items[i].kept
    ensures (forall i | 0 <= i < |items| :: items[i].kept) ==> Kept(items) == All(items)
  {
    if items != [] {
      var n := |items| - 1;
      KeptIsAll(items[..n]);
      assert forall i | 0 <= i < n :: items[..n][i] == items[i];
    }
  }

  /** With nothing in flight and nothing left in the queue, the reader has got everything the client wrote if and
      only if nothing had arrived before `Accept` and every arrival since then found room. */
  lemma {:induction false} EverythingReadIff(isn: u32, acts: seq<Action>, d: State)
    requires Runs(Fresh(isn), acts) && d == After(Fresh(isn), acts) && d.accepted
    requires d.pipe.up == [] && d.pipe.server.Entry? && d.pipe.server.queue == []
    ensures d.up.read == d.up.written <==>
              d.early == [] && forall i | 0 <= i < |d.up.arrived| :: d.up.arrived[i].kept
  {
    RunKeeps(Fresh(isn), acts);
    WhatTheServerReads(isn, acts, d);
    assert d.up.written == All(d.early) + All(d.up.arrived) && d.up.read == Kept(d.up.arrived);
    SameIff(d.early, d.up.arrived);
  }

  lemma SameIff(early: seq<Arrival>, arrived: seq<Arrival>)
    requires NonEmpty(early) && NonEmpty(arrived)
    ensures Kept(arrived) == All(early) + All(arrived) <==>
              early == [] && forall i | 0 <= i < |arrived| :: arrived[i].kept
  {
    KeptIsAll(early);
    KeptIsAll(arrived);
    assert |All(early) + All(arrived)| == |All(early)| + |All(arrived)|;
  }

  // ----- Bytes that are acknowledged and thrown away -----

  lemma {:induction false} TrailRuns(ds: seq<State>, acts: seq<Action>)
    requires |ds| == |acts| + 1
    requires forall k | 0 <= k < |acts| :: StepsTo(ds[k], acts[k], ds[k + 1])
    ensures Runs(ds[0], acts) && After(ds[0], acts) == ds[|acts|]
    decreases |acts|
  {
    if acts != [] {
      assert StepsTo(ds[0], acts[0], ds[1]);
      forall k | 0 <= k < |acts| - 1 ensures StepsTo(ds[1..][k], acts[1..][k], ds[1..][k + 1]) {
        assert StepsTo(ds[k + 1], acts[k + 1], ds[k + 2]);
      }
      TrailRuns(ds[1..], acts[1..]);
    }
  }

  predicate StepsTo(d: State, a: Action, e: State) {
    Enabled(d, a) && Next(d, a) == e
  }

  const NO_FLOW := Flow([], [], [])

  /** A state of the run below, with nothing read and nothing written by the server. */
  function Stage(c: Client, s: Server, up: seq<Seg>, down: seq<Seg>, accepted: bool, early: seq<Arrival>,
                 written: seq<byte>): State {
    State(TcpPipe.Pipe(c, s, up, down), accepted, early, NO_FLOW.(written := written), NO_FLOW)
  }

  const SYN_ACK := Seg(200, 101, SYN + ACK, [])
  const DATA := Seg(101, 201, PSH + ACK, [7])
  const DIALLING := NewClient(100)
  const OPEN := Client(100, 101, 201, true, [])
  const WROTE := Client(100, 102, 201, true, [])

  lemma Handshake()
    ensures StepsTo(Fresh(100), Net(TcpPipe.SendSyn), Stage(DIALLING, NoEntry, [Syn(DIALLING)], [], false, [], []))
    ensures var half := Entry(200, 201, 101, false, []);
            && StepsTo(Stage(DIALLING, NoEntry, [Syn(DIALLING)], [], false, [], []), Net(TcpPipe.ToServer(200)),
                       Stage(DIALLING, half, [], [SYN_ACK], false, [], []))
            && StepsTo(Stage(DIALLING, half, [], [SYN_ACK], false, [], []), Net(TcpPipe.ToClient(true)),
                       Stage(DIALLING.(queue := [SYN_ACK]), half, [], [], false, [], []))
            && StepsTo(Stage(DIALLING.(queue := [SYN_ACK]), half, [], [], false, [], []), Net(TcpPipe.Poll),
                       Stage(OPEN, half, [PureAck(101, 201)], [], false, [], []))
  {
  }

  lemma Thrown()
    ensures var half, full := Entry(200, 201, 101, false, []), Entry(200, 201, 102, true, [[7]]);
            var ack, arrival := PureAck(101, 201), [Arrival([7], true)];
            && StepsTo(Stage(OPEN, half, [ack], [], false, [], []), Net(TcpPipe.ClientWrites([7])),
                       Stage(WROTE, half, [ack, DATA], [], false, [], [7]))
            && StepsTo(Stage(WROTE, half, [ack, DATA], [], false, [], [7]), Net(TcpPipe.ToServer(0)),
                       Stage(WROTE, half.(connected := true), [DATA], [], false, [], [7]))
            && StepsTo(Stage(WROTE, half.(connected := true), [DATA], [], false, [], [7]), Net(TcpPipe.ToServer(0)),
                       Stage(WROTE, full, [], [PureAck(201, 102)], false, arrival, [7]))
            && StepsTo(Stage(WROTE, full, [], [PureAck(201, 102)], false, arrival, [7]), Accept,
                       Stage(WROTE, full.(queue := []), [], [PureAck(201, 102)], true, arrival, [7]))
  {
    var data: seq<byte> := [7];
    assert data[..1] == data && data[1..] == [];
    assert Chunks(101, 201, data) == [DATA];
    DataQueued();
  }

  lemma DataQueued()
    ensures var half, full := Entry(200, 201, 101, false, []), Entry(200, 201, 102, true, [[7]]);
            StepsTo(Stage(WROTE, half.(connected := true), [DATA], [], false, [], [7]), Net(TcpPipe.ToServer(0)),
                    Stage(WROTE, full, [], [PureAck(201, 102)], false, [Arrival([7], true)], [7]))
  {
    var queue: seq<seq<byte>> := [];
    var data: seq<byte> := [7];
    assert queue + [data] == [data] && Enqueue(queue, data) == [data];
    var none: seq<Arrival> := [];
    assert none + [Arrival(data, true)] == [Arrival(data, true)];
    var down: seq<Seg> := [];
    assert down + [PureAck(201, 102)] == [PureAck(201, 102)] && [DATA][1..] == [];
  }

  /** The client writes one byte right after the handshake; it arrives and is acknowledged, and then `Accept` throws
      it away. */
  lemma AcceptThrowsAway(acts: seq<Action>, d: State)
    requires acts == [Net(TcpPipe.SendSyn), Net(TcpPipe.ToServer(200)), Net(TcpPipe.ToClient(true)), Net(TcpPipe.Poll),
                      Net(TcpPipe.ClientWrites([7])), Net(TcpPipe.ToServer(0)), Net(TcpPipe.ToServer(0)), Accept]
    requires d == Stage(WROTE, Entry(200, 201, 102, true, []), [], [PureAck(201, 102)], true, [Arrival([7], true)], [7])
    ensures Runs(Fresh(100), acts) && After(Fresh(100), acts) == d
    ensures d.accepted && d.up.written == [7] && d.up.read == [] && d.pipe.up == [] && d.pipe.server.queue == []
    ensures d.pipe.server.ackNum == d.pipe.client.seqNum
  {
    Handshake();
    Thrown();
    var half, full := Entry(200, 201, 101, false, []), Entry(200, 201, 102, true, [[7]]);
    TrailRuns([Fresh(100), Stage(DIALLING, NoEntry, [Syn(DIALLING)], [], false, [], []),
               Stage(DIALLING, half, [], [SYN_ACK], false, [], []),
               Stage(DIALLING.(queue := [SYN_ACK]), half, [], [], false, [], []),
               Stage(OPEN, half, [PureAck(101, 201)], [], false, [], []),
               Stage(WROTE, half, [PureAck(101, 201), DATA], [], false, [], [7]),
               Stage(WROTE, half.(connected := true), [DATA], [], false, [], [7]),
               Stage(WROTE, full, [], [PureAck(201, 102)], false, [Arrival([7], true)], [7]), d], acts);
  }
}
