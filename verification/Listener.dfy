/** The raw TCP listener (pkg/faketcp/faketcp_raw.go): its connection map, the accept queue and the
    two-pass cleanup of idle connections. */
module Listener {
  import opened Bytes
  import opened TcpConn

  const STALE_TIMEOUT := 60_000_000_000  // nanoseconds

  /** The map key `"ip:port"`. */
  datatype Addr = Addr(ip: string, port: u16)

  /** A packet the listener heard, kept as history. */
  datatype Heard = Heard(src: Addr, flags: byte)

  /** A connection object. `synAt` and `ackAt` are the history positions of the SYN that made it and of the
      acknowledgement that completed its handshake. Time 0 is Go's zero time. */
  datatype Conn = Conn(remote: Addr, seqNum: u32, ackNum: u32, connected: bool, closed: bool, lastActivity: int,
                       synAt: nat, ackAt: nat, queue: seq<seq<byte>>)

  /** First pass of a cleanup: when it ran and what it marked. */
  datatype Marks = Marks(now: int, keys: set<Addr>)

  /** `conns` holds every connection object ever made, by identity; `offers` those handed to the accept queue. */
  datatype State = State(connMap: map<Addr, nat>, conns: seq<Conn>, offers: seq<nat>, marks: Marks, heard: seq<Heard>)

  datatype Event =
    | Packet(src: Addr, seg: Seg, isn: u32, synAckSent: bool, now: int)
    | OfferExpires(id: nat)     // the accept queue stayed full for two seconds
    | AppAccepts(id: nat)       // the tunnel takes the connection from the accept queue, which drains its packets
    | AppReads(id: nat)         // the tunnel reads the oldest payload
    | AppCloses(id: nat)        // the tunnel closes an accepted connection
    | Mark(now: int)            // cleanup, first pass
    | Sweep                     // cleanup, second pass

  predicate WellFormed(l: State) {
    forall a | a in l.connMap :: l.connMap[a] < |l.conns|
  }

  predicate Enabled(l: State, e: Event) {
    match e
    case OfferExpires(id) => id in l.offers && id < |l.conns|
    case AppAccepts(id) => id in l.offers && id < |l.conns|
    case AppReads(id) => id in l.offers && id < |l.conns| && l.conns[id].queue != []
    case AppCloses(id) => id in l.offers && id < |l.conns|
    case _ => true
  }

  predicate Idle(c: Conn, now: int) {
    c.lastActivity != 0 && now - c.lastActivity > STALE_TIMEOUT
  }

  predicate Evictable(c: Conn, now: int) {
    c.closed || Idle(c, now)
  }

  /** The map after dropping a closed entry of the packet's source. */
  function Pruned(l: State, src: Addr): map<Addr, nat>
    requires WellFormed(l)
  {
    if src in l.connMap && l.conns[l.connMap[src]].closed then l.connMap - {src} else l.connMap
  }

  function NewConn(l: State, src: Addr, g: Seg, isn: u32, now: int): Conn {
    Conn(src, Add32(isn, 1), Add32(g.seqNum, 1), false, false, now, |l.heard|, 0, [])
  }

  /** One connected entry hears a packet: the connection afterwards and whether its entry stays. */
  function ConnectedHears(c: Conn, g: Seg, now: int): (Conn, bool) {
    var c1 := c.(lastActivity := now);
    if Has(g.flags, FIN) then (c1.(closed := true, ackNum := Add32(g.seqNum, 1)), false)
    else if Has(g.flags, RST) then (c1, true)
    else (if g.payload != [] then c1.(ackNum := End(g), queue := Enqueue(c.queue, g.payload)) else c1, true)
  }

  /** The handshake's acknowledgement arrives, perhaps with a payload. */
  function Completed(l: State, c: Conn, g: Seg, now: int): Conn {
    c.(connected := true, ackNum := End(g), lastActivity := now, ackAt := |l.heard|,
       queue := Enqueue(c.queue, g.payload))
  }

  /** One turn of `acceptLoop`. */
  function Accepts(l: State, src: Addr, g: Seg, isn: u32, synAckSent: bool, now: int): State
    requires WellFormed(l)
  {
    var m := Pruned(l, src);
    var l1 := l.(connMap := m, heard := l.heard + [Heard(src, g.flags)]);
    if src !in m then
      if IsSyn(g) && synAckSent then
        l1.(connMap := m[src := |l.conns|], conns := l.conns + [NewConn(l, src, g, isn, now)])
      else l1
    else
      var id := m[src];
      var c := l.conns[id];
      if !c.connected then
        if Has(g.flags, ACK) && !Has(g.flags, SYN) then
          l1.(conns := l.conns[id := Completed(l, c, g, now)], offers := l.offers + [id])
        else l1
      else
        var (c1, stays) := ConnectedHears(c, g, now);
        l1.(conns := l.conns[id := c1], connMap := if stays then m else m - {src})
  }

  /** The segment sent back on such a turn, if any. */
  function Reply(l: State, src: Addr, g: Seg, isn: u32, synAckSent: bool): Option<Seg>
    requires WellFormed(l)
  {
    var m := Pruned(l, src);
    if src !in m then
      if IsSyn(g) && synAckSent then Some(Seg(isn, Add32(g.seqNum, 1), SYN + ACK, [])) else None
    else
      var c := l.conns[m[src]];
      if !c.connected then None
      else if Has(g.flags, FIN) then Some(PureAck(c.seqNum, Add32(g.seqNum, 1)))
      else if !Has(g.flags, RST) && g.payload != [] then Some(PureAck(c.seqNum, End(g)))
      else None
  }

  /** The entry at `a` as the server end of one connection; `isn` is the number it was started with. */
  function ServerAt(l: State, a: Addr, isn: u32): Server
    requires WellFormed(l)
  {
    if a !in Pruned(l, a) then NoEntry
    else var c := l.conns[l.connMap[a]]; Entry(isn, c.seqNum, c.ackNum, c.connected, c.queue)
  }

  /** Without FIN and RST, what a turn makes of the entry at the packet's source, and what it sends back, is
      what the server end of a single connection does. */
  lemma AcceptsIsServerHears(l: State, src: Addr, g: Seg, isn: u32, now: int, first: u32)
    requires WellFormed(l) && !Has(g.flags, FIN) && !Has(g.flags, RST)
    ensures var start := if ServerAt(l, src, first).NoEntry? then isn else first;
            ServerAt(Accepts(l, src, g, isn, true, now), src, start) == ServerHears(ServerAt(l, src, first), g, isn).0
    ensures ServerHears(ServerAt(l, src, first), g, isn).1
         == match Reply(l, src, g, isn, true) case Some(r) => [r] case None => []
  {
  }

  /** What the application does to a connection is what it does to the server end of one. */
  lemma AppIsServerEnd(l: State, a: Addr, id: nat, isn: u32)
    requires KeysMatch(l) && Live(l, a, id) && id in l.offers
    ensures var u := Step(l, AppAccepts(id)); WellFormed(u) && ServerAt(u, a, isn) == ServerAt(l, a, isn).(queue := [])
    ensures l.conns[id].queue != [] ==>
              var u := Step(l, AppReads(id));
              WellFormed(u) && ServerAt(u, a, isn) == ServerAt(l, a, isn).(queue := l.conns[id].queue[1..])
  {
  }

  /** A turn leaves every other entry as it is. */
  lemma AcceptsKeepsOthers(l: State, src: Addr, g: Seg, isn: u32, ok: bool, now: int, a: Addr)
    requires KeysMatch(l) && a != src
    ensures a in Accepts(l, src, g, isn, ok, now).connMap <==> a in l.connMap
    ensures a in l.connMap ==> var m := Accepts(l, src, g, isn, ok, now);
                               m.connMap[a] == l.connMap[a] && l.connMap[a] < |m.conns|
                                   && m.conns[l.connMap[a]] == l.conns[l.connMap[a]]
  {
  }

  function Marked(l: State, now: int): set<Addr>
    requires WellFormed(l)
  {
    set a | a in l.connMap && Evictable(l.conns[l.connMap[a]], now)
  }

  /** What the second pass removes: marked keys whose entry is still evictable by the first pass's clock. */
  function Swept(l: State): set<Addr>
    requires WellFormed(l)
  {
    set a | a in l.marks.keys && a in l.connMap && Evictable(l.conns[l.connMap[a]], l.marks.now)
  }

  /** The entries at `gone` are closed and dropped. */
  function Dropped(l: State, gone: set<Addr>): State
    requires WellFormed(l) && gone <= l.connMap.Keys
  {
    l.(connMap := l.connMap - gone,
       conns := seq(|l.conns|, i requires 0 <= i < |l.conns| =>
         var c := l.conns[i];
         if c.remote in gone && l.connMap[c.remote] == i then c.(closed := true) else c))
  }

  function Sweeped(l: State): State
    requires WellFormed(l)
  {
    Dropped(l, Swept(l)).(marks := Marks(l.marks.now, {}))
  }

  function Step(l: State, e: Event): State
    requires WellFormed(l) && Enabled(l, e)
  {
    match e
    case Packet(src, g, isn, ok, now) => Accepts(l, src, g, isn, ok, now)
    case OfferExpires(id) => l.(connMap := l.connMap - {l.conns[id].remote})
    case AppAccepts(id) => l.(conns := l.conns[id := l.conns[id].(queue := [])])
    case AppReads(id) => l.(conns := l.conns[id := l.conns[id].(queue := l.conns[id].queue[1..])])
    case AppCloses(id) => l.(conns := l.conns[id := l.conns[id].(closed := true)])
    case Mark(now) => l.(marks := Marks(now, Marked(l, now)))
    case Sweep => Sweeped(l)
  }

  // ----- Invariant -----

  /** Every map key is its entry's own remote address. */
  ghost predicate KeysMatch(l: State) {
    WellFormed(l) && forall a | a in l.connMap :: l.conns[l.connMap[a]].remote == a
  }

  ghost predicate HandshakeHeard(l: State, c: Conn) {
    && c.synAt < |l.heard| && l.heard[c.synAt].src == c.remote
    && Has(l.heard[c.synAt].flags, SYN) && !Has(l.heard[c.synAt].flags, ACK)
    && (c.connected ==>
          && c.synAt < c.ackAt < |l.heard| && l.heard[c.ackAt].src == c.remote
          && Has(l.heard[c.ackAt].flags, ACK) && !Has(l.heard[c.ackAt].flags, SYN))
  }

  ghost predicate OffersOnce(l: State) {
    && (forall i | 0 <= i < |l.offers| :: l.offers[i] < |l.conns| && l.conns[l.offers[i]].connected)
    && (forall i, j | 0 <= i < j < |l.offers| :: l.offers[i] != l.offers[j])
  }

  ghost predicate Inv(l: State) {
    && KeysMatch(l) && OffersOnce(l)
    && (forall i | 0 <= i < |l.conns| :: HandshakeHeard(l, l.conns[i]))
  }

  lemma HeardMore(l: State, m: State, c: Conn, h: Heard)
    requires HandshakeHeard(l, c) && m.heard == l.heard + [h]
    ensures HandshakeHeard(m, c)
  {
  }

  /** A packet leaves every connection object's handshake evidence in place. */
  lemma AcceptsKeepsEvidence(l: State, src: Addr, g: Seg, isn: u32, ok: bool, now: int)
    requires Inv(l)
    ensures var m := Accepts(l, src, g, isn, ok, now);
            forall i | 0 <= i < |m.conns| :: HandshakeHeard(m, m.conns[i])
  {
    var m := Accepts(l, src, g, isn, ok, now);
    forall i | 0 <= i < |m.conns| ensures HandshakeHeard(m, m.conns[i]) {
      if i < |l.conns| {
        HeardMore(l, m, l.conns[i], Heard(src, g.flags));
      }
    }
  }

  lemma AcceptsKeepsKeys(l: State, src: Addr, g: Seg, isn: u32, ok: bool, now: int)
    requires KeysMatch(l)
    ensures KeysMatch(Accepts(l, src, g, isn, ok, now))
  {
  }

  lemma AcceptsKeepsOffers(l: State, src: Addr, g: Seg, isn: u32, ok: bool, now: int)
    requires WellFormed(l) && OffersOnce(l)
    ensures OffersOnce(Accepts(l, src, g, isn, ok, now))
  {
  }

  lemma SweepKeeps(l: State)
    requires Inv(l)
    ensures Inv(Sweeped(l))
  {
    var m := Sweeped(l);
    assert forall i | 0 <= i < |l.conns| :: HandshakeHeard(l, l.conns[i]) ==> HandshakeHeard(m, m.conns[i]);
  }

  /** What the application does to a connection leaves its evidence alone. */
  lemma AppKeeps(l: State, id: nat, c: Conn)
    requires Inv(l) && id < |l.conns|
    requires c == l.conns[id].(queue := c.queue, closed := c.closed)
    ensures Inv(l.(conns := l.conns[id := c]))
  {
    var m := l.(conns := l.conns[id := c]);
    assert forall i | 0 <= i < |l.conns| :: HandshakeHeard(l, l.conns[i]) ==> HandshakeHeard(m, m.conns[i]);
  }

  lemma StepKeeps(l: State, e: Event)
    requires Inv(l) && Enabled(l, e)
    ensures Inv(Step(l, e))
  {
    match e
    case Packet(src, g, isn, ok, now) =>
      AcceptsKeepsEvidence(l, src, g, isn, ok, now);
      AcceptsKeepsKeys(l, src, g, isn, ok, now);
      AcceptsKeepsOffers(l, src, g, isn, ok, now);
    case OfferExpires(id) =>
    case AppAccepts(id) => AppKeeps(l, id, l.conns[id].(queue := []));
    case AppReads(id) => AppKeeps(l, id, l.conns[id].(queue := l.conns[id].queue[1..]));
    case AppCloses(id) => AppKeeps(l, id, l.conns[id].(closed := true));
    case Mark(now) =>
    case Sweep => SweepKeeps(l);
  }

  // ----- Whole runs -----

  const EMPTY := State(map[], [], [], Marks(0, {}), [])

  ghost predicate Runs(l: State, es: seq<Event>)
    decreases |es|
  {
    es == [] || (WellFormed(l) && Enabled(l, es[0]) && Runs(Step(l, es[0]), es[1..]))
  }

  ghost function After(l: State, es: seq<Event>): State
    requires Runs(l, es)
    decreases |es|
  {
    if es == [] then l else After(Step(l, es[0]), es[1..])
  }

  lemma {:induction false} RunKeeps(l: State, es: seq<Event>)
    requires Inv(l) && Runs(l, es)
    ensures Inv(After(l, es))
    decreases |es|
  {
    if es != [] {
      StepKeeps(l, es[0]);
      RunKeeps(Step(l, es[0]), es[1..]);
    }
  }

  /** Over every sequence of packets, closes, timeouts and cleanups: each connection is offered at most once,
      and only after a SYN and a later acknowledgement without SYN from its own address; every map key is
      its entry's own remote address. */
  lemma OfferedOnceAfterHandshake(es: seq<Event>)
    requires Runs(EMPTY, es)
    ensures var l := After(EMPTY, es);
            && KeysMatch(l)
            && (forall i, j | 0 <= i < j < |l.offers| :: l.offers[i] != l.offers[j])
            && (forall i | 0 <= i < |l.offers| ::
                  l.offers[i] < |l.conns| && HandshakeCompleted(l, l.conns[l.offers[i]].remote))
  {
    RunKeeps(EMPTY, es);
    var l := After(EMPTY, es);
    forall i | 0 <= i < |l.offers| ensures HandshakeCompleted(l, l.conns[l.offers[i]].remote) {
      assert HandshakeHeard(l, l.conns[l.offers[i]]);
    }
  }

  ghost predicate HandshakeCompleted(l: State, a: Addr) {
    exists i, j | 0 <= i < j < |l.heard| ::
      && l.heard[i].src == a && Has(l.heard[i].flags, SYN) && !Has(l.heard[i].flags, ACK)
      && l.heard[j].src == a && Has(l.heard[j].flags, ACK) && !Has(l.heard[j].flags, SYN)
  }

  ghost predicate Live(l: State, a: Addr, id: nat) {
    WellFormed(l) && a in l.connMap && l.connMap[a] == id && !l.conns[id].closed
  }

  /** A repeated SYN, or any packet but a FIN, never replaces a live entry. */
  lemma LiveEntryStays(l: State, a: Addr, id: nat, e: Event)
    requires Inv(l) && Live(l, a, id) && e.Packet?
    requires e.src == a ==> !Has(e.seg.flags, FIN)
    ensures Live(Step(l, e), a, id)
  {
  }

  /** The event neither closes connection `id` at `a` nor drops its entry, and it happens at `since` or later. */
  predicate Harmless(l: State, a: Addr, id: nat, since: int, e: Event) {
    match e
    case Packet(src, g, _, _, now) => now >= since && (src == a ==> !Has(g.flags, FIN))
    case OfferExpires(i) => i < |l.conns| && l.conns[i].remote != a
    case AppAccepts(_) => true
    case AppReads(_) => true
    case AppCloses(i) => i != id
    case Mark(_) => false
    case Sweep => false
  }

  ghost predicate HarmlessRun(l: State, a: Addr, id: nat, since: int, es: seq<Event>)
    decreases |es|
  {
    es == [] || (WellFormed(l) && Enabled(l, es[0]) && Harmless(l, a, id, since, es[0])
                 && HarmlessRun(Step(l, es[0]), a, id, since, es[1..]))
  }

  lemma HarmlessStep(l: State, a: Addr, id: nat, since: int, e: Event)
    requires Inv(l) && Live(l, a, id) && l.conns[id].lastActivity >= since
    requires Enabled(l, e) && Harmless(l, a, id, since, e)
    ensures Live(Step(l, e), a, id) && Step(l, e).conns[id].lastActivity >= since && Step(l, e).marks == l.marks
  {
    if e.Packet? {
      LiveEntryStays(l, a, id, e);
    }
  }

  lemma {:induction false} RefreshedStaysFresh(l: State, a: Addr, id: nat, since: int, es: seq<Event>)
    requires Inv(l) && Live(l, a, id) && l.conns[id].lastActivity >= since
    requires HarmlessRun(l, a, id, since, es) && Runs(l, es)
    ensures Live(After(l, es), a, id) && After(l, es).conns[id].lastActivity >= since && After(l, es).marks == l.marks
    decreases |es|
  {
    if es != [] {
      StepKeeps(l, es[0]);
      HarmlessStep(l, a, id, since, es[0]);
      RefreshedStaysFresh(Step(l, es[0]), a, id, since, es[1..]);
    }
  }

  /** Two-pass cleanup never evicts an entry refreshed between its passes: whatever else happens in between,
      the second pass leaves it in the map and open. */
  lemma RefreshedSurvivesSweep(l: State, a: Addr, id: nat, g: Seg, isn: u32, ok: bool, now: int, es: seq<Event>)
    requires Inv(l) && Live(l, a, id) && l.conns[id].connected && !Has(g.flags, FIN) && now >= l.marks.now
    requires var m := Step(l, Packet(a, g, isn, ok, now)); HarmlessRun(m, a, id, l.marks.now, es) && Runs(m, es)
    ensures var m := After(Step(l, Packet(a, g, isn, ok, now)), es); WellFormed(m) && Live(Step(m, Sweep), a, id)
  {
    var m := Step(l, Packet(a, g, isn, ok, now));
    StepKeeps(l, Packet(a, g, isn, ok, now));
    LiveEntryStays(l, a, id, Packet(a, g, isn, ok, now));
    RefreshedStaysFresh(m, a, id, l.marks.now, es);
    RunKeeps(m, es);
  }

  /** The first pass marks exactly the closed entries and those silent for more than sixty seconds, and changes nothing
      else. */
  lemma MarkIsExact(l: State, a: Addr, now: int)
    requires Inv(l)
    ensures var m := Step(l, Mark(now));
            && m == l.(marks := m.marks) && m.marks.now == now
            && (a in m.marks.keys <==>
                  && a in l.connMap
                  && var c := l.conns[l.connMap[a]];
                     c.closed || (c.lastActivity != 0 && now - c.lastActivity > 60_000_000_000))
  {
  }

  /** The second pass removes exactly the marked entries that are still closed or idle by the first pass's
      clock, and touches no other entry or connection. */
  lemma SweepIsExact(l: State, a: Addr)
    requires Inv(l) && a in l.connMap
    ensures var c := l.conns[l.connMap[a]];
            a !in Step(l, Sweep).connMap <==>
              a in l.marks.keys
              && (c.closed || (c.lastActivity != 0 && l.marks.now - c.lastActivity > 60_000_000_000))
    ensures a in Step(l, Sweep).connMap ==> Step(l, Sweep).connMap[a] == l.connMap[a]
                                            && Step(l, Sweep).conns[l.connMap[a]] == l.conns[l.connMap[a]]
  {
  }

  /** An expired offer drops whatever entry its address has by then: it evicts another, live connection
      exactly when the address has been taken over. */
  lemma ExpiredOfferEvicts(l: State, a: Addr, id: nat, late: nat)
    requires Inv(l) && Enabled(l, OfferExpires(late)) && Live(l, a, id) && id != late
    ensures !Live(Step(l, OfferExpires(late)), a, id) <==> l.conns[late].remote == a
  {
  }

  /** ... and that does happen: handshake, FIN and a new SYN within the two seconds. */
  lemma ExpiredOfferEvictsNewcomer(a: Addr, seqNum: u32, isn: u32, l1: State, l2: State, l3: State, l4: State)
    requires l1 == Accepts(EMPTY, a, Seg(seqNum, 0, SYN, []), isn, true, 1)
    requires WellFormed(l1) ==> l2 == Accepts(l1, a, Seg(seqNum, 0, ACK, []), isn, true, 2)
    requires WellFormed(l2) ==> l3 == Accepts(l2, a, Seg(seqNum, 0, FIN + ACK, []), isn, true, 3)
    requires WellFormed(l3) ==> l4 == Accepts(l3, a, Seg(seqNum, 0, SYN, []), isn, true, 4)
    ensures WellFormed(l1) && WellFormed(l2) && WellFormed(l3)
    ensures Live(l4, a, 1) && Enabled(l4, OfferExpires(0)) && !Live(Step(l4, OfferExpires(0)), a, 1)
  {
    assert l1.connMap == map[a := 0] && |l1.conns| == 1 && !l1.conns[0].connected;
    assert l2.offers == [0] && l2.conns[0].connected && l2.connMap == map[a := 0];
    assert a !in l3.connMap && l3.offers == [0] && l3.conns[0].remote == a;
  }

  // ----- Ends of a connection -----

  /** A FIN ends a connected entry: it is closed and dropped, and the FIN is acknowledged as one sequence number. */
  lemma FinEnds(l: State, a: Addr, id: nat, g: Seg, isn: u32, ok: bool, now: int)
    requires Inv(l) && Live(l, a, id) && l.conns[id].connected && Has(g.flags, FIN)
    ensures var m := Accepts(l, a, g, isn, ok, now);
            && a !in m.connMap && m.offers == l.offers
            && m.conns == l.conns[id := l.conns[id].(closed := true, ackNum := (g.seqNum + 1) % 0x1_0000_0000,
                                                     lastActivity := now)]
    ensures Reply(l, a, g, isn, ok) == Some(Seg(l.conns[id].seqNum, (g.seqNum + 1) % 0x1_0000_0000, ACK, []))
  {
  }

  /** A reset, or anything without data, only counts as activity. */
  lemma ResetIsIgnored(l: State, a: Addr, id: nat, g: Seg, isn: u32, ok: bool, now: int)
    requires Inv(l) && Live(l, a, id) && l.conns[id].connected && !Has(g.flags, FIN)
    requires Has(g.flags, RST) || g.payload == []
    ensures Reply(l, a, g, isn, ok) == None
    ensures Accepts(l, a, g, isn, ok, now)
        == l.(conns := l.conns[id := l.conns[id].(lastActivity := now)], heard := l.heard + [Heard(a, g.flags)])
  {
    assert l.connMap == Accepts(l, a, g, isn, ok, now).connMap;
  }

  /** The acknowledgement of a handshake opens the entry, queues its payload and offers the connection; any other
      packet leaves a waiting entry as it is. */
  lemma AckOpens(l: State, a: Addr, id: nat, g: Seg, isn: u32, ok: bool, now: int)
    requires Inv(l) && Live(l, a, id) && !l.conns[id].connected
    ensures var m := Accepts(l, a, g, isn, ok, now);
            if g.flags / 16 % 2 == 1 && g.flags / 2 % 2 == 0 then
              var c := l.conns[id];
              && m.offers == l.offers + [id] && |m.conns| == |l.conns|
              && m.conns[id].connected && !m.conns[id].closed && m.conns[id].lastActivity == now
              && m.conns[id].ackNum == (g.seqNum + |g.payload|) % 0x1_0000_0000
              && (|c.queue| < 4096 && g.payload != [] ==> m.conns[id].queue == c.queue + [g.payload])
            else m == l.(heard := m.heard)
    ensures Reply(l, a, g, isn, ok) == None
  {
    assert Pruned(l, a) == l.connMap;
  }

  /** Without an entry, or with a closed one, a SYN whose answer could be sent starts a new connection. */
  lemma SynStartsAnew(l: State, a: Addr, g: Seg, isn: u32, ok: bool, now: int)
    requires Inv(l) && (a in l.connMap ==> l.conns[l.connMap[a]].closed) && IsSyn(g)
    ensures var m := Accepts(l, a, g, isn, ok, now);
            && (ok ==> a in m.connMap && m.connMap[a] == |l.conns| && |m.conns| == |l.conns| + 1
                       && var c := m.conns[|l.conns|];
                          && !c.closed && !c.connected && c.queue == [] && c.lastActivity == now && c.remote == a
                          && c.seqNum == (isn + 1) % 0x1_0000_0000 && c.ackNum == (g.seqNum + 1) % 0x1_0000_0000)
            && (!ok ==> a !in m.connMap && m.conns == l.conns)
            && (Reply(l, a, g, isn, ok) == if ok then Some(Seg(isn, (g.seqNum + 1) % 0x1_0000_0000, SYN + ACK, []))
                                           else None)
  {
  }

  /** A connection the tunnel has closed stays closed over every run and hears nothing any more: what can still be read
      is the end of what was queued. */
  lemma {:induction false} ClosedHearsNothing(l: State, id: nat, es: seq<Event>)
    requires Inv(l) && Enabled(l, AppCloses(id)) && Runs(Step(l, AppCloses(id)), es)
    ensures var c, d := l.conns[id], After(Step(l, AppCloses(id)), es).conns;
            && id < |d| && d[id].closed && d[id].remote == c.remote && d[id].lastActivity == c.lastActivity
            && d[id].seqNum == c.seqNum && d[id].ackNum == c.ackNum
            && |d[id].queue| <= |c.queue| && d[id].queue == c.queue[|c.queue| - |d[id].queue|..]
  {
    StepKeeps(l, AppCloses(id));
    StaysClosed(Step(l, AppCloses(id)), id, es);
  }

  lemma {:induction false} StaysClosed(l: State, id: nat, es: seq<Event>)
    requires Inv(l) && id < |l.conns| && l.conns[id].closed && Runs(l, es)
    ensures var c, d := l.conns[id], After(l, es).conns;
            && id < |d| && d[id] == c.(queue := d[id].queue)
            && |d[id].queue| <= |c.queue| && d[id].queue == c.queue[|c.queue| - |d[id].queue|..]
    decreases |es|
  {
    if es != [] {
      StepKeeps(l, es[0]);
      ClosedStep(l, id, es[0]);
      StaysClosed(Step(l, es[0]), id, es[1..]);
    }
  }

  lemma ClosedStep(l: State, id: nat, e: Event)
    requires Inv(l) && id < |l.conns| && l.conns[id].closed && Enabled(l, e)
    ensures var c, d := l.conns[id], Step(l, e).conns;
            && id < |d| && d[id] == c.(queue := d[id].queue)
            && |d[id].queue| <= |c.queue| && d[id].queue == c.queue[|c.queue| - |d[id].queue|..]
  {
  }

  /** An entry last heard at `heardAt`, by any packet of its connection or by the end of its handshake, falls to a
      cleanup at `markedAt` if and only if more than sixty seconds lie between. */
  lemma IdleTooLong(l: State, a: Addr, id: nat, g: Seg, isn: u32, ok: bool, heardAt: int, markedAt: int)
    requires Inv(l) && Live(l, a, id) && heardAt != 0
    requires if l.conns[id].connected then !Has(g.flags, FIN) else Has(g.flags, ACK) && !Has(g.flags, SYN)
    ensures var heard := Step(l, Packet(a, g, isn, ok, heardAt));
            && WellFormed(heard) && WellFormed(Step(heard, Mark(markedAt)))
            && var swept := Step(Step(heard, Mark(markedAt)), Sweep);
               && (a in swept.connMap <==> markedAt - heardAt <= 60_000_000_000)
               && |swept.conns| == |l.conns| && (swept.conns[id].closed <==> markedAt - heardAt > 60_000_000_000)
  {
    StepKeeps(l, Packet(a, g, isn, ok, heardAt));
    var heard := Step(l, Packet(a, g, isn, ok, heardAt));
    assert Pruned(l, a) == l.connMap;
    assert Live(heard, a, id) && heard.conns[id].lastActivity == heardAt;
    StepKeeps(heard, Mark(markedAt));
    SweepIsExact(Step(heard, Mark(markedAt)), a);
  }

  // ----- The second pass, entry by entry -----

  /** One marked entry is looked at again. */
  function SweptAt(l: State, k: Addr): State
    requires WellFormed(l)
  {
    if k in l.connMap && Evictable(l.conns[l.connMap[k]], l.marks.now) then
      l.(connMap := l.connMap - {k}, conns := l.conns[l.connMap[k] := l.conns[l.connMap[k]].(closed := true)])
    else l
  }

  lemma DropNone(l: State)
    requires WellFormed(l)
    ensures Dropped(l, Swept(l) - l.marks.keys) == l
  {
    assert Swept(l) - l.marks.keys == {};
  }

  lemma DropNext(l: State, todo: set<Addr>, k: Addr)
    requires KeysMatch(l) && k in todo && todo <= l.marks.keys
    ensures WellFormed(Dropped(l, Swept(l) - todo))
    ensures SweptAt(Dropped(l, Swept(l) - todo), k) == Dropped(l, Swept(l) - (todo - {k}))
  {
    var gone := Swept(l) - todo;
    if k in Swept(l) {
      assert Swept(l) - (todo - {k}) == gone + {k};
      DropOneMore(l, gone, k);
    } else {
      assert Swept(l) - (todo - {k}) == gone;
      KeptAsItWas(l, gone, k);
    }
  }

  lemma DropOneMore(l: State, gone: set<Addr>, k: Addr)
    requires KeysMatch(l) && gone <= l.connMap.Keys && k in l.connMap && k !in gone
    requires Evictable(l.conns[l.connMap[k]], l.marks.now)
    ensures WellFormed(Dropped(l, gone)) && SweptAt(Dropped(l, gone), k) == Dropped(l, gone + {k})
  {
    KeptAsItWas(l, gone, k);
    assert l.connMap - gone - {k} == l.connMap - (gone + {k});
    assert SweptAt(Dropped(l, gone), k).conns == Dropped(l, gone + {k}).conns;
  }

  /** An entry not dropped yet is found as it was. */
  lemma KeptAsItWas(l: State, gone: set<Addr>, k: Addr)
    requires KeysMatch(l) && gone <= l.connMap.Keys && k !in gone
    ensures WellFormed(Dropped(l, gone))
    ensures k in l.connMap <==> k in Dropped(l, gone).connMap
    ensures k in l.connMap ==> Dropped(l, gone).connMap[k] == l.connMap[k]
                               && Dropped(l, gone).conns[l.connMap[k]] == l.conns[l.connMap[k]]
  {
  }

  // ----- The listener object -----

  class ListenerRaw {
    var connMap: map<Addr, nat>
    var conns: seq<Conn>
    var offers: seq<nat>
    var marks: Marks
    var heard: seq<Heard>  // history, not part of the program

    function View(): State reads this {
      State(connMap, conns, offers, marks, heard)
    }

    constructor ()
      ensures View() == EMPTY
    {
      connMap, conns, offers, marks, heard := map[], [], [], Marks(0, {}), [];
    }

    /** One turn of the accept loop; the segment to send back, if any. */
    method AcceptPacket(src: Addr, g: Seg, isn: u32, synAckSent: bool, now: int) returns (reply: Option<Seg>)
      requires WellFormed(View())
      modifies this
      ensures View() == Accepts(old(View()), src, g, isn, synAckSent, now)
      ensures reply == Reply(old(View()), src, g, isn, synAckSent)
    {
      reply := None;
      var at := |heard|;
      heard := heard + [Heard(src, g.flags)];
      if src in connMap && conns[connMap[src]].closed {
        connMap := connMap - {src};
      }
      if src !in connMap && Has(g.flags, SYN) && !Has(g.flags, ACK) {
        if synAckSent {
          reply := Some(Seg(isn, Add32(g.seqNum, 1), SYN + ACK, []));
          connMap := connMap[src := |conns|];
          conns := conns + [Conn(src, Add32(isn, 1), Add32(g.seqNum, 1), false, false, now, at, 0, [])];
        }
        return;
      }
      if src !in connMap {
        return;
      }
      var id := connMap[src];
      var c := conns[id];
      if !c.connected {
        if Has(g.flags, ACK) && !Has(g.flags, SYN) {
          c := c.(connected := true, ackNum := End(g), lastActivity := now, ackAt := at);
          if |g.payload| > 0 && |c.queue| < QUEUE_SIZE {
            c := c.(queue := c.queue + [g.payload]);
          }
          conns := conns[id := c];
          offers := offers + [id];
        }
        return;
      }
      c := c.(lastActivity := now);
      if Has(g.flags, FIN) {
        c := c.(closed := true, ackNum := Add32(g.seqNum, 1));
        reply := Some(PureAck(c.seqNum, c.ackNum));
        connMap := connMap - {src};
      } else if !Has(g.flags, RST) && |g.payload| > 0 {
        c := c.(ackNum := End(g));
        reply := Some(PureAck(c.seqNum, c.ackNum));
        if |c.queue| < QUEUE_SIZE {
          c := c.(queue := c.queue + [g.payload]);
        }
      }
      conns := conns[id := c];
    }

    /** `Accept`: the connection taken from the accept queue loses whatever its receive queue holds. */
    method Accept(id: nat)
      requires WellFormed(View()) && Enabled(View(), AppAccepts(id))
      modifies this`conns
      ensures View() == Step(old(View()), AppAccepts(id))
    {
      var queue := conns[id].queue;
      while queue != []
        decreases |queue|
      {
        queue := queue[1..];
      }
      conns := conns[id := conns[id].(queue := queue)];
    }

    /** `ReadPacket` on an accepted connection with a packet to read. */
    method Read(id: nat) returns (payload: seq<byte>)
      requires WellFormed(View()) && Enabled(View(), AppReads(id))
      modifies this`conns
      ensures payload == old(conns[id].queue[0]) && View() == Step(old(View()), AppReads(id))
    {
      payload := conns[id].queue[0];
      conns := conns[id := conns[id].(queue := conns[id].queue[1..])];
    }

    /** Cleanup, first pass: collect the keys that look stale at `now`. */
    method MarkStale(now: int)
      requires WellFormed(View())
      modifies this`marks
      ensures View() == Step(old(View()), Mark(now))
    {
      var keys, todo: set<Addr> := {}, connMap.Keys;
      while todo != {}
        invariant todo <= connMap.Keys
        invariant keys == set a | a in connMap && a !in todo && Evictable(conns[connMap[a]], now)
      {
        var k :| k in todo;
        var c := conns[connMap[k]];
        if c.closed || (c.lastActivity != 0 && now - c.lastActivity > STALE_TIMEOUT) {
          keys := keys + {k};
        }
        todo := todo - {k};
      }
      marks := Marks(now, keys);
    }

    /** Cleanup, second pass: look at each marked key again and drop it if it is still stale. */
    method SweepStale()
      requires KeysMatch(View())
      modifies this
      ensures View() == Step(old(View()), Sweep)
    {
      ghost var was := View();
      var todo := marks.keys;
      DropNone(was);
      while todo != {}
        invariant todo <= was.marks.keys && View() == Dropped(was, Swept(was) - todo)
      {
        var k :| k in todo;
        DropNext(was, todo, k);
        SweepKey(k);
        todo := todo - {k};
      }
      assert Swept(was) - {} == Swept(was);
      marks := Marks(marks.now, {});
    }

    method SweepKey(k: Addr)
      requires WellFormed(View())
      modifies this`connMap, this`conns
      ensures View() == SweptAt(old(View()), k)
    {
      if k in connMap {
        var id := connMap[k];
        var c := conns[id];
        if c.closed {
          connMap := connMap - {k};
        } else if c.lastActivity != 0 && marks.now - c.lastActivity > STALE_TIMEOUT {
          conns := conns[id := c.(closed := true)];
          connMap := connMap - {k};
        }
      }
    }
  }
}
