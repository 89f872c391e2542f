/** Peer records shared by the P2P manager and the routing table, and every operation on them
    (pkg/p2p/peer.go, pkg/p2p/manager.go, pkg/routing/table.go). Times are nanoseconds. */
module PeerState {
  import opened Bytes

  /** A tunnel address, as the text that keys every map. */
  type IP = string

  // ----- One peer -----

  datatype Peer = Peer(ip: IP, publicAddr: string, localAddr: string, lastSeen: int, latency: nat, loss: real,
                       connected: bool, throughServer: bool, isLocal: bool, sent: nat, received: nat)

  function NewPeer(ip: IP, publicAddr: string, localAddr: string, now: int): Peer {
    Peer(ip, publicAddr, localAddr, now, 0, 0.0, false, false, false, 0, 0)
  }

  function Connected(p: Peer, on: bool): Peer {
    p.(connected := on, throughServer := if on then false else p.throughServer)
  }

  /** `CalculatePacketLoss`: the stored loss changes only when something was lost. */
  function Measured(p: Peer): Peer {
    if p.sent == 0 || p.received >= p.sent then p
    else p.(loss := LossRate(p.sent, p.received))
  }

  function LossRate(sent: nat, received: nat): (l: real)
    requires received < sent
    ensures 0.0 < l <= 1.0
  {
    (sent - received) as real / sent as real
  }

  predicate Healthy(p: Peer) {
    !(p.connected && p.throughServer) && 0.0 <= p.loss <= 1.0
  }

  function RawScore(p: Peer): int {
    100 - p.latency / 1_000_000 / 10 * 5 - (p.loss * 1000.0).Floor
    + (if p.connected then 20 else 0) + (if p.isLocal then 30 else 0) - (if p.throughServer then 30 else 0)
  }

  /** `GetQualityScore` */
  function Quality(p: Peer): (q: int)
    ensures 0 <= q <= 150
  {
    if RawScore(p) < 0 then 0 else if RawScore(p) > 150 then 150 else RawScore(p)
  }

  // ----- Routes -----

  datatype RouteType = Direct | Server

  datatype Route = Route(destination: IP, kind: RouteType, nextHop: Option<IP>, hops: nat, quality: int, updated: int)

  /** What choosing a route does to the peer. */
  function Routed(p: Peer): Peer {
    p.(throughServer := !p.connected)
  }

  /** The route `updateRouteForPeer` stores. */
  function RouteFor(p: Peer, now: int): Route {
    if p.connected then Route(p.ip, Direct, Some(p.ip), 1, Quality(Routed(p)), now)
    else Route(p.ip, Server, None, 1, Quality(Routed(p)), now)
  }

  function Fresh(routes: map<IP, Route>, now: int, timeout: int): map<IP, Route> {
    map ip | ip in routes && now - routes[ip].updated <= timeout :: routes[ip]
  }

  /** Going direct never lowers the score, and raises it by exactly 50 when no bound is hit. */
  lemma DirectIsNeverWorse(p: Peer)
    ensures Quality(Routed(Connected(p, true))) >= Quality(Routed(Connected(p, false)))
    ensures 0 <= RawScore(Routed(Connected(p, false))) <= 100 ==>
              Quality(Routed(Connected(p, true))) == Quality(Routed(Connected(p, false))) + 50
  {
  }

  // ----- The shared state -----

  datatype Conn = Conn(remote: string, isLocal: bool, rtt: int, started: Option<int>, established: bool)

  /** `heap` holds every peer record ever made; the table and the manager hold references into it. `pending`
      are the records added to the table whose announcement has yet to add them to the manager. */
  datatype World = World(heap: seq<Peer>, table: map<IP, nat>, routes: map<IP, Route>,
                         manager: map<IP, nat>, conns: map<IP, Conn>, pending: set<nat>)

  predicate Closed(w: World) {
    && (forall ip | ip in w.table :: w.table[ip] < |w.heap|)
    && (forall ip | ip in w.manager :: w.manager[ip] < |w.heap|)
    && (forall id | id in w.pending :: id < |w.heap|)
  }

  /** An announcement is two locked calls, of the table and then of the manager, and several goroutines
      announce: `TableAdd` makes record `id`, `ManagerAdd` completes its announcement. */
  datatype Op =
    | TableAdd(id: nat, ip: IP, publicAddr: string, localAddr: string, now: int)
    | ManagerAdd(id: nat)
    | Connect(ip: IP, remote: string, isLocal: bool, now: int)
    | Handshake(ip: IP, remote: string, now: int)
    | Keepalive(ip: IP, now: int, due: bool, delivered: bool)
    | CheckQuality(ip: IP, now: int)
    | PacketSent(ip: IP)
    | PacketReceived(ip: IP, now: int)
    | KeepaliveReceived(ip: IP, now: int)
    | Fallback(ip: IP, now: int)
    | UpdateRoutes(now: int)
    | CleanStaleRoutes(now: int, timeout: int)
    | TableRemove(ip: IP)
    | ManagerRemove(ip: IP)

  predicate Enabled(w: World, op: Op) {
    match op
    case TableAdd(id, _, _, _, _) => id == |w.heap|
    case ManagerAdd(id) => id in w.pending
    case _ => true
  }

  function Added(w: World, p: Peer, now: int): World {
    w.(heap := w.heap + [Routed(p)], table := w.table[p.ip := |w.heap|], routes := w.routes[p.ip := RouteFor(p, now)])
  }

  /** At the start the table knows at most the server, which the manager does not (`registerServerPeer`). */
  function Initial(server: Option<IP>, now: int): (w: World)
    ensures Inv(w) && Agree(w) && w.pending == {}
  {
    var empty := World([], map[], map[], map[], map[], {});
    match server
    case Some(ip) => Added(empty, NewPeer(ip, "", "", now).(throughServer := true), now)
    case None => empty
  }

  /** One record is replaced in place: everybody holding it sees the change. */
  function Put(w: World, i: nat, p: Peer): World
    requires i < |w.heap|
  {
    w.(heap := w.heap[i := p])
  }

  /** A handshake from `remote` reaches a known peer. */
  function Greeted(p: Peer, remote: string): Peer {
    var q := p.(isLocal := p.localAddr == remote);
    if p.connected then q else Connected(q, true)
  }

  /** Its connection entry: the address that worked, and the round trip of the first answer. */
  function GreetedConn(c: Conn, p: Option<Peer>, remote: string, now: int): Conn {
    Conn(remote, p.Some? && p.value.localAddr == remote,
         if c.started.Some? then now - c.started.value else c.rtt, None,
         c.established || (p.Some? && !p.value.connected))
  }

  /** A handshake from `remote` was attributed to peer `ip`. */
  function AfterHandshake(w: World, ip: IP, remote: string, now: int): World
    requires Closed(w)
  {
    var p := if ip in w.manager then Some(w.heap[w.manager[ip]]) else None;
    var w1 := if ip in w.conns then w.(conns := w.conns[ip := GreetedConn(w.conns[ip], p, remote, now)]) else w;
    if p.None? then w1 else Put(w1, w.manager[ip], Greeted(p.value, remote))
  }

  const CONNECTION_STALE := 60_000_000_000
  const INITIAL_CONNECTION := 120_000_000_000
  const CRITICAL := 30

  /** One peer's turn in `sendKeepalives`; `due` says the pacing lets it send, `delivered` that the send worked. */
  function AfterKeepalive(p: Peer, c: Conn, now: int, due: bool, delivered: bool): Peer {
    if !p.connected then (if due && delivered then p.(lastSeen := now) else p)
    else if now - p.lastSeen > (if c.established then CONNECTION_STALE else INITIAL_CONNECTION) then Connected(p, false)
    else if due && !delivered then Connected(p, false)
    else p
  }

  function Judged(p: Peer, idle: int): Peer {
    if Quality(p) < CRITICAL && idle > CONNECTION_STALE / 2 then Connected(p.(throughServer := true), false) else p
  }

  /** One peer's turn in `checkConnectionQuality`. */
  function AfterCheck(p: Peer, rtt: int, now: int): Peer {
    if !p.connected then p
    else
      var timed := if rtt > 0 then p.(latency := rtt, lastSeen := now) else p;
      Judged(Measured(timed), now - p.lastSeen).(sent := 0, received := 0)
  }

  predicate IsTurn(op: Op) {
    op.Keepalive? || op.CheckQuality? || op.PacketSent? || op.PacketReceived? || op.KeepaliveReceived?
  }

  /** What the manager's periodic loops and packet counters do to one peer record. */
  function Turned(p: Peer, c: Option<Conn>, op: Op): Peer
    requires IsTurn(op)
  {
    match op
    case Keepalive(_, now, due, delivered) => if c.None? then p else AfterKeepalive(p, c.value, now, due, delivered)
    case CheckQuality(_, now) => if c.None? then p else AfterCheck(p, c.value.rtt, now)
    case PacketSent(_) => p.(sent := p.sent + 1)
    case PacketReceived(_, now) => p.(received := p.received + 1, lastSeen := now)
    case KeepaliveReceived(_, now) => p.(lastSeen := now)
  }

  function AfterTurn(w: World, op: Op): World
    requires Closed(w) && IsTurn(op)
  {
    if op.ip !in w.manager then w
    else
      var c := if op.ip in w.conns then Some(w.conns[op.ip]) else None;
      Put(w, w.manager[op.ip], Turned(w.heap[w.manager[op.ip]], c, op))
  }

  /** `UpdateRoutes` */
  function AllRouted(w: World, now: int): World
    requires Closed(w)
  {
    w.(heap := seq(|w.heap|, i requires 0 <= i < |w.heap| =>
                 if i in w.table.Values then Routed(w.heap[i]) else w.heap[i]),
       routes := w.routes + map ip | ip in w.table :: RouteFor(w.heap[w.table[ip]], now))
  }

  /** What a failed P2P send does to the peer. */
  function Dropped(p: Peer): Peer {
    Connected(p, false).(throughServer := true)
  }

  /** `markPeerFallbackToServer` */
  function FallenBack(w: World, ip: IP, now: int): World
    requires Closed(w) && ip in w.table
  {
    AllRouted(Put(w, w.table[ip], Dropped(w.heap[w.table[ip]])), now)
  }

  function Step(w: World, op: Op): World
    requires Closed(w) && Enabled(w, op)
  {
    match op
    case TableAdd(id, ip, publicAddr, localAddr, now) =>
      Added(w, NewPeer(ip, publicAddr, localAddr, now), now).(pending := w.pending + {id})
    case ManagerAdd(id) => w.(manager := w.manager[w.heap[id].ip := id], pending := w.pending - {id})
    case Connect(ip, remote, isLocal, now) =>
      if ip !in w.manager || (ip in w.conns && w.heap[w.manager[ip]].connected) then w
      else w.(conns := w.conns[ip := Conn(remote, isLocal, 0, Some(now), false)])
    case Handshake(ip, remote, now) => AfterHandshake(w, ip, remote, now)
    case Keepalive(_, _, _, _) => AfterTurn(w, op)
    case CheckQuality(_, _) => AfterTurn(w, op)
    case PacketSent(_) => AfterTurn(w, op)
    case PacketReceived(_, _) => AfterTurn(w, op)
    case KeepaliveReceived(_, _) => AfterTurn(w, op)
    case Fallback(ip, now) =>
      if ip !in w.table then w else FallenBack(w, ip, now)
    case UpdateRoutes(now) => AllRouted(w, now)
    case CleanStaleRoutes(now, timeout) => w.(routes := Fresh(w.routes, now, timeout))
    case TableRemove(ip) => w.(table := w.table - {ip}, routes := w.routes - {ip})
    case ManagerRemove(ip) => w.(manager := w.manager - {ip}, conns := w.conns - {ip})
  }

  // ----- What every step keeps -----

  ghost predicate Inv(w: World) {
    && Closed(w)
    && (forall i | 0 <= i < |w.heap| :: Healthy(w.heap[i]))
    && (forall ip | ip in w.table :: w.heap[w.table[ip]].ip == ip)
    && (forall ip | ip in w.manager :: w.heap[w.manager[ip]].ip == ip)
    && w.routes.Keys <= w.table.Keys
    && (forall ip | ip in w.routes :: w.routes[ip].destination == ip && 0 <= w.routes[ip].quality <= 150)
  }

  lemma PutKeeps(w: World, i: nat, p: Peer)
    requires Inv(w) && i < |w.heap| && Healthy(p) && p.ip == w.heap[i].ip
    ensures Inv(Put(w, i, p))
  {
  }

  lemma TurnKeepsHealth(p: Peer, c: Option<Conn>, op: Op)
    requires Healthy(p) && IsTurn(op)
    ensures Healthy(Turned(p, c, op)) && Turned(p, c, op).ip == p.ip
    ensures p.loss > 0.0 ==> Turned(p, c, op).loss > 0.0
  {
  }

  lemma AllRoutedKeeps(w: World, now: int)
    requires Inv(w)
    ensures Inv(AllRouted(w, now))
  {
  }

  lemma AddedKeeps(w: World, p: Peer, now: int)
    requires Inv(w) && p.loss == 0.0
    ensures Inv(Added(w, p, now)) && Inv(Added(w, p, now).(pending := w.pending + {|w.heap|}))
  {
    AddedReferences(w, p, now);
    AddedRoutes(w, p, now);
  }

  lemma AddedReferences(w: World, p: Peer, now: int)
    requires Inv(w) && p.loss == 0.0
    ensures var u := Added(w, p, now);
            && Closed(u) && (forall i | 0 <= i < |u.heap| :: Healthy(u.heap[i]))
            && (forall ip | ip in u.table :: u.heap[u.table[ip]].ip == ip)
            && (forall ip | ip in u.manager :: u.heap[u.manager[ip]].ip == ip)
  {
    var u := Added(w, p, now);
    assert forall i | 0 <= i < |w.heap| :: u.heap[i] == w.heap[i];
    assert Healthy(u.heap[|w.heap|]) && u.heap[|w.heap|].ip == p.ip;
  }

  lemma AddedRoutes(w: World, p: Peer, now: int)
    requires Inv(w)
    ensures var u := Added(w, p, now);
            && u.routes.Keys <= u.table.Keys
            && forall ip | ip in u.routes :: u.routes[ip].destination == ip && 0 <= u.routes[ip].quality <= 150
  {
  }

  lemma ManagerAddKeeps(w: World, id: nat)
    requires Inv(w) && id in w.pending
    ensures Inv(Step(w, ManagerAdd(id)))
  {
  }

  lemma HandshakeKeeps(w: World, ip: IP, remote: string, now: int)
    requires Inv(w)
    ensures Inv(AfterHandshake(w, ip, remote, now))
  {
  }

  lemma TurnKeeps(w: World, op: Op)
    requires Inv(w) && IsTurn(op)
    ensures Inv(AfterTurn(w, op))
  {
    if op.ip in w.manager {
      var p := w.heap[w.manager[op.ip]];
      var c := if op.ip in w.conns then Some(w.conns[op.ip]) else None;
      TurnKeepsHealth(p, c, op);
      PutKeeps(w, w.manager[op.ip], Turned(p, c, op));
    }
  }

  lemma FallbackKeeps(w: World, ip: IP, now: int)
    requires Inv(w) && ip in w.table
    ensures Inv(FallenBack(w, ip, now))
  {
    var p := Dropped(w.heap[w.table[ip]]);
    PutKeeps(w, w.table[ip], p);
    AllRoutedKeeps(Put(w, w.table[ip], p), now);
  }

  lemma RemovalKeeps(w: World, op: Op)
    requires Inv(w) && (op.CleanStaleRoutes? || op.TableRemove? || op.ManagerRemove? || op.Connect?)
    ensures Inv(Step(w, op))
  {
    match op
    case CleanStaleRoutes(now, timeout) =>
    case TableRemove(ip) =>
    case ManagerRemove(ip) =>
    case Connect(_, _, _, _) =>
  }

  lemma StepKeeps(w: World, op: Op)
    requires Inv(w) && Enabled(w, op)
    ensures Inv(Step(w, op))
  {
    match op
    case TableAdd(_, ip, publicAddr, localAddr, now) => AddedKeeps(w, NewPeer(ip, publicAddr, localAddr, now), now);
    case ManagerAdd(id) => ManagerAddKeeps(w, id);
    case Handshake(ip, remote, now) => HandshakeKeeps(w, ip, remote, now);
    case Fallback(ip, now) => if ip in w.table { FallbackKeeps(w, ip, now); }
    case UpdateRoutes(now) => AllRoutedKeeps(w, now);
    case Keepalive(_, _, _, _) => TurnKeeps(w, op);
    case CheckQuality(_, _) => TurnKeeps(w, op);
    case PacketSent(_) => TurnKeeps(w, op);
    case PacketReceived(_, _) => TurnKeeps(w, op);
    case KeepaliveReceived(_, _) => TurnKeeps(w, op);
    case _ => RemovalKeeps(w, op);
  }

  /** Every call is one that can happen. */
  ghost predicate Legal(w: World, ops: seq<Op>)
    requires Inv(w)
    decreases |ops|, 0
  {
    ops == [] || (Legal(w, ops[..|ops| - 1]) && Enabled(Run(w, ops[..|ops| - 1]), ops[|ops| - 1]))
  }

  ghost function Run(w: World, ops: seq<Op>): (r: World)
    requires Inv(w) && Legal(w, ops)
    ensures Inv(r)
    decreases |ops|, 1
  {
    if ops == [] then w
    else
      var before := Run(w, ops[..|ops| - 1]);
      StepKeeps(before, ops[|ops| - 1]);
      Step(before, ops[|ops| - 1])
  }

  /** After every run: no peer record is both connected and routed through the server, and every route belongs
      to a known peer with a quality in 0..150. */
  lemma {:induction false} NeverBoth(server: Option<IP>, start: int, ops: seq<Op>, w: World)
    requires Legal(Initial(server, start), ops) && w == Run(Initial(server, start), ops)
    ensures forall i | 0 <= i < |w.heap| :: !(w.heap[i].connected && w.heap[i].throughServer)
    ensures forall ip | ip in w.routes ::
              ip in w.table && w.routes[ip].destination == ip && 0 <= w.routes[ip].quality <= 150
  {
  }

  // ----- Routes against peers -----

  /** The route says what the peer record says. */
  predicate Says(r: Route, p: Peer) {
    && (r.kind == Direct <==> p.connected)
    && p.throughServer == !p.connected
    && r.nextHop == (if p.connected then Some(p.ip) else None)
    && r.quality == Quality(p) && r.hops == 1
  }

  ghost predicate Settled(w: World)
    requires Closed(w)
  {
    w.routes.Keys == w.table.Keys && forall ip | ip in w.table :: Says(w.routes[ip], w.heap[w.table[ip]])
  }

  lemma RoutedAt(w: World, now: int, ip: IP)
    requires Closed(w) && ip in w.table
    ensures Closed(AllRouted(w, now)) && ip in AllRouted(w, now).routes
    ensures AllRouted(w, now).heap[w.table[ip]] == Routed(w.heap[w.table[ip]])
    ensures AllRouted(w, now).routes[ip] == RouteFor(w.heap[w.table[ip]], now)
  {
    assert w.table[ip] in w.table.Values;
  }

  lemma AllRoutedSettles(w: World, now: int)
    requires Inv(w)
    ensures Closed(AllRouted(w, now)) && Settled(AllRouted(w, now))
  {
    forall ip | ip in w.table
      ensures Says(AllRouted(w, now).routes[ip], AllRouted(w, now).heap[w.table[ip]])
    {
      RoutedAt(w, now, ip);
    }
  }

  /** `UpdateRoutes` gives every known peer exactly one route: direct if and only if it is connected, with its
      current quality; the connected flags stay as they are. */
  lemma UpdateSettles(w: World, now: int)
    requires Inv(w)
    ensures var u := AllRouted(w, now);
            Closed(u) && Settled(u) && |u.heap| == |w.heap| && u.table == w.table
            && forall i | 0 <= i < |w.heap| :: u.heap[i].connected == w.heap[i].connected
  {
    AllRoutedSettles(w, now);
  }

  /** A fallback leaves that peer on a server route, and all routes settled. */
  lemma FallbackSettles(w: World, ip: IP, now: int)
    requires Inv(w) && ip in w.table
    ensures var u := FallenBack(w, ip, now);
            Closed(u) && Settled(u) && ip in u.routes && u.routes[ip].kind == Server
  {
    var v := Put(w, w.table[ip], Dropped(w.heap[w.table[ip]]));
    PutKeeps(w, w.table[ip], Dropped(w.heap[w.table[ip]]));
    AllRoutedSettles(v, now);
    RoutedAt(v, now, ip);
  }

  /** The periodic loop updates, then cleans with a timeout: every peer keeps its route if and only if no more
      than the timeout passed in between. */
  lemma {:induction false} UpdateThenClean(w: World, t1: int, t2: int, timeout: int)
    requires Inv(w) && w.table != map[]
    ensures Fresh(AllRouted(w, t1).routes, t2, timeout).Keys == w.table.Keys <==> t2 - t1 <= timeout
  {
    AllUpdated(w, t1);
    CleaningKeeps(AllRouted(w, t1).routes, t1, t2, timeout);
  }

  lemma AllUpdated(w: World, now: int)
    requires Inv(w)
    ensures Closed(AllRouted(w, now)) && AllRouted(w, now).routes.Keys == w.table.Keys
    ensures forall ip | ip in w.table :: AllRouted(w, now).routes[ip].updated == now
  {
    forall ip | ip in w.table
      ensures AllRouted(w, now).routes[ip].updated == now
    {
      RoutedAt(w, now, ip);
    }
  }

  lemma CleaningKeeps(routes: map<IP, Route>, t1: int, t2: int, timeout: int)
    requires routes != map[] && forall ip | ip in routes :: routes[ip].updated == t1
    ensures Fresh(routes, t2, timeout).Keys == routes.Keys <==> t2 - t1 <= timeout
  {
    var ip :| ip in routes;
    if t2 - t1 > timeout {
      assert ip !in Fresh(routes, t2, timeout);
    }
  }

  // ----- The table against the manager -----

  /** Where both know a peer, they hold the same record, or the table's is one whose announcement is under way. */
  ghost predicate Agree(w: World) {
    forall ip | ip in w.table && ip in w.manager :: w.table[ip] == w.manager[ip] || w.table[ip] in w.pending
  }

  /** An announcement completes after a later one of the same address, still in the table, has done so. */
  predicate Overtaken(w: World, op: Op)
    requires Closed(w) && Enabled(w, op)
  {
    && op.ManagerAdd? && w.heap[op.id].ip in w.table
    && w.table[w.heap[op.id].ip] != op.id && w.table[w.heap[op.id].ip] !in w.pending
  }

  lemma AgreementIsKept(w: World, op: Op)
    requires Inv(w) && Agree(w) && Enabled(w, op)
    ensures Agree(Step(w, op)) <==> !Overtaken(w, op)
  {
    match op
    case TableAdd(_, _, _, _, _) =>
    case ManagerAdd(id) => ManagerAddAgrees(w, id);
    case _ => assert Step(w, op).pending == w.pending;
  }

  lemma ManagerAddAgrees(w: World, id: nat)
    requires Inv(w) && Agree(w) && id in w.pending
    ensures Agree(Step(w, ManagerAdd(id))) <==> !Overtaken(w, ManagerAdd(id))
  {
    var u, ip := Step(w, ManagerAdd(id)), w.heap[id].ip;
    assert forall a | a in u.table && a in u.manager && a != ip ::
        u.table[a] == u.manager[a] || u.table[a] in u.pending;
    assert ip in u.manager && u.manager[ip] == id;
  }

  /** No call of a run is overtaken. */
  ghost predicate InOrder(w: World, ops: seq<Op>)
    requires Inv(w) && Legal(w, ops)
    decreases |ops|
  {
    ops == [] || (InOrder(w, ops[..|ops| - 1]) && !Overtaken(Run(w, ops[..|ops| - 1]), ops[|ops| - 1]))
  }

  ghost predicate AlwaysAgrees(w: World, ops: seq<Op>)
    requires Inv(w) && Legal(w, ops)
    decreases |ops|
  {
    Agree(Run(w, ops)) && (ops != [] ==> AlwaysAgrees(w, ops[..|ops| - 1]))
  }

  /** Over every run, table and manager agree at every moment if and only if no announcement is overtaken. */
  lemma {:induction false} AgreementIff(w: World, ops: seq<Op>)
    requires Inv(w) && Agree(w) && Legal(w, ops)
    ensures AlwaysAgrees(w, ops) <==> InOrder(w, ops)
    decreases |ops|
  {
    if ops != [] {
      var before := Run(w, ops[..|ops| - 1]);
      AgreementIff(w, ops[..|ops| - 1]);
      if AlwaysAgrees(w, ops[..|ops| - 1]) {
        AgreementIsKept(before, ops[|ops| - 1]);
      }
    }
  }

  // ----- On calls: announcements that do not cross -----

  /** No announcement of an address begins between the two calls of another one. */
  predicate Uncrossed(ops: seq<Op>) {
    forall i, j, k | 0 <= i < j < k < |ops| && ops[i].TableAdd? && ops[j].TableAdd?
        && ops[k] == ManagerAdd(ops[i].id) ::
      ops[j].ip != ops[i].ip
  }

  lemma TurnKeepsIPs(w: World, op: Op, i: nat)
    requires Inv(w) && IsTurn(op) && i < |w.heap|
    ensures |AfterTurn(w, op).heap| == |w.heap| && AfterTurn(w, op).heap[i].ip == w.heap[i].ip
  {
    var c := if op.ip in w.conns then Some(w.conns[op.ip]) else None;
    TurnKeepsHealth(w.heap[i], c, op);
  }

  lemma RoutedKeepsIPs(w: World, now: int, i: nat)
    requires Closed(w) && i < |w.heap|
    ensures |AllRouted(w, now).heap| == |w.heap| && AllRouted(w, now).heap[i].ip == w.heap[i].ip
  {
  }

  lemma FallbackKeepsIPs(w: World, ip: IP, now: int, i: nat)
    requires Closed(w) && i < |w.heap| && ip in w.table
    ensures |FallenBack(w, ip, now).heap| == |w.heap| && FallenBack(w, ip, now).heap[i].ip == w.heap[i].ip
  {
    RoutedKeepsIPs(Put(w, w.table[ip], Dropped(w.heap[w.table[ip]])), now, i);
  }

  /** No step changes the address in a record. */
  lemma StepKeepsIPs(w: World, op: Op, i: nat)
    requires Inv(w) && Enabled(w, op) && i < |w.heap|
    ensures i < |Step(w, op).heap| && Step(w, op).heap[i].ip == w.heap[i].ip
  {
    if IsTurn(op) {
      TurnKeepsIPs(w, op, i);
    } else if op.UpdateRoutes? {
      RoutedKeepsIPs(w, op.now, i);
    } else if op.Fallback? {
      if op.ip in w.table {
        FallbackKeepsIPs(w, op.ip, op.now, i);
      }
    } else if op.Handshake? {
      assert |AfterHandshake(w, op.ip, op.remote, op.now).heap| == |w.heap|;
    }
  }

  /** Only an announcement adds to the table. */
  lemma StepTable(w: World, op: Op)
    requires Inv(w) && Enabled(w, op) && !op.TableAdd?
    ensures Step(w, op).pending <= w.pending
    ensures forall ip | ip in Step(w, op).table :: ip in w.table && Step(w, op).table[ip] == w.table[ip]
  {
  }

  /** Record `id` was added by call `i`, and the table still has it unless its address was added again or removed. */
  ghost predicate AddedBy(w: World, ops: seq<Op>, id: nat, i: nat)
    requires Closed(w) && id < |w.heap|
  {
    && i < |ops| && ops[i].TableAdd? && ops[i].id == id && ops[i].ip == w.heap[id].ip
    && ((forall j | i < j < |ops| && ops[j].TableAdd? :: ops[j].ip != ops[i].ip) ==>
          (ops[i].ip in w.table ==> w.table[ops[i].ip] == id))
  }

  lemma {:induction false} PendingWasAdded(w: World, ops: seq<Op>, id: nat, r: World)
    requires Inv(w) && w.pending == {} && Legal(w, ops) && r == Run(w, ops) && id in r.pending
    ensures exists i: nat :: AddedBy(r, ops, id, i)
    decreases |ops|
  {
    var n := |ops| - 1;
    var before := Run(w, ops[..n]);
    assert ops[..n] + [ops[n]] == ops;
    if id in before.pending {
      PendingWasAdded(w, ops[..n], id, before);
      var i: nat :| AddedBy(before, ops[..n], id, i);
      AddedByStays(before, ops[..n], ops[n], id, i);
    } else {
      AddedByLast(before, ops[..n], ops[n], id);
    }
  }

  lemma AddedByLast(w: World, ops: seq<Op>, op: Op, id: nat)
    requires Inv(w) && Enabled(w, op) && id !in w.pending && id in Step(w, op).pending
    ensures Closed(Step(w, op)) && id < |Step(w, op).heap| && AddedBy(Step(w, op), ops + [op], id, |ops|)
  {
    StepKeeps(w, op);
    if !op.TableAdd? {
      StepTable(w, op);
    }
  }

  lemma AddedByStays(w: World, ops: seq<Op>, op: Op, id: nat, i: nat)
    requires Inv(w) && Enabled(w, op) && id < |w.heap| && AddedBy(w, ops, id, i)
    ensures Closed(Step(w, op)) && id < |Step(w, op).heap| && AddedBy(Step(w, op), ops + [op], id, i)
  {
    StepKeeps(w, op);
    StepKeepsIPs(w, op, id);
    if !op.TableAdd? {
      StepTable(w, op);
    }
    var all := ops + [op];
    if forall j | i < j < |all| && all[j].TableAdd? :: all[j].ip != all[i].ip {
      assert forall j | i < j < |ops| :: all[j] == ops[j];
      assert all[|ops|] == op;
    }
  }

  lemma {:induction false} UncrossedIsInOrder(w: World, ops: seq<Op>)
    requires Inv(w) && w.pending == {} && Legal(w, ops) && Uncrossed(ops)
    ensures InOrder(w, ops)
    decreases |ops|
  {
    if ops != [] {
      var n := |ops| - 1;
      UncrossedIsInOrder(w, ops[..n]);
      if ops[n].ManagerAdd? {
        PendingWasAdded(w, ops[..n], ops[n].id, Run(w, ops[..n]));
        NotOvertaken(Run(w, ops[..n]), ops, n);
      }
    }
  }

  lemma NotOvertaken(w: World, ops: seq<Op>, n: nat)
    requires n < |ops| && ops[n].ManagerAdd? && Uncrossed(ops) && Closed(w) && Enabled(w, ops[n])
    requires exists i: nat :: AddedBy(w, ops[..n], ops[n].id, i)
    ensures !Overtaken(w, ops[n])
  {
    var i: nat :| AddedBy(w, ops[..n], ops[n].id, i);
    assert forall j | 0 <= j < n :: ops[j] == ops[..n][j];
  }

  lemma Extended(w: World, ops: seq<Op>, op: Op)
    requires Inv(w) && Legal(w, ops) && Enabled(Run(w, ops), op)
    ensures Legal(w, ops + [op]) && Run(w, ops + [op]) == Step(Run(w, ops), op)
  {
    assert (ops + [op])[..|ops|] == ops;
  }

  /** `IsConnected` */
  predicate IsConnected(w: World, ip: IP)
    requires Closed(w)
  {
    ip in w.conns && ip in w.manager && w.heap[w.manager[ip]].connected
  }

  lemma ManagerRoute(w: World, now: int, ip: IP)
    requires Inv(w) && Agree(w) && ip in w.table && ip in w.manager && w.table[ip] !in w.pending
    ensures var u := AllRouted(w, now);
            && Closed(u) && ip in u.routes && ip in u.manager
            && (u.routes[ip].kind == Direct <==> u.heap[u.manager[ip]].connected)
            && (IsConnected(u, ip) <==> ip in u.conns && u.routes[ip].kind == Direct)
  {
    RoutedAt(w, now, ip);
  }

  /** Over every run in which no announcement is overtaken: after an update, a peer known to both has a direct
      route if and only if the manager holds it connected, and traffic goes to it directly if and only if it has
      a direct route and a connection entry. */
  lemma {:induction false} RoutesFollowTheManager(server: Option<IP>, start: int, ops: seq<Op>, now: int, ip: IP,
                                                  w: World, u: World)
    requires Legal(Initial(server, start), ops) && InOrder(Initial(server, start), ops)
    requires w == Run(Initial(server, start), ops) && u == AllRouted(w, now)
    requires ip in w.table && ip in w.manager && w.table[ip] !in w.pending
    ensures Closed(u) && ip in u.routes && ip in u.manager
    ensures u.routes[ip].kind == Direct <==> u.heap[u.manager[ip]].connected
    ensures IsConnected(u, ip) <==> ip in u.conns && u.routes[ip].kind == Direct
  {
    AgreementIff(Initial(server, start), ops);
    ManagerRoute(w, now, ip);
  }

  /** Two goroutines announce the same address; the calls cross, and the records stay apart. */
  function Crossing(ip: IP): seq<Op> {
    [TableAdd(0, ip, "p", "l", 0), TableAdd(1, ip, "p", "l", 0), ManagerAdd(1), ManagerAdd(0)]
  }

  /** The state with two records of one address: `t` is the table's, `m` the manager's if it has one. */
  function TwoRecords(ip: IP, m: Option<nat>, pending: set<nat>): World {
    var p := NewPeer(ip, "p", "l", 0);
    World([Routed(p), Routed(p)], map[ip := 1], map[ip := RouteFor(p, 0)],
          if m.Some? then map[ip := m.value] else map[], map[], pending)
  }

  lemma TwoAdded(ip: IP)
    ensures var w1 := Step(Initial(None, 0), Crossing(ip)[0]);
            StepsTo(Initial(None, 0), Crossing(ip)[0], w1) && StepsTo(w1, Crossing(ip)[1], TwoRecords(ip, None, {0, 1}))
  {
    var w1 := Step(Initial(None, 0), Crossing(ip)[0]);
    assert w1.table == map[ip := 0] && w1.pending == {0};
  }

  lemma TwoCompleted(ip: IP)
    ensures StepsTo(TwoRecords(ip, None, {0, 1}), ManagerAdd(1), TwoRecords(ip, Some(1), {0}))
    ensures StepsTo(TwoRecords(ip, Some(1), {0}), ManagerAdd(0), TwoRecords(ip, Some(0), {}))
  {
    assert {0, 1} - {1} == {0} && {0} - {0} == {};
  }

  lemma CrossingIsLegal(ip: IP)
    ensures Legal(Initial(None, 0), Crossing(ip))
    ensures Run(Initial(None, 0), Crossing(ip)) == TwoRecords(ip, Some(0), {})
    ensures !Agree(TwoRecords(ip, Some(0), {})) && !Uncrossed(Crossing(ip))
  {
    var w0, c := Initial(None, 0), Crossing(ip);
    TwoAdded(ip);
    TwoCompleted(ip);
    TrailRuns([w0, Step(w0, c[0]), TwoRecords(ip, None, {0, 1}), TwoRecords(ip, Some(1), {0}),
        TwoRecords(ip, Some(0), {})], c);
    assert ip in TwoRecords(ip, Some(0), {}).table;
    assert c[0].TableAdd? && c[1].TableAdd? && c[3] == ManagerAdd(c[0].id);
  }

  predicate StepsTo(w: World, op: Op, u: World) {
    Closed(w) && Enabled(w, op) && Step(w, op) == u
  }

  /** A legal run given by its states. */
  lemma {:induction false} TrailRuns(ws: seq<World>, ops: seq<Op>)
    requires |ws| == |ops| + 1 && Inv(ws[0]) && forall k | 0 <= k < |ops| :: StepsTo(ws[k], ops[k], ws[k + 1])
    ensures Legal(ws[0], ops) && Run(ws[0], ops) == ws[|ops|]
    decreases |ops|
  {
    if ops != [] {
      var n := |ops| - 1;
      TrailRuns(ws[..|ops|], ops[..n]);
      assert StepsTo(ws[n], ops[n], ws[n + 1]) && ops[..n] + [ops[n]] == ops;
      Extended(ws[0], ops[..n], ops[n]);
    }
  }

  /** After that a connection and a handshake reach the manager's record alone: traffic goes directly while
      every update of the table gives the peer a server route. */
  lemma CrossedAnnouncements(ip: IP, remote: string, now: int, w: World, u: World)
    requires w == TwoRecords(ip, Some(0), {})
    ensures Legal(Initial(None, 0), Crossing(ip)) && w == Run(Initial(None, 0), Crossing(ip)) && Closed(w)
    ensures var w1 := Step(w, Connect(ip, remote, false, 0));
            Closed(w1) && Closed(Step(w1, Handshake(ip, remote, 0)))
            && (u == AllRouted(Step(w1, Handshake(ip, remote, 0)), now) ==>
                  Closed(u) && IsConnected(u, ip) && ip in u.routes && u.routes[ip].kind == Server)
  {
    CrossingIsLegal(ip);
    var w1 := Step(w, Connect(ip, remote, false, 0));
    var w2 := Step(w1, Handshake(ip, remote, 0));
    assert w2.table == map[ip := 1] && w2.manager == map[ip := 0] && w2.heap[0].connected && !w2.heap[1].connected;
    RoutedAt(w2, now, ip);
  }

  // ----- Loss -----

  /** A quality check of a connected record with a connection entry that received less than was sent. */
  predicate Measures(w: World, op: Op, i: nat)
    requires Closed(w) && i < |w.heap|
  {
    && op.CheckQuality? && op.ip in w.conns && op.ip in w.manager && w.manager[op.ip] == i
    && w.heap[i].connected && w.heap[i].received < w.heap[i].sent
  }

  lemma LossOfTurn(p: Peer, c: Option<Conn>, op: Op)
    requires IsTurn(op) && p.loss >= 0.0
    ensures Turned(p, c, op).loss == 0.0 <==>
              p.loss == 0.0 && !(op.CheckQuality? && c.Some? && p.connected && p.received < p.sent)
    ensures Turned(p, c, op).loss >= 0.0
  {
  }

  lemma LossAfterTurn(w: World, op: Op, i: nat)
    requires Inv(w) && IsTurn(op) && i < |w.heap|
    ensures i < |AfterTurn(w, op).heap|
    ensures AfterTurn(w, op).heap[i].loss == 0.0 <==> w.heap[i].loss == 0.0 && !Measures(w, op, i)
  {
    var c := if op.ip in w.conns then Some(w.conns[op.ip]) else None;
    LossOfTurn(w.heap[i], c, op);
  }

  lemma LossStaysHandshake(w: World, ip: IP, remote: string, now: int, i: nat)
    requires Closed(w) && i < |w.heap|
    ensures i < |AfterHandshake(w, ip, remote, now).heap|
        && AfterHandshake(w, ip, remote, now).heap[i].loss == w.heap[i].loss
  {
  }

  lemma LossStaysRouted(w: World, now: int, i: nat)
    requires Closed(w) && i < |w.heap|
    ensures i < |AllRouted(w, now).heap| && AllRouted(w, now).heap[i].loss == w.heap[i].loss
  {
  }

  lemma LossStaysFallback(w: World, ip: IP, now: int, i: nat)
    requires Closed(w) && i < |w.heap| && ip in w.table
    ensures i < |FallenBack(w, ip, now).heap| && FallenBack(w, ip, now).heap[i].loss == w.heap[i].loss
  {
    LossStaysRouted(Put(w, w.table[ip], Dropped(w.heap[w.table[ip]])), now, i);
  }

  lemma LossAfterStep(w: World, op: Op, i: nat)
    requires Inv(w) && Enabled(w, op) && i < |w.heap|
    ensures i < |Step(w, op).heap|
    ensures Step(w, op).heap[i].loss == 0.0 <==> w.heap[i].loss == 0.0 && !Measures(w, op, i)
  {
    if IsTurn(op) {
      LossAfterTurn(w, op, i);
    } else if op.Handshake? {
      LossStaysHandshake(w, op.ip, op.remote, op.now, i);
    } else if op.UpdateRoutes? {
      LossStaysRouted(w, op.now, i);
    } else if op.Fallback? {
      if op.ip in w.table {
        LossStaysFallback(w, op.ip, op.now, i);
      }
    } else {
      assert forall k | 0 <= k < |w.heap| :: Step(w, op).heap[k] == w.heap[k];
    }
  }

  /** No call of the run measures a loss for record `i`. */
  ghost predicate NeverMeasured(w: World, ops: seq<Op>, i: nat)
    requires Inv(w) && Legal(w, ops) && i < |w.heap|
    decreases |ops|
  {
    ops == [] || (NeverMeasured(w, ops[..|ops| - 1], i)
                  && var r := Run(w, ops[..|ops| - 1]); i < |r.heap| && !Measures(r, ops[|ops| - 1], i))
  }

  /** A record's stored loss is zero after a run if and only if it was at the start and no quality check of the
      run found the record connected, with a connection entry, and less received than sent. */
  lemma {:induction false} LossIff(w: World, ops: seq<Op>, i: nat)
    requires Inv(w) && Legal(w, ops) && i < |w.heap|
    ensures i < |Run(w, ops).heap|
    ensures Run(w, ops).heap[i].loss == 0.0 <==> w.heap[i].loss == 0.0 && NeverMeasured(w, ops, i)
    decreases |ops|
  {
    if ops != [] {
      LossIff(w, ops[..|ops| - 1], i);
      LossAfterStep(Run(w, ops[..|ops| - 1]), ops[|ops| - 1], i);
    }
  }

  /** So a recorded loss never goes away: later loss-free periods leave it, later lossy ones replace it by a
      positive rate. */
  lemma {:induction false} LossStays(w: World, ops: seq<Op>, i: nat)
    requires Inv(w) && Legal(w, ops) && i < |w.heap| && w.heap[i].loss > 0.0
    ensures i < |Run(w, ops).heap| && Run(w, ops).heap[i].loss > 0.0
  {
    LossIff(w, ops, i);
    assert Healthy(Run(w, ops).heap[i]);
  }

  // ----- A recorded loss that stays, step by step -----

  /** One peer's record `p` in the table, in the manager if `managed`, with connection entry `c` if there is one. */
  function OnePeer(ip: IP, p: Peer, managed: bool, c: Option<Conn>): World {
    World([p], map[ip := 0], map[ip := RouteFor(NewPeer(ip, "p", "l", 0), 0)], if managed then map[ip := 0] else map[],
          if c.Some? then map[ip := c.value] else map[], if managed then {} else {0})
  }

  const OPEN := Conn("p", false, 0, None, true)

  function Opened(ip: IP): Peer {
    Connected(Routed(NewPeer(ip, "p", "l", 0)), true)
  }

  function Dialled(ip: IP): World {
    OnePeer(ip, Routed(NewPeer(ip, "p", "l", 0)), true, Some(Conn("p", false, 0, Some(0), false)))
  }

  lemma Announcing(ip: IP)
    ensures var p := Routed(NewPeer(ip, "p", "l", 0));
            && StepsTo(Initial(None, 0), TableAdd(0, ip, "p", "l", 0), OnePeer(ip, p, false, None))
            && StepsTo(OnePeer(ip, p, false, None), ManagerAdd(0), OnePeer(ip, p, true, None))
  {
    assert {0} - {0} == {};
  }

  lemma Opening(ip: IP)
    ensures StepsTo(OnePeer(ip, Routed(NewPeer(ip, "p", "l", 0)), true, None), Connect(ip, "p", false, 0), Dialled(ip))
    ensures StepsTo(Dialled(ip), Handshake(ip, "p", 0), OnePeer(ip, Opened(ip), true, Some(OPEN)))
  {
    assert AfterHandshake(Dialled(ip), ip, "p", 0) == OnePeer(ip, Opened(ip), true, Some(OPEN));
  }

  lemma OneTurn(ip: IP, p: Peer, q: Peer, op: Op)
    requires IsTurn(op) && op.ip == ip && q == Turned(p, Some(OPEN), op)
    ensures StepsTo(OnePeer(ip, p, true, Some(OPEN)), op, OnePeer(ip, q, true, Some(OPEN)))
  {
  }

  /** A period in which the only packet is lost, then one without any loss. */
  lemma TwoPeriods(ip: IP, p: Peer)
    requires p == Opened(ip)
    ensures Turned(p, Some(OPEN), PacketSent(ip)) == p.(sent := 1)
    ensures Turned(p.(sent := 1), Some(OPEN), CheckQuality(ip, 0)) == p.(loss := 1.0)
    ensures Turned(p.(loss := 1.0), Some(OPEN), PacketSent(ip)) == p.(loss := 1.0, sent := 1)
    ensures Turned(p.(loss := 1.0, sent := 1), Some(OPEN), PacketReceived(ip, 0))
        == p.(loss := 1.0, sent := 1, received := 1)
    ensures Turned(p.(loss := 1.0, sent := 1, received := 1), Some(OPEN), CheckQuality(ip, 0)) == p.(loss := 1.0)
  {
  }

  /** After the clean period the recorded rate is still 1. */
  lemma LossWitness(ip: IP, ops: seq<Op>)
    requires ops == [TableAdd(0, ip, "p", "l", 0), ManagerAdd(0), Connect(ip, "p", false, 0), Handshake(ip, "p", 0),
                     PacketSent(ip), CheckQuality(ip, 0), PacketSent(ip), PacketReceived(ip, 0), CheckQuality(ip, 0)]
    ensures Legal(Initial(None, 0), ops)
    ensures Run(Initial(None, 0), ops) == OnePeer(ip, Opened(ip).(loss := 1.0), true, Some(OPEN))
  {
    var ws := LossTrail(ip, Opened(ip), ops);
    TrailRuns(ws, ops);
  }

  lemma LossTrail(ip: IP, p: Peer, ops: seq<Op>) returns (ws: seq<World>)
    requires p == Opened(ip)
    requires ops == [TableAdd(0, ip, "p", "l", 0), ManagerAdd(0), Connect(ip, "p", false, 0), Handshake(ip, "p", 0),
                     PacketSent(ip), CheckQuality(ip, 0), PacketSent(ip), PacketReceived(ip, 0), CheckQuality(ip, 0)]
    ensures |ws| == |ops| + 1 && ws[0] == Initial(None, 0) && forall k | 0 <= k < |ops| ::
        StepsTo(ws[k], ops[k], ws[k + 1])
    ensures ws[|ops|] == OnePeer(ip, p.(loss := 1.0), true, Some(OPEN))
  {
    Announcing(ip);
    Opening(ip);
    TwoPeriods(ip, p);
    var q := p.(loss := 1.0);
    OneTurn(ip, p, p.(sent := 1), ops[4]);
    OneTurn(ip, p.(sent := 1), q, ops[5]);
    OneTurn(ip, q, q.(sent := 1), ops[6]);
    OneTurn(ip, q.(sent := 1), q.(sent := 1, received := 1), ops[7]);
    OneTurn(ip, q.(sent := 1, received := 1), q, ops[8]);
    var r := Routed(NewPeer(ip, "p", "l", 0));
    ws := [Initial(None, 0), OnePeer(ip, r, false, None), OnePeer(ip, r, true, None), Dialled(ip),
           OnePeer(ip, p, true, Some(OPEN)), OnePeer(ip, p.(sent := 1), true, Some(OPEN)),
               OnePeer(ip, q, true, Some(OPEN)),
           OnePeer(ip, q.(sent := 1), true, Some(OPEN)), OnePeer(ip, q.(sent := 1, received := 1), true, Some(OPEN)),
           OnePeer(ip, q, true, Some(OPEN))];
  }
}
