/** What the operations of module PeerState mean for a peer: its score, and when it is connected. */
module PeerLaws {
  import opened Bytes
  import opened PeerState

  const SECOND := 1_000_000_000
  const MILLISECOND := 1_000_000

  // ----- The score -----

  /** Without delay and loss: 150 for a local connection, 120 for another direct one, 100 for a peer not connected, 70
      through the server. */
  lemma ScoreWithoutFaults(p: Peer)
    requires p.latency < 10 * MILLISECOND && p.loss == 0.0 && !(p.connected && p.throughServer)
    ensures p.connected ==> Quality(p) == if p.isLocal then 150 else 120
    ensures !p.connected && !p.isLocal ==> Quality(p) == if p.throughServer then 70 else 100
  {
  }

  /** A local connection is worth 30 points more than another one with the same faults. */
  lemma LocalIsWorth(p: Peer)
    requires Healthy(p) && !p.isLocal && 0 < Quality(p)
    ensures Quality(p.(isLocal := true)) == Quality(p) + 30
  {
    assert p.loss * 1000.0 >= 0.0;
    assert RawScore(p) <= 120;
  }

  /** Every ten milliseconds cost five points and every thousandth of loss one, down to zero. */
  lemma FaultsCost(p: Peer, q: Peer, steps: nat, thousandths: nat)
    requires q == p.(latency := q.latency, loss := p.loss + thousandths as real / 1000.0)
    requires q.latency == p.latency + steps * 10 * MILLISECOND && Quality(p) < 150
    ensures Quality(p) > 0 ==>
              Quality(q) == if 5 * steps + thousandths <= Quality(p) then Quality(p) - 5 * steps - thousandths else 0
    ensures Quality(p) == 0 ==> Quality(q) == 0
  {
    var more := thousandths as real;
    assert q.loss * 1000.0 == p.loss * 1000.0 + more;
    assert (q.loss * 1000.0).Floor == (p.loss * 1000.0).Floor + thousandths;
    assert q.latency / MILLISECOND == p.latency / MILLISECOND + steps * 10;
    assert q.latency / MILLISECOND / 10 == p.latency / MILLISECOND / 10 + steps;
  }

  /** Less than ten milliseconds more cost at most one step. */
  lemma StepsOfTen(p: Peer, q: Peer)
    requires q == p.(latency := q.latency) && p.latency <= q.latency
    ensures Quality(q) <= Quality(p)
    ensures p.latency / (10 * MILLISECOND) == q.latency / (10 * MILLISECOND) ==> Quality(q) == Quality(p)
  {
    assert p.latency / MILLISECOND / 10 == p.latency / (10 * MILLISECOND);
    assert q.latency / MILLISECOND / 10 == q.latency / (10 * MILLISECOND);
  }

  // ----- One peer -----

  /** The loss of a period is the share of the packets sent that was not answered; only a loss is recorded. */
  lemma LossOfAPeriod(p: Peer)
    ensures Measured(p) == p.(loss := Measured(p).loss)
    ensures p.received < p.sent ==> Measured(p).loss * p.sent as real == (p.sent - p.received) as real
    ensures p.received >= p.sent ==> Measured(p).loss == p.loss
  {
  }

  /** A quality check of a connected peer takes over the measured round trip, as a sign of life, starts a new period,
      and gives the peer up if and only if it scores below 30 and was silent for more than 30 seconds. */
  lemma CheckIs(p: Peer, rtt: int, now: int)
    requires p.connected && !p.throughServer
    ensures var q := AfterCheck(p, rtt, now);
            var score := Quality(Measured(if rtt > 0 then p.(latency := rtt, lastSeen := now) else p));
            && q.sent == 0 == q.received && q.loss == Measured(p).loss
            && q.latency == (if rtt > 0 then rtt else p.latency) && q.lastSeen == (if rtt > 0 then now else p.lastSeen)
            && (q.connected <==> !(score < 30 && now - p.lastSeen > 30 * SECOND)) && q.throughServer == !q.connected
  {
  }

  /** A keepalive turn gives a connected peer up if and only if it was silent for more than 60 seconds, 120 if its
      connection was never established, or the keepalive that was due could not be sent; it connects nobody, and an
      attempt that could be sent counts as a sign of life. */
  lemma KeepaliveIs(p: Peer, c: Conn, now: int, due: bool, delivered: bool)
    ensures var q := AfterKeepalive(p, c, now, due, delivered);
            && (q.connected <==>
                  && p.connected && now - p.lastSeen <= (if c.established then 60 else 120) * SECOND
                  && (due ==> delivered))
            && q == p.(connected := q.connected, lastSeen := q.lastSeen)
            && q.lastSeen == if !p.connected && due && delivered then now else p.lastSeen
  {
  }

  /** A handshake connects the peer, tells whether it came from its local address, and is noted in the connection entry:
      the address it came from, and the round trip if this is the first answer. */
  lemma HandshakeIs(p: Peer, c: Conn, remote: string, now: int)
    requires !(p.connected && p.throughServer)
    ensures var q := Greeted(p, remote);
            && q.connected && !q.throughServer && (q.isLocal <==> remote == p.localAddr)
            && q == p.(connected := true, throughServer := false, isLocal := q.isLocal)
    ensures var d := GreetedConn(c, Some(p), remote, now);
            && d.remote == remote && (d.isLocal <==> remote == p.localAddr) && d.started.None?
            && d.rtt == (if c.started.None? then c.rtt else now - c.started.value)
            && (d.established <==> c.established || !p.connected)
  {
  }

  // ----- The shared state: what connects a record, what disconnects it, and what leaves it alone -----

  /** The operation is about record `i`. */
  predicate About(w: World, op: Op, i: nat)
    requires Closed(w)
  {
    match op
    case Handshake(ip, _, _) => ip in w.manager && w.manager[ip] == i
    case Keepalive(ip, _, _, _) => ip in w.manager && w.manager[ip] == i
    case CheckQuality(ip, _) => ip in w.manager && w.manager[ip] == i
    case PacketSent(ip) => ip in w.manager && w.manager[ip] == i
    case PacketReceived(ip, _) => ip in w.manager && w.manager[ip] == i
    case KeepaliveReceived(ip, _) => ip in w.manager && w.manager[ip] == i
    case Fallback(ip, _) => ip in w.table && w.table[ip] == i
    case _ => false
  }

  /** A turn over a peer with connection entry `c` gives it up. */
  predicate Fails(p: Peer, c: Conn, op: Op) {
    match op
    case Keepalive(_, now, due, delivered) =>
      now - p.lastSeen > (if c.established then 60 else 120) * SECOND || (due && !delivered)
    case CheckQuality(_, now) =>
      && now - p.lastSeen > 30 * SECOND
      && Quality(Measured(if c.rtt > 0 then p.(latency := c.rtt, lastSeen := now) else p)) < 30
    case _ => false
  }

  /** The operation ends record `i`'s connection, if there is one. */
  predicate GivesUp(w: World, op: Op, i: nat)
    requires Closed(w) && i < |w.heap|
  {
    About(w, op, i) && (op.Fallback? || (!op.Handshake? && op.ip in w.conns && Fails(w.heap[i], w.conns[op.ip], op)))
  }

  lemma RoutedConnected(w: World, now: int, i: nat)
    requires Closed(w) && i < |w.heap|
    ensures i < |AllRouted(w, now).heap| && AllRouted(w, now).heap[i].connected == w.heap[i].connected
  {
  }

  lemma FallbackConnected(w: World, ip: IP, now: int, i: nat)
    requires Closed(w) && ip in w.table && i < |w.heap|
    ensures i < |FallenBack(w, ip, now).heap|
    ensures FallenBack(w, ip, now).heap[i].connected <==> w.heap[i].connected && w.table[ip] != i
  {
    RoutedConnected(Put(w, w.table[ip], Dropped(w.heap[w.table[ip]])), now, i);
  }

  lemma TurnConnected(w: World, op: Op, i: nat)
    requires Inv(w) && IsTurn(op) && i < |w.heap|
    ensures i < |AfterTurn(w, op).heap|
    ensures AfterTurn(w, op).heap[i].connected <==> w.heap[i].connected && !GivesUp(w, op, i)
  {
    if About(w, op, i) {
      var p := w.heap[i];
      assert Healthy(p);
      TurnOf(p, if op.ip in w.conns then Some(w.conns[op.ip]) else None, op);
    }
  }

  lemma TurnOf(p: Peer, c: Option<Conn>, op: Op)
    requires IsTurn(op) && Healthy(p)
    ensures Turned(p, c, op).connected <==> p.connected && !(c.Some? && Fails(p, c.value, op))
  {
  }

  /** A record is connected after a step if and only if the step was a handshake attributed to it, or it was connected
      and the step did not give it up: a keepalive that found it stale or could not be sent, a check that found it bad
      and silent, or a failed send. */
  lemma ConnectedIff(w: World, op: Op, i: nat)
    requires Inv(w) && Enabled(w, op) && i < |w.heap|
    ensures i < |Step(w, op).heap|
    ensures Step(w, op).heap[i].connected <==>
              (op.Handshake? && About(w, op, i)) || (w.heap[i].connected && !GivesUp(w, op, i))
  {
    if IsTurn(op) {
      TurnConnected(w, op, i);
    } else if op.UpdateRoutes? {
      RoutedConnected(w, op.now, i);
    } else if op.Fallback? {
      if op.ip in w.table {
        FallbackConnected(w, op.ip, op.now, i);
      }
    } else if op.Handshake? {
      HandshakeConnected(w, op.ip, op.remote, op.now, i);
    } else {
      assert Step(w, op).heap[i] == w.heap[i];
    }
  }

  lemma HandshakeConnected(w: World, ip: IP, remote: string, now: int, i: nat)
    requires Inv(w) && i < |w.heap|
    ensures i < |AfterHandshake(w, ip, remote, now).heap|
    ensures AfterHandshake(w, ip, remote, now).heap[i].connected <==>
              w.heap[i].connected || (ip in w.manager && w.manager[ip] == i)
  {
  }

  /** A handshake was attributed to record `i` in the run, and no later step gave it up. */
  ghost predicate Up(w: World, ops: seq<Op>, i: nat)
    requires Inv(w) && Legal(w, ops)
    decreases |ops|
  {
    ops != []
    && var before, op := Run(w, ops[..|ops| - 1]), ops[|ops| - 1];
       i < |before.heap|
       && ((op.Handshake? && About(before, op, i)) || (Up(w, ops[..|ops| - 1], i) && !GivesUp(before, op, i)))
  }

  /** Only an announcement makes a record, and that is not connected. */
  lemma NewIsDown(w: World, op: Op)
    requires Inv(w) && Enabled(w, op)
    ensures |Step(w, op).heap| == |w.heap| + if op.TableAdd? then 1 else 0
    ensures op.TableAdd? ==> !Step(w, op).heap[|w.heap|].connected
  {
    if IsTurn(op) {
      assert |AfterTurn(w, op).heap| == |w.heap|;
    } else if op.Fallback? && op.ip in w.table {
      assert |FallenBack(w, op.ip, op.now).heap| == |w.heap|;
    } else if op.Handshake? {
      assert |AfterHandshake(w, op.ip, op.remote, op.now).heap| == |w.heap|;
    }
  }

  /** So over every run from the start a peer is connected if and only if a handshake connected it and nothing has given
      it up since. */
  lemma {:induction false} ConnectedByHandshake(server: Option<IP>, start: int, ops: seq<Op>, r: World, i: nat)
    requires Legal(Initial(server, start), ops) && r == Run(Initial(server, start), ops) && i < |r.heap|
    ensures r.heap[i].connected <==> Up(Initial(server, start), ops, i)
    decreases |ops|
  {
    if ops != [] {
      var n := |ops| - 1;
      var before := Run(Initial(server, start), ops[..n]);
      if i < |before.heap| {
        ConnectedByHandshake(server, start, ops[..n], before, i);
        ConnectedIff(before, ops[n], i);
      } else {
        NewIsDown(before, ops[n]);
      }
    }
  }

  /** An announced peer starts without delay or loss, through the server, and replaces the route to its address. */
  lemma NewcomerIs(w: World, id: nat, ip: IP, publicAddr: string, localAddr: string, now: int)
    requires Inv(w) && Enabled(w, TableAdd(id, ip, publicAddr, localAddr, now))
    ensures var u := Step(w, TableAdd(id, ip, publicAddr, localAddr, now));
            && u.heap == w.heap + [Peer(ip, publicAddr, localAddr, now, 0, 0.0, false, true, false, 0, 0)]
            && u.table == w.table[ip := |w.heap|] && u.pending == w.pending + {|w.heap|}
            && u.routes == w.routes[ip := Route(ip, Server, None, 1, 70, now)]
            && u.manager == w.manager && u.conns == w.conns
  {
    assert (0.0 * 1000.0).Floor == 0;
  }

  // ----- Signs of life, and the packets of a period -----

  /** When the step saw record `i` alive, if it did: a packet or keepalive received, a check that had measured a round
      trip, or an attempt that could be sent to a peer not connected. */
  function Sign(w: World, op: Op, i: nat): Option<int>
    requires Closed(w) && i < |w.heap|
  {
    if !About(w, op, i) then None
    else
      match op
      case PacketReceived(_, now) => Some(now)
      case KeepaliveReceived(_, now) => Some(now)
      case Keepalive(ip, now, due, delivered) =>
        if ip in w.conns && !w.heap[i].connected && due && delivered then Some(now) else None
      case CheckQuality(ip, now) => if Checked(w, op, i) && w.conns[ip].rtt > 0 then Some(now) else None
      case _ => None
  }

  /** The step is a quality check of record `i`, which ends a period. */
  predicate Checked(w: World, op: Op, i: nat)
    requires Closed(w) && i < |w.heap|
  {
    op.CheckQuality? && About(w, op, i) && op.ip in w.conns && w.heap[i].connected
  }

  /** The record was seen at `seen`, and since the last check `sent` packets were sent to it and `received` received. */
  datatype Life = Life(seen: int, sent: nat, received: nat)

  function LifeOf(p: Peer): Life {
    Life(p.lastSeen, p.sent, p.received)
  }

  function Lived(f: Life, w: World, op: Op, i: nat): Life
    requires Closed(w) && i < |w.heap|
  {
    Life(match Sign(w, op, i) case Some(now) => now case None => f.seen,
         if Checked(w, op, i) then 0 else if op.PacketSent? && About(w, op, i) then f.sent + 1 else f.sent,
         if Checked(w, op, i) then 0 else if op.PacketReceived? && About(w, op, i) then f.received + 1 else f.received)
  }

  lemma RoutedLives(w: World, now: int, i: nat)
    requires Closed(w) && i < |w.heap|
    ensures i < |AllRouted(w, now).heap| && LifeOf(AllRouted(w, now).heap[i]) == LifeOf(w.heap[i])
  {
  }

  lemma FallbackLives(w: World, ip: IP, now: int, i: nat)
    requires Closed(w) && ip in w.table && i < |w.heap|
    ensures i < |FallenBack(w, ip, now).heap| && LifeOf(FallenBack(w, ip, now).heap[i]) == LifeOf(w.heap[i])
  {
    RoutedLives(Put(w, w.table[ip], Dropped(w.heap[w.table[ip]])), now, i);
  }

  lemma TurnLives(w: World, op: Op, i: nat)
    requires Closed(w) && IsTurn(op) && i < |w.heap|
    ensures i < |AfterTurn(w, op).heap| && LifeOf(AfterTurn(w, op).heap[i]) == Lived(LifeOf(w.heap[i]), w, op, i)
  {
  }

  lemma StepLives(w: World, op: Op, i: nat)
    requires Inv(w) && Enabled(w, op) && i < |w.heap|
    ensures i < |Step(w, op).heap| && LifeOf(Step(w, op).heap[i]) == Lived(LifeOf(w.heap[i]), w, op, i)
  {
    if IsTurn(op) {
      TurnLives(w, op, i);
    } else if op.UpdateRoutes? {
      RoutedLives(w, op.now, i);
    } else if op.Fallback? && op.ip in w.table {
      FallbackLives(w, op.ip, op.now, i);
    }
  }

  /** The life of record `i` as the steps of a run tell it. */
  ghost function Story(server: Option<IP>, start: int, ops: seq<Op>, i: nat): Life
    requires Legal(Initial(server, start), ops)
    decreases |ops|
  {
    if ops == [] then Life(start, 0, 0)
    else
      var before, op := Run(Initial(server, start), ops[..|ops| - 1]), ops[|ops| - 1];
      if i < |before.heap| then Lived(Story(server, start, ops[..|ops| - 1], i), before, op, i)
      else if op.TableAdd? then Life(op.now, 0, 0)
      else Life(start, 0, 0)
  }

  /** Over every run from the start: a record was last seen at its last sign of life, or else when it was announced, and
      its counters are the packets sent to and received from it since its last quality check. */
  lemma {:induction false} LifeIsItsStory(server: Option<IP>, start: int, ops: seq<Op>, r: World, i: nat)
    requires Legal(Initial(server, start), ops) && r == Run(Initial(server, start), ops) && i < |r.heap|
    ensures LifeOf(r.heap[i]) == Story(server, start, ops, i)
    decreases |ops|
  {
    if ops != [] {
      var n := |ops| - 1;
      var before := Run(Initial(server, start), ops[..n]);
      NewIsDown(before, ops[n]);
      if i < |before.heap| {
        LifeIsItsStory(server, start, ops[..n], before, i);
        StepLives(before, ops[n], i);
      }
    }
  }

  // ----- Who is known, from the events alone -----

  /** The addresses of the records, in the order they were made. */
  function Addresses(server: Option<IP>, ops: seq<Op>): seq<IP> {
    if ops == [] then (if server.Some? then [server.value] else [])
    else
      var before, last := Addresses(server, ops[..|ops| - 1]), ops[|ops| - 1];
      if last.TableAdd? then before + [last.ip] else before
  }

  /** The record last announced under `ip` to the table, unless the table dropped `ip` since. */
  function Announced(server: Option<IP>, ops: seq<Op>, ip: IP): Option<nat> {
    if ops == [] then (if server == Some(ip) then Some(0) else None)
    else
      match ops[|ops| - 1]
      case TableAdd(id, a, _, _, _) => if a == ip then Some(id) else Announced(server, ops[..|ops| - 1], ip)
      case TableRemove(a) => if a == ip then None else Announced(server, ops[..|ops| - 1], ip)
      case _ => Announced(server, ops[..|ops| - 1], ip)
  }

  /** The record of address `ip` whose announcement to the manager was the last to be completed, unless the manager
      dropped `ip` since. */
  function Completed(server: Option<IP>, ops: seq<Op>, ip: IP): Option<nat> {
    if ops == [] then None
    else
      match ops[|ops| - 1]
      case ManagerAdd(id) =>
        var all := Addresses(server, ops[..|ops| - 1]);
        if id < |all| && all[id] == ip then Some(id) else Completed(server, ops[..|ops| - 1], ip)
      case ManagerRemove(a) => if a == ip then None else Completed(server, ops[..|ops| - 1], ip)
      case _ => Completed(server, ops[..|ops| - 1], ip)
  }

  /** A connection to `ip` was begun while the manager knew it, and the manager has not dropped it since. */
  predicate Begun(server: Option<IP>, ops: seq<Op>, ip: IP) {
    ops != []
    && var before, last := ops[..|ops| - 1], ops[|ops| - 1];
       if last == ManagerRemove(ip) then false
       else Begun(server, before, ip) || (last.Connect? && last.ip == ip && Completed(server, before, ip).Some?)
  }

  function Find(m: map<IP, nat>, ip: IP): Option<nat> {
    if ip in m then Some(m[ip]) else None
  }

  predicate SameAddresses(w: World, u: World) {
    |u.heap| == |w.heap| && forall i | 0 <= i < |w.heap| :: u.heap[i].ip == w.heap[i].ip
  }

  predicate SameReferences(w: World, u: World) {
    SameAddresses(w, u) && u.table == w.table && u.manager == w.manager && u.conns.Keys == w.conns.Keys
  }

  lemma TurnKeepsReferences(w: World, op: Op)
    requires Closed(w) && IsTurn(op)
    ensures SameReferences(w, AfterTurn(w, op))
  {
    if op.ip in w.manager {
      TurnKeepsIP(w.heap[w.manager[op.ip]], if op.ip in w.conns then Some(w.conns[op.ip]) else None, op);
    }
  }

  lemma TurnKeepsIP(p: Peer, c: Option<Conn>, op: Op)
    requires IsTurn(op)
    ensures Turned(p, c, op).ip == p.ip
  {
  }

  lemma HandshakeKeepsReferences(w: World, ip: IP, remote: string, now: int)
    requires Closed(w)
    ensures SameReferences(w, AfterHandshake(w, ip, remote, now))
  {
  }

  lemma RoutingKeepsReferences(w: World, now: int)
    requires Closed(w)
    ensures SameReferences(w, AllRouted(w, now))
  {
  }

  lemma FallbackKeepsReferences(w: World, ip: IP, now: int)
    requires Closed(w) && ip in w.table
    ensures SameReferences(w, FallenBack(w, ip, now))
  {
    RoutingKeepsReferences(Put(w, w.table[ip], Dropped(w.heap[w.table[ip]])), now);
  }

  predicate Refers(op: Op) {
    op.TableAdd? || op.ManagerAdd? || op.Connect? || op.TableRemove? || op.ManagerRemove?
  }

  /** Steps that neither announce, connect nor forget leave the records' addresses and all references alone. */
  lemma OthersKeepReferences(w: World, op: Op)
    requires Inv(w) && Enabled(w, op) && !Refers(op)
    ensures SameReferences(w, Step(w, op))
  {
    match op
    case Handshake(ip, remote, now) => HandshakeKeepsReferences(w, ip, remote, now);
    case UpdateRoutes(now) => RoutingKeepsReferences(w, now);
    case Fallback(ip, now) =>
      if ip in w.table {
        FallbackKeepsReferences(w, ip, now);
      }
    case CleanStaleRoutes(_, _) =>
    case _ => TurnKeepsReferences(w, op);
  }

  /** The table, the manager and the connection entries are as these steps say. */
  predicate Known(server: Option<IP>, ops: seq<Op>, w: World, ip: IP) {
    && |w.heap| == |Addresses(server, ops)|
    && (forall i | 0 <= i < |w.heap| :: w.heap[i].ip == Addresses(server, ops)[i])
    && Find(w.table, ip) == Announced(server, ops, ip)
    && Find(w.manager, ip) == Completed(server, ops, ip)
    && (ip in w.conns <==> Begun(server, ops, ip))
  }

  lemma OtherStep(server: Option<IP>, ops: seq<Op>, op: Op, w: World, u: World, ip: IP)
    requires !Refers(op) && SameReferences(w, u) && Known(server, ops, w, ip)
    ensures Known(server, ops + [op], u, ip)
  {
    assert (ops + [op])[..|ops|] == ops;
  }

  lemma AnnouncingStep(server: Option<IP>, ops: seq<Op>, w: World, op: Op, ip: IP)
    requires Closed(w) && Enabled(w, op) && (op.TableAdd? || op.ManagerAdd?) && Known(server, ops, w, ip)
    ensures Known(server, ops + [op], Step(w, op), ip)
  {
    assert (ops + [op])[..|ops|] == ops;
  }

  lemma ForgettingStep(server: Option<IP>, ops: seq<Op>, w: World, op: Op, ip: IP)
    requires Closed(w) && Enabled(w, op) && (op.TableRemove? || op.ManagerRemove?) && Known(server, ops, w, ip)
    ensures Known(server, ops + [op], Step(w, op), ip)
  {
    assert (ops + [op])[..|ops|] == ops;
  }

  lemma ConnectingStep(server: Option<IP>, ops: seq<Op>, w: World, op: Op, ip: IP)
    requires Closed(w) && Enabled(w, op) && op.Connect? && Known(server, ops, w, ip)
    ensures Known(server, ops + [op], Step(w, op), ip)
  {
    assert (ops + [op])[..|ops|] == ops;
  }

  lemma KnownStep(server: Option<IP>, ops: seq<Op>, w: World, op: Op, ip: IP, u: World)
    requires Inv(w) && Enabled(w, op) && Known(server, ops, w, ip) && u == Step(w, op)
    ensures Known(server, ops + [op], u, ip)
  {
    if !Refers(op) {
      OthersKeepReferences(w, op);
      OtherStep(server, ops, op, w, u, ip);
    } else if op.Connect? {
      ConnectingStep(server, ops, w, op, ip);
    } else if op.TableAdd? || op.ManagerAdd? {
      AnnouncingStep(server, ops, w, op, ip);
    } else {
      ForgettingStep(server, ops, w, op, ip);
    }
  }

  lemma KnownAtStart(server: Option<IP>, start: int, ip: IP)
    ensures Known(server, [], Initial(server, start), ip)
  {
  }

  lemma {:induction false} KnownAlong(server: Option<IP>, w: World, ops: seq<Op>, ip: IP)
    requires Inv(w) && Legal(w, ops) && Known(server, [], w, ip)
    ensures Known(server, ops, Run(w, ops), ip)
    decreases |ops|
  {
    if ops != [] {
      var n := |ops| - 1;
      var before := Run(w, ops[..n]);
      KnownAlong(server, w, ops[..n], ip);
      KnownStep(server, ops[..n], before, ops[n], ip, Run(w, ops));
      assert ops[..n] + [ops[n]] == ops;
    }
  }

  /** Over every run from the start, table and manager know just the records the announcements and removals say, and
      there is a connection entry just where one was begun. */
  lemma KnownFromEvents(server: Option<IP>, start: int, ops: seq<Op>, r: World, ip: IP)
    requires Legal(Initial(server, start), ops) && r == Run(Initial(server, start), ops)
    ensures Known(server, ops, r, ip)
  {
    KnownAtStart(server, start, ip);
    KnownAlong(server, Initial(server, start), ops, ip);
  }
}
