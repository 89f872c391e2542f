/** The peer record and the routing table as the objects the source shares between its components. */
module PeerObjects {
  import opened Bytes
  import opened PeerState

  class PeerInfo {
    const ip: IP
    const publicAddr: string
    const localAddr: string
    var lastSeen: int
    var latency: nat
    var loss: real
    var connected: bool
    var throughServer: bool
    var isLocal: bool
    var sent: nat
    var received: nat

    ghost function View(): Peer
      reads this
    {
      Peer(ip, publicAddr, localAddr, lastSeen, latency, loss, connected, throughServer, isLocal, sent, received)
    }

    constructor (ip: IP, publicAddr: string, localAddr: string, now: int)
      ensures View() == NewPeer(ip, publicAddr, localAddr, now)
    {
      this.ip, this.publicAddr, this.localAddr := ip, publicAddr, localAddr;
      lastSeen, latency, loss := now, 0, 0.0;
      connected, throughServer, isLocal := false, false, false;
      sent, received := 0, 0;
    }

    method SetConnected(on: bool)
      modifies this
      ensures View() == Connected(old(View()), on)
    {
      connected := on;
      if on {
        throughServer := false;
      }
    }

    method SetThroughServer(through: bool)
      modifies this
      ensures View() == old(View()).(throughServer := through)
    {
      throughServer := through;
    }

    method CalculatePacketLoss() returns (r: real)
      modifies this
      ensures View() == Measured(old(View()))
      ensures r == 0.0 || r == loss
      ensures r == 0.0 <==> sent == 0 || received >= sent
    {
      if sent == 0 {
        return 0.0;
      }
      if received >= sent {
        return 0.0;
      }
      r := LossRate(sent, received);
      loss := r;
    }

    method GetQualityScore() returns (score: int)
      ensures score == Quality(View())
    {
      score := 100;
      score := score - latency / 1_000_000 / 10 * 5;
      score := score - (loss * 1000.0).Floor;
      if connected {
        score := score + 20;
      }
      if isLocal {
        score := score + 30;
      }
      if throughServer {
        score := score - 30;
      }
      if score < 0 {
        score := 0;
      }
      if score > 150 {
        score := 150;
      }
    }
  }

  // ----- A pass over the table, seen on values -----

  ghost function AllSettled(views: map<IP, Peer>): map<IP, Peer> {
    map ip | ip in views :: Routed(views[ip])
  }

  ghost function AllRoutes(views: map<IP, Peer>, now: int): map<IP, Route> {
    map ip | ip in views :: RouteFor(views[ip], now)
  }

  ghost function SettledBut(views: map<IP, Peer>, todo: set<IP>): map<IP, Peer> {
    map ip | ip in views :: if ip in todo then views[ip] else Routed(views[ip])
  }

  lemma StartAt(views: map<IP, Peer>, routes: map<IP, Route>, now: int)
    ensures SettledBut(views, views.Keys) == views
    ensures routes + (AllRoutes(views, now) - views.Keys) == routes
  {
  }

  lemma StepOver(views: map<IP, Peer>, routes: map<IP, Route>, now: int, todo: set<IP>, ip: IP)
    requires ip in todo && ip in views
    ensures SettledBut(views, todo)[ip := Routed(views[ip])] == SettledBut(views, todo - {ip})
    ensures (routes + (AllRoutes(views, now) - todo))[ip := RouteFor(views[ip], now)]
            == routes + (AllRoutes(views, now) - (todo - {ip}))
  {
  }

  lemma EndAt(views: map<IP, Peer>, routes: map<IP, Route>, now: int)
    ensures SettledBut(views, {}) == AllSettled(views)
    ensures routes + (AllRoutes(views, now) - {}) == routes + AllRoutes(views, now)
  {
  }

  /** The records the table of `w` refers to. */
  ghost function TableViews(w: World): map<IP, Peer>
    requires Closed(w)
  {
    map ip | ip in w.table :: w.heap[w.table[ip]]
  }

  /** What the update loop leaves in the table is what the step on the shared state leaves there. */
  lemma UpdateIsAllRouted(w: World, now: int)
    requires Closed(w)
    ensures Closed(AllRouted(w, now)) && TableViews(AllRouted(w, now)) == AllSettled(TableViews(w))
    ensures AllRouted(w, now).routes == w.routes + AllRoutes(TableViews(w), now)
  {
    RoutedIsClosed(w, now);
    RoutedViews(w, AllRouted(w, now), now);
    RoutedRoutes(w, now);
  }

  lemma RoutedIsClosed(w: World, now: int)
    requires Closed(w)
    ensures Closed(AllRouted(w, now))
  {
  }

  lemma RoutedViews(w: World, u: World, now: int)
    requires Closed(w) && Closed(u) && u == AllRouted(w, now)
    ensures TableViews(u) == AllSettled(TableViews(w))
  {
    forall ip | ip in w.table ensures u.heap[w.table[ip]] == Routed(w.heap[w.table[ip]]) {
      RoutedAt(w, now, ip);
    }
    SameViews(w, u);
  }

  lemma SameViews(w: World, u: World)
    requires Closed(w) && Closed(u) && u.table == w.table
    requires forall ip | ip in w.table :: u.heap[w.table[ip]] == Routed(w.heap[w.table[ip]])
    ensures TableViews(u) == AllSettled(TableViews(w))
  {
  }

  lemma RoutedRoutes(w: World, now: int)
    requires Closed(w)
    ensures AllRouted(w, now).routes == w.routes + AllRoutes(TableViews(w), now)
  {
    assert AllRoutes(TableViews(w), now) == map ip | ip in w.table :: RouteFor(w.heap[w.table[ip]], now);
  }

  /** The same for a handshake and for one turn of the quality check, on the record and the connection entry. */
  lemma ManagerStepsAreSteps(w: World, ip: IP, remote: string, now: int)
    requires Inv(w) && ip in w.manager
    ensures var p, u := w.heap[w.manager[ip]], Step(w, Handshake(ip, remote, now));
            && Closed(u) && u.heap[u.manager[ip]] == Greeted(p, remote)
            && u.conns == if ip in w.conns then w.conns[ip := GreetedConn(w.conns[ip], Some(p), remote, now)]
                else w.conns
    ensures var p, u := w.heap[w.manager[ip]], Step(w, CheckQuality(ip, now));
            && Closed(u) && u.conns == w.conns
            && u.heap[u.manager[ip]] == if ip in w.conns then AfterCheck(p, w.conns[ip].rtt, now) else p
  {
    StepKeeps(w, Handshake(ip, remote, now));
    StepKeeps(w, CheckQuality(ip, now));
  }

  class RoutingTable {
    var routes: map<IP, Route>
    var peers: map<IP, PeerInfo>

    /** Every peer sits under its own address, so two keys never share a record. */
    ghost predicate Valid()
      reads this
    {
      forall ip | ip in peers :: peers[ip].ip == ip
    }

    constructor ()
      ensures Valid() && routes == map[] && peers == map[]
    {
      routes, peers := map[], map[];
    }

    method UpdateRouteForPeer(peer: PeerInfo, now: int)
      modifies this`routes, peer
      ensures routes == old(routes)[peer.ip := RouteFor(old(peer.View()), now)]
      ensures peer.View() == Routed(old(peer.View()))
    {
      if peer.connected {
        peer.SetThroughServer(false);
        var quality := peer.GetQualityScore();
        routes := routes[peer.ip := Route(peer.ip, Direct, Some(peer.ip), 1, quality, now)];
        return;
      }
      peer.SetThroughServer(true);
      var quality := peer.GetQualityScore();
      routes := routes[peer.ip := Route(peer.ip, Server, None, 1, quality, now)];
    }

    method AddPeer(peer: PeerInfo, now: int)
      requires Valid()
      modifies this, peer
      ensures Valid() && peers == old(peers)[peer.ip := peer]
      ensures routes == old(routes)[peer.ip := RouteFor(old(peer.View()), now)]
      ensures peer.View() == Routed(old(peer.View()))
    {
      peers := peers[peer.ip := peer];
      UpdateRouteForPeer(peer, now);
    }

    ghost function Views(): map<IP, Peer>
      reads this, peers.Values
    {
      map ip | ip in peers :: peers[ip].View()
    }

    /** One turn of the update loop. */
    method RouteKnown(ip: IP, now: int)
      requires Valid() && ip in peers
      modifies this`routes, peers.Values
      ensures Valid() && Views() == old(Views())[ip := Routed(old(Views())[ip])]
      ensures routes == old(routes)[ip := RouteFor(old(Views())[ip], now)]
    {
      UpdateRouteForPeer(peers[ip], now);
    }

    /** Every known record is routed once, in any order; no other record changes. */
    method UpdateRoutes(now: int)
      requires Valid()
      modifies this`routes, peers.Values
      ensures Valid() && Views() == AllSettled(old(Views()))
      ensures routes == old(routes) + AllRoutes(old(Views()), now)
    {
      ghost var was := Views();
      var todo := peers.Keys;
      StartAt(was, routes, now);
      while todo != {}
        invariant Valid() && todo <= peers.Keys == was.Keys
        invariant Views() == SettledBut(was, todo)
        invariant routes == old(routes) + (AllRoutes(was, now) - todo)
      {
        var ip :| ip in todo;
        RouteKnown(ip, now);
        StepOver(was, old(routes), now, todo, ip);
        todo := todo - {ip};
      }
      EndAt(was, old(routes), now);
    }

    method RemovePeer(ip: IP)
      requires Valid()
      modifies this
      ensures Valid() && peers == old(peers) - {ip} && routes == old(routes) - {ip}
    {
      peers := peers - {ip};
      routes := routes - {ip};
    }

    method CleanStaleRoutes(now: int, timeout: int)
      modifies this`routes
      ensures routes == Fresh(old(routes), now, timeout)
    {
      var todo := routes.Keys;
      while todo != {}
        invariant todo <= routes.Keys <= old(routes).Keys
        invariant forall ip | ip in routes :: routes[ip] == old(routes)[ip]
        invariant forall ip | ip in old(routes) && ip !in todo :: ip in routes <==>
            now - old(routes)[ip].updated <= timeout
      {
        var ip :| ip in todo;
        if now - routes[ip].updated > timeout {
          routes := routes - {ip};
        }
        todo := todo - {ip};
      }
    }
  }

  class Manager {
    var peers: map<IP, PeerInfo>
    var connections: map<IP, Conn>

    ghost predicate Valid()
      reads this
    {
      forall ip | ip in peers :: peers[ip].ip == ip
    }

    constructor ()
      ensures Valid() && peers == map[] && connections == map[]
    {
      peers, connections := map[], map[];
    }

    ghost function ViewOf(ip: IP): Option<Peer>
      reads this, peers.Values
    {
      if ip in peers then Some(peers[ip].View()) else None
    }

    method AddPeer(peer: PeerInfo)
      requires Valid()
      modifies this`peers
      ensures Valid() && peers == old(peers)[peer.ip := peer]
    {
      peers := peers[peer.ip := peer];
    }

    /** A handshake from `remote`, attributed to `ip` by `findPeerByAddr`. */
    method HandleHandshake(ip: IP, remote: string, now: int)
      requires Valid()
      modifies this`connections, if ip in peers then {peers[ip]} else {}
      ensures ip in peers ==> peers[ip].View() == Greeted(old(peers[ip].View()), remote)
      ensures connections == if ip in old(connections)
                             then old(connections)[ip := GreetedConn(old(connections)[ip], old(ViewOf(ip)), remote,
                                 now)]
                             else old(connections)
    {
      var isLocal := ip in peers && peers[ip].localAddr == remote;
      if ip in connections {
        var c := connections[ip].(remote := remote, isLocal := isLocal);
        if c.started.Some? {
          c := c.(rtt := now - c.started.value, started := None);
        }
        connections := connections[ip := c];
      }
      if ip in peers {
        var peer := peers[ip];
        var alreadyConnected := peer.connected;
        peer.isLocal := isLocal;
        if !alreadyConnected {
          peer.SetConnected(true);
          if ip in connections && !connections[ip].established {
            connections := connections[ip := connections[ip].(established := true)];
          }
        }
      }
    }

    /** One peer's turn in `checkConnectionQuality`; with no connection or no peer the loop skips it. */
    method CheckPeer(ip: IP, now: int)
      requires Valid()
      modifies if ip in peers then {peers[ip]} else {}
      ensures ip in peers ==>
                peers[ip].View() == if ip in connections then AfterCheck(old(peers[ip].View()), connections[ip].rtt,
                    now)
                                    else old(peers[ip].View())
    {
      if ip !in connections || ip !in peers || !peers[ip].connected {
        return;
      }
      CheckRecord(peers[ip], connections[ip].rtt, now);
    }

    method CheckRecord(peer: PeerInfo, rtt: int, now: int)
      requires peer.connected
      modifies peer
      ensures peer.View() == AfterCheck(old(peer.View()), rtt, now)
    {
      var idle := now - peer.lastSeen;
      if rtt > 0 {
        peer.latency, peer.lastSeen := rtt, now;
      }
      var _ := peer.CalculatePacketLoss();
      JudgeRecord(peer, idle);
      peer.sent, peer.received := 0, 0;
    }

    /** A peer of critical quality that was silent for long falls back to the server. */
    method JudgeRecord(peer: PeerInfo, idle: int)
      modifies peer
      ensures peer.View() == Judged(old(peer.View()), idle)
    {
      var quality := peer.GetQualityScore();
      if quality < 50 {
        if quality < CRITICAL && idle > CONNECTION_STALE / 2 {
          peer.SetThroughServer(true);
          peer.SetConnected(false);
        }
      }
    }

    method IsConnected(ip: IP) returns (r: bool)
      ensures r <==> ip in connections && ip in peers && peers[ip].connected
    {
      if ip !in connections {
        return false;
      }
      if ip in peers {
        return peers[ip].connected;
      }
      return false;
    }

    method RemovePeer(ip: IP)
      requires Valid()
      modifies this
      ensures Valid() && peers == old(peers) - {ip} && connections == old(connections) - {ip}
    {
      if ip in connections {
        connections := connections - {ip};
      }
      if ip in peers {
        peers := peers - {ip};
      }
    }
  }
}
