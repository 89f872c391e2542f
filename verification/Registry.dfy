/** The server's map from tunnel IP to client (pkg/tunnel/tunnel.go). */
module Registry {
  import opened Bytes

  /** A client connection: the tunnel IP it registered, whether it was told to stop, whether it was removed. */
  datatype Client = Client(ip: Option<string>, stopped: bool, removed: bool)

  /** `conns` holds every client connection ever accepted, by identity. */
  datatype State = State(clients: map<string, nat>, conns: seq<Client>)

  datatype Event =
    | Connect
    | Packet(id: nat, ip: string)   // a data packet's source, or the tunnel IP of a peer-info packet
    | Stop(id: nat)                 // read or write error, idle timeout, shutdown
    | Remove(id: nat)               // all goroutines of a stopped client have ended

  predicate Enabled(s: State, e: Event) {
    match e
    case Connect => true
    case Packet(id, _) => id < |s.conns| && !s.conns[id].removed
    case Stop(id) => id < |s.conns|
    case Remove(id) => id < |s.conns| && s.conns[id].stopped && !s.conns[id].removed
  }

  /** `addClient`: a previous holder of the IP is stopped and replaced. */
  function AddClient(s: State, id: nat, ip: string): State
    requires id < |s.conns|
  {
    var stopped := if ip in s.clients && s.clients[ip] < |s.conns|
                   then s.conns[s.clients[ip] := s.conns[s.clients[ip]].(stopped := true)] else s.conns;
    State(s.clients[ip := id], stopped[id := stopped[id].(ip := Some(ip))])
  }

  /** `removeClient`: the entry goes only if the client still owns it. */
  function RemoveClient(s: State, id: nat): State
    requires id < |s.conns|
  {
    var ip := s.conns[id].ip;
    State(if ip.Some? && ip.value in s.clients && s.clients[ip.value] == id then s.clients - {ip.value} else s.clients,
          s.conns[id := s.conns[id].(removed := true)])
  }

  function Step(s: State, e: Event): State
    requires Enabled(s, e)
  {
    match e
    case Connect => s.(conns := s.conns + [Client(None, false, false)])
    case Packet(id, ip) => if s.conns[id].ip.None? then AddClient(s, id, ip) else s
    case Stop(id) => s.(conns := s.conns[id := s.conns[id].(stopped := true)])
    case Remove(id) => RemoveClient(s, id)
  }

  /** The server at its start. */
  const EMPTY := State(map[], [])

  predicate Owns(s: State, id: nat, ip: string) {
    ip in s.clients && s.clients[ip] == id
  }

  /** Each key is its client's own IP; a client holding an IP it does not own has been stopped. */
  ghost predicate Inv(s: State) {
    && (forall ip | ip in s.clients :: s.clients[ip] < |s.conns| && s.conns[s.clients[ip]].ip == Some(ip)
                                       && !s.conns[s.clients[ip]].removed)
    && (forall id | 0 <= id < |s.conns| && s.conns[id].ip.Some? && !Owns(s, id, s.conns[id].ip.value) ::
        s.conns[id].stopped)
  }

  ghost predicate KeepsIPs(s: State, t: State) {
    |s.conns| <= |t.conns| && forall id | 0 <= id < |s.conns| && s.conns[id].ip.Some? ::
        t.conns[id].ip == s.conns[id].ip
  }

  lemma AddKeeps(s: State, id: nat, ip: string)
    requires Inv(s) && id < |s.conns| && s.conns[id].ip.None? && !s.conns[id].removed
    ensures Inv(AddClient(s, id, ip)) && KeepsIPs(s, AddClient(s, id, ip))
  {
  }

  lemma RemoveKeeps(s: State, id: nat)
    requires Inv(s) && Enabled(s, Remove(id))
    ensures Inv(RemoveClient(s, id)) && KeepsIPs(s, RemoveClient(s, id))
  {
  }

  lemma StepKeeps(s: State, e: Event)
    requires Inv(s) && Enabled(s, e)
    ensures Inv(Step(s, e)) && KeepsIPs(s, Step(s, e))
  {
    match e
    case Connect =>
    case Packet(id, ip) => if s.conns[id].ip.None? { AddKeeps(s, id, ip); }
    case Stop(id) =>
    case Remove(id) => RemoveKeeps(s, id);
  }

  ghost predicate Runs(s: State, es: seq<Event>)
    decreases |es|
  {
    es == [] || (Enabled(s, es[0]) && Runs(Step(s, es[0]), es[1..]))
  }

  ghost function After(s: State, es: seq<Event>): State
    requires Runs(s, es)
    decreases |es|
  {
    if es == [] then s else After(Step(s, es[0]), es[1..])
  }

  lemma {:induction false} RunKeeps(s: State, es: seq<Event>)
    requires Inv(s) && Runs(s, es)
    ensures Inv(After(s, es)) && KeepsIPs(s, After(s, es))
    decreases |es|
  {
    if es != [] {
      StepKeeps(s, es[0]);
      RunKeeps(Step(s, es[0]), es[1..]);
    }
  }

  lemma {:induction false} RunConcat(s: State, es: seq<Event>, more: seq<Event>)
    requires Runs(s, es + more)
    ensures Runs(s, es) && Runs(After(s, es), more) && After(s, es + more) == After(After(s, es), more)
    decreases |es|
  {
    if es == [] {
      assert es + more == more;
    } else {
      assert (es + more)[1..] == es[1..] + more;
      RunConcat(Step(s, es[0]), es[1..], more);
    }
  }

  /** In every state reached from the start the invariant holds, and from there on no registered IP changes. */
  lemma {:induction false} RegistryRun(es: seq<Event>, more: seq<Event>)
    requires Runs(EMPTY, es + more)
    ensures Runs(EMPTY, es) && Inv(After(EMPTY, es))
    ensures KeepsIPs(After(EMPTY, es), After(EMPTY, es + more))
  {
    RunConcat(EMPTY, es, more);
    RunKeeps(EMPTY, es);
    RunKeeps(After(EMPTY, es), more);
  }

  /** Of two clients that claim the same IP at most one is unstopped, and it is the one the map names. */
  lemma OneLiveHolder(s: State, a: nat, b: nat)
    requires Inv(s) && a < b < |s.conns| && s.conns[a].ip.Some? && s.conns[a].ip == s.conns[b].ip
    ensures s.conns[a].stopped || s.conns[b].stopped
    ensures !s.conns[a].stopped ==> Owns(s, a, s.conns[a].ip.value)
    ensures !s.conns[b].stopped ==> Owns(s, b, s.conns[b].ip.value)
  {
    var ip := s.conns[a].ip.value;
    assert !Owns(s, a, ip) || !Owns(s, b, ip);
  }

  /** Removing a superseded client leaves the newcomer's entry, and every other, intact. */
  lemma SupersededRemoval(s: State, earlier: nat, newcomer: nat, ip: string)
    requires Inv(s) && Enabled(s, Remove(earlier)) && earlier != newcomer
    requires s.conns[earlier].ip == Some(ip) && Owns(s, newcomer, ip)
    ensures Step(s, Remove(earlier)).clients == s.clients
  {
  }

  // ----- Who holds an address, from the events alone -----

  datatype Registration = Registration(id: nat, ip: string)

  predicate Registered(rs: seq<Registration>, id: nat) {
    exists k | 0 <= k < |rs| :: rs[k].id == id
  }

  /** The registrations of a run, in order: the first packet of each client, with its address. */
  function Registrations(es: seq<Event>): seq<Registration> {
    if es == [] then []
    else
      var rs, last := Registrations(es[..|es| - 1]), es[|es| - 1];
      if last.Packet? && !Registered(rs, last.id) then rs + [Registration(last.id, last.ip)] else rs
  }

  /** Client `id` was the last one to register `ip`. */
  predicate LastHolder(rs: seq<Registration>, id: nat, ip: string) {
    exists k | 0 <= k < |rs| :: rs[k] == Registration(id, ip) && forall j | k < j < |rs| :: rs[j].ip != ip
  }

  /** Another client registered the address of client `id` after it. */
  predicate Superseded(rs: seq<Registration>, id: nat) {
    exists j, k | 0 <= j < k < |rs| :: rs[j].id == id && rs[k].ip == rs[j].ip
  }

  ghost predicate IPsExplained(s: State, rs: seq<Registration>) {
    && (forall k | 0 <= k < |rs| :: rs[k].id < |s.conns|)
    && (forall id: nat, ip: string | id < |s.conns| :: s.conns[id].ip == Some(ip) <==> Registration(id, ip) in rs)
  }

  ghost predicate OwnersExplained(s: State, rs: seq<Registration>, es: seq<Event>) {
    forall id: nat, ip: string :: Owns(s, id, ip) <==> LastHolder(rs, id, ip) && Remove(id) !in es
  }

  ghost predicate FlagsExplained(s: State, rs: seq<Registration>, es: seq<Event>) {
    && (forall id: nat | id < |s.conns| :: s.conns[id].stopped <==> Stop(id) in es || Superseded(rs, id))
    && (forall id: nat | id < |s.conns| :: s.conns[id].removed <==> Remove(id) in es)
    && (forall id: nat | Stop(id) in es || Remove(id) in es :: id < |s.conns|)
  }

  /** The events of a run explain its state. */
  ghost predicate Explained(s: State, es: seq<Event>) {
    var rs := Registrations(es);
    IPsExplained(s, rs) && OwnersExplained(s, rs, es) && FlagsExplained(s, rs, es)
  }

  /** A client's first packet from `ip`: the client owns `ip`, its `stopped` flag is as before, every earlier holder
      of `ip` is stopped, and nothing else changes. */
  lemma NewcomerTakesOver(s: State, id: nat, ip: string)
    requires Inv(s) && Enabled(s, Packet(id, ip)) && s.conns[id].ip.None?
    ensures var t := Step(s, Packet(id, ip));
            && |t.conns| == |s.conns| && t.conns[id] == s.conns[id].(ip := Some(ip))
            && (forall x: nat, i: string :: Owns(t, x, i) <==> if i == ip then x == id else Owns(s, x, i))
            && (forall x: nat | x < |s.conns| && x != id ::
                  t.conns[x] == s.conns[x].(stopped := s.conns[x].stopped || s.conns[x].ip == Some(ip)))
  {
  }

  lemma LastAppend(rs: seq<Registration>, r: Registration)
    ensures forall id: nat, ip: string ::
              LastHolder(rs + [r], id, ip) <==> r == Registration(id, ip) || (LastHolder(rs, id, ip) && ip != r.ip)
  {
    var all := rs + [r];
    forall id: nat, ip: string
      ensures LastHolder(all, id, ip) <==> r == Registration(id, ip) || (LastHolder(rs, id, ip) && ip != r.ip)
    {
      if r == Registration(id, ip) {
        assert all[|rs|] == r;
      } else if LastHolder(rs, id, ip) && ip != r.ip {
        var k :| 0 <= k < |rs| && rs[k] == Registration(id, ip) && forall j | k < j < |rs| :: rs[j].ip != ip;
        assert all[k] == Registration(id, ip);
      }
      if LastHolder(all, id, ip) && r != Registration(id, ip) {
        LastBefore(rs, r, id, ip);
      }
    }
  }

  lemma LastBefore(rs: seq<Registration>, r: Registration, id: nat, ip: string)
    requires LastHolder(rs + [r], id, ip) && r != Registration(id, ip)
    ensures LastHolder(rs, id, ip) && ip != r.ip
  {
    var all := rs + [r];
    var k :| 0 <= k < |all| && all[k] == Registration(id, ip) && forall j | k < j < |all| :: all[j].ip != ip;
    assert rs[k] == all[k] && all[|rs|] == r;
    assert forall j | k < j < |rs| :: rs[j] == all[j];
  }

  lemma SupersededAppend(rs: seq<Registration>, r: Registration)
    ensures forall id: nat :: Superseded(rs + [r], id) <==> Superseded(rs, id) || Registration(id, r.ip) in rs
  {
    var all := rs + [r];
    forall id: nat ensures Superseded(all, id) <==> Superseded(rs, id) || Registration(id, r.ip) in rs {
      if Superseded(rs, id) {
        var j, k :| 0 <= j < k < |rs| && rs[j].id == id && rs[k].ip == rs[j].ip;
        assert all[j].id == id && all[k].ip == all[j].ip;
      } else if Registration(id, r.ip) in rs {
        var j :| 0 <= j < |rs| && rs[j] == Registration(id, r.ip);
        assert all[j].id == id && all[|rs|].ip == all[j].ip;
      }
    }
  }

  lemma RegisterExplained(s: State, es: seq<Event>, id: nat, ip: string)
    requires Explained(s, es) && Inv(s) && Enabled(s, Packet(id, ip)) && s.conns[id].ip.None?
    ensures Explained(Step(s, Packet(id, ip)), es + [Packet(id, ip)])
  {
    var rs, r := Registrations(es), Registration(id, ip);
    var t, all := Step(s, Packet(id, ip)), es + [Packet(id, ip)];
    NewcomerTakesOver(s, id, ip);
    NotYet(s, rs, id);
    assert all[..|es|] == es && Registrations(all) == rs + [r];
    LastAppend(rs, r);
    SupersededAppend(rs, r);
    NotRemoved(s, es, id);
    assert OwnersExplained(t, rs + [r], all) by { SameCalls(es, Packet(id, ip)); }
    assert FlagsExplained(t, rs + [r], all) by { SameCalls(es, Packet(id, ip)); }
  }

  lemma NotYet(s: State, rs: seq<Registration>, id: nat)
    requires IPsExplained(s, rs) && id < |s.conns|
    ensures s.conns[id].ip.None? <==> !Registered(rs, id)
  {
    if Registered(rs, id) {
      var k :| 0 <= k < |rs| && rs[k].id == id;
      assert Registration(id, rs[k].ip) in rs;
    }
  }

  lemma NotRemoved(s: State, es: seq<Event>, id: nat)
    requires Explained(s, es) && id < |s.conns| && !s.conns[id].removed
    ensures Remove(id) !in es
  {
  }

  lemma SameCalls(es: seq<Event>, e: Event)
    ensures forall id: nat :: Stop(id) in es + [e] <==> Stop(id) in es || e == Stop(id)
    ensures forall id: nat :: Remove(id) in es + [e] <==> Remove(id) in es || e == Remove(id)
  {
  }

  lemma OtherExplained(s: State, es: seq<Event>, e: Event)
    requires Explained(s, es) && Inv(s) && Enabled(s, e) && (e.Packet? ==> s.conns[e.id].ip.Some?)
    ensures Explained(Step(s, e), es + [e])
  {
    var rs, t, all := Registrations(es), Step(s, e), es + [e];
    if e.Packet? {
      NotYet(s, rs, e.id);
    }
    assert all[..|es|] == es && Registrations(all) == rs;
    SameCalls(es, e);
    match e
    case Connect => assert FlagsExplained(t, rs, all) by { NewcomerIsUnknown(s, rs); }
    case Packet(_, _) => assert t == s;
    case Stop(id) => StopExplained(s, rs, es, id);
    case Remove(id) => RemoveExplained(s, rs, es, id);
  }

  lemma NewcomerIsUnknown(s: State, rs: seq<Registration>)
    requires IPsExplained(s, rs)
    ensures !Superseded(rs, |s.conns|) && forall ip: string :: Registration(|s.conns|, ip) !in rs
  {
  }

  lemma StopExplained(s: State, rs: seq<Registration>, es: seq<Event>, id: nat)
    requires IPsExplained(s, rs) && OwnersExplained(s, rs, es) && FlagsExplained(s, rs, es) && Enabled(s, Stop(id))
    ensures var t, all := Step(s, Stop(id)), es + [Stop(id)];
            IPsExplained(t, rs) && OwnersExplained(t, rs, all) && FlagsExplained(t, rs, all)
  {
    SameCalls(es, Stop(id));
  }

  lemma RemoveExplained(s: State, rs: seq<Registration>, es: seq<Event>, id: nat)
    requires IPsExplained(s, rs) && OwnersExplained(s, rs, es) && FlagsExplained(s, rs, es)
    requires Inv(s) && Enabled(s, Remove(id))
    ensures var t, all := Step(s, Remove(id)), es + [Remove(id)];
            IPsExplained(t, rs) && OwnersExplained(t, rs, all) && FlagsExplained(t, rs, all)
  {
    var t, all := Step(s, Remove(id)), es + [Remove(id)];
    SameCalls(es, Remove(id));
    forall x: nat, ip: string ensures Owns(t, x, ip) <==> LastHolder(rs, x, ip) && Remove(x) !in all {
      assert Owns(s, x, ip) <==> LastHolder(rs, x, ip) && Remove(x) !in es;
    }
  }

  /** Over every run the registry is what the events make of it: a client's IP is the one of its first packet; an
      address is held by the last client to register it, if that one has not been removed, and by nobody else; a
      client is stopped if and only if it was told to or another one registered its address after it. */
  lemma {:induction false} RunExplained(es: seq<Event>)
    requires Runs(EMPTY, es)
    ensures Explained(After(EMPTY, es), es)
    decreases |es|
  {
    if es != [] {
      var n := |es| - 1;
      assert es[..n] + [es[n]] == es;
      RunConcat(EMPTY, es[..n], [es[n]]);
      RunExplained(es[..n]);
      RunKeeps(EMPTY, es[..n]);
      var s := After(EMPTY, es[..n]);
      assert [es[n]][1..] == [] && After(s, [es[n]]) == Step(s, es[n]);
      if es[n].Packet? && s.conns[es[n].id].ip.None? {
        RegisterExplained(s, es[..n], es[n].id, es[n].ip);
      } else {
        OtherExplained(s, es[..n], es[n]);
      }
    }
  }

  /** The registry object: a map updated in place. */
  class Server {
    var clients: map<string, nat>
    var conns: seq<Client>

    function View(): State reads this {
      State(clients, conns)
    }

    method Register(id: nat, ip: string)
      requires id < |conns| && Inv(View())
      modifies this
      ensures View() == AddClient(old(View()), id, ip)
    {
      if ip in clients {
        var existing := clients[ip];
        conns := conns[existing := conns[existing].(stopped := true)];
      }
      conns := conns[id := conns[id].(ip := Some(ip))];
      clients := clients[ip := id];
    }

    method Unregister(id: nat)
      requires id < |conns|
      modifies this
      ensures View() == RemoveClient(old(View()), id)
    {
      if conns[id].ip.Some? {
        var ip := conns[id].ip.value;
        if ip in clients && clients[ip] == id {
          clients := clients - {ip};
        }
      }
      conns := conns[id := conns[id].(removed := true)];
    }
  }
}
