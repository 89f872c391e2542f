/** Server push and client switch: one server and one client joined by two FIFO channels. */
module KeyProtocol {
  import opened Bytes
  import opened KeyRing

  /** `down` and `up` are the packets in flight; the histories record what was sent, what was opened on
      arrival and how many arrivals could not be opened. */
  datatype System = System(
    server: Ring, pin: Option<Pin>, client: Ring,
    down: seq<Packet>, up: seq<Packet>,
    sentDown: seq<Body>, gotDown: seq<Body>, sentUp: seq<Body>, gotUp: seq<Body>,
    lost: nat)

  datatype Action =
    | Push(key: string, now: int)         // announce a new key, then rotate, as one step
    | ServerSend(id: nat)
    | ClientSend(id: nat)
    | ServerReceive(now: int)
    | ClientReceive(now: int)
    | ServerExpire                        // the server's grace timer goes off
    | ClientExpire
    | Announce(key: string)               // the two halves of a push, apart
    | RotateServer(key: string, now: int)
    | ReorderUp                           // the network swaps the two oldest client packets
    | ReorderDown                         // ... or the two oldest server packets

  /** `encryptForClient`: the pinned cipher if there is one, the active one otherwise. */
  function ServerCipher(s: System): Option<Cipher> {
    if s.pin.Some? then Some(s.pin.value.cipher) else s.server.cipher
  }

  function Seal(c: Option<Cipher>, b: Body): Packet {
    if c.Some? then Sealed(c.value.key, 0, b) else Clear(b, false)
  }

  function SendDown(s: System, b: Body): System {
    s.(down := s.down + [Seal(ServerCipher(s), b)], sentDown := s.sentDown + [b])
  }

  function AtServer(s: System, now: int): System
    requires s.up != []
  {
    var (ring, o) := Decrypted(s.server, s.up[0], now);
    if o.Failed? then s.(server := ring, up := s.up[1..], lost := s.lost + 1)
    else s.(server := ring, up := s.up[1..], gotUp := s.gotUp + [o.body],
            pin := if o.used.Some? then Some(Pin(o.used.value, o.gen)) else s.pin)
  }

  /** A configuration update makes the client rotate (`handleConfigUpdate`). */
  function AtClient(s: System, now: int): System
    requires s.down != []
  {
    var (ring, o) := Decrypted(s.client, s.down[0], now);
    if o.Failed? then s.(client := ring, down := s.down[1..], lost := s.lost + 1)
    else s.(client := if o.body.ConfigUpdate? then Rotated(ring, o.body.key, now) else ring,
            down := s.down[1..], gotDown := s.gotDown + [o.body])
  }

  function Expire(r: Ring): Ring {
    if r.prev.Some? then Deactivated(r, r.prev.value) else r
  }

  function Next(s: System, a: Action): System {
    match a
    case Push(key, now) => SendDown(s, ConfigUpdate(key)).(server := Rotated(s.server, key, now))
    case ServerSend(id) => SendDown(s, Data(id))
    case ClientSend(id) => s.(up := s.up + [Seal(s.client.cipher, Data(id))], sentUp := s.sentUp + [Data(id)])
    case ServerReceive(now) => if s.up == [] then s else AtServer(s, now)
    case ClientReceive(now) => if s.down == [] then s else AtClient(s, now)
    case ServerExpire => s.(server := Expire(s.server))
    case ClientExpire => s.(client := Expire(s.client))
    case Announce(key) => SendDown(s, ConfigUpdate(key))
    case RotateServer(key, now) => s.(server := Rotated(s.server, key, now))
    case ReorderUp => if |s.up| < 2 then s else s.(up := [s.up[1], s.up[0]] + s.up[2..])
    case ReorderDown => if |s.down| < 2 then s else s.(down := [s.down[1], s.down[0]] + s.down[2..])
  }

  function Run(s: System, acts: seq<Action>): System
    decreases |acts|
  {
    if acts == [] then s else Run(Next(s, acts[0]), acts[1..])
  }

  /** Both ends hold the same key and the server has already heard the client on it. */
  function Connected(key: string): System {
    var r := NewRing(key);
    System(r, if r.cipher.Some? then Some(Pin(r.cipher.value, 1)) else None, r, [], [], [], [], [], [], 0)
  }

  // ----- The premises -----

  predicate AllUnder(ch: seq<Packet>, key: string) {
    forall i | 0 <= i < |ch| :: ch[i].Sealed? && ch[i].key == key
  }

  /** Opening `p` at `now` does not need a previous cipher whose grace is over. */
  predicate InTime(r: Ring, p: Packet, now: int) {
    Opens(r.cipher, p) || now <= r.prevExp
  }

  /** The conditions under which a step is covered by the no-loss theorem. */
  predicate Premise(s: System, a: Action)
  {
    match a
    case Push(_, _) =>
      // one rotation outstanding: the client has confirmed the active cipher
      s.server.cipher.Some? && s.pin.Some? && Some(s.pin.value.cipher) == s.server.cipher
    case ServerReceive(now) => s.up != [] ==> InTime(s.server, s.up[0], now)
    case ClientReceive(now) => s.down != [] ==> InTime(s.client, s.down[0], now)
    case ServerExpire =>
      // no packet of the old generation is in flight or still to come
      s.server.cipher.Some? && AllUnder(s.up, s.server.cipher.value.key)
      && s.client.cipher.Some? && s.client.cipher.value.key == s.server.cipher.value.key
    case ClientExpire =>
      s.client.cipher.Some? && AllUnder(s.down, s.client.cipher.value.key)
      && s.pin.Some? && s.pin.value.cipher.key == s.client.cipher.value.key
    case ServerSend(_) => true
    case ClientSend(_) => true
    case _ => false
  }

  ghost predicate Covered(s: System, acts: seq<Action>)
    decreases |acts|
  {
    acts == [] || (Premise(s, acts[0]) && Covered(Next(s, acts[0]), acts[1..]))
  }

  // ----- The invariant -----

  /** Packets under the old key, if any, come first, and the ring still has that key as its previous one. */
  ghost predicate Ordered(ch: seq<Packet>, r: Ring) {
    && r.cipher.Some?
    && (forall i | 0 <= i < |ch| :: Opens(r.cipher, ch[i]) || Opens(r.prev, ch[i]))
    && (forall i, j | 0 <= i < j < |ch| :: Opens(r.cipher, ch[i]) ==> Opens(r.cipher, ch[j]))
  }

  /** The keys announced by the configuration updates in flight. */
  function Announced(ch: seq<Packet>): seq<string> {
    if ch == [] then []
    else (if ch[0].body.ConfigUpdate? then [ch[0].body.key] else []) + Announced(ch[1..])
  }

  ghost predicate ConfigsUnder(ch: seq<Packet>, key: string) {
    forall i | 0 <= i < |ch| && ch[i].body.ConfigUpdate? :: ch[i].Sealed? && ch[i].key == key
  }

  function Key(r: Ring): string
    requires r.cipher.Some?
  {
    r.cipher.value.key
  }

  /** An announced key that changes no key: the current one again, or one that is refused. */
  predicate Harmless(k: string, current: string) {
    k == current || !GoodKey(k)
  }

  ghost predicate AllHarmless(ks: seq<string>, current: string) {
    forall i | 0 <= i < |ks| :: Harmless(ks[i], current)
  }

  /** Nothing outstanding that the server waits for. */
  ghost predicate Settled(s: System)
    requires s.server.cipher.Some? && s.client.cipher.Some? && s.pin.Some?
  {
    && s.pin.value.cipher.key == Key(s.server) == Key(s.client)
    && AllUnder(s.up, Key(s.server))
    && Ordered(s.down, s.client) && ConfigsUnder(s.down, Key(s.client)) && AllHarmless(Announced(s.down), Key(s.client))
  }

  /** The new key is announced, last of all, but has not reached the client. */
  ghost predicate Announcing(s: System)
    requires s.server.cipher.Some? && s.client.cipher.Some? && s.pin.Some?
  {
    && Key(s.client) != Key(s.server) && GoodKey(Key(s.server))
    && s.pin.value.cipher.key == Key(s.client)
    && s.server.prev.Some? && s.server.prev.value.key == Key(s.client)
    && AllUnder(s.up, Key(s.client))
    && Ordered(s.down, s.client) && ConfigsUnder(s.down, Key(s.client))
    && var ks := Announced(s.down);
       ks != [] && ks[|ks| - 1] == Key(s.server) && AllHarmless(ks[..|ks| - 1], Key(s.client))
  }

  /** The client uses the new key, the server has not heard it yet and keeps answering under the old one. */
  ghost predicate Switching(s: System)
    requires s.server.cipher.Some? && s.client.cipher.Some? && s.pin.Some?
  {
    && Key(s.client) == Key(s.server) != s.pin.value.cipher.key
    && s.client.prev.Some? && s.client.prev.value.key == s.pin.value.cipher.key
    && (s.server.prev.Some? ==> s.server.prev.value.key == s.pin.value.cipher.key)
    && Ordered(s.up, s.server)
    && AllUnder(s.down, s.pin.value.cipher.key) && Announced(s.down) == []
  }

  function Bodies(ch: seq<Packet>): seq<Body> {
    if ch == [] then [] else [ch[0].body] + Bodies(ch[1..])
  }

  /** Conservation: what was sent is what arrived and was opened, then what is in flight, in order. */
  ghost predicate Conserved(s: System) {
    && s.lost == 0
    && s.sentDown == s.gotDown + Bodies(s.down)
    && s.sentUp == s.gotUp + Bodies(s.up)
  }

  ghost predicate Inv(s: System) {
    && s.server.cipher.Some? && s.client.cipher.Some? && s.pin.Some?
    && (Settled(s) || Announcing(s) || Switching(s))
    && Conserved(s)
  }

  lemma {:induction false} BodiesAppend(ch: seq<Packet>, p: Packet)
    ensures Bodies(ch + [p]) == Bodies(ch) + [p.body]
    ensures Announced(ch + [p]) == Announced(ch) + if p.body.ConfigUpdate? then [p.body.key] else []
  {
    if ch != [] {
      BodiesAppend(ch[1..], p);
      assert (ch + [p])[1..] == ch[1..] + [p];
    }
  }

  lemma SendDownConserves(s: System, b: Body)
    requires Conserved(s)
    ensures Conserved(SendDown(s, b))
    ensures Announced(SendDown(s, b).down) == Announced(s.down) + if b.ConfigUpdate? then [b.key] else []
  {
    BodiesAppend(s.down, Seal(ServerCipher(s), b));
  }

  lemma ServerSendKeeps(s: System, id: nat)
    requires Inv(s)
    ensures Inv(Next(s, ServerSend(id)))
  {
    var p := Seal(ServerCipher(s), Data(id));
    SendDownConserves(s, Data(id));
    assert Announced(SendDown(s, Data(id)).down) == Announced(s.down);
    if Switching(s) {
      AllUnderAppend(s.down, s.pin.value.cipher.key, p);
    } else {
      OrderedAppend(s.down, s.client, p);
      DataKeepsConfigs(s.down, Key(s.client), p);
    }
  }

  lemma DataKeepsConfigs(ch: seq<Packet>, key: string, p: Packet)
    requires ConfigsUnder(ch, key) && !p.body.ConfigUpdate?
    ensures ConfigsUnder(ch + [p], key)
  {
  }

  lemma ClientSendKeeps(s: System, id: nat)
    requires Inv(s)
    ensures Inv(Next(s, ClientSend(id)))
  {
    BodiesAppend(s.up, Seal(s.client.cipher, Data(id)));
    if Switching(s) {
      OrderedAppend(s.up, s.server, Seal(s.client.cipher, Data(id)));
    } else {
      AllUnderAppend(s.up, Key(s.client), Seal(s.client.cipher, Data(id)));
    }
  }

  lemma OrderedAppend(ch: seq<Packet>, r: Ring, p: Packet)
    requires Ordered(ch, r) && Opens(r.cipher, p)
    ensures Ordered(ch + [p], r)
  {
  }

  lemma AllUnderAppend(ch: seq<Packet>, key: string, p: Packet)
    requires AllUnder(ch, key) && p.Sealed? && p.key == key
    ensures AllUnder(ch + [p], key)
  {
  }

  lemma PushKeeps(s: System, key: string, now: int)
    requires Inv(s) && Premise(s, Push(key, now))
    ensures Inv(Next(s, Push(key, now)))
  {
    var t, p := Next(s, Push(key, now)), Seal(ServerCipher(s), ConfigUpdate(key));
    SendDownConserves(s, ConfigUpdate(key));
    assert Settled(s);
    OrderedAppend(s.down, s.client, p);
    if Harmless(key, Key(s.server)) {
      assert Settled(t);
    } else {
      assert Announced(t.down)[..|Announced(t.down)| - 1] == Announced(s.down);
      assert Announcing(t);
    }
  }

  lemma {:induction false} NoConfigs(ch: seq<Packet>)
    requires Announced(ch) == []
    ensures forall i | 0 <= i < |ch| :: !ch[i].body.ConfigUpdate?
  {
    if ch != [] {
      NoConfigs(ch[1..]);
      assert forall i | 1 <= i < |ch| :: ch[i] == ch[1..][i - 1];
    }
  }

  /** Whatever reaches the server in time is opened, and by the cipher the phase expects. */
  lemma ServerOpens(s: System, now: int)
    requires Inv(s) && s.up != [] && InTime(s.server, s.up[0], now)
    ensures Decrypted(s.server, s.up[0], now).1.Opened? && Decrypted(s.server, s.up[0], now).1.body == s.up[0].body
    ensures Conserved(AtServer(s, now))
  {
    ServerCanOpen(s);
    OpenedAtServer(s, now);
  }

  lemma ServerCanOpen(s: System)
    requires Inv(s) && s.up != []
    ensures s.up[0].Sealed? && (Opens(s.server.cipher, s.up[0]) || Opens(s.server.prev, s.up[0]))
  {
  }

  lemma OpenedAtServer(s: System, now: int)
    requires Conserved(s) && s.up != [] && InTime(s.server, s.up[0], now)
    requires Opens(s.server.cipher, s.up[0]) || Opens(s.server.prev, s.up[0])
    ensures Decrypted(s.server, s.up[0], now).1.Opened? && Decrypted(s.server, s.up[0], now).1.body == s.up[0].body
    ensures Conserved(AtServer(s, now))
  {
    assert s.gotUp + ([s.up[0].body] + Bodies(s.up[1..])) == (s.gotUp + [s.up[0].body]) + Bodies(s.up[1..]);
  }

  lemma ServerReceiveKeeps(s: System, now: int)
    requires Inv(s) && Premise(s, ServerReceive(now))
    ensures Inv(Next(s, ServerReceive(now)))
  {
    if s.up != [] {
      ServerOpens(s, now);
      if Switching(s) {
        HeardSwitching(s, now);
      } else {
        HeardUnderOneKey(s, now);
      }
    }
  }

  /** Before the client switches, everything from it is under one key. */
  lemma HeardUnderOneKey(s: System, now: int)
    requires Inv(s) && (Settled(s) || Announcing(s)) && s.up != [] && InTime(s.server, s.up[0], now)
    ensures Settled(s) ==> Settled(AtServer(s, now))
    ensures Announcing(s) ==> Announcing(AtServer(s, now))
  {
    assert s.up[0].Sealed? && s.up[0].key == Key(s.client);
    assert forall i | 0 <= i < |s.up[1..]| :: s.up[1..][i] == s.up[i + 1];
  }

  /** The first packet under the new key completes the rotation. */
  lemma HeardSwitching(s: System, now: int)
    requires Inv(s) && Switching(s) && s.up != [] && InTime(s.server, s.up[0], now)
    ensures if Opens(s.server.cipher, s.up[0]) then Settled(AtServer(s, now)) else Switching(AtServer(s, now))
  {
    OrderedTail(s.up, s.server);
    NoConfigs(s.down);
    assert Opens(s.server.cipher, s.up[0]) || Opens(s.server.prev, s.up[0]);
  }

  lemma ClientOpens(s: System, now: int)
    requires Inv(s) && s.down != [] && InTime(s.client, s.down[0], now)
    ensures Decrypted(s.client, s.down[0], now).1.Opened?
        && Decrypted(s.client, s.down[0], now).1.body == s.down[0].body
    ensures Conserved(AtClient(s, now))
    ensures Announced(s.down) == (if s.down[0].body.ConfigUpdate? then [s.down[0].body.key] else [])
        + Announced(s.down[1..])
  {
    assert Opens(s.client.cipher, s.down[0]) || Opens(s.client.prev, s.down[0]);
    OpenedIsConserved(s, now);
  }

  lemma OpenedIsConserved(s: System, now: int)
    requires Conserved(s) && s.down != []
    requires Decrypted(s.client, s.down[0], now).1.Opened?
        && Decrypted(s.client, s.down[0], now).1.body == s.down[0].body
    ensures Conserved(AtClient(s, now))
  {
    assert s.gotDown + ([s.down[0].body] + Bodies(s.down[1..])) == (s.gotDown + [s.down[0].body]) + Bodies(s.down[1..]);
  }

  /** Once a packet opens under the ring's cipher, all that follow it do. */
  lemma OrderedTail(ch: seq<Packet>, r: Ring)
    requires ch != [] && Ordered(ch, r)
    ensures Ordered(ch[1..], r)
    ensures Opens(r.cipher, ch[0]) ==> AllUnder(ch[1..], Key(r))
  {
    forall i | 0 <= i < |ch[1..]|
      ensures Opens(r.cipher, ch[0]) ==> ch[1..][i].Sealed? && ch[1..][i].key == Key(r)
    {
      assert ch[1..][i] == ch[i + 1];
    }
  }

  lemma SwitchArrives(s: System, now: int)
    requires Inv(s) && Announcing(s) && s.down != [] && InTime(s.client, s.down[0], now)
    requires s.down[0].body.ConfigUpdate? && |Announced(s.down)| == 1
    ensures Inv(AtClient(s, now)) && Switching(AtClient(s, now))
  {
    ClientOpens(s, now);
    OrderedTail(s.down, s.client);
    assert Opens(s.client.cipher, s.down[0]);
    assert s.down[0].body.key == Announced(s.down)[0];
    var t := AtClient(s, now);
    assert t.client.prev == s.client.cipher && Key(t.client) == Key(s.server);
  }

  /** Any other packet leaves the client's key as it is. */
  lemma ClientKeepsKey(s: System, now: int)
    requires s.down != [] && Ordered(s.down, s.client) && ConfigsUnder(s.down, Key(s.client))
    requires InTime(s.client, s.down[0], now)
    requires s.down[0].body.ConfigUpdate? ==> Harmless(s.down[0].body.key, Key(s.client))
    ensures var t := AtClient(s, now);
            && t.client.cipher.Some? && Key(t.client) == Key(s.client)
            && Ordered(t.down, t.client) && ConfigsUnder(t.down, Key(t.client))
  {
    OrderedTail(s.down, s.client);
    assert Opens(s.client.cipher, s.down[0]) || Opens(s.client.prev, s.down[0]);
    assert forall i | 0 <= i < |s.down[1..]| :: s.down[1..][i] == s.down[i + 1];
  }

  lemma HarmlessTail(ks: seq<string>, current: string)
    requires AllHarmless(ks, current)
    ensures |ks| > 0 ==> Harmless(ks[0], current) && AllHarmless(ks[1..], current)
  {
  }

  lemma HarmlessButLast(ks: seq<string>, current: string)
    requires |ks| > 1 && AllHarmless(ks[..|ks| - 1], current)
    ensures Harmless(ks[0], current) && ks[1..][|ks| - 2] == ks[|ks| - 1]
    ensures AllHarmless(ks[1..][..|ks| - 2], current)
  {
    assert ks[..|ks| - 1][0] == ks[0] && ks[1..][..|ks| - 2] == ks[..|ks| - 1][1..];
  }

  lemma ClientHearsSettled(s: System, now: int)
    requires Inv(s) && Settled(s) && s.down != [] && InTime(s.client, s.down[0], now)
    ensures Inv(AtClient(s, now)) && Settled(AtClient(s, now))
  {
    ClientOpens(s, now);
    var ks := Announced(s.down);
    if s.down[0].body.ConfigUpdate? {
      assert ks[0] == s.down[0].body.key && ks[1..] == Announced(s.down[1..]);
      HarmlessTail(ks, Key(s.client));
    } else {
      assert Announced(s.down[1..]) == ks;
    }
    ClientKeepsKey(s, now);
  }

  lemma ClientHearsAnnouncing(s: System, now: int)
    requires Inv(s) && Announcing(s) && s.down != [] && InTime(s.client, s.down[0], now)
    requires s.down[0].body.ConfigUpdate? ==> |Announced(s.down)| > 1
    ensures Inv(AtClient(s, now)) && Announcing(AtClient(s, now))
  {
    ClientOpens(s, now);
    var ks := Announced(s.down);
    if s.down[0].body.ConfigUpdate? {
      assert ks[0] == s.down[0].body.key && ks[1..] == Announced(s.down[1..]);
      HarmlessButLast(ks, Key(s.client));
    } else {
      assert Announced(s.down[1..]) == ks;
    }
    ClientKeepsKey(s, now);
  }

  lemma ClientReceiveKeeps(s: System, now: int)
    requires Inv(s) && Premise(s, ClientReceive(now))
    ensures Inv(Next(s, ClientReceive(now)))
  {
    if s.down != [] {
      if Settled(s) {
        ClientHearsSettled(s, now);
      } else if Switching(s) {
        ClientOpens(s, now);
        assert Switching(AtClient(s, now));
      } else if s.down[0].body.ConfigUpdate? && |Announced(s.down)| == 1 {
        SwitchArrives(s, now);
      } else {
        ClientOpens(s, now);
        ClientHearsAnnouncing(s, now);
      }
    }
  }

  lemma ExpireKeeps(s: System, a: Action)
    requires Inv(s) && (a.ServerExpire? || a.ClientExpire?) && Premise(s, a)
    ensures Inv(Next(s, a))
  {
    var t := Next(s, a);
    if a.ServerExpire? {
      assert !Announcing(s);
      if Settled(s) { assert Settled(t); } else { assert Switching(t); }
    } else {
      assert !Switching(s);
      if Settled(s) { assert Settled(t); } else { assert Announcing(t); }
    }
  }

  lemma StepKeeps(s: System, a: Action)
    requires Inv(s) && Premise(s, a)
    ensures Inv(Next(s, a))
  {
    match a
    case Push(key, now) => PushKeeps(s, key, now);
    case ServerSend(id) => ServerSendKeeps(s, id);
    case ClientSend(id) => ClientSendKeeps(s, id);
    case ServerReceive(now) => ServerReceiveKeeps(s, now);
    case ClientReceive(now) => ClientReceiveKeeps(s, now);
    case ServerExpire => ExpireKeeps(s, a);
    case ClientExpire => ExpireKeeps(s, a);
    case _ =>
  }

  lemma {:induction false} RunKeeps(s: System, acts: seq<Action>)
    requires Inv(s) && Covered(s, acts)
    ensures Inv(Run(s, acts))
    decreases |acts|
  {
    if acts != [] {
      StepKeeps(s, acts[0]);
      RunKeeps(Next(s, acts[0]), acts[1..]);
    }
  }

  /** Key rotation loses no packet: over every covered run, with any number of rotations, each direction
      delivers exactly what was sent, opened and in order, and the rest is still in flight. */
  lemma {:induction false} NoPacketLost(key: string, acts: seq<Action>)
    requires key != "" && Covered(Connected(key), acts)
    ensures Conserved(Run(Connected(key), acts))
  {
    assert Settled(Connected(key));
    RunKeeps(Connected(key), acts);
  }

  // ----- Any run at all -----

  function Times(bodies: seq<Body>, b: Body): nat {
    multiset(bodies)[b]
  }

  /** In one direction each body was opened or is in flight at most as often as it was sent. */
  ghost predicate NoneAdded(sent: seq<Body>, got: seq<Body>, ch: seq<Packet>) {
    forall b :: Times(got, b) + Times(Bodies(ch), b) <= Times(sent, b)
  }

  /** Every packet sent was opened, is in flight or is counted as lost. */
  ghost predicate Accounted(s: System) {
    && NoneAdded(s.sentDown, s.gotDown, s.down) && NoneAdded(s.sentUp, s.gotUp, s.up)
    && |s.sentDown| + |s.sentUp| == |s.gotDown| + |s.gotUp| + |s.down| + |s.up| + s.lost
  }

  lemma Sending(sent: seq<Body>, got: seq<Body>, ch: seq<Packet>, p: Packet)
    requires NoneAdded(sent, got, ch)
    ensures NoneAdded(sent + [p.body], got, ch + [p])
  {
    BodiesAppend(ch, p);
  }

  lemma Taking(sent: seq<Body>, got: seq<Body>, ch: seq<Packet>)
    requires NoneAdded(sent, got, ch) && ch != []
    ensures NoneAdded(sent, got, ch[1..]) && NoneAdded(sent, got + [ch[0].body], ch[1..])
  {
    assert multiset(Bodies(ch)) == multiset([ch[0].body]) + multiset(Bodies(ch[1..]));
  }

  lemma Swapping(sent: seq<Body>, got: seq<Body>, ch: seq<Packet>)
    requires NoneAdded(sent, got, ch) && |ch| >= 2
    ensures NoneAdded(sent, got, [ch[1], ch[0]] + ch[2..])
  {
    var a, b, rest := ch[0], ch[1], ch[2..];
    assert ch[1..][1..] == rest && ([b, a] + rest)[1..] == [a] + rest && ([a] + rest)[1..] == rest;
    assert Bodies(ch) == [a.body] + ([b.body] + Bodies(rest));
    assert Bodies([b, a] + rest) == [b.body] + ([a.body] + Bodies(rest));
  }

  // The steps, one by one.

  lemma TakenUp(s: System, now: int)
    requires Accounted(s) && s.up != []
    ensures Accounted(AtServer(s, now))
  {
    Taking(s.sentUp, s.gotUp, s.up);
    var o := Decrypted(s.server, s.up[0], now).1;
    assert o.Failed? || o.body == s.up[0].body;
  }

  lemma TakenDown(s: System, now: int)
    requires Accounted(s) && s.down != []
    ensures Accounted(AtClient(s, now))
  {
    Taking(s.sentDown, s.gotDown, s.down);
    var o := Decrypted(s.client, s.down[0], now).1;
    assert o.Failed? || o.body == s.down[0].body;
  }

  lemma SentDown(s: System, b: Body)
    requires Accounted(s)
    ensures Accounted(SendDown(s, b))
  {
    Sending(s.sentDown, s.gotDown, s.down, Seal(ServerCipher(s), b));
  }

  lemma SentUp(s: System, id: nat)
    requires Accounted(s)
    ensures Accounted(Next(s, ClientSend(id)))
  {
    Sending(s.sentUp, s.gotUp, s.up, Seal(s.client.cipher, Data(id)));
  }

  lemma ChannelsCount(s: System, up: seq<Packet>, down: seq<Packet>)
    requires Accounted(s) && |up| == |s.up| && |down| == |s.down|
    requires NoneAdded(s.sentUp, s.gotUp, up) && NoneAdded(s.sentDown, s.gotDown, down)
    ensures Accounted(s.(up := up, down := down))
  {
  }

  lemma SwappedUp(s: System)
    requires Accounted(s)
    ensures Accounted(Next(s, ReorderUp))
  {
    if |s.up| >= 2 {
      var up := [s.up[1], s.up[0]] + s.up[2..];
      Swapping(s.sentUp, s.gotUp, s.up);
      ChannelsCount(s, up, s.down);
      assert Next(s, ReorderUp) == s.(up := up, down := s.down);
    }
  }

  lemma SwappedDown(s: System)
    requires Accounted(s)
    ensures Accounted(Next(s, ReorderDown))
  {
    if |s.down| >= 2 {
      var down := [s.down[1], s.down[0]] + s.down[2..];
      Swapping(s.sentDown, s.gotDown, s.down);
      ChannelsCount(s, s.up, down);
      assert Next(s, ReorderDown) == s.(up := s.up, down := down);
    }
  }

  /** Rings do not count: `u` has the histories and channels of `s`. */
  lemma SameTraffic(s: System, u: System)
    requires Accounted(s) && u == s.(server := u.server, client := u.client)
    ensures Accounted(u)
  {
  }

  lemma StepAccounts(s: System, a: Action, u: System)
    requires Accounted(s) && u == Next(s, a)
    ensures Accounted(u)
  {
    match a
    case Push(key, _) =>
      SentDown(s, ConfigUpdate(key));
      SameTraffic(SendDown(s, ConfigUpdate(key)), u);
    case Announce(key) => SentDown(s, ConfigUpdate(key));
    case ServerSend(id) => SentDown(s, Data(id));
    case ClientSend(id) => SentUp(s, id);
    case ServerReceive(now) =>
      if s.up != [] {
        TakenUp(s, now);
      }
    case ClientReceive(now) =>
      if s.down != [] {
        TakenDown(s, now);
      }
    case ReorderUp => SwappedUp(s);
    case ReorderDown => SwappedDown(s);
    case _ => SameTraffic(s, u);
  }

  lemma {:induction false} RunAccounts(s: System, acts: seq<Action>)
    requires Accounted(s)
    ensures Accounted(Run(s, acts))
    decreases |acts|
  {
    if acts != [] {
      StepAccounts(s, acts[0], Next(s, acts[0]));
      RunAccounts(Next(s, acts[0]), acts[1..]);
    }
  }

  /** Over every run, covered or not: nothing comes out that was not sent, nothing comes out twice, and every packet
      sent was opened, is in flight or was lost. */
  lemma EveryPacketCounts(key: string, acts: seq<Action>)
    ensures Accounted(Run(Connected(key), acts))
  {
    assert Accounted(Connected(key));
    RunAccounts(Connected(key), acts);
  }
}
