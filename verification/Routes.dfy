/** Routes advertised by clients: one list for lookup, one map for withdrawal (pkg/tunnel/tunnel.go). */
module Routes {
  import opened Bytes
  import Registry

  /** An IPv4 network: address and prefix length. */
  datatype Network = Network(addr: u32, bits: nat)

  predicate Contains(n: Network, ip: u32) {
    n.bits <= 32 && ip / Pow2(32 - n.bits) == n.addr / Pow2(32 - n.bits)
  }

  datatype Entry = Entry(network: Network, client: nat)

  datatype Table = Table(advertised: seq<Entry>, byClient: map<nat, seq<string>>)

  /** The entries of one client, or all but those, in order. */
  function Of(es: seq<Entry>, client: nat): seq<Entry> {
    if es == [] then []
    else if es[|es| - 1].client == client then Of(es[..|es| - 1], client) + [es[|es| - 1]]
    else Of(es[..|es| - 1], client)
  }

  function Without(es: seq<Entry>, client: nat): (r: seq<Entry>)
    ensures |r| <= |es|
  {
    if es == [] then []
    else if es[|es| - 1].client != client then Without(es[..|es| - 1], client) + [es[|es| - 1]]
    else Without(es[..|es| - 1], client)
  }

  /** The routes that parse, with `parse` standing for `net.ParseCIDR`. */
  function Good(parse: string -> Option<Network>, routes: seq<string>): seq<string> {
    if routes == [] then []
    else if parse(routes[|routes| - 1]).Some? then Good(parse, routes[..|routes| - 1]) + [routes[|routes| - 1]]
    else Good(parse, routes[..|routes| - 1])
  }

  function Entries(parse: string -> Option<Network>, routes: seq<string>, client: nat): seq<Entry> {
    if routes == [] then []
    else match parse(routes[|routes| - 1])
         case Some(n) => Entries(parse, routes[..|routes| - 1], client) + [Entry(n, client)]
         case None => Entries(parse, routes[..|routes| - 1], client)
  }

  function Cleaned(t: Table, client: nat): Table {
    Table(Without(t.advertised, client), t.byClient - {client})
  }

  function Registered(parse: string -> Option<Network>, t: Table, client: nat, routes: seq<string>): Table {
    if routes == [] then t else Added(parse, Cleaned(t, client), client, routes)
  }

  /** All routes that parse are listed, and kept under the client if there are any. */
  function Added(parse: string -> Option<Network>, c: Table, client: nat, routes: seq<string>): Table {
    var good := Good(parse, routes);
    Table(c.advertised + Entries(parse, routes, client), if good == [] then c.byClient else c.byClient[client := good])
  }

  function FirstContaining(es: seq<Entry>, ip: u32): Option<nat> {
    if es == [] then None
    else if Contains(es[0].network, ip) then Some(es[0].client)
    else FirstContaining(es[1..], ip)
  }

  function RoutesOf(t: Table, client: nat): seq<string> {
    if client in t.byClient then t.byClient[client] else []
  }

  /** For every client the list restricted to it is its entry in the map, parsed, in order. */
  ghost predicate Consistent(parse: string -> Option<Network>, t: Table) {
    && (forall c: nat :: Of(t.advertised, c) == Entries(parse, RoutesOf(t, c), c))
    && (forall c | c in t.byClient :: t.byClient[c] != [] && Good(parse, t.byClient[c]) == t.byClient[c])
  }

  lemma {:induction false} OfConcat(a: seq<Entry>, b: seq<Entry>, c: nat)
    ensures Of(a + b, c) == Of(a, c) + Of(b, c)
  {
    if b == [] {
      assert a + b == a;
    } else {
      OfConcat(a, b[..|b| - 1], c);
      assert (a + b)[..|a + b| - 1] == a + b[..|b| - 1];
    }
  }

  /** Filtering out one client empties its part and keeps every other client's part, order included. */
  lemma {:induction false} OfWithout(es: seq<Entry>, gone: nat, c: nat)
    ensures Of(Without(es, gone), c) == if c == gone then [] else Of(es, c)
  {
    if es != [] {
      var init, last := es[..|es| - 1], es[|es| - 1];
      OfWithout(init, gone, c);
      if last.client != gone {
        OfConcat(Without(init, gone), [last], c);
        assert [last][..0] == [];
      }
    }
  }

  lemma {:induction false} OfEntries(parse: string -> Option<Network>, routes: seq<string>, client: nat, c: nat)
    ensures Of(Entries(parse, routes, client), c) == if c == client then Entries(parse, routes, client) else []
  {
    if routes != [] {
      var init, last := routes[..|routes| - 1], routes[|routes| - 1];
      OfEntries(parse, init, client, c);
      if parse(last).Some? {
        var e := Entry(parse(last).value, client);
        OfConcat(Entries(parse, init, client), [e], c);
        assert [e][..0] == [];
      }
    }
  }

  /** The routes that do not parse leave no trace. */
  lemma {:induction false} GoodEntries(parse: string -> Option<Network>, routes: seq<string>, client: nat)
    ensures Entries(parse, Good(parse, routes), client) == Entries(parse, routes, client)
    ensures Good(parse, Good(parse, routes)) == Good(parse, routes)
  {
    if routes != [] {
      var init, last := routes[..|routes| - 1], routes[|routes| - 1];
      GoodEntries(parse, init, client);
      if parse(last).Some? {
        assert (Good(parse, init) + [last])[..|Good(parse, init)|] == Good(parse, init);
      }
    }
  }

  lemma CleanedConsistent(parse: string -> Option<Network>, t: Table, client: nat)
    requires Consistent(parse, t)
    ensures Consistent(parse, Cleaned(t, client))
    ensures Of(Cleaned(t, client).advertised, client) == []
  {
    forall c: nat ensures Of(Cleaned(t, client).advertised, c) == Entries(parse, RoutesOf(Cleaned(t, client), c), c) {
      OfWithout(t.advertised, client, c);
    }
    OfWithout(t.advertised, client, client);
  }

  lemma RegisteredConsistent(parse: string -> Option<Network>, t: Table, client: nat, routes: seq<string>)
    requires Consistent(parse, t)
    ensures Consistent(parse, Registered(parse, t, client, routes))
  {
    if routes != [] {
      var u, c0 := Registered(parse, t, client, routes), Cleaned(t, client);
      CleanedConsistent(parse, t, client);
      GoodEntries(parse, routes, client);
      forall c: nat ensures Of(u.advertised, c) == Entries(parse, RoutesOf(u, c), c) {
        OfConcat(c0.advertised, Entries(parse, routes, client), c);
        OfEntries(parse, routes, client, c);
      }
    }
  }

  datatype Event = Register(client: nat, routes: seq<string>) | Cleanup(client: nat)

  function Step(parse: string -> Option<Network>, t: Table, e: Event): Table {
    match e
    case Register(c, routes) => Registered(parse, t, c, routes)
    case Cleanup(c) => Cleaned(t, c)
  }

  function After(parse: string -> Option<Network>, t: Table, es: seq<Event>): Table
    decreases |es|
  {
    if es == [] then t else After(parse, Step(parse, t, es[0]), es[1..])
  }

  lemma {:induction false} RunConsistent(parse: string -> Option<Network>, t: Table, es: seq<Event>)
    requires Consistent(parse, t)
    ensures Consistent(parse, After(parse, t, es))
    decreases |es|
  {
    if es != [] {
      match es[0] {
        case Register(c, routes) => RegisteredConsistent(parse, t, c, routes);
        case Cleanup(c) => CleanedConsistent(parse, t, c);
      }
      RunConsistent(parse, Step(parse, t, es[0]), es[1..]);
    }
  }

  /** The server at its start. */
  const EMPTY := Table([], map[])

  /** After any run of registrations and cleanups the list and the map agree, client by client, in order. */
  lemma {:induction false} RunFromEmpty(parse: string -> Option<Network>, es: seq<Event>)
    ensures Consistent(parse, After(parse, EMPTY, es))
  {
    RunConsistent(parse, EMPTY, es);
  }

  // ----- The whole index, from the events alone -----

  /** The event withdraws the client's routes: a cleanup, or a registration that lists any. */
  predicate Withdraws(e: Event, client: nat) {
    e.client == client && (e.Register? ==> e.routes != [])
  }

  /** Event `k` is a registration that nothing has withdrawn since. */
  predicate Stands(es: seq<Event>, k: nat)
    requires k < |es|
  {
    es[k].Register? && es[k].routes != [] && forall j | k < j < |es| :: !Withdraws(es[j], es[k].client)
  }

  /** What event `k` leaves in the list: its parsed routes, if it is a standing registration. */
  function Kept(parse: string -> Option<Network>, es: seq<Event>, k: nat): seq<Entry>
    requires k < |es|
  {
    if Stands(es, k) then Entries(parse, es[k].routes, es[k].client) else []
  }

  /** What the first `n` events leave, in order. */
  function Listed(parse: string -> Option<Network>, es: seq<Event>, n: nat): seq<Entry>
    requires n <= |es|
  {
    if n == 0 then [] else Listed(parse, es, n - 1) + Kept(parse, es, n - 1)
  }

  /** What the last event about a client leaves of its routes. */
  function Latest(parse: string -> Option<Network>, es: seq<Event>, client: nat): seq<string> {
    if es == [] then []
    else if !Withdraws(es[|es| - 1], client) then Latest(parse, es[..|es| - 1], client)
    else if es[|es| - 1].Register? then Good(parse, es[|es| - 1].routes)
    else []
  }

  lemma {:induction false} AfterAppend(parse: string -> Option<Network>, t: Table, es: seq<Event>, e: Event)
    ensures After(parse, t, es + [e]) == Step(parse, After(parse, t, es), e)
    decreases |es|
  {
    if es == [] {
      assert (es + [e])[1..] == [];
    } else {
      assert (es + [e])[1..] == es[1..] + [e];
      AfterAppend(parse, Step(parse, t, es[0]), es[1..], e);
    }
  }

  lemma {:induction false} WithoutConcat(a: seq<Entry>, b: seq<Entry>, c: nat)
    ensures Without(a + b, c) == Without(a, c) + Without(b, c)
  {
    if b == [] {
      assert a + b == a;
    } else {
      WithoutConcat(a, b[..|b| - 1], c);
      assert (a + b)[..|a + b| - 1] == a + b[..|b| - 1];
    }
  }

  lemma {:induction false} WithoutEntries(parse: string -> Option<Network>, routes: seq<string>, client: nat, c: nat)
    ensures Without(Entries(parse, routes, client), c) == if c == client then [] else Entries(parse, routes, client)
  {
    if routes != [] {
      var init, last := routes[..|routes| - 1], routes[|routes| - 1];
      WithoutEntries(parse, init, client, c);
      if parse(last).Some? {
        var e := Entry(parse(last).value, client);
        WithoutConcat(Entries(parse, init, client), [e], c);
        assert [e][..0] == [];
      }
    }
  }

  /** One more event takes away what it withdraws, and nothing else. */
  lemma ListedBefore(parse: string -> Option<Network>, es: seq<Event>, e: Event, n: nat)
    requires n <= |es|
    ensures Listed(parse, es + [e], n)
         == if Withdraws(e, e.client) then Without(Listed(parse, es, n), e.client) else Listed(parse, es, n)
  {
    forall k | 0 <= k < n
      ensures Kept(parse, es + [e], k)
           == if Withdraws(e, e.client) then Without(Kept(parse, es, k), e.client) else Kept(parse, es, k)
    {
      KeptBefore(parse, es, e, k);
    }
    ListedAlike(parse, es, es + [e], n, e.client, Withdraws(e, e.client));
  }

  lemma {:induction false} ListedAlike(parse: string -> Option<Network>, es: seq<Event>, all: seq<Event>, n: nat,
                                       c: nat, withdraws: bool)
    requires n <= |es| && n <= |all|
    requires forall k | 0 <= k < n ::
               Kept(parse, all, k) == if withdraws then Without(Kept(parse, es, k), c) else Kept(parse, es, k)
    ensures Listed(parse, all, n) == if withdraws then Without(Listed(parse, es, n), c) else Listed(parse, es, n)
  {
    if n > 0 {
      ListedAlike(parse, es, all, n - 1, c, withdraws);
      Joined(Listed(parse, es, n - 1), Kept(parse, es, n - 1), Listed(parse, all, n - 1), Kept(parse, all, n - 1),
             c, withdraws);
    }
  }

  lemma Joined(a: seq<Entry>, b: seq<Entry>, x: seq<Entry>, y: seq<Entry>, c: nat, withdraws: bool)
    requires x == (if withdraws then Without(a, c) else a) && y == (if withdraws then Without(b, c) else b)
    ensures x + y == if withdraws then Without(a + b, c) else a + b
  {
    WithoutConcat(a, b, c);
  }

  lemma KeptBefore(parse: string -> Option<Network>, es: seq<Event>, e: Event, k: nat)
    requires k < |es|
    ensures Kept(parse, es + [e], k)
         == if Withdraws(e, e.client) then Without(Kept(parse, es, k), e.client) else Kept(parse, es, k)
  {
    StandsBefore(es, e, k);
    if es[k].Register? {
      WithoutEntries(parse, es[k].routes, es[k].client, e.client);
    }
  }

  lemma StandsBefore(es: seq<Event>, e: Event, k: nat)
    requires k < |es|
    ensures (es + [e])[k] == es[k]
    ensures Stands(es + [e], k) <==> Stands(es, k) && !Withdraws(e, es[k].client)
  {
    var all := es + [e];
    assert all[|es|] == e && forall j | 0 <= j < |es| :: all[j] == es[j];
  }

  /** Over every run the whole index is what the events make of it: the list holds the parsed routes of each
      registration that has not been withdrawn, in the order in which these were made, and the map holds, for each
      client, the routes of its last registration that parse. */
  lemma {:induction false} RunIs(parse: string -> Option<Network>, es: seq<Event>, t: Table)
    requires t == After(parse, EMPTY, es)
    ensures t.advertised == Listed(parse, es, |es|)
    ensures forall c: nat :: RoutesOf(t, c) == Latest(parse, es, c)
    decreases |es|
  {
    if es != [] {
      var n := |es| - 1;
      var before := After(parse, EMPTY, es[..n]);
      assert es[..n] + [es[n]] == es;
      AfterAppend(parse, EMPTY, es[..n], es[n]);
      RunIs(parse, es[..n], before);
      ListedBefore(parse, es[..n], es[n], n);
      assert Listed(parse, es, n) + [] == Listed(parse, es, n);
      StepRoutes(parse, before, es[n]);
    }
  }

  /** One event on the map. */
  lemma StepRoutes(parse: string -> Option<Network>, t: Table, e: Event)
    ensures forall c: nat :: RoutesOf(Step(parse, t, e), c) ==
              if !Withdraws(e, c) then RoutesOf(t, c) else if e.Register? then Good(parse, e.routes) else []
  {
  }

  /** The routes kept are those that parse, in order, and their entries are these routes parsed. */
  lemma {:induction false} GoodIsFilter(parse: string -> Option<Network>, routes: seq<string>, client: nat)
    ensures forall r :: r in Good(parse, routes) <==> r in routes && parse(r).Some?
    ensures |Entries(parse, routes, client)| == |Good(parse, routes)|
    ensures forall i | 0 <= i < |Good(parse, routes)| ::
              Entries(parse, routes, client)[i] == Entry(parse(Good(parse, routes)[i]).value, client)
  {
    if routes != [] {
      var init, last := routes[..|routes| - 1], routes[|routes| - 1];
      GoodIsFilter(parse, init, client);
      assert routes == init + [last];
    }
  }

  lemma {:induction false} GoodConcat(parse: string -> Option<Network>, a: seq<string>, b: seq<string>)
    ensures Good(parse, a + b) == Good(parse, a) + Good(parse, b)
  {
    if b == [] {
      assert a + b == a;
    } else {
      GoodConcat(parse, a, b[..|b| - 1]);
      assert (a + b)[..|a + b| - 1] == a + b[..|b| - 1];
    }
  }

  // ----- Lookup -----

  /** Bit `k` of an address, counted from the most significant one. */
  function BitAt(x: u32, k: nat): nat
    requires k < 32
  {
    Bit(x, 31 - k)
  }

  predicate Agree(x: u32, y: u32, bits: nat)
    requires bits <= 32
  {
    forall k | 0 <= k < bits :: BitAt(x, k) == BitAt(y, k)
  }

  lemma AgreeMore(x: u32, y: u32, bits: nat)
    requires 0 < bits <= 32
    ensures Agree(x, y, bits) <==> Agree(x, y, bits - 1) && BitAt(x, bits - 1) == BitAt(y, bits - 1)
  {
  }

  /** Two addresses have the same first `bits` bits if and only if shifting out the others gives the same number. */
  lemma {:induction false} PrefixIff(x: u32, y: u32, bits: nat)
    requires bits <= 32
    ensures Shr(x, 32 - bits) == Shr(y, 32 - bits) <==> Agree(x, y, bits)
    decreases bits
  {
    if bits == 0 {
      NothingLeft(x);
      NothingLeft(y);
    } else {
      PrefixIff(x, y, bits - 1);
      ShrOnce(x, 32 - bits);
      ShrOnce(y, 32 - bits);
      HalvesTell(Shr(x, 32 - bits), Shr(y, 32 - bits));
      AgreeMore(x, y, bits);
    }
  }

  lemma NothingLeft(x: u32)
    ensures Shr(x, 32) == 0
  {
    Pow2Values();
    ShrIs(x, 32);
  }

  lemma HalvesTell(a: nat, b: nat)
    ensures a == b <==> a / 2 == b / 2 && a % 2 == b % 2
  {
  }

  /** A network contains an address if and only if the two agree in the first bits, as many as the prefix has. */
  lemma ContainsIff(n: Network, ip: u32)
    requires n.bits <= 32
    ensures Contains(n, ip) <==> forall k | 0 <= k < n.bits :: BitAt(ip, k) == BitAt(n.addr, k)
  {
    ShrIs(ip, 32 - n.bits);
    ShrIs(n.addr, 32 - n.bits);
    PrefixIff(ip, n.addr, n.bits);
  }

  /** Lookup answers with the client of the first network in the list that contains the address. */
  lemma {:induction false} LookupIsFirst(es: seq<Entry>, ip: u32)
    ensures FirstContaining(es, ip).None? <==> forall i | 0 <= i < |es| :: !Contains(es[i].network, ip)
    ensures FirstContaining(es, ip).Some? ==> exists i | 0 <= i < |es| ::
              && Contains(es[i].network, ip) && es[i].client == FirstContaining(es, ip).value
              && forall j | 0 <= j < i :: !Contains(es[j].network, ip)
  {
    if es != [] && !Contains(es[0].network, ip) {
      LookupIsFirst(es[1..], ip);
      if FirstContaining(es[1..], ip).Some? {
        var i :| 0 <= i < |es[1..]| && Contains(es[1..][i].network, ip)
            && es[1..][i].client == FirstContaining(es, ip).value
                 && forall j | 0 <= j < i :: !Contains(es[1..][j].network, ip);
        assert Contains(es[i + 1].network, ip);
        assert forall j | 1 <= j < i + 1 :: es[j] == es[1..][j - 1];
      } else {
        assert forall i | 1 <= i < |es| :: es[i] == es[1..][i - 1];
      }
    }
  }

  /** A lookup never answers with a client that has no entry. */
  lemma {:induction false} LookupFindsOwner(es: seq<Entry>, ip: u32, client: nat)
    requires Of(es, client) == []
    ensures FirstContaining(es, ip) != Some(client)
  {
    LookupIsFirst(es, ip);
    if FirstContaining(es, ip) == Some(client) {
      var i :| 0 <= i < |es| && es[i].client == client;
      OfContains(es, client, i);
    }
  }

  lemma {:induction false} OfContains(es: seq<Entry>, client: nat, i: nat)
    requires i < |es| && es[i].client == client
    ensures Of(es, client) != []
  {
    if i < |es| - 1 {
      OfContains(es[..|es| - 1], client, i);
    }
  }

  // ----- Removing a client -----

  /** `removeClient` withdraws routes only for a client that registered an IP. */
  function AfterRemoval(t: Table, conn: Registry.Client, client: nat): Table {
    if conn.ip.Some? then Cleaned(t, client) else t
  }

  /** Removing a client leaves no route to it exactly when it had registered an IP or had no routes: a client
      that only ever advertised routes leaves them behind. */
  lemma RemovalWithdrawsRoutes(parse: string -> Option<Network>, t: Table, conn: Registry.Client, client: nat)
    requires Consistent(parse, t)
    ensures Of(AfterRemoval(t, conn, client).advertised, client) == [] <==> conn.ip.Some? || client !in t.byClient
  {
    CleanedConsistent(parse, t, client);
    if client in t.byClient {
      var rs := t.byClient[client];
      GoodIsNotEmpty(parse, rs, client);
    }
  }

  /** ... which does happen: a client that connects, advertises a route and stops before it sends its first data
      packet stays the answer to lookups in that route. */
  lemma RoutesLeftBehind(parse: string -> Option<Network>, route: string, n: Network)
    requires parse(route) == Some(n) && n.bits <= 32
    ensures var es := [Registry.Connect, Registry.Stop(0)];
            && Registry.Runs(Registry.EMPTY, es) && Registry.Enabled(Registry.After(Registry.EMPTY, es),
                Registry.Remove(0))
            && var t := AfterRemoval(Registered(parse, EMPTY, 0, [route]),
                Registry.After(Registry.EMPTY, es).conns[0], 0);
               FirstContaining(t.advertised, n.addr) == Some(0)
  {
    var es := [Registry.Connect, Registry.Stop(0)];
    var s1 := Registry.Step(Registry.EMPTY, es[0]);
    assert es[1..] == [Registry.Stop(0)] && es[1..][1..] == [];
    assert Registry.After(s1, es[1..]) == Registry.Step(s1, es[1]);
    assert [route][..0] == [] && [route][|[route]| - 1] == route;
    assert Entries(parse, [route][..0], 0) == [];
    assert Entries(parse, [route], 0) == [Entry(n, 0)];
    assert Registered(parse, EMPTY, 0, [route]).advertised == [Entry(n, 0)];
  }

  lemma GoodIsNotEmpty(parse: string -> Option<Network>, rs: seq<string>, client: nat)
    requires rs != [] && Good(parse, rs) == rs
    ensures Entries(parse, rs, client) != []
  {
    var n := |rs| - 1;
    GoodLength(parse, rs[..n]);
    assert parse(rs[n]).Some?;
  }

  lemma {:induction false} GoodLength(parse: string -> Option<Network>, rs: seq<string>)
    ensures |Good(parse, rs)| <= |rs|
  {
    if rs != [] {
      GoodLength(parse, rs[..|rs| - 1]);
    }
  }

  // ----- In place -----

  lemma WithoutNext(es: seq<Entry>, i: nat, client: nat)
    requires i < |es|
    ensures Without(es[..i + 1], client) ==
            if es[i].client != client then Without(es[..i], client) + [es[i]] else Without(es[..i], client)
  {
    assert es[..i + 1][..i] == es[..i];
  }

  /** Go's filter into the same backing array: the kept entries move to the front. */
  method FilterInPlace(a: array<Entry>, n: nat, client: nat) returns (k: nat)
    requires n <= a.Length
    modifies a
    ensures k <= n && a[..k] == Without(old(a[..n]), client)
  {
    k := 0;
    ghost var was := a[..n];
    for i := 0 to n
      invariant k <= i && a[..k] == Without(was[..i], client)
      invariant forall j | i <= j < n :: a[j] == was[j]
    {
      var e := a[i];
      WithoutNext(was, i, client);
      if e.client != client {
        ghost var kept := a[..k];
        a[k] := e;
        assert a[..k + 1] == kept + [e];
        k := k + 1;
      }
    }
    assert was[..n] == was;
  }

  function AddedOne(parse: string -> Option<Network>, t: Table, client: nat, route: string): Table {
    match parse(route)
    case Some(n) => Table(t.advertised + [Entry(n, client)], t.byClient[client := RoutesOf(t, client) + [route]])
    case None => t
  }

  lemma AddedNext(parse: string -> Option<Network>, c: Table, client: nat, routes: seq<string>, i: nat)
    requires i < |routes| && client !in c.byClient
    ensures Added(parse, c, client, routes[..i + 1]) == AddedOne(parse, Added(parse, c, client, routes[..i]), client,
        routes[i])
  {
    assert routes[..i + 1][..i] == routes[..i];
  }

  class Index {
    var entries: array<Entry>
    var count: nat
    var clientRoutes: map<nat, seq<string>>

    ghost predicate Valid() reads this {
      count <= entries.Length
    }

    ghost function View(): Table
      requires Valid()
      reads this, entries
    {
      Table(entries[..count], clientRoutes)
    }

    constructor ()
      ensures Valid() && fresh(entries) && View() == Table([], map[])
    {
      entries := new Entry[0];
      count, clientRoutes := 0, map[];
    }

    method RemoveClientRoutes(client: nat)
      requires Valid()
      modifies this, entries
      ensures Valid() && entries == old(entries) && View() == Cleaned(old(View()), client)
    {
      var k := FilterInPlace(entries, count, client);
      count := k;
      clientRoutes := clientRoutes - {client};
    }

    method Append(e: Entry)
      requires Valid()
      modifies this, entries
      ensures Valid() && (entries == old(entries) || fresh(entries)) && clientRoutes == old(clientRoutes)
      ensures entries[..count] == old(entries[..count]) + [e]
    {
      if count == entries.Length {
        var bigger := new Entry[2 * count + 1](_ => e);
        forall i | 0 <= i < count {
          bigger[i] := entries[i];
        }
        assert bigger[..count] == entries[..count];
        entries := bigger;
      }
      entries[count] := e;
      count := count + 1;
    }

    method AddRoute(client: nat, route: string, parse: string -> Option<Network>)
      requires Valid()
      modifies this, entries
      ensures Valid() && (entries == old(entries) || fresh(entries))
      ensures View() == AddedOne(parse, old(View()), client, route)
    {
      var n := parse(route);
      if n.Some? {
        Append(Entry(n.value, client));
        var mine := if client in clientRoutes then clientRoutes[client] else [];
        clientRoutes := clientRoutes[client := mine + [route]];
      }
    }

    method RegisterClientRoutes(client: nat, routes: seq<string>, parse: string -> Option<Network>)
      requires Valid()
      modifies this, entries
      ensures Valid() && (entries == old(entries) || fresh(entries))
      ensures View() == Registered(parse, old(View()), client, routes)
    {
      if |routes| == 0 {
        return;
      }
      RemoveClientRoutes(client);
      ghost var c := View();
      for i := 0 to |routes|
        invariant Valid() && (entries == old(entries) || fresh(entries))
        invariant View() == Added(parse, c, client, routes[..i])
      {
        AddRoute(client, routes[i], parse);
        AddedNext(parse, c, client, routes, i);
      }
      assert routes[..|routes|] == routes;
    }

    method FindRouteClient(ip: u32) returns (client: Option<nat>)
      requires Valid()
      ensures client == FirstContaining(View().advertised, ip)
    {
      ghost var es := entries[..count];
      assert es[0..] == es;
      for i := 0 to count
        invariant FirstContaining(es, ip) == FirstContaining(es[i..], ip)
      {
        if Contains(entries[i].network, ip) {
          return Some(entries[i].client);
        }
        assert es[i..][1..] == es[i + 1..];
      }
      return None;
    }
  }
}
