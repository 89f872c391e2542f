/** Who opens a P2P connection: the announced peer-info line and the decision each client takes on the
    other's (pkg/tunnel/tunnel.go, pkg/p2p/manager.go, pkg/nat/nat.go). */
module Election {
  import opened Bytes
  import opened Text

  // ----- NAT types, as the integers that travel in the line -----

  const UNKNOWN := 0
  const NONE := 1
  const FULL_CONE := 2
  const RESTRICTED := 3
  const PORT_RESTRICTED := 4
  const SYMMETRIC := 5

  /** 0 is best for P2P; anything unrecognised is worst. */
  function Level(n: int): int {
    if NONE <= n <= SYMMETRIC then n - 1 else 5
  }

  predicate CanTraverse(a: int, b: int) {
    if a == NONE || b == NONE || a == FULL_CONE || b == FULL_CONE then true
    else if (a == RESTRICTED || a == PORT_RESTRICTED) && (b == RESTRICTED || b == PORT_RESTRICTED) then true
    else if a == SYMMETRIC && b == SYMMETRIC then false
    else a == SYMMETRIC || b == SYMMETRIC
  }

  predicate ShouldInitiate(a: int, b: int) {
    Level(a) < Level(b)
  }

  /** Traversal is symmetric, and between known types only symmetric against symmetric is hopeless. */
  lemma TraversalIsMutual(a: int, b: int)
    requires NONE <= a <= SYMMETRIC && NONE <= b <= SYMMETRIC
    ensures CanTraverse(a, b) == CanTraverse(b, a) == !(a == SYMMETRIC && b == SYMMETRIC)
  {
  }

  /** Types outside the list traverse like the open ones only, and never with each other. */
  lemma TraversalOfOthers(a: int, b: int)
    requires !(NONE <= a <= SYMMETRIC)
    ensures CanTraverse(a, b) == CanTraverse(b, a) == (b == NONE || b == FULL_CONE || b == SYMMETRIC)
  {
  }

  /** The levels rank the types from a public address down to symmetric NAT, and anything else below these. */
  lemma LevelsRank(a: int, b: int)
    ensures NONE <= a < b <= SYMMETRIC ==> ShouldInitiate(a, b) && !ShouldInitiate(b, a)
    ensures NONE <= a <= SYMMETRIC && !(NONE <= b <= SYMMETRIC) ==> ShouldInitiate(a, b) && !ShouldInitiate(b, a)
    ensures !(NONE <= a <= SYMMETRIC) && !(NONE <= b <= SYMMETRIC) ==> !ShouldInitiate(a, b)
    ensures Level(NONE) == 0 && Level(SYMMETRIC) == 4 && (a != NONE ==> 1 <= Level(a) <= 5)
  {
  }

  // ----- The announcement -----

  /** A client: tunnel address, public and local host, P2P port, NAT type. */
  datatype Node = Node(ip: IPv4, publicHost: string, localHost: string, port: nat, natType: nat)

  predicate PlainHost(h: string) {
    '|' !in h && ':' !in h && '[' !in h && ']' !in h
  }

  predicate Announceable(n: Node) {
    PlainHost(n.publicHost) && PlainHost(n.localHost) && n.port < 0x1_0000
  }

  function PublicAddr(n: Node): string {
    n.publicHost + ":" + Dec(n.port)
  }

  function LocalAddr(n: Node): string {
    n.localHost + ":" + Dec(n.port)
  }

  /** `announcePeerInfo`: TunnelIP|PublicAddr|LocalAddr|NATType */
  function Line(n: Node): string {
    Dotted(n.ip) + "|" + (PublicAddr(n) + "|" + (LocalAddr(n) + "|" + Dec(n.natType)))
  }

  /** What a client keeps of a peer. */
  datatype Peer = Peer(ip: IPv4, publicAddr: string, localAddr: string, natType: int)

  datatype Message = Ignored | Disconnect(ip: IPv4) | Announce(peer: Peer)

  /** The parsing half of `handlePeerInfoFromServer`. */
  function ParseLine(line: string): Message {
    var parts := Split(line, '|');
    if |parts| < 2 then Ignored
    else if parts[0] == "DISCONNECT" then
      var ip := ParseIP(parts[1]);
      if ip.None? then Ignored else Disconnect(ip.value)
    else if |parts| < 3 then Ignored
    else
      var ip := ParseIP(parts[0]);
      if ip.None? then Ignored
      else
        var scanned := if |parts| >= 4 then ScanInt(parts[3]) else None;
        Announce(Peer(ip.value, parts[1], parts[2], if scanned.Some? then scanned.value else UNKNOWN))
  }

  lemma AddrLacksBar(host: string, port: nat)
    requires PlainHost(host)
    ensures '|' !in host + ":" + Dec(port)
  {
    DigitsLack(port, '|');
  }

  lemma LineParts(n: Node)
    requires Announceable(n)
    ensures Split(Line(n), '|') == [Dotted(n.ip), PublicAddr(n), LocalAddr(n), Dec(n.natType)]
  {
    DottedLacks(n.ip, '|');
    AddrLacksBar(n.publicHost, n.port);
    AddrLacksBar(n.localHost, n.port);
    DigitsLack(n.natType, '|');
    FourParts(Dotted(n.ip), PublicAddr(n), LocalAddr(n), Dec(n.natType), '|');
  }

  lemma DottedIsNoDisconnect(ip: IPv4)
    ensures Dotted(ip) != "DISCONNECT"
  {
    DottedLacks(ip, 'D');
    assert "DISCONNECT"[0] == 'D';
  }

  lemma ParseFields(line: string, a: string, b: string, c: string, d: string, ip: IPv4, natType: int)
    requires Split(line, '|') == [a, b, c, d] && a != "DISCONNECT"
    requires ParseIP(a) == Some(ip) && ScanInt(d) == Some(natType)
    ensures ParseLine(line) == Announce(Peer(ip, b, c, natType))
  {
  }

  /** The line parses back to the announced fields. */
  lemma LineRoundTrip(n: Node)
    requires Announceable(n)
    ensures ParseLine(Line(n)) == Announce(Peer(n.ip, PublicAddr(n), LocalAddr(n), n.natType))
  {
    LineParts(n);
    DottedIsNoDisconnect(n.ip);
    DottedRoundTrip(n.ip);
    PrintedNumberReads(n.natType);
    ParseFields(Line(n), Dotted(n.ip), PublicAddr(n), LocalAddr(n), Dec(n.natType), n.ip, n.natType);
  }

  /** A line of three parts, as older clients announced, parses with an unknown NAT type. */
  lemma OldLine(n: Node)
    requires Announceable(n)
    ensures ParseLine(Dotted(n.ip) + "|" + (PublicAddr(n) + "|" + LocalAddr(n)))
        == Announce(Peer(n.ip, PublicAddr(n), LocalAddr(n), UNKNOWN))
  {
    DottedLacks(n.ip, '|');
    AddrLacksBar(n.publicHost, n.port);
    AddrLacksBar(n.localHost, n.port);
    ThreeParts(Dotted(n.ip), PublicAddr(n), LocalAddr(n), '|');
    DottedIsNoDisconnect(n.ip);
    DottedRoundTrip(n.ip);
  }

  /** The line that withdraws a peer; without a proper address it says nothing. */
  lemma DisconnectLine(text: string, ip: IPv4)
    requires '|' !in text
    ensures ParseLine("DISCONNECT|" + text) == Disconnect(ip) <==> text == Dotted(ip)
    ensures ParseLine("DISCONNECT|" + text) == if ParseIP(text).Some? then Disconnect(ParseIP(text).value) else Ignored
  {
    SplitFirst("DISCONNECT", '|', text);
    DottedIff(text, ip);
  }

  /** A line of fewer parts, or without a proper address at its front, says nothing. */
  lemma BadLine(a: string, b: string, c: string)
    requires '|' !in a && '|' !in b && '|' !in c && a != "DISCONNECT"
    ensures ParseLine(a) == Ignored && ParseLine(a + "|" + b) == Ignored
    ensures ParseLine(a + "|" + (b + "|" + c)) == Ignored <==> forall ip :: a != Dotted(ip)
  {
    SplitFirst(a, '|', b);
    ThreeParts(a, b, c, '|');
    if ParseIP(a).Some? {
      DottedIff(a, ParseIP(a).value);
    }
    forall ip ensures a == Dotted(ip) ==> ParseIP(a).Some? {
      DottedIff(a, ip);
    }
  }

  // ----- The decision -----

  function PortOf(addr: string): int {
    if addr == "" then 0
    else match SplitHostPort(addr)
         case None => 0
         case Some((_, port)) => (match Atoi(port) case Some(p) => p case None => 0)
  }

  /** The peer's port: from its public address, else from its local one, else 0. */
  function PeerPort(p: Peer): int {
    if PortOf(p.publicAddr) != 0 then PortOf(p.publicAddr) else PortOf(p.localAddr)
  }

  datatype Decision = Nothing | Relay | Initiate | Wait

  /** The manager's own rule, used when no port could be read. */
  predicate ManagerWouldInitiate(me: Node, p: Peer) {
    me.natType == UNKNOWN || p.natType == UNKNOWN || ShouldInitiate(me.natType, p.natType)
  }

  predicate WouldInitiate(me: Node, p: Peer) {
    if me.natType == UNKNOWN || p.natType == UNKNOWN then true
    else if Level(me.natType) != Level(p.natType) then ShouldInitiate(me.natType, p.natType)
    else if PeerPort(p) == 0 then ManagerWouldInitiate(me, p)
    else if me.port != PeerPort(p) then me.port < PeerPort(p)
    else me.ip[3] < p.ip[3]
  }

  predicate Feasible(me: Node, p: Peer) {
    me.natType == UNKNOWN || p.natType == UNKNOWN || CanTraverse(me.natType, p.natType)
  }

  /** `handlePeerInfoFromServer` */
  function Decide(me: Node, line: string): Decision {
    match ParseLine(line)
    case Ignored => Nothing
    case Disconnect(_) => Nothing
    case Announce(p) =>
      if p.ip == me.ip then Nothing
      else if !Feasible(me, p) then Relay
      else if WouldInitiate(me, p) then Initiate
      else Wait
  }

  lemma AnnouncedPort(n: Node)
    requires Announceable(n)
    ensures PeerPort(Peer(n.ip, PublicAddr(n), LocalAddr(n), n.natType)) == n.port
  {
    PrintedNumberReads(n.port);
    DigitsLack(n.port, ':');
    DigitsLack(n.port, '[');
    DigitsLack(n.port, ']');
    HostPortRoundTrip(n.publicHost, Dec(n.port));
    HostPortRoundTrip(n.localHost, Dec(n.port));
  }

  /** An address names the port its text after the colon spells, sign included (`Text.AtoiIs`); what is not a number,
      and an address without a colon or with brackets, names none. */
  lemma PortIs(host: string, text: string)
    requires PlainHost(host) && ':' !in text && '[' !in text && ']' !in text
    ensures PortOf(host) == 0
    ensures PortOf(host + ":" + text) == match Atoi(text) case Some(port) => port case None => 0
  {
    HostPortRoundTrip(host, text);
  }

  /** Nor does one with a second colon. */
  lemma SecondColon(a: string, b: string, c: string)
    ensures PortOf(a + ":" + b + ":" + c) == 0
  {
    var s := a + ":" + b + ":" + c;
    assert s[|a|] == ':' == s[|a| + 1 + |b|];
    var i := LastIndexOf(s, ':');
    assert i > |a| && s[..i][|a|] == ':';
  }

  /** Where the public address names no port, the local one decides. */
  lemma LocalPortDecides(ip: IPv4, public: string, host: string, port: nat, natType: int)
    requires ':' !in public && PlainHost(host)
    ensures PeerPort(Peer(ip, public, host + ":" + Dec(port), natType)) == port
  {
    PrintedNumberReads(port);
    DigitsLack(port, ':');
    DigitsLack(port, '[');
    DigitsLack(port, ']');
    HostPortRoundTrip(host, Dec(port));
  }

  /** A client's own line is not acted on. */
  lemma OwnLineIsIgnored(me: Node, other: Node)
    requires Announceable(other) && me.ip == other.ip
    ensures Decide(me, Line(other)) == Nothing
  {
    LineRoundTrip(other);
  }

  /** What a client decides on another client's current announcement, in terms of the two clients alone. */
  lemma DecisionOn(me: Node, other: Node)
    requires Announceable(other) && me.ip != other.ip
    ensures Decide(me, Line(other)) ==
            if me.natType != UNKNOWN && other.natType != UNKNOWN && !CanTraverse(me.natType, other.natType) then Relay
            else if Beats(me, other) then Initiate
            else Wait
  {
    LineRoundTrip(other);
    AnnouncedPort(other);
  }

  predicate Beats(me: Node, other: Node) {
    if me.natType == UNKNOWN || other.natType == UNKNOWN then true
    else if Level(me.natType) != Level(other.natType) then Level(me.natType) < Level(other.natType)
    else if other.port == 0 then false
    else if me.port != other.port then me.port < other.port
    else me.ip[3] < other.ip[3]
  }

  predicate Known(n: Node) {
    NONE <= n.natType <= SYMMETRIC
  }

  /** Two clients with known NAT types that process each other's current announcements never both initiate,
      and exactly one does if and only if traversal is deemed possible and NAT type, port or (with a port to
      compare) last tunnel octet tells them apart. */
  lemma OneInitiator(a: Node, b: Node)
    requires Announceable(a) && Announceable(b) && a.ip != b.ip && Known(a) && Known(b)
    ensures var da, db := Decide(a, Line(b)), Decide(b, Line(a));
            && !(da == Initiate && db == Initiate)
            && ((da == Initiate) != (db == Initiate) <==>
                 && !(a.natType == SYMMETRIC && b.natType == SYMMETRIC)
                 && (a.natType != b.natType || a.port != b.port || (a.port != 0 && a.ip[3] != b.ip[3])))
  {
    DecisionOn(a, b);
    DecisionOn(b, a);
    TraversalIsMutual(a.natType, b.natType);
  }

  /** And this is who: a client initiates if and only if traversal is possible and it has the better NAT type, or the
      same and, given a port to compare, the lower port, or the same port and the lower last octet; otherwise it
      waits, or leaves it to the relay. */
  lemma InitiatorIs(a: Node, b: Node)
    requires Announceable(a) && Announceable(b) && a.ip != b.ip && Known(a) && Known(b)
    ensures var possible := !(a.natType == SYMMETRIC && b.natType == SYMMETRIC);
            Decide(a, Line(b)) ==
            if !possible then Relay
            else if || a.natType < b.natType
                    || (a.natType == b.natType && b.port != 0
                        && (a.port < b.port || (a.port == b.port && a.ip[3] < b.ip[3]))) then Initiate
            else Wait
  {
    DecisionOn(a, b);
    TraversalIsMutual(a.natType, b.natType);
  }

  /** With either NAT type unknown both sides initiate. */
  lemma UnknownNATBothInitiate(a: Node, b: Node)
    requires Announceable(a) && Announceable(b) && a.ip != b.ip && (a.natType == UNKNOWN || b.natType == UNKNOWN)
    ensures Decide(a, Line(b)) == Initiate == Decide(b, Line(a))
  {
    DecisionOn(a, b);
    DecisionOn(b, a);
  }
}
