/** Which inner packets look encrypted already (pkg/tunnel/encryption_detection.go), and the flow key under
    which pkg/xdp/accelerator.go caches that verdict. */
module Classifier {
  import opened Bytes

  const TCP: byte := 6
  const UDP: byte := 17
  const MIN_HEADER := 20
  const MAX_SAMPLE := 8

  function PortAt(p: seq<byte>, i: nat): u16
    requires i + 2 <= |p|
  {
    Get16(p[i..i + 2])
  }

  predicate PortLikelyEncrypted(port: u16) {
    port in {443, 8443, 853, 2053, 3389, 8388, 8389, 10086, 10443}
  }

  predicate LooksLikeTLS(p: seq<byte>) {
    |p| >= 5 && p[1] == 0x03 && 0x14 <= p[0] <= 0x17 && p[2] <= 0x04
  }

  predicate LooksLikeQUIC(p: seq<byte>) {
    |p| >= 5 && (p[0] >= 0x80 || |p| > 16)
  }

  predicate Unprintable(b: byte) {
    b < 0x20 || b > 0x7E
  }

  /** Unprintable bytes among the first `n`. */
  function CountUnprintable(p: seq<byte>, n: nat): nat
    requires n <= |p|
  {
    if n == 0 then 0 else CountUnprintable(p, n - 1) + if Unprintable(p[n - 1]) then 1 else 0
  }

  function SampleSize(n: nat): nat {
    if n > MAX_SAMPLE then MAX_SAMPLE else n
  }

  predicate LooksLikeAEADProxy(p: seq<byte>) {
    && |p| >= 3
    && if p[0] == 0x01 then |p| >= 7
       else if p[0] == 0x04 then |p| >= 19
       else if p[0] == 0x03 then |p| >= 4 + (p[1] as int)
       else CountUnprintable(p, SampleSize(|p|)) >= SampleSize(|p|) / 2 + 1
  }

  /** The counting loop of `looksLikeAEADProxy`. */
  method LooksLikeAEADProxyLoop(p: seq<byte>) returns (r: bool)
    ensures r == LooksLikeAEADProxy(p)
  {
    if |p| < 3 {
      return false;
    }
    match p[0] {
      case 0x01 => return |p| >= 1 + 4 + 2;
      case 0x04 => return |p| >= 1 + 16 + 2;
      case 0x03 => return |p| >= 2 + (p[1] as int) + 2;
      case _ =>
    }
    var nonPrintable := 0;
    var checkLen := if |p| > MAX_SAMPLE then MAX_SAMPLE else |p|;
    var threshold := checkLen / 2 + 1;
    for i := 0 to checkLen
      invariant nonPrintable == CountUnprintable(p, i)
    {
      if p[i] < 0x20 || p[i] > 0x7E {
        nonPrintable := nonPrintable + 1;
      }
    }
    return nonPrintable >= threshold;
  }

  predicate IsIPv4(ip: seq<byte>) {
    |ip| >= MIN_HEADER && ip[0] / 16 == 4
  }

  function IHL(ip: seq<byte>): nat
    requires |ip| > 0
  {
    ip[0] % 16 * 4
  }

  predicate ServicePort(transport: seq<byte>)
    requires |transport| >= 4
  {
    PortLikelyEncrypted(PortAt(transport, 0)) || PortLikelyEncrypted(PortAt(transport, 2))
  }

  predicate LikelyEncryptedTCP(t: seq<byte>) {
    && |t| >= 20 && t[12] / 16 * 4 <= |t|
    && (ServicePort(t) || LooksLikeTLS(t[t[12] / 16 * 4..]) || LooksLikeAEADProxy(t[t[12] / 16 * 4..]))
  }

  predicate LikelyEncryptedUDP(t: seq<byte>) {
    |t| >= 8 && (ServicePort(t) || LooksLikeQUIC(t[8..]) || LooksLikeAEADProxy(t[8..]))
  }

  /** `isLikelyEncryptedTraffic` */
  predicate LikelyEncrypted(ip: seq<byte>) {
    && IsIPv4(ip) && |ip| >= IHL(ip) + 4
    && if ip[9] == TCP then LikelyEncryptedTCP(ip[IHL(ip)..])
       else if ip[9] == UDP then LikelyEncryptedUDP(ip[IHL(ip)..])
       else false
  }

  datatype FlowKey = FlowKey(src: seq<byte>, dst: seq<byte>, srcPort: u16, dstPort: u16, proto: byte)

  /** `flowKeyFromPacket` */
  function KeyOf(ip: seq<byte>): Option<FlowKey> {
    if !IsIPv4(ip) || |ip| < IHL(ip) then None
    else if ip[9] == TCP || ip[9] == UDP then
      if |ip| < IHL(ip) + 4 then None
      else Some(FlowKey(ip[12..16], ip[16..20], PortAt(ip, IHL(ip)), PortAt(ip, IHL(ip) + 2), ip[9]))
    else Some(FlowKey(ip[12..16], ip[16..20], 0, 0, ip[9]))
  }

  /** A complete TCP or UDP header behind the IP header. */
  predicate WellFormedTransport(ip: seq<byte>) {
    && IsIPv4(ip) && |ip| >= IHL(ip) + 4
    && ((ip[9] == TCP && |ip| >= IHL(ip) + 20 && ip[IHL(ip) + 12] / 16 * 4 <= |ip| - IHL(ip))
        || (ip[9] == UDP && |ip| >= IHL(ip) + 8))
  }

  /** On a listed service port every well-formed packet is classified as encrypted, and that is visible in
      the flow key. */
  lemma ServiceFlows(ip: seq<byte>)
    requires WellFormedTransport(ip)
    ensures KeyOf(ip).Some?
    ensures var k := KeyOf(ip).value;
            PortLikelyEncrypted(k.srcPort) || PortLikelyEncrypted(k.dstPort) ==> LikelyEncrypted(ip)
  {
    var t := ip[IHL(ip)..];
    assert t[0..2] == ip[IHL(ip)..IHL(ip) + 2] && t[2..4] == ip[IHL(ip) + 2..IHL(ip) + 4];
  }

  // ----- The verdict and the key, on the parts of a packet -----

  /** An IPv4 header as long as it states. */
  predicate IPHeaderFor(ip: seq<byte>, proto: byte) {
    |ip| >= 20 && ip[0] / 16 == 4 && |ip| == ip[0] % 16 * 4 && ip[9] == proto
  }

  /** A record of change-cipher, alert, handshake or application data, of version 3.0 to 3.4. */
  predicate TLSRecord(data: seq<byte>) {
    |data| >= 5 && data[0] in {20, 21, 22, 23} && data[1] == 3 && data[2] in {0, 1, 2, 3, 4}
  }

  /** The positions among the first eight that hold no printable character. */
  function Unprintables(data: seq<byte>, n: nat): set<nat> {
    set i: nat | i < n && i < |data| && !(' ' as int <= data[i] <= '~' as int)
  }

  /** An address of IPv4, IPv6 or domain type with its port, or mostly unprintable bytes at the start. */
  predicate ProxyStart(data: seq<byte>) {
    && |data| >= 3
    && match data[0]
       case 1 => |data| >= 1 + 4 + 2
       case 4 => |data| >= 1 + 16 + 2
       case 3 => |data| >= 2 + (data[1] as int) + 2
       case _ => 2 * |Unprintables(data, 8)| > if |data| < 8 then |data| else 8
  }

  predicate Listed(port: nat) {
    port in {443, 853, 2053, 3389, 8388, 8389, 8443, 10086, 10443}
  }

  lemma {:induction false} CountIsSize(data: seq<byte>, n: nat)
    requires n <= |data|
    ensures CountUnprintable(data, n) == |Unprintables(data, n)|
  {
    if n > 0 {
      CountIsSize(data, n - 1);
      if Unprintable(data[n - 1]) {
        assert Unprintables(data, n) == Unprintables(data, n - 1) + {n - 1};
      } else {
        assert Unprintables(data, n) == Unprintables(data, n - 1);
      }
    }
  }

  lemma StartsLikeProxy(data: seq<byte>)
    ensures LooksLikeAEADProxy(data) <==> ProxyStart(data)
  {
    CountIsSize(data, SampleSize(|data|));
    assert Unprintables(data, 8) == Unprintables(data, SampleSize(|data|));
  }

  lemma Parts(ip: seq<byte>, transport: seq<byte>)
    requires |ip| >= 20
    ensures var p := ip + transport;
            && p[0] == ip[0] && p[9] == ip[9] && p[12..16] == ip[12..16] && p[16..20] == ip[16..20]
            && p[|ip|..] == transport
            && (|transport| >= 4 ==>
                  p[|ip|..|ip| + 2] == transport[0..2] && p[|ip| + 2..|ip| + 4] == transport[2..4])
  {
  }

  /** A TCP packet is taken for encrypted if and only if a port is listed, or its data is a TLS record or starts like
      a proxy's. */
  lemma TCPVerdict(ip: seq<byte>, tcp: seq<byte>, data: seq<byte>)
    requires IPHeaderFor(ip, 6) && |tcp| >= 20 && |tcp| == tcp[12] / 16 * 4
    ensures LikelyEncrypted(ip + (tcp + data)) <==>
              || Listed(Number(tcp[0..2])) || Listed(Number(tcp[2..4]))
              || TLSRecord(data) || ProxyStart(data)
  {
    var t := tcp + data;
    Parts(ip, t);
    assert t[0..2] == tcp[0..2] && t[2..4] == tcp[2..4] && t[12] == tcp[12] && t[|tcp|..] == data;
    ReadsNumber(tcp[0..2]);
    ReadsNumber(tcp[2..4]);
    StartsLikeProxy(data);
  }

  /** A UDP packet is taken for encrypted if and only if a port is listed, or its data has five bytes or more of which
      the first has its top bit set, or more than sixteen bytes, or starts like a proxy's. */
  lemma UDPVerdict(ip: seq<byte>, udp: seq<byte>, data: seq<byte>)
    requires IPHeaderFor(ip, 17) && |udp| == 8
    ensures LikelyEncrypted(ip + (udp + data)) <==>
              || Listed(Number(udp[0..2])) || Listed(Number(udp[2..4]))
              || (|data| >= 5 && data[0] >= 128) || |data| > 16 || ProxyStart(data)
  {
    var t := udp + data;
    Parts(ip, t);
    assert t[0..2] == udp[0..2] && t[2..4] == udp[2..4] && t[8..] == data;
    ReadsNumber(udp[0..2]);
    ReadsNumber(udp[2..4]);
    StartsLikeProxy(data);
  }

  /** Nothing else is: no other protocol or IP version, and no packet that breaks off in its transport header. */
  lemma OthersArePlain(ip: seq<byte>)
    ensures LikelyEncrypted(ip) ==> |ip| >= 20 && ip[0] / 16 == 4 && ip[9] in {6, 17}
    ensures LikelyEncrypted(ip) ==> |ip| - ip[0] % 16 * 4 >= if ip[9] == 6 then 20 else 8
  {
  }

  /** The flow key is addresses, protocol and, for TCP and UDP alike, the two ports. */
  lemma KeyIs(ip: seq<byte>, proto: byte, transport: seq<byte>)
    requires IPHeaderFor(ip, proto)
    ensures proto in {6, 17} && |transport| >= 4 ==>
              var k := KeyOf(ip + transport);
              && k.Some? && k.value == FlowKey(ip[12..16], ip[16..20], k.value.srcPort, k.value.dstPort, proto)
              && k.value.srcPort == Number(transport[0..2]) && k.value.dstPort == Number(transport[2..4])
    ensures proto in {6, 17} && |transport| < 4 ==> KeyOf(ip + transport) == None
    ensures proto !in {6, 17} ==> KeyOf(ip + transport) == Some(FlowKey(ip[12..16], ip[16..20], 0, 0, proto))
  {
    Parts(ip, transport);
    if |transport| >= 4 {
      ReadsNumber(transport[0..2]);
      ReadsNumber(transport[2..4]);
    }
  }

  /** There is no key without a whole IPv4 header. */
  lemma KeyNeedsHeader(ip: seq<byte>)
    ensures KeyOf(ip).Some? ==> |ip| >= 20 && ip[0] / 16 == 4 && |ip| >= ip[0] % 16 * 4
  {
  }
}
