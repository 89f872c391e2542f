/** IPv4 and TCP packets as pkg/rawsocket builds and parses them (section 3.1 of RFC 791, section 3.1 of
    RFC 793), and the header pkg/faketcp rebuilds and strips on the receive path. */
module Packet {
  import opened Bytes
  import Checksum

  const IP_HEADER := 20
  const TCP_HEADER := 20
  const IPPROTO_TCP: byte := 6
  const WINDOW: u16 := 65535

  type Address = a: seq<byte> | |a| == 4 witness [0, 0, 0, 0]

  /** What a raw packet carries. */
  datatype Segment = Segment(srcIP: Address, srcPort: u16, dstIP: Address, dstPort: u16,
                             seqNum: u32, ackNum: u32, flags: byte, payload: seq<byte>)

  function At16(b: seq<byte>, i: nat): u16
    requires i + 2 <= |b|
  {
    Get16(b[i..i + 2])
  }

  function At32(b: seq<byte>, i: nat): u32
    requires i + 4 <= |b|
  {
    Get32(b[i..i + 4])
  }

  // ----- IPv4 header -----

  /** The 20 header bytes around the checksum field. */
  function IPFront(total: u16, protocol: byte): (h: seq<byte>)
    ensures |h| == 10 && h[0] == 0x45 && h[9] == protocol
  {
    [0x45, 0, total / 256, total % 256, 0x30, 0x39, 0x40, 0, 64, protocol]
  }

  function IPHeader(src: Address, dst: Address, protocol: byte, payloadLen: nat): (h: seq<byte>)
    ensures |h| == IP_HEADER && h[0] == 0x45 && h[9] == protocol && h[12..16] == src && h[16..20] == dst
  {
    var front := IPFront((IP_HEADER + payloadLen) % 0x1_0000, protocol);
    var checksum := Checksum.Of(front + [0, 0] + (src + dst));
    front + Put16(checksum) + (src + dst)
  }

  method BuildIPHeader(src: Address, dst: Address, protocol: byte, payloadLen: nat) returns (header: array<byte>)
    ensures fresh(header) && header[..] == IPHeader(src, dst, protocol, payloadLen)
  {
    header := new byte[IP_HEADER](_ => 0);
    var totalLen := (IP_HEADER + payloadLen) % 0x1_0000;
    FillIPFront(header, totalLen, protocol);
    ghost var front := IPFront(totalLen, protocol);
    assert header[..] == front + Zeros(10);
    CopyInto(header, 12, src + dst);
    assert (front + Zeros(10))[..12] == front + [0, 0];
    assert header[..] == front + [0, 0] + (src + dst);
    var checksum := Checksum.CalculateChecksum(header[..]);
    CopyInto(header, 10, Put16(checksum));
    assert header[..] == front + Put16(checksum) + (src + dst);
  }

  method FillIPFront(header: array<byte>, totalLen: u16, protocol: byte)
    requires header.Length == IP_HEADER
    modifies header
    ensures header[..10] == IPFront(totalLen, protocol) && header[10..] == old(header[10..])
  {
    header[0] := 0x45;
    header[1] := 0;
    header[2], header[3] := totalLen / 256, totalLen % 256;
    header[4], header[5] := 12345 / 256, 12345 % 256;
    header[6], header[7] := 0x4000 / 256, 0;
    header[8] := 64;
    header[9] := protocol;
  }

  /** Go's `copy(a[i:], s)` for a source that fits. */
  method CopyInto(a: array<byte>, i: nat, s: seq<byte>)
    requires i + |s| <= a.Length
    modifies a
    ensures a[..] == old(a[..i]) + s + old(a[i + |s|..])
  {
    for k := 0 to |s|
      invariant forall j | 0 <= j < a.Length :: a[j] == if i <= j < i + k then s[j - i] else old(a[j])
    {
      a[i + k] := s[k];
    }
  }

  // ----- TCP header -----

  /** Options padded with zeros to a multiple of four. */
  function Padded(options: seq<byte>): (p: seq<byte>)
    ensures |p| % 4 == 0 && |options| <= |p| < |options| + 4 && p[..|options|] == options
  {
    options + Zeros((4 - |options| % 4) % 4)
  }

  /** `uint8(headerLen / 4) << 4` */
  function OffsetByte(headerLen: nat): byte {
    headerLen / 4 % 16 * 16
  }

  /** The header up to the checksum. */
  function TCPFront(srcPort: u16, dstPort: u16, seqNum: u32, ackNum: u32, offset: byte, flags: byte,
      window: u16): (h: seq<byte>)
    ensures |h| == 16
    ensures At16(h, 0) == srcPort && At16(h, 2) == dstPort && At32(h, 4) == seqNum && At32(h, 8) == ackNum
    ensures h[12] == offset && h[13] == flags && At16(h, 14) == window
  {
    var ports, sn, an, rest := Put16(srcPort) + Put16(dstPort), Put32(seqNum), Put32(ackNum), [offset, flags]
        + Put16(window);
    FrontSlices(Put16(srcPort), Put16(dstPort), sn, an, offset, flags, Put16(window));
    ports + sn + an + rest
  }

  lemma FrontSlices(a: seq<byte>, b: seq<byte>, c: seq<byte>, d: seq<byte>, x: byte, y: byte, w: seq<byte>)
    requires |a| == |b| == |w| == 2 && |c| == |d| == 4
    ensures var h := (a + b) + c + d + ([x, y] + w);
            && |h| == 16 && h[0..2] == a && h[2..4] == b && h[4..8] == c && h[8..12] == d
            && h[12] == x && h[13] == y && h[14..16] == w
  {
  }

  /** A header with the given checksum and options already padded. */
  function TCPHeaderBytes(front: seq<byte>, checksum: u16, options: seq<byte>): (h: seq<byte>)
    requires |front| == 16
    ensures |h| == TCP_HEADER + |options| && h[..16] == front && h[TCP_HEADER..] == options
  {
    front + Put16(checksum) + ([0, 0] + options)
  }

  method BuildTCPHeader(srcPort: u16, dstPort: u16, seqNum: u32, ackNum: u32, flags: byte, window: u16,
      options: seq<byte>)
    returns (header: array<byte>)
    ensures fresh(header)
    ensures header[..] == TCPHeaderBytes(
              TCPFront(srcPort, dstPort, seqNum, ackNum, OffsetByte(TCP_HEADER + |Padded(options)|), flags, window),
              0, Padded(options))
  {
    var opts := options;
    if |options| % 4 != 0 {
      opts := options + Zeros(4 - |options| % 4);
    }
    assert opts == Padded(options);
    var headerLen := TCP_HEADER + |opts|;
    var front := TCPFront(srcPort, dstPort, seqNum, ackNum, OffsetByte(headerLen), flags, window);
    header := new byte[headerLen](_ => 0);
    FillTCP(header, front, opts);
  }

  method FillTCP(header: array<byte>, front: seq<byte>, opts: seq<byte>)
    requires |front| == 16 && header.Length == TCP_HEADER + |opts|
    requires forall i | 0 <= i < header.Length :: header[i] == 0
    modifies header
    ensures header[..] == TCPHeaderBytes(front, 0, opts)
  {
    CopyInto(header, 0, front);
    assert header[..16] == front && header[16] == header[17] == header[18] == header[19] == 0;
    if |opts| > 0 {
      CopyInto(header, TCP_HEADER, opts);
    }
    assert header[..16] == front && header[TCP_HEADER..] == opts;
    assert header[..] == header[..16] + [0, 0] + ([0, 0] + header[TCP_HEADER..]);
  }

  function PseudoHeader(src: Address, dst: Address, tcpLen: nat): (h: seq<byte>)
    ensures |h| == 12
  {
    src + dst + [0, IPPROTO_TCP] + Put16(tcpLen % 0x1_0000)
  }

  /** The TCP header as sent: the checksum covers pseudo-header, header and payload. */
  function SentTCPHeader(s: Segment, options: seq<byte>): (h: seq<byte>)
    ensures |h| == TCP_HEADER + |Padded(options)|
    ensures h[..16] == TCPFront(s.srcPort, s.dstPort, s.seqNum, s.ackNum, OffsetByte(|h|), s.flags, WINDOW)
  {
    var opts := Padded(options);
    var front := TCPFront(s.srcPort, s.dstPort, s.seqNum, s.ackNum, OffsetByte(TCP_HEADER + |opts|), s.flags, WINDOW);
    TCPHeaderBytes(front, TCPChecksum(s, TCPHeaderBytes(front, 0, opts)), opts)
  }

  function TCPChecksum(s: Segment, header: seq<byte>): u16 {
    Checksum.Of(PseudoHeader(s.srcIP, s.dstIP, |header| + |s.payload|) + header + s.payload)
  }

  /** The packet `SendPacket` hands to the kernel. */
  function Assemble(s: Segment, options: seq<byte>): seq<byte> {
    var tcp := SentTCPHeader(s, options);
    IPHeader(s.srcIP, s.dstIP, IPPROTO_TCP, |tcp| + |s.payload|) + tcp + s.payload
  }

  /** The socket's own address, if it has one, replaces the caller's. */
  function Sourced(s: Segment, localIP: Option<Address>): (r: Segment)
    ensures r == s.(srcIP := r.srcIP) && (localIP.None? ==> r.srcIP == s.srcIP)
    ensures localIP.Some? ==> r.srcIP == localIP.value
  {
    if localIP.Some? then s.(srcIP := localIP.value) else s
  }

  /** The TCP header with its checksum written in place. */
  method BuildSentTCP(s: Segment, options: seq<byte>) returns (tcp: array<byte>)
    ensures fresh(tcp) && tcp[..] == SentTCPHeader(s, options)
  {
    tcp := BuildTCPHeader(s.srcPort, s.dstPort, s.seqNum, s.ackNum, s.flags, WINDOW, options);
    ghost var opts := Padded(options);
    ghost var front := TCPFront(s.srcPort, s.dstPort, s.seqNum, s.ackNum, OffsetByte(TCP_HEADER + |opts|), s.flags,
        WINDOW);
    assert tcp[..] == TCPHeaderBytes(front, 0, opts);
    var pseudo := PseudoHeader(s.srcIP, s.dstIP, tcp.Length + |s.payload|);
    var checksum := Checksum.CalculateChecksum(pseudo + tcp[..] + s.payload);
    CopyInto(tcp, 16, Put16(checksum));
    assert tcp[..] == TCPHeaderBytes(front, checksum, opts);
  }

  /** `SendPacket`, down to the bytes for the kernel: without the IP header where the kernel builds it. */
  method SendPacket(seg: Segment, options: seq<byte>, localIP: Option<Address>, kernelBuildsIP: bool)
    returns (packet: seq<byte>)
    ensures var s := Sourced(seg, localIP);
            packet == if kernelBuildsIP then SentTCPHeader(s, options) + s.payload else Assemble(s, options)
  {
    var s := Sourced(seg, localIP);
    var tcp := BuildSentTCP(s, options);
    if kernelBuildsIP {
      return tcp[..] + s.payload;
    }
    var ip := BuildIPHeader(s.srcIP, s.dstIP, IPPROTO_TCP, tcp.Length + |s.payload|);
    packet := ip[..] + tcp[..] + s.payload;
  }

  /** Re-running the checksum over the finished IP header gives 0. */
  lemma IPHeaderVerifies(src: Address, dst: Address, protocol: byte, payloadLen: nat)
    ensures Checksum.Of(IPHeader(src, dst, protocol, payloadLen)) == 0
  {
    Checksum.InsertedVerifies(IPFront((IP_HEADER + payloadLen) % 0x1_0000, protocol), src + dst);
  }

  /** Re-running it over pseudo-header, finished TCP header and any payload that fits an IP packet gives 0. */
  lemma TCPSegmentVerifies(s: Segment, options: seq<byte>)
    requires IP_HEADER + |SentTCPHeader(s, options)| + |s.payload| <= 65535
    ensures TCPChecksum(s, SentTCPHeader(s, options)) == 0
  {
    var opts := Padded(options);
    var front := TCPFront(s.srcPort, s.dstPort, s.seqNum, s.ackNum, OffsetByte(TCP_HEADER + |opts|), s.flags, WINDOW);
    SummedVerifies(PseudoHeader(s.srcIP, s.dstIP, TCP_HEADER + |opts| + |s.payload|), front, opts, s.payload);
  }

  lemma SummedVerifies(pseudo: seq<byte>, front: seq<byte>, opts: seq<byte>, payload: seq<byte>)
    requires |pseudo| == 12 && |front| == 16 && |opts| + |payload| <= 65535
    ensures var c := Checksum.Of(pseudo + TCPHeaderBytes(front, 0, opts) + payload);
            Checksum.Of(pseudo + TCPHeaderBytes(front, c, opts) + payload) == 0
  {
    var c := Checksum.Of(pseudo + TCPHeaderBytes(front, 0, opts) + payload);
    FieldInSegment(pseudo, front, 0, opts, payload);
    FieldInSegment(pseudo, front, c, opts, payload);
    assert Put16(0) == [0, 0];
    Checksum.InsertedVerifies(pseudo + front, ([0, 0] + opts) + payload);
  }

  lemma FieldInSegment(pseudo: seq<byte>, front: seq<byte>, c: u16, opts: seq<byte>, payload: seq<byte>)
    requires |front| == 16
    ensures pseudo + TCPHeaderBytes(front, c, opts) + payload
        == (pseudo + front) + Put16(c) + (([0, 0] + opts) + payload)
  {
    var f := Put16(c);
    assert pseudo + (front + f + ([0, 0] + opts)) + payload == (pseudo + front) + f + (([0, 0] + opts) + payload);
  }

  // ----- Parsing -----

  datatype ParseError = TooSmall | BadIPHeaderLength | NotTCP | NoRoomForTCP
  datatype Parsed = Parsed(segment: Segment) | Bad(error: ParseError)

  /** `RecvPacket` on the bytes read. */
  function Parse(buf: seq<byte>): Parsed {
    var n := |buf|;
    if n < IP_HEADER + TCP_HEADER then Bad(TooSmall)
    else
      var ihl := buf[0] % 16 * 4;
      if ihl > n then Bad(BadIPHeaderLength)
      else if buf[9] != IPPROTO_TCP then Bad(NotTCP)
      else if n < ihl + TCP_HEADER then Bad(NoRoomForTCP)
      else
        Parsed(Segment(buf[12..16], At16(buf, ihl), buf[16..20], At16(buf, ihl + 2), At32(buf, ihl + 4),
            At32(buf, ihl + 8),
                       buf[ihl + 13], PayloadAt(buf, ihl + buf[ihl + 12] / 16 * 4)))
  }

  /** Parsing undoes building exactly when the options fit the 4-bit data offset: every field comes back for
      every packet, and the payload comes back if and only if there are at most 40 bytes of options. */
  lemma ParseAssembled(s: Segment, options: seq<byte>)
    ensures Parse(Assemble(s, options)).Parsed?
    ensures SameFields(Parse(Assemble(s, options)).segment, s)
    ensures Parse(Assemble(s, options)).segment == s <==> |options| <= 40
  {
    var tcp := SentTCPHeader(s, options);
    var ip := IPHeader(s.srcIP, s.dstIP, IPPROTO_TCP, |tcp| + |s.payload|);
    SentFields(s, options, tcp);
    ParseFields(s, options, ip, tcp, Assemble(s, options));
  }

  /** With 41 bytes of options the offset nibble wraps to 0 ... */
  lemma OffsetWraps(options: seq<byte>)
    requires |options| == 41
    ensures OffsetByte(TCP_HEADER + |Padded(options)|) == 0
  {
    assert |Padded(options)| == 44;
  }

  /** ... and the payload that is read is not the one that was sent. */
  lemma LongOptionsLoseThePayload(s: Segment, options: seq<byte>, buf: seq<byte>)
    requires |options| > 40 && buf == Assemble(s, options)
    ensures Parse(buf).Parsed? && Parse(buf).segment.payload != s.payload
  {
    ParseAssembled(s, options);
    SamePayloadSameSegment(Parse(buf).segment, s);
  }

  lemma SamePayloadSameSegment(a: Segment, s: Segment)
    requires SameFields(a, s)
    ensures a == s <==> a.payload == s.payload
  {
  }

  predicate SameFields(a: Segment, b: Segment) {
    && a.srcIP == b.srcIP && a.srcPort == b.srcPort && a.dstIP == b.dstIP && a.dstPort == b.dstPort
    && a.seqNum == b.seqNum && a.ackNum == b.ackNum && a.flags == b.flags
  }

  lemma PaddedFits(options: seq<byte>)
    ensures |Padded(options)| <= 40 <==> |options| <= 40
  {
    assert |Padded(options)| % 4 == 0 && |options| <= |Padded(options)| < |options| + 4;
  }

  /** `tcp` is a header for `s`, its offset nibble cut to four bits. */
  predicate HeaderFor(s: Segment, tcp: seq<byte>) {
    && |tcp| >= TCP_HEADER && |tcp| % 4 == 0 && tcp[12] == OffsetByte(|tcp|) && tcp[13] == s.flags
    && At16(tcp, 0) == s.srcPort && At16(tcp, 2) == s.dstPort
    && At32(tcp, 4) == s.seqNum && At32(tcp, 8) == s.ackNum
  }

  lemma SentFields(s: Segment, options: seq<byte>, tcp: seq<byte>)
    requires tcp == SentTCPHeader(s, options)
    ensures HeaderFor(s, tcp)
  {
    FrontFields(s, tcp);
  }

  lemma FrontFields(s: Segment, tcp: seq<byte>)
    requires |tcp| >= TCP_HEADER && |tcp| % 4 == 0
    requires tcp[..16] == TCPFront(s.srcPort, s.dstPort, s.seqNum, s.ackNum, OffsetByte(|tcp|), s.flags, WINDOW)
    ensures HeaderFor(s, tcp)
  {
    HeaderFields(tcp, tcp[..16]);
  }

  lemma ParseFields(s: Segment, options: seq<byte>, ip: seq<byte>, tcp: seq<byte>, buf: seq<byte>)
    requires |ip| == IP_HEADER && ip[0] == 0x45 && ip[9] == IPPROTO_TCP
    requires ip[12..16] == s.srcIP && ip[16..20] == s.dstIP
    requires HeaderFor(s, tcp) && |tcp| == TCP_HEADER + |Padded(options)| && buf == ip + tcp + s.payload
    ensures Parse(buf).Parsed? && SameFields(Parse(buf).segment, s)
    ensures Parse(buf).segment == s <==> |options| <= 40
  {
    ParseParts(ip, tcp, s.payload);
    PayloadStart(ip, tcp, s.payload);
    PaddedFits(options);
  }

  function PayloadAt(buf: seq<byte>, start: nat): seq<byte> {
    if start < |buf| then buf[start..] else []
  }

  /** Parsing in terms of the parts a packet was put together from. */
  lemma ParseParts(ip: seq<byte>, tcp: seq<byte>, payload: seq<byte>)
    requires |ip| == IP_HEADER && ip[0] == 0x45 && ip[9] == IPPROTO_TCP && |tcp| >= TCP_HEADER
    ensures Parse(ip + tcp + payload) ==
            Parsed(Segment(ip[12..16], At16(tcp, 0), ip[16..20], At16(tcp, 2), At32(tcp, 4), At32(tcp, 8), tcp[13],
                           PayloadAt(ip + tcp + payload, IP_HEADER + tcp[12] / 16 * 4)))
  {
    PartSlices(ip, tcp, payload);
  }

  lemma PartSlices(ip: seq<byte>, tcp: seq<byte>, payload: seq<byte>)
    requires |ip| == IP_HEADER && |tcp| >= TCP_HEADER
    ensures var buf := ip + tcp + payload;
            && buf[0] == ip[0] && buf[9] == ip[9] && buf[12..16] == ip[12..16] && buf[16..20] == ip[16..20]
            && buf[20..22] == tcp[0..2] && buf[22..24] == tcp[2..4] && buf[24..28] == tcp[4..8]
            && buf[28..32] == tcp[8..12] && buf[32] == tcp[12] && buf[33] == tcp[13]
  {
  }

  lemma HeaderFields(h: seq<byte>, front: seq<byte>)
    requires |h| >= 16 && |front| == 16 && h[..16] == front
    ensures At16(h, 0) == At16(front, 0) && At16(h, 2) == At16(front, 2)
    ensures At32(h, 4) == At32(front, 4) && At32(h, 8) == At32(front, 8)
    ensures h[12] == front[12] && h[13] == front[13] && At16(h, 14) == At16(front, 14)
  {
    assert h[0..2] == front[0..2] && h[2..4] == front[2..4] && h[4..8] == front[4..8];
    assert h[8..12] == front[8..12] && h[14..16] == front[14..16];
  }

  /** Where the parser starts reading the payload, for a header whose offset nibble may have wrapped. */
  lemma PayloadStart(ip: seq<byte>, tcp: seq<byte>, payload: seq<byte>)
    requires |ip| == IP_HEADER && |tcp| >= TCP_HEADER && |tcp| % 4 == 0 && tcp[12] == OffsetByte(|tcp|)
    ensures var buf := ip + tcp + payload;
            var start := IP_HEADER + tcp[12] / 16 * 4;
            PayloadAt(buf, start) == payload <==> |tcp| <= 60
  {
    var buf := ip + tcp + payload;
    assert tcp[12] / 16 == |tcp| / 4 % 16;
    if |tcp| <= 60 {
      assert buf[IP_HEADER + |tcp|..] == payload;
    }
  }

  // ----- The header rebuilt for the reader -----

  datatype TCPHeader = TCPHeader(srcPort: u16, dstPort: u16, seqNum: u32, ackNum: u32, dataOffset: nat,
                                 flags: byte, window: u16, checksum: u16, urgent: u16, options: seq<byte>)

  /** `serializeTCPHeaderStatic`, with the random checksum it draws. The offset is recomputed. */
  function Serialize(h: TCPHeader, random: u16): (b: seq<byte>)
    ensures |b| == TCP_HEADER + |Padded(h.options)|
    ensures b[..16] == TCPFront(h.srcPort, h.dstPort, h.seqNum, h.ackNum, OffsetByte(|b|), h.flags, h.window)
  {
    var opts := Padded(h.options);
    TCPFront(h.srcPort, h.dstPort, h.seqNum, h.ackNum, OffsetByte(TCP_HEADER + |opts|), h.flags, h.window)
    + Put16(if random == 0 then 1 else random) + (Put16(h.urgent) + opts)
  }

  function ParseTCPHeader(buf: seq<byte>): Option<TCPHeader> {
    if |buf| < TCP_HEADER then None
    else
      var dataOffset := buf[12] / 16;
      var headerLen := if dataOffset * 4 < TCP_HEADER then TCP_HEADER else dataOffset * 4;
      if |buf| < headerLen then None
      else Some(TCPHeader(At16(buf, 0), At16(buf, 2), At32(buf, 4), At32(buf, 8), dataOffset, buf[13],
                          At16(buf, 14), At16(buf, 16), At16(buf, 18), buf[TCP_HEADER..headerLen]))
  }

  /** `ReadPacket`: the payload behind the header of a queued packet, or `None` for its errors. */
  function Strip(data: seq<byte>): Option<seq<byte>> {
    var h := ParseTCPHeader(data);
    if h.None? then None
    else
      var headerLen := if h.value.dataOffset * 4 < TCP_HEADER then TCP_HEADER else h.value.dataOffset * 4;
      Some(if |data| <= headerLen then [] else data[headerLen..])
  }

  /** Serialising and parsing a header with any payload behind it gives every field back, the options padded,
      and `ReadPacket` strips exactly that header. */
  lemma ParseSerialized(h: TCPHeader, random: u16, payload: seq<byte>)
    requires |h.options| <= 40
    ensures var r := ParseTCPHeader(Serialize(h, random) + payload);
            && r.Some?
            && r.value == h.(dataOffset := 5 + |Padded(h.options)| / 4, options := Padded(h.options),
                             checksum := if random == 0 then 1 else random)
    ensures Strip(Serialize(h, random) + payload) == Some(payload)
  {
    var b := Serialize(h, random);
    SerializedFields(h, random, b);
    PayloadBehind(b, payload);
    OffsetOf(|b|);
  }

  /** The fields of a serialised header. */
  lemma SerializedFields(h: TCPHeader, random: u16, b: seq<byte>)
    requires b == Serialize(h, random)
    ensures HeaderIs(b, h.srcPort, h.dstPort, h.seqNum, h.ackNum, OffsetByte(|b|), h.flags, h.window)
    ensures At16(b, 16) == (if random == 0 then 1 else random) && At16(b, 18) == h.urgent
    ensures b[TCP_HEADER..] == Padded(h.options)
  {
    var front := b[..16];
    var c, u, opts := Put16(if random == 0 then 1 else random), Put16(h.urgent), Padded(h.options);
    assert b == front + c + (u + opts);
    SerializedSlices(front, c, u, opts);
    HeaderFields(b, front);
  }

  predicate HeaderIs(b: seq<byte>, srcPort: u16, dstPort: u16, seqNum: u32, ackNum: u32, offset: byte, flags: byte,
                     window: u16)
    requires |b| >= TCP_HEADER
  {
    && At16(b, 0) == srcPort && At16(b, 2) == dstPort && At32(b, 4) == seqNum && At32(b, 8) == ackNum
    && b[12] == offset && b[13] == flags && At16(b, 14) == window
  }

  /** What follows a header leaves its fields alone. */
  lemma PayloadBehind(b: seq<byte>, payload: seq<byte>)
    requires |b| >= TCP_HEADER
    ensures var buf := b + payload;
            && HeaderIs(buf, At16(b, 0), At16(b, 2), At32(b, 4), At32(b, 8), b[12], b[13], At16(b, 14))
            && At16(buf, 16) == At16(b, 16) && At16(buf, 18) == At16(b, 18)
            && buf[TCP_HEADER..|b|] == b[TCP_HEADER..] && buf[|b|..] == payload
  {
    var buf := b + payload;
    assert buf[..|b|] == b;
    assert buf[0..2] == b[0..2] && buf[2..4] == b[2..4] && buf[4..8] == b[4..8] && buf[8..12] == b[8..12];
    assert buf[14..16] == b[14..16] && buf[16..18] == b[16..18] && buf[18..20] == b[18..20];
  }

  lemma OffsetOf(n: nat)
    requires TCP_HEADER <= n <= 60 && n % 4 == 0
    ensures OffsetByte(n) / 16 * 4 == n
  {
  }

  lemma SerializedSlices(front: seq<byte>, c: seq<byte>, u: seq<byte>, opts: seq<byte>)
    requires |front| == 16 && |c| == |u| == 2
    ensures var b := front + c + (u + opts);
            b[..16] == front && b[16..18] == c && b[18..20] == u && b[TCP_HEADER..] == opts
  {
  }

  /** The queue entry `recvLoop` and `acceptLoop` build from a received segment. */
  function QueueEntry(s: Segment, random: u16): seq<byte> {
    Serialize(TCPHeader(s.srcPort, s.dstPort, s.seqNum, s.ackNum, 5, s.flags, WINDOW, 0, 0, []), random) + s.payload
  }

  /** Send, receive and read, end to end: the reader gets exactly the payload that was written. */
  lemma TransportRoundTrip(s: Segment, options: seq<byte>, random: u16)
    requires |options| <= 40
    ensures Parse(Assemble(s, options)) == Parsed(s)
    ensures Strip(QueueEntry(s, random)) == Some(s.payload)
  {
    ParseAssembled(s, options);
    ParseSerialized(TCPHeader(s.srcPort, s.dstPort, s.seqNum, s.ackNum, 5, s.flags, WINDOW, 0, 0, []), random,
        s.payload);
  }
}
