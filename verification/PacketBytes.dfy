/** The headers of module Packet byte by byte, as any other stack would read and verify them (sections 3.1 of RFC 791
    and of RFC 793), and the parsers on arbitrary bytes. */
module PacketBytes {
  import opened Bytes
  import Checksum
  import opened Packet

  lemma Reads(h: seq<byte>, i: nat)
    requires i + 4 <= |h|
    ensures At16(h, i) == Number(h[i..i + 2]) && At32(h, i) == Number(h[i..i + 4])
  {
    ReadsNumber(h[i..i + 2]);
    ReadsNumber(h[i..i + 4]);
  }

  // ----- What is sent -----

  /** The fields of a built IP header. */
  lemma IPHeaderOnWire(src: Address, dst: Address, protocol: byte, payloadLen: nat)
    requires 20 + payloadLen < 0x1_0000
    ensures var h := IPHeader(src, dst, protocol, payloadLen);
            && |h| == 20 && h[0] == 4 * 16 + 20 / 4 && h[1] == 0
            && Number(h[2..4]) == 20 + payloadLen && Number(h[4..6]) == 12345 && Number(h[6..8]) == 0x4000
            && h[8] == 64 && h[9] == protocol && h[12..16] == src && h[16..20] == dst
  {
    var total := 20 + payloadLen;
    var h, front := IPHeader(src, dst, protocol, payloadLen), IPFront(total, protocol);
    assert h[2..4] == front[2..4] && h[4..6] == front[4..6] && h[6..8] == front[6..8];
    ReadsNumber(h[2..4]);
    ReadsNumber(h[4..6]);
    ReadsNumber(h[6..8]);
  }

  /** Its words sum to a positive multiple of 65535. */
  lemma IPHeaderSums(src: Address, dst: Address, protocol: byte, payloadLen: nat)
    ensures var sum := Checksum.WordSum(IPHeader(src, dst, protocol, payloadLen)); sum > 0 && sum % 65535 == 0
  {
    IPHeaderVerifies(src, dst, protocol, payloadLen);
    Checksum.VerifiesIff(IPHeader(src, dst, protocol, payloadLen));
  }

  /** The fields of a sent TCP header; its first four offset bits count its words if the options fit. */
  lemma TCPHeaderOnWire(s: Segment, options: seq<byte>)
    ensures var h := SentTCPHeader(s, options);
            && |options| + 20 <= |h| < |options| + 24 && |h| % 4 == 0
            && Number(h[0..2]) == s.srcPort && Number(h[2..4]) == s.dstPort
            && Number(h[4..8]) == s.seqNum && Number(h[8..12]) == s.ackNum
            && (|options| <= 40 ==> h[12] == |h| / 4 * 16)
            && h[13] == s.flags && Number(h[14..16]) == 65535 && Number(h[18..20]) == 0
            && h[20..20 + |options|] == options && forall i | 20 + |options| <= i < |h| :: h[i] == 0
  {
    var h := SentTCPHeader(s, options);
    SentFields(s, options, h);
    FieldNumbers(s, h);
    WindowAndOffset(s, h);
    PaddedFits(options);
    SentTail(s, options, h);
  }

  lemma WindowAndOffset(s: Segment, h: seq<byte>)
    requires |h| >= 20 && |h| % 4 == 0
    requires h[..16] == TCPFront(s.srcPort, s.dstPort, s.seqNum, s.ackNum, OffsetByte(|h|), s.flags, WINDOW)
    ensures Number(h[14..16]) == 65535 && (|h| <= 60 ==> h[12] == |h| / 4 * 16)
  {
    HeaderFields(h, h[..16]);
    Reads(h, 14);
  }

  lemma FieldNumbers(s: Segment, h: seq<byte>)
    requires HeaderFor(s, h)
    ensures Number(h[0..2]) == s.srcPort && Number(h[2..4]) == s.dstPort
    ensures Number(h[4..8]) == s.seqNum && Number(h[8..12]) == s.ackNum
  {
    Reads(h, 0);
    Reads(h, 2);
    Reads(h, 4);
    Reads(h, 8);
  }

  lemma SentTail(s: Segment, options: seq<byte>, h: seq<byte>)
    requires h == SentTCPHeader(s, options)
    ensures && Number(h[18..20]) == 0 && h[20..20 + |options|] == options
            && forall i | 20 + |options| <= i < |h| :: h[i] == 0
  {
    var front, opts := h[..16], Padded(options);
    var checksum := TCPChecksum(s, TCPHeaderBytes(front, 0, opts));
    assert h == TCPHeaderBytes(front, checksum, opts);
    TailSlices(front, Put16(checksum), opts);
    ReadsNumber(h[18..20]);
    assert opts[..|options|] == options && opts[|options|..] == Zeros(|opts| - |options|);
  }

  lemma TailSlices(front: seq<byte>, checksum: seq<byte>, opts: seq<byte>)
    requires |front| == 16 && |checksum| == 2
    ensures var h := front + checksum + ([0, 0] + opts); h[18..20] == [0, 0] && h[20..] == opts
  {
  }

  /** Verification at the receiver, without any of the sender's functions: the words of the addresses, the protocol
      number, the length and the words of header and payload as sent add up to a positive multiple of 65535. */
  lemma TCPSegmentSums(s: Segment, options: seq<byte>)
    requires IP_HEADER + |SentTCPHeader(s, options)| + |s.payload| <= 65535
    ensures var tcp := SentTCPHeader(s, options);
            var sum := Checksum.WordSum(s.srcIP) + Checksum.WordSum(s.dstIP) + 6 + (|tcp| + |s.payload|)
                       + Checksum.WordSum(tcp + s.payload);
            sum > 0 && sum % 65535 == 0
  {
    var tcp := SentTCPHeader(s, options);
    var n := |tcp| + |s.payload|;
    var pseudo := PseudoHeader(s.srcIP, s.dstIP, n);
    TCPSegmentVerifies(s, options);
    Checksum.VerifiesIff(pseudo + tcp + s.payload);
    assert pseudo + tcp + s.payload == pseudo + (tcp + s.payload);
    Checksum.WordSumConcat(pseudo, tcp + s.payload);
    PseudoSum(s.srcIP, s.dstIP, n);
  }

  lemma PseudoSum(src: Address, dst: Address, n: nat)
    requires n < 0x1_0000
    ensures Checksum.WordSum(PseudoHeader(src, dst, n))
        == Checksum.WordSum(src) + Checksum.WordSum(dst) + 6 + n
  {
    var zero: byte := 0;
    var proto, len := [zero, IPPROTO_TCP], Put16(n);
    assert PseudoHeader(src, dst, n) == src + (dst + (proto + len));
    Checksum.WordSumConcat(src, dst + (proto + len));
    Checksum.WordSumConcat(dst, proto + len);
    Checksum.WordSumConcat(proto, len);
    WordOfTwo(proto);
    WordOfTwo(len);
  }

  lemma WordOfTwo(w: seq<byte>)
    requires |w| == 2
    ensures Checksum.WordSum(w) == Get16(w)
  {
    assert w[..2] == w && w[2..] == [];
  }

  // ----- The tunnel's own options -----

  /** `buildTCPOptions`: segment size, window scale, selective acknowledgements and a timestamp. */
  function TunnelOptions(seconds: u32): (options: seq<byte>)
    ensures |options| == 21
  {
    [2, 4] + Put16(1460) + [1, 3, 3, 7, 4, 2, 1, 8, 10] + Put32(seconds) + Zeros(4)
  }

  /** They fit the header: 44 bytes, and every field and the payload come back from a packet that carries them. */
  lemma TunnelOptionsFit(s: Segment, seconds: u32)
    ensures |SentTCPHeader(s, TunnelOptions(seconds))| == 44
    ensures Parse(Assemble(s, TunnelOptions(seconds))) == Parsed(s)
  {
    var options := TunnelOptions(seconds);
    PaddedTo24(options);
    OptionsFit(s, options, Assemble(s, options));
  }

  lemma PaddedTo24(options: seq<byte>)
    requires |options| == 21
    ensures |Padded(options)| == 24
  {
  }

  lemma OptionsFit(s: Segment, options: seq<byte>, buf: seq<byte>)
    requires |options| <= 40 && buf == Assemble(s, options)
    ensures Parse(buf) == Parsed(s)
  {
    ParseAssembled(s, options);
  }

  // ----- What is read, from any bytes -----

  /** The fault that is reported is there. */
  predicate HasFault(buf: seq<byte>, fault: ParseError) {
    match fault
    case TooSmall => |buf| < 40
    case BadIPHeaderLength => |buf| >= 40 && buf[0] % 16 * 4 > |buf|
    case NotTCP => |buf| >= 40 && buf[9] != 6
    case NoRoomForTCP => |buf| >= 40 && buf[0] % 16 * 4 + 20 > |buf|
  }

  /** Bytes are taken for a packet if and only if they hold 40 bytes, protocol 6 and, behind an IP header of the length
      it states, 20 bytes; otherwise a fault they have is reported. */
  lemma ParsedIff(buf: seq<byte>)
    ensures Parse(buf).Parsed? <==> |buf| >= 40 && buf[9] == 6 && buf[0] % 16 * 4 + 20 <= |buf|
    ensures Parse(buf).Bad? ==> HasFault(buf, Parse(buf).error)
  {
  }

  /** The fields lie where the IP header's length puts them, and the payload where the TCP header's length does. */
  lemma ParsedFields(buf: seq<byte>, ip: seq<byte>, tcp: seq<byte>, payload: seq<byte>)
    requires Parse(buf).Parsed? && buf == ip + tcp + payload && |ip| == buf[0] % 16 * 4
    requires |ip| >= 20 && |tcp| >= 20 && |tcp| == tcp[12] / 16 * 4
    ensures Parse(buf).segment.payload == payload
    ensures var s := Parse(buf).segment;
            && s.srcIP == buf[12..16] && s.dstIP == buf[16..20]
            && s.srcPort == Number(tcp[0..2]) && s.dstPort == Number(tcp[2..4])
            && s.seqNum == Number(tcp[4..8]) && s.ackNum == Number(tcp[8..12]) && s.flags == tcp[13]
  {
    var i := |ip|;
    assert buf[i..i + 2] == tcp[0..2] && buf[i + 2..i + 4] == tcp[2..4] && buf[i + 4..i + 8] == tcp[4..8];
    assert buf[i + 8..i + 12] == tcp[8..12] && buf[i + 12] == tcp[12] && buf[i + 13] == tcp[13];
    assert buf[i + |tcp|..] == payload;
    ReadsNumber(tcp[0..2]);
    ReadsNumber(tcp[2..4]);
    ReadsNumber(tcp[4..8]);
    ReadsNumber(tcp[8..12]);
  }

  /** A queued packet is stripped if and only if it holds the header whose length it states, of at least 20 bytes; what
      is left is everything behind that. */
  lemma StripIff(data: seq<byte>, rest: seq<byte>)
    ensures Strip(data) == Some(rest) <==>
              && |data| >= 20
              && var n := if data[12] / 16 < 5 then 20 else data[12] / 16 * 4; |data| >= n && rest == data[n..]
  {
  }
}
