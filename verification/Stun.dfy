/** STUN binding responses (sections 6, 15.1 and 15.2 of RFC 5389) as pkg/nat/stun.go reads them. */
module Stun {
  import opened Bytes

  const BINDING_RESPONSE: u16 := 0x0101
  const MAGIC_COOKIE: u32 := 0x2112A442
  const COOKIE_HIGH: u16 := 0x2112
  const MAPPED_ADDRESS: u16 := 0x0001
  const SOURCE_ADDRESS: u16 := 0x0004
  const CHANGED_ADDRESS: u16 := 0x0005
  const XOR_MAPPED_ADDRESS: u16 := 0x0020
  const OTHER_ADDRESS: u16 := 0x802c
  const HEADER := 20

  type IPv4 = a: seq<byte> | |a| == 4 witness [0, 0, 0, 0]
  type TransactionID = t: seq<byte> | |t| == 12 witness [0, 0, 0, 0, 0, 0, 0, 0, 0, 0, 0, 0]

  datatype UDPAddr = UDPAddr(ip: IPv4, port: u16)
  datatype Addresses = Addresses(mapped: Option<UDPAddr>, source: Option<UDPAddr>, changed: Option<UDPAddr>,
      other: Option<UDPAddr>)
  datatype Error = InvalidResponse | UnexpectedType | NoMappedAddress
  datatype Result = Ok(addresses: Addresses) | Err(error: Error)

  const NOTHING := Addresses(None, None, None, None)

  // ----- Address attributes -----

  function ParseAddress(v: seq<byte>): Option<UDPAddr> {
    if |v| < 8 || v[1] != 1 then None else Some(UDPAddr(v[4..8], Get16(v[2..4])))
  }

  function Xor16(x: u16, mask: u16): u16 {
    Pow2Values();
    Xor(16, x, mask)
  }

  function Xor32(x: u32, mask: u32): u32 {
    Pow2Values();
    Xor(32, x, mask)
  }

  function ParseXorAddress(v: seq<byte>): Option<UDPAddr> {
    if |v| < 8 || v[1] != 1 then None
    else Some(UDPAddr(Put32(Xor32(Get32(v[4..8]), MAGIC_COOKIE)), Xor16(Get16(v[2..4]), COOKIE_HIGH)))
  }

  /** The value of a MAPPED-ADDRESS attribute: zero, family, port, address. */
  function AddressValue(a: UDPAddr): (v: seq<byte>)
    ensures |v| == 8 && v[1] == 1 && v[2..4] == Put16(a.port) && v[4..8] == a.ip
  {
    [0, 1] + Put16(a.port) + a.ip
  }

  /** The value of a XOR-MAPPED-ADDRESS attribute. */
  function XorAddressValue(a: UDPAddr): (v: seq<byte>)
    ensures |v| == 8
  {
    AddressValue(UDPAddr(Put32(Xor32(Get32(a.ip), MAGIC_COOKIE)), Xor16(a.port, COOKIE_HIGH)))
  }

  lemma Masked16(x: u16, mask: u16)
    ensures Xor16(Xor16(x, mask), mask) == x
  {
    Pow2Values();
    XorCancel(16, x, mask);
  }

  lemma Masked32(x: u32, mask: u32)
    ensures Xor32(Xor32(x, mask), mask) == x
  {
    Pow2Values();
    XorCancel(32, x, mask);
  }

  lemma PutGet32(s: seq<byte>)
    requires |s| == 4
    ensures Put32(Get32(s)) == s
  {
    var hi, lo := (s[0] as int) * 256 + s[1], (s[2] as int) * 256 + s[3];
    assert Get32(s) / 0x1_0000 == hi && Get32(s) % 0x1_0000 == lo;
  }

  /** Both encodings are undone by their parsers. */
  lemma AddressRoundTrip(a: UDPAddr)
    ensures ParseAddress(AddressValue(a)) == Some(a)
    ensures ParseXorAddress(XorAddressValue(a)) == Some(a)
  {
    Masked16(a.port, COOKIE_HIGH);
    Masked32(Get32(a.ip), MAGIC_COOKIE);
    PutGet32(a.ip);
  }

  /** An attribute gives an address if and only if it has eight bytes or more, states IPv4 and carries, in bytes two to
      seven, what the encoding of that address carries there. */
  lemma AddressIff(v: seq<byte>, a: UDPAddr)
    ensures ParseAddress(v) == Some(a) <==> |v| >= 8 && v[1] == 1 && v[2..8] == AddressValue(a)[2..8]
    ensures ParseXorAddress(v) == Some(a) <==> |v| >= 8 && v[1] == 1 && v[2..8] == XorAddressValue(a)[2..8]
  {
    if |v| >= 8 {
      var x := UDPAddr(Put32(Xor32(Get32(a.ip), MAGIC_COOKIE)), Xor16(a.port, COOKIE_HIGH));
      SixBytes(v, a);
      SixBytes(v, x);
      assert v[2..4] == Put16(Get16(v[2..4]));
      Masked16(a.port, COOKIE_HIGH);
      Masked16(Get16(v[2..4]), COOKIE_HIGH);
      Masked32(Get32(a.ip), MAGIC_COOKIE);
      Masked32(Get32(v[4..8]), MAGIC_COOKIE);
      PutGet32(v[4..8]);
      PutGet32(a.ip);
    }
  }

  lemma SixBytes(v: seq<byte>, a: UDPAddr)
    requires |v| >= 8
    ensures v[2..8] == AddressValue(a)[2..8] <==> v[2..4] == Put16(a.port) && v[4..8] == a.ip
  {
    var w := AddressValue(a);
    assert v[2..8] == v[2..4] + v[4..8] && w[2..8] == w[2..4] + w[4..8];
    assert v[2..4] == v[2..8][..2] && v[4..8] == v[2..8][2..] && w[2..4] == w[2..8][..2] && w[4..8] == w[2..8][2..];
  }

  // ----- Attribute lists -----

  datatype Attribute = Attribute(kind: u16, value: seq<byte>)

  /** How an attribute changes what is known so far: a later one overrides, even with nothing. */
  function Apply(r: Addresses, kind: u16, value: seq<byte>): Addresses {
    if kind == MAPPED_ADDRESS then r.(mapped := ParseAddress(value))
    else if kind == XOR_MAPPED_ADDRESS then r.(mapped := ParseXorAddress(value))
    else if kind == SOURCE_ADDRESS then r.(source := ParseAddress(value))
    else if kind == CHANGED_ADDRESS then r.(changed := ParseAddress(value))
    else if kind == OTHER_ADDRESS then r.(other := ParseAddress(value))
    else r
  }

  function Meaning(r: Addresses, attrs: seq<Attribute>): Addresses
    decreases |attrs|
  {
    if attrs == [] then r else Meaning(Apply(r, attrs[0].kind, attrs[0].value), attrs[1..])
  }

  /** Bytes of padding after a value of length `n`. */
  function Pad(n: nat): nat {
    if n % 4 != 0 then 4 - n % 4 else 0
  }

  predicate Encodable(attrs: seq<Attribute>) {
    forall i | 0 <= i < |attrs| :: |attrs[i].value| < 0x1_0000
  }

  function Encode(attrs: seq<Attribute>): seq<byte>
    requires Encodable(attrs)
  {
    if attrs == [] then []
    else EncodeOne(attrs[0]) + Encode(attrs[1..])
  }

  function EncodeOne(a: Attribute): (b: seq<byte>)
    requires |a.value| < 0x1_0000
    ensures |b| == 4 + |a.value| + Pad(|a.value|)
  {
    Put16(a.kind) + Put16(|a.value|) + a.value + Zeros(Pad(|a.value|))
  }

  /** Every attribute ends on a multiple of four bytes, after at most three of padding (section 15 of RFC 5389). */
  lemma {:induction false} EncodedIsAligned(attrs: seq<Attribute>)
    requires Encodable(attrs)
    ensures |Encode(attrs)| % 4 == 0
    ensures attrs != [] ==> 4 + |attrs[0].value| <= |EncodeOne(attrs[0])| < 8 + |attrs[0].value|
  {
    if attrs != [] {
      EncodedIsAligned(attrs[1..]);
    }
  }

  /** The attribute loop from `offset`; `limit` is where the header says the message ends. */
  function ParseAttributes(data: seq<byte>, offset: nat, limit: nat, r: Addresses): Addresses
    decreases limit - offset
  {
    if offset >= limit || offset + 4 > |data| then r
    else
      var kind, length := Get16(data[offset..offset + 2]), Get16(data[offset + 2..offset + 4]);
      if offset + 4 + length > |data| then r
      else ParseAttributes(data, offset + 4 + length + Pad(length), limit,
                           Apply(r, kind, data[offset + 4..offset + 4 + length]))
  }

  /** One turn of the loop over an attribute that lies at `o`. */
  lemma ParseOne(data: seq<byte>, o: nat, limit: nat, r: Addresses, a: Attribute, next: nat, m: Addresses)
    requires next == o + 4 + |a.value| + Pad(|a.value|)
        && m == ParseAttributes(data, next, limit, Apply(r, a.kind, a.value))
    requires o < limit && o + 4 + |a.value| <= |data| && |a.value| < 0x1_0000
    requires data[o..o + 2] == Put16(a.kind) && data[o + 2..o + 4] == Put16(|a.value|)
    requires data[o + 4..o + 4 + |a.value|] == a.value
    ensures ParseAttributes(data, o, limit, r) == m
  {
  }

  /** On the encoding of any attribute list, whatever comes before and after it, the loop computes its meaning. */
  lemma {:induction false} ParseEncoded(data: seq<byte>, before: seq<byte>, attrs: seq<Attribute>, after: seq<byte>,
      limit: nat, r: Addresses, m: Addresses)
    requires Encodable(attrs) && data == before + Encode(attrs) + after && limit == |before| + |Encode(attrs)|
    requires m == Meaning(r, attrs)
    ensures ParseAttributes(data, |before|, limit, r) == m
    decreases |attrs|
  {
    if attrs != [] {
      var one := EncodeOne(attrs[0]);
      SplitFirst(data, before, one, Encode(attrs[1..]), after);
      ParseEncoded(data, before + one, attrs[1..], after, limit, Apply(r, attrs[0].kind, attrs[0].value), m);
      ParseFirst(data, before, attrs[0], Encode(attrs[1..]), after, limit, r, m);
    }
  }

  lemma ParseFirst(data: seq<byte>, before: seq<byte>, a: Attribute, rest: seq<byte>, after: seq<byte>, limit: nat,
                   r: Addresses, m: Addresses)
    requires |a.value| < 0x1_0000 && data == before + (EncodeOne(a) + rest) + after
    requires m == ParseAttributes(data, |before| + |EncodeOne(a)|, limit, Apply(r, a.kind, a.value))
    requires limit == |before| + |EncodeOne(a)| + |rest|
    ensures ParseAttributes(data, |before|, limit, r) == m
  {
    SplitFirst(data, before, EncodeOne(a), rest, after);
    ParseHead(data, before, a, rest + after, limit, r, m);
  }

  lemma ParseHead(data: seq<byte>, before: seq<byte>, a: Attribute, tail: seq<byte>, limit: nat, r: Addresses,
      m: Addresses)
    requires |a.value| < 0x1_0000 && data == before + EncodeOne(a) + tail && limit > |before|
    requires m == ParseAttributes(data, |before| + |EncodeOne(a)|, limit, Apply(r, a.kind, a.value))
    ensures ParseAttributes(data, |before|, limit, r) == m
  {
    AttributeSlices(before, a, tail);
    ParseOne(data, |before|, limit, r, a, |before| + |EncodeOne(a)|, m);
  }

  lemma SplitFirst(data: seq<byte>, before: seq<byte>, one: seq<byte>, rest: seq<byte>, after: seq<byte>)
    requires data == before + (one + rest) + after
    ensures data == (before + one) + rest + after && data == before + one + (rest + after)
  {
  }

  lemma AttributeSlices(before: seq<byte>, a: Attribute, after: seq<byte>)
    requires |a.value| < 0x1_0000
    ensures var data, o := before + EncodeOne(a) + after, |before|;
            && data[o..o + 2] == Put16(a.kind) && data[o + 2..o + 4] == Put16(|a.value|)
            && data[o + 4..o + 4 + |a.value|] == a.value
  {
    OneSlices(before, Put16(a.kind), Put16(|a.value|), a.value, Zeros(Pad(|a.value|)), after);
  }

  lemma OneSlices(before: seq<byte>, k: seq<byte>, n: seq<byte>, v: seq<byte>, pad: seq<byte>, after: seq<byte>)
    requires |k| == |n| == 2
    ensures var data, o := before + (k + n + v + pad) + after, |before|;
            && data[o..o + 2] == k && data[o + 2..o + 4] == n && data[o + 4..o + 4 + |v|] == v
  {
  }

  /** The attribute at the front of `cut` is not all there. */
  predicate Incomplete(cut: seq<byte>) {
    |cut| < 4 || 4 + Number(cut[2..4]) > |cut|
  }

  /** A list that breaks off in the middle of an attribute, wherever the header says it ends, means what the attributes
      before that mean. */
  lemma {:induction false} CutOffList(data: seq<byte>, before: seq<byte>, attrs: seq<Attribute>, cut: seq<byte>,
      limit: nat, r: Addresses)
    requires Encodable(attrs) && data == before + Encode(attrs) + cut && Incomplete(cut)
    requires limit >= |before| + |Encode(attrs)|
    ensures ParseAttributes(data, |before|, limit, r) == Meaning(r, attrs)
    decreases |attrs|
  {
    if attrs == [] {
      assert data == before + cut && data[|before|..] == cut;
      if |cut| >= 4 {
        assert data[|before| + 2..|before| + 4] == cut[2..4];
        ReadsNumber(cut[2..4]);
      }
    } else {
      var one, next := EncodeOne(attrs[0]), Apply(r, attrs[0].kind, attrs[0].value);
      SplitFirst(data, before, one, Encode(attrs[1..]), cut);
      CutOffList(data, before + one, attrs[1..], cut, limit, next);
      ParseHead(data, before, attrs[0], Encode(attrs[1..]) + cut, limit, r, Meaning(next, attrs[1..]));
    }
  }

  // ----- Whole responses -----

  function Header(kind: u16, length: u16, tid: TransactionID): (h: seq<byte>)
    ensures |h| == HEADER && h[0..2] == Put16(kind) && h[2..4] == Put16(length) && h[4..8] == Put32(MAGIC_COOKIE)
        && h[8..20] == tid
  {
    HeaderSlices(Put16(kind), Put16(length), Put32(MAGIC_COOKIE), tid);
    Put16(kind) + Put16(length) + Put32(MAGIC_COOKIE) + tid
  }

  lemma HeaderSlices(a: seq<byte>, b: seq<byte>, c: seq<byte>, d: seq<byte>)
    requires |a| == |b| == 2 && |c| == 4 && |d| == 12
    ensures var h := a + b + c + d; h[0..2] == a && h[2..4] == b && h[4..8] == c && h[8..20] == d
  {
  }

  function Parse(data: seq<byte>, tid: TransactionID): Result {
    if |data| < HEADER then Err(InvalidResponse)
    else if Get16(data[0..2]) != BINDING_RESPONSE then Err(UnexpectedType)
    else if Get32(data[4..8]) != MAGIC_COOKIE then Err(InvalidResponse)
    else if data[8..20] != tid then Err(InvalidResponse)
    else Checked(ParseAttributes(data, HEADER, HEADER + Get16(data[2..4]), NOTHING))
  }

  function Checked(r: Addresses): Result {
    if r.mapped.None? then Err(NoMappedAddress) else Ok(r)
  }

  /** Parsing a well-formed response, with anything trailing it, gives the meaning of its attribute list. */
  lemma ParseResponse(tid: TransactionID, attrs: seq<Attribute>, trailing: seq<byte>)
    requires Encodable(attrs) && |Encode(attrs)| < 0x1_0000
    ensures Parse(Header(BINDING_RESPONSE, |Encode(attrs)|, tid) + Encode(attrs) + trailing, tid)
        == Checked(Meaning(NOTHING, attrs))
  {
    var body := Encode(attrs);
    var h := Header(BINDING_RESPONSE, |body|, tid);
    var m := Meaning(NOTHING, attrs);
    ParseEncoded(h + body + trailing, h, attrs, trailing, HEADER + |body|, NOTHING, m);
    ParseBehind(h, body, trailing, tid, m);
  }

  lemma ParseBehind(h: seq<byte>, body: seq<byte>, trailing: seq<byte>, tid: TransactionID, m: Addresses)
    requires |body| < 0x1_0000 && h == Header(BINDING_RESPONSE, |body|, tid)
    requires m == ParseAttributes(h + body + trailing, HEADER, HEADER + |body|, NOTHING)
    ensures Parse(h + body + trailing, tid) == Checked(m)
  {
    var data := h + body + trailing;
    assert data == h + (body + trailing);
    PrefixSlices(h, body + trailing, data);
    ParseWith(data, tid, |body|, m);
  }

  lemma ParseWith(data: seq<byte>, tid: TransactionID, length: u16, m: Addresses)
    requires |data| >= HEADER && data[0..2] == Put16(BINDING_RESPONSE) && data[2..4] == Put16(length)
    requires data[4..8] == Put32(MAGIC_COOKIE) && data[8..20] == tid
    requires m == ParseAttributes(data, HEADER, HEADER + length, NOTHING)
    ensures Parse(data, tid) == Checked(m)
  {
  }

  lemma PrefixSlices(h: seq<byte>, rest: seq<byte>, data: seq<byte>)
    requires |h| == HEADER && data == h + rest
    ensures data[0..2] == h[0..2] && data[2..4] == h[2..4] && data[4..8] == h[4..8] && data[8..20] == h[8..20]
  {
  }

  predicate IsMapped(a: Attribute) {
    a.kind == MAPPED_ADDRESS || a.kind == XOR_MAPPED_ADDRESS
  }

  lemma {:induction false} MeaningConcat(r: Addresses, a: seq<Attribute>, b: seq<Attribute>)
    ensures Meaning(r, a + b) == Meaning(Meaning(r, a), b)
    decreases |a|
  {
    if a == [] {
      assert a + b == b;
    } else {
      assert (a + b)[1..] == a[1..] + b;
      MeaningConcat(Apply(r, a[0].kind, a[0].value), a[1..], b);
    }
  }

  lemma {:induction false} UnmappedKeep(r: Addresses, attrs: seq<Attribute>)
    requires forall i | 0 <= i < |attrs| :: !IsMapped(attrs[i])
    ensures Meaning(r, attrs).mapped == r.mapped
    decreases |attrs|
  {
    if attrs != [] {
      UnmappedKeep(Apply(r, attrs[0].kind, attrs[0].value), attrs[1..]);
    }
  }

  /** The answer is the address in the last MAPPED-ADDRESS or XOR-MAPPED-ADDRESS attribute, whichever of the
      two encodings it uses and whatever attributes surround it. */
  lemma LastMappedAddressWins(tid: TransactionID, front: seq<Attribute>, a: UDPAddr, xored: bool,
      back: seq<Attribute>, trailing: seq<byte>)
    requires forall i | 0 <= i < |back| :: !IsMapped(back[i])
    requires var mine := if xored then Attribute(XOR_MAPPED_ADDRESS, XorAddressValue(a))
        else Attribute(MAPPED_ADDRESS, AddressValue(a));
             var attrs := front + [mine] + back;
             Encodable(attrs) && |Encode(attrs)| < 0x1_0000
    ensures var mine := if xored then Attribute(XOR_MAPPED_ADDRESS, XorAddressValue(a))
        else Attribute(MAPPED_ADDRESS, AddressValue(a));
            var attrs := front + [mine] + back;
            var r := Parse(Header(BINDING_RESPONSE, |Encode(attrs)|, tid) + Encode(attrs) + trailing, tid);
            r.Ok? && r.addresses.mapped == Some(a)
  {
    var mine := if xored then Attribute(XOR_MAPPED_ADDRESS, XorAddressValue(a))
        else Attribute(MAPPED_ADDRESS, AddressValue(a));
    var attrs := front + [mine] + back;
    ParseResponse(tid, attrs, trailing);
    LastMeaning(front, mine, back);
    AddressRoundTrip(a);
  }

  lemma LastMeaning(front: seq<Attribute>, mine: Attribute, back: seq<Attribute>)
    requires IsMapped(mine) && forall i | 0 <= i < |back| :: !IsMapped(back[i])
    ensures Meaning(NOTHING, front + [mine] + back).mapped
         == if mine.kind == MAPPED_ADDRESS then ParseAddress(mine.value) else ParseXorAddress(mine.value)
  {
    MeaningConcat(NOTHING, front + [mine], back);
    MeaningConcat(NOTHING, front, [mine]);
    var r := Meaning(NOTHING, front);
    assert [mine][1..] == [];
    UnmappedKeep(Apply(r, mine.kind, mine.value), back);
  }

  /** The answer to a request is a message that states type 0x0101, the magic cookie and the request's own transaction
      ID; everything else is refused, whatever its attributes. */
  lemma OnlyAnswersAreRead(data: seq<byte>, tid: TransactionID)
    ensures var read := |data| >= 20 && Number(data[0..2]) == 0x0101 && Number(data[4..8]) == 0x2112A442
                        && data[8..20] == tid;
            && (!read <==> Parse(data, tid) in {Err(InvalidResponse), Err(UnexpectedType)})
            && (Parse(data, tid) == Err(UnexpectedType) <==> |data| >= 20 && Number(data[0..2]) != 0x0101)
  {
    if |data| >= 20 {
      ReadsNumber(data[0..2]);
      ReadsNumber(data[4..8]);
    }
  }

  /** Which of the four results an attribute type fills. */
  predicate SameResult(kind: u16, other: u16) {
    kind == other || (kind in {0x0001, 0x0020} && other in {0x0001, 0x0020})
  }

  function ResultOf(r: Addresses, kind: u16): Option<UDPAddr> {
    match kind
    case 0x0001 => r.mapped
    case 0x0020 => r.mapped
    case 0x0004 => r.source
    case 0x0005 => r.changed
    case 0x802c => r.other
    case _ => None
  }

  lemma {:induction false} OthersKeep(r: Addresses, kind: u16, attrs: seq<Attribute>)
    requires forall i | 0 <= i < |attrs| :: !SameResult(kind, attrs[i].kind)
    ensures ResultOf(Meaning(r, attrs), kind) == ResultOf(r, kind)
    decreases |attrs|
  {
    if attrs != [] {
      OthersKeep(Apply(r, attrs[0].kind, attrs[0].value), kind, attrs[1..]);
    }
  }

  /** Each of the four results is the address in the last attribute of its type, XOR-coded or plain for the mapped one;
      other types, known or not, leave it alone, and without such an attribute there is none. */
  lemma LastOfEachKind(kind: u16, front: seq<Attribute>, value: seq<byte>, back: seq<Attribute>)
    requires kind in {0x0001, 0x0020, 0x0004, 0x0005, 0x802c}
    requires forall i | 0 <= i < |back| :: !SameResult(kind, back[i].kind)
    ensures ResultOf(Meaning(NOTHING, front + [Attribute(kind, value)] + back), kind)
         == if kind == 0x0020 then ParseXorAddress(value) else ParseAddress(value)
    ensures ResultOf(Meaning(NOTHING, back), kind) == None
  {
    var mine := Attribute(kind, value);
    MeaningConcat(NOTHING, front + [mine], back);
    MeaningConcat(NOTHING, front, [mine]);
    assert [mine][1..] == [];
    OthersKeep(Apply(Meaning(NOTHING, front), kind, value), kind, back);
    OthersKeep(NOTHING, kind, back);
  }

  // ----- The request -----

  const BINDING_REQUEST: u16 := 0x0001
  const CHANGE_REQUEST: u16 := 0x0003

  function ChangeFlags(changeIP: bool, changePort: bool): (flags: u32)
    ensures flags / 4 % 2 == (if changeIP then 1 else 0) && flags / 2 % 2 == (if changePort then 1 else 0)
    ensures flags < 8 && flags % 2 == 0
  {
    (if changeIP then 4 else 0) + (if changePort then 2 else 0)
  }

  function RequestAttributes(changeIP: bool, changePort: bool): seq<Attribute> {
    if changeIP || changePort then [Attribute(CHANGE_REQUEST, Put32(ChangeFlags(changeIP, changePort)))] else []
  }

  /** Byte by byte, the request's front and its attribute, which is there exactly if anything is to change. */
  lemma RequestOnWire(tid: TransactionID, changeIP: bool, changePort: bool)
    ensures Header(BINDING_REQUEST, 0, tid) == [0, 1, 0, 0, 0x21, 0x12, 0xA4, 0x42] + tid
    ensures Header(BINDING_REQUEST, 8, tid) == [0, 1, 0, 8, 0x21, 0x12, 0xA4, 0x42] + tid
    ensures Encode(RequestAttributes(changeIP, changePort))
         == if changeIP && changePort then [0, 3, 0, 4, 0, 0, 0, 6]
            else if changeIP then [0, 3, 0, 4, 0, 0, 0, 4]
            else if changePort then [0, 3, 0, 4, 0, 0, 0, 2]
            else []
  {
    FrontOnWire(0, tid);
    FrontOnWire(8, tid);
    var attrs := RequestAttributes(changeIP, changePort);
    if changeIP || changePort {
      var flags := ChangeFlags(changeIP, changePort);
      assert attrs == [Attribute(CHANGE_REQUEST, Put32(flags))] && attrs[1..] == [];
      assert Put32(flags) == [0, 0, 0, flags];
      assert Encode(attrs) == Put16(CHANGE_REQUEST) + Put16(4) + Put32(flags) + Zeros(0) + [];
    }
  }

  lemma FrontOnWire(length: byte, tid: TransactionID)
    ensures Header(BINDING_REQUEST, length, tid) == [0, 1, 0, length, 0x21, 0x12, 0xA4, 0x42] + tid
  {
    assert Put16(BINDING_REQUEST) == [0, 1] && Put16(length) == [0, length];
    assert Put32(MAGIC_COOKIE) == [0x21, 0x12, 0xA4, 0x42];
  }

  /** `buildBindingRequest`: a well-formed message with the cookie, the transaction ID and a list of at most one
      attribute, CHANGE-REQUEST, which is there exactly if anything is to change. */
  method BuildBindingRequest(tid: TransactionID, changeIP: bool, changePort: bool) returns (message: seq<byte>)
    ensures var body := Encode(RequestAttributes(changeIP, changePort));
            |body| <= 8 && message == Header(BINDING_REQUEST, |body|, tid) + body
  {
    var attrs := RequestAttributes(changeIP, changePort);
    var messageLength := 0;
    var attr: seq<byte> := [];
    if changeIP || changePort {
      var flags := 0;
      if changeIP {
        flags := flags + 4;
      }
      if changePort {
        flags := flags + 2;
      }
      attr := Put16(CHANGE_REQUEST) + Put16(4) + Put32(flags);
      messageLength := messageLength + 8;
      assert attrs == [Attribute(CHANGE_REQUEST, Put32(flags))] && attrs[1..] == [];
      assert Encode(attrs) == attr + Zeros(0) + [];
    }
    assert attr == Encode(attrs);
    message := Put16(BINDING_REQUEST) + Put16(messageLength) + Put32(MAGIC_COOKIE) + tid + attr;
  }

  /** `parseBindingResponse` on any bytes: it reads in range, terminates and computes `Parse`. */
  method ParseBindingResponse(data: seq<byte>, tid: TransactionID) returns (r: Result)
    ensures r == Parse(data, tid)
  {
    if |data| < HEADER {
      return Err(InvalidResponse);
    }
    if Get16(data[0..2]) != BINDING_RESPONSE {
      return Err(UnexpectedType);
    }
    if Get32(data[4..8]) != MAGIC_COOKIE {
      return Err(InvalidResponse);
    }
    var transactionID := data[8..20];
    for i := 0 to 12
      invariant transactionID[..i] == tid[..i]
    {
      if transactionID[i] != tid[i] {
        return Err(InvalidResponse);
      }
    }
    assert transactionID[..12] == transactionID && tid[..12] == tid;
    var limit := HEADER + Get16(data[2..4]);
    var result := ScanAttributes(data, limit);
    if result.mapped.None? {
      return Err(NoMappedAddress);
    }
    return Ok(result);
  }

  method ScanAttributes(data: seq<byte>, limit: nat) returns (result: Addresses)
    ensures result == ParseAttributes(data, HEADER, limit, NOTHING)
  {
    result := NOTHING;
    var offset, more := HEADER, true;
    ghost var goal := ParseAttributes(data, HEADER, limit, NOTHING);
    while more && offset < limit
      invariant if more then ParseAttributes(data, offset, limit, result) == goal else result == goal
      decreases limit - offset, more
    {
      more, offset, result := ScanOne(data, offset, limit, result);
    }
  }

  /** One turn of the loop; `more` is false where it breaks off. */
  method ScanOne(data: seq<byte>, offset: nat, limit: nat, r: Addresses)
      returns (more: bool, next: nat, result: Addresses)
    requires offset < limit
    ensures more ==> next > offset
    ensures more ==> ParseAttributes(data, offset, limit, r) == ParseAttributes(data, next, limit, result)
    ensures !more ==> next == offset && ParseAttributes(data, offset, limit, r) == result
  {
    if offset + 4 > |data| {
      return false, offset, r;
    }
    var kind := Get16(data[offset..offset + 2]);
    var length := Get16(data[offset + 2..offset + 4]);
    if offset + 4 + length > |data| {
      return false, offset, r;
    }
    result := Apply(r, kind, data[offset + 4..offset + 4 + length]);
    next := offset + 4 + length;
    if length % 4 != 0 {
      next := next + 4 - length % 4;
    }
    more := true;
  }
}
