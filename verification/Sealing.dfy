/** Outer encryption of tunnel packets and the plain pass-through of inner packets that are encrypted
    already (pkg/tunnel/tunnel.go, encrypt_after_auth off). AES-GCM is any lawful seal/open pair. */
module Sealing {
  import opened Bytes
  import opened Classifier
  import Accelerator
  import KeyRing

  const PACKET_TYPE_DATA: byte := 0x01
  const NONCE := 12
  const OVERHEAD := 28

  /** `seal(key, nonce, plain)` and `open(key, data)`. */
  datatype Aead = Aead(seal: (string, seq<byte>, seq<byte>) -> seq<byte>,
      open: (string, seq<byte>) -> Option<seq<byte>>)

  /** What the tunnel relies on: opening undoes sealing, the nonce comes first, and 28 bytes are added. */
  ghost predicate Lawful(a: Aead) {
    forall key: string, nonce: seq<byte>, plain: seq<byte> | |nonce| == NONCE ::
      && a.open(key, a.seal(key, nonce, plain)) == Some(plain)
      && |a.seal(key, nonce, plain)| == |plain| + OVERHEAD
      && a.seal(key, nonce, plain)[..NONCE] == nonce
  }

  function Prepend(kind: byte, packet: seq<byte>): seq<byte> {
    [kind] + packet
  }

  /** `prependPacketType` in a buffer with spare capacity: the data is shifted right by one in place. */
  method PrependInPlace(buf: array<byte>, n: nat, kind: byte) returns (len: nat)
    requires n + 1 <= buf.Length
    modifies buf
    ensures len == n + 1 && buf[..len] == Prepend(kind, old(buf[..n])) && buf[len..] == old(buf[len..])
  {
    var i := n;
    while i > 0
      invariant 0 <= i <= n
      invariant forall j | 0 <= j < buf.Length :: buf[j] == if i < j <= n then old(buf[j - 1]) else old(buf[j])
    {
      buf[i] := buf[i - 1];
      i := i - 1;
    }
    buf[0] := kind;
    len := n + 1;
  }

  predicate IsData(data: seq<byte>) {
    |data| >= 1 && data[0] == PACKET_TYPE_DATA
  }

  /** `encryptPacket`; `skip` is the sender's verdict on the inner packet of a data packet. */
  function Encrypt(a: Aead, key: Option<string>, nonce: seq<byte>, data: seq<byte>, skip: bool): seq<byte> {
    if key.None? || (IsData(data) && skip) then data else a.seal(key.value, nonce, data)
  }

  predicate PlainPassThrough(data: seq<byte>) {
    IsData(data) && LikelyEncrypted(data[1..])
  }

  function Open(a: Aead, key: Option<string>, data: seq<byte>): Option<seq<byte>> {
    if key.None? then None else a.open(key.value, data)
  }

  /** `decryptPacket` with an active and a live previous key. */
  function Decrypt(a: Aead, active: Option<string>, prev: Option<string>, data: seq<byte>): Option<seq<byte>> {
    if Open(a, active, data).Some? then Open(a, active, data)
    else if Open(a, prev, data).Some? then Open(a, prev, data)
    else if (active.Some? || prev.Some?) && PlainPassThrough(data) then Some(data)
    else None
  }

  // ----- The symbolic packets of the key ring -----

  /** `data` is the symbolic packet `p` on the wire: a sealed one opens under its own key alone, to the bytes of its
      body, and is not taken for a plain packet; a clear one is the bytes themselves, classified as `p` says. */
  ghost predicate Stands(a: Aead, bytesOf: KeyRing.Body -> seq<byte>, p: KeyRing.Packet, data: seq<byte>) {
    && (p.Sealed? ==>
          !PlainPassThrough(data)
          && forall key: string :: a.open(key, data) == if key == p.key then Some(bytesOf(p.body)) else None)
    && (p.Clear? ==>
          data == bytesOf(p.body) && p.looksEncrypted == PlainPassThrough(data)
          && forall key: string :: a.open(key, data).None?)
  }

  function KeyOfCipher(c: Option<KeyRing.Cipher>): Option<string> {
    if c.Some? then Some(c.value.key) else None
  }

  /** In every reachable state the ring opens a symbolic packet exactly when decryption, with the active key and the
      previous one while its grace lasts, opens the bytes it stands for, and to the same body. */
  lemma RingDecryptsAlike(a: Aead, bytesOf: KeyRing.Body -> seq<byte>, key: string, es: seq<KeyRing.Event>,
                          p: KeyRing.Packet, data: seq<byte>, now: int)
    requires KeyRing.Runs(KeyRing.Start(key), es) && Stands(a, bytesOf, p, data)
    ensures var r := KeyRing.After(KeyRing.Start(key), es).ring;
            var live := if r.prev.Some? && now <= r.prevExp then r.prev else None;
            Decrypt(a, KeyOfCipher(r.cipher), KeyOfCipher(live), data)
            == match KeyRing.Decrypted(r, p, now).1 case Opened(b, _, _) => Some(bytesOf(b)) case Failed => None
  {
    KeyRing.Reachable(key, es);
  }

  /** Decryption inverts encryption exactly when the sender did not leave in clear a packet that the receiver's
      fresh classification would not let through. */
  lemma DecryptInvertsEncrypt(a: Aead, key: string, prev: Option<string>, nonce: seq<byte>, data: seq<byte>, skip: bool)
    requires Lawful(a) && |nonce| == NONCE
    requires a.open(key, data).None? && Open(a, prev, data).None?
    ensures Decrypt(a, Some(key), prev, Encrypt(a, Some(key), nonce, data, skip)) == Some(data)
            <==> (IsData(data) && skip ==> LikelyEncrypted(data[1..]))
  {
    assert a.open(key, a.seal(key, nonce, data)) == Some(data);
  }

  /** What opens under no key is let through as it is if and only if there is a key and it is a data packet whose inner
      packet looks encrypted. */
  lemma ClearIsLetThroughIff(a: Aead, active: Option<string>, prev: Option<string>, data: seq<byte>)
    requires Open(a, active, data).None? && Open(a, prev, data).None?
    ensures Decrypt(a, active, prev, data) ==
            if (active.Some? || prev.Some?) && |data| >= 1 && data[0] == 1 && LikelyEncrypted(data[1..]) then Some(data)
            else None
  {
  }

  /** Without a key the sender passes data through and the receiver refuses everything. */
  lemma NoKeyNoDelivery(a: Aead, nonce: seq<byte>, data: seq<byte>, skip: bool)
    ensures Decrypt(a, None, None, Encrypt(a, None, nonce, data, skip)) == None
  {
  }

  /** The sender's verdict: cached by the accelerator when it is enabled. */
  function SkipVerdict(enabled: bool, calls: seq<Accelerator.Call>, data: seq<byte>): bool {
    IsData(data) && Accelerator.Verdict(enabled, calls, data[1..], LikelyEncrypted)
  }

  /** With the accelerator off, encryption always round-trips; with it on, after every history, it does
      exactly when the deciding packet of the flow looked encrypted only if this one does. */
  lemma RoundTripAfterHistory(a: Aead, key: string, prev: Option<string>, nonce: seq<byte>, data: seq<byte>,
                              enabled: bool, calls: seq<Accelerator.Call>)
    requires Lawful(a) && |nonce| == NONCE && IsData(data)
    requires a.open(key, data).None? && Open(a, prev, data).None?
    ensures var sent := Encrypt(a, Some(key), nonce, data, SkipVerdict(enabled, calls, data));
            Decrypt(a, Some(key), prev, sent) == Some(data)
            <==> !(enabled && KeyOf(data[1..]).Some? && LikelyEncrypted(Accelerator.Decider(calls, data[1..]))
                   && !LikelyEncrypted(data[1..]))
  {
    DecryptInvertsEncrypt(a, key, prev, nonce, data, SkipVerdict(enabled, calls, data));
    if enabled && KeyOf(data[1..]).Some? {
      Accelerator.VerdictIsTheDeciders(calls, data[1..], LikelyEncrypted);
    }
  }

  // ----- A flow with mixed verdicts -----

  /** A TCP packet of one flow: a TLS record if `tls`, printable text otherwise. */
  function Sample(tls: bool): seq<byte> {
    SampleIP() + (SampleTCP() + SampleData(tls))
  }

  function SampleIP(): (s: seq<byte>)
    ensures |s| == 20
  {
    [0x45, 0, 0, 45, 0, 0, 0, 0, 64, TCP, 0, 0, 10, 0, 0, 1, 10, 0, 0, 2]
  }

  function SampleTCP(): (s: seq<byte>)
    ensures |s| == 20
  {
    [0x1F, 0x90, 0x1F, 0x91, 0, 0, 0, 0, 0, 0, 0, 0, 0x50, 0x10, 0, 0, 0, 0, 0, 0]
  }

  function SampleData(tls: bool): seq<byte> {
    if tls then [0x17, 0x03, 0x03, 0x41, 0x41] else [0x41, 0x41, 0x41, 0x41, 0x41]
  }

  lemma {:induction false} PlainText(q: seq<byte>, n: nat)
    requires n <= |q| && forall i | 0 <= i < n :: !Unprintable(q[i])
    ensures CountUnprintable(q, n) == 0
  {
    if n > 0 {
      PlainText(q, n - 1);
    }
  }

  lemma SampleParts(tls: bool)
    ensures var p := Sample(tls);
            && |p| == 45 && KeyOf(p) == Some(FlowKey([10, 0, 0, 1], [10, 0, 0, 2], 8080, 8081, TCP))
            && LikelyEncrypted(p) == tls
  {
    var ip, tcp, data := SampleIP(), SampleTCP(), SampleData(tls);
    assert ip[12..16] == [10, 0, 0, 1] && ip[16..20] == [10, 0, 0, 2];
    assert tcp[0..2] == [0x1F, 0x90] && tcp[2..4] == [0x1F, 0x91];
    TCPPacket(ip, tcp, data);
    if !tls {
      PlainText(data, 5);
    }
  }

  /** How a packet of two plain 20-byte headers and data is seen. */
  lemma TCPPacket(ip: seq<byte>, tcp: seq<byte>, data: seq<byte>)
    requires |ip| == |tcp| == 20 && ip[0] == 0x45 && ip[9] == TCP && tcp[12] == 0x50
    ensures var p := ip + (tcp + data);
            && KeyOf(p) == Some(FlowKey(ip[12..16], ip[16..20], PortAt(tcp, 0), PortAt(tcp, 2), TCP))
            && (LikelyEncrypted(p) <==> ServicePort(tcp) || LooksLikeTLS(data) || LooksLikeAEADProxy(data))
  {
    var t := tcp + data;
    var p := ip + t;
    assert p[0] == ip[0] && p[9] == ip[9] && p[12..16] == ip[12..16] && p[16..20] == ip[16..20];
    assert p[20..] == t && p[20..22] == tcp[0..2] && p[22..24] == tcp[2..4];
    assert t[0..2] == tcp[0..2] && t[2..4] == tcp[2..4] && t[12] == tcp[12] && t[20..] == data;
  }

  /** The round trip does fail for the tunnel's own classifier: after one TLS record of a flow, the next
      printable segment of the same flow is sent in clear and refused by the receiver. */
  lemma MixedFlowIsLost(a: Aead, key: string, nonce: seq<byte>)
    requires Lawful(a) && |nonce| == NONCE && a.open(key, Prepend(PACKET_TYPE_DATA, Sample(false))).None?
    ensures var data := Prepend(PACKET_TYPE_DATA, Sample(false));
            var calls := [Accelerator.Classify(Sample(true))];
            Decrypt(a, Some(key), None, Encrypt(a, Some(key), nonce, data, SkipVerdict(true, calls, data))) == None
  {
    var data := Prepend(PACKET_TYPE_DATA, Sample(false));
    assert data[1..] == Sample(false);
    SampleParts(true);
    SampleParts(false);
    Accelerator.MixedFlowDisagrees(Sample(true), Sample(false), LikelyEncrypted);
  }
}
