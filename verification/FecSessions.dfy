/** Framing of FEC shards and the per-session reassembly machine of pkg/tunnel/tunnel.go. */
module FecSessions {
  import opened Bytes
  import Fec
  import FecCodec

  const PACKET_TYPE_FEC_SHARD: byte := 0x09
  const HEADER_LEN := 12
  const MAX_PACKET := 65536
  const SESSION_TIMEOUT := 5_000_000_000  // nanoseconds

  // ----- Framing -----

  datatype Header = Header(session: u32, index: u16, total: u16, size: u32)

  /** One framed shard. */
  function Frame(h: Header, shard: seq<byte>): (f: seq<byte>)
    ensures |f| == 13 + |shard| && f[0] == PACKET_TYPE_FEC_SHARD && f[1..] == FrameBody(h, shard)
  {
    [PACKET_TYPE_FEC_SHARD] + FrameBody(h, shard)
  }

  /** A framed shard as the reader hands it on, the type byte stripped; parsing undoes framing. */
  function FrameBody(h: Header, shard: seq<byte>): (f: seq<byte>)
    ensures |f| == HEADER_LEN + |shard|
    ensures ParseHeader(f) == h && f[HEADER_LEN..] == shard
  {
    var a, b, c, d := Put32(h.session), Put16(h.index), Put16(h.total), Put32(h.size);
    var f := a + b + c + d + shard;
    HeaderSlices(f, a, b, c, d, shard);
    f
  }

  /** The header of a framed shard whose leading type byte was stripped. */
  function ParseHeader(pkt: seq<byte>): Header
    requires |pkt| >= HEADER_LEN
  {
    Header(Get32(pkt[..4]), Get16(pkt[4..6]), Get16(pkt[6..8]), Get32(pkt[8..12]))
  }

  lemma HeaderSlices(pkt: seq<byte>, a: seq<byte>, b: seq<byte>, c: seq<byte>, d: seq<byte>, rest: seq<byte>)
    requires |a| == |d| == 4 && |b| == |c| == 2 && pkt == a + b + c + d + rest
    ensures pkt[..4] == a && pkt[4..6] == b && pkt[6..8] == c && pkt[8..12] == d && pkt[12..] == rest
  {
  }

  /** The header fields are as wide as the wire allows; larger numbers lose their high bits. */
  function HeaderFor(session: u32, i: nat, total: nat, size: nat): Header {
    Header(session, i % 0x1_0000, total % 0x1_0000, size % 0x1_0000_0000)
  }

  /** `sendPacketWithFEC`: the frames put on the connection, in order. */
  method SendPacketWithFEC(c: Fec.Codec, session: u32, packet: seq<byte>)
      returns (r: Fec.Result<seq<seq<byte>>>, next: u32)
    requires c.Valid()
    ensures next == Add32(session, 1)
    ensures packet == [] ==> r == Fec.Err(Fec.EmptyData)
    ensures packet != [] ==> r.Ok? && |r.value| == c.Total()
    ensures packet != [] ==> forall i | 0 <= i < c.Total() ::
              r.value[i] == Frame(HeaderFor(session, i, c.Total(), |packet|), Fec.Shards(c, packet)[i])
  {
    next := Add32(session, 1);
    var shards := FecCodec.Encode(c, packet);
    if shards.Err? {
      return Fec.Err(shards.error), next;
    }
    var sent := [];
    for i := 0 to |shards.value|
      invariant |sent| == i
      invariant forall k | 0 <= k < i :: sent[k] == Frame(HeaderFor(session, k, c.Total(), |packet|), shards.value[k])
    {
      sent := sent + [Frame(HeaderFor(session, i, |shards.value|, |packet|), shards.value[i])];
    }
    r := Fec.Ok(sent);
  }

  // ----- Reassembly -----

  /** The map key `"peerAddr:sessionID"`. */
  datatype Key = Key(peer: string, session: u32)

  datatype Session = Session(shards: seq<seq<byte>>, present: seq<bool>, received: nat, lastUpdate: int, size: nat)

  datatype Problem =
    | TooShort | TotalMismatch | IndexOutOfRange | BadOriginalSize | EmptyShard | SizeMismatch
    | Decoding(error: Fec.Error)

  datatype Outcome = NeedMore | Deliver(packet: seq<byte>) | Reject(problem: Problem) | Crash

  type Sessions = map<Key, Session>

  predicate Shaped(c: Fec.Codec, s: Session) {
    |s.shards| == |s.present| == c.Total()
  }

  predicate AllShaped(c: Fec.Codec, st: Sessions) {
    forall k | k in st :: Shaped(c, st[k])
  }

  function NewSession(c: Fec.Codec, size: nat, now: int): Session {
    Session(seq(c.Total(), _ => []), seq(c.Total(), _ => false), 0, now, size)
  }

  function AddShard(s: Session, i: nat, shard: seq<byte>, now: int): Session
    requires i < |s.shards| == |s.present|
  {
    if s.present[i] then s
    else s.(shards := s.shards[i := shard], present := s.present[i := true],
            received := s.received + 1, lastUpdate := now)
  }

  function Trim(data: seq<byte>, size: nat): seq<byte> {
    if |data| > size then data[..size] else data
  }

  function Validate(c: Fec.Codec, pkt: seq<byte>): (r: Option<Problem>)
    ensures r.None? ==> |pkt| > HEADER_LEN && ParseHeader(pkt).index < c.Total()
  {
    if |pkt| < HEADER_LEN then Some(TooShort)
    else
      var h := ParseHeader(pkt);
      if h.total != c.Total() then Some(TotalMismatch)
      else if h.index >= h.total then Some(IndexOutOfRange)
      else if h.size == 0 || h.size > MAX_PACKET then Some(BadOriginalSize)
      else if |pkt| == HEADER_LEN then Some(EmptyShard)
      else None
  }

  /** The session a shard goes to: the one found, or a new one. */
  function SessionFor(c: Fec.Codec, st: Sessions, key: Key, size: nat, now: int): Session {
    if key in st then st[key] else NewSession(c, size, now)
  }

  /** `processFECShard` as one step on the session map. */
  function Receive(c: Fec.Codec, st: Sessions, peer: string, pkt: seq<byte>, now: int): (r: (Sessions, Outcome))
    requires AllShaped(c, st)
    ensures AllShaped(c, r.0)
  {
    var bad := Validate(c, pkt);
    if bad.Some? then (st, Reject(bad.value))
    else
      var h := ParseHeader(pkt);
      var key := Key(peer, h.session);
      var s0 := SessionFor(c, st, key, h.size, now);
      if s0.size != h.size then (st, Reject(SizeMismatch))
      else
        var s := AddShard(s0, h.index, pkt[HEADER_LEN..], now);
        if s.received < c.dataShards then (st[key := s], NeedMore)
        else
          var o := DecodeOutcome(c, s, h.size);
          (if o.Deliver? then st - {key} else st[key := s], o)
  }

  /** What an attempt to decode a session gives. */
  function DecodeOutcome(c: Fec.Codec, s: Session, size: nat): Outcome {
    match Fec.Decoded(c, s.shards, s.present)
    case Ok(data) => Deliver(Trim(data, size))
    case Err(e) => Reject(Decoding(e))
    case Panic => Crash
  }

  // ----- When a call panics -----

  /** What every session keeps: its counter is right and no shard it holds is empty. */
  ghost predicate Sane(c: Fec.Codec, s: Session) {
    && Shaped(c, s) && s.received == Fec.Count(s.present)
    && forall i | 0 <= i < |s.shards| && s.present[i] :: s.shards[i] != []
  }

  ghost predicate AllSane(c: Fec.Codec, st: Sessions) {
    forall k | k in st :: Sane(c, st[k])
  }

  lemma NewIsSane(c: Fec.Codec, size: nat, now: int)
    ensures Sane(c, NewSession(c, size, now))
  {
    Fec.CountPositive(NewSession(c, size, now).present);
  }

  lemma AddKeepsSane(c: Fec.Codec, s: Session, i: nat, shard: seq<byte>, now: int)
    requires Sane(c, s) && i < c.Total() && shard != []
    ensures Sane(c, AddShard(s, i, shard, now))
  {
    if !s.present[i] {
      Fec.CountAdded(s.present, i);
    }
  }

  lemma ReceiveKeepsSane(c: Fec.Codec, st: Sessions, peer: string, pkt: seq<byte>, now: int)
    requires AllSane(c, st)
    ensures AllShaped(c, st) && AllSane(c, Receive(c, st, peer, pkt, now).0)
  {
    if Validate(c, pkt).None? {
      var h := ParseHeader(pkt);
      var s0 := SessionFor(c, st, Key(peer, h.session), h.size, now);
      NewIsSane(c, h.size, now);
      AddKeepsSane(c, s0, h.index, pkt[HEADER_LEN..], now);
    }
  }

  /** A call panics if and only if its packet is accepted and leaves the session with uneven shards. */
  lemma CallPanicsIff(c: Fec.Codec, st: Sessions, peer: string, pkt: seq<byte>, now: int)
    requires c.Valid() && AllSane(c, st)
    ensures AllShaped(c, st)
    ensures Receive(c, st, peer, pkt, now).1.Crash? <==>
              && Validate(c, pkt).None?
              && var h := ParseHeader(pkt); var s0 := SessionFor(c, st, Key(peer, h.session), h.size, now);
                 var s := AddShard(s0, h.index, pkt[HEADER_LEN..], now);
                 s0.size == h.size && Fec.Uneven(c, s.shards, s.present)
  {
    if Validate(c, pkt).None? {
      var h := ParseHeader(pkt);
      var s0 := SessionFor(c, st, Key(peer, h.session), h.size, now);
      NewIsSane(c, h.size, now);
      AddKeepsSane(c, s0, h.index, pkt[HEADER_LEN..], now);
      var s := AddShard(s0, h.index, pkt[HEADER_LEN..], now);
      Fec.PanicsIff(c, s.shards, s.present);
      Fec.PanicNeedsEnough(c, s.shards, s.present);
    }
  }

  method TryDecode(c: Fec.Codec, s: Session, size: nat) returns (o: Outcome)
    requires Shaped(c, s)
    ensures o == DecodeOutcome(c, s, size)
  {
    var shards := new seq<byte>[c.Total()](i requires 0 <= i < |s.shards| => s.shards[i]);
    var present := new bool[c.Total()](i requires 0 <= i < |s.present| => s.present[i]);
    assert shards[..] == s.shards && present[..] == s.present;
    var decoded := FecCodec.Decode(c, shards, present);
    if decoded.Err? {
      return Reject(Decoding(decoded.error));
    }
    if decoded.Panic? {
      return Crash;
    }
    var data := decoded.value;
    if |data| > size {
      data := data[..size];
    }
    return Deliver(data);
  }

  predicate Stale(s: Session, now: int) {
    now - s.lastUpdate > SESSION_TIMEOUT
  }

  /** `cleanupStaleFECSessions` */
  function Cleanup(st: Sessions, now: int): Sessions {
    map k | k in st && !Stale(st[k], now) :: st[k]
  }

  /** The receiving side of a tunnel: one codec, one map of sessions. */
  class Receiver {
    const codec: Fec.Codec
    var sessions: Sessions

    ghost predicate Valid() reads this {
      codec.Valid() && AllShaped(codec, sessions)
    }

    constructor (c: Fec.Codec)
      requires c.Valid()
      ensures Valid() && codec == c && sessions == map[]
    {
      codec, sessions := c, map[];
    }

    /** The first half of `processFECShard`, under its lock, and the shard stored; refused on a size mismatch. */
    method Store(key: Key, h: Header, shard: seq<byte>, now: int) returns (ok: bool)
      requires Valid() && h.index < codec.Total()
      modifies this
      ensures Valid()
      ensures ok <==> old(SessionFor(codec, sessions, key, h.size, now)).size == h.size
      ensures sessions == if !ok then old(sessions)
                          else old(sessions)[key := AddShard(old(SessionFor(codec, sessions, key, h.size, now)),
                              h.index, shard, now)]
    {
      if key !in sessions {
        sessions := sessions[key := NewSession(codec, h.size, now)];
      }
      var session := sessions[key];
      if session.size != h.size {
        return false;
      }
      if !session.present[h.index] {
        session := session.(shards := session.shards[h.index := shard],
          present := session.present[h.index := true], received := session.received + 1, lastUpdate := now);
        sessions := sessions[key := session];
      }
      assert sessions == old(sessions)[key := session];
      return true;
    }

    /** One call, on any bytes; `Crash` is the panic of the decoder. */
    method ProcessFECShard(peer: string, pkt: seq<byte>, now: int) returns (o: Outcome)
      requires Valid()
      modifies this
      ensures Valid()
      ensures (sessions, o) == old(Receive(codec, sessions, peer, pkt, now))
    {
      var bad := Validate(codec, pkt);
      if bad.Some? {
        return Reject(bad.value);
      }
      var h := ParseHeader(pkt);
      var key := Key(peer, h.session);
      var ok := Store(key, h, pkt[HEADER_LEN..], now);
      if !ok {
        return Reject(SizeMismatch);
      }
      var session := sessions[key];
      if session.received < codec.dataShards {
        return NeedMore;
      }
      o := TryDecode(codec, session, h.size);
      if o.Deliver? {
        assert sessions - {key} == old(sessions) - {key};
        sessions := sessions - {key};
      }
    }

    method CleanupStale(now: int)
      requires Valid()
      modifies this
      ensures Valid() && sessions == Cleanup(old(sessions), now)
    {
      var keys := sessions.Keys;
      while keys != {}
        invariant keys <= old(sessions).Keys
        invariant sessions == map k | k in old(sessions) && (k in keys || !Stale(old(sessions)[k], now)) ::
            old(sessions)[k]
      {
        var k :| k in keys;
        if Stale(sessions[k], now) {
          sessions := sessions - {k};
        }
        keys := keys - {k};
      }
    }
  }
}
