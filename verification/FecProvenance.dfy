/** Where the shards of a session come from: which packets a call accepts, judged on their bytes, what an accepted
    one changes, and, over every run of calls and cleanups, which packet carried each shard held. */
module FecProvenance {
  import opened Bytes
  import Fec
  import opened FecSessions

  // ----- Acceptance, on the bytes of a packet -----

  function SessionOf(pkt: seq<byte>): u32
    requires |pkt| >= 12
  {
    ReadsNumber(pkt[0..4]);
    Number(pkt[0..4])
  }

  function IndexOf(pkt: seq<byte>): nat
    requires |pkt| >= 12
  {
    Number(pkt[4..6])
  }

  function TotalOf(pkt: seq<byte>): nat
    requires |pkt| >= 12
  {
    Number(pkt[6..8])
  }

  function SizeOf(pkt: seq<byte>): nat
    requires |pkt| >= 12
  {
    Number(pkt[8..12])
  }

  /** A shard of the receiver's own configuration: its header announces the same number of shards, one of these
      and a size in 1..65536, and there is data behind it. */
  predicate WellFormed(c: Fec.Codec, pkt: seq<byte>) {
    |pkt| > 12 && TotalOf(pkt) == c.Total() && IndexOf(pkt) < c.Total() && 1 <= SizeOf(pkt) <= 65536
  }

  /** The session it names, if there is one, was opened with the same size. */
  predicate Fits(st: Sessions, peer: string, pkt: seq<byte>)
    requires |pkt| >= 12
  {
    var key := Key(peer, SessionOf(pkt));
    key in st ==> st[key].size == SizeOf(pkt)
  }

  predicate Refused(o: Outcome) {
    o.Reject? && !o.problem.Decoding?
  }

  lemma HeaderNumbers(pkt: seq<byte>)
    requires |pkt| >= 12
    ensures ParseHeader(pkt).session == SessionOf(pkt) && ParseHeader(pkt).index == IndexOf(pkt)
    ensures ParseHeader(pkt).total == TotalOf(pkt) && ParseHeader(pkt).size == SizeOf(pkt)
  {
    assert pkt[..4] == pkt[0..4];
    ReadsNumber(pkt[0..4]);
    ReadsNumber(pkt[4..6]);
    ReadsNumber(pkt[6..8]);
    ReadsNumber(pkt[8..12]);
  }

  /** A frame as sent, byte by byte: the type, then session, index, total and size, then the shard. */
  lemma SentHeader(h: Header, shard: seq<byte>)
    ensures var f := Frame(h, shard);
            && f[0] == 9 && f[13..] == shard
            && SessionOf(f[1..]) == h.session && IndexOf(f[1..]) == h.index
            && TotalOf(f[1..]) == h.total && SizeOf(f[1..]) == h.size
  {
    HeaderNumbers(FrameBody(h, shard));
    assert Frame(h, shard)[13..] == FrameBody(h, shard)[12..];
  }

  /** A call accepts a packet if and only if it is well formed and fits its session; a refusal leaves the session
      map as it was. */
  lemma AcceptedIff(c: Fec.Codec, st: Sessions, peer: string, pkt: seq<byte>, now: int)
    requires AllShaped(c, st)
    ensures !Refused(Receive(c, st, peer, pkt, now).1) <==> WellFormed(c, pkt) && Fits(st, peer, pkt)
    ensures Refused(Receive(c, st, peer, pkt, now).1) ==> Receive(c, st, peer, pkt, now).0 == st
  {
    if |pkt| >= 12 {
      HeaderNumbers(pkt);
    }
  }

  /** The packet has the fault that is reported. */
  predicate HasFault(c: Fec.Codec, st: Sessions, peer: string, pkt: seq<byte>, fault: Problem) {
    match fault
    case TooShort => |pkt| < 12
    case TotalMismatch => |pkt| >= 12 && TotalOf(pkt) != c.Total()
    case IndexOutOfRange => |pkt| >= 12 && IndexOf(pkt) >= c.Total()
    case BadOriginalSize => |pkt| >= 12 && !(1 <= SizeOf(pkt) <= 65536)
    case EmptyShard => |pkt| == 12
    case SizeMismatch => |pkt| >= 12 && !Fits(st, peer, pkt)
    case Decoding(_) => true
  }

  /** A refusal names a fault of the packet. */
  lemma RefusedForAFault(c: Fec.Codec, st: Sessions, peer: string, pkt: seq<byte>, now: int)
    requires AllShaped(c, st) && Refused(Receive(c, st, peer, pkt, now).1)
    ensures HasFault(c, st, peer, pkt, Receive(c, st, peer, pkt, now).1.problem)
  {
    if |pkt| >= 12 {
      HeaderNumbers(pkt);
    }
  }

  // ----- What an accepted packet changes -----

  predicate Holds(st: Sessions, key: Key, i: nat) {
    key in st && i < |st[key].shards| == |st[key].present| && st[key].present[i]
  }

  function Held(st: Sessions, key: Key, i: nat): seq<byte>
    requires Holds(st, key, i)
  {
    st[key].shards[i]
  }

  /** An accepted packet adds its shard to its own session, unless one with that index is there; that one stays, and
      so does the session's age. Nothing else changes, but a delivery ends the session. */
  lemma AcceptedStores(c: Fec.Codec, st: Sessions, peer: string, pkt: seq<byte>, now: int)
    requires AllShaped(c, st) && WellFormed(c, pkt) && Fits(st, peer, pkt)
    ensures var (t, o) := Receive(c, st, peer, pkt, now); var key := Key(peer, SessionOf(pkt));
            && t - {key} == st - {key}
            && (o.Deliver? ==> key !in t)
            && (!o.Deliver? ==>
                  && key in t && t[key].size == SizeOf(pkt)
                  && (forall i: nat :: Holds(t, key, i) <==> i == IndexOf(pkt) || Holds(st, key, i))
                  && (forall i: nat | Holds(st, key, i) :: Held(t, key, i) == Held(st, key, i))
                  && (!Holds(st, key, IndexOf(pkt)) ==> Held(t, key, IndexOf(pkt)) == pkt[12..])
                  && t[key].lastUpdate == if Holds(st, key, IndexOf(pkt)) then st[key].lastUpdate else now)
  {
    HeaderNumbers(pkt);
  }

  // ----- Over every run -----

  /** A call for any packet of any peer, or a cleanup. */
  datatype Event = Call(peer: string, pkt: seq<byte>, now: int) | Tick(now: int)

  function Step(c: Fec.Codec, st: Sessions, e: Event): (t: Sessions)
    requires AllShaped(c, st)
    ensures AllShaped(c, t)
  {
    match e
    case Call(peer, pkt, now) => Receive(c, st, peer, pkt, now).0
    case Tick(now) => Cleanup(st, now)
  }

  /** The sessions after a run from the start. */
  function After(c: Fec.Codec, es: seq<Event>): (st: Sessions)
    ensures AllShaped(c, st)
  {
    if es == [] then map[] else Step(c, After(c, es[..|es| - 1]), es[|es| - 1])
  }

  /** The event is the arrival of this very shard: from the session's peer, under its number, announcing this index,
      the receiver's own number of shards and the session's size, and with nothing but the shard behind its header. */
  predicate Carries(c: Fec.Codec, e: Event, key: Key, i: nat, size: nat, shard: seq<byte>) {
    && e.Call? && e.peer == key.peer && |e.pkt| > 12
    && SessionOf(e.pkt) == key.session && IndexOf(e.pkt) == i && TotalOf(e.pkt) == c.Total() && SizeOf(e.pkt) == size
    && e.pkt[12..] == shard
  }

  ghost predicate Carried(c: Fec.Codec, es: seq<Event>, key: Key, i: nat, size: nat, shard: seq<byte>) {
    exists k | 0 <= k < |es| :: Carries(c, es[k], key, i, size, shard)
  }

  ghost predicate AllCarried(c: Fec.Codec, es: seq<Event>, st: Sessions) {
    forall key, i: nat | Holds(st, key, i) :: Carried(c, es, key, i, st[key].size, Held(st, key, i))
  }

  lemma CarriedLater(c: Fec.Codec, es: seq<Event>, e: Event, key: Key, i: nat, size: nat, shard: seq<byte>)
    requires Carried(c, es, key, i, size, shard) || Carries(c, e, key, i, size, shard)
    ensures Carried(c, es + [e], key, i, size, shard)
  {
    if k :| 0 <= k < |es| && Carries(c, es[k], key, i, size, shard) {
      assert (es + [e])[k] == es[k];
    } else {
      assert (es + [e])[|es|] == e;
    }
  }

  /** What is held after a step was held before it, or the packet of the step carried it. */
  lemma HeldOrCarried(c: Fec.Codec, st: Sessions, e: Event, key: Key, i: nat)
    requires AllShaped(c, st) && Holds(Step(c, st, e), key, i)
    ensures var t := Step(c, st, e);
            || (Holds(st, key, i) && Held(st, key, i) == Held(t, key, i) && st[key].size == t[key].size)
            || Carries(c, e, key, i, t[key].size, Held(t, key, i))
  {
    if e.Call? {
      AcceptedIff(c, st, e.peer, e.pkt, e.now);
      if WellFormed(c, e.pkt) && Fits(st, e.peer, e.pkt) {
        AcceptedStores(c, st, e.peer, e.pkt, e.now);
        var own := Key(e.peer, SessionOf(e.pkt));
        if key != own {
          assert key in Step(c, st, e) - {own} && key in st - {own};
        }
      }
    }
  }

  /** Over every run, each shard a session holds was carried by a packet received from the session's peer whose header
      names that session and index, the receiver's number of shards and the session's size. */
  lemma {:induction false} ShardsWereReceived(c: Fec.Codec, es: seq<Event>, st: Sessions)
    requires st == After(c, es)
    ensures AllCarried(c, es, st)
    decreases |es|
  {
    if es != [] {
      var n := |es| - 1;
      var before := After(c, es[..n]);
      ShardsWereReceived(c, es[..n], before);
      forall key, i: nat | Holds(st, key, i) ensures Carried(c, es, key, i, st[key].size, Held(st, key, i)) {
        HeldOrCarried(c, before, es[n], key, i);
        assert es[..n] + [es[n]] == es;
        CarriedLater(c, es[..n], es[n], key, i, st[key].size, Held(st, key, i));
      }
    }
  }

  /** So a packet delivered to the tunnel is decoded from such shards alone: those of `s`, each of which was carried by
      one of the packets received up to and including the last one. */
  lemma DeliveredFromReceived(c: Fec.Codec, es: seq<Event>, peer: string, pkt: seq<byte>, now: int) returns (s: Session)
    requires Receive(c, After(c, es), peer, pkt, now).1.Deliver?
    ensures Shaped(c, s) && |pkt| > 12 && WellFormed(c, pkt)
    ensures DecodeOutcome(c, s, SizeOf(pkt)) == Receive(c, After(c, es), peer, pkt, now).1
    ensures forall i | 0 <= i < c.Total() && s.present[i] ::
              Carried(c, es + [Call(peer, pkt, now)], Key(peer, SessionOf(pkt)), i, SizeOf(pkt), s.shards[i])
  {
    var st := After(c, es);
    AcceptedIff(c, st, peer, pkt, now);
    HeaderNumbers(pkt);
    ShardsWereReceived(c, es, st);
    var key := Key(peer, SessionOf(pkt));
    var s0 := SessionFor(c, st, key, SizeOf(pkt), now);
    s := AddShard(s0, IndexOf(pkt), pkt[12..], now);
    forall i | 0 <= i < c.Total() && s.present[i]
      ensures Carried(c, es + [Call(peer, pkt, now)], key, i, SizeOf(pkt), s.shards[i])
    {
      if key in st && st[key].present[i] {
        assert Holds(st, key, i) && Held(st, key, i) == s.shards[i];
      } else {
        assert i == IndexOf(pkt) && s.shards[i] == pkt[12..];
      }
      CarriedLater(c, es, Call(peer, pkt, now), key, i, SizeOf(pkt), s.shards[i]);
    }
  }
}
