/** Whole runs of the reassembly machine for one packet: every arrival order, with repeats, losses,
    stale-session cleanup and unrelated traffic interleaved. */
module FecDelivery {
  import opened Bytes
  import Fec
  import opened FecSessions

  /** A packet in flight: who sent it, under which session, and with which codec. */
  datatype Flow = Flow(codec: Fec.Codec, peer: string, session: u32, packet: seq<byte>) {
    /** What `sendPacketWithFEC` and its receiver support. */
    predicate Valid() {
      codec.Valid() && codec.Total() < 0x1_0000 && 0 < |packet| <= MAX_PACKET
    }

    function Key(): Key {
      FecSessions.Key(peer, session)
    }

    /** Shard `i` as the receiver gets it, the type byte stripped. */
    function Wire(i: nat): seq<byte>
      requires Valid() && i < codec.Total()
    {
      FrameBody(Header(session, i, codec.Total(), |packet|), Fec.Shards(codec, packet)[i])
    }
  }

  datatype Event =
    | Arrive(index: nat, now: int)                          // a shard of the flow, possibly again
    | Foreign(peer: string, pkt: seq<byte>, now: int)       // anything addressed to another session
    | Tick(now: int)                                        // stale-session cleanup

  predicate Possible(f: Flow, e: Event) {
    match e
    case Arrive(i, _) => i < f.codec.Total()
    case Foreign(peer, pkt, _) => |pkt| < HEADER_LEN || Key(peer, ParseHeader(pkt).session) != f.Key()
    case Tick(_) => true
  }

  predicate PossibleRun(f: Flow, es: seq<Event>) {
    forall k | 0 <= k < |es| :: Possible(f, es[k])
  }

  // ----- The concrete machine -----

  function Step(f: Flow, st: Sessions, e: Event): (r: (Sessions, seq<Outcome>))
    requires f.Valid() && AllShaped(f.codec, st) && Possible(f, e)
    ensures AllShaped(f.codec, r.0)
  {
    match e
    case Arrive(i, now) =>
      var (st', o) := Receive(f.codec, st, f.peer, f.Wire(i), now);
      (st', [o])
    case Foreign(peer, pkt, now) =>
      (Receive(f.codec, st, peer, pkt, now).0, [])
    case Tick(now) =>
      (Cleanup(st, now), [])
  }

  /** The call made for the event panics; nothing recovers it, so the process ends. */
  predicate Crashes(f: Flow, st: Sessions, e: Event)
    requires f.Valid() && AllShaped(f.codec, st) && Possible(f, e)
  {
    match e
    case Arrive(i, now) => Receive(f.codec, st, f.peer, f.Wire(i), now).1.Crash?
    case Foreign(peer, pkt, now) => Receive(f.codec, st, peer, pkt, now).1.Crash?
    case Tick(_) => false
  }

  /** What the calls for this flow's shards return, in order, as long as the process lives. */
  function Run(f: Flow, st: Sessions, es: seq<Event>): seq<Outcome>
    requires f.Valid() && AllShaped(f.codec, st) && PossibleRun(f, es)
    decreases |es|
  {
    if es == [] then []
    else
      var (st', os) := Step(f, st, es[0]);
      if Crashes(f, st, es[0]) then os else os + Run(f, st', es[1..])
  }

  /** The events that the process lives through. */
  function Survived(f: Flow, st: Sessions, es: seq<Event>): (s: seq<Event>)
    requires f.Valid() && AllShaped(f.codec, st) && PossibleRun(f, es)
    ensures s <= es
    decreases |es|
  {
    if es == [] || Crashes(f, st, es[0]) then [] else [es[0]] + Survived(f, Step(f, st, es[0]).0, es[1..])
  }

  // ----- The specification: the set of shards held, nothing else -----

  datatype Held = Held(shards: set<nat>, since: int)

  /** The indices below `n`. */
  function Below(n: nat): (s: set<nat>)
    ensures |s| == n && forall i: nat :: i in s <==> i < n
  {
    if n == 0 then {} else Below(n - 1) + {n - 1}
  }

  function DataIndices(c: Fec.Codec): set<nat> {
    Below(c.dataShards)
  }

  predicate Enough(c: Fec.Codec, have: set<nat>) {
    |have| >= c.dataShards && |DataIndices(c) - have| <= 1
  }

  function SpecStep(f: Flow, h: Held, e: Event): (Held, seq<Outcome>) {
    match e
    case Arrive(i, now) =>
      var have := h.shards + {i};
      if Enough(f.codec, have) then (Held({}, 0), [Deliver(f.packet)])
      else (Held(have, if i in h.shards then h.since else now),
            [if |have| >= f.codec.dataShards then Reject(Decoding(Fec.TooManyMissing)) else NeedMore])
    case Foreign(_, _, _) => (h, [])
    case Tick(now) =>
      (if h.shards != {} && now - h.since > SESSION_TIMEOUT then Held({}, 0) else h, [])
  }

  function SpecRun(f: Flow, h: Held, es: seq<Event>): seq<Outcome>
    decreases |es|
  {
    if es == [] then []
    else
      var (h', os) := SpecStep(f, h, es[0]);
      os + SpecRun(f, h', es[1..])
  }

  // ----- Refinement -----

  function PresentSet(present: seq<bool>): set<nat> {
    set i: nat | 0 <= i < |present| && present[i]
  }

  lemma {:induction false} CountIsCardinality(present: seq<bool>)
    ensures Fec.Count(present) == |PresentSet(present)|
  {
    if present != [] {
      var n := |present| - 1;
      CountIsCardinality(present[..n]);
      if present[n] {
        assert PresentSet(present) == PresentSet(present[..n]) + {n};
      } else {
        assert PresentSet(present) == PresentSet(present[..n]);
      }
    }
  }

  lemma MissingIsCardinality(c: Fec.Codec, present: seq<bool>)
    requires c.dataShards <= |present|
    ensures Fec.Missing(present, c.dataShards) == |DataIndices(c) - PresentSet(present)|
  {
    var d, all, have := c.dataShards, DataIndices(c), PresentSet(present[..c.dataShards]);
    CountIsCardinality(present[..d]);
    assert have <= all;
    assert all - PresentSet(present) == all - have;
  }

  ghost predicate Represents(f: Flow, s: Session, h: Held) {
    && Fec.Honest(f.codec, f.packet, s.shards, s.present)
    && s.size == |f.packet| && s.received == Fec.Count(s.present)
    && h.shards == PresentSet(s.present) != {} && h.since == s.lastUpdate
  }

  /** The session map knows about the flow exactly what the specification knows. */
  ghost predicate Related(f: Flow, st: Sessions, h: Held) {
    if f.Key() in st then Represents(f, st[f.Key()], h) else h.shards == {}
  }

  lemma WireParses(f: Flow, i: nat)
    requires f.Valid() && i < f.codec.Total()
    ensures Validate(f.codec, f.Wire(i)) == None
    ensures ParseHeader(f.Wire(i)) == Header(f.session, i, f.codec.Total(), |f.packet|)
    ensures f.Wire(i)[HEADER_LEN..] == Fec.Shards(f.codec, f.packet)[i]
  {
  }

  /** What is written for shard `i`, without its type byte, is what the receiver gets. */
  lemma FrameIsWire(f: Flow, i: nat)
    requires f.Valid() && i < f.codec.Total()
    ensures var frame := Frame(HeaderFor(f.session, i, f.codec.Total(), |f.packet|), Fec.Shards(f.codec, f.packet)[i]);
            frame[1..] == f.Wire(i) && frame[0] == PACKET_TYPE_FEC_SHARD
  {
    HeaderForFits(f.session, i, f.codec.Total(), |f.packet|);
  }

  lemma HeaderForFits(session: u32, i: nat, total: nat, size: nat)
    requires i < 0x1_0000 && total < 0x1_0000 && size < 0x1_0000_0000
    ensures HeaderFor(session, i, total, size) == Header(session, i, total, size)
  {
  }

  lemma CountUpdate(present: seq<bool>, i: nat)
    requires i < |present| && !present[i]
    ensures Fec.Count(present[i := true]) == Fec.Count(present) + 1
    ensures PresentSet(present[i := true]) == PresentSet(present) + {i}
  {
    CountIsCardinality(present);
    CountIsCardinality(present[i := true]);
    assert PresentSet(present[i := true]) == PresentSet(present) + {i};
  }

  lemma {:induction false} CountNone(present: seq<bool>)
    requires forall k | 0 <= k < |present| :: !present[k]
    ensures Fec.Count(present) == 0 && PresentSet(present) == {}
  {
    CountIsCardinality(present);
  }

  /** The session an arriving shard is added to, whether found or newly made. */
  lemma AddShardKeepsHonest(f: Flow, s0: Session, i: nat, now: int)
    requires f.Valid() && i < f.codec.Total()
    requires Fec.Honest(f.codec, f.packet, s0.shards, s0.present)
    requires s0.size == |f.packet| && s0.received == Fec.Count(s0.present)
    ensures var s := AddShard(s0, i, Fec.Shards(f.codec, f.packet)[i], now);
            && Represents(f, s, Held(PresentSet(s0.present) + {i}, s.lastUpdate))
  {
    if s0.present[i] {
      assert PresentSet(s0.present) + {i} == PresentSet(s0.present);
    } else {
      CountUpdate(s0.present, i);
    }
  }

  /** Decoding a session that represents a set of shards: delivered exactly when the set is enough. */
  lemma DecodeRepresented(f: Flow, s: Session, h: Held)
    requires f.Valid() && Represents(f, s, h) && s.received >= f.codec.dataShards
    ensures |h.shards| == s.received
    ensures DecodeOutcome(f.codec, s, |f.packet|) ==
            if Enough(f.codec, h.shards) then Deliver(f.packet) else Reject(Decoding(Fec.TooManyMissing))
  {
    Fec.DecodeHonest(f.codec, f.packet, s.shards, s.present);
    CountIsCardinality(s.present);
    MissingIsCardinality(f.codec, s.present);
    var pad := Zeros(Fec.ShardSize(f.codec, |f.packet|) * f.codec.dataShards - |f.packet|);
    assert (f.packet + pad)[..|f.packet|] == f.packet;
    assert Trim(f.packet + pad, |f.packet|) == f.packet;
  }

  lemma ArriveRefines(f: Flow, st: Sessions, h: Held, i: nat, now: int)
    requires f.Valid() && AllShaped(f.codec, st) && Related(f, st, h) && i < f.codec.Total()
    ensures Related(f, Step(f, st, Arrive(i, now)).0, SpecStep(f, h, Arrive(i, now)).0)
    ensures Step(f, st, Arrive(i, now)).1 == SpecStep(f, h, Arrive(i, now)).1
    ensures !Crashes(f, st, Arrive(i, now))
  {
    ReceiveOwn(f, st, i, now);
    var c, key := f.codec, f.Key();
    var s0 := SessionFor(c, st, key, |f.packet|, now);
    if key !in st {
      CountNone(s0.present);
    }
    AddShardKeepsHonest(f, s0, i, now);
    var s := AddShard(s0, i, Fec.Shards(c, f.packet)[i], now);
    var have := Held(h.shards + {i}, s.lastUpdate);
    assert Represents(f, s, have);
    CountIsCardinality(s.present);
    if s.received >= c.dataShards {
      DecodeRepresented(f, s, have);
    }
  }

  /** What a call for the flow's own shard does, in terms of the session it belongs to. */
  lemma ReceiveOwn(f: Flow, st: Sessions, i: nat, now: int)
    requires f.Valid() && AllShaped(f.codec, st) && i < f.codec.Total()
    requires f.Key() in st ==> st[f.Key()].size == |f.packet|
    ensures var s0 := SessionFor(f.codec, st, f.Key(), |f.packet|, now);
            var s := AddShard(s0, i, Fec.Shards(f.codec, f.packet)[i], now);
            Receive(f.codec, st, f.peer, f.Wire(i), now) ==
              if s.received < f.codec.dataShards then (st[f.Key() := s], NeedMore)
              else
                var o := DecodeOutcome(f.codec, s, |f.packet|);
                (if o.Deliver? then st - {f.Key()} else st[f.Key() := s], o)
  {
    WireParses(f, i);
  }

  lemma StepRefines(f: Flow, st: Sessions, h: Held, e: Event)
    requires f.Valid() && AllShaped(f.codec, st) && Related(f, st, h) && Possible(f, e)
    ensures Related(f, Step(f, st, e).0, SpecStep(f, h, e).0)
    ensures Step(f, st, e).1 == SpecStep(f, h, e).1
    ensures Crashes(f, st, e) ==> e.Foreign?
  {
    match e
    case Arrive(i, now) => ArriveRefines(f, st, h, i, now);
    case Foreign(peer, pkt, now) =>
    case Tick(now) =>
  }

  /** Over every run, the code returns exactly what the set-of-shards specification returns on the events the
      process lives through: the packet on the first call where enough distinct shards are held, and never
      anything but the original packet. */
  lemma {:induction false} RunRefines(f: Flow, st: Sessions, h: Held, es: seq<Event>)
    requires f.Valid() && AllShaped(f.codec, st) && Related(f, st, h) && PossibleRun(f, es)
    ensures Run(f, st, es) == SpecRun(f, h, Survived(f, st, es))
    decreases |es|
  {
    if es != [] {
      StepRefines(f, st, h, es[0]);
      if !Crashes(f, st, es[0]) {
        var st', h' := Step(f, st, es[0]).0, SpecStep(f, h, es[0]).0;
        RunRefines(f, st', h', es[1..]);
        assert ([es[0]] + Survived(f, st', es[1..]))[1..] == Survived(f, st', es[1..]);
      }
    }
  }

  // ----- What the specification promises -----

  function Deliveries(os: seq<Outcome>): nat
  {
    if os == [] then 0 else Deliveries(os[..|os| - 1]) + if os[|os| - 1].Deliver? then 1 else 0
  }

  lemma {:induction false} DeliveriesConcat(a: seq<Outcome>, b: seq<Outcome>)
    ensures Deliveries(a + b) == Deliveries(a) + Deliveries(b)
  {
    if b == [] {
      assert a + b == a;
    } else {
      DeliveriesConcat(a, b[..|b| - 1]);
      assert (a + b)[..|a + b| - 1] == a + b[..|b| - 1];
    }
  }

  /** Safety over every run from any state not yet knowing the flow: each call wants more shards, reports
      that too many data shards are missing, or returns the original packet. The missing-parity error, the
      panic and every validation error are unreachable in the calls for the flow's own shards. */
  lemma {:induction false} OnlyTheOriginalPacket(f: Flow, st: Sessions, es: seq<Event>)
    requires f.Valid() && AllShaped(f.codec, st) && f.Key() !in st && PossibleRun(f, es)
    ensures forall o | o in Run(f, st, es) ::
              o == NeedMore || o == Reject(Decoding(Fec.TooManyMissing)) || o == Deliver(f.packet)
  {
    RunRefines(f, st, Held({}, 0), es);
    SpecOutcomes(f, Held({}, 0), Survived(f, st, es));
  }

  lemma {:induction false} SpecOutcomes(f: Flow, h: Held, es: seq<Event>)
    ensures forall o | o in SpecRun(f, h, es) ::
              o == NeedMore || o == Reject(Decoding(Fec.TooManyMissing)) || o == Deliver(f.packet)
    decreases |es|
  {
    if es != [] {
      SpecOutcomes(f, SpecStep(f, h, es[0]).0, es[1..]);
    }
  }

  /** The shards of the flow that arrive in a run. */
  function Arrived(es: seq<Event>): set<nat>
  {
    if es == [] then {} else Arrived(es[1..]) + if es[0].Arrive? then {es[0].index} else {}
  }

  ghost predicate NoRepeats(es: seq<Event>) {
    forall j, k | 0 <= j < k < |es| && es[j].Arrive? && es[k].Arrive? :: es[j].index != es[k].index
  }

  /** What `n` deliveries of `d` shards each use. */
  function Spend(n: nat, d: nat): nat {
    if n == 0 then 0 else d + Spend(n - 1, d)
  }

  /** Accounting: `n` more deliveries fit into the shards held and those not yet used. */
  ghost predicate Budget(c: Fec.Codec, have: set<nat>, used: set<nat>, n: nat) {
    && c.dataShards > 0
    && Spend(n, c.dataShards) + |used| <= c.Total() + |have|
    && Spend(n, c.dataShards - 1) + |used * DataIndices(c)| <= c.dataShards + |have * DataIndices(c)|
  }

  /** Each delivery uses up `d` distinct shards, at least `d - 1` of them data shards. */
  lemma BudgetDelivery(c: Fec.Codec, have: set<nat>, used: set<nat>, i: nat, n: nat)
    requires i !in used && have <= used && Enough(c, have + {i}) && Budget(c, {}, used + {i}, n)
    ensures Budget(c, have, used, n + 1)
  {
    AddOne(have, DataIndices(c), i);
    AddOne(used, DataIndices(c), i);
    EnoughUsesData(c, have + {i});
    assert {} * DataIndices(c) == {};
  }

  lemma BudgetArrival(c: Fec.Codec, have: set<nat>, used: set<nat>, i: nat, n: nat)
    requires i !in used && have <= used && Budget(c, have + {i}, used + {i}, n)
    ensures Budget(c, have, used, n)
  {
    AddOne(have, DataIndices(c), i);
    AddOne(used, DataIndices(c), i);
  }

  /** The deliveries of a run are those of its first step and those of the rest. */
  lemma DeliveriesStep(f: Flow, h: Held, es: seq<Event>)
    requires es != []
    ensures Deliveries(SpecRun(f, h, es)) == Deliveries(SpecRun(f, SpecStep(f, h, es[0]).0, es[1..]))
              + if es[0].Arrive? && Enough(f.codec, h.shards + {es[0].index}) then 1 else 0
  {
    var (h', os) := SpecStep(f, h, es[0]);
    DeliveriesConcat(os, SpecRun(f, h', es[1..]));
    assert es[0].Arrive? ==> os[..0] == [];
  }

  /** One step spends what it delivers. */
  lemma BudgetStep(f: Flow, h: Held, used: set<nat>, e: Event, m: nat, n: nat)
    requires h.shards <= used && (e.Arrive? ==> e.index !in used)
    requires Budget(f.codec, SpecStep(f, h, e).0.shards, if e.Arrive? then used + {e.index} else used, m)
    requires n == m + if e.Arrive? && Enough(f.codec, h.shards + {e.index}) then 1 else 0
    ensures Budget(f.codec, h.shards, used, n)
  {
    if !e.Arrive? {
      BudgetForget(f.codec, h.shards, used, n);
    } else if Enough(f.codec, h.shards + {e.index}) {
      BudgetDelivery(f.codec, h.shards, used, e.index, m);
    } else {
      BudgetArrival(f.codec, h.shards, used, e.index, n);
    }
  }

  lemma {:induction false} DeliveriesFitBudget(f: Flow, h: Held, used: set<nat>, es: seq<Event>, n: nat)
    requires n == Deliveries(SpecRun(f, h, es))
    requires f.codec.Valid() && NoRepeats(es) && h.shards <= used && used !! Arrived(es)
    requires used + Arrived(es) <= Below(f.codec.Total())
    ensures Budget(f.codec, h.shards, used, n)
    decreases |es|
  {
    if es == [] {
      BudgetEmpty(f.codec, h.shards, used);
    } else {
      var e, rest := es[0], es[1..];
      var h', used' := SpecStep(f, h, e).0, if e.Arrive? then used + {e.index} else used;
      NoRepeatsTail(es);
      var m := Deliveries(SpecRun(f, h', rest));
      DeliveriesFitBudget(f, h', used', rest, m);
      DeliveriesStep(f, h, es);
      BudgetStep(f, h, used, e, m, n);
    }
  }

  lemma BudgetEmpty(c: Fec.Codec, have: set<nat>, used: set<nat>)
    requires c.Valid() && used <= Below(c.Total())
    ensures Budget(c, have, used, 0)
  {
    SubsetSize(used, Below(c.Total()));
    SubsetSize(used * DataIndices(c), DataIndices(c));
  }

  lemma BudgetForget(c: Fec.Codec, have: set<nat>, used: set<nat>, n: nat)
    ensures Budget(c, {}, used, n) ==> Budget(c, have, used, n)
  {
    assert {} * DataIndices(c) == {};
  }

  lemma SpendTwo(n: nat, d: nat)
    ensures n >= 2 ==> Spend(n, d) >= d + d
  {
  }

  lemma BudgetBound(c: Fec.Codec, n: nat)
    requires c.Valid() && Budget(c, {}, {}, n)
    requires c.dataShards >= 3 || c.parityShards < c.dataShards
    ensures n <= 1
  {
    var d := c.dataShards;
    assert {} * DataIndices(c) == {};
    SpendTwo(n, d);
    SpendTwo(n, d - 1);
  }

  lemma NoRepeatsTail(es: seq<Event>)
    requires es != [] && NoRepeats(es)
    ensures NoRepeats(es[1..]) && (es[0].Arrive? ==> es[0].index !in Arrived(es[1..]))
  {
    ArrivedMembers(es[1..]);
    forall j, k | 0 <= j < k < |es[1..]| && es[1..][j].Arrive? && es[1..][k].Arrive?
      ensures es[1..][j].index != es[1..][k].index
    {
      assert es[1..][j] == es[j + 1] && es[1..][k] == es[k + 1];
    }
  }

  lemma {:induction false} ArrivedMembers(es: seq<Event>)
    ensures forall i: nat :: i in Arrived(es) <==> exists k | 0 <= k < |es| :: es[k].Arrive? && es[k].index == i
  {
    if es != [] {
      ArrivedMembers(es[1..]);
      forall i: nat
        ensures i in Arrived(es) <==> exists k | 0 <= k < |es| :: es[k].Arrive? && es[k].index == i
      {
        if i in Arrived(es[1..]) {
          var k :| 0 <= k < |es[1..]| && es[1..][k].Arrive? && es[1..][k].index == i;
          assert es[k + 1].Arrive? && es[k + 1].index == i;
        }
        if k :| 0 <= k < |es| && es[k].Arrive? && es[k].index == i {
          assert k > 0 ==> es[1..][k - 1] == es[k];
        }
      }
    }
  }

  lemma ArrivedPrefix(s: seq<Event>, es: seq<Event>)
    requires s <= es
    ensures Arrived(s) <= Arrived(es)
  {
    ArrivedMembers(s);
    ArrivedMembers(es);
  }

  lemma ArrivedPossible(f: Flow, es: seq<Event>)
    requires PossibleRun(f, es)
    ensures Arrived(es) <= Below(f.codec.Total())
  {
    ArrivedMembers(es);
    forall i | i in Arrived(es) ensures i < f.codec.Total() {
      var k :| 0 <= k < |es| && es[k].Arrive? && es[k].index == i;
      assert Possible(f, es[k]);
    }
  }

  lemma SubsetSize(a: set<nat>, b: set<nat>)
    requires a <= b
    ensures |a| <= |b|
  {
    assert b == a + (b - a);
  }

  lemma AddOne(s: set<nat>, ds: set<nat>, i: nat)
    requires i !in s
    ensures |s + {i}| == |s| + 1
    ensures |(s + {i}) * ds| == |s * ds| + if i in ds then 1 else 0
  {
    assert (s + {i}) * ds == s * ds + ({i} * ds);
    assert i in ds ==> {i} * ds == {i};
    assert i !in ds ==> {i} * ds == {};
  }

  lemma EnoughUsesData(c: Fec.Codec, have: set<nat>)
    requires Enough(c, have)
    ensures |have * DataIndices(c)| >= c.dataShards - 1
  {
    var ds := DataIndices(c);
    assert ds == (ds - have) + (have * ds);
  }

  /** When no shard is ever repeated, each packet is delivered at most once over every run ... */
  lemma {:induction false} AtMostOnce(f: Flow, st: Sessions, es: seq<Event>)
    requires f.Valid() && AllShaped(f.codec, st) && f.Key() !in st
    requires PossibleRun(f, es) && NoRepeats(es)
    requires f.codec.dataShards >= 3 || f.codec.parityShards < f.codec.dataShards
    ensures Deliveries(Run(f, st, es)) <= 1
  {
    RunRefines(f, st, Held({}, 0), es);
    SpecAtMostOnce(f, Survived(f, st, es), Deliveries(Run(f, st, es)));
  }

  lemma SpecAtMostOnce(f: Flow, es: seq<Event>, n: nat)
    requires f.Valid() && PossibleRun(f, es) && NoRepeats(es) && n == Deliveries(SpecRun(f, Held({}, 0), es))
    requires f.codec.dataShards >= 3 || f.codec.parityShards < f.codec.dataShards
    ensures n <= 1
  {
    ArrivedPossible(f, es);
    DeliveriesFitBudget(f, Held({}, 0), {}, es, n);
    BudgetBound(f.codec, n);
  }

  /** ... and the condition is exact: for every other codec some repeat-free run delivers twice. */
  lemma {:induction false} DeliveredTwice(f: Flow) returns (es: seq<Event>)
    requires f.Valid() && f.codec.dataShards < 3 && f.codec.parityShards >= f.codec.dataShards
    ensures PossibleRun(f, es) && NoRepeats(es) && Deliveries(Run(f, map[], es)) == 2
  {
    es := SpecDeliversTwice(f);
    EvenTrafficSurvives(f, map[], Held({}, 0), es);
    RunRefines(f, map[], Held({}, 0), es);
  }

  lemma SpecDeliversTwice(f: Flow) returns (es: seq<Event>)
    requires f.codec.dataShards == 1 <= f.codec.parityShards || f.codec.dataShards == 2 <= f.codec.parityShards
    ensures PossibleRun(f, es) && NoRepeats(es) && Deliveries(SpecRun(f, Held({}, 0), es)) == 2
    ensures forall k | 0 <= k < |es| :: es[k].Arrive?
  {
    if f.codec.dataShards == 1 {
      es := TwiceWithOne(f);
    } else {
      es := TwiceWithTwo(f);
    }
  }

  lemma TwiceWithOne(f: Flow) returns (es: seq<Event>)
    requires f.codec.dataShards == 1 <= f.codec.parityShards
    ensures PossibleRun(f, es) && NoRepeats(es) && Deliveries(SpecRun(f, Held({}, 0), es)) == 2
    ensures forall k | 0 <= k < |es| :: es[k].Arrive?
  {
    es := [Arrive(0, 0), Arrive(1, 0)];
    var h, ds := Held({}, 0), DataIndices(f.codec);
    assert ds - {0} == {} && ds - {1} == {0};
    assert {} + {0} == {0} && {} + {1} == {1};
    assert SpecStep(f, h, es[0]) == (h, [Deliver(f.packet)]) == SpecStep(f, h, es[1]);
    DeliveriesStep(f, h, es);
    DeliveriesStep(f, h, es[1..]);
    assert es[1..][1..] == [];
  }

  lemma TwiceWithTwo(f: Flow) returns (es: seq<Event>)
    requires f.codec.dataShards == 2 <= f.codec.parityShards
    ensures PossibleRun(f, es) && NoRepeats(es) && Deliveries(SpecRun(f, Held({}, 0), es)) == 2
    ensures forall k | 0 <= k < |es| :: es[k].Arrive?
  {
    es := HalvesInTurn(f);
    assert es[..2] + es[2..] == es && es[2..] + [] == es[2..];
    HalfAndParity(f, 0, 2, es[2..]);
    HalfAndParity(f, 1, 3, []);
  }

  lemma HalvesInTurn(f: Flow) returns (es: seq<Event>)
    requires f.codec.Total() >= 4
    ensures |es| == 4 && es[..2] == [Arrive(0, 0), Arrive(2, 0)] && es[2..] == [Arrive(1, 0), Arrive(3, 0)]
    ensures PossibleRun(f, es) && NoRepeats(es) && forall k | 0 <= k < |es| :: es[k].Arrive?
  {
    es := [Arrive(0, 0), Arrive(2, 0), Arrive(1, 0), Arrive(3, 0)];
  }

  lemma HalfAndParity(f: Flow, i: nat, j: nat, es: seq<Event>)
    requires f.codec.dataShards == 2 && i < 2 <= j
    ensures Deliveries(SpecRun(f, Held({}, 0), [Arrive(i, 0), Arrive(j, 0)] + es))
         == 1 + Deliveries(SpecRun(f, Held({}, 0), es))
  {
    var h, ds := Held({}, 0), DataIndices(f.codec);
    var run := [Arrive(i, 0), Arrive(j, 0)] + es;
    assert |{i}| == 1 && {} + {i} == {i};
    DeliveriesStep(f, h, run);
    assert |{i} + {j}| == 2;
    assert ds - ({i} + {j}) == {1 - i};
    DeliveriesStep(f, Held({i}, 0), run[1..]);
    assert run[1..][1..] == es;
  }

  /** Losing two data shards is fatal, however many parity shards arrive: identical parity carries no more. */
  lemma {:induction false} TwoDataLossesAreFatal(f: Flow, st: Sessions, es: seq<Event>, x: nat, y: nat)
    requires f.Valid() && AllShaped(f.codec, st) && f.Key() !in st && PossibleRun(f, es)
    requires x < y < f.codec.dataShards && x !in Arrived(es) && y !in Arrived(es)
    ensures Deliveries(Run(f, st, es)) == 0
  {
    RunRefines(f, st, Held({}, 0), es);
    ArrivedPrefix(Survived(f, st, es), es);
    NeverEnough(f, Held({}, 0), Survived(f, st, es), x, y);
  }

  lemma {:induction false} NeverEnough(f: Flow, h: Held, es: seq<Event>, x: nat, y: nat)
    requires x < y < f.codec.dataShards
    requires {x, y} !! Arrived(es) && {x, y} !! h.shards
    ensures Deliveries(SpecRun(f, h, es)) == 0
    decreases |es|
  {
    if es != [] {
      var (h', os) := SpecStep(f, h, es[0]);
      DeliveriesConcat(os, SpecRun(f, h', es[1..]));
      if es[0].Arrive? {
        var have := h.shards + {es[0].index};
        SubsetSize({x, y}, DataIndices(f.codec) - have);
        assert os[..0] == [];
      }
      NeverEnough(f, h', es[1..], x, y);
    }
  }

  /** No cleanup comes more than the session timeout after an earlier shard. */
  ghost predicate Timely(es: seq<Event>) {
    forall j, k | 0 <= j < k < |es| && es[j].Arrive? && es[k].Tick? :: es[k].now - es[j].now <= SESSION_TIMEOUT
  }

  ghost predicate TicksWithin(es: seq<Event>, since: int) {
    forall k | 0 <= k < |es| && es[k].Tick? :: es[k].now - since <= SESSION_TIMEOUT
  }

  lemma TimelyTail(es: seq<Event>)
    requires es != [] && Timely(es)
    ensures Timely(es[1..]) && (es[0].Arrive? ==> TicksWithin(es[1..], es[0].now))
    ensures forall since :: TicksWithin(es, since) ==> TicksWithin(es[1..], since)
  {
    assert forall k | 0 <= k < |es[1..]| :: es[1..][k] == es[k + 1];
  }

  /** Liveness, exactly: the packet is delivered if and only if enough of its shards arrived while the process
      lived, provided none was held longer than the timeout, whatever the order and whatever cleanups and other
      traffic came in between. */
  lemma {:induction false} DeliveredIff(f: Flow, st: Sessions, es: seq<Event>)
    requires f.Valid() && AllShaped(f.codec, st) && f.Key() !in st && PossibleRun(f, es) && Timely(es)
    ensures Deliver(f.packet) in Run(f, st, es) <==> Enough(f.codec, Arrived(Survived(f, st, es)))
  {
    var s := Survived(f, st, es);
    RunRefines(f, st, Held({}, 0), es);
    assert {} + Arrived(s) == Arrived(s);
    if Enough(f.codec, Arrived(s)) {
      SpecDelivers(f, Held({}, 0), s);
    }
    if Deliver(f.packet) in Run(f, st, es) {
      DeliveredHadEnough(f, Held({}, 0), s);
    }
  }

  /** On packets: if no session ever gets shards of different lengths, the process lives, and so the packet is
      delivered as soon as enough of its shards arrived. */
  lemma {:induction false} EnoughIsDelivered(f: Flow, st: Sessions, es: seq<Event>)
    requires f.Valid() && AllShaped(f.codec, st) && f.Key() !in st && PossibleRun(f, es) && Timely(es)
    requires EvenTraffic(f, st, es) && Enough(f.codec, Arrived(es))
    ensures Deliver(f.packet) in Run(f, st, es)
  {
    EvenTrafficSurvives(f, st, Held({}, 0), es);
    DeliveredIff(f, st, es);
  }

  lemma EnoughGrows(c: Fec.Codec, have: set<nat>, more: set<nat>)
    requires Enough(c, have) && have <= more
    ensures Enough(c, more)
  {
    SubsetSize(have, more);
    SubsetSize(DataIndices(c) - more, DataIndices(c) - have);
  }

  lemma {:induction false} DeliveredHadEnough(f: Flow, h: Held, es: seq<Event>)
    requires Deliver(f.packet) in SpecRun(f, h, es)
    ensures Enough(f.codec, h.shards + Arrived(es))
    decreases |es|
  {
    if es != [] {
      RunFirst(f, h, es, Deliver(f.packet));
      var h' := SpecStep(f, h, es[0]).0;
      var now := h.shards + if es[0].Arrive? then {es[0].index} else {};
      if Deliver(f.packet) in SpecStep(f, h, es[0]).1 {
        EnoughGrows(f.codec, now, h.shards + Arrived(es));
      } else {
        DeliveredHadEnough(f, h', es[1..]);
        HeldOnly(f, h, es[0]);
        EnoughGrows(f.codec, h'.shards + Arrived(es[1..]), h.shards + Arrived(es));
      }
    }
  }

  lemma HeldOnly(f: Flow, h: Held, e: Event)
    ensures SpecStep(f, h, e).0.shards <= h.shards + if e.Arrive? then {e.index} else {}
  {
  }

  lemma {:induction false} SpecDelivers(f: Flow, h: Held, es: seq<Event>)
    requires f.Valid() && Timely(es) && (h.shards != {} ==> TicksWithin(es, h.since))
    requires !Enough(f.codec, h.shards) && Enough(f.codec, h.shards + Arrived(es))
    ensures Deliver(f.packet) in SpecRun(f, h, es)
    decreases |es|
  {
    assert h.shards + {} == h.shards;
    if es != [] {
      RunFirst(f, h, es, Deliver(f.packet));
      if Deliver(f.packet) !in SpecStep(f, h, es[0]).1 {
        var h' := SpecStep(f, h, es[0]).0;
        HoldsOn(f, h, es, h');
        SpecDelivers(f, h', es[1..]);
      }
    }
  }

  lemma RunFirst(f: Flow, h: Held, es: seq<Event>, o: Outcome)
    requires es != []
    ensures o in SpecRun(f, h, es) <==>
              o in SpecStep(f, h, es[0]).1 || o in SpecRun(f, SpecStep(f, h, es[0]).0, es[1..])
  {
  }

  lemma HoldsOn(f: Flow, h: Held, es: seq<Event>, h': Held)
    requires es != [] && Timely(es) && (h.shards != {} ==> TicksWithin(es, h.since))
    requires !Enough(f.codec, h.shards) && h' == SpecStep(f, h, es[0]).0
        && Deliver(f.packet) !in SpecStep(f, h, es[0]).1
    ensures h'.shards + Arrived(es[1..]) == h.shards + Arrived(es) && !Enough(f.codec, h'.shards)
    ensures Timely(es[1..]) && (h'.shards != {} ==> TicksWithin(es[1..], h'.since))
  {
    StepHolds(f, h, es[0], h');
    TimelyTail(es);
  }

  /** A step that delivers nothing leaves all shards that arrived so far held. */
  lemma StepHolds(f: Flow, h: Held, e: Event, h': Held)
    requires !Enough(f.codec, h.shards) && h' == SpecStep(f, h, e).0 && Deliver(f.packet) !in SpecStep(f, h, e).1
    requires e.Tick? && h.shards != {} ==> e.now - h.since <= SESSION_TIMEOUT
    ensures h'.shards == (if e.Arrive? then h.shards + {e.index} else h.shards) && !Enough(f.codec, h'.shards)
    ensures (h'.shards == h.shards && h'.since == h.since) || (e.Arrive? && h'.since == e.now)
  {
    if e.Arrive? && e.index in h.shards {
      assert h.shards + {e.index} == h.shards;
    }
  }

  // ----- Other traffic -----

  /** A foreign packet that the receiver accepts for session `key`. */
  predicate AcceptedFor(f: Flow, e: Event, key: Key) {
    e.Foreign? && Validate(f.codec, e.pkt).None? && Key(e.peer, ParseHeader(e.pkt).session) == key
  }

  ghost predicate EvenSession(s: Session) {
    && |s.shards| == |s.present|
    && forall i, j | 0 <= i < |s.shards| && 0 <= j < |s.shards| && s.present[i] && s.present[j] ::
        |s.shards[i]| == |s.shards[j]|
  }

  /** The shard in `pkt` is as long as those the session already holds. */
  predicate Fits(s: Session, pkt: seq<byte>) {
    |s.shards| == |s.present| && forall i | 0 <= i < |s.shards| && s.present[i] :: HEADER_LEN + |s.shards[i]| == |pkt|
  }

  /** Any two accepted packets of one foreign session are equally long, also compared with what it held before. */
  ghost predicate EvenTraffic(f: Flow, st: Sessions, es: seq<Event>) {
    && (forall j, k, key | 0 <= j < |es| && 0 <= k < |es| && AcceptedFor(f, es[j], key) && AcceptedFor(f, es[k], key) ::
          |es[j].pkt| == |es[k].pkt|)
    && (forall key | key in st && key != f.Key() :: EvenSession(st[key]))
    && (forall k, key | 0 <= k < |es| && key in st && key != f.Key() && AcceptedFor(f, es[k], key) ::
        Fits(st[key], es[k].pkt))
  }

  lemma EvenNeverPanics(c: Fec.Codec, s: Session, size: nat)
    requires c.Valid() && Shaped(c, s) && EvenSession(s)
    ensures !DecodeOutcome(c, s, size).Crash?
  {
    if Fec.Decoded(c, s.shards, s.present).Panic? {
      Fec.OnlyOneMissing(s.present, c.dataShards);
      FirstIsPresent(s.shards, s.present, 0);
    }
  }

  lemma {:induction false} FirstIsPresent(shards: seq<seq<byte>>, present: seq<bool>, j: nat)
    requires j <= |shards| == |present| && Fec.FirstLength(shards, present, j) > 0
    ensures exists i | 0 <= i < |shards| :: present[i] && |shards[i]| == Fec.FirstLength(shards, present, j)
    decreases |shards| - j
  {
    if !(present[j] && |shards[j]| > 0) {
      FirstIsPresent(shards, present, j + 1);
    }
  }

  lemma AddKeepsEven(s: Session, i: nat, pkt: seq<byte>, now: int)
    requires i < |s.shards| && |pkt| > HEADER_LEN && EvenSession(s) && Fits(s, pkt)
    ensures EvenSession(AddShard(s, i, pkt[HEADER_LEN..], now)) && Fits(AddShard(s, i, pkt[HEADER_LEN..], now), pkt)
  {
  }

  /** What an accepted foreign packet leaves behind, and why its call does not panic. */
  lemma ForeignKeepsEven(c: Fec.Codec, st: Sessions, peer: string, pkt: seq<byte>, now: int, key: Key)
    requires c.Valid() && AllShaped(c, st) && Validate(c, pkt).None? && key == Key(peer, ParseHeader(pkt).session)
    requires key in st ==> EvenSession(st[key]) && Fits(st[key], pkt)
    ensures var (st', o) := Receive(c, st, peer, pkt, now);
            !o.Crash? && st' - {key} == st - {key} && (key in st' ==> EvenSession(st'[key]) && Fits(st'[key], pkt))
  {
    var h := ParseHeader(pkt);
    var s0 := SessionFor(c, st, key, h.size, now);
    AddKeepsEven(s0, h.index, pkt, now);
    EvenNeverPanics(c, AddShard(s0, h.index, pkt[HEADER_LEN..], now), h.size);
  }

  lemma ForeignEvenStep(f: Flow, st: Sessions, es: seq<Event>)
    requires f.Valid() && AllShaped(f.codec, st) && PossibleRun(f, es) && es != [] && es[0].Foreign?
    requires EvenTraffic(f, st, es)
    ensures !Crashes(f, st, es[0]) && EvenTraffic(f, Step(f, st, es[0]).0, es[1..])
  {
    var e := es[0];
    if Validate(f.codec, e.pkt).None? {
      var key := Key(e.peer, ParseHeader(e.pkt).session);
      assert AcceptedFor(f, e, key);
      ForeignKeepsEven(f.codec, st, e.peer, e.pkt, e.now, key);
      assert forall k | k != key :: k in Step(f, st, e).0 <==> k in st - {key};
    }
    EvenTail(f, st, es, Step(f, st, e).0);
  }

  lemma ArriveTouchesOwn(f: Flow, st: Sessions, i: nat, now: int)
    requires f.Valid() && AllShaped(f.codec, st) && i < f.codec.Total()
    ensures var st' := Step(f, st, Arrive(i, now)).0;
            forall key | key in st' && key != f.Key() :: key in st && st'[key] == st[key]
  {
    WireParses(f, i);
  }

  lemma EvenStep(f: Flow, st: Sessions, h: Held, es: seq<Event>)
    requires f.Valid() && AllShaped(f.codec, st) && Related(f, st, h) && PossibleRun(f, es) && es != []
    requires EvenTraffic(f, st, es)
    ensures !Crashes(f, st, es[0]) && EvenTraffic(f, Step(f, st, es[0]).0, es[1..])
  {
    match es[0]
    case Foreign(_, _, _) => ForeignEvenStep(f, st, es);
    case Arrive(i, now) =>
      ArriveRefines(f, st, h, i, now);
      ArriveTouchesOwn(f, st, i, now);
      EvenTail(f, st, es, Step(f, st, es[0]).0);
    case Tick(now) =>
      EvenTail(f, st, es, Step(f, st, es[0]).0);
  }

  /** A step that leaves every other session alone, or adds an equally long shard to one, keeps traffic even. */
  lemma EvenTail(f: Flow, st: Sessions, es: seq<Event>, st': Sessions)
    requires es != [] && EvenTraffic(f, st, es)
    requires forall key | key in st' && key != f.Key() ::
               (key in st && st'[key] == st[key]) || (AcceptedFor(f, es[0], key) && EvenSession(st'[key])
                   && Fits(st'[key], es[0].pkt))
    ensures EvenTraffic(f, st', es[1..])
  {
    assert forall k | 0 <= k < |es[1..]| :: es[1..][k] == es[k + 1];
  }

  lemma {:induction false} EvenTrafficSurvives(f: Flow, st: Sessions, h: Held, es: seq<Event>)
    requires f.Valid() && AllShaped(f.codec, st) && Related(f, st, h) && PossibleRun(f, es)
    requires EvenTraffic(f, st, es)
    ensures Survived(f, st, es) == es
    decreases |es|
  {
    if es != [] {
      EvenStep(f, st, h, es);
      StepRefines(f, st, h, es[0]);
      EvenTrafficSurvives(f, Step(f, st, es[0]).0, SpecStep(f, h, es[0]).0, es[1..]);
    }
  }

  // ----- The panic is reachable -----

  /** Shard `i` of another session, with data shards of two bytes and a parity shard of one. */
  predicate OddEvent(f: Flow, peer: string, session: u32, i: nat, e: Event)
    requires f.Valid() && i < f.codec.Total()
  {
    && e.Foreign? && e.peer == peer && e.now == 0 && |e.pkt| > HEADER_LEN
    && ParseHeader(e.pkt) == Header(session, i, f.codec.Total(), 2)
    && e.pkt[HEADER_LEN..] == if i < f.codec.dataShards then [7, 7] else [7]
  }

  /** The data shards but the first, then the first parity shard. */
  ghost predicate OddEvents(f: Flow, peer: string, session: u32, es: seq<Event>)
    requires f.Valid()
  {
    |es| >= f.codec.dataShards && forall k | 0 <= k < f.codec.dataShards :: OddEvent(f, peer, session, k + 1, es[k])
  }

  lemma OddEventsExist(f: Flow, peer: string, session: u32) returns (es: seq<Event>)
    requires f.Valid()
    ensures |es| == f.codec.dataShards && OddEvents(f, peer, session, es)
  {
    var d := f.codec.dataShards;
    es := seq(d, k requires 0 <= k < d => Foreign(peer, OddFrame(f, session, k + 1), 0));
  }

  function OddFrame(f: Flow, session: u32, i: nat): seq<byte>
    requires f.Valid() && i < f.codec.Total()
  {
    FrameBody(Header(session, i, f.codec.Total(), 2), if i < f.codec.dataShards then [7, 7] else [7])
  }

  /** The session map once its data shards 1 to `n` have arrived. */
  function OddState(f: Flow, key: Key, n: nat): (st: Sessions)
    requires f.Valid()
    ensures AllShaped(f.codec, st)
  {
    var t := f.codec.Total();
    if n == 0 then map[]
    else map[key := Session(seq(t, k requires 0 <= k < t => if 1 <= k <= n then [7, 7] else []),
                            seq(t, k requires 0 <= k < t => 1 <= k <= n), n, 0, 2)]
  }

  lemma OddShardAdded(f: Flow, key: Key, n: nat)
    requires f.Valid() && n + 1 < f.codec.dataShards
    ensures OddState(f, key, n + 1)
         == map[key := AddShard(SessionFor(f.codec, OddState(f, key, n), key, 2, 0), n + 1, [7, 7], 0)]
  {
    var s := SessionFor(f.codec, OddState(f, key, n), key, 2, 0);
    var t := OddState(f, key, n + 1)[key];
    assert t.shards == s.shards[n + 1 := [7, 7]];
    assert t.present == s.present[n + 1 := true];
  }

  /** A foreign event after which the process goes on in state `st'`. */
  ghost predicate Quiet(f: Flow, st: Sessions, e: Event, st': Sessions) {
    && f.Valid() && AllShaped(f.codec, st) && e.Foreign? && Possible(f, e)
    && !Crashes(f, st, e) && Step(f, st, e).0 == st'
  }

  lemma OddShardIsQuiet(f: Flow, peer: string, session: u32, n: nat, e: Event, st: Sessions, st': Sessions)
    requires f.Valid() && n + 1 < f.codec.dataShards && Key(peer, session) != f.Key()
    requires OddEvent(f, peer, session, n + 1, e)
    requires st == OddState(f, Key(peer, session), n) && st' == OddState(f, Key(peer, session), n + 1)
    ensures Quiet(f, st, e, st')
  {
    OddShardAdded(f, Key(peer, session), n);
  }

  lemma OddParityPanics(f: Flow, peer: string, session: u32, e: Event, st: Sessions)
    requires f.Valid() && f.codec.dataShards >= 2 && OddEvent(f, peer, session, f.codec.dataShards, e)
    requires st == OddState(f, Key(peer, session), f.codec.dataShards - 1)
    ensures Receive(f.codec, st, peer, e.pkt, 0).1.Crash?
  {
    var c, d := f.codec, f.codec.dataShards;
    var s := AddShard(st[Key(peer, session)], d, [7], 0);
    assert Fec.UnevenAt(c, s.shards, s.present, 0, d, 1);
    Fec.UnevenPanics(c, s.shards, s.present, 0, d, 1);
  }

  /** Quiet events lead from state to state; the last event panics. */
  lemma {:induction false} RunQuiet(f: Flow, sts: seq<Sessions>, es: seq<Event>)
    requires f.Valid() && 0 < |sts| <= |es| && PossibleRun(f, es)
    requires forall k | 0 <= k < |sts| - 1 :: Quiet(f, sts[k], es[k], sts[k + 1])
    requires AllShaped(f.codec, sts[0]) && AllShaped(f.codec, sts[|sts| - 1])
    requires es[|sts| - 1].Foreign? && Crashes(f, sts[|sts| - 1], es[|sts| - 1])
    ensures Run(f, sts[0], es) == []
    decreases |sts|
  {
    if |sts| > 1 {
      assert Quiet(f, sts[0], es[0], sts[1]);
      forall k | 0 <= k < |sts| - 2 ensures Quiet(f, sts[1..][k], es[1..][k], sts[1..][k + 1]) {
        assert Quiet(f, sts[k + 1], es[k + 1], sts[k + 2]);
      }
      RunQuiet(f, sts[1..], es[1..]);
    }
  }

  /** With two or more data shards, `dataShards` packets for any other session end the process, so that nothing
      is delivered whatever follows ... */
  lemma {:induction false} ForeignPanic(f: Flow, peer: string, session: u32, es: seq<Event>)
    requires f.Valid() && f.codec.dataShards >= 2 && Key(peer, session) != f.Key()
    requires PossibleRun(f, es) && OddEvents(f, peer, session, es)
    ensures Run(f, map[], es) == []
  {
    var sts := OddTrail(f, Key(peer, session));
    OddTrailIsQuiet(f, peer, session, es, sts);
    OddParityPanics(f, peer, session, es[|sts| - 1], sts[|sts| - 1]);
    RunQuiet(f, sts, es);
  }

  lemma OddTrailIsQuiet(f: Flow, peer: string, session: u32, es: seq<Event>, sts: seq<Sessions>)
    requires f.Valid() && f.codec.dataShards >= 2 && Key(peer, session) != f.Key()
    requires OddEvents(f, peer, session, es) && sts == OddTrail(f, Key(peer, session))
    ensures forall k | 0 <= k < |sts| - 1 :: Quiet(f, sts[k], es[k], sts[k + 1])
  {
    forall k | 0 <= k < |sts| - 1 ensures Quiet(f, sts[k], es[k], sts[k + 1]) {
      OddShardIsQuiet(f, peer, session, k, es[k], sts[k], sts[k + 1]);
    }
  }

  function OddTrail(f: Flow, key: Key): seq<Sessions>
    requires f.Valid()
  {
    seq(f.codec.dataShards, k requires 0 <= k < f.codec.dataShards => OddState(f, key, k))
  }

  /** ... and with one data shard no call ever panics. */
  lemma {:induction false} OneDataShardNeverPanics(c: Fec.Codec, st: Sessions, peer: string, pkt: seq<byte>, now: int)
    requires c.Valid() && c.dataShards == 1 && AllSane(c, st)
    ensures AllShaped(c, st) && !Receive(c, st, peer, pkt, now).1.Crash?
  {
    CallPanicsIff(c, st, peer, pkt, now);
  }
}
