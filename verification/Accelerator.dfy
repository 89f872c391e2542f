/** The flow-verdict cache of pkg/xdp/accelerator.go against the classifier it fronts. */
module Accelerator {
  import opened Bytes
  import opened Classifier

  type Verdicts = map<FlowKey, bool>

  /** `Classify` as one step on the cache, for any classifier `f`. */
  function Classified(enabled: bool, cache: Verdicts, ip: seq<byte>, f: seq<byte> -> bool): (Verdicts, bool) {
    var key := KeyOf(ip);
    if !enabled || key.None? then (cache, f(ip))
    else if key.value in cache then (cache, cache[key.value])
    else (cache[key.value := f(ip)], f(ip))
  }

  class Cache {
    const enabled: bool
    var cache: Verdicts

    constructor (enabled: bool)
      ensures this.enabled == enabled && cache == map[]
    {
      this.enabled, cache := enabled, map[];
    }

    method Classify(ip: seq<byte>, f: seq<byte> -> bool) returns (verdict: bool)
      modifies this
      ensures (cache, verdict) == Classified(enabled, old(cache), ip, f)
    {
      if !enabled {
        return f(ip);
      }
      var key := KeyOf(ip);
      if key.None? {
        return f(ip);
      }
      if key.value in cache {
        return cache[key.value];
      }
      verdict := f(ip);
      cache := cache[key.value := verdict];
    }

    /** Deletes every entry. */
    method Flush()
      modifies this
      ensures cache == map[]
    {
      var todo := cache.Keys;
      while todo != {}
        invariant todo == cache.Keys
        decreases todo
      {
        var k :| k in todo;
        cache := cache - {k};
        todo := todo - {k};
      }
    }
  }

  // ----- Call histories -----

  datatype Call = Classify(ip: seq<byte>) | Flush

  function After(enabled: bool, cache: Verdicts, calls: seq<Call>, f: seq<byte> -> bool): Verdicts
    decreases |calls|
  {
    if calls == [] then cache
    else
      var next := if calls[0].Flush? then map[] else Classified(enabled, cache, calls[0].ip, f).0;
      After(enabled, next, calls[1..], f)
  }

  /** The verdict on `ip` after a history of calls on a new accelerator. */
  function Verdict(enabled: bool, calls: seq<Call>, ip: seq<byte>, f: seq<byte> -> bool): bool {
    Classified(enabled, After(enabled, map[], calls, f), ip, f).1
  }

  /** The packet that decides for a flow: the first of the flow since the last flush, or `ip` itself. */
  function Decider(calls: seq<Call>, ip: seq<byte>): seq<byte>
  {
    if calls == [] then ip
    else
      var last := calls[|calls| - 1];
      if last.Flush? then ip
      else Decider(calls[..|calls| - 1], if KeyOf(last.ip) == KeyOf(ip) then last.ip else ip)
  }

  lemma {:induction false} AfterAppend(enabled: bool, cache: Verdicts, calls: seq<Call>, c: Call, f: seq<byte> -> bool)
    ensures After(enabled, cache, calls + [c], f)
         == (if c.Flush? then map[] else Classified(enabled, After(enabled, cache, calls, f), c.ip, f).0)
    decreases |calls|
  {
    if calls == [] {
      assert (calls + [c])[1..] == [];
    } else {
      assert (calls + [c])[1..] == calls[1..] + [c];
      var next := if calls[0].Flush? then map[] else Classified(enabled, cache, calls[0].ip, f).0;
      AfterAppend(enabled, next, calls[1..], c, f);
    }
  }

  /** Over every call history, an enabled accelerator gives each keyed packet the classifier's verdict on the
      first packet of its flow since the last flush. */
  lemma {:induction false} VerdictIsTheDeciders(calls: seq<Call>, ip: seq<byte>, f: seq<byte> -> bool)
    requires KeyOf(ip).Some?
    ensures KeyOf(Decider(calls, ip)) == KeyOf(ip)
    ensures Verdict(true, calls, ip, f) == f(Decider(calls, ip))
    decreases |calls|
  {
    if calls != [] {
      var n := |calls| - 1;
      var last := calls[n];
      assert calls == calls[..n] + [last];
      AfterAppend(true, map[], calls[..n], last, f);
      if last.Classify? {
        VerdictIsTheDeciders(calls[..n], if KeyOf(last.ip) == KeyOf(ip) then last.ip else ip, f);
      }
    }
  }

  ghost predicate FlowDetermined(f: seq<byte> -> bool) {
    forall p: seq<byte>, q: seq<byte> | KeyOf(p).Some? && KeyOf(p) == KeyOf(q) :: f(p) == f(q)
  }

  /** The cache is transparent over all call histories for a classifier that depends on the flow key alone ... */
  lemma CacheAgrees(enabled: bool, calls: seq<Call>, ip: seq<byte>, f: seq<byte> -> bool)
    requires FlowDetermined(f)
    ensures Verdict(enabled, calls, ip, f) == f(ip)
  {
    if enabled && KeyOf(ip).Some? {
      VerdictIsTheDeciders(calls, ip, f);
    }
  }

  /** ... and only for those: any flow with mixed verdicts gives a history with a wrong answer. */
  lemma MixedFlowDisagrees(p: seq<byte>, q: seq<byte>, f: seq<byte> -> bool)
    requires KeyOf(p).Some? && KeyOf(p) == KeyOf(q) && f(p) != f(q)
    ensures Verdict(true, [Classify(p)], q, f) != f(q)
  {
    VerdictIsTheDeciders([Classify(p)], q, f);
    assert [Classify(p)][..0] == [];
  }

  /** For the tunnel's own classifier the cached verdict is the fresh one on every flow of a listed service
      port whose packets are well formed, after any history. */
  lemma ServicePortsAgree(calls: seq<Call>, ip: seq<byte>)
    requires WellFormedTransport(ip)
    requires forall i | 0 <= i < |calls| && calls[i].Classify? :: WellFormedTransport(calls[i].ip)
    requires PortLikelyEncrypted(KeyOf(ip).value.srcPort) || PortLikelyEncrypted(KeyOf(ip).value.dstPort)
    ensures Verdict(true, calls, ip, LikelyEncrypted) == LikelyEncrypted(ip) == true
  {
    ServiceFlows(ip);
    VerdictIsTheDeciders(calls, ip, LikelyEncrypted);
    DeciderComesFrom(calls, ip);
    ServiceFlows(Decider(calls, ip));
  }

  lemma {:induction false} DeciderComesFrom(calls: seq<Call>, ip: seq<byte>)
    requires WellFormedTransport(ip)
    requires forall i | 0 <= i < |calls| && calls[i].Classify? :: WellFormedTransport(calls[i].ip)
    ensures WellFormedTransport(Decider(calls, ip))
    decreases |calls|
  {
    if calls != [] && calls[|calls| - 1].Classify? {
      var n := |calls| - 1;
      DeciderComesFrom(calls[..n], if KeyOf(calls[n].ip) == KeyOf(ip) then calls[n].ip else ip);
    }
  }
}
