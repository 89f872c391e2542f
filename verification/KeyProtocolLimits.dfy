/** What the premises of the no-loss theorem are for: short runs that drop one of them lose a packet. */
module KeyProtocolLimits {
  import opened Bytes
  import opened KeyRing
  import opened KeyProtocol

  predicate Distinct(k0: string, k1: string) {
    GoodKey(k0) && GoodKey(k1) && k0 != k1
  }

  lemma RunCons(s: System, a: Action, rest: seq<Action>)
    ensures Run(s, [a] + rest) == Run(Next(s, a), rest)
  {
    assert ([a] + rest)[1..] == rest;
  }

  lemma {:induction false} RunSplit(s: System, a: seq<Action>, b: seq<Action>)
    ensures Run(s, a + b) == Run(Run(s, a), b)
    decreases |a|
  {
    if a == [] {
      assert a + b == b;
    } else {
      assert (a + b)[1..] == a[1..] + b;
      RunSplit(Next(s, a[0]), a[1..], b);
    }
  }

  lemma RunOne(s: System, a: Action)
    ensures Run(s, [a]) == Next(s, a)
  {
    RunCons(s, a, []);
    assert [a] + [] == [a];
  }

  /** The state after a push whose announcement the client has handled: both switched, nothing else in flight. */
  lemma AfterSwitch(s: System, k1: string)
    requires s.server.cipher.Some? && s.client.cipher.Some? && GoodKey(k1)
    requires s.down == [] && Key(s.client) == (if s.pin.Some? then s.pin.value.cipher.key else Key(s.server))
    ensures var t := Next(Next(s, Push(k1, 0)), ClientReceive(0));
            && t.server == Rotated(s.server, k1, 0) && t.client.cipher.Some? && Key(t.client) == k1
            && t.client.prev == s.client.cipher && t.client.prevExp == GRACE
            && t.down == [] && t.up == s.up && t.pin == s.pin && t.lost == s.lost
  {
  }

  /** Two rotations outstanding: the server forgets the key the client still uses. */
  lemma TwoRotationsOutstanding(k0: string, k1: string, k2: string)
    requires Distinct(k0, k1) && Distinct(k1, k2) && k0 != k2
    ensures Run(Connected(k0), [Push(k1, 0), Push(k2, 0), ClientSend(1), ServerReceive(0)]).lost == 1
  {
    var s0 := Connected(k0);
    var acts := [Push(k1, 0), Push(k2, 0), ClientSend(1), ServerReceive(0)];
    var s1 := Next(s0, acts[0]);
    var s2 := Next(s1, acts[1]);
    var s3 := Next(s2, acts[2]);
    assert s3.up[0] == Sealed(k0, 0, Data(1)) && Key(s3.server) == k2 && s3.server.prev.value.key == k1;
    RunFour(s0, acts);
  }

  lemma RunFour(s: System, acts: seq<Action>)
    requires |acts| == 4
    ensures Run(s, acts) == Next(Next(Next(Next(s, acts[0]), acts[1]), acts[2]), acts[3])
  {
    RunCons(s, acts[0], acts[1..]);
    assert acts == [acts[0]] + acts[1..];
    var s1 := Next(s, acts[0]);
    RunCons(s1, acts[1], acts[2..]);
    assert acts[1..] == [acts[1]] + acts[2..];
    var s2 := Next(s1, acts[1]);
    RunCons(s2, acts[2], acts[3..]);
    assert acts[2..] == [acts[2]] + acts[3..];
    RunOne(Next(s2, acts[2]), acts[3]);
    assert acts[3..] == [acts[3]];
  }

  /** The server's grace ends while the client has yet to switch. */
  lemma ServerGraceEndsEarly(k0: string, k1: string)
    requires Distinct(k0, k1)
    ensures Run(Connected(k0), [Push(k1, 0), ServerExpire, ClientSend(1), ServerReceive(0)]).lost == 1
  {
    var s0 := Connected(k0);
    var acts := [Push(k1, 0), ServerExpire, ClientSend(1), ServerReceive(0)];
    RunFour(s0, acts);
    var s3 := Next(Next(Next(s0, acts[0]), acts[1]), acts[2]);
    assert s3.up[0] == Sealed(k0, 0, Data(1)) && Key(s3.server) == k1 && s3.server.prev.None?;
  }

  /** An old packet arrives after the grace period, though no timer has gone off. */
  lemma ArrivesAfterGrace(k0: string, k1: string)
    requires Distinct(k0, k1)
    ensures Run(Connected(k0), [ClientSend(1), Push(k1, 0), ServerSend(2), ServerReceive(GRACE + 1)]).lost == 1
  {
    var s0 := Connected(k0);
    var acts := [ClientSend(1), Push(k1, 0), ServerSend(2), ServerReceive(GRACE + 1)];
    RunFour(s0, acts);
    var s3 := Next(Next(Next(s0, acts[0]), acts[1]), acts[2]);
    assert s3.up[0] == Sealed(k0, 0, Data(1)) && Key(s3.server) == k1 && s3.server.prevExp == GRACE;
  }

  /** The client's grace ends while the server still answers under the pinned old key. */
  lemma ClientGraceEndsEarly(k0: string, k1: string)
    requires Distinct(k0, k1)
    ensures var acts := [Push(k1, 0), ClientReceive(0)] + [ClientExpire, ServerSend(1), ClientReceive(0)];
            Run(Connected(k0), acts).lost == 1
  {
    var s0 := Connected(k0);
    AfterSwitch(s0, k1);
    var s2 := Next(Next(s0, Push(k1, 0)), ClientReceive(0));
    RunTwo(s0, [Push(k1, 0), ClientReceive(0)]);
    RunSplit(s0, [Push(k1, 0), ClientReceive(0)], [ClientExpire, ServerSend(1), ClientReceive(0)]);
    var s4 := Next(Next(s2, ClientExpire), ServerSend(1));
    assert s4.down[0] == Sealed(k0, 0, Data(1)) && s4.client.prev.None?;
    RunThree(s2, [ClientExpire, ServerSend(1), ClientReceive(0)]);
  }

  lemma RunTwo(s: System, acts: seq<Action>)
    requires |acts| == 2
    ensures Run(s, acts) == Next(Next(s, acts[0]), acts[1])
  {
    RunCons(s, acts[0], acts[1..]);
    assert acts == [acts[0]] + acts[1..] && acts[1..] == [acts[1]];
    RunOne(Next(s, acts[0]), acts[1]);
  }

  lemma RunThree(s: System, acts: seq<Action>)
    requires |acts| == 3
    ensures Run(s, acts) == Next(Next(Next(s, acts[0]), acts[1]), acts[2])
  {
    RunCons(s, acts[0], acts[1..]);
    assert acts == [acts[0]] + acts[1..];
    RunTwo(Next(s, acts[0]), acts[1..]);
  }

  /** Announcing and rotating as separate steps: the client is faster than the server. */
  lemma PushNotAtomic(k0: string, k1: string)
    requires Distinct(k0, k1)
    ensures var acts := [Announce(k1), ClientReceive(0), ClientSend(1), ServerReceive(0)] + [RotateServer(k1, 0)];
            Run(Connected(k0), acts).lost == 1
  {
    var s0 := Connected(k0);
    var acts := [Announce(k1), ClientReceive(0), ClientSend(1), ServerReceive(0)];
    RunFour(s0, acts);
    RunSplit(s0, acts, [RotateServer(k1, 0)]);
    RunOne(Run(s0, acts), RotateServer(k1, 0));
    var s2 := Next(Next(s0, acts[0]), acts[1]);
    assert s2.client.cipher.Some? && Key(s2.client) == k1;
    var s3 := Next(s2, acts[2]);
    assert s3.up[0] == Sealed(k1, 0, Data(1)) && Key(s3.server) == k0 && s3.server.prev.None?;
  }

  /** Reordering: a packet under the new key overtakes one under the old key and retires it. */
  lemma ReorderedUplink(k0: string, k1: string)
    requires Distinct(k0, k1)
    ensures var acts := [ClientSend(1)] + [Push(k1, 0), ClientReceive(0)]
                        + [ClientSend(2), ReorderUp, ServerReceive(0), ServerReceive(0)];
            Run(Connected(k0), acts).lost == 1
  {
    var s0 := Connected(k0);
    var s1 := Next(s0, ClientSend(1));
    RunOne(s0, ClientSend(1));
    AfterSwitch(s1, k1);
    RunTwo(s1, [Push(k1, 0), ClientReceive(0)]);
    var s3 := Next(Next(s1, Push(k1, 0)), ClientReceive(0));
    var tail := [ClientSend(2), ReorderUp, ServerReceive(0), ServerReceive(0)];
    RunSplit(s0, [ClientSend(1)], [Push(k1, 0), ClientReceive(0)]);
    RunSplit(s0, [ClientSend(1)] + [Push(k1, 0), ClientReceive(0)], tail);
    RunFour(s3, tail);
    var s5 := Next(Next(s3, tail[0]), tail[1]);
    assert s5.up == [Sealed(k1, 0, Data(2)), Sealed(k0, 0, Data(1))];
    assert Key(s5.server) == k1;
    var s6 := Next(s5, tail[2]);
    assert s6.up == [Sealed(k0, 0, Data(1))] && s6.server.prev.None? && Key(s6.server) == k1;
  }

  /** An old packet arrives at the client after its grace period, though no timer has gone off. */
  lemma ArrivesLateAtClient(k0: string, k1: string)
    requires Distinct(k0, k1)
    ensures Run(Connected(k0), [Push(k1, 0), ClientReceive(0), ServerSend(1), ClientReceive(GRACE + 1)]).lost == 1
  {
    var s0 := Connected(k0);
    var acts := [Push(k1, 0), ClientReceive(0), ServerSend(1), ClientReceive(GRACE + 1)];
    AfterSwitch(s0, k1);
    RunFour(s0, acts);
    var s3 := Next(Next(Next(s0, acts[0]), acts[1]), acts[2]);
    assert s3.down == [Sealed(k0, 0, Data(1))] && Key(s3.client) == k1 && s3.client.prevExp == GRACE;
  }

  /** The client has switched, but the server's grace ends with an old packet of its in flight. */
  lemma ServerExpiresOverPacket(k0: string, k1: string)
    requires Distinct(k0, k1)
    ensures var acts := [ClientSend(1), Push(k1, 0), ClientReceive(0)] + [ServerExpire, ServerReceive(0)];
            Run(Connected(k0), acts).lost == 1
  {
    var s0 := Connected(k0);
    var s1 := Next(s0, ClientSend(1));
    AfterSwitch(s1, k1);
    RunSplit(s0, [ClientSend(1), Push(k1, 0), ClientReceive(0)], [ServerExpire, ServerReceive(0)]);
    RunThree(s0, [ClientSend(1), Push(k1, 0), ClientReceive(0)]);
    var s3 := Next(Next(s1, Push(k1, 0)), ClientReceive(0));
    RunTwo(s3, [ServerExpire, ServerReceive(0)]);
    var s4 := Next(s3, ServerExpire);
    assert s4.up == [Sealed(k0, 0, Data(1))] && Key(s4.server) == k1 && s4.server.prev.None?;
  }

  /** Both ends have switched and know it of each other; one old packet is still on its way to the client. */
  lemma OneOldPacketDown(k0: string, k1: string) returns (s: System)
    requires Distinct(k0, k1)
    ensures s == Run(Connected(k0), [Push(k1, 0), ServerSend(1), ClientReceive(0)] + [ClientSend(2), ServerReceive(0)])
    ensures s.pin.Some? && s.pin.value.cipher.key == k1 && s.client.cipher.Some? && Key(s.client) == k1
    ensures s.down == [Sealed(k0, 0, Data(1))] && s.lost == 0 && s.client.prev.Some? && s.client.prev.value.key == k0
  {
    var s0 := Connected(k0);
    RunSplit(s0, [Push(k1, 0), ServerSend(1), ClientReceive(0)], [ClientSend(2), ServerReceive(0)]);
    RunThree(s0, [Push(k1, 0), ServerSend(1), ClientReceive(0)]);
    var s2 := Next(Next(s0, Push(k1, 0)), ServerSend(1));
    assert s2.down == [Sealed(k0, 0, ConfigUpdate(k1)), Sealed(k0, 0, Data(1))] && Key(s2.client) == k0;
    var s3 := Next(s2, ClientReceive(0));
    assert Key(s3.client) == k1 && s3.down == [Sealed(k0, 0, Data(1))] && s3.up == [] && Key(s3.server) == k1;
    RunTwo(s3, [ClientSend(2), ServerReceive(0)]);
    s := Next(Next(s3, ClientSend(2)), ServerReceive(0));
  }

  /** The server has heard the client on the new key, but the client's grace ends with an old packet in flight. */
  lemma ClientExpiresOverPacket(k0: string, k1: string)
    requires Distinct(k0, k1)
    ensures var acts := [Push(k1, 0), ServerSend(1), ClientReceive(0)] + [ClientSend(2), ServerReceive(0)]
                        + [ClientExpire, ClientReceive(0)];
            Run(Connected(k0), acts).lost == 1
  {
    var s := OneOldPacketDown(k0, k1);
    RunSplit(Connected(k0), [Push(k1, 0), ServerSend(1), ClientReceive(0)] + [ClientSend(2), ServerReceive(0)],
             [ClientExpire, ClientReceive(0)]);
    RunTwo(s, [ClientExpire, ClientReceive(0)]);
  }

  /** Reordering towards the client: a packet under the new key overtakes one under the old key. */
  lemma ReorderedDownlink(k0: string, k1: string)
    requires Distinct(k0, k1)
    ensures var acts := [Push(k1, 0), ServerSend(1), ClientReceive(0)] + [ClientSend(2), ServerReceive(0)]
                        + [ServerSend(3), ReorderDown, ClientReceive(0), ClientReceive(0)];
            Run(Connected(k0), acts).lost == 1
  {
    var s := OneOldPacketDown(k0, k1);
    var tail := [ServerSend(3), ReorderDown, ClientReceive(0), ClientReceive(0)];
    RunSplit(Connected(k0), [Push(k1, 0), ServerSend(1), ClientReceive(0)] + [ClientSend(2), ServerReceive(0)], tail);
    RunFour(s, tail);
    var s7 := Next(Next(s, tail[0]), tail[1]);
    assert s7.down == [Sealed(k1, 0, Data(3)), Sealed(k0, 0, Data(1))];
    var s8 := Next(s7, tail[2]);
    assert s8.down == [Sealed(k0, 0, Data(1))] && s8.client.prev.None? && Key(s8.client) == k1;
  }

  /** No cipher pinned: the server answers under the new key at once, then a late old packet pins it to the
      old key, which the client has retired by then. */
  lemma NothingPinned(k0: string, k1: string)
    requires Distinct(k0, k1)
    ensures var acts := [ClientSend(1)] + [Push(k1, 0), ClientReceive(0)] + [ServerSend(2), ClientReceive(0)]
                        + [ServerReceive(0), ServerSend(3), ClientReceive(0)];
            Run(Connected(k0).(pin := None), acts).lost == 1
  {
    var s0 := Connected(k0).(pin := None);
    var a, b, c, d := [ClientSend(1)], [Push(k1, 0), ClientReceive(0)], [ServerSend(2), ClientReceive(0)],
                      [ServerReceive(0), ServerSend(3), ClientReceive(0)];
    RunSplit(s0, a, b);
    RunSplit(s0, a + b, c);
    RunSplit(s0, a + b + c, d);
    var s1 := Next(s0, ClientSend(1));
    RunOne(s0, ClientSend(1));
    AfterSwitch(s1, k1);
    RunTwo(s1, b);
    var s3 := Next(Next(s1, b[0]), b[1]);
    RunTwo(s3, c);
    var s4 := Next(s3, c[0]);
    assert s4.down == [Sealed(k1, 0, Data(2))];
    var s5 := Next(s4, c[1]);
    assert s5.client.prev.None? && Key(s5.client) == k1 && s5.up == [Sealed(k0, 0, Data(1))] && s5.lost == 0;
    RunThree(s5, d);
    var s6 := Next(s5, d[0]);
    assert s6.pin.Some? && s6.pin.value.cipher.key == k0;
    var s7 := Next(s6, d[1]);
    assert s7.down == [Sealed(k0, 0, Data(3))];
  }
}
