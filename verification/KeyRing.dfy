/** Cipher rotation with a grace period: the active and the previous cipher of a tunnel endpoint, the
    per-client pinned cipher and the expiry timers (pkg/tunnel/tunnel.go). AES-GCM is symbolic: a sealed
    packet opens under the key it was sealed with and under no other. */
module KeyRing {
  import opened Bytes

  const GRACE := 15_000_000_000  // nanoseconds
  const MIN_KEY_LEN := 16

  /** A cipher object. `id` is its identity: the tunnel compares ciphers by pointer. */
  datatype Cipher = Cipher(id: nat, key: string)

  /** What a packet says once opened. */
  datatype Body = Data(id: nat) | ConfigUpdate(key: string)

  /** A packet on the wire. `looksEncrypted` is the receiver's classification of an unsealed data packet. */
  datatype Packet = Sealed(key: string, nonce: nat, body: Body) | Clear(body: Body, looksEncrypted: bool)

  predicate Opens(c: Option<Cipher>, p: Packet) {
    c.Some? && p.Sealed? && p.key == c.value.key
  }

  /** The fields `cipher`, `cipherGen`, `prevCipher`, `prevCipherGen`, `prevCipherExp`; `nextId` counts
      the cipher objects allocated so far. */
  datatype Ring = Ring(cipher: Option<Cipher>, gen: nat, prev: Option<Cipher>, prevGen: nat, prevExp: int, nextId: nat)

  datatype Opened = Opened(body: Body, used: Option<Cipher>, gen: nat) | Failed

  function NewRing(key: string): Ring {
    if key == "" then Ring(None, 0, None, 0, 0, 0)
    else Ring(Some(Cipher(0, key)), 1, None, 0, 0, 1)
  }

  predicate GoodKey(key: string) {
    |key| >= MIN_KEY_LEN
  }

  function Rotated(r: Ring, key: string, now: int): Ring {
    if !GoodKey(key) then r
    else
      var made := Some(Cipher(r.nextId, key));
      if r.cipher.Some? then Ring(made, r.gen + 1, r.cipher, r.gen, now + GRACE, r.nextId + 1)
      else Ring(made, r.gen + 1, None, 0, 0, r.nextId + 1)
  }

  /** Forget the previous cipher, but only if it is still `c`. */
  function Deactivated(r: Ring, c: Cipher): Ring {
    if r.prev == Some(c) then r.(prev := None, prevGen := 0, prevExp := 0) else r
  }

  /** `decryptWithFallback` as one step. */
  function Decrypted(r: Ring, p: Packet, now: int): (Ring, Opened) {
    if Opens(r.cipher, p) then
      (if r.prev.Some? then Deactivated(r, r.prev.value) else r, Opened(p.body, r.cipher, r.gen))
    else if r.prev.Some? && now <= r.prevExp && Opens(r.prev, p) then
      (r, Opened(p.body, r.prev, r.prevGen))
    else
      (if r.prev.Some? && now > r.prevExp then Deactivated(r, r.prev.value) else r,
       if (r.cipher.Some? || r.prev.Some?) && p.Clear? && p.looksEncrypted then Opened(p.body, None, 0) else Failed)
  }

  /** The cipher fields of a running tunnel. */
  class Tunnel {
    var cipher: Option<Cipher>
    var cipherGen: nat
    var prevCipher: Option<Cipher>
    var prevCipherGen: nat
    var prevCipherExp: int
    var ciphersMade: nat

    function View(): Ring reads this {
      Ring(cipher, cipherGen, prevCipher, prevCipherGen, prevCipherExp, ciphersMade)
    }

    constructor (key: string)
      ensures View() == NewRing(key)
    {
      cipher, cipherGen, ciphersMade := None, 0, 0;
      prevCipher, prevCipherGen, prevCipherExp := None, 0, 0;
      if key != "" {
        cipher, cipherGen, ciphersMade := Some(Cipher(0, key)), 1, 1;
      }
    }

    /** Returns whether the key was accepted; the previous cipher to expire is the one it replaced. */
    method RotateCipher(newKey: string, now: int) returns (ok: bool, expire: Option<Cipher>)
      modifies this
      ensures View() == Rotated(old(View()), newKey, now)
      ensures ok == GoodKey(newKey) && expire == if ok then old(cipher) else None
    {
      if newKey == "" || |newKey| < MIN_KEY_LEN {
        return false, None;
      }
      var oldCipher, oldGen := cipher, cipherGen;
      cipher, ciphersMade := Some(Cipher(ciphersMade, newKey)), ciphersMade + 1;
      cipherGen := cipherGen + 1;
      if oldCipher.Some? {
        prevCipher, prevCipherGen, prevCipherExp := oldCipher, oldGen, now + GRACE;
      } else {
        prevCipher, prevCipherGen, prevCipherExp := None, 0, 0;
      }
      return true, oldCipher;
    }

    method DeactivatePrevCipher(prev: Cipher)
      modifies this
      ensures View() == Deactivated(old(View()), prev)
    {
      if prevCipher != Some(prev) {
        return;
      }
      prevCipher, prevCipherGen, prevCipherExp := None, 0, 0;
    }

    method DecryptWithFallback(p: Packet, now: int) returns (o: Opened)
      modifies this
      ensures (View(), o) == Decrypted(old(View()), p, now)
    {
      var active, activeGen, prev, prevGen, exp := cipher, cipherGen, prevCipher, prevCipherGen, prevCipherExp;
      if Opens(active, p) {
        if prev.Some? && prevCipher == prev {
          DeactivatePrevCipher(prev.value);
        }
        return Opened(p.body, active, activeGen);
      }
      if prev.Some? {
        if now > exp && prevCipher == prev {
          DeactivatePrevCipher(prev.value);
        } else if Opens(prev, p) {
          return Opened(p.body, prev, prevGen);
        }
      }
      if (active.Some? || prev.Some?) && p.Clear? && p.looksEncrypted {
        return Opened(p.body, None, 0);
      }
      return Failed;
    }
  }

  // ----- A server with any number of clients and leftover timers -----

  datatype Pin = Pin(cipher: Cipher, gen: nat)
  datatype Timer = Timer(cipher: Cipher, armed: int)
  datatype Server = Server(ring: Ring, pins: map<nat, Pin>, timers: set<Timer>)

  datatype Event =
    | Rotate(key: string, now: int)
    | Receive(client: nat, packet: Packet, now: int)
    | Fire(timer: Timer, now: int)

  /** A timer goes off no earlier than a grace period after it was armed. */
  predicate Enabled(s: Server, e: Event) {
    e.Fire? ==> e.timer in s.timers && e.now >= e.timer.armed + GRACE
  }

  function Step(s: Server, e: Event): Server {
    match e
    case Rotate(key, now) =>
      Server(Rotated(s.ring, key, now), s.pins,
             if GoodKey(key) && s.ring.cipher.Some? then s.timers + {Timer(s.ring.cipher.value, now)} else s.timers)
    case Receive(client, p, now) =>
      var (ring, o) := Decrypted(s.ring, p, now);
      Server(ring, if o.Opened? && o.used.Some? then s.pins[client := Pin(o.used.value, o.gen)] else s.pins, s.timers)
    case Fire(timer, _) =>
      Server(Deactivated(s.ring, timer.cipher), s.pins, s.timers - {timer})
  }

  ghost predicate RingInv(r: Ring) {
    && (r.cipher.Some? ==> r.cipher.value.id < r.nextId && r.gen >= 1)
    && (r.cipher.None? ==> r.gen == 0)
    && (r.prev.Some? ==>
          r.cipher.Some? && r.gen == r.prevGen + 1 && r.prevGen >= 1 && r.prev.value.id < r.cipher.value.id)
    && (r.prev.None? ==> r.prevGen == 0)
  }

  /** No pin is ahead of the ring; while a previous cipher is kept, no client has confirmed the active one. */
  ghost predicate PinInv(r: Ring, p: Pin) {
    && p.gen <= r.gen
    && (r.prev.Some? ==> p.gen <= r.prevGen)
    && (p.gen == r.gen ==> Some(p.cipher) == r.cipher)
    && (r.prev.Some? && p.gen == r.prevGen ==> Some(p.cipher) == r.prev)
  }

  /** A pending timer is about a replaced cipher; if that is the current previous one, it is its own timer. */
  ghost predicate TimerInv(r: Ring, t: Timer) {
    && r.cipher.Some? && t.cipher.id < r.cipher.value.id
    && (r.prev.Some? && t.cipher.id == r.prev.value.id ==> t.cipher == r.prev.value && t.armed + GRACE == r.prevExp)
  }

  ghost predicate Inv(s: Server) {
    && RingInv(s.ring)
    && (forall c | c in s.pins :: PinInv(s.ring, s.pins[c]))
    && (forall t | t in s.timers :: TimerInv(s.ring, t))
  }

  lemma StepKeepsInv(s: Server, e: Event)
    requires Inv(s) && Enabled(s, e)
    ensures Inv(Step(s, e))
  {
    match e
    case Rotate(key, now) =>
      if GoodKey(key) && s.ring.cipher.Some? {
        RotateKeepsTimers(s, key, now);
      }
    case Receive(client, p, now) =>
    case Fire(timer, now) =>
  }

  lemma RotateKeepsTimers(s: Server, key: string, now: int)
    requires Inv(s) && GoodKey(key) && s.ring.cipher.Some?
    ensures forall t | t in Step(s, Rotate(key, now)).timers :: TimerInv(Rotated(s.ring, key, now), t)
  {
    forall t | t in Step(s, Rotate(key, now)).timers ensures TimerInv(Rotated(s.ring, key, now), t) {
      assert t in s.timers || t == Timer(s.ring.cipher.value, now);
    }
  }

  ghost predicate Runs(s: Server, es: seq<Event>)
    decreases |es|
  {
    es == [] || (Enabled(s, es[0]) && Runs(Step(s, es[0]), es[1..]))
  }

  function After(s: Server, es: seq<Event>): Server
    decreases |es|
  {
    if es == [] then s else After(Step(s, es[0]), es[1..])
  }

  function Start(key: string): Server {
    Server(NewRing(key), map[], {})
  }

  function PinnedGen(s: Server, client: nat): nat {
    if client in s.pins then s.pins[client].gen else 0
  }

  /** In every reachable state the invariant holds; in particular a previous cipher is exactly one
      generation behind and no client is pinned beyond the active generation. */
  lemma {:induction false} Reachable(key: string, es: seq<Event>)
    requires Runs(Start(key), es)
    ensures var r := After(Start(key), es).ring; r.prev.Some? ==> r.prevGen + 1 == r.gen
    ensures forall c :: PinnedGen(After(Start(key), es), c) <= After(Start(key), es).ring.gen
    ensures Inv(After(Start(key), es))
  {
    RunKeepsInv(Start(key), es);
  }

  lemma {:induction false} RunKeepsInv(s: Server, es: seq<Event>)
    requires Inv(s) && Runs(s, es)
    ensures Inv(After(s, es))
    decreases |es|
  {
    if es != [] {
      StepKeepsInv(s, es[0]);
      RunKeepsInv(Step(s, es[0]), es[1..]);
    }
  }

  /** Over every run, whatever the timing, no client's pinned generation ever goes backwards. */
  lemma {:induction false} PinsNeverGoBack(s: Server, es: seq<Event>, client: nat)
    requires Inv(s) && Runs(s, es)
    ensures PinnedGen(s, client) <= PinnedGen(After(s, es), client)
    decreases |es|
  {
    if es != [] {
      StepKeepsInv(s, es[0]);
      PinsNeverGoBack(Step(s, es[0]), es[1..], client);
    }
  }

  /** A leftover timer never cuts a newer cipher's grace short: a timer step removes the previous cipher
      only if it was armed by the rotation that retired that very cipher, and only once its grace is over. */
  lemma TimersAreTheirOwn(s: Server, e: Event)
    requires Inv(s) && Enabled(s, e) && e.Fire?
    ensures Step(s, e).ring.prev == s.ring.prev || (s.ring.prev == Some(e.timer.cipher) && e.now >= s.ring.prevExp)
    ensures Step(s, e).ring.cipher == s.ring.cipher && Step(s, e).ring.gen == s.ring.gen
  {
    assert TimerInv(s.ring, e.timer);
  }

  /** Over every run a previous cipher that is still kept has its timer pending. */
  lemma {:induction false} PrevHasItsTimer(key: string, es: seq<Event>)
    requires Runs(Start(key), es)
    ensures var s := After(Start(key), es);
            s.ring.prev.Some? ==> Timer(s.ring.prev.value, s.ring.prevExp - GRACE) in s.timers
    decreases |es|
  {
    if es != [] {
      var n := |es| - 1;
      assert es[..n] + [es[n]] == es;
      AfterAppend(Start(key), es[..n], es[n]);
      PrevHasItsTimer(key, es[..n]);
      Reachable(key, es[..n]);
    }
  }

  /** That timer can go off from the end of the grace period on, fifteen seconds after the rotation, and then nothing
      is left of the old key. */
  lemma GraceEnds(key: string, es: seq<Event>, newKey: string, rotated: int, now: int)
    requires Runs(Start(key), es) && |newKey| >= 16 && After(Start(key), es).ring.cipher.Some?
    ensures var s := Step(After(Start(key), es), Rotate(newKey, rotated));
            var retired := After(Start(key), es).ring.cipher.value;
            && s.ring.prev == Some(retired) && s.ring.prevExp == rotated + 15_000_000_000
            && var fire := Fire(Timer(retired, rotated), now);
               && (Enabled(s, fire) <==> now >= rotated + 15_000_000_000)
               && Step(s, fire).ring == s.ring.(prev := None, prevGen := 0, prevExp := 0)
               && Step(s, fire).pins == s.pins
  {
  }

  /** The first client heard on a new key retires the old key for everyone: a packet another client sealed
      before the switch can no longer be opened. */
  lemma FirstClientRetiresOldKey(s: Server, newcomer: nat, current: Packet, stale: Packet, now: int)
    requires Inv(s) && s.ring.prev.Some? && Opens(s.ring.cipher, current)
    requires Opens(s.ring.prev, stale) && !Opens(s.ring.cipher, stale)
    ensures now <= s.ring.prevExp ==> Decrypted(s.ring, stale, now).1 == Opened(stale.body, s.ring.prev, s.ring.prevGen)
    ensures Decrypted(Step(s, Receive(newcomer, current, now)).ring, stale, now).1 == Failed
  {
  }

  /** The event makes the ring forget its previous cipher: a packet opens under the active cipher, a packet
      arrives after the grace period, or the previous cipher's own timer goes off. */
  predicate Retires(r: Ring, e: Event)
    requires r.prev.Some?
  {
    match e
    case Rotate(_, _) => false
    case Receive(_, p, now) => Opens(r.cipher, p) || now > r.prevExp
    case Fire(timer, _) => timer.cipher == r.prev.value
  }

  /** No rotation to another key succeeds. */
  predicate NoRotation(es: seq<Event>) {
    forall k | 0 <= k < |es| && es[k].Rotate? :: !GoodKey(es[k].key)
  }

  lemma RetiresOrKeeps(s: Server, e: Event)
    requires Inv(s) && s.ring.prev.Some? && (e.Rotate? ==> !GoodKey(e.key))
    ensures var t := Step(s, e).ring;
            t == if Retires(s.ring, e) then s.ring.(prev := None, prevGen := 0, prevExp := 0) else s.ring
  {
  }

  /** Once forgotten, the old key stays so until the next rotation. */
  lemma {:induction false} StaysRetired(s: Server, es: seq<Event>)
    requires s.ring.prev.None? && NoRotation(es)
    ensures After(s, es).ring.prev.None? && After(s, es).ring.cipher == s.ring.cipher
    decreases |es|
  {
    if es != [] {
      StaysRetired(Step(s, es[0]), es[1..]);
    }
  }

  /** Exactly when the old key is retired: over every run up to the next rotation, a packet sealed under it that
      arrives in time opens if and only if no event of the run retired it. */
  lemma {:induction false} OldPacketOpensIff(s: Server, es: seq<Event>, stale: Packet, now: int)
    requires Inv(s) && s.ring.prev.Some? && Runs(s, es) && NoRotation(es)
    requires Opens(s.ring.prev, stale) && !Opens(s.ring.cipher, stale) && now <= s.ring.prevExp
    ensures Decrypted(After(s, es).ring, stale, now).1 ==
            if exists k | 0 <= k < |es| :: Retires(s.ring, es[k]) then Failed
            else Opened(stale.body, s.ring.prev, s.ring.prevGen)
    decreases |es|
  {
    if es != [] {
      var t := Step(s, es[0]);
      RetiresOrKeeps(s, es[0]);
      if Retires(s.ring, es[0]) {
        StaysRetired(t, es[1..]);
      } else {
        StepKeepsInv(s, es[0]);
        OldPacketOpensIff(t, es[1..], stale, now);
        assert forall k | 1 <= k < |es| :: es[k] == es[1..][k - 1];
        assert forall k | 0 <= k < |es[1..]| :: es[1..][k] == es[k + 1];
      }
    }
  }

  /** In particular, while its grace lasts the old key is retired by the first client heard on the new key, and
      by nothing else. */
  lemma OnlyAConfirmationRetires(s: Server, es: seq<Event>, stale: Packet, now: int)
    requires Inv(s) && s.ring.prev.Some? && Runs(s, es) && NoRotation(es)
    requires Opens(s.ring.prev, stale) && !Opens(s.ring.cipher, stale) && now <= s.ring.prevExp
    requires forall k | 0 <= k < |es| && es[k].Receive? :: es[k].now <= s.ring.prevExp
    requires forall k | 0 <= k < |es| && es[k].Fire? :: es[k].timer.cipher != s.ring.prev.value
    ensures Decrypted(After(s, es).ring, stale, now).1.Opened? <==>
              !exists k | 0 <= k < |es| :: es[k].Receive? && Opens(s.ring.cipher, es[k].packet)
  {
    OldPacketOpensIff(s, es, stale, now);
  }

  /** ... which does happen: two clients confirm a key, the server rotates, the first client answers under the
      new key, and the second, which has not switched yet, is no longer heard within the grace period. */
  lemma SecondClientIsCutOff(k0: string, k1: string, body: Body)
    requires k0 != "" && GoodKey(k1) && k0 != k1
    ensures var es := [Receive(0, Sealed(k0, 0, body), 0), Receive(1, Sealed(k0, 1, body), 0), Rotate(k1, 0),
                       Receive(0, Sealed(k1, 2, body), 1)];
            var s := After(Start(k0), es);
            Runs(Start(k0), es) && PinnedGen(s, 0) == 2 && PinnedGen(s, 1) == 1
            && Decrypted(s.ring, Sealed(k0, 3, body), 1).1 == Failed && 1 <= GRACE
  {
    var es := [Receive(0, Sealed(k0, 0, body), 0), Receive(1, Sealed(k0, 1, body), 0), Rotate(k1, 0),
               Receive(0, Sealed(k1, 2, body), 1)];
    var s1 := Step(Start(k0), es[0]);
    var s2 := Step(s1, es[1]);
    var s3 := Step(s2, es[2]);
    assert es[1..][1..] == es[2..] && es[2..][1..] == es[3..] && es[3..][1..] == [];
    assert Runs(s3, es[3..]) && After(s3, es[3..]) == Step(s3, es[3]);
    assert Runs(s2, es[2..]) && After(s2, es[2..]) == Step(s3, es[3]);
    assert Runs(s1, es[1..]) && After(s1, es[1..]) == Step(s3, es[3]);
  }

  // ----- Which packets open -----

  /** The keys a run has made active, in order: the first one, then those of the rotations that were not refused. */
  function KeysInUse(key: string, es: seq<Event>): seq<string> {
    if es == [] then (if key == "" then [] else [key])
    else
      var before, last := KeysInUse(key, es[..|es| - 1]), es[|es| - 1];
      if last.Rotate? && |last.key| >= 16 then before + [last.key] else before
  }

  ghost predicate Under(p: Packet, keys: seq<string>, back: nat) {
    p.Sealed? && |keys| >= back && back > 0 && p.key == keys[|keys| - back]
  }

  lemma {:induction false} AfterAppend(s: Server, es: seq<Event>, e: Event)
    ensures After(s, es + [e]) == Step(After(s, es), e)
    ensures Runs(s, es + [e]) ==> Runs(s, es) && Enabled(After(s, es), e)
    decreases |es|
  {
    if es == [] {
      assert (es + [e])[1..] == [];
    } else {
      assert (es + [e])[1..] == es[1..] + [e];
      AfterAppend(Step(s, es[0]), es[1..], e);
    }
  }

  /** The active cipher has the last of these keys, and the previous one, if it is kept, the one before. */
  lemma {:induction false} RingHoldsTheLastKeys(key: string, es: seq<Event>, r: Ring)
    requires Runs(Start(key), es) && r == After(Start(key), es).ring
    ensures var keys := KeysInUse(key, es);
            && (if keys == [] then r.cipher.None? else r.cipher.Some? && r.cipher.value.key == keys[|keys| - 1])
            && r.gen == |keys|
            && (r.prev.Some? ==> |keys| >= 2 && r.prev.value.key == keys[|keys| - 2])
    decreases |es|
  {
    if es != [] {
      var n := |es| - 1;
      assert es[..n] + [es[n]] == es;
      AfterAppend(Start(key), es[..n], es[n]);
      RingHoldsTheLastKeys(key, es[..n], After(Start(key), es[..n]).ring);
    }
  }

  /** Over every run: a packet that arrives next opens if and only if it is sealed under the last key in use, or under
      the one before while that is kept and its grace lasts, or is clear, looks encrypted and some key is in use. What
      comes out is what was put in. */
  lemma OpensIff(key: string, es: seq<Event>, p: Packet, now: int)
    requires Runs(Start(key), es)
    ensures var r, keys := After(Start(key), es).ring, KeysInUse(key, es);
            Decrypted(r, p, now).1.Opened? <==>
              || Under(p, keys, 1)
              || (r.prev.Some? && now <= r.prevExp && Under(p, keys, 2))
              || (p.Clear? && p.looksEncrypted && keys != [])
    ensures var o := Decrypted(After(Start(key), es).ring, p, now).1; o.Opened? ==> o.body == p.body
  {
    RingHoldsTheLastKeys(key, es, After(Start(key), es).ring);
  }

  /** A packet sealed under the last key in use pins its client to that key; one that opens under the key before pins
      it to that one; a clear packet names no cipher, and neither it nor a refused packet changes any pin. */
  lemma PinsFollow(key: string, es: seq<Event>, client: nat, p: Packet, now: int)
    requires Runs(Start(key), es)
    ensures var s, keys := After(Start(key), es), KeysInUse(key, es);
            var t, o := Step(s, Receive(client, p, now)), Decrypted(s.ring, p, now).1;
            && (forall c: nat | c != client :: c in t.pins <==> c in s.pins)
            && (forall c: nat | c != client && c in s.pins :: t.pins[c] == s.pins[c])
            && (p.Clear? || o.Failed? ==> t.pins == s.pins && (o.Opened? ==> o.used.None?))
            && (p.Sealed? && o.Opened? ==>
                  client in t.pins && t.pins[client].cipher.key == p.key
                  && t.pins[client].gen == if Under(p, keys, 1) then |keys| else |keys| - 1)
  {
    RingHoldsTheLastKeys(key, es, After(Start(key), es).ring);
    Reachable(key, es);
  }
}
