/** Bytes, fixed-width words and the encodings shared by every wire format of the tunnel. */
module Bytes {

  type byte = x: int | 0 <= x < 256
  type u16 = x: int | 0 <= x < 0x1_0000
  type u32 = x: int | 0 <= x < 0x1_0000_0000

  datatype Option<+T> = None | Some(value: T)

  /** `uint32` addition, which wraps around. */
  function Add32(x: int, y: int): (r: u32)
  {
    (x + y) % 0x1_0000_0000
  }

  /** `make([]byte, n)` */
  function Zeros(n: nat): (s: seq<byte>)
    ensures |s| == n && forall i | 0 <= i < n :: s[i] == 0
  {
    seq(n, _ => 0)
  }

  // Big-endian integers.

  function Put16(x: u16): (s: seq<byte>)
    ensures |s| == 2 && Get16(s) == x
  {
    [x / 256, x % 256]
  }

  function Put32(x: u32): (s: seq<byte>)
    ensures |s| == 4 && Get32(s) == x
  {
    var hi, lo := x / 0x1_0000, x % 0x1_0000;
    [hi / 256, hi % 256, lo / 256, lo % 256]
  }

  function Get16(s: seq<byte>): (x: u16)
    requires |s| == 2
  {
    (s[0] as int) * 256 + s[1]
  }

  function Get32(s: seq<byte>): (x: u32)
    requires |s| == 4
  {
    ((s[0] as int) * 256 + s[1]) * 0x1_0000 + ((s[2] as int) * 256 + s[3])
  }

  /** The number some bytes spell, most significant byte first. */
  function Number(s: seq<byte>): nat {
    if s == [] then 0 else Number(s[..|s| - 1]) * 256 + s[|s| - 1]
  }

  lemma ReadsNumber(s: seq<byte>)
    ensures |s| == 2 ==> Get16(s) == Number(s)
    ensures |s| == 4 ==> Get32(s) == Number(s)
  {
    if |s| == 2 {
      assert Number(s[..1]) == s[0];
    } else if |s| == 4 {
      var a, b, c := s[..3], s[..2], s[..1];
      assert a[..2] == b && b[..1] == c && Number(c) == s[0];
      assert Number(b) == (s[0] as int) * 256 + s[1];
      assert Number(a) == Number(b) * 256 + s[2];
    }
  }

  // Exclusive or, bit by bit.

  function Pow2(n: nat): (r: nat)
    ensures r > 0
  {
    if n == 0 then 1 else 2 * Pow2(n - 1)
  }

  /** Exclusive or of the low `bits` bits of `a` and `b`. */
  function Xor(bits: nat, a: nat, b: nat): (r: nat)
    ensures r < Pow2(bits)
  {
    if bits == 0 then 0
    else (if a % 2 == b % 2 then 0 else 1) + 2 * Xor(bits - 1, a / 2, b / 2)
  }

  /** `x >> k` */
  function Shr(x: nat, k: nat): nat {
    if k == 0 then x else Shr(x / 2, k - 1)
  }

  /** Bit `k` of a number, counted from the least significant one. */
  function Bit(x: nat, k: nat): (b: nat)
    ensures b < 2
  {
    Shr(x, k) % 2
  }

  lemma {:induction false} ShrZero(k: nat)
    ensures Shr(0, k) == 0
  {
    if k > 0 {
      ShrZero(k - 1);
    }
  }

  lemma {:induction false} ShrOnce(x: nat, k: nat)
    ensures Shr(x, k + 1) == Shr(x, k) / 2
  {
    if k > 0 {
      ShrOnce(x / 2, k - 1);
    }
  }

  /** Shifting is dividing by a power of two. */
  lemma {:induction false} ShrIs(x: nat, k: nat)
    ensures Shr(x, k) == x / Pow2(k)
  {
    if k > 0 {
      ShrIs(x / 2, k - 1);
      HalfFirst(x, Pow2(k - 1));
    }
  }

  lemma DivUnique(x: nat, d: nat, q: nat, r: nat)
    requires d > 0 && x == q * d + r && r < d
    ensures x / d == q
  {
    var e := x / d - q;
    assert x / d * d + x % d == x;
    assert e * d == r - x % d;
    MultipleIsLarge(e, d);
  }

  lemma MultipleIsLarge(e: int, d: int)
    requires d > 0
    ensures e >= 1 ==> e * d >= d
    ensures e <= -1 ==> e * d <= -d
  {
  }

  lemma HalfFirst(x: nat, p: nat)
    requires p > 0
    ensures x / (2 * p) == x / 2 / p
  {
    var q, r := x / 2 / p, x / 2 % p;
    assert x / 2 == q * p + r && x == 2 * (x / 2) + x % 2;
    assert 2 * (q * p) == q * (2 * p);
    DivUnique(x, 2 * p, q, 2 * r + x % 2);
  }

  /** Each bit of an exclusive or tells whether the two bits differ. */
  lemma {:induction false} XorBits(bits: nat, a: nat, b: nat, k: nat)
    requires k < bits
    ensures Bit(Xor(bits, a, b), k) == if Bit(a, k) == Bit(b, k) then 0 else 1
    decreases bits
  {
    XorUnfold(bits, a, b);
    if k > 0 {
      XorBits(bits - 1, a / 2, b / 2, k - 1);
    }
  }

  lemma {:induction false} XorComm(bits: nat, a: nat, b: nat)
    ensures Xor(bits, a, b) == Xor(bits, b, a)
  {
    if bits != 0 {
      XorComm(bits - 1, a / 2, b / 2);
    }
  }

  lemma {:induction false} XorAssoc(bits: nat, a: nat, b: nat, c: nat)
    ensures Xor(bits, Xor(bits, a, b), c) == Xor(bits, a, Xor(bits, b, c))
  {
    if bits != 0 {
      XorAssoc(bits - 1, a / 2, b / 2, c / 2);
      XorUnfold(bits, a, b);
      XorUnfold(bits, b, c);
      XorUnfold(bits, Xor(bits, a, b), c);
      XorUnfold(bits, a, Xor(bits, b, c));
    }
  }

  lemma XorUnfold(bits: nat, a: nat, b: nat)
    requires bits > 0
    ensures Xor(bits, a, b) / 2 == Xor(bits - 1, a / 2, b / 2)
    ensures Xor(bits, a, b) % 2 == if a % 2 == b % 2 then 0 else 1
  {
  }

  lemma {:induction false} XorZero(bits: nat, a: nat)
    requires a < Pow2(bits)
    ensures Xor(bits, a, 0) == a == Xor(bits, 0, a)
  {
    if bits != 0 {
      XorZero(bits - 1, a / 2);
    }
  }

  lemma {:induction false} XorSelf(bits: nat, a: nat)
    ensures Xor(bits, a, a) == 0
  {
    if bits != 0 {
      XorSelf(bits - 1, a / 2);
    }
  }

  /** XOR-ing twice with the same mask is the identity. */
  lemma XorCancel(bits: nat, a: nat, mask: nat)
    requires a < Pow2(bits)
    ensures Xor(bits, Xor(bits, a, mask), mask) == a
  {
    XorAssoc(bits, a, mask, mask);
    XorSelf(bits, mask);
    XorZero(bits, a);
  }

  function Xor8(a: byte, b: byte): (r: byte)
  {
    assert Pow2(8) == 256 by { Pow2Values(); }
    Xor(8, a, b)
  }

  lemma Pow2Values()
    ensures Pow2(8) == 256 && Pow2(16) == 0x1_0000 && Pow2(32) == 0x1_0000_0000
  {
    assert Pow2(4) == 16;
    assert Pow2(8) == 256;
    assert Pow2(12) == 4096;
    assert Pow2(16) == 0x1_0000;
    assert Pow2(20) == 0x10_0000;
    assert Pow2(24) == 0x100_0000;
    assert Pow2(28) == 0x1000_0000;
  }
}
