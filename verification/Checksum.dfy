/** The Internet checksum (section 1 of RFC 1071) as pkg/rawsocket computes it. */
module Checksum {
  import opened Bytes

  /** Longest input whose 16-bit words cannot overflow a `uint32` sum. */
  const MAX_LEN := 131074

  /** Sum of the big-endian 16-bit words; an odd last byte is padded with zero on the right. */
  function WordSum(data: seq<byte>): nat {
    if |data| == 0 then 0
    else if |data| == 1 then (data[0] as int) * 256
    else Get16(data[..2]) + WordSum(data[2..])
  }

  lemma {:induction false} WordSumBound(data: seq<byte>)
    ensures WordSum(data) <= 65535 * ((|data| + 1) / 2)
  {
    if |data| >= 2 {
      WordSumBound(data[2..]);
    }
  }

  lemma {:induction false} WordSumConcat(a: seq<byte>, b: seq<byte>)
    requires |a| % 2 == 0
    ensures WordSum(a + b) == WordSum(a) + WordSum(b)
  {
    if |a| == 0 {
      assert a + b == b;
    } else {
      WordSumConcat(a[2..], b);
      assert (a + b)[..2] == a[..2] && (a + b)[2..] == a[2..] + b;
    }
  }

  function Padded(data: seq<byte>): seq<byte> {
    if |data| % 2 == 0 then data else data + [0]
  }

  lemma NumberOfPair(front: seq<byte>, x: byte, y: byte)
    ensures Number(front + [x, y]) == Number(front) * 0x1_0000 + x * 256 + y
  {
    var all, more := front + [x, y], front + [x];
    assert all[..|all| - 1] == more && more[..|more| - 1] == front;
  }

  /** One more word, or a last byte and its filler. */
  lemma SumOfPair(front: seq<byte>, x: byte, y: byte, data: seq<byte>)
    requires |front| % 2 == 0 && (data == front + [x, y] || (y == 0 && data == front + [x]))
    ensures WordSum(data) == WordSum(front) + ((x as int) * 256 + y)
  {
    if data == front + [x, y] {
      WordSumConcat(front, [x, y]);
      assert [x, y][..2] == [x, y] && [x, y][2..] == [];
    } else {
      WordSumConcat(front, [x]);
    }
  }

  lemma FilledPair(front: seq<byte>, x: byte, y: byte, data: seq<byte>)
    requires |front| % 2 == 0 && (data == front + [x, y] || (y == 0 && data == front + [x]))
    ensures Number(Padded(data)) == Number(Padded(front)) * 0x1_0000 + ((x as int) * 256 + y)
  {
    assert Padded(front) == front && Padded(data) == front + [x, y];
    NumberOfPair(front, x, y);
  }

  lemma PairResidue(s: nat, m: nat, w: nat, t: nat, n: nat)
    requires s % 65535 == m % 65535 && t == s + w && n == m * 0x1_0000 + w
    ensures t % 65535 == n % 65535
  {
    ModShift(m + w, m);
  }

  /** What the sum means: modulo 65535 it is the one number that all the bytes spell, an odd number of bytes being
      filled up with a zero. */
  lemma {:induction false} WordsSpell(data: seq<byte>)
    ensures WordSum(data) % 65535 == Number(Padded(data)) % 65535
    decreases |data|
  {
    var n := |data|;
    if n == 0 {
      assert Padded(data) == [];
    } else if n % 2 == 1 {
      WordsSpell(data[..n - 1]);
      WithPair(data[..n - 1], data[n - 1], 0, data);
    } else {
      WordsSpell(data[..n - 2]);
      WithPair(data[..n - 2], data[n - 2], data[n - 1], data);
    }
  }

  lemma WithPair(front: seq<byte>, x: byte, y: byte, data: seq<byte>)
    requires |front| % 2 == 0 && WordSum(front) % 65535 == Number(Padded(front)) % 65535
    requires data == front + [x, y] || (y == 0 && data == front + [x])
    ensures WordSum(data) % 65535 == Number(Padded(data)) % 65535
  {
    SumOfPair(front, x, y, data);
    FilledPair(front, x, y, data);
    PairResidue(WordSum(front), Number(Padded(front)), (x as int) * 256 + y, WordSum(data), Number(Padded(data)));
  }

  /** The sum is zero only if every byte is. */
  lemma {:induction false} ZeroSum(data: seq<byte>)
    ensures WordSum(data) == 0 <==> forall i | 0 <= i < |data| :: data[i] == 0
  {
    if |data| >= 2 {
      ZeroSum(data[2..]);
      assert data == data[..2] + data[2..];
    }
  }

  /** End-around carry until the sum fits 16 bits. */
  function Fold(s: nat): u16
    decreases s
  {
    if s < 0x1_0000 then s else Fold(s % 0x1_0000 + s / 0x1_0000)
  }

  /** Folding keeps the sum modulo 65535 and never turns a non-zero sum into zero. */
  lemma {:induction false} FoldKeepsSum(s: nat)
    ensures Fold(s) % 65535 == s % 65535 && (Fold(s) == 0 <==> s == 0)
    decreases s
  {
    if s >= 0x1_0000 {
      var t := s % 0x1_0000 + s / 0x1_0000;
      FoldKeepsSum(t);
      assert s == t + 65535 * (s / 0x1_0000);
      ModShift(t, s / 0x1_0000);
    }
  }

  lemma ModShift(t: nat, q: nat)
    ensures (t + 65535 * q) % 65535 == t % 65535
  {
    if q > 0 {
      ModShift(t, q - 1);
      assert t + 65535 * q == (t + 65535 * (q - 1)) + 65535;
    }
  }

  function Of(data: seq<byte>): u16 {
    65535 - Fold(WordSum(data) % 0x1_0000_0000)
  }

  /** The receiver's test, without any folding: the sum is a non-zero multiple of 65535. */
  lemma VerifiesIff(data: seq<byte>)
    requires |data| <= MAX_LEN
    ensures WordSum(data) < 0x1_0000_0000
    ensures Of(data) == 65535 - Fold(WordSum(data))
    ensures Of(data) == 0 <==> WordSum(data) > 0 && WordSum(data) % 65535 == 0
  {
    NoOverflow(data);
    OfSmallSum(data, WordSum(data));
    FoldedIsZeroIff(WordSum(data));
  }

  lemma OfSmallSum(data: seq<byte>, s: nat)
    requires s == WordSum(data) && s < 0x1_0000_0000
    ensures Of(data) == 65535 - Fold(s)
  {
    assert s % 0x1_0000_0000 == s;
  }

  lemma FoldedIsZeroIff(s: nat)
    ensures 65535 - Fold(s) == 0 <==> s > 0 && s % 65535 == 0
  {
    FoldKeepsSum(s);
    AllOnes(s, Fold(s));
  }

  /** The `uint32` sum of anything that fits an IP packet does not overflow. */
  lemma NoOverflow(data: seq<byte>)
    requires |data| <= MAX_LEN
    ensures WordSum(data) < 0x1_0000_0000
  {
    WordSumBound(data);
    assert (|data| + 1) / 2 <= 65537;
  }

  lemma AllOnes(s: nat, t: u16)
    requires t % 65535 == s % 65535 && (t == 0 <==> s == 0)
    ensures t == 65535 <==> s > 0 && s % 65535 == 0
  {
  }

  /** Inserting the computed checksum into its zeroed, word-aligned field makes verification succeed. */
  lemma InsertedVerifies(a: seq<byte>, b: seq<byte>)
    requires |a| % 2 == 0 && |a| + 2 + |b| <= MAX_LEN
    ensures Of(a + Put16(Of(a + [0, 0] + b)) + b) == 0
  {
    var zero: seq<byte> := [0, 0];
    var c := Of(a + zero + b);
    var s := WordSum(a) + WordSum(b);
    FieldSum(a, zero, b);
    FieldSum(a, Put16(c), b);
    VerifiesIff(a + zero + b);
    FoldKeepsSum(s);
    var field := Put16(c);
    var done := a + field + b;
    assert WordSum(done) == s + 65535 - Fold(s);
    Complement(s, Fold(s));
    VerifiesIff(done);
  }

  lemma FieldSum(a: seq<byte>, f: seq<byte>, b: seq<byte>)
    requires |a| % 2 == 0 && |f| == 2
    ensures WordSum(a + f + b) == WordSum(a) + Get16(f) + WordSum(b)
  {
    WordSumConcat(a + f, b);
    WordSumConcat(a, f);
    assert f[..2] == f && f[2..] == [];
  }

  lemma Complement(s: nat, t: u16)
    requires s % 65535 == t % 65535
    ensures (s + 65535 - t) % 65535 == 0
  {
    assert (s - t) % 65535 == 0;
  }

  /** A changed word is noticed: if the packet verified, it does not verify with that word replaced by one
      that differs modulo 65535. */
  lemma ChangedWordIsNoticed(a: seq<byte>, w: u16, v: u16, b: seq<byte>)
    requires |a| % 2 == 0 && |a| + 2 + |b| <= MAX_LEN && w % 65535 != v % 65535
    requires Of(a + Put16(w) + b) == 0
    ensures Of(a + Put16(v) + b) != 0
  {
    FieldSum(a, Put16(w), b);
    FieldSum(a, Put16(v), b);
    VerifiesIff(a + Put16(w) + b);
    VerifiesIff(a + Put16(v) + b);
    DifferentResidue(WordSum(a) + WordSum(b), w, v);
  }

  lemma DifferentResidue(s: nat, w: u16, v: u16)
    requires w % 65535 != v % 65535 && (s + w) % 65535 == 0
    ensures (s + v) % 65535 != 0
  {
    assert (s + v) - (s + w) == v - w;
  }

  method CalculateChecksum(data: seq<byte>) returns (c: u16)
    ensures c == Of(data)
  {
    var sum := SumWords(data);
    var folded := FoldSum(sum);
    c := 65535 - folded;
  }

  lemma WordSumAt(data: seq<byte>, i: nat)
    requires i + 2 <= |data|
    ensures WordSum(data[i..]) == Get16(data[i..i + 2]) + WordSum(data[i + 2..])
  {
    assert data[i..][..2] == data[i..i + 2] && data[i..][2..] == data[i + 2..];
  }

  lemma WordSumTail(data: seq<byte>, i: nat)
    requires |data| - 1 <= i <= |data| && i % 2 == 0
    ensures WordSum(data[i..]) == if |data| % 2 == 1 then (data[|data| - 1] as int) * 256 else 0
  {
    if |data| % 2 == 1 {
      assert data[i..] == [data[|data| - 1]];
    } else {
      assert data[i..] == [];
    }
  }

  method SumWords(data: seq<byte>) returns (sum: u32)
    ensures sum == WordSum(data) % 0x1_0000_0000
  {
    sum := 0;
    var i := 0;
    while i < |data| - 1
      invariant 0 <= i <= |data| && i % 2 == 0
      invariant (sum + WordSum(data[i..])) % 0x1_0000_0000 == WordSum(data) % 0x1_0000_0000
    {
      var word := Get16(data[i..i + 2]);
      WordSumAt(data, i);
      WrapStep(sum, word, WordSum(data[i + 2..]));
      sum := Add32(sum, word);
      i := i + 2;
    }
    WordSumTail(data, i);
    if |data| % 2 == 1 {
      sum := Add32(sum, (data[|data| - 1] as int) * 256);
    }
  }

  method FoldSum(s: nat) returns (sum: u16)
    ensures sum == Fold(s)
  {
    var t := s;
    while t / 0x1_0000 != 0
      invariant 0 <= t && Fold(t) == Fold(s)
      decreases t
    {
      t := t % 0x1_0000 + t / 0x1_0000;
    }
    sum := t;
  }

  lemma WrapStep(sum: nat, w: nat, rest: nat)
    ensures ((sum + w) % 0x1_0000_0000 + rest) % 0x1_0000_0000 == (sum + (w + rest)) % 0x1_0000_0000
  {
  }
}
