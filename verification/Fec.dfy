/** The XOR erasure code of pkg/fec: `d` data shards and `p` identical parity shards. */
module Fec {
  import opened Bytes

  datatype Error =
    | BadShardCounts | BadShardSize | EmptyData
    | WrongNumberOfShards | PresenceLengthMismatch | NotEnoughShards | NoValidShards
    | NoParityAvailable | TooManyMissing

  /** `Panic` is Go's index-out-of-range failure on shards of unequal length. */
  datatype Result<+T> = Ok(value: T) | Err(error: Error) | Panic

  datatype Codec = Codec(dataShards: nat, parityShards: nat, shardSize: nat) {
    predicate Valid() {
      dataShards > 0 && parityShards > 0 && shardSize > 0
    }

    function Total(): nat {
      dataShards + parityShards
    }
  }

  function NewFEC(dataShards: int, parityShards: int, shardSize: int): (r: Result<Codec>)
    ensures r.Ok? <==> dataShards > 0 && parityShards > 0 && shardSize > 0
    ensures r.Ok? ==> r.value.Valid() && r.value.Total() == dataShards + parityShards
  {
    if dataShards <= 0 || parityShards <= 0 then Err(BadShardCounts)
    else if shardSize <= 0 then Err(BadShardSize)
    else Ok(Codec(dataShards, parityShards, shardSize))
  }

  // ----- What encoding means -----

  /** Bytes per shard: the ceiling of `n / d`, but never below the configured size. */
  function ShardSize(c: Codec, n: nat): (size: nat)
    requires c.Valid()
    ensures size >= c.shardSize && size * c.dataShards >= n
  {
    var even := (n + c.dataShards - 1) / c.dataShards;
    CeilCovers(n, c.dataShards);
    if even < c.shardSize then
      MulMono(even, c.shardSize, c.dataShards);
      c.shardSize
    else even
  }

  lemma CeilCovers(n: nat, d: nat)
    requires d > 0
    ensures (n + d - 1) / d * d >= n
  {
    var q, r := (n + d - 1) / d, (n + d - 1) % d;
    assert q * d + r == n + d - 1;
  }

  lemma MulMono(x: nat, y: nat, d: nat)
    requires x <= y
    ensures x * d <= y * d
  {
  }

  function DataShard(data: seq<byte>, size: nat, i: nat): (s: seq<byte>)
    ensures |s| == size
  {
    seq(size, j requires 0 <= j < size => if i * size + j < |data| then data[i * size + j] else 0)
  }

  /** The shards `0 .. n` other than `skip` are all longer than `j`. */
  predicate HasColumn(shards: seq<seq<byte>>, n: nat, skip: int, j: nat)
  {
    n <= |shards| && forall k | 0 <= k < n && k != skip :: j < |shards[k]|
  }

  /** XOR of column `j` over the first `n` shards other than `skip`. */
  function XorColumn(shards: seq<seq<byte>>, n: nat, skip: int, j: nat): byte
    requires HasColumn(shards, n, skip, j)
  {
    if n == 0 then 0
    else if n - 1 == skip then XorColumn(shards, n - 1, skip, j)
    else Xor8(XorColumn(shards, n - 1, skip, j), shards[n - 1][j])
  }

  function DataShards(c: Codec, data: seq<byte>): (s: seq<seq<byte>>)
    requires c.Valid()
    ensures |s| == c.dataShards
    ensures forall i | 0 <= i < |s| :: |s[i]| == ShardSize(c, |data|)
  {
    var size := ShardSize(c, |data|);
    seq(c.dataShards, i requires 0 <= i < c.dataShards => DataShard(data, size, i))
  }

  function ParityShard(shards: seq<seq<byte>>, d: nat, size: nat): (s: seq<byte>)
    requires d <= |shards| && forall k | 0 <= k < d :: |shards[k]| == size
    ensures |s| == size
  {
    seq(size, j requires 0 <= j < size => XorColumn(shards, d, -1, j))
  }

  /** All `d + p` shards of a packet. */
  function Shards(c: Codec, data: seq<byte>): (s: seq<seq<byte>>)
    requires c.Valid()
    ensures |s| == c.Total()
    ensures forall i | 0 <= i < |s| :: |s[i]| == ShardSize(c, |data|)
  {
    var ds := DataShards(c, data);
    ds + seq(c.parityShards, _ => ParityShard(ds, c.dataShards, ShardSize(c, |data|)))
  }

  function Flatten(shards: seq<seq<byte>>, n: nat): seq<byte>
    requires n <= |shards|
  {
    if n == 0 then [] else Flatten(shards, n - 1) + shards[n - 1]
  }

  lemma {:induction false} XorColumnSame(s: seq<seq<byte>>, t: seq<seq<byte>>, n: nat, skip: int, j: nat)
    requires HasColumn(s, n, skip, j) && HasColumn(t, n, skip, j)
    requires forall k | 0 <= k < n && k != skip :: s[k] == t[k]
    ensures XorColumn(s, n, skip, j) == XorColumn(t, n, skip, j)
  {
    if n > 0 {
      XorColumnSame(s, t, n - 1, skip, j);
    }
  }

  /** Leaving a shard out of the column sum is undone by XOR-ing that shard in again. */
  lemma {:induction false} XorColumnSplit(s: seq<seq<byte>>, n: nat, m: nat, j: nat)
    requires m < n && HasColumn(s, n, -1, j)
    ensures XorColumn(s, n, -1, j) == Xor8(XorColumn(s, n, m, j), s[m][j])
  {
    if m == n - 1 {
      XorColumnUnskipped(s, m, m, j);
    } else {
      XorColumnSplit(s, n - 1, m, j);
      var rest, x, y := XorColumn(s, n - 1, m, j), s[m][j], s[n - 1][j];
      XorAssoc(8, rest, x, y);
      XorComm(8, x, y);
      XorAssoc(8, rest, y, x);
    }
  }

  lemma {:induction false} XorColumnUnskipped(s: seq<seq<byte>>, n: nat, m: nat, j: nat)
    requires n <= m && HasColumn(s, n, -1, j)
    ensures XorColumn(s, n, m, j) == XorColumn(s, n, -1, j)
  {
    if n > 0 {
      XorColumnUnskipped(s, n - 1, m, j);
    }
  }

  /** XOR cancellation over any number of shards: the others plus the parity give the missing byte. */
  lemma MissingByte(s: seq<seq<byte>>, n: nat, m: nat, j: nat)
    requires m < n && HasColumn(s, n, -1, j)
    ensures Xor8(XorColumn(s, n, m, j), XorColumn(s, n, -1, j)) == s[m][j]
  {
    var rest, x := XorColumn(s, n, m, j), s[m][j];
    XorColumnSplit(s, n, m, j);
    XorAssoc(8, rest, rest, x);
    XorSelf(8, rest);
    Pow2Values();
    XorZero(8, x);
  }

  /** The first `n` shards whose byte `j` has bit `k` set. */
  function WithBit(s: seq<seq<byte>>, n: nat, j: nat, k: nat): set<nat>
    requires HasColumn(s, n, -1, j)
  {
    set i | 0 <= i < n && Bit(s[i][j], k) == 1
  }

  lemma OneMoreShard(s: seq<seq<byte>>, n: nat, j: nat, k: nat)
    requires n > 0 && HasColumn(s, n, -1, j)
    ensures |WithBit(s, n, j, k)| == |WithBit(s, n - 1, j, k)| + Bit(s[n - 1][j], k)
  {
    var before, after := WithBit(s, n - 1, j, k), WithBit(s, n, j, k);
    assert after == if Bit(s[n - 1][j], k) == 1 then before + {n - 1} else before;
    assert n - 1 !in before;
  }

  lemma {:induction false} ColumnBits(s: seq<seq<byte>>, n: nat, j: nat, k: nat)
    requires HasColumn(s, n, -1, j) && k < 8
    ensures Bit(XorColumn(s, n, -1, j), k) == |WithBit(s, n, j, k)| % 2
  {
    if n == 0 {
      NoShardNoBit(s, j, k);
    } else {
      var x, y := XorColumn(s, n - 1, -1, j), s[n - 1][j];
      ColumnBits(s, n - 1, j, k);
      OneMoreShard(s, n, j, k);
      BitsOfXor(x, y, Xor8(x, y), |WithBit(s, n - 1, j, k)|, k);
    }
  }

  lemma NoShardNoBit(s: seq<seq<byte>>, j: nat, k: nat)
    ensures Bit(XorColumn(s, 0, -1, j), k) == 0 && WithBit(s, 0, j, k) == {}
  {
    ShrZero(k);
  }

  lemma BitsOfXor(x: byte, y: byte, z: byte, count: nat, k: nat)
    requires k < 8 && Bit(x, k) == count % 2 && z == Xor8(x, y)
    ensures Bit(z, k) == (count + Bit(y, k)) % 2
  {
    XorBits(8, x, y, k);
  }

  /** What parity is: in every parity shard each bit is set if and only if it is set in an odd number of the data
      shards, at the same place. */
  lemma ParityIsOdd(c: Codec, data: seq<byte>, parity: nat, j: nat, k: nat)
    requires c.Valid() && c.dataShards <= parity < c.Total() && j < ShardSize(c, |data|) && k < 8
    ensures HasColumn(Shards(c, data), c.dataShards, -1, j)
    ensures Bit(Shards(c, data)[parity][j], k) == |WithBit(Shards(c, data), c.dataShards, j, k)| % 2
  {
    var shards := Shards(c, data);
    XorColumnSame(DataShards(c, data), shards, c.dataShards, -1, j);
    ColumnBits(shards, c.dataShards, j, k);
  }

  /** The data shards laid end to end are the packet followed by zero padding. */
  lemma DataShardsCover(c: Codec, data: seq<byte>)
    requires c.Valid()
    ensures Flatten(Shards(c, data), c.dataShards)
         == data + Zeros(ShardSize(c, |data|) * c.dataShards - |data|)
  {
    var size := ShardSize(c, |data|);
    var padded := data + Zeros(size * c.dataShards - |data|);
    FlattenPrefix(Shards(c, data), data, padded, size, c.dataShards);
    assert padded[..c.dataShards * size] == padded;
  }

  lemma {:induction false} FlattenPrefix(shards: seq<seq<byte>>, data: seq<byte>, padded: seq<byte>, size: nat, n: nat)
    requires n <= |shards| && forall i | 0 <= i < n :: shards[i] == DataShard(data, size, i)
    requires data <= padded && forall k | |data| <= k < |padded| :: padded[k] == 0
    requires n * size <= |padded|
    ensures Flatten(shards, n) == padded[..n * size]
  {
    if n > 0 {
      MulMono(n - 1, n, size);
      FlattenPrefix(shards, data, padded, size, n - 1);
      SliceIsShard(data, padded, size, n - 1);
    }
  }

  lemma SliceIsShard(data: seq<byte>, padded: seq<byte>, size: nat, i: nat)
    requires data <= padded && forall k | |data| <= k < |padded| :: padded[k] == 0
    requires (i + 1) * size <= |padded|
    ensures i * size <= (i + 1) * size
    ensures padded[..(i + 1) * size] == padded[..i * size] + DataShard(data, size, i)
  {
    var lo, hi := i * size, (i + 1) * size;
    assert hi == lo + size;
    assert padded[..hi] == padded[..lo] + padded[lo..hi];
    assert padded[lo..hi] == DataShard(data, size, i);
  }

  // ----- What decoding means -----

  function Count(present: seq<bool>): (n: nat)
    ensures n <= |present|
  {
    if present == [] then 0
    else Count(present[..|present| - 1]) + if present[|present| - 1] then 1 else 0
  }

  lemma {:induction false} CountConcat(a: seq<bool>, b: seq<bool>)
    ensures Count(a + b) == Count(a) + Count(b)
  {
    if b == [] {
      assert a + b == a;
    } else {
      var b' := b[..|b| - 1];
      CountConcat(a, b');
      assert (a + b)[..|a + b| - 1] == a + b';
    }
  }

  lemma {:induction false} CountPositive(a: seq<bool>)
    ensures Count(a) > 0 <==> exists i | 0 <= i < |a| :: a[i]
    ensures Count(a) == |a| <==> forall i | 0 <= i < |a| :: a[i]
  {
    if a != [] {
      var a' := a[..|a| - 1];
      CountPositive(a');
      if a[|a| - 1] {
      } else if i :| 0 <= i < |a| && a[i] {
        assert a'[i];
      }
      if Count(a') == |a'| && a[|a| - 1] {
        forall i | 0 <= i < |a| ensures a[i] {
          assert i < |a'| ==> a'[i];
        }
      }
    }
  }

  lemma {:induction false} CountAdded(a: seq<bool>, i: nat)
    requires i < |a| && !a[i]
    ensures Count(a[i := true]) == Count(a) + 1
  {
    var n := |a| - 1;
    if i < n {
      CountAdded(a[..n], i);
      assert a[i := true][..n] == a[..n][i := true];
    } else {
      assert a[i := true][..n] == a[..n];
    }
  }

  function Missing(present: seq<bool>, d: nat): nat
    requires d <= |present|
  {
    d - Count(present[..d])
  }

  /** Index of the first element at or after `i` that is set, or the length. */
  function FirstSet(present: seq<bool>, i: nat): (r: nat)
    requires i <= |present|
    ensures i <= r <= |present|
    ensures forall k | i <= k < r :: !present[k]
    ensures r < |present| ==> present[r]
    decreases |present| - i
  {
    if i == |present| || present[i] then i else FirstSet(present, i + 1)
  }

  /** Index of the last missing data shard among the first `n`, or -1. */
  function LastMissing(present: seq<bool>, n: nat): (r: int)
    requires n <= |present|
    ensures -1 <= r < n && (r >= 0 ==> !present[r])
    ensures forall k | r < k < n :: present[k]
  {
    if n == 0 then -1 else if !present[n - 1] then n - 1 else LastMissing(present, n - 1)
  }

  /** Length of the first shard that is present and not empty, or 0. */
  function FirstLength(shards: seq<seq<byte>>, present: seq<bool>, i: nat): nat
    requires i <= |shards| == |present|
    decreases |shards| - i
  {
    if i == |shards| then 0
    else if present[i] && |shards[i]| > 0 then |shards[i]|
    else FirstLength(shards, present, i + 1)
  }

  /** The shards the reconstruction reads have all its `size` columns. */
  predicate Long(shards: seq<seq<byte>>, d: nat, missing: nat, parity: nat, size: nat)
    requires parity < |shards| && d <= |shards|
  {
    size <= |shards[parity]| && forall k | 0 <= k < d && k != missing :: size <= |shards[k]|
  }

  function Rebuilt(shards: seq<seq<byte>>, d: nat, missing: nat, parity: nat, size: nat): (s: seq<byte>)
    requires parity < |shards| && d <= |shards| && Long(shards, d, missing, parity, size)
    ensures |s| == size
  {
    seq(size, j requires 0 <= j < size => Xor8(XorColumn(shards, d, missing, j), shards[parity][j]))
  }

  /** The shards after decoding: the one missing data shard is filled in. */
  function Repaired(c: Codec, shards: seq<seq<byte>>, present: seq<bool>): (r: Result<seq<seq<byte>>>)
    ensures r.Ok? ==> |r.value| == |shards| == c.Total()
  {
    if |shards| != c.Total() then Err(WrongNumberOfShards)
    else if |present| != |shards| then Err(PresenceLengthMismatch)
    else if Count(present) < c.dataShards then Err(NotEnoughShards)
    else
      var d, size := c.dataShards, FirstLength(shards, present, 0);
      if size == 0 then Err(NoValidShards)
      else if Missing(present, d) == 0 then Ok(shards)
      else if Missing(present, d) > 1 then Err(TooManyMissing)
      else
        var m, parity := LastMissing(present, d), FirstSet(present, d);
        CountPositive(present[..d]);
        if parity == |present| then Err(NoParityAvailable)
        else if !Long(shards, d, m, parity, size) then Panic
        else Ok(shards[m := Rebuilt(shards, d, m, parity, size)])
  }

  function Decoded(c: Codec, shards: seq<seq<byte>>, present: seq<bool>): (r: Result<seq<byte>>)
  {
    match Repaired(c, shards, present)
    case Ok(full) => Ok(Flatten(full, c.dataShards))
    case Err(e) => Err(e)
    case Panic => Panic
  }

  /** Every shard marked present is the one the encoder produced. */
  ghost predicate Honest(c: Codec, data: seq<byte>, shards: seq<seq<byte>>, present: seq<bool>)
  {
    && c.Valid() && |shards| == |present| == c.Total()
    && forall i | 0 <= i < |shards| && present[i] :: shards[i] == Shards(c, data)[i]
  }

  /** With `d` shards and one data shard gone, some parity shard must be there. */
  lemma ParityIsThere(c: Codec, present: seq<bool>)
    requires |present| == c.Total() && Count(present) >= c.dataShards && Missing(present, c.dataShards) >= 1
    ensures FirstSet(present, c.dataShards) < |present|
  {
    var d := c.dataShards;
    assert present == present[..d] + present[d..];
    CountConcat(present[..d], present[d..]);
    CountPositive(present[d..]);
    var i :| 0 <= i < |present[d..]| && present[d..][i];
    assert present[d + i];
  }

  // ----- When decoding panics -----

  /** Data shard `m` is the only one missing, `p` is the first parity shard there and `i` the first shard
      there; `p` or another data shard is shorter than `i`. */
  predicate UnevenAt(c: Codec, shards: seq<seq<byte>>, present: seq<bool>, m: nat, p: nat, i: nat)
    requires |shards| == |present| == c.Total()
  {
    && m < c.dataShards <= p < c.Total() && i < c.Total()
    && !present[m] && (forall k | 0 <= k < c.dataShards && k != m :: present[k])
    && present[p] && (forall k | c.dataShards <= k < p :: !present[k])
    && present[i] && (forall k | 0 <= k < i :: !present[k])
    && (|shards[p]| < |shards[i]| || exists k | 0 <= k < c.dataShards && k != m :: |shards[k]| < |shards[i]|)
  }

  ghost predicate Uneven(c: Codec, shards: seq<seq<byte>>, present: seq<bool>)
    requires |shards| == |present| == c.Total()
  {
    exists m: nat, p: nat, i: nat :: UnevenAt(c, shards, present, m, p, i)
  }

  /** With every other data shard there, one is missing. */
  lemma OneIsMissing(present: seq<bool>, d: nat, m: nat)
    requires m < d <= |present| && !present[m] && forall k | 0 <= k < d && k != m :: present[k]
    ensures Missing(present, d) == 1 && LastMissing(present, d) == m
  {
    CountAdded(present[..d], m);
    CountPositive(present[..d][m := true]);
  }

  lemma {:induction false} FirstLengthIs(shards: seq<seq<byte>>, present: seq<bool>, j: nat, i: nat)
    requires j <= i < |shards| == |present| && present[i] && shards[i] != []
    requires forall k | j <= k < i :: !present[k]
    ensures FirstLength(shards, present, j) == |shards[i]|
    decreases i - j
  {
    if j < i {
      FirstLengthIs(shards, present, j + 1, i);
    }
  }

  lemma FirstSetIs(present: seq<bool>, j: nat, i: nat)
    requires j <= i < |present| && present[i] && forall k | j <= k < i :: !present[k]
    ensures FirstSet(present, j) == i
  {
    assert FirstSet(present, j) >= i;
  }

  /** Decoding panics if and only if the shards are uneven, whatever they contain, provided that none of those
      present is empty, which the receiver checks. */
  lemma PanicsIff(c: Codec, shards: seq<seq<byte>>, present: seq<bool>)
    requires c.Valid() && |shards| == |present| == c.Total()
    requires forall i | 0 <= i < |shards| && present[i] :: shards[i] != []
    ensures Decoded(c, shards, present).Panic? <==> Uneven(c, shards, present)
  {
    if Decoded(c, shards, present).Panic? {
      PanicIsUneven(c, shards, present);
    }
    if m: nat, p: nat, i: nat :| UnevenAt(c, shards, present, m, p, i) {
      UnevenPanics(c, shards, present, m, p, i);
    }
  }

  lemma PanicIsUneven(c: Codec, shards: seq<seq<byte>>, present: seq<bool>)
    requires c.Valid() && |shards| == |present| == c.Total()
    requires forall i | 0 <= i < |shards| && present[i] :: shards[i] != []
    requires Decoded(c, shards, present).Panic?
    ensures Uneven(c, shards, present)
  {
    var d := c.dataShards;
    OnlyOneMissing(present, d);
    var m, p, i := LastMissing(present, d), FirstSet(present, d), FirstSet(present, 0);
    assert i <= p;
    FirstLengthIs(shards, present, 0, i);
    assert !Long(shards, d, m, p, |shards[i]|);
    assert UnevenAt(c, shards, present, m, p, i);
  }

  lemma UnevenPanics(c: Codec, shards: seq<seq<byte>>, present: seq<bool>, m: nat, p: nat, i: nat)
    requires c.Valid() && |shards| == |present| == c.Total()
    requires forall i | 0 <= i < |shards| && present[i] :: shards[i] != []
    requires UnevenAt(c, shards, present, m, p, i)
    ensures Decoded(c, shards, present).Panic?
  {
    OneIsMissing(present, c.dataShards, m);
    FirstSetIs(present, c.dataShards, p);
    FirstLengthIs(shards, present, 0, i);
    EnoughWithParity(present, c.dataShards, p);
    assert !Long(shards, c.dataShards, m, p, |shards[i]|);
  }

  lemma PanicNeedsEnough(c: Codec, shards: seq<seq<byte>>, present: seq<bool>)
    ensures Decoded(c, shards, present).Panic? ==> Count(present) >= c.dataShards
  {
  }

  lemma EnoughWithParity(present: seq<bool>, d: nat, p: nat)
    requires d <= p < |present| && present[p] && Missing(present, d) == 1
    ensures Count(present) >= d
  {
    assert present == present[..d] + present[d..];
    CountConcat(present[..d], present[d..]);
    CountPositive(present[d..]);
    assert present[d..][p - d];
  }

  lemma {:induction false} NoLengthIff(shards: seq<seq<byte>>, present: seq<bool>, i: nat)
    requires i <= |shards| == |present|
    ensures FirstLength(shards, present, i) == 0 <==> forall k | i <= k < |shards| && present[k] :: shards[k] == []
    decreases |shards| - i
  {
    if i < |shards| {
      NoLengthIff(shards, present, i + 1);
    }
  }

  /** What decoding refuses, on any input: a wrong number of shards or marks, fewer shards than data shards, nothing but
      empty ones, and more than one missing data shard, the first of these that applies; never for want of parity. */
  lemma RefusedIff(c: Codec, shards: seq<seq<byte>>, present: seq<bool>)
    ensures var r := Decoded(c, shards, present);
            && (r == Err(WrongNumberOfShards) <==> |shards| != c.Total())
            && (r == Err(PresenceLengthMismatch) <==> |shards| == c.Total() != |present|)
            && (|shards| == |present| == c.Total() ==>
                  var enough := Count(present) >= c.dataShards;
                  var filled := exists k | 0 <= k < |shards| :: present[k] && shards[k] != [];
                  && (r == Err(NotEnoughShards) <==> !enough)
                  && (r == Err(NoValidShards) <==> enough && !filled)
                  && (r == Err(TooManyMissing) <==> enough && filled && Missing(present, c.dataShards) > 1)
                  && (r.Err? ==> r.error in {NotEnoughShards, NoValidShards, TooManyMissing}))
  {
    if |shards| == |present| == c.Total() {
      NoLengthIff(shards, present, 0);
      if Count(present) >= c.dataShards && Missing(present, c.dataShards) >= 1 {
        ParityIsThere(c, present);
      }
    }
  }

  lemma {:induction false} HonestLength(c: Codec, data: seq<byte>, shards: seq<seq<byte>>, present: seq<bool>, i: nat)
    requires Honest(c, data, shards, present) && i <= |shards|
    requires exists k | i <= k < |shards| :: present[k]
    ensures FirstLength(shards, present, i) == ShardSize(c, |data|)
    decreases |shards| - i
  {
    if present[i] {
      assert shards[i] == Shards(c, data)[i];
    } else {
      HonestLength(c, data, shards, present, i + 1);
    }
  }

  /** With exactly one data shard missing, every other one is there. */
  lemma OnlyOneMissing(present: seq<bool>, d: nat)
    requires d <= |present| && Missing(present, d) == 1
    ensures var m := LastMissing(present, d);
            0 <= m < d && forall k | 0 <= k < d && k != m :: present[k]
  {
    var a := present[..d];
    CountPositive(a);
    var m := LastMissing(present, d);
    if m >= 0 {
      assert a == a[..m] + ([false] + a[m + 1..]);
      CountConcat(a[..m], [false] + a[m + 1..]);
      CountConcat([false], a[m + 1..]);
      CountPositive(a[..m]);
      assert Count([false]) == 0;
      forall k | 0 <= k < d && k != m ensures present[k] {
        assert k < m ==> a[..m][k];
      }
    }
  }

  /** The repaired shard is the one that was lost. */
  lemma RebuiltIsOriginal(c: Codec, data: seq<byte>, shards: seq<seq<byte>>, m: nat, parity: nat)
    requires c.Valid() && |shards| == c.Total() && m < c.dataShards <= parity < c.Total()
    requires shards[parity] == Shards(c, data)[parity]
    requires forall k | 0 <= k < c.dataShards && k != m :: shards[k] == Shards(c, data)[k]
    ensures Rebuilt(shards, c.dataShards, m, parity, ShardSize(c, |data|)) == Shards(c, data)[m]
  {
    var d, size, all, ds := c.dataShards, ShardSize(c, |data|), Shards(c, data), DataShards(c, data);
    forall j | 0 <= j < size
      ensures Xor8(XorColumn(shards, d, m, j), shards[parity][j]) == all[m][j]
    {
      assert shards[parity][j] == XorColumn(ds, d, -1, j);
      XorColumnSame(shards, ds, d, m, j);
      MissingByte(ds, d, m, j);
    }
  }

  /** Decoding honest shards succeeds exactly when at most one data shard is missing, and then it
      gives the packet and its padding; the missing-parity error and the panic cannot happen. */
  lemma {:induction false} DecodeHonest(c: Codec, data: seq<byte>, shards: seq<seq<byte>>, present: seq<bool>)
    requires Honest(c, data, shards, present)
    ensures Decoded(c, shards, present) ==
            if Count(present) < c.dataShards then Err(NotEnoughShards)
            else if Missing(present, c.dataShards) > 1 then Err(TooManyMissing)
            else Ok(data + Zeros(ShardSize(c, |data|) * c.dataShards - |data|))
  {
    var d := c.dataShards;
    if Count(present) >= d {
      CountPositive(present);
      HonestLength(c, data, shards, present, 0);
      if Missing(present, d) == 1 {
        ParityIsThere(c, present);
        OnlyOneMissing(present, d);
        var m, parity := LastMissing(present, d), FirstSet(present, d);
        RebuiltIsOriginal(c, data, shards, m, parity);
        FlattenSame(shards[m := Shards(c, data)[m]], Shards(c, data), d);
        DataShardsCover(c, data);
      } else if Missing(present, d) == 0 {
        CountPositive(present[..d]);
        forall k | 0 <= k < d ensures shards[k] == Shards(c, data)[k] {
          assert present[..d][k];
        }
        FlattenSame(shards, Shards(c, data), d);
        DataShardsCover(c, data);
      }
    }
  }

  lemma {:induction false} FlattenSame(s: seq<seq<byte>>, t: seq<seq<byte>>, n: nat)
    requires n <= |s| && n <= |t| && forall k | 0 <= k < n :: s[k] == t[k]
    ensures Flatten(s, n) == Flatten(t, n)
  {
    if n > 0 {
      FlattenSame(s, t, n - 1);
    }
  }
}
