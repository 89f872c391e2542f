/** `Encode` and `Decode` as pkg/fec runs them: loops over buffers, repairing in place. */
module FecCodec {
  import opened Bytes
  import opened Fec

  method Encode(c: Codec, data: seq<byte>) returns (r: Result<seq<seq<byte>>>)
    requires c.Valid()
    ensures r == if data == [] then Err(EmptyData) else Ok(Shards(c, data))
  {
    if |data| == 0 {
      return Err(EmptyData);
    }
    var size := (|data| + c.dataShards - 1) / c.dataShards;
    if size < c.shardSize {
      size := c.shardSize;
    }
    ghost var ds := DataShards(c, data);
    var shards := new seq<byte>[c.Total()](_ => []);
    for i := 0 to c.dataShards
      invariant shards[..i] == ds[..i]
    {
      var shard := CopyDataShard(data, size, i);
      shards[i] := shard;
      assert shards[..i + 1] == shards[..i] + [shard];
    }
    for i := 0 to c.parityShards
      invariant shards[..c.dataShards] == ds
      invariant forall k | c.dataShards <= k < c.dataShards + i :: shards[k] == ParityShard(ds, c.dataShards, size)
    {
      var parity := XorShards(shards[..c.dataShards], size);
      shards[c.dataShards + i] := parity;
    }
    r := Ok(shards[..]);
    assert shards[..] == shards[..c.dataShards] + shards[c.dataShards..];
    assert shards[c.dataShards..] == seq(c.parityShards, _ => ParityShard(ds, c.dataShards, size));
  }

  method CopyDataShard(data: seq<byte>, size: nat, i: nat) returns (shard: seq<byte>)
    ensures shard == DataShard(data, size, i)
  {
    var buf := new byte[size](_ => 0);
    var start := i * size;
    var end := if start + size > |data| then |data| else start + size;
    if start < |data| {
      for j := 0 to end - start
        invariant forall k | 0 <= k < size :: buf[k] == if k < j then data[start + k] else 0
      {
        buf[j] := data[start + j];
      }
    }
    shard := buf[..];
  }

  method XorShards(ds: seq<seq<byte>>, size: nat) returns (parity: seq<byte>)
    requires forall k | 0 <= k < |ds| :: |ds[k]| == size
    ensures parity == ParityShard(ds, |ds|, size)
  {
    var buf := new byte[size](_ => 0);
    for j := 0 to size
      invariant forall k | 0 <= k < j :: buf[k] == XorColumn(ds, |ds|, -1, k)
    {
      var val: byte := 0;
      for k := 0 to |ds|
        invariant val == XorColumn(ds, k, -1, j)
      {
        val := Xor8(val, ds[k][j]);
      }
      buf[j] := val;
    }
    parity := buf[..];
  }

  method CountPresent(present: array<bool>) returns (n: nat)
    ensures n == Count(present[..])
  {
    n := 0;
    for i := 0 to present.Length
      invariant n == Count(present[..i])
    {
      assert present[..i + 1][..i] == present[..i];
      if present[i] {
        n := n + 1;
      }
    }
    assert present[..present.Length] == present[..];
  }

  method ScanMissing(present: array<bool>, d: nat) returns (count: nat, idx: int)
    requires d <= present.Length
    ensures count == Missing(present[..], d) && idx == LastMissing(present[..], d)
  {
    count, idx := 0, -1;
    for i := 0 to d
      invariant count == i - Count(present[..i]) && idx == LastMissing(present[..], i)
    {
      assert present[..i + 1][..i] == present[..i];
      if !present[i] {
        count, idx := count + 1, i;
      }
    }
    assert present[..d] == present[..][..d];
  }

  method FindShardSize(shards: array<seq<byte>>, present: array<bool>) returns (size: nat)
    requires shards.Length == present.Length
    ensures size == FirstLength(shards[..], present[..], 0)
  {
    for i := 0 to shards.Length
      invariant FirstLength(shards[..], present[..], 0) == FirstLength(shards[..], present[..], i)
    {
      if present[i] && |shards[i]| > 0 {
        return |shards[i]|;
      }
    }
    size := 0;
  }

  method FindParity(present: array<bool>, d: nat) returns (parity: nat)
    requires d <= present.Length
    ensures parity == FirstSet(present[..], d)
  {
    parity := d;
    while parity < present.Length && !present[parity]
      invariant d <= parity <= present.Length
      invariant FirstSet(present[..], d) == FirstSet(present[..], parity)
    {
      parity := parity + 1;
    }
  }

  method Concatenate(shards: array<seq<byte>>, d: nat) returns (data: seq<byte>)
    requires d <= shards.Length
    ensures data == Flatten(shards[..], d)
  {
    data := [];
    for k := 0 to d
      invariant data == Flatten(shards[..], k)
    {
      data := data + shards[k];
    }
  }

  /** Repairs the one missing data shard in place and returns the data shards laid end to end. A panic ends
      the process, so nothing is said about the arrays after one. */
  method Decode(c: Codec, shards: array<seq<byte>>, present: array<bool>) returns (r: Result<seq<byte>>)
    modifies shards, present
    ensures r == old(Decoded(c, shards[..], present[..]))
    ensures r.Ok? ==> shards[..] == old(Repaired(c, shards[..], present[..])).value
    ensures r.Ok? ==> forall i | 0 <= i < c.dataShards :: i < present.Length && present[i]
    ensures r.Err? ==> shards[..] == old(shards[..]) && present[..] == old(present[..])
  {
    if shards.Length != c.Total() {
      return Err(WrongNumberOfShards);
    }
    if present.Length != shards.Length {
      return Err(PresenceLengthMismatch);
    }
    var presentCount := CountPresent(present);
    if presentCount < c.dataShards {
      return Err(NotEnoughShards);
    }
    var size := FindShardSize(shards, present);
    if size == 0 {
      return Err(NoValidShards);
    }
    var missing, m := ScanMissing(present, c.dataShards);
    if missing > 1 {
      return Err(TooManyMissing);
    }
    CountPositive(present[..][..c.dataShards]);
    if missing == 1 {
      OnlyOneMissing(present[..], c.dataShards);
      var parity := FindParity(present, c.dataShards);
      if parity == present.Length {
        return Err(NoParityAvailable);
      }
      var shard := Rebuild(shards[..], c.dataShards, m, parity, size);
      if shard.None? {
        return Panic;
      }
      shards[m] := shard.value;
      present[m] := true;
    } else {
      forall k | 0 <= k < c.dataShards ensures present[k] {
        assert present[..][..c.dataShards][k];
      }
    }
    var result := Concatenate(shards, c.dataShards);
    r := Ok(result);
  }

  /** The reconstruction loop; `None` where an index runs past the end of a shorter shard. */
  method Rebuild(shards: seq<seq<byte>>, d: nat, m: nat, parity: nat, size: nat) returns (shard: Option<seq<byte>>)
    requires parity < |shards| && d <= |shards|
    ensures shard == if Long(shards, d, m, parity, size) then Some(Rebuilt(shards, d, m, parity, size)) else None
  {
    var buf := new byte[size](_ => 0);
    for j := 0 to size
      invariant Long(shards, d, m, parity, j)
      invariant forall i | 0 <= i < j :: buf[i] == Xor8(XorColumn(shards, d, m, i), shards[parity][i])
    {
      var val := XorAt(shards, d, m, j);
      if val.None? || j >= |shards[parity]| {
        return None;
      }
      buf[j] := Xor8(val.value, shards[parity][j]);
    }
    assert buf[..] == Rebuilt(shards, d, m, parity, size);
    shard := Some(buf[..]);
  }

  /** The inner loop of the reconstruction. */
  method XorAt(shards: seq<seq<byte>>, d: nat, m: nat, j: nat) returns (val: Option<byte>)
    requires d <= |shards|
    ensures val == if HasColumn(shards, d, m, j) then Some(XorColumn(shards, d, m, j)) else None
  {
    var v: byte := 0;
    for k := 0 to d
      invariant HasColumn(shards, k, m, j) && v == XorColumn(shards, k, m, j)
    {
      if k != m {
        if j >= |shards[k]| {
          return None;
        }
        v := Xor8(v, shards[k][j]);
      }
    }
    val := Some(v);
  }
}
