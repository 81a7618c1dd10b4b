/**
 * The download payload generator (`generate_data` in app.py): a byte count is
 * cut into zero-filled chunks of at most `ChunkSize` bytes.
 */
module Generator {
  import opened Wrappers
  import opened Bytes

  /** `CHUNK_SIZE = 64 * 1024`. */
  const ChunkSize: nat := 64 * 1024

  /** Python's `min(a, b)` on integers. */
  function Min(a: int, b: int): int
  {
    if b < a then b else a
  }

  /**
   * The chunks the generator yields for `remaining` bytes still to send:
   * `min(ChunkSize, remaining)` zero bytes, then the chunks for what is left.
   * Nothing at all once `remaining` is zero or negative.
   */
  function Chunks(remaining: int): (r: seq<seq<byte>>)
    decreases remaining
    ensures r == [] <==> remaining <= 0
    ensures forall i :: 0 <= i < |r| ==> 0 < |r[i]| <= ChunkSize && AllZero(r[i])
    ensures forall i :: 0 <= i < |r| - 1 ==> |r[i]| == ChunkSize
  {
    if remaining <= 0 then []
    else
      var toSend := Min(ChunkSize, remaining);
      [Zeros(ChunkSize)[..toSend]] + Chunks(remaining - toSend)
  }

  /** The number of chunks for `n` bytes: the ceiling of `n / ChunkSize`, and none for `n <= 0`. */
  function ChunkCount(n: int): nat
  {
    if n <= 0 then 0 else (n + ChunkSize - 1) / ChunkSize
  }

  /** The whole download body, joined, is exactly `max(n, 0)` zero bytes. */
  lemma {:induction false} ChunksJoinToZeros(n: int)
    ensures Flatten(Chunks(n)) == Zeros(if n <= 0 then 0 else n)
  {
    if n > 0 {
      var toSend := Min(ChunkSize, n);
      var rest := Chunks(n - toSend);
      assert Chunks(n)[1..] == rest;
      ChunksJoinToZeros(n - toSend);
      var m := if n - toSend <= 0 then 0 else n - toSend;
      assert m == n - toSend;
      assert Zeros(ChunkSize)[..toSend] + Zeros(m) == Zeros(n);
    }
  }

  /** The number of chunks is `ceil(n / ChunkSize)`. */
  lemma {:induction false} ChunksCount(n: int)
    ensures |Chunks(n)| == ChunkCount(n)
  {
    if n > 0 {
      var toSend := Min(ChunkSize, n);
      ChunksCount(n - toSend);
      if n > ChunkSize {
        assert (n + ChunkSize - 1) / ChunkSize == (n - ChunkSize + ChunkSize - 1) / ChunkSize + 1;
      }
    }
  }

  /** The last chunk carries the remainder: `(n - 1) % ChunkSize + 1` bytes. */
  lemma {:induction false} LastChunkLength(n: int)
    requires n > 0
    ensures |Chunks(n)[|Chunks(n)| - 1]| == (n - 1) % ChunkSize + 1
  {
    var toSend := Min(ChunkSize, n);
    if n > ChunkSize {
      LastChunkLength(n - toSend);
      assert Chunks(n)[|Chunks(n)| - 1] == Chunks(n - toSend)[|Chunks(n - toSend)| - 1];
      assert (n - 1) % ChunkSize == (n - ChunkSize - 1) % ChunkSize;
    }
  }

  /**
   * `generate_data(total_bytes)` drained into a list: the `while remaining > 0`
   * loop, with each `yield` appending to `chunks`.
   */
  method GenerateData(totalBytes: int) returns (chunks: seq<seq<byte>>)
    ensures chunks == Chunks(totalBytes)
    ensures Flatten(chunks) == Zeros(if totalBytes <= 0 then 0 else totalBytes)
    ensures |chunks| == ChunkCount(totalBytes)
    ensures forall i :: 0 <= i < |chunks| ==> 0 < |chunks[i]| <= ChunkSize && AllZero(chunks[i])
    ensures forall i :: 0 <= i < |chunks| - 1 ==> |chunks[i]| == ChunkSize
  {
    var remaining := totalBytes;
    var chunk := Zeros(ChunkSize);
    chunks := [];
    while remaining > 0
      invariant remaining == totalBytes || 0 <= remaining < totalBytes
      invariant chunks + Chunks(remaining) == Chunks(totalBytes)
    {
      var toSend := Min(ChunkSize, remaining);
      assert Chunks(remaining) == [chunk[..toSend]] + Chunks(remaining - toSend);
      chunks := chunks + [chunk[..toSend]];
      remaining := remaining - toSend;
    }
    ChunksJoinToZeros(totalBytes);
    ChunksCount(totalBytes);
  }

  /**
   * The suspended generator object: each `Next` resumes the loop for one
   * iteration, yielding `chunk[:to_send]`, or reports that the loop has ended.
   * `Emitted` is the ghost record of what has been yielded so far.
   */
  class ChunkStream {
    var remaining: int
    const chunk: seq<byte>
    ghost const TotalBytes: int
    ghost var Emitted: seq<seq<byte>>

    /** What was yielded, followed by what is still to come, is the whole body. */
    ghost predicate Valid()
      reads this
    {
      chunk == Zeros(ChunkSize) &&
      Emitted + Chunks(remaining) == Chunks(TotalBytes) &&
      (remaining == TotalBytes || 0 <= remaining < TotalBytes)
    }

    /** The loop condition `remaining > 0` has failed: the generator is exhausted. */
    predicate Done()
      reads this
    {
      remaining <= 0
    }

    constructor (totalBytes: int)
      ensures Valid()
      ensures TotalBytes == totalBytes && remaining == totalBytes && Emitted == []
    {
      remaining := totalBytes;
      chunk := Zeros(ChunkSize);
      TotalBytes := totalBytes;
      Emitted := [];
    }

    method Next() returns (c: Option<seq<byte>>)
      requires Valid()
      modifies this
      ensures Valid()
      ensures c.None? <==> old(Done())
      ensures c.None? ==> remaining == old(remaining) && Emitted == old(Emitted) == Chunks(TotalBytes)
      ensures c.Some? ==> Emitted == old(Emitted) + [c.value]
      ensures c.Some? ==> c.value == Zeros(Min(ChunkSize, old(remaining)))
      ensures c.Some? ==> remaining == old(remaining) - |c.value| >= 0
    {
      if remaining <= 0 {
        assert Emitted + [] == Emitted;
        c := None;
      } else {
        var toSend := Min(ChunkSize, remaining);
        var piece := chunk[..toSend];
        assert piece == Zeros(toSend);
        assert Chunks(remaining) == [piece] + Chunks(remaining - toSend);
        assert (Emitted + [piece]) + Chunks(remaining - toSend) == Emitted + Chunks(remaining);
        c := Some(piece);
        Emitted := Emitted + [piece];
        remaining := remaining - toSend;
      }
    }
  }
}
