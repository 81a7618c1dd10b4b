/** Byte strings and sequences of chunks, as the server streams them. */
module Bytes {

  type byte = bv8

  /** `n` zero bytes: the Python value `b"\x00" * n`. */
  function Zeros(n: nat): (z: seq<byte>)
    ensures |z| == n
    ensures forall i :: 0 <= i < n ==> z[i] == 0
  {
    seq(n, _ => 0)
  }

  /** True when every byte of `s` is zero. */
  predicate AllZero(s: seq<byte>)
  {
    forall i :: 0 <= i < |s| ==> s[i] == 0
  }

  /** The bytes of a chunked stream, in order: `b"".join(chunks)`. */
  function Flatten(chunks: seq<seq<byte>>): seq<byte>
  {
    if chunks == [] then [] else chunks[0] + Flatten(chunks[1..])
  }

  /** The sum of the chunk lengths: what `total += len(chunk)` accumulates. */
  function SumLengths(chunks: seq<seq<byte>>): nat
  {
    if chunks == [] then 0 else |chunks[0]| + SumLengths(chunks[1..])
  }

  /** Summing the chunk lengths counts exactly the bytes of the joined stream. */
  lemma {:induction false} SumLengthsIsFlattenLength(chunks: seq<seq<byte>>)
    ensures SumLengths(chunks) == |Flatten(chunks)|
  {
    if chunks != [] {
      SumLengthsIsFlattenLength(chunks[1..]);
    }
  }

  /** Appending one chunk adds its length to the running sum. */
  lemma {:induction false} SumLengthsSnoc(chunks: seq<seq<byte>>, c: seq<byte>)
    ensures SumLengths(chunks + [c]) == SumLengths(chunks) + |c|
  {
    if chunks == [] {
      assert chunks + [c] == [c];
      assert [c][1..] == [];
    } else {
      assert (chunks + [c])[1..] == chunks[1..] + [c];
      SumLengthsSnoc(chunks[1..], c);
    }
  }
}
