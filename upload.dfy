/**
 * The `/upload` handler (app.py:67-88): count the bytes of the request body by
 * reading it in pieces of at most `ChunkSize` bytes until a read comes back
 * empty, then floor the elapsed time and compute megabits per second.
 */
module Upload {
  import opened Bytes

  /**
   * The request stream is given by the successive results of
   * `request.stream.read(CHUNK_SIZE)`; once the sequence is used up every
   * further read returns `b""`.
   */
  function ReadAt(stream: seq<seq<byte>>, i: nat): seq<byte>
  {
    if i < |stream| then stream[i] else []
  }

  /** The index of the first empty read: the one that ends the loop. */
  function FirstEmpty(stream: seq<seq<byte>>): (k: nat)
    ensures k <= |stream|
    ensures forall j :: 0 <= j < k ==> stream[j] != []
    ensures k < |stream| ==> stream[k] == []
  {
    if stream == [] || stream[0] == [] then 0 else 1 + FirstEmpty(stream[1..])
  }

  /** The stream the loop consumes before it stops. */
  function Consumed(stream: seq<seq<byte>>): seq<seq<byte>>
  {
    stream[..FirstEmpty(stream)]
  }

  /** app.py:71-76: `total += len(chunk)` until `not chunk`. */
  method CountUpload(stream: seq<seq<byte>>) returns (total: nat)
    ensures total == SumLengths(Consumed(stream))
    ensures total == |Flatten(Consumed(stream))|
  {
    total := 0;
    var i := 0;
    while true
      invariant 0 <= i <= FirstEmpty(stream)
      invariant total == SumLengths(stream[..i])
      decreases |stream| - i
    {
      var chunk := ReadAt(stream, i);
      if chunk == [] {
        break;
      }
      SumLengthsSnoc(stream[..i], chunk);
      assert stream[..i + 1] == stream[..i] + [chunk];
      total := total + |chunk|;
      i := i + 1;
    }
    SumLengthsIsFlattenLength(Consumed(stream));
  }

  /**
   * However a body of `data` is fragmented into non-empty reads, and whatever
   * the stream would return after its end-of-data read, the count is `|data|`.
   */
  lemma {:induction false} CountIgnoresFragmentation(pieces: seq<seq<byte>>, after: seq<seq<byte>>, data: seq<byte>)
    requires forall j :: 0 <= j < |pieces| ==> pieces[j] != []
    requires Flatten(pieces) == data
    ensures Consumed(pieces + [[]] + after) == pieces
    ensures SumLengths(Consumed(pieces + [[]] + after)) == |data|
  {
    FirstEmptyAfterPieces(pieces, after);
    assert (pieces + [[]] + after)[..|pieces|] == pieces;
    SumLengthsIsFlattenLength(pieces);
  }

  /** The first empty read is the end-of-data marker that follows the non-empty pieces. */
  lemma {:induction false} FirstEmptyAfterPieces(pieces: seq<seq<byte>>, after: seq<seq<byte>>)
    requires forall j :: 0 <= j < |pieces| ==> pieces[j] != []
    ensures FirstEmpty(pieces + [[]] + after) == |pieces|
  {
    var s := pieces + [[]] + after;
    if pieces == [] {
      assert s[0] == [];
    } else {
      assert s[0] == pieces[0];
      assert s[1..] == pieces[1..] + [[]] + after;
      FirstEmptyAfterPieces(pieces[1..], after);
    }
  }

  /** The `1e-6` second floor on the measured duration. */
  const MinDuration: real := 0.000001

  /** app.py:78: `max(duration, 1e-6)`. */
  function FloorDuration(elapsed: real): (d: real)
    ensures d > 0.0 && d >= MinDuration && d >= elapsed
    ensures elapsed >= MinDuration ==> d == elapsed
    ensures elapsed < MinDuration ==> d == MinDuration
  {
    if MinDuration > elapsed then MinDuration else elapsed
  }

  /** app.py:79: `(total * 8) / duration / 1_000_000`, over the reals, in decimal megabits. */
  function Mbps(total: nat, duration: real): (r: real)
    requires duration > 0.0
    ensures r >= 0.0
    ensures r * duration * 1000000.0 == (total * 8) as real
    ensures r == 0.0 <==> total == 0
  {
    (total * 8) as real / duration / 1000000.0
  }

  /** The JSON body of the upload response. */
  datatype UploadResult = UploadResult(status: string, bytesReceived: nat, durationSeconds: real, uploadMbps: real)

  /** The `/upload` handler; `elapsed` stands for `time.monotonic() - start`. */
  method ServeUpload(stream: seq<seq<byte>>, elapsed: real) returns (res: UploadResult)
    ensures res.status == "ok"
    ensures res.bytesReceived == SumLengths(Consumed(stream))
    ensures res.durationSeconds > 0.0 && res.durationSeconds == FloorDuration(elapsed)
    ensures res.uploadMbps >= 0.0
    ensures res.uploadMbps * res.durationSeconds * 1000000.0 == (res.bytesReceived * 8) as real
  {
    var total := CountUpload(stream);
    var duration := FloorDuration(elapsed);
    var mbps := Mbps(total, duration);
    res := UploadResult("ok", total, duration, mbps);
  }
}
