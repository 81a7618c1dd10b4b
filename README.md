# Speed-test server: transfer core

A model of the byte-streaming core of a small speed-test server (`app.py`).
The server offers three relevant pieces of logic:

- the **download generator** `generate_data`, which cuts a byte count into
  zero-filled chunks of at most `CHUNK_SIZE` = 64 KiB;
- the **download size policy** of `/download`, which parses `size_mb`, falls
  back to 5.0, clamps to [0.5, 100.0] and converts binary megabytes to bytes;
  that count is both the `Content-Length` header and the generator's input;
- the **upload counter** of `/upload`, which reads the request body in pieces
  until an empty read, sums their lengths, floors the elapsed time at 1e-6 s
  and reports decimal megabits per second.

Modules, one per component:

- `Wrappers` (`wrappers.dfy`): `Option` and `Result`.
- `Bytes` (`bytes.dfy`): zero bytes, joining chunks, summing chunk lengths.
- `Generator` (`generator.dfy`): the chunk specification `Chunks`. The loop
  `GenerateData` drains the generator into a list. The class `ChunkStream` is
  the suspended generator: each `Next` runs one loop iteration and yields one
  chunk, or reports that the generator is exhausted.
- `SizePolicy` (`size_policy.dfy`): Python floats (finite, the two
  infinities, NaN) with Python's comparison, `min`, `max` and `int()`
  semantics. It holds the policy as written and the policy the rest of the
  model uses.
- `Download` (`download.dfy`): the `/download` response.
- `Upload` (`upload.dfy`): the upload read loop, the duration floor and the
  throughput.

Inputs the server gets from its environment are parameters:

- The outcome of `float(...)` on the query text is a `SizeArg`.
- The request stream is the sequence of values its successive reads return.
- The elapsed monotonic time is a `real`.

## Model

| member | source | states |
|---|---|---|
| `Bytes.Zeros` | app.py:40 | `b"\x00" * n`: exactly `n` bytes, every one of them zero |
| `Bytes.SumLengths` | app.py:76 | no contract; `total += len(chunk)` over the reads, characterized by `Bytes.SumLengthsIsFlattenLength` and `Upload.CountUpload` |
| `SizePolicy.PyMax` | app.py:56 | no contract; the builtin `max(a, b)`, which keeps `a` unless `b > a`; characterized by `SizePolicy.ClampAsWrittenOnNumbers` and `SizePolicy.ClampAsWrittenKeepsNaN` |
| `SizePolicy.PyMin` | app.py:56 | no contract; the builtin `min(a, b)`, which keeps `a` unless `b < a`; characterized by `SizePolicy.ClampAsWrittenOnNumbers` and `SizePolicy.ClampAsWrittenKeepsNaN` |
| `SizePolicy.ParsedSizeMb` | app.py:50-53 | no contract; `float(request.args.get("size_mb", "5"))` with 5.0 on `ValueError`, as written (NaN is kept); characterized by `SizePolicy.NaNSizeRaises` and `SizePolicy.AsWrittenAgreesOffNaN` |
| `SizePolicy.ClampAsWritten` | app.py:56 | no contract; `min(max(size_mb, 0.5), 100.0)` on Python floats; characterized by `SizePolicy.ClampAsWrittenOnNumbers` and `SizePolicy.ClampAsWrittenKeepsNaN` |
| `SizePolicy.ScaleToBytes` | app.py:59 | no contract; `size_mb * 1024 * 1024`; characterized by `SizePolicy.AsWrittenAgreesOffNaN` |
| `SizePolicy.IntOfFloat` | app.py:59 | no contract; `int(x)`: truncation for finite values, `ValueError` for NaN, `OverflowError` for the infinities; characterized by `SizePolicy.NaNSizeRaises` and `SizePolicy.AsWrittenAgreesOffNaN` |
| `SizePolicy.DownloadBytesAsWritten` | app.py:50-59 | no contract; the byte count as the source computes it, or the exception it raises; characterized by `SizePolicy.NaNSizeRaises` and `SizePolicy.AsWrittenAgreesOffNaN` |
| `Upload.ReadAt` | app.py:73 | no contract; `request.stream.read(CHUNK_SIZE)`: the i-th read result, empty once the stream is used up; the loop's use of it is characterized by `Upload.CountUpload` |
| `Generator.Min` | app.py:42 | no contract; `min(a, b)` on ints, keeps `a` unless `b < a`; characterized by `Generator.Chunks` and `Generator.ChunksCount` |
| `SizePolicy.Less` | app.py:56 | no contract; Python float `<`, false whenever NaN is an operand; characterized by `SizePolicy.ClampAsWrittenOnNumbers` and `SizePolicy.ClampAsWrittenKeepsNaN` |
| `Generator.ChunkStream.Done` | app.py:41 | no contract; the failed `while remaining > 0` test that exhausts the generator; characterized by `Generator.ChunkStream.Next`, which yields nothing exactly when it holds |
| `Generator.Chunks` | app.py:37-44 | no chunks exactly when the count is not positive; every chunk has 1 to 65536 bytes, all zero; every chunk but the last has exactly 65536 bytes |
| `Generator.ChunksJoinToZeros` | app.py:39-44 | the chunks joined are exactly `max(total_bytes, 0)` zero bytes, so the body length equals the requested count |
| `Generator.ChunksCount` | app.py:41-44 | the number of chunks is `ceil(total_bytes / 65536)`, and 0 for a count that is not positive |
| `Generator.LastChunkLength` | app.py:41-44 | the final chunk carries the remainder, `(total_bytes - 1) % 65536 + 1` bytes |
| `Generator.GenerateData` | app.py:37-44 | the `while remaining > 0` loop yields exactly `Chunks(total_bytes)`: total length, zero content, chunk count and chunk sizes as above (its loop invariant keeps `remaining` either untouched or in `[0, total_bytes)`) |
| `Generator.ChunkStream.constructor` | app.py:37-40 | a fresh generator has yielded nothing and has `total_bytes` remaining |
| `Generator.ChunkStream.Next` | app.py:41-44 | one resumption: yields `min(65536, remaining)` zero bytes and lowers `remaining` by that amount without going below 0, or yields nothing once `remaining <= 0`; at that point everything yielded so far is `Chunks(total_bytes)` |
| `Bytes.SumLengthsIsFlattenLength` | app.py:72-76 | summing the lengths of the reads counts exactly the bytes of the joined body |
| `SizePolicy.Truncate` | app.py:59 | `int()` of a float truncates toward zero: the result is the floor for non-negative values and the ceiling for non-positive ones |
| `SizePolicy.ClampMb` | app.py:56 | the clamped size lies in [0.5, 100.0]; it is unchanged inside that range and snapped to the nearer bound outside it |
| `SizePolicy.ClampNumber` | app.py:56 | the clamp extended to the infinities still lies in [0.5, 100.0] |
| `SizePolicy.ClampAsWrittenOnNumbers` | app.py:56 | Python's `min(max(x, 0.5), 100.0)` equals the clamp for every float except NaN, infinities included |
| `SizePolicy.ClampAsWrittenKeepsNaN` | app.py:56 | `min(max(nan, 0.5), 100.0)` is NaN |
| `SizePolicy.NaNSizeRaises` | app.py:50-59 | `size_mb=nan` makes the byte conversion raise `ValueError` as written |
| `SizePolicy.ParsedOrDefault` | app.py:50-53 | a missing parameter, a parse failure or NaN gives 5.0; any other parsed float is kept (corrected policy, see ## Findings) |
| `SizePolicy.SizeMb` | app.py:50-56 | the effective size always lies in [0.5, 100.0] (corrected policy, see ## Findings) |
| `SizePolicy.TotalBytes` | app.py:59 | `int(size_mb * 1048576)` is the floor of the scaled size and lies in [524288, 104857600] |
| `SizePolicy.DownloadBytes` | app.py:50-59 | the download byte count always lies in [524288, 104857600] (corrected policy, see ## Findings) |
| `SizePolicy.AsWrittenAgreesOffNaN` | app.py:50-59 | for every input whose parsed value is not NaN, the code as written returns `DownloadBytes` without raising |
| `SizePolicy.InRangeSizeBytes` | app.py:56-59 | a size in [0.5, 100.0] is used unchanged and gives `floor(size_mb * 1048576)` bytes |
| `SizePolicy.OutOfRangeSizeBytes` | app.py:56-59 | a size below 0.5 (including -inf) gives 524288 bytes; one above 100.0 (including +inf) gives 104857600 |
| `SizePolicy.DefaultSizeBytes` | app.py:50-59 | a missing parameter, an unparsable value or NaN gives size 5.0, that is 5242880 bytes (corrected policy, see ## Findings) |
| `SizePolicy.SuggestedSizesUnclamped` | app.py:11 | each suggested size in `DOWNLOAD_SIZES_MB` lies in the clamp range and is left unchanged by the clamp |
| `Download.ServeDownload` | app.py:47-64 | `Content-Type` is `application/octet-stream`; the advertised `Content-Length` is `DownloadBytes` and equals the length of the streamed body; the body is exactly the generator's chunks `Chunks(Content-Length)`, all zeros in chunks of 1 to 65536 bytes (corrected policy, see ## Findings) |
| `Upload.FirstEmpty` | app.py:72-75 | the loop stops at the first empty read: every earlier read is non-empty |
| `Upload.CountUpload` | app.py:70-76 | the total is the sum of the lengths of all reads before the first empty read, which is the length of the bytes they deliver |
| `Upload.FirstEmptyAfterPieces` | app.py:72-75 | after non-empty pieces, the end-of-data read is the first empty one |
| `Upload.CountIgnoresFragmentation` | app.py:72-76 | however a body is split into non-empty reads, and whatever follows the empty read, the count is the body length |
| `Upload.FloorDuration` | app.py:78 | the floored duration is positive and at least 1e-6; it equals the measured duration when that duration is at least 1e-6 |
| `Upload.Mbps` | app.py:79 | the throughput is non-negative; multiplied by the duration and 1,000,000 it gives back the number of bits; it is zero exactly for an empty upload |
| `Upload.ServeUpload` | app.py:67-88 | status is `ok`; `bytes_received` is the upload count; `duration_seconds` is the floored duration (> 0); `upload_mbps` is bits per second over 1,000,000 |

## Findings

| source | as written | input that shows it | evidently intended | confidence | as-written member | corrected member |
|---|---|---|---|---|---|---|
| app.py:50-59 | `float()` accepts `"nan"`. Python's `max` and `min` keep their first argument when a comparison is false, so NaN passes the clamp. Then `int(nan * 1024 * 1024)` raises `ValueError` outside the `try`, and the request fails. | `GET /download?size_mb=nan` | treat NaN like any other unusable value: default 5.0, so 5242880 bytes | not executed; follows from CPython's documented `float`, `min`, `max` and `int` behaviour | `SizePolicy.NaNSizeRaises` | `SizePolicy.DefaultSizeBytes` |

The rest of the model (`SizePolicy.DownloadBytes`, `Download.ServeDownload`)
uses the corrected policy. `SizePolicy.AsWrittenAgreesOffNaN` proves that the
correction changes nothing for any other input.

## Left out

- Flask plumbing is not modelled: the app object, routing, `Response`/`stream_with_context`, `jsonify`, `send_from_directory`, CORS and the cache-defeating header hook. It is framework glue with no logic of its own.
- `/ping` and the clocks (`time.time`, `time.monotonic`) are not modelled. The elapsed upload time is an arbitrary `real` parameter of `Upload.ServeUpload`.
- `float(str)` parsing is not modelled. Only its outcome is: a Python float, or failure.
- The blocking of `request.stream.read` is not modelled. The stream is a finite sequence of read results, and every read after that sequence returns empty. A stream that never ends is therefore not represented.
- `Content-Length` is `str(total_bytes)` in the source; the model keeps the integer and does not model the decimal rendering.
- Upload.Mbps: computed over exact reals, not IEEE doubles. Its contract relates the result to the bits and the duration exactly, where the source holds this only up to rounding.
- Upload.FloorDuration: `1e-6` is taken as the exact real 0.000001, not the nearest double.
- SizePolicy.ScaleToBytes: multiplies exactly and ignores overflow to infinity. This is exact for the clamped values in [0.5, 100.0] it is applied to, since multiplying by 2^20 is exact for doubles in that range.
- Upload.CountUpload: does not model the `CHUNK_SIZE` bound on each read, because the count does not depend on how the stream fragments the body (`Upload.CountIgnoresFragmentation`).
- Generator.GenerateData: builds the whole list of chunks at once rather than yielding lazily. The lazy, pull-driven behaviour is `Generator.ChunkStream`.
