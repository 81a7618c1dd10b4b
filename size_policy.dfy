/**
 * The download size policy of the `/download` handler (app.py:50-59): parse
 * `size_mb`, fall back to 5.0, clamp to [0.5, 100.0] megabytes and convert to
 * a byte count with binary megabytes (1 MiB = 1048576 bytes).
 */
module SizePolicy {
  import opened Wrappers

  const DefaultSizeMb: real := 5.0
  const MinSizeMb: real := 0.5
  const MaxSizeMb: real := 100.0
  const BytesPerMiB: nat := 1024 * 1024

  const MinDownloadBytes: nat := 524288
  const MaxDownloadBytes: nat := 104857600
  const DefaultDownloadBytes: nat := 5242880

  /** `DOWNLOAD_SIZES_MB`: the sizes the UI suggests, advisory only. */
  const DownloadSizesMb: seq<real> := [0.5, 1.0, 2.0, 5.0, 10.0]

  /** A Python float: a finite value, an infinity, or NaN. */
  datatype PyFloat = Finite(v: real) | PosInf | NegInf | NaN

  /** Python's `a < b` on floats: every comparison with NaN is false. */
  predicate Less(a: PyFloat, b: PyFloat)
  {
    match (a, b)
    case (NaN, _) => false
    case (_, NaN) => false
    case (NegInf, _) => b != NegInf
    case (_, PosInf) => a != PosInf
    case (Finite(x), Finite(y)) => x < y
    case _ => false
  }

  /** The built-in `max(a, b)`: keeps `a` unless `b > a`. */
  function PyMax(a: PyFloat, b: PyFloat): PyFloat
  {
    if Less(a, b) then b else a
  }

  /** The built-in `min(a, b)`: keeps `a` unless `b < a`. */
  function PyMin(a: PyFloat, b: PyFloat): PyFloat
  {
    if Less(b, a) then b else a
  }

  /** The exceptions `int(float)` can raise. */
  datatype PyError = ValueError | OverflowError

  /** Python's `int(x)` on a real value: truncation toward zero. */
  function Truncate(x: real): (n: int)
    ensures 0.0 <= x ==> n as real <= x < n as real + 1.0
    ensures x <= 0.0 ==> n as real - 1.0 < x <= n as real
  {
    if x >= 0.0 then x.Floor else -((-x).Floor)
  }

  /** Python's `int(x)` on a float: NaN and the infinities raise. */
  function IntOfFloat(x: PyFloat): Result<int, PyError>
  {
    match x
    case Finite(v) => Success(Truncate(v))
    case NaN => Failure(ValueError)
    case _ => Failure(OverflowError)
  }

  /** `x * 1024 * 1024`; a scaling by a power of two, exact on the values the clamp lets through. */
  function ScaleToBytes(x: PyFloat): PyFloat
  {
    match x
    case Finite(v) => Finite(v * BytesPerMiB as real)
    case _ => x
  }

  /**
   * What the `size_mb` query parameter contributes: `Absent` when it is not in
   * the query string, otherwise the outcome of `float(...)` on its text, `None`
   * when that raised `ValueError`.
   */
  datatype SizeArg = Absent | Given(parsed: Option<PyFloat>)

  /** app.py:50-53: `float(request.args.get("size_mb", "5"))`, or 5.0 on `ValueError`. */
  function ParsedSizeMb(arg: SizeArg): PyFloat
  {
    match arg
    case Absent => Finite(5.0)
    case Given(None) => Finite(DefaultSizeMb)
    case Given(Some(f)) => f
  }

  /** app.py:56 as written, on Python floats: `min(max(size_mb, 0.5), 100.0)`. */
  function ClampAsWritten(x: PyFloat): PyFloat
  {
    PyMin(PyMax(x, Finite(MinSizeMb)), Finite(MaxSizeMb))
  }

  /** app.py:50-59 as written: the byte count, or the exception `int(...)` raises. */
  function DownloadBytesAsWritten(arg: SizeArg): Result<int, PyError>
  {
    IntOfFloat(ScaleToBytes(ClampAsWritten(ParsedSizeMb(arg))))
  }

  /** The clamp on finite values: the nearest point of [0.5, 100.0]. */
  function ClampMb(x: real): (r: real)
    ensures MinSizeMb <= r <= MaxSizeMb
    ensures MinSizeMb <= x <= MaxSizeMb ==> r == x
    ensures x < MinSizeMb ==> r == MinSizeMb
    ensures x > MaxSizeMb ==> r == MaxSizeMb
  {
    if x < MinSizeMb then MinSizeMb else if x > MaxSizeMb then MaxSizeMb else x
  }

  /** The clamp extended to the infinities. */
  function ClampNumber(x: PyFloat): (r: real)
    requires !x.NaN?
    ensures MinSizeMb <= r <= MaxSizeMb
  {
    match x
    case Finite(v) => ClampMb(v)
    case PosInf => MaxSizeMb
    case NegInf => MinSizeMb
  }

  /** Python's `min(max(x, 0.5), 100.0)` agrees with the clamp on every value but NaN. */
  lemma ClampAsWrittenOnNumbers(x: PyFloat)
    requires !x.NaN?
    ensures ClampAsWritten(x) == Finite(ClampNumber(x))
  {
  }

  /** NaN passes both `max` and `min` unchanged, so it escapes the clamp. */
  lemma ClampAsWrittenKeepsNaN()
    ensures ClampAsWritten(NaN) == NaN
  {
  }

  /**
   * `size_mb=nan` parses, survives the clamp and makes `int(...)` raise
   * `ValueError`, which nothing in the handler catches.
   */
  lemma NaNSizeRaises()
    ensures DownloadBytesAsWritten(Given(Some(NaN))) == Failure(ValueError)
  {
    ClampAsWrittenKeepsNaN();
  }

  /** The parsed size, with NaN treated like any other unparsable text. */
  function ParsedOrDefault(arg: SizeArg): (f: PyFloat)
    ensures !f.NaN?
    ensures arg.Absent? || arg.parsed.None? || arg.parsed.value.NaN? ==> f == Finite(DefaultSizeMb)
    ensures arg.Given? && arg.parsed.Some? && !arg.parsed.value.NaN? ==> f == arg.parsed.value
  {
    var f := ParsedSizeMb(arg);
    if f.NaN? then Finite(DefaultSizeMb) else f
  }

  /** The effective download size in megabytes. */
  function SizeMb(arg: SizeArg): (r: real)
    ensures MinSizeMb <= r <= MaxSizeMb
  {
    ClampNumber(ParsedOrDefault(arg))
  }

  /** app.py:59: `int(size_mb * 1024 * 1024)` for a clamped size. */
  function TotalBytes(sizeMb: real): (n: nat)
    requires MinSizeMb <= sizeMb <= MaxSizeMb
    ensures MinDownloadBytes <= n <= MaxDownloadBytes
    ensures n as real <= sizeMb * BytesPerMiB as real < n as real + 1.0
  {
    var scaled := sizeMb * BytesPerMiB as real;
    assert MinDownloadBytes as real <= scaled <= MaxDownloadBytes as real;
    Truncate(scaled)
  }

  /** The byte count the download advertises and streams. */
  function DownloadBytes(arg: SizeArg): (n: nat)
    ensures MinDownloadBytes <= n <= MaxDownloadBytes
  {
    TotalBytes(SizeMb(arg))
  }

  /** Wherever the parsed size is not NaN, the handler as written computes `DownloadBytes`. */
  lemma {:induction false} AsWrittenAgreesOffNaN(arg: SizeArg)
    requires !ParsedSizeMb(arg).NaN?
    ensures DownloadBytesAsWritten(arg) == Success(DownloadBytes(arg))
  {
    ClampAsWrittenOnNumbers(ParsedSizeMb(arg));
  }

  /** A size inside [0.5, 100.0] is used unchanged: `floor(size_mb * 1048576)` bytes. */
  lemma InRangeSizeBytes(v: real)
    requires MinSizeMb <= v <= MaxSizeMb
    ensures SizeMb(Given(Some(Finite(v)))) == v
    ensures DownloadBytes(Given(Some(Finite(v)))) == (v * 1048576.0).Floor
  {
  }

  /** Sizes below 0.5 or above 100.0 (infinities included) are snapped to the nearer bound. */
  lemma OutOfRangeSizeBytes(f: PyFloat)
    requires Less(f, Finite(MinSizeMb)) || Less(Finite(MaxSizeMb), f)
    ensures Less(f, Finite(MinSizeMb)) ==> DownloadBytes(Given(Some(f))) == MinDownloadBytes
    ensures Less(Finite(MaxSizeMb), f) ==> DownloadBytes(Given(Some(f))) == MaxDownloadBytes
  {
  }

  /** A missing parameter, unparsable text and NaN all give the default 5 MiB. */
  lemma DefaultSizeBytes(arg: SizeArg)
    requires arg.Absent? || arg.parsed.None? || arg.parsed.value.NaN?
    ensures SizeMb(arg) == DefaultSizeMb
    ensures DownloadBytes(arg) == DefaultDownloadBytes
  {
  }

  /** Every suggested size lies in [0.5, 100.0], so the clamp leaves it unchanged. */
  lemma SuggestedSizesUnclamped()
    ensures forall i :: 0 <= i < |DownloadSizesMb| ==> ClampMb(DownloadSizesMb[i]) == DownloadSizesMb[i]
  {
  }
}
