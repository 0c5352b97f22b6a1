/** Channel downmix and linear sample-rate conversion of PCM float signals.
    Sample values are reals; the double-precision rounding of the source's
    `i / ratio` is not modelled (the read position is computed exactly). */
module AudioResampler {
  import opened Wrappers
  import opened Samples
  import opened JvmInt

  // ---------------------------------------------------------------- downmix

  lemma FrameWithin(i: int, c: int, n: int)
    requires c > 0 && 0 <= i < n / c
    ensures 0 <= i * c && i * c + c <= n
  {
    MulMonotone(0, i, c);
    MulMonotone(i + 1, n / c, c);
    MulSucc(i, c);
    assert (n / c) * c + n % c == n;
  }

  /** Frame `i` of an interleaved signal with `c` channels. */
  function Frame(s: seq<real>, c: int, i: int): (f: seq<real>)
    requires c > 0 && 0 <= i < |s| / c
    ensures |f| == c
  {
    FrameWithin(i, c, |s|);
    s[i * c..i * c + c]
  }

  /** The mono signal: the arithmetic mean of each complete frame. */
  function Downmixed(s: seq<real>, c: int): (m: seq<real>)
    requires c > 0
    ensures |m| == |s| / c
  {
    seq(|s| / c, i requires 0 <= i < |s| / c => Sum(Frame(s, c, i)) / c as real)
  }

  /** `m` with every sample repeated on `c` channels. */
  function Interleaved(m: seq<real>, c: int): (s: seq<real>)
    requires c > 0
    ensures |s| == |m| * c
  {
    seq(|m| * c, j requires 0 <= j < |m| * c => m[j / c])
  }

  lemma {:induction false} SumConstant(s: seq<real>, x: real)
    requires forall i :: 0 <= i < |s| ==> s[i] == x
    ensures Sum(s) == |s| as real * x
  {
    if |s| > 0 {
      SumConstant(s[..|s| - 1], x);
    }
  }

  lemma DivideCount(c: int, x: real)
    requires c > 0
    ensures (c as real * x) / c as real == x
  {
  }

  lemma FrameOfInterleaved(m: seq<real>, c: int, i: int)
    requires c > 0 && 0 <= i < |m|
    ensures |Interleaved(m, c)| / c == |m|
    ensures forall k :: 0 <= k < c ==> Frame(Interleaved(m, c), c, i)[k] == m[i]
  {
    var s := Interleaved(m, c);
    DivUnique(|m| * c, c, |m|, 0);
    FrameWithin(i, c, |s|);
    forall k | 0 <= k < c
      ensures Frame(s, c, i)[k] == m[i]
    {
      DivUnique(i * c + k, c, i, k);
    }
  }

  /** Downmixing a signal copied onto every channel gives the signal back. */
  lemma DownmixInterleaved(m: seq<real>, c: int)
    requires c > 0
    ensures Downmixed(Interleaved(m, c), c) == m
  {
    var s := Interleaved(m, c);
    DivUnique(|m| * c, c, |m|, 0);
    forall i | 0 <= i < |m|
      ensures Downmixed(s, c)[i] == m[i]
    {
      FrameOfInterleaved(m, c, i);
      SumConstant(Frame(s, c, i), m[i]);
      DivideCount(c, m[i]);
    }
  }

  /** `downmixToMono`: the input itself for at most one channel, otherwise a
      fresh array of `size / channelCount` frame means (a trailing partial
      frame is dropped). */
  method DownmixToMono(interleaved: array<real>, channelCount: int) returns (mono: array<real>)
    ensures channelCount <= 1 ==> mono == interleaved
    ensures channelCount > 1 ==> fresh(mono) && mono[..] == Downmixed(interleaved[..], channelCount)
  {
    if channelCount <= 1 {
      return interleaved;
    }
    var s := interleaved[..];
    var frames := interleaved.Length / channelCount;
    mono := new real[frames];
    var src := 0;
    for i := 0 to frames
      invariant src == i * channelCount
      invariant forall j :: 0 <= j < i ==> mono[j] == Downmixed(s, channelCount)[j]
    {
      FrameWithin(i, channelCount, interleaved.Length);
      MulSucc(i, channelCount);
      var sum := 0.0;
      for c := 0 to channelCount
        invariant src == i * channelCount + c
        invariant sum == Sum(s[i * channelCount..src])
      {
        assert s[i * channelCount..src + 1][..c] == s[i * channelCount..src];
        sum := sum + interleaved[src];
        src := src + 1;
      }
      assert s[i * channelCount..src] == Frame(s, channelCount, i);
      mono[i] := sum / channelCount as real;
    }
  }

  // --------------------------------------------------------------- resample

  datatype ResampleError = InvalidSampleRates(inRate: int, outRate: int)

  /** `max(1, (size * outRate / inRate).toInt())`: floor, never below 1. */
  function OutLength(n: int, inRate: int, outRate: int): int
    requires n >= 0 && inRate > 0 && outRate > 0
  {
    var l := (n * outRate) / inRate;
    if l < 1 then 1 else l
  }

  /** The integer part of the read position `i / ratio = i * inRate / outRate`. */
  function SourceIndex(i: int, inRate: int, outRate: int): int
    requires i >= 0 && inRate > 0 && outRate > 0
  {
    (i * inRate) / outRate
  }

  /** The fractional part of the read position. */
  function Fraction(i: int, inRate: int, outRate: int): real
    requires i >= 0 && inRate > 0 && outRate > 0
  {
    ((i * inRate) % outRate) as real / outRate as real
  }

  /** `coerceIn(0, lastIndex)`. */
  function ClampIndex(k: int, n: int): (r: int)
    requires n > 0
    ensures 0 <= r < n
    ensures 0 <= k < n ==> r == k
  {
    if k < 0 then 0 else if k > n - 1 then n - 1 else k
  }

  /** Output sample `i`: linear interpolation between the two clamped
      neighbours of the read position. */
  function Interpolated(s: seq<real>, inRate: int, outRate: int, i: int): real
    requires |s| > 0 && inRate > 0 && outRate > 0 && i >= 0
  {
    var k := SourceIndex(i, inRate, outRate);
    var a := s[ClampIndex(k, |s|)];
    var b := s[ClampIndex(k + 1, |s|)];
    a + Mul(b - a, Fraction(i, inRate, outRate))
  }

  function Resampled(s: seq<real>, inRate: int, outRate: int): (r: seq<real>)
    requires |s| > 0 && inRate > 0 && outRate > 0
    ensures |r| == OutLength(|s|, inRate, outRate)
  {
    seq(OutLength(|s|, inRate, outRate), i requires 0 <= i => Interpolated(s, inRate, outRate, i))
  }

  /** `a + (b - a) * t` for `t` in [0, 1] lies between `a` and `b`. */
  lemma Between(a: real, b: real, t: real)
    requires 0.0 <= t <= 1.0
    ensures a <= b ==> a <= a + Mul(b - a, t) <= b
    ensures b <= a ==> b <= a + Mul(b - a, t) <= a
  {
    if a <= b {
      MulNonNegative(b - a, t);
      MulNonNegative(b - a, 1.0 - t);
    } else {
      MulNonNegative(a - b, t);
      MulNonNegative(a - b, 1.0 - t);
    }
  }

  lemma FractionRange(i: int, inRate: int, outRate: int)
    requires i >= 0 && inRate > 0 && outRate > 0
    ensures 0.0 <= Fraction(i, inRate, outRate) < 1.0
  {
    var m := (i * inRate) % outRate;
    assert 0 <= m < outRate;
    assert (m as real) < (outRate as real);
  }

  /** Index and fraction together are the exact read position `i * inRate / outRate`. */
  lemma SourcePosition(i: int, inRate: int, outRate: int)
    requires i >= 0 && inRate > 0 && outRate > 0
    ensures (SourceIndex(i, inRate, outRate) as real + Fraction(i, inRate, outRate)) * outRate as real
            == (i * inRate) as real
  {
    var q, m := (i * inRate) / outRate, (i * inRate) % outRate;
    assert q * outRate + m == i * inRate;
    var o := outRate as real;
    assert (m as real / o) * o == m as real;
    assert (q as real + m as real / o) * o == q as real * o + (m as real / o) * o;
    assert (q * outRate) as real == q as real * o;
  }

  /** Within the output length the read index never leaves the input, so only
      the right-hand neighbour's clamp can take effect. */
  lemma SourceIndexInRange(n: int, inRate: int, outRate: int, i: int)
    requires n > 0 && inRate > 0 && outRate > 0
    requires 0 <= i < OutLength(n, inRate, outRate)
    ensures 0 <= SourceIndex(i, inRate, outRate) <= n - 1
  {
    MulMonotone(0, i, inRate);
    var l := (n * outRate) / inRate;
    if l >= 1 {
      var total := n * outRate;
      assert l * inRate <= total by {
        assert l * inRate + total % inRate == total;
      }
      MulMonotone(i + 1, l, inRate);
      MulSucc(i, inRate);
      QuotientBelow(i * inRate, outRate, n);
    } else {
      assert i == 0;
    }
  }

  /** A non-negative `x` below `b * d` has its quotient by `d` in [0, b). */
  lemma QuotientBelow(x: int, d: int, b: int)
    requires d > 0 && 0 <= x < b * d
    ensures 0 <= x / d < b
  {
    var q := x / d;
    assert q * d + x % d == x;
    if q >= b {
      MulMonotone(b, q, d);
    }
  }

  /** The first output sample is the first input sample. */
  lemma ResampledFirst(s: seq<real>, inRate: int, outRate: int)
    requires |s| > 0 && inRate > 0 && outRate > 0
    ensures Resampled(s, inRate, outRate)[0] == s[0]
  {
  }

  /** Each output sample lies between the two input samples it interpolates. */
  lemma ResampledBetween(s: seq<real>, inRate: int, outRate: int, i: int)
    requires |s| > 0 && inRate > 0 && outRate > 0
    requires 0 <= i < OutLength(|s|, inRate, outRate)
    ensures var k := SourceIndex(i, inRate, outRate);
            var a, b := s[k], s[ClampIndex(k + 1, |s|)];
            (a <= b ==> a <= Resampled(s, inRate, outRate)[i] <= b) &&
            (b <= a ==> b <= Resampled(s, inRate, outRate)[i] <= a)
  {
    SourceIndexInRange(|s|, inRate, outRate, i);
    FractionRange(i, inRate, outRate);
    var k := SourceIndex(i, inRate, outRate);
    Between(s[k], s[ClampIndex(k + 1, |s|)], Fraction(i, inRate, outRate));
  }

  /** `resampleLinear`: equal rates return the input (checked before the rates
      are validated), invalid unequal rates are an error, an empty input is
      returned as is, and otherwise a fresh array holds `Resampled`. */
  method ResampleLinear(inputMono: array<real>, inRate: int, outRate: int)
    returns (r: Result<array<real>, ResampleError>)
    ensures inRate == outRate ==> r == Ok(inputMono)
    ensures inRate != outRate && (inRate <= 0 || outRate <= 0) ==>
      r == Err(InvalidSampleRates(inRate, outRate))
    ensures inRate != outRate && inRate > 0 && outRate > 0 && inputMono.Length == 0 ==>
      r == Ok(inputMono)
    ensures inRate != outRate && inRate > 0 && outRate > 0 && inputMono.Length > 0 ==>
      r.Ok? && fresh(r.value) && r.value[..] == Resampled(inputMono[..], inRate, outRate)
  {
    if inRate == outRate {
      return Ok(inputMono);
    }
    if !(inRate > 0 && outRate > 0) {
      return Err(InvalidSampleRates(inRate, outRate));
    }
    if inputMono.Length == 0 {
      return Ok(inputMono);
    }
    var out := ResampleNonEmpty(inputMono, inRate, outRate);
    return Ok(out);
  }

  /** The interpolation loop of `resampleLinear`. */
  method ResampleNonEmpty(inputMono: array<real>, inRate: int, outRate: int) returns (out: array<real>)
    requires inputMono.Length > 0 && inRate > 0 && outRate > 0
    ensures fresh(out) && out[..] == Resampled(inputMono[..], inRate, outRate)
  {
    var n := inputMono.Length;
    var outLength := OutLength(n, inRate, outRate);
    ghost var input := inputMono[..];
    out := new real[outLength];
    for i := 0 to outLength
      invariant forall j :: 0 <= j < i ==> out[j] == Interpolated(input, inRate, outRate, j)
    {
      var srcIndex := SourceIndex(i, inRate, outRate);
      var frac := Fraction(i, inRate, outRate);
      var a := inputMono[ClampIndex(srcIndex, n)];
      var b := inputMono[ClampIndex(srcIndex + 1, n)];
      out[i] := a + Mul(b - a, frac);
      assert out[i] == Interpolated(input, inRate, outRate, i);
    }
    assert out[..] == Resampled(input, inRate, outRate);
  }
}
