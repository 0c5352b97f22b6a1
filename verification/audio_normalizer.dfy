/** Peak normalisation and simplified loudness normalisation of float PCM.
    `Math.sqrt` is a parameter (any exact square root); the loudness gain,
    `10^((targetLufs - 20*log10(rms)) / 20)`, is a parameter computed from the
    RMS level. */
module AudioNormalizer {
  import opened Samples

  /** The peak that `normalize` scales to. */
  const TARGET_PEAK: real := 0.95

  /** `normalize`: an empty, silent or already full-scale signal is returned
      as is; otherwise a fresh copy scaled by `0.95 / peak`. */
  method Normalize(audioData: array<real>) returns (r: array<real>)
    ensures audioData.Length == 0 ==> r == audioData
    ensures MaxAbs(audioData[..]) == 0.0 || MaxAbs(audioData[..]) >= 1.0 ==> r == audioData
    ensures 0.0 < MaxAbs(audioData[..]) < 1.0 ==>
      fresh(r) && r[..] == ScaleAll(audioData[..], TARGET_PEAK / MaxAbs(audioData[..]))
  {
    if audioData.Length == 0 {
      return audioData;
    }
    var peak := 0.0;
    for i := 0 to audioData.Length
      invariant peak == MaxAbs(audioData[..i])
    {
      assert audioData[..i + 1] == audioData[..i] + [audioData[i]];
      MaxAbsAppend(audioData[..i], audioData[i]);
      peak := Max(peak, Abs(audioData[i]));
    }
    assert audioData[..audioData.Length] == audioData[..];
    if peak == 0.0 || peak >= 1.0 {
      return audioData;
    }
    var scaleFactor := TARGET_PEAK / peak;
    r := new real[audioData.Length];
    for i := 0 to audioData.Length
      invariant forall j :: 0 <= j < i ==> r[j] == Mul(audioData[j], scaleFactor)
    {
      r[i] := audioData[i] * scaleFactor;
    }
  }

  lemma MulQuotient(p: real, c: real)
    requires p > 0.0
    ensures Mul(p, c / p) == c
  {
  }

  /** A normalised signal keeps its length and signs and peaks at exactly 0.95. */
  lemma NormalizedPeak(s: seq<real>)
    requires 0.0 < MaxAbs(s) < 1.0
    ensures |ScaleAll(s, TARGET_PEAK / MaxAbs(s))| == |s|
    ensures MaxAbs(ScaleAll(s, TARGET_PEAK / MaxAbs(s))) == TARGET_PEAK
    ensures forall i :: 0 <= i < |s| ==>
      (ScaleAll(s, TARGET_PEAK / MaxAbs(s))[i] > 0.0 <==> s[i] > 0.0) &&
      (ScaleAll(s, TARGET_PEAK / MaxAbs(s))[i] < 0.0 <==> s[i] < 0.0)
  {
    var k := TARGET_PEAK / MaxAbs(s);
    assert k > 0.0;
    MaxAbsScale(s, k);
    MulQuotient(MaxAbs(s), TARGET_PEAK);
    ScaleKeepsSigns(s, k);
  }

  /** `calculateRMS`: 0 for an empty signal, else `sqrt(sumSquares / size)`. */
  function Rms(s: seq<real>, sqrt: real -> real): real
  {
    if |s| == 0 then 0.0 else sqrt(SumSquares(s) / |s| as real)
  }

  method CalculateRms(audioData: array<real>, sqrt: real -> real) returns (rms: real)
    ensures rms == Rms(audioData[..], sqrt)
  {
    if audioData.Length == 0 {
      return 0.0;
    }
    var sumSquares := 0.0;
    for i := 0 to audioData.Length
      invariant sumSquares == SumSquares(audioData[..i])
    {
      assert audioData[..i + 1] == audioData[..i] + [audioData[i]];
      SumSquaresAppend(audioData[..i], audioData[i]);
      sumSquares := sumSquares + Mul(audioData[i], audioData[i]);
    }
    assert audioData[..audioData.Length] == audioData[..];
    rms := sqrt(sumSquares / audioData.Length as real);
  }

  lemma SqrtZero(sqrt: real -> real, x: real)
    requires IsSqrt(sqrt) && x >= 0.0
    ensures sqrt(x) == 0.0 <==> x == 0.0
  {
    assert Square(sqrt(x)) == x;
    if sqrt(x) != 0.0 {
      assert Square(sqrt(x)) > 0.0;
    }
  }

  lemma QuotientZero(a: real, n: real)
    requires a >= 0.0 && n > 0.0
    ensures a / n >= 0.0
    ensures a / n == 0.0 <==> a == 0.0
  {
  }

  /** The RMS level is 0 exactly for silence (which includes the empty signal). */
  lemma RmsZero(s: seq<real>, sqrt: real -> real)
    requires IsSqrt(sqrt)
    ensures Rms(s, sqrt) == 0.0 <==> forall i :: 0 <= i < |s| ==> s[i] == 0.0
  {
    SumSquaresZero(s);
    if |s| > 0 {
      QuotientZero(SumSquares(s), |s| as real);
      SqrtZero(sqrt, SumSquares(s) / |s| as real);
    }
  }

  /** Every sample times `gain`, clamped to [-1, 1]. */
  function Amplified(s: seq<real>, gain: real): (r: seq<real>)
    ensures |r| == |s|
  {
    seq(|s|, i requires 0 <= i < |s| => Clamp(Mul(s[i], gain), -1.0, 1.0))
  }

  /** Whatever the gain, every amplified sample lies in [-1, 1], and samples
      that stay in range are exactly `gain` times the input. */
  lemma AmplifiedInRange(s: seq<real>, gain: real)
    ensures forall i :: 0 <= i < |s| ==> -1.0 <= Amplified(s, gain)[i] <= 1.0
    ensures forall i :: 0 <= i < |s| && -1.0 <= Mul(s[i], gain) <= 1.0 ==>
      Amplified(s, gain)[i] == Mul(s[i], gain)
  {
  }

  /** `normalizeLoudness`: a signal with RMS 0 is returned as is; otherwise a
      fresh copy amplified by `gainFor(rms)` and clamped to [-1, 1]. */
  method NormalizeLoudness(audioData: array<real>, sqrt: real -> real, gainFor: real -> real)
    returns (r: array<real>)
    ensures Rms(audioData[..], sqrt) == 0.0 ==> r == audioData
    ensures Rms(audioData[..], sqrt) != 0.0 ==>
      fresh(r) && r[..] == Amplified(audioData[..], gainFor(Rms(audioData[..], sqrt)))
  {
    var rms := CalculateRms(audioData, sqrt);
    if rms == 0.0 {
      return audioData;
    }
    var gainLinear := gainFor(rms);
    ghost var input := audioData[..];
    r := new real[audioData.Length];
    for i := 0 to audioData.Length
      invariant forall j :: 0 <= j < i ==> r[j] == Amplified(input, gainLinear)[j]
    {
      r[i] := Clamp(Mul(audioData[i], gainLinear), -1.0, 1.0);
    }
    assert r[..] == Amplified(input, gainLinear);
  }
}
