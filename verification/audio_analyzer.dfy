/** The feature analyzer: the tempo from peaks of the amplitude envelope, the
    key from the strongest chroma bin, the time signature from the same
    peaks, and the spectral features, each clamped into its reporting range.
    The magnitude spectrum of a window is a function given as a parameter
    (the DFT is not modelled), and so is the chroma vector. */
module AudioAnalyzer {
  import opened Wrappers
  import opened JvmInt
  import opened Samples
  import opened AudioRecords
  import AudioNormalizer

  const SAMPLE_RATE: int := 44100
  /** Tempo and metre look at one second: the first 44100 samples. */
  const WINDOW_SIZE: nat := 44100
  const PEAK_THRESHOLD: real := 0.5
  const DEFAULT_BPM: real := 120.0
  const MIN_BPM: real := 60.0
  const MAX_BPM: real := 180.0

  // ------------------------------------------------------------ envelope

  /** `copyOfRange(0, min(44100, size))`. */
  function WindowOf(s: seq<real>): (r: seq<real>)
    ensures |r| == if |s| < WINDOW_SIZE then |s| else WINDOW_SIZE
    ensures r == s[..|r|]
  {
    if |s| < WINDOW_SIZE then s else s[..WINDOW_SIZE]
  }

  function Magnitudes(s: seq<real>): (r: seq<real>)
    ensures |r| == |s|
    ensures forall i :: 0 <= i < |s| ==> r[i] == Abs(s[i])
  {
    seq(|s|, i requires 0 <= i < |s| => Abs(s[i]))
  }

  /** The amplitude envelope of the window, divided by its peak unless the
      window is silent. */
  function EnvelopeOf(s: seq<real>): seq<real>
  {
    var w := WindowOf(s);
    if MaxAbs(w) > 0.0 then DivideAll(Magnitudes(w), MaxAbs(w)) else Magnitudes(w)
  }

  /** The envelope covers the window, lies in [0, 1], is 0 exactly where the
      signal is, and reaches 1 unless the window is silent. */
  lemma EnvelopeShape(s: seq<real>)
    ensures var e := EnvelopeOf(s);
      |e| == |WindowOf(s)| &&
      (forall i :: 0 <= i < |e| ==> 0.0 <= e[i] <= 1.0 && (e[i] == 0.0 <==> s[i] == 0.0)) &&
      (MaxAbs(WindowOf(s)) > 0.0 ==> exists i :: 0 <= i < |e| && e[i] == 1.0)
  {
    var w := WindowOf(s);
    var e := EnvelopeOf(s);
    var peak := MaxAbs(w);
    MaxAbsIsPeak(w);
    if peak > 0.0 {
      forall i | 0 <= i < |e|
        ensures 0.0 <= e[i] <= 1.0 && (e[i] == 0.0 <==> s[i] == 0.0)
      {
        DivideMonotone(Abs(w[i]), peak, peak);
        DivideMonotone(0.0, Abs(w[i]), peak);
        QuotientOne(peak);
      }
      var k :| 0 <= k < |w| && Abs(w[k]) == peak;
      QuotientOne(peak);
      assert e[k] == 1.0;
    } else {
      MaxAbsZero(w);
    }
  }

  lemma QuotientOne(d: real)
    requires d > 0.0
    ensures d / d == 1.0
  {
    assert (d / d - 1.0) * d == 0.0;
  }

  /** The envelope loop of `detectBPM` and `detectTimeSignature`: absolute
      values and their maximum in one pass, then an in-place division. */
  method Envelope(audio: array<real>) returns (envelope: array<real>)
    ensures fresh(envelope)
    ensures envelope[..] == EnvelopeOf(audio[..])
  {
    var maxVal;
    envelope, maxVal := AbsoluteWindow(audio);
    if maxVal > 0.0 {
      DivideInto(envelope, maxVal);
    }
  }

  /** The first loop: `envelope[i] = abs(window[i])` and the running maximum. */
  method AbsoluteWindow(audio: array<real>) returns (envelope: array<real>, maxVal: real)
    ensures fresh(envelope)
    ensures envelope[..] == Magnitudes(WindowOf(audio[..]))
    ensures maxVal == MaxAbs(WindowOf(audio[..]))
  {
    var windowSize := if audio.Length < WINDOW_SIZE then audio.Length else WINDOW_SIZE;
    envelope := new real[windowSize];
    maxVal := 0.0;
    for i := 0 to windowSize
      invariant forall k :: 0 <= k < i ==> envelope[k] == Abs(audio[k])
      invariant maxVal == MaxAbs(audio[..i])
    {
      var absVal := Abs(audio[i]);
      envelope[i] := absVal;
      AbsoluteStep(audio[..], i);
      if absVal > maxVal {
        maxVal := absVal;
      }
    }
    assert audio[..windowSize] == WindowOf(audio[..]);
  }

  lemma AbsoluteStep(s: seq<real>, i: nat)
    requires i < |s|
    ensures MaxAbs(s[..i + 1]) == Max(MaxAbs(s[..i]), Abs(s[i]))
  {
    assert s[..i + 1] == s[..i] + [s[i]];
    MaxAbsAppend(s[..i], s[i]);
  }

  // ------------------------------------------------------------- peaks

  /** A strict local maximum above one half, with a neighbour on each side. */
  predicate IsPeak(e: seq<real>, i: int)
  {
    1 <= i < |e| - 1 && e[i] > e[i - 1] && e[i] > e[i + 1] && e[i] > PEAK_THRESHOLD
  }

  /** The peaks at indices below `n`, in ascending order. */
  function PeaksBelow(e: seq<real>, n: nat): seq<int>
  {
    if n == 0 then [] else PeaksBelow(e, n - 1) + (if IsPeak(e, n - 1) then [n - 1] else [])
  }

  function PeaksOf(e: seq<real>): seq<int>
  {
    PeaksBelow(e, |e|)
  }

  lemma {:induction false} PeaksBelowShape(e: seq<real>, n: nat)
    ensures forall i :: i in PeaksBelow(e, n) <==> i < n && IsPeak(e, i)
    ensures forall j :: 0 <= j < |PeaksBelow(e, n)| - 1 ==> PeaksBelow(e, n)[j] + 2 <= PeaksBelow(e, n)[j + 1]
    decreases n
  {
    if n > 0 {
      PeaksBelowShape(e, n - 1);
      var p := PeaksBelow(e, n - 1);
      if IsPeak(e, n - 1) && |p| > 0 {
        var last := p[|p| - 1];
        assert last in p;
        assert last != n - 2;
      }
    }
  }

  /** The peaks are exactly the strict local maxima above one half, and no
      two are adjacent. */
  lemma PeaksOfShape(e: seq<real>)
    ensures forall i :: i in PeaksOf(e) <==> IsPeak(e, i)
    ensures forall j :: 0 <= j < |PeaksOf(e)| - 1 ==> PeaksOf(e)[j] + 2 <= PeaksOf(e)[j + 1]
  {
    PeaksBelowShape(e, |e|);
  }

  /** The peak loop `for (i in 1 until envelope.size - 1)`. */
  method FindPeaks(envelope: array<real>) returns (peaks: seq<int>)
    ensures peaks == PeaksOf(envelope[..])
  {
    peaks := [];
    var i := 1;
    while i < envelope.Length - 1
      invariant 1 <= i
      invariant envelope.Length >= 2 ==> i <= envelope.Length - 1
      invariant envelope.Length < 2 ==> i == 1
      invariant peaks == PeaksBelow(envelope[..], i)
    {
      if envelope[i] > envelope[i - 1] && envelope[i] > envelope[i + 1] && envelope[i] > PEAK_THRESHOLD {
        peaks := peaks + [i];
      }
      i := i + 1;
    }
  }

  /** The distances between consecutive peaks. */
  function IntervalsOf(p: seq<int>): (r: seq<int>)
    ensures |r| == if |p| == 0 then 0 else |p| - 1
    ensures forall j :: 0 <= j < |r| ==> r[j] == p[j + 1] - p[j]
  {
    if |p| < 2 then [] else seq(|p| - 1, j requires 0 <= j < |p| - 1 => p[j + 1] - p[j])
  }

  method Intervals(peaks: seq<int>) returns (intervals: seq<int>)
    ensures intervals == IntervalsOf(peaks)
  {
    intervals := [];
    var i := 1;
    while i < |peaks|
      invariant 1 <= i && (|peaks| > 0 ==> i <= |peaks|) && (|peaks| == 0 ==> i == 1)
      invariant |intervals| == i - 1
      invariant forall j :: 0 <= j < i - 1 ==> intervals[j] == peaks[j + 1] - peaks[j]
    {
      intervals := intervals + [peaks[i] - peaks[i - 1]];
      i := i + 1;
    }
    assert |intervals| == |IntervalsOf(peaks)|;
  }

  /** The peak intervals of a signal's first second. */
  function BeatIntervals(s: seq<real>): seq<int>
  {
    IntervalsOf(PeaksOf(EnvelopeOf(s)))
  }

  /** Every interval is at least 2 samples. */
  lemma BeatIntervalsAtLeastTwo(s: seq<real>)
    ensures forall x :: x in BeatIntervals(s) ==> x >= 2
  {
    PeaksOfShape(EnvelopeOf(s));
  }

  // ------------------------------------------------- most common interval

  function Count(s: seq<int>, x: int): nat
  {
    multiset(s)[x]
  }

  /** `groupingBy { it }.eachCount().maxByOrNull { it.value }` scanned from
      index `i` with the best index so far `b`: the map lists keys in order of
      first occurrence and `maxByOrNull` keeps the first maximum. */
  function ModeFrom(s: seq<int>, i: nat, b: nat): (r: nat)
    requires b < i <= |s|
    requires forall k :: 0 <= k < i ==> Count(s, s[k]) <= Count(s, s[b])
    requires forall k :: 0 <= k < b ==> Count(s, s[k]) < Count(s, s[b])
    ensures r < |s|
    ensures forall k :: 0 <= k < |s| ==> Count(s, s[k]) <= Count(s, s[r])
    ensures forall k :: 0 <= k < r ==> Count(s, s[k]) < Count(s, s[r])
    decreases |s| - i
  {
    if i == |s| then b
    else if Count(s, s[i]) > Count(s, s[b]) then ModeFrom(s, i + 1, i)
    else ModeFrom(s, i + 1, b)
  }

  /** The index of the first element whose count is the largest. */
  function ModeIndex(s: seq<int>): (r: nat)
    requires |s| > 0
    ensures r < |s|
    ensures forall k :: 0 <= k < |s| ==> Count(s, s[k]) <= Count(s, s[r])
    ensures forall k :: 0 <= k < r ==> Count(s, s[k]) < Count(s, s[r])
  {
    ModeFrom(s, 1, 0)
  }

  function MostCommon(s: seq<int>): (r: int)
    requires |s| > 0
  {
    s[ModeIndex(s)]
  }

  /** The most common value occurs in the list, no value occurs more often,
      and every value occurring as often first occurs later. */
  lemma MostCommonShape(s: seq<int>)
    requires |s| > 0
    ensures MostCommon(s) in s
    ensures forall x :: x in s ==> Count(s, x) <= Count(s, MostCommon(s))
    ensures forall k :: 0 <= k < |s| && Count(s, s[k]) == Count(s, MostCommon(s)) ==>
      exists j :: 0 <= j <= k && s[j] == MostCommon(s)
  {
    var b := ModeIndex(s);
    forall x | x in s
      ensures Count(s, x) <= Count(s, MostCommon(s))
    {
      var k :| 0 <= k < |s| && s[k] == x;
    }
    forall k | 0 <= k < |s| && Count(s, s[k]) == Count(s, MostCommon(s))
      ensures exists j :: 0 <= j <= k && s[j] == MostCommon(s)
    {
      assert b <= k;
    }
  }

  // --------------------------------------------------------- BPM, metre

  /** `(sampleRate * 60f) / interval`. */
  function RawBpm(interval: int): real
    requires interval > 0
  {
    (SAMPLE_RATE * 60) as real / interval as real
  }

  /** `detectBPM`: 120 without two peaks, otherwise the rate of the most
      common interval clamped into [60, 180]. */
  function Bpm(s: seq<real>): real
  {
    var intervals := BeatIntervals(s);
    if |intervals| == 0 then DEFAULT_BPM
    else
      BeatIntervalsAtLeastTwo(s);
      assert MostCommon(intervals) in intervals;
      Clamp(RawBpm(MostCommon(intervals)), MIN_BPM, MAX_BPM)
  }

  /** `detectTimeSignature`: "4/4" without two peaks, otherwise "3/4" when
      the unclamped rate is below 80. */
  function TimeSignature(s: seq<real>): string
  {
    var intervals := BeatIntervals(s);
    if |intervals| == 0 then "4/4"
    else
      BeatIntervalsAtLeastTwo(s);
      assert MostCommon(intervals) in intervals;
      var bpm := RawBpm(MostCommon(intervals));
      if bpm > 120.0 then "4/4" else if bpm < 80.0 then "3/4" else "4/4"
  }

  /** The tempo is 120 with fewer than two peaks and lies in [60, 180]. */
  lemma BpmRange(s: seq<real>)
    ensures MIN_BPM <= Bpm(s) <= MAX_BPM
    ensures |PeaksOf(EnvelopeOf(s))| < 2 ==> Bpm(s) == DEFAULT_BPM
  {
  }

  /** Only the first second of the signal decides the tempo and the metre. */
  lemma RhythmUsesFirstSecond(s: seq<real>, t: seq<real>)
    requires |s| >= WINDOW_SIZE && |t| >= WINDOW_SIZE && s[..WINDOW_SIZE] == t[..WINDOW_SIZE]
    ensures Bpm(s) == Bpm(t) && TimeSignature(s) == TimeSignature(t)
  {
    assert WindowOf(s) == WindowOf(t);
  }

  lemma RawBpmBelow(m: int)
    requires m > 0
    ensures RawBpm(m) < 80.0 <==> m > 33075
    ensures RawBpm(m) > 120.0 <==> m < 22050
  {
    var q := RawBpm(m);
    assert Mul(q, m as real) == 2646000.0;
    ScaleMonotone(q, 80.0, m as real);
    ScaleMonotone(120.0, q, m as real);
  }

  /** The metre is "4/4" or "3/4", and "3/4" exactly when the most common
      interval is longer than 33075 samples, which is when the reported
      tempo is below 80. */
  lemma TimeSignatureShape(s: seq<real>)
    ensures TimeSignature(s) == "4/4" || TimeSignature(s) == "3/4"
    ensures TimeSignature(s) == "3/4" <==>
      |BeatIntervals(s)| > 0 && MostCommon(BeatIntervals(s)) > 33075
    ensures TimeSignature(s) == "3/4" <==> Bpm(s) < 80.0
  {
    var intervals := BeatIntervals(s);
    if |intervals| > 0 {
      BeatIntervalsAtLeastTwo(s);
      assert MostCommon(intervals) in intervals;
      RawBpmBelow(MostCommon(intervals));
    }
  }

  /** The envelope, peak and interval loops shared by `detectBPM` and
      `detectTimeSignature`. */
  method PeakIntervals(audio: array<real>) returns (intervals: seq<int>)
    ensures intervals == BeatIntervals(audio[..])
    ensures forall x :: x in intervals ==> x >= 2
  {
    var envelope := Envelope(audio);
    var peaks := FindPeaks(envelope);
    intervals := Intervals(peaks);
    BeatIntervalsAtLeastTwo(audio[..]);
  }

  /** `detectBPM`. */
  method DetectBpm(audio: array<real>) returns (bpm: real)
    ensures bpm == Bpm(audio[..])
  {
    var intervals := PeakIntervals(audio);
    if |intervals| == 0 {
      return DEFAULT_BPM;
    }
    var mostCommonInterval := MostCommon(intervals);
    assert mostCommonInterval in intervals;
    bpm := Clamp(RawBpm(mostCommonInterval), MIN_BPM, MAX_BPM);
  }

  /** `detectTimeSignature`. */
  method DetectTimeSignature(audio: array<real>) returns (signature: string)
    ensures signature == TimeSignature(audio[..])
  {
    var intervals := PeakIntervals(audio);
    if |intervals| == 0 {
      return "4/4";
    }
    var mostCommonInterval := MostCommon(intervals);
    assert mostCommonInterval in intervals;
    var bpm := RawBpm(mostCommonInterval);
    if bpm > 120.0 {
      signature := "4/4";
    } else if bpm < 80.0 {
      signature := "3/4";
    } else {
      signature := "4/4";
    }
  }

  // ---------------------------------------------------------------- key

  const CHROMA_NAMES: seq<string> := ["C", "C#", "D", "D#", "E", "F", "F#", "G", "G#", "A", "A#", "B"]

  /** The `detectKey` scan over the first `n` bins: the index and value of
      the strongest bin so far, from index 0 and value 0, replaced only by a
      strictly larger value. */
  function StrongestBelow(c: seq<real>, n: nat): (r: (nat, real))
    requires n <= |c|
    ensures r.0 == 0 || r.0 < n
  {
    if n == 0 then (0, 0.0)
    else
      var best := StrongestBelow(c, n - 1);
      if c[n - 1] > best.1 then (n - 1, c[n - 1]) else best
  }

  function StrongestIndex(c: seq<real>): nat
  {
    StrongestBelow(c, |c|).0
  }

  lemma {:induction false} StrongestBelowShape(c: seq<real>, n: nat)
    requires n <= |c|
    ensures var (b, m) := StrongestBelow(c, n);
      m >= 0.0 &&
      (forall k :: 0 <= k < n ==> c[k] <= m) &&
      (forall k :: 0 <= k < b ==> c[k] < m) &&
      ((b == 0 && m == 0.0) || (b < n && c[b] == m && m > 0.0))
    decreases n
  {
    if n > 0 {
      StrongestBelowShape(c, n - 1);
    }
  }

  /** The key is the first strongest bin when some bin is positive, and "C"
      (bin 0) when none is. */
  lemma StrongestIndexShape(c: seq<real>)
    requires |c| == 12
    ensures StrongestIndex(c) < 12
    ensures (forall k :: 0 <= k < 12 ==> c[k] <= 0.0) ==> CHROMA_NAMES[StrongestIndex(c)] == "C"
    ensures (exists k :: 0 <= k < 12 && c[k] > 0.0) ==>
      var i := StrongestIndex(c);
      c[i] > 0.0 && (forall k :: 0 <= k < 12 ==> c[k] <= c[i]) && (forall k :: 0 <= k < i ==> c[k] < c[i])
  {
    StrongestBelowShape(c, |c|);
  }

  /** `detectKey` on the chroma vector. */
  method DetectKey(chroma: array<real>) returns (key: string)
    requires chroma.Length == 12
    ensures key == CHROMA_NAMES[StrongestIndex(chroma[..])]
  {
    var maxChroma := 0.0;
    var maxIndex := 0;
    for i := 0 to chroma.Length
      invariant (maxIndex, maxChroma) == StrongestBelow(chroma[..], i)
    {
      if chroma[i] > maxChroma {
        maxChroma := chroma[i];
        maxIndex := i;
      }
    }
    assert chroma[..] == chroma[..chroma.Length];
    key := CHROMA_NAMES[maxIndex];
  }

  // ------------------------------------------------------------ spectra

  /** The magnitude spectrum of a window: half as many bins, none negative. */
  type Magnitude = seq<real> -> seq<real>

  ghost predicate IsMagnitude(f: Magnitude)
  {
    forall w: seq<real> :: |f(w)| == |w| / 2 && NonNegative(f(w))
  }

  predicate NonNegative(s: seq<real>)
  {
    forall k :: 0 <= k < |s| ==> s[k] >= 0.0
  }

  predicate Uniform(frames: seq<seq<real>>, width: nat)
  {
    forall i :: 0 <= i < |frames| ==> |frames[i]| == width && NonNegative(frames[i])
  }

  /** The spectra of the windows `[start, start + size)`, `[start + hop, …)`,
      … that fit inside the signal. */
  function Frames(s: seq<real>, f: Magnitude, size: nat, hop: nat, start: nat): (r: seq<seq<real>>)
    requires IsMagnitude(f) && hop > 0
    ensures Uniform(r, size / 2)
    decreases |s| - start
  {
    if start + size > |s| then []
    else [f(s[start..start + size])] + Frames(s, f, size, hop, start + hop)
  }

  /** The number of windows is `(n - size - start) / hop + 1`, or 0 when
      not even one fits. */
  lemma {:induction false} FramesCount(s: seq<real>, f: Magnitude, size: nat, hop: nat, start: nat)
    requires IsMagnitude(f) && hop > 0
    ensures |Frames(s, f, size, hop, start)| ==
      if start + size > |s| then 0 else (|s| - size - start) / hop + 1
    decreases |s| - start
  {
    if start + size <= |s| {
      FramesCount(s, f, size, hop, start + hop);
      var x := |s| - size - start;
      if x >= hop {
        DivStep(x, hop);
      } else {
        DivUnique(x, hop, 0, x);
      }
    }
  }

  lemma DivStep(x: int, c: int)
    requires x >= c > 0
    ensures (x - c) / c + 1 == x / c
  {
    var q := (x - c) / c;
    MulSucc(q, c);
    DivUnique(x, c, q + 1, (x - c) % c);
  }

  function L1(a: seq<real>, b: seq<real>): (r: real)
    requires |a| == |b|
    ensures r >= 0.0
  {
    if |a| == 0 then 0.0
    else L1(a[..|a| - 1], b[..|a| - 1]) + Abs(a[|a| - 1] - b[|a| - 1])
  }

  /** The summed flux between each spectrum and the one before it. */
  function TotalFlux(frames: seq<seq<real>>, width: nat): (r: real)
    requires Uniform(frames, width)
    ensures r >= 0.0
  {
    if |frames| < 2 then 0.0
    else TotalFlux(frames[..|frames| - 1], width) + L1(frames[|frames| - 1], frames[|frames| - 2])
  }

  /** `calculateSpectralFlux` on the spectra: the mean flux, 0 with fewer
      than two windows. */
  function FluxOf(frames: seq<seq<real>>, width: nat): real
    requires Uniform(frames, width)
  {
    if |frames| < 2 then 0.0 else TotalFlux(frames, width) / (|frames| - 1) as real
  }

  const FLUX_FFT: nat := 1024
  const FLUX_HOP: nat := 512

  function FluxFrames(s: seq<real>, f: Magnitude): seq<seq<real>>
    requires IsMagnitude(f)
  {
    Frames(s, f, FLUX_FFT, FLUX_HOP, 0)
  }

  function Flux(s: seq<real>, f: Magnitude): real
    requires IsMagnitude(f)
  {
    FluxOf(FluxFrames(s, f), FLUX_FFT / 2)
  }

  /** The flux is never negative, and a signal too short for two windows
      (under 1536 samples) has flux 0. */
  lemma FluxGuard(s: seq<real>, f: Magnitude)
    requires IsMagnitude(f)
    ensures Flux(s, f) >= 0.0
    ensures |s| < FLUX_FFT + FLUX_HOP ==> Flux(s, f) == 0.0
  {
    FramesCount(s, f, FLUX_FFT, FLUX_HOP, 0);
  }

  method FrameFlux(spectrum: seq<real>, prev: seq<real>) returns (flux: real)
    requires |spectrum| == |prev|
    ensures flux == L1(spectrum, prev)
  {
    flux := 0.0;
    for k := 0 to |spectrum|
      invariant flux == L1(spectrum[..k], prev[..k])
    {
      assert spectrum[..k + 1][..k] == spectrum[..k];
      assert prev[..k + 1][..k] == prev[..k];
      flux := flux + Abs(spectrum[k] - prev[k]);
    }
    assert spectrum[..|spectrum|] == spectrum && prev[..|prev|] == prev;
  }

  lemma TotalFluxAppend(frames: seq<seq<real>>, x: seq<real>, width: nat)
    requires Uniform(frames, width) && |frames| > 0 && |x| == width && NonNegative(x)
    ensures Uniform(frames + [x], width)
    ensures TotalFlux(frames + [x], width) == TotalFlux(frames, width) + L1(x, frames[|frames| - 1])
  {
    assert (frames + [x])[..|frames|] == frames;
  }

  /** One more window: its spectrum joins the ones already seen. */
  lemma FramesAdvance(s: seq<real>, f: Magnitude, size: nat, hop: nat, start: nat,
                      seen: seq<seq<real>>, all: seq<seq<real>>)
    requires IsMagnitude(f) && hop > 0 && start + size <= |s|
    requires Uniform(seen, size / 2)
    requires seen + Frames(s, f, size, hop, start) == all
    ensures Uniform(seen + [f(s[start..start + size])], size / 2)
    ensures (seen + [f(s[start..start + size])]) + Frames(s, f, size, hop, start + hop) == all
  {
    var x := f(s[start..start + size]);
    assert Frames(s, f, size, hop, start) == [x] + Frames(s, f, size, hop, start + hop);
    assert seen + [x] + Frames(s, f, size, hop, start + hop) == seen + ([x] + Frames(s, f, size, hop, start + hop));
  }

  /** The window at `start` of the flux loop: its spectrum has the width of
      the others, is never negative, and is the next of the frames. */
  lemma FluxWindow(s: seq<real>, f: Magnitude, start: nat, seen: seq<seq<real>>, all: seq<seq<real>>,
                   spectrum: seq<real>)
    requires IsMagnitude(f) && start + FLUX_FFT <= |s|
    requires Uniform(seen, FLUX_FFT / 2)
    requires seen + Frames(s, f, FLUX_FFT, FLUX_HOP, start) == all
    requires spectrum == f(s[start..start + FLUX_FFT])
    ensures |spectrum| == FLUX_FFT / 2 && NonNegative(spectrum)
    ensures (seen + [spectrum]) + Frames(s, f, FLUX_FFT, FLUX_HOP, start + FLUX_HOP) == all
  {
    FramesAdvance(s, f, FLUX_FFT, FLUX_HOP, start, seen, all);
  }

  /** The loop state of `calculateSpectralFlux` after the spectra `seen`. */
  ghost predicate FluxState(seen: seq<seq<real>>, prev: Option<seq<real>>, totalFlux: real, windowCount: int)
  {
    Uniform(seen, FLUX_FFT / 2) &&
    (prev.None? <==> |seen| == 0) &&
    (prev.Some? ==> prev.value == seen[|seen| - 1]) &&
    windowCount == (if |seen| == 0 then 0 else |seen| - 1) &&
    totalFlux == TotalFlux(seen, FLUX_FFT / 2)
  }

  /** One window of the flux loop: add the flux against the previous
      spectrum, if there is one. */
  method AccumulateFlux(spectrum: seq<real>, prev: Option<seq<real>>, totalFlux: real, windowCount: int,
                        ghost seen: seq<seq<real>>)
    returns (newTotal: real, newCount: int)
    requires FluxState(seen, prev, totalFlux, windowCount)
    requires |spectrum| == FLUX_FFT / 2 && NonNegative(spectrum)
    ensures FluxState(seen + [spectrum], Some(spectrum), newTotal, newCount)
  {
    newTotal, newCount := totalFlux, windowCount;
    if prev.Some? {
      var frameFlux := FrameFlux(spectrum, prev.value);
      TotalFluxAppend(seen, spectrum, FLUX_FFT / 2);
      newTotal := totalFlux + frameFlux;
      newCount := windowCount + 1;
    } else {
      assert Uniform(seen + [spectrum], FLUX_FFT / 2);
    }
  }

  /** `calculateSpectralFlux`. */
  method SpectralFlux(audio: array<real>, magnitude: Magnitude) returns (flux: real)
    requires IsMagnitude(magnitude)
    ensures flux == Flux(audio[..], magnitude)
  {
    ghost var signal := audio[..];
    ghost var all := FluxFrames(signal, magnitude);
    var totalFlux := 0.0;
    var windowCount := 0;
    var start := 0;
    var prevSpectrum: Option<seq<real>> := None;
    ghost var seen: seq<seq<real>> := [];
    while start + FLUX_FFT <= audio.Length
      invariant FluxState(seen, prevSpectrum, totalFlux, windowCount)
      invariant seen + Frames(signal, magnitude, FLUX_FFT, FLUX_HOP, start) == all
      decreases audio.Length - start
    {
      var window := audio[start..start + FLUX_FFT];
      assert window == signal[start..start + FLUX_FFT];
      var spectrum := magnitude(window);
      FluxWindow(signal, magnitude, start, seen, all, spectrum);
      totalFlux, windowCount := AccumulateFlux(spectrum, prevSpectrum, totalFlux, windowCount, seen);
      seen := seen + [spectrum];
      prevSpectrum := Some(spectrum);
      start := start + FLUX_HOP;
    }
    assert seen == all;
    flux := if windowCount > 0 then totalFlux / windowCount as real else 0.0;
  }

  // ---------------------------------------------------- average spectrum

  const SPECTRUM_FFT: nat := 2048
  const SPECTRUM_HOP: nat := 1024
  const BINS: nat := 1024

  function AddVec(a: seq<real>, b: seq<real>): (r: seq<real>)
    requires |a| == |b|
    ensures |r| == |a| && forall k :: 0 <= k < |a| ==> r[k] == a[k] + b[k]
  {
    seq(|a|, k requires 0 <= k < |a| => a[k] + b[k])
  }

  /** The bin-wise sum of the spectra. */
  function SumFrames(frames: seq<seq<real>>, width: nat): (r: seq<real>)
    requires Uniform(frames, width)
    ensures |r| == width && NonNegative(r)
  {
    if |frames| == 0 then Zeros(width)
    else AddVec(SumFrames(frames[..|frames| - 1], width), frames[|frames| - 1])
  }

  /** The bin-wise mean of the spectra; all zeros when there are none. */
  function AverageOf(frames: seq<seq<real>>, width: nat): (r: seq<real>)
    requires Uniform(frames, width)
    ensures |r| == width && NonNegative(r)
  {
    if |frames| == 0 then Zeros(width)
    else
      var sum := SumFrames(frames, width);
      var avg := DivideAll(sum, |frames| as real);
      assert forall k :: 0 <= k < width ==> avg[k] >= 0.0 by {
        forall k | 0 <= k < width ensures avg[k] >= 0.0 {
          DivideMonotone(0.0, sum[k], |frames| as real);
        }
      }
      avg
  }

  function AverageSpectrumOf(s: seq<real>, f: Magnitude): (r: seq<real>)
    requires IsMagnitude(f)
    ensures |r| == BINS && NonNegative(r)
  {
    AverageOf(Frames(s, f, SPECTRUM_FFT, SPECTRUM_HOP, 0), BINS)
  }

  /** The average of one repeated spectrum is that spectrum. */
  lemma {:induction false} AverageOfRepeated(x: seq<real>, n: nat)
    requires |x| == BINS && NonNegative(x) && n > 0
    ensures Uniform(seq(n, i => x), BINS)
    ensures AverageOf(seq(n, i => x), BINS) == x
  {
    SumOfRepeated(x, n);
    var avg := AverageOf(seq(n, i => x), BINS);
    forall k | 0 <= k < BINS
      ensures avg[k] == x[k]
    {
      assert Mul(x[k], n as real) / n as real == x[k];
    }
  }

  lemma {:induction false} SumOfRepeated(x: seq<real>, n: nat)
    requires |x| == BINS && NonNegative(x)
    ensures Uniform(seq(n, i => x), BINS)
    ensures SumFrames(seq(n, i => x), BINS) == ScaleAll(x, n as real)
  {
    var frames := seq(n, i => x);
    if n > 0 {
      SumOfRepeated(x, n - 1);
      assert frames[..n - 1] == seq(n - 1, i => x);
      var prev := SumFrames(frames[..n - 1], BINS);
      forall k | 0 <= k < BINS
        ensures prev[k] + x[k] == Mul(x[k], n as real)
      {
        assert prev[k] == Mul(x[k], (n - 1) as real);
      }
    } else {
      forall k | 0 <= k < BINS
        ensures Mul(x[k], 0.0) == 0.0
      {
      }
    }
  }

  method AddInto(acc: array<real>, spectrum: seq<real>)
    requires acc.Length == |spectrum|
    modifies acc
    ensures acc[..] == AddVec(old(acc[..]), spectrum)
  {
    ghost var before := acc[..];
    for k := 0 to acc.Length
      invariant forall j :: 0 <= j < k ==> acc[j] == before[j] + spectrum[j]
      invariant forall j :: k <= j < acc.Length ==> acc[j] == before[j]
    {
      acc[k] := acc[k] + spectrum[k];
    }
    assert acc[..] == AddVec(before, spectrum);
  }

  method DivideInto(acc: array<real>, d: real)
    requires d != 0.0
    modifies acc
    ensures acc[..] == DivideAll(old(acc[..]), d)
  {
    ghost var before := acc[..];
    for k := 0 to acc.Length
      invariant forall j :: 0 <= j < k ==> acc[j] == before[j] / d
      invariant forall j :: k <= j < acc.Length ==> acc[j] == before[j]
    {
      acc[k] := acc[k] / d;
    }
    assert acc[..] == DivideAll(before, d);
  }

  lemma SumFramesAppend(frames: seq<seq<real>>, x: seq<real>, width: nat)
    requires Uniform(frames, width) && |x| == width && NonNegative(x)
    ensures Uniform(frames + [x], width)
    ensures SumFrames(frames + [x], width) == AddVec(SumFrames(frames, width), x)
  {
    assert (frames + [x])[..|frames|] == frames;
  }

  /** The average spectrum loop shared by the four spectral features. */
  method AverageSpectrum(audio: array<real>, magnitude: Magnitude) returns (avgSpectrum: array<real>)
    requires IsMagnitude(magnitude)
    ensures fresh(avgSpectrum)
    ensures avgSpectrum[..] == AverageSpectrumOf(audio[..], magnitude)
  {
    ghost var signal := audio[..];
    ghost var all := Frames(signal, magnitude, SPECTRUM_FFT, SPECTRUM_HOP, 0);
    avgSpectrum := new real[BINS](_ => 0.0);
    var windowCount := 0;
    var start := 0;
    ghost var seen: seq<seq<real>> := [];
    assert avgSpectrum[..] == Zeros(BINS);
    while start + SPECTRUM_FFT <= audio.Length
      invariant avgSpectrum.Length == BINS
      invariant Uniform(seen, BINS)
      invariant seen + Frames(signal, magnitude, SPECTRUM_FFT, SPECTRUM_HOP, start) == all
      invariant windowCount == |seen|
      invariant avgSpectrum[..] == SumFrames(seen, BINS)
      decreases audio.Length - start
    {
      var spectrum := magnitude(audio[start..start + SPECTRUM_FFT]);
      assert audio[start..start + SPECTRUM_FFT] == signal[start..start + SPECTRUM_FFT];
      FramesAdvance(signal, magnitude, SPECTRUM_FFT, SPECTRUM_HOP, start, seen, all);
      AddInto(avgSpectrum, spectrum);
      SumFramesAppend(seen, spectrum, BINS);
      seen := seen + [spectrum];
      windowCount := windowCount + 1;
      start := start + SPECTRUM_HOP;
    }
    assert seen == all;
    if windowCount > 0 {
      DivideInto(avgSpectrum, windowCount as real);
    }
  }

  // ------------------------------------------------- spectral features

  lemma {:induction false} SumNonNegative(s: seq<real>)
    requires NonNegative(s)
    ensures Sum(s) >= 0.0
  {
    if |s| > 0 {
      SumNonNegative(s[..|s| - 1]);
    }
  }

  /** Low-band (first quarter) over high-band (upper half) energy, times 100,
      clamped into [0, 100]. */
  function Acousticness(avg: seq<real>): (r: real)
    requires |avg| == BINS && NonNegative(avg)
    ensures 0.0 <= r <= 100.0
  {
    var low := Sum(avg[..BINS / 4]);
    var high := Sum(avg[BINS / 2..]);
    SumNonNegative(avg[BINS / 2..]);
    Clamp(Mul(low / (high + 0.001), 100.0), 0.0, 100.0)
  }

  /** A spectrum without low-band energy scores 0; one without high-band
      energy and with a low band of at least 0.001 scores the maximum. */
  lemma AcousticnessBands(avg: seq<real>)
    requires |avg| == BINS && NonNegative(avg)
    ensures (forall k :: 0 <= k < BINS / 4 ==> avg[k] == 0.0) ==> Acousticness(avg) == 0.0
    ensures (forall k :: BINS / 2 <= k < BINS ==> avg[k] == 0.0) && Sum(avg[..BINS / 4]) >= 0.001 ==>
      Acousticness(avg) == 100.0
  {
    var low := Sum(avg[..BINS / 4]);
    var high := Sum(avg[BINS / 2..]);
    SumNonNegative(avg[BINS / 2..]);
    if forall k :: 0 <= k < BINS / 4 ==> avg[k] == 0.0 {
      ZeroSum(avg[..BINS / 4]);
      assert 0.0 / (high + 0.001) == 0.0;
    }
    if (forall k :: BINS / 2 <= k < BINS ==> avg[k] == 0.0) && low >= 0.001 {
      ZeroSum(avg[BINS / 2..]);
      assert low / 0.001 == low * 1000.0;
    }
  }

  lemma {:induction false} ZeroSum(s: seq<real>)
    requires forall k :: 0 <= k < |s| ==> s[k] == 0.0
    ensures Sum(s) == 0.0
  {
    if |s| > 0 {
      ZeroSum(s[..|s| - 1]);
    }
  }

  function Mean(s: seq<real>): real
    requires |s| > 0
  {
    Sum(s) / |s| as real
  }

  function Deviations(s: seq<real>, m: real): (r: seq<real>)
    ensures |r| == |s| && forall k :: 0 <= k < |s| ==> r[k] == s[k] - m
  {
    seq(|s|, k requires 0 <= k < |s| => s[k] - m)
  }

  /** `10 / (variance + 0.001)`, clamped into [0, 100]: a flatter spectrum
      scores higher. */
  function Instrumentalness(avg: seq<real>): (r: real)
    requires |avg| == BINS
    ensures 0.0 <= r <= 100.0
  {
    var variance := SumSquares(Deviations(avg, Mean(avg))) / BINS as real;
    Clamp(Mul(1.0 / (variance + 0.001), 10.0), 0.0, 100.0)
  }

  lemma {:induction false} SumConstant(s: seq<real>, c: real)
    requires forall k :: 0 <= k < |s| ==> s[k] == c
    ensures Sum(s) == Mul(|s| as real, c)
  {
    if |s| > 0 {
      SumConstant(s[..|s| - 1], c);
    }
  }

  /** A perfectly flat spectrum has variance 0 and scores the maximum. */
  lemma InstrumentalnessFlat(avg: seq<real>)
    requires |avg| == BINS && forall k :: 0 <= k < BINS ==> avg[k] == avg[0]
    ensures Instrumentalness(avg) == 100.0
  {
    SumConstant(avg, avg[0]);
    assert Mean(avg) == avg[0];
    SumSquaresZero(Deviations(avg, Mean(avg)));
  }

  /** The speech band: bins `(200 * 2048 / 44100).toInt()` up to
      `(4000 * 2048 / 44100).toInt()`. */
  const MID_START: nat := 200 * SPECTRUM_FFT / SAMPLE_RATE
  const MID_END: nat := 4000 * SPECTRUM_FFT / SAMPLE_RATE

  /** Speech-band over total energy, times 30, clamped into [0, 30]. */
  function Speechiness(avg: seq<real>): (r: real)
    requires |avg| == BINS && NonNegative(avg)
    ensures 0.0 <= r <= 30.0
  {
    var mid := Sum(avg[MID_START..if MID_END < BINS then MID_END else BINS]);
    var total := Sum(avg);
    SumNonNegative(avg);
    Clamp(Mul(mid / (total + 0.001), 30.0), 0.0, 30.0)
  }

  /** The speech band is bins 9 to 184 (about 194 Hz to 3962 Hz). */
  lemma SpeechBand()
    ensures MID_START == 9 && MID_END == 185
  {
  }

  /** The frequency of bin `k`. */
  function BinFrequency(k: int, sampleRate: int, fftSize: int): real
    requires fftSize > 0
  {
    (k * sampleRate) as real / fftSize as real
  }

  function WeightedSum(s: seq<real>, sampleRate: int, fftSize: int): real
    requires fftSize > 0
  {
    if |s| == 0 then 0.0
    else WeightedSum(s[..|s| - 1], sampleRate, fftSize) + Mul(s[|s| - 1], BinFrequency(|s| - 1, sampleRate, fftSize))
  }

  /** `calculateSpectralCentroid`: the magnitude-weighted mean frequency, 0
      for a spectrum without energy. */
  function CentroidOf(s: seq<real>, sampleRate: int, fftSize: int): real
    requires fftSize > 0
  {
    if Sum(s) > 0.0 then WeightedSum(s, sampleRate, fftSize) / Sum(s) else 0.0
  }

  method SpectralCentroid(spectrum: array<real>, sampleRate: int, fftSize: int) returns (centroid: real)
    requires fftSize > 0
    ensures centroid == CentroidOf(spectrum[..], sampleRate, fftSize)
  {
    var sum := 0.0;
    var weightedSum := 0.0;
    for k := 0 to spectrum.Length
      invariant sum == Sum(spectrum[..k])
      invariant weightedSum == WeightedSum(spectrum[..k], sampleRate, fftSize)
    {
      assert spectrum[..k + 1][..k] == spectrum[..k];
      var freq := BinFrequency(k, sampleRate, fftSize);
      sum := sum + spectrum[k];
      weightedSum := weightedSum + Mul(spectrum[k], freq);
    }
    assert spectrum[..spectrum.Length] == spectrum[..];
    centroid := if sum > 0.0 then weightedSum / sum else 0.0;
  }

  lemma {:induction false} WeightedSumBounds(s: seq<real>, sampleRate: int, fftSize: int, top: real)
    requires fftSize > 0 && sampleRate > 0 && |s| > 0 && NonNegative(s)
    requires top == BinFrequency(|s| - 1, sampleRate, fftSize)
    ensures 0.0 <= WeightedSum(s, sampleRate, fftSize) <= Mul(top, Sum(s))
  {
    var n := |s| - 1;
    var p := s[..n];
    FrequencyMonotone(0, n, sampleRate, fftSize);
    MulNonNegative(s[n], top);
    MulDistributes(top, Sum(p), s[n]);
    if n > 0 {
      var pt := BinFrequency(n - 1, sampleRate, fftSize);
      WeightedSumBounds(p, sampleRate, fftSize, pt);
      FrequencyMonotone(n - 1, n, sampleRate, fftSize);
      SumNonNegative(p);
      MulGrow(pt, top, Sum(p));
    }
  }

  lemma MulDistributes(a: real, x: real, y: real)
    ensures Mul(a, x + y) == Mul(a, x) + Mul(y, a)
  {
  }

  lemma MulGrow(a: real, b: real, x: real)
    requires 0.0 <= a <= b && x >= 0.0
    ensures Mul(a, x) <= Mul(b, x)
  {
    assert Mul(b, x) - Mul(a, x) == (b - a) * x;
    MulNonNegative(b - a, x);
  }

  lemma FrequencyMonotone(i: int, j: int, sampleRate: int, fftSize: int)
    requires 0 <= i <= j && sampleRate > 0 && fftSize > 0
    ensures 0.0 <= BinFrequency(i, sampleRate, fftSize) <= BinFrequency(j, sampleRate, fftSize)
  {
    MulMonotone(i, j, sampleRate);
    DivideMonotone((i * sampleRate) as real, (j * sampleRate) as real, fftSize as real);
    DivideMonotone(0.0, (i * sampleRate) as real, fftSize as real);
  }

  /** For a spectrum without negative bins the centroid is a frequency of the
      analysed band: between 0 and the top bin's frequency. */
  lemma CentroidInBand(s: seq<real>, sampleRate: int, fftSize: int)
    requires fftSize > 0 && sampleRate > 0 && |s| > 0 && NonNegative(s)
    ensures 0.0 <= CentroidOf(s, sampleRate, fftSize) <= BinFrequency(|s| - 1, sampleRate, fftSize)
  {
    var top := BinFrequency(|s| - 1, sampleRate, fftSize);
    FrequencyMonotone(0, |s| - 1, sampleRate, fftSize);
    if Sum(s) > 0.0 {
      WeightedSumBounds(s, sampleRate, fftSize, top);
      var w := WeightedSum(s, sampleRate, fftSize);
      DivideMonotone(w, Mul(top, Sum(s)), Sum(s));
      DivideMonotone(0.0, w, Sum(s));
      assert Mul(top, Sum(s)) / Sum(s) == top;
    }
  }

  /** The centroid mapped from [500 Hz, 5000 Hz] onto [0, 100] and clamped. */
  function Valence(avg: seq<real>): (r: real)
    ensures 0.0 <= r <= 100.0
  {
    var centroid := CentroidOf(avg, SAMPLE_RATE, SPECTRUM_FFT);
    Clamp(Mul((centroid - 500.0) / 4500.0, 100.0), 0.0, 100.0)
  }

  /** A centroid up to 500 Hz scores 0 and one from 5000 Hz on scores 100. */
  lemma ValenceEnds(avg: seq<real>)
    ensures CentroidOf(avg, SAMPLE_RATE, SPECTRUM_FFT) <= 500.0 ==> Valence(avg) == 0.0
    ensures CentroidOf(avg, SAMPLE_RATE, SPECTRUM_FFT) >= 5000.0 ==> Valence(avg) == 100.0
  {
  }

  // ------------------------------------------------- level and dance

  /** `calculateEnergy`: the RMS level times 100, clamped into [0, 100]; the
      mean of no samples is NaN, which the clamp keeps. */
  function Energy(s: seq<real>, sqrt: real -> real): Float
  {
    if |s| == 0 then NaN
    else Num(Clamp(Mul(AudioNormalizer.Rms(s, sqrt), 100.0), 0.0, 100.0))
  }

  /** `calculateLoudness`: `20 * log10(rms)` when the RMS level is positive,
      otherwise -60 dB (NaN for no samples is not positive either). */
  function Loudness(s: seq<real>, sqrt: real -> real, log10: real -> real): real
  {
    if |s| == 0 then -60.0
    else
      var rms := AudioNormalizer.Rms(s, sqrt);
      if rms > 0.0 then Mul(20.0, log10(rms)) else -60.0
  }

  /** A non-empty signal has a number in [0, 100] as energy, 0 when silent;
      its loudness is -60 dB exactly when silent is the guard taken, and
      `20 * log10(rms)` otherwise. */
  lemma LevelGuards(s: seq<real>, sqrt: real -> real, log10: real -> real)
    requires IsSqrt(sqrt)
    ensures |s| == 0 <==> Energy(s, sqrt).NaN?
    ensures |s| > 0 ==> 0.0 <= Energy(s, sqrt).value <= 100.0
    ensures (forall i :: 0 <= i < |s| ==> s[i] == 0.0) ==> Loudness(s, sqrt, log10) == -60.0
    ensures |s| > 0 && (forall i :: 0 <= i < |s| ==> s[i] == 0.0) ==> Energy(s, sqrt) == Num(0.0)
    ensures (exists i :: 0 <= i < |s| && s[i] != 0.0) ==>
      AudioNormalizer.Rms(s, sqrt) > 0.0 &&
      Loudness(s, sqrt, log10) == Mul(20.0, log10(AudioNormalizer.Rms(s, sqrt)))
  {
    AudioNormalizer.RmsZero(s, sqrt);
    if |s| > 0 {
      assert AudioNormalizer.Rms(s, sqrt) >= 0.0 by {
        SumSquaresNonNegativeMean(s);
      }
    }
  }

  lemma SumSquaresNonNegativeMean(s: seq<real>)
    requires |s| > 0
    ensures SumSquares(s) / |s| as real >= 0.0
  {
    DivideMonotone(0.0, SumSquares(s), |s| as real);
  }

  /** `calculateDanceability`: 60% from the tempo's place in [60, 180] and
      40% from the spectral flux, as a percentage clamped into [0, 100]. */
  function Danceability(bpm: real, flux: real): (r: real)
    ensures 0.0 <= r <= 100.0
  {
    var tempoFactor := (bpm - 60.0) / 120.0;
    Clamp((tempoFactor * 0.6 + flux * 0.4) * 100.0, 0.0, 100.0)
  }

  /** Without flux (a signal under 1536 samples) the tempo alone scores, at
      most 60. */
  lemma DanceabilityWithoutFlux(bpm: real)
    requires MIN_BPM <= bpm <= MAX_BPM
    ensures Danceability(bpm, 0.0) == (bpm - 60.0) / 2.0
    ensures Danceability(bpm, 0.0) <= 60.0
  {
  }

  // --------------------------------------------------------- analyzeAudio

  /** `analyzeAudio`: every feature of one signal, given its chroma vector,
      the magnitude function, `sqrt` and `log10`. */
  method AnalyzeAudio(audio: array<real>, chroma: array<real>, magnitude: Magnitude,
                      sqrt: real -> real, log10: real -> real) returns (analysis: AudioAnalysis)
    requires chroma.Length == 12 && IsMagnitude(magnitude)
    ensures analysis.fileId == 0
    ensures analysis.bpm == Bpm(audio[..]) && analysis.tempo == analysis.bpm
    ensures analysis.key == CHROMA_NAMES[StrongestIndex(chroma[..])]
    ensures analysis.energyLevel == Energy(audio[..], sqrt)
    ensures analysis.danceability == Danceability(Bpm(audio[..]), Flux(audio[..], magnitude))
    ensures analysis.acousticness == Acousticness(AverageSpectrumOf(audio[..], magnitude))
    ensures analysis.instrumentalness == Instrumentalness(AverageSpectrumOf(audio[..], magnitude))
    ensures analysis.loudness == Loudness(audio[..], sqrt, log10)
    ensures analysis.speechiness == Speechiness(AverageSpectrumOf(audio[..], magnitude))
    ensures analysis.valence == Valence(AverageSpectrumOf(audio[..], magnitude))
    ensures analysis.timeSignature == TimeSignature(audio[..])
  {
    var bpm := DetectBpm(audio);
    var key := DetectKey(chroma);
    var energy := Energy(audio[..], sqrt);
    var flux := SpectralFlux(audio, magnitude);
    var danceability := Danceability(bpm, flux);
    var avgSpectrum := AverageSpectrum(audio, magnitude);
    var acousticness := Acousticness(avgSpectrum[..]);
    var instrumentalness := Instrumentalness(avgSpectrum[..]);
    var loudness := Loudness(audio[..], sqrt, log10);
    var speechiness := Speechiness(avgSpectrum[..]);
    var centroid := SpectralCentroid(avgSpectrum, SAMPLE_RATE, SPECTRUM_FFT);
    var valence := Clamp(Mul((centroid - 500.0) / 4500.0, 100.0), 0.0, 100.0);
    var timeSignature := DetectTimeSignature(audio);
    analysis := AudioAnalysis(
      fileId := 0, bpm := bpm, key := key, energyLevel := energy,
      danceability := danceability, acousticness := acousticness,
      instrumentalness := instrumentalness, loudness := loudness,
      speechiness := speechiness, valence := valence, tempo := bpm,
      timeSignature := timeSignature);
  }

  /** Every reported feature lies in its range: tempo in [60, 180], the
      percentages in [0, 100], speechiness in [0, 30], and the metre is
      "4/4" or "3/4". */
  lemma AnalysisRanges(s: seq<real>, c: seq<real>, magnitude: Magnitude, sqrt: real -> real)
    requires |c| == 12 && IsMagnitude(magnitude) && IsSqrt(sqrt)
    ensures MIN_BPM <= Bpm(s) <= MAX_BPM
    ensures CHROMA_NAMES[StrongestIndex(c)] in CHROMA_NAMES
    ensures |s| > 0 ==> 0.0 <= Energy(s, sqrt).value <= 100.0
    ensures 0.0 <= Danceability(Bpm(s), Flux(s, magnitude)) <= 100.0
    ensures 0.0 <= Acousticness(AverageSpectrumOf(s, magnitude)) <= 100.0
    ensures 0.0 <= Instrumentalness(AverageSpectrumOf(s, magnitude)) <= 100.0
    ensures 0.0 <= Speechiness(AverageSpectrumOf(s, magnitude)) <= 30.0
    ensures 0.0 <= Valence(AverageSpectrumOf(s, magnitude)) <= 100.0
    ensures TimeSignature(s) == "4/4" || TimeSignature(s) == "3/4"
  {
    StrongestIndexShape(c);
    LevelGuards(s, sqrt, (x: real) => x);
    TimeSignatureShape(s);
  }
}
