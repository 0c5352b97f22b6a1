/** The end-to-end separation run: decode, downmix, resample to 16 kHz, cut
    an optional millisecond span, run inference on fixed 30-second chunks
    (the last one zero-padded), trim and stitch the outputs, and export a
    16 kHz mono WAV. Inference is an abstract function of the chunk and the
    query embedding, with a length contract. */
module SeparationPipeline {
  import opened Wrappers
  import opened JvmInt
  import opened Samples
  import opened AudioRecords
  import opened FloatArrayBuilders
  import AudioResampler
  import AudioDecodeServices
  import QueryEncoders
  import WavEncoder
  import OutputFiles

  const MODEL_SAMPLE_RATE: int := 16000
  const CHUNK_SECONDS: int := 30
  const CHUNK_SAMPLES: int := MODEL_SAMPLE_RATE * CHUNK_SECONDS

  /** A Kotlin `LongRange` `first..last` of milliseconds. */
  datatype Span = Span(first: int, last: int)

  /** `coerceIn(lo, hi)` on integers. */
  function CoerceIn(x: int, lo: int, hi: int): (r: int)
    requires lo <= hi
    ensures lo <= r <= hi
    ensures lo <= x <= hi ==> r == x
  {
    if x < lo then lo else if x > hi then hi else x
  }

  /** `clampSpanMs`: both ends into [0, max(duration, 0)], swapped when they
      come out inverted. */
  function ClampSpanMs(span: Span, durationMs: int): (r: Span)
    ensures 0 <= r.first <= r.last <= (if durationMs > 0 then durationMs else 0)
    ensures var d := if durationMs > 0 then durationMs else 0;
      var a, b := CoerceIn(span.first, 0, d), CoerceIn(span.last, 0, d);
      (r == Span(a, b) || r == Span(b, a))
    ensures 0 <= span.first <= span.last <= durationMs ==> r == span
  {
    var d := if durationMs > 0 then durationMs else 0;
    var start := CoerceIn(span.first, 0, d);
    var end := CoerceIn(span.last, 0, d);
    if end >= start then Span(start, end) else Span(end, start)
  }

  /** The span actually applied: clamped, and dropped when it is empty. */
  function AppliedSpan(spanMs: Option<Span>, durationMs: int): (r: Option<Span>)
    ensures r.Some? ==> 0 <= r.value.first < r.value.last
  {
    if spanMs.None? then None
    else
      var c := ClampSpanMs(spanMs.value, durationMs);
      if c.first < c.last then Some(c) else None
  }

  /** A span wholly at or past the end of the file (or wholly at or before its
      start) clamps to a single point and is dropped: the whole signal is
      processed. */
  lemma SpanOutsideDropped(span: Span, durationMs: int)
    requires var d := if durationMs > 0 then durationMs else 0;
      (span.first >= d && span.last >= d) || (span.first <= 0 && span.last <= 0)
    ensures AppliedSpan(Some(span), durationMs) == None
  {
  }

  /** A span inside the file is applied as given, and an inverted one is
      swapped. */
  lemma SpanInsideApplied(span: Span, durationMs: int)
    requires 0 <= span.first < span.last <= durationMs
    ensures AppliedSpan(Some(span), durationMs) == Some(span)
    ensures AppliedSpan(Some(Span(span.last, span.first)), durationMs) == Some(span)
  {
  }

  /** `msToSampleIndex`: `max(ms, 0) * rate / 1000` in `Long` arithmetic,
      then narrowed to `Int`. */
  function MsToSampleIndex(ms: int, sampleRate: int): int
  {
    var nonNegative := if ms < 0 then 0 else ms;
    Wrap32(TruncDiv(Wrap64(nonNegative * sampleRate), 1000))
  }

  /** Without overflow the index is the floor of `ms * rate / 1000`. */
  lemma MsToSampleIndexExact(ms: int, sampleRate: int)
    requires 0 <= ms && 0 <= sampleRate && ms * sampleRate <= INT_MAX
    ensures MsToSampleIndex(ms, sampleRate) == ms * sampleRate / 1000
  {
    MulMonotone(0, ms, sampleRate);
  }

  /** At the model rate the conversion is monotone for spans up to
      `INT_MAX / 16000` seconds (about 37 hours). */
  lemma MsToSampleIndexMonotone(a: int, b: int)
    requires a <= b && b * MODEL_SAMPLE_RATE <= INT_MAX
    ensures MsToSampleIndex(a, MODEL_SAMPLE_RATE) <= MsToSampleIndex(b, MODEL_SAMPLE_RATE)
  {
    var a0 := if a < 0 then 0 else a;
    var b0 := if b < 0 then 0 else b;
    MsToSampleIndexExact(a0, MODEL_SAMPLE_RATE);
    MsToSampleIndexExact(b0, MODEL_SAMPLE_RATE);
    assert a0 * 16000 <= b0 * 16000;
    DivMonotone(a0 * 16000, b0 * 16000, 1000);
  }

  lemma DivMonotone(x: int, y: int, d: int)
    requires 0 <= x <= y && d > 0
    ensures x / d <= y / d
  {
    if x / d > y / d {
      MulMonotone(y / d + 1, x / d, d);
    }
  }

  /** Why a pipeline run fails: an exception of the decoder, of the resampler,
      of `copyOfRange` (start past end), or a failed inference. */
  datatype PipelineFailure =
    | DecodeFailed(message: string)
    | ResampleFailed(error: AudioResampler.ResampleError)
    | SliceFailed(from: int, to: int)
    | InferenceFailed(message: string)

  /** `downmixToMono` then `resampleLinear` to 16 kHz, as values. */
  function Mono16k(decoded: DecodedAudio): Result<seq<real>, AudioResampler.ResampleError>
  {
    var s := decoded.samples;
    var c := decoded.channelCount;
    var mono := if c <= 1 then s else AudioResampler.Downmixed(s, c);
    var rate := decoded.sampleRateHz;
    if rate == MODEL_SAMPLE_RATE then Ok(mono)
    else if rate <= 0 then Err(AudioResampler.InvalidSampleRates(rate, MODEL_SAMPLE_RATE))
    else if |mono| == 0 then Ok(mono)
    else Ok(AudioResampler.Resampled(mono, rate, MODEL_SAMPLE_RATE))
  }

  /** The slice of the 16 kHz signal the span selects, or the whole signal. */
  function InputForModel(mono16k: seq<real>, applied: Option<Span>): Result<seq<real>, PipelineFailure>
  {
    if applied.None? then Ok(mono16k)
    else
      var n := |mono16k|;
      var from := CoerceIn(MsToSampleIndex(applied.value.first, MODEL_SAMPLE_RATE), 0, n);
      var to := CoerceIn(MsToSampleIndex(applied.value.last, MODEL_SAMPLE_RATE), 0, n);
      if from > to then Err(SliceFailed(from, to)) else Ok(mono16k[from..to])
  }

  /** Slicing never goes out of bounds, and for spans ending before about 37
      hours it never fails: the slice is the samples from `first` to `last`. */
  lemma InputForModelSlice(mono16k: seq<real>, span: Span)
    requires 0 <= span.first < span.last && span.last * MODEL_SAMPLE_RATE <= INT_MAX
    ensures var from := MsToSampleIndex(span.first, MODEL_SAMPLE_RATE);
      var to := MsToSampleIndex(span.last, MODEL_SAMPLE_RATE);
      var n := |mono16k|;
      InputForModel(mono16k, Some(span)) ==
        Ok(mono16k[(if from > n then n else from)..(if to > n then n else to)])
  {
    MsToSampleIndexMonotone(span.first, span.last);
    MsToSampleIndexExact(span.first, MODEL_SAMPLE_RATE);
    MulMonotone(0, span.first, MODEL_SAMPLE_RATE);
  }

  /** The decoded audio, the applied span and the signal fed to the model. */
  datatype Prepared = Prepared(decoded: DecodedAudio, applied: Option<Span>, input: seq<real>)

  /** Everything before the chunk loop, as a value. */
  function Prepare(media: AudioDecodeServices.Media, spanMs: Option<Span>): Result<Prepared, PipelineFailure>
  {
    match AudioDecodeServices.DecodeResult(media)
    case Err(message) => Err(DecodeFailed(message))
    case Ok(decoded) =>
      match Mono16k(decoded)
      case Err(e) => Err(ResampleFailed(e))
      case Ok(mono16k) =>
        var applied := AppliedSpan(spanMs, decoded.durationMs);
        match InputForModel(mono16k, applied)
        case Err(f) => Err(f)
        case Ok(input) => Ok(Prepared(decoded, applied, input))
  }

  /** How many input samples the chunk starting at `processed` carries. */
  function TakeCount(total: int, processed: int): (r: int)
    requires processed < total
    ensures 0 < r <= CHUNK_SAMPLES && processed + r <= total
    ensures r == CHUNK_SAMPLES || processed + r == total
  {
    var remaining := total - processed;
    if CHUNK_SAMPLES < remaining then CHUNK_SAMPLES else remaining
  }

  /** The chunk starting at `processed`, zero-padded to `CHUNK_SAMPLES`. */
  function Chunk(input: seq<real>, processed: int): (c: seq<real>)
    requires 0 <= processed < |input|
    ensures |c| == CHUNK_SAMPLES
    ensures var take := TakeCount(|input|, processed);
      (forall i :: 0 <= i < take ==> c[i] == input[processed + i]) &&
      (forall i :: take <= i < CHUNK_SAMPLES ==> c[i] == 0.0)
  {
    var take := TakeCount(|input|, processed);
    input[processed..processed + take] + Zeros(CHUNK_SAMPLES - take)
  }

  /** What `modelManager.processAudio(chunk, embedding)` returns. */
  type Inference = (seq<real>, seq<real>) -> AudioSeparationResult

  /** A successful result has the chunk's length. */
  ghost predicate KeepsLength(infer: Inference)
  {
    forall c, e :: infer(c, e).success ==> |infer(c, e).separatedAudio| == |c|
  }

  /** `result.error ?: "Model inference failed"`. */
  function ErrorText(error: Option<string>): (r: string)
    ensures error.Some? ==> r == error.value
    ensures error.None? ==> r == "Model inference failed"
  {
    if error.Some? then error.value else "Model inference failed"
  }

  /** `(processed / total).coerceIn(0, 1)`. */
  function ProgressFraction(processed: int, total: int): real
    requires total > 0
  {
    Clamp(processed as real / total as real, 0.0, 1.0)
  }

  /** The stitched output (or the first failure's message) and the progress
      values reported, from chunk offset `processed` on. */
  datatype ChunkRun = ChunkRun(result: Result<seq<real>, string>, progress: seq<real>)

  function Chunks(input: seq<real>, embedding: seq<real>, infer: Inference, processed: int): ChunkRun
    requires KeepsLength(infer) && 0 <= processed <= |input|
    decreases |input| - processed
  {
    if processed == |input| then ChunkRun(Ok([]), [])
    else
      var take := TakeCount(|input|, processed);
      var res := infer(Chunk(input, processed), embedding);
      if !res.success then ChunkRun(Err(ErrorText(res.error)), [])
      else
        var rest := Chunks(input, embedding, infer, processed + take);
        var fraction := ProgressFraction(processed + take, |input|);
        Combine(res.separatedAudio[..take], [fraction], rest)
  }

  /** A run prefixed by the output and progress of earlier chunks. */
  function Combine(prefix: seq<real>, reported: seq<real>, rest: ChunkRun): ChunkRun
  {
    ChunkRun(if rest.result.Ok? then Ok(prefix + rest.result.value) else rest.result,
             reported + rest.progress)
  }

  /** One chunk of `Chunks`, unfolded. */
  lemma ChunksStep(input: seq<real>, embedding: seq<real>, infer: Inference, processed: int)
    requires KeepsLength(infer) && 0 <= processed < |input|
    ensures var take := TakeCount(|input|, processed);
      var res := infer(Chunk(input, processed), embedding);
      Chunks(input, embedding, infer, processed) ==
        if !res.success then ChunkRun(Err(ErrorText(res.error)), [])
        else Combine(res.separatedAudio[..take], [ProgressFraction(processed + take, |input|)],
                     Chunks(input, embedding, infer, processed + take))
  {
  }

  lemma CombineEmpty(run: ChunkRun)
    ensures Combine([], [], run) == run
  {
    if run.result.Ok? {
      assert [] + run.result.value == run.result.value;
    }
    assert [] + run.progress == run.progress;
  }

  lemma CombineAssoc(a: seq<real>, ra: seq<real>, b: seq<real>, rb: seq<real>, rest: ChunkRun)
    ensures Combine(a, ra, Combine(b, rb, rest)) == Combine(a + b, ra + rb, rest)
  {
    if rest.result.Ok? {
      assert a + (b + rest.result.value) == a + b + rest.result.value;
    }
    assert ra + (rb + rest.progress) == ra + rb + rest.progress;
  }

  /** With a model that returns its input, the stitched output is the input:
      padding is trimmed off every chunk, for every length. */
  lemma {:induction false} ChunksIdentity(input: seq<real>, embedding: seq<real>, infer: Inference,
                                          processed: int)
    requires KeepsLength(infer) && 0 <= processed <= |input|
    requires forall c, e :: infer(c, e).success && infer(c, e).separatedAudio == c
    ensures Chunks(input, embedding, infer, processed).result == Ok(input[processed..])
    decreases |input| - processed
  {
    if processed < |input| {
      var take := TakeCount(|input|, processed);
      var chunk := Chunk(input, processed);
      ChunksIdentity(input, embedding, infer, processed + take);
      assert infer(chunk, embedding).separatedAudio[..take] == input[processed..processed + take];
      assert input[processed..processed + take] + input[processed + take..] == input[processed..];
    }
  }

  /** A successful run stitches exactly as many samples as it was given. */
  lemma {:induction false} ChunksLength(input: seq<real>, embedding: seq<real>, infer: Inference,
                                        processed: int)
    requires KeepsLength(infer) && 0 <= processed <= |input|
    requires Chunks(input, embedding, infer, processed).result.Ok?
    ensures |Chunks(input, embedding, infer, processed).result.value| == |input| - processed
    decreases |input| - processed
  {
    if processed < |input| {
      var take := TakeCount(|input|, processed);
      ChunksLength(input, embedding, infer, processed + take);
    }
  }

  /** The chunk offsets: `processed`, then steps of `CHUNK_SAMPLES`. The
      progress value after chunk `j` is the fraction reached after it. */
  function Reached(total: int, processed: int, j: int): int
  {
    var p := processed + (j + 1) * CHUNK_SAMPLES;
    if p > total then total else p
  }

  /** Progress: one value per chunk processed, each the clamped fraction of
      samples done after that chunk; with success the count is the number of
      chunks, `ceil((total - processed) / CHUNK_SAMPLES)`. */
  lemma {:induction false} ChunksProgress(input: seq<real>, embedding: seq<real>, infer: Inference,
                                          processed: int)
    requires KeepsLength(infer) && 0 <= processed <= |input|
    ensures var run := Chunks(input, embedding, infer, processed);
      (forall j :: 0 <= j < |run.progress| ==>
        processed + j * CHUNK_SAMPLES < |input| &&
        run.progress[j] == ProgressFraction(Reached(|input|, processed, j), |input|)) &&
      (run.result.Ok? ==> |run.progress| == (|input| - processed + CHUNK_SAMPLES - 1) / CHUNK_SAMPLES)
    decreases |input| - processed
  {
    if processed < |input| {
      var take := TakeCount(|input|, processed);
      var run := Chunks(input, embedding, infer, processed);
      var res := infer(Chunk(input, processed), embedding);
      if res.success {
        var next := processed + take;
        ChunksProgress(input, embedding, infer, next);
        var rest := Chunks(input, embedding, infer, next);
        assert run.progress == [ProgressFraction(next, |input|)] + rest.progress;
        ProgressFromRest(|input|, processed, take, run.progress, rest.progress);
        if run.result.Ok? {
          CeilStep(|input| - processed, take);
        }
      }
    }
  }

  /** The progress list of a run from `processed` is the fraction after its
      first chunk followed by the list of the run after that chunk. */
  lemma ProgressFromRest(total: int, processed: int, take: int, p: seq<real>, rest: seq<real>)
    requires 0 <= processed < total && take == TakeCount(total, processed)
    requires p == [ProgressFraction(processed + take, total)] + rest
    requires forall j :: 0 <= j < |rest| ==>
      processed + take + j * CHUNK_SAMPLES < total &&
      rest[j] == ProgressFraction(Reached(total, processed + take, j), total)
    ensures forall j :: 0 <= j < |p| ==>
      processed + j * CHUNK_SAMPLES < total &&
      p[j] == ProgressFraction(Reached(total, processed, j), total)
  {
    var next := processed + take;
    forall j | 0 <= j < |p|
      ensures processed + j * CHUNK_SAMPLES < total
      ensures p[j] == ProgressFraction(Reached(total, processed, j), total)
    {
      if j == 0 {
        assert Reached(total, processed, 0) == next;
      } else {
        assert p[j] == rest[j - 1];
        assert take == CHUNK_SAMPLES by {
          assert next + (j - 1) * CHUNK_SAMPLES < total;
        }
        assert processed + j * CHUNK_SAMPLES == next + (j - 1) * CHUNK_SAMPLES;
        assert Reached(total, processed, j) == Reached(total, next, j - 1);
      }
    }
  }

  /** One chunk less: `ceil((n - take) / C) + 1 == ceil(n / C)`. */
  lemma CeilStep(n: int, take: int)
    requires 0 < take <= CHUNK_SAMPLES && take <= n && (take == CHUNK_SAMPLES || take == n)
    ensures (n - take + CHUNK_SAMPLES - 1) / CHUNK_SAMPLES + 1 == (n + CHUNK_SAMPLES - 1) / CHUNK_SAMPLES
  {
    var c := CHUNK_SAMPLES;
    if take == c {
      assert n + c - 1 == (n - take + c - 1) + c;
    } else {
      assert (n - take + c - 1) / c == 0;
      DivUnique(n + c - 1, c, 1, n - 1);
    }
  }

  /** The reported fractions rise strictly and stay in (0, 1]. */
  lemma ProgressIncreasing(input: seq<real>, embedding: seq<real>, infer: Inference)
    requires KeepsLength(infer)
    ensures var run := Chunks(input, embedding, infer, 0);
      forall i, j :: 0 <= i < j < |run.progress| ==> 0.0 < run.progress[i] < run.progress[j] <= 1.0
  {
    var run := Chunks(input, embedding, infer, 0);
    ChunksProgress(input, embedding, infer, 0);
    forall i, j | 0 <= i < j < |run.progress|
      ensures 0.0 < run.progress[i] < run.progress[j] <= 1.0
    {
      ProgressPair(|input|, run.progress, i, j);
    }
  }

  /** After a successful run over a non-empty signal the last fraction is
      exactly 1; an empty signal reports nothing. */
  lemma ProgressComplete(input: seq<real>, embedding: seq<real>, infer: Inference)
    requires KeepsLength(infer)
    ensures var run := Chunks(input, embedding, infer, 0);
      run.result.Ok? && |input| > 0 ==> |run.progress| > 0 && run.progress[|run.progress| - 1] == 1.0
    ensures |input| == 0 ==> Chunks(input, embedding, infer, 0).progress == []
  {
    var run := Chunks(input, embedding, infer, 0);
    ChunksProgress(input, embedding, infer, 0);
    if run.result.Ok? && |input| > 0 {
      var total := |input|;
      var last := |run.progress| - 1;
      assert |run.progress| == (total + CHUNK_SAMPLES - 1) / CHUNK_SAMPLES;
      ReachedLast(total);
      assert Reached(total, 0, last) == total;
      FractionOne(total);
    }
  }

  lemma FractionOne(total: int)
    requires total > 0
    ensures ProgressFraction(total, total) == 1.0
  {
    var t := total as real;
    assert (t / t - 1.0) * t == 0.0;
  }

  lemma ProgressPair(total: int, progress: seq<real>, i: int, j: int)
    requires 0 <= i < j < |progress| && j * CHUNK_SAMPLES < total
    requires progress[i] == ProgressFraction(Reached(total, 0, i), total)
    requires progress[j] == ProgressFraction(Reached(total, 0, j), total)
    ensures 0.0 < progress[i] < progress[j] <= 1.0
  {
    ReachedStrict(total, i, j);
    FractionStrict(Reached(total, 0, i), Reached(total, 0, j), total);
  }

  /** Chunk ends strictly rise while they are inside the signal. */
  lemma ReachedStrict(total: int, i: int, j: int)
    requires 0 <= i < j && j * CHUNK_SAMPLES < total
    ensures 0 < Reached(total, 0, i) < Reached(total, 0, j) <= total
  {
    MulMonotone(i + 1, j, CHUNK_SAMPLES);
  }

  /** The last of `ceil(total / CHUNK_SAMPLES)` chunks ends at the end. */
  lemma ReachedLast(total: int)
    requires total > 0
    ensures var count := (total + CHUNK_SAMPLES - 1) / CHUNK_SAMPLES;
      count >= 1 && Reached(total, 0, count - 1) == total
  {
    CeilCovers(total);
  }

  /** The last chunk reaches the end. */
  lemma CeilCovers(n: int)
    requires n > 0
    ensures (n + CHUNK_SAMPLES - 1) / CHUNK_SAMPLES >= 1
    ensures ((n + CHUNK_SAMPLES - 1) / CHUNK_SAMPLES) * CHUNK_SAMPLES >= n
  {
    var c := CHUNK_SAMPLES;
    var q := (n + c - 1) / c;
    assert n + c - 1 == q * c + (n + c - 1) % c;
  }

  lemma FractionStrict(a: int, b: int, total: int)
    requires 0 < a < b <= total
    ensures 0.0 < ProgressFraction(a, total) < ProgressFraction(b, total) <= 1.0
  {
    var t := total as real;
    QuotientStrict(a as real, b as real, t);
    QuotientStrict(b as real, t + 1.0, t);
  }

  lemma QuotientStrict(x: real, y: real, t: real)
    requires 0.0 < x < y && 0.0 < t
    ensures 0.0 < x / t < y / t
    ensures y <= t ==> y / t <= 1.0
  {
    assert y / t - x / t == (y - x) / t;
  }

  /** A failed run stops at the first chunk whose inference fails, the one
      at offset `processed + |progress| * CHUNK_SAMPLES`, and reports its
      message (or the default). */
  lemma {:induction false} ChunksFailure(input: seq<real>, embedding: seq<real>, infer: Inference,
                                         processed: int)
    requires KeepsLength(infer) && 0 <= processed <= |input|
    requires Chunks(input, embedding, infer, processed).result.Err?
    ensures var run := Chunks(input, embedding, infer, processed);
      var p := processed + |run.progress| * CHUNK_SAMPLES;
      p < |input| &&
      !infer(Chunk(input, p), embedding).success &&
      run.result.error == ErrorText(infer(Chunk(input, p), embedding).error)
    decreases |input| - processed
  {
    ChunksStep(input, embedding, infer, processed);
    var res := infer(Chunk(input, processed), embedding);
    if res.success {
      var next := processed + TakeCount(|input|, processed);
      ChunksFailure(input, embedding, infer, next);
      MulSucc(|Chunks(input, embedding, infer, next).progress|, CHUNK_SAMPLES);
    }
  }

  /** Every chunk before the one that failed succeeded. */
  lemma {:induction false} ChunksSucceededBefore(input: seq<real>, embedding: seq<real>, infer: Inference,
                                                 processed: int, j: int)
    requires KeepsLength(infer) && 0 <= processed <= |input|
    requires 0 <= j < |Chunks(input, embedding, infer, processed).progress|
    ensures processed + j * CHUNK_SAMPLES < |input|
    ensures infer(Chunk(input, processed + j * CHUNK_SAMPLES), embedding).success
    decreases |input| - processed
  {
    ChunksStep(input, embedding, infer, processed);
    var res := infer(Chunk(input, processed), embedding);
    if j > 0 {
      var next := processed + TakeCount(|input|, processed);
      ChunksSucceededBefore(input, embedding, infer, next, j - 1);
      MulSucc(j - 1, CHUNK_SAMPLES);
    }
  }

  /** What `run` returns (the output file's name and content, the decoded
      audio and the applied span) or why it throws, with the progress values
      reported (0 first). */
  datatype RunResult = RunResult(
    outputFileName: string,
    fileContent: seq<WavEncoder.Byte>,
    decoded: DecodedAudio,
    appliedSpanMs: Option<Span>)

  datatype PipelineRun = PipelineRun(result: Result<RunResult, PipelineFailure>, progress: seq<real>)

  /** The whole run as a value. `fileName` is the input's display name and
      `existing` the bytes already in the output file. */
  function Pipeline(media: AudioDecodeServices.Media, embedding: seq<real>, spanMs: Option<Span>,
                    infer: Inference, fileName: string, existing: seq<WavEncoder.Byte>): PipelineRun
    requires KeepsLength(infer)
  {
    match Prepare(media, spanMs)
    case Err(f) => PipelineRun(Err(f), [0.0])
    case Ok(p) =>
      var c := Chunks(p.input, embedding, infer, 0);
      match c.result
      case Err(message) => PipelineRun(Err(InferenceFailed(message)), [0.0] + c.progress)
      case Ok(stitched) =>
        PipelineRun(Ok(RunResult(OutputFiles.OutputFileName(SubstringBeforeLast(fileName, '.')),
                                 WavEncoder.WavImage(existing, stitched, MODEL_SAMPLE_RATE, 1),
                                 p.decoded, p.applied)),
                    [0.0] + c.progress)
  }

  /** The index of the last `c` in `s`, or -1. */
  function LastIndexOf(s: string, c: char): (r: int)
    ensures -1 <= r < |s|
    ensures r >= 0 ==> s[r] == c && forall i :: r < i < |s| ==> s[i] != c
    ensures r == -1 ==> forall i :: 0 <= i < |s| ==> s[i] != c
  {
    if |s| == 0 then -1
    else if s[|s| - 1] == c then |s| - 1
    else LastIndexOf(s[..|s| - 1], c)
  }

  /** Kotlin's `substringBeforeLast(c)`: everything before the last `c`, or
      the whole string when there is none. */
  function SubstringBeforeLast(s: string, c: char): (r: string)
    ensures LastIndexOf(s, c) == -1 ==> r == s
    ensures LastIndexOf(s, c) >= 0 ==> r + [c] + s[LastIndexOf(s, c) + 1..] == s
  {
    var k := LastIndexOf(s, c);
    if k < 0 then s
    else
      assert s[..k] + [c] + s[k + 1..] == s;
      s[..k]
  }

  /** A successful run writes a 16 kHz mono WAV holding the stitched output,
      which has the length of the model input; with a model that returns its
      input, the WAV holds the model input itself. */
  lemma PipelineSuccess(media: AudioDecodeServices.Media, embedding: seq<real>, spanMs: Option<Span>,
                        infer: Inference, fileName: string, existing: seq<WavEncoder.Byte>)
    requires KeepsLength(infer)
    requires Pipeline(media, embedding, spanMs, infer, fileName, existing).result.Ok?
    ensures Prepare(media, spanMs).Ok?
    ensures var input := Prepare(media, spanMs).value.input;
      var stitched := Chunks(input, embedding, infer, 0).result.value;
      var r := Pipeline(media, embedding, spanMs, infer, fileName, existing).result.value;
      |stitched| == |input| &&
      r.fileContent == WavEncoder.WavImage(existing, stitched, MODEL_SAMPLE_RATE, 1) &&
      ((forall c, e :: infer(c, e).success && infer(c, e).separatedAudio == c) ==> stitched == input)
  {
    var input := Prepare(media, spanMs).value.input;
    ChunksLength(input, embedding, infer, 0);
    if forall c, e :: infer(c, e).success && infer(c, e).separatedAudio == c {
      ChunksIdentity(input, embedding, infer, 0);
      assert input[0..] == input;
    }
  }

  /** Progress always starts at 0, and a run that fails reports exactly the
      fractions of the chunks that succeeded before it stopped. */
  lemma PipelineProgress(media: AudioDecodeServices.Media, embedding: seq<real>, spanMs: Option<Span>,
                         infer: Inference, fileName: string, existing: seq<WavEncoder.Byte>)
    requires KeepsLength(infer)
    ensures var run := Pipeline(media, embedding, spanMs, infer, fileName, existing);
      |run.progress| >= 1 && run.progress[0] == 0.0 &&
      (Prepare(media, spanMs).Err? ==> run.progress == [0.0]) &&
      (Prepare(media, spanMs).Ok? ==>
         run.progress == [0.0] + Chunks(Prepare(media, spanMs).value.input, embedding, infer, 0).progress)
  {
  }

  /** `run`. */
  method Run(media: AudioDecodeServices.Media, query: string, spanMs: Option<Span>,
             encoder: QueryEncoders.QueryEncoder, model: seq<int> -> QueryEncoders.RunOutcome,
             sqrt: real -> real, infer: Inference, fileName: string, existing: seq<WavEncoder.Byte>)
    returns (run: PipelineRun)
    requires AudioDecodeServices.Decodable(media)
    requires QueryEncoders.FitsEmbedding(model(QueryEncoders.Tokenize(query)))
    requires KeepsLength(infer)
    ensures run == Pipeline(media, QueryEncoders.EncodedQuery(encoder.interpreter, query, model, sqrt),
                            spanMs, infer, fileName, existing)
  {
    var prepared := PrepareInput(media, spanMs);
    if prepared.Err? {
      return PipelineRun(Err(prepared.error), [0.0]);
    }
    var (decoded, applied, inputForModel) := prepared.value;
    var embedding := encoder.EncodeQuery(query, model, sqrt);
    var failure, output, reported := RunChunks(inputForModel, embedding[..], infer);
    var progress := [0.0] + reported;
    if failure.Some? {
      return PipelineRun(Err(InferenceFailed(failure.value)), progress);
    }
    var baseName := SubstringBeforeLast(fileName, '.');
    var outputFileName := OutputFiles.OutputFileName(baseName);
    var content := WavEncoder.EncodeAudio(output, existing, MODEL_SAMPLE_RATE, 1);
    run := PipelineRun(Ok(RunResult(outputFileName, content, decoded, applied)), progress);
  }

  /** The first half of `run`: decode, downmix, resample, cut the span. */
  method PrepareInput(media: AudioDecodeServices.Media, spanMs: Option<Span>)
    returns (r: Result<(DecodedAudio, Option<Span>, array<real>), PipelineFailure>)
    requires AudioDecodeServices.Decodable(media)
    ensures Prepare(media, spanMs).Err? <==> r.Err?
    ensures r.Err? ==> r.error == Prepare(media, spanMs).error
    ensures r.Ok? ==> var p := Prepare(media, spanMs).value;
      r.value.0 == p.decoded && r.value.1 == p.applied && r.value.2[..] == p.input
  {
    var decodeRun := AudioDecodeServices.DecodeToPcmFloat(media);
    if decodeRun.result.Err? {
      return Err(DecodeFailed(decodeRun.result.error));
    }
    var decoded := decodeRun.result.value;
    var resampled := ToMono16k(decoded);
    if resampled.Err? {
      return Err(ResampleFailed(resampled.error));
    }
    var mono16k := resampled.value;
    var applied := AppliedSpan(spanMs, decoded.durationMs);
    var sliced := SliceForModel(mono16k, applied);
    if sliced.Err? {
      return Err(sliced.error);
    }
    r := Ok((decoded, applied, sliced.value));
  }

  /** `downmixToMono` and `resampleLinear` on the decoded samples. */
  method ToMono16k(decoded: DecodedAudio) returns (r: Result<array<real>, AudioResampler.ResampleError>)
    ensures Mono16k(decoded).Err? <==> r.Err?
    ensures r.Err? ==> r.error == Mono16k(decoded).error
    ensures r.Ok? ==> r.value[..] == Mono16k(decoded).value
  {
    var samples := new real[|decoded.samples|](i requires 0 <= i < |decoded.samples| => decoded.samples[i]);
    assert samples[..] == decoded.samples;
    var mono := AudioResampler.DownmixToMono(samples, decoded.channelCount);
    r := AudioResampler.ResampleLinear(mono, decoded.sampleRateHz, MODEL_SAMPLE_RATE);
  }

  /** The span's slice of the 16 kHz signal, or the signal itself. */
  method SliceForModel(mono16k: array<real>, applied: Option<Span>) returns (r: Result<array<real>, PipelineFailure>)
    ensures InputForModel(mono16k[..], applied).Err? <==> r.Err?
    ensures r.Err? ==> r.error == InputForModel(mono16k[..], applied).error
    ensures r.Ok? ==> r.value[..] == InputForModel(mono16k[..], applied).value
  {
    if applied.None? {
      return Ok(mono16k);
    }
    var n := mono16k.Length;
    var startIdx := MsToSampleIndex(applied.value.first, MODEL_SAMPLE_RATE);
    var endIdx := MsToSampleIndex(applied.value.last, MODEL_SAMPLE_RATE);
    var from, to := CoerceIn(startIdx, 0, n), CoerceIn(endIdx, 0, n);
    if from > to {
      return Err(SliceFailed(from, to));
    }
    var slice := CopyOfRange(mono16k, from, to);
    r := Ok(slice);
  }

  /** Kotlin's `copyOfRange(from, to)` for `from <= to`. */
  method CopyOfRange(a: array<real>, from: int, to: int) returns (r: array<real>)
    requires 0 <= from <= to <= a.Length
    ensures fresh(r) && r[..] == a[from..to]
  {
    r := new real[to - from];
    CopyInto(a, r, 0, from, to);
  }

  /** The chunk loop of `run`: cut, pad, infer, abort on the first failure,
      trim and append, report progress; then `toArray`. */
  method RunChunks(input: array<real>, embedding: seq<real>, infer: Inference)
    returns (failure: Option<string>, output: array<real>, progress: seq<real>)
    requires KeepsLength(infer)
    ensures var run := Chunks(input[..], embedding, infer, 0);
      progress == run.progress &&
      (failure.None? <==> run.result.Ok?) &&
      (run.result.Err? ==> failure == Some(run.result.error)) &&
      (run.result.Ok? ==> output[..] == run.result.value)
  {
    var out := new FloatArrayBuilder(input.Length);
    var total := input.Length;
    ghost var signal := input[..];
    var processed := 0;
    progress := [];
    failure := None;
    ghost var done: seq<real> := [];
    CombineEmpty(Chunks(signal, embedding, infer, 0));
    while processed < total
      invariant 0 <= processed <= total && out.Valid() && fresh(out) && fresh(out.buf)
      invariant out.size == processed && out.Contents() == done && out.buf.Length >= total
      invariant Chunks(signal, embedding, infer, 0) ==
        Combine(done, progress, Chunks(signal, embedding, infer, processed))
      decreases total - processed
    {
      var take := TakeCount(total, processed);
      var result := ProcessChunk(input, processed, embedding, infer, out);
      assert input[..] == signal;
      if !result.success {
        ChunkFailed(signal, embedding, infer, processed, done, progress);
        output := new real[0];
        return Some(ErrorText(result.error)), output, progress;
      }
      ChunkAppended(signal, embedding, infer, processed, done, progress);
      done := done + result.separatedAudio[0..take];
      processed := processed + take;
      progress := progress + [ProgressFraction(processed, total)];
    }
    output := out.ToArray();
    ChunksDone(signal, embedding, infer, done, progress);
  }

  /** One pass of the loop body: pad the chunk, run inference and, when it
      succeeds, append the chunk's share of the output. */
  method ProcessChunk(input: array<real>, processed: int, embedding: seq<real>, infer: Inference,
                      out: FloatArrayBuilder)
    returns (result: AudioSeparationResult)
    requires KeepsLength(infer) && 0 <= processed < input.Length <= out.buf.Length
    requires out.Valid() && out.size == processed && out.buf != input
    modifies out, out.buf
    ensures result == infer(Chunk(input[..], processed), embedding)
    ensures out.Valid() && out.buf == old(out.buf)
    ensures !result.success ==> out.Contents() == old(out.Contents())
    ensures result.success ==> var take := TakeCount(input.Length, processed);
      out.Contents() == old(out.Contents()) + result.separatedAudio[0..take] &&
      out.size == processed + take
  {
    var take := TakeCount(input.Length, processed);
    var chunk := PaddedChunk(input, processed, take);
    result := infer(chunk[..], embedding);
    if result.success {
      var separated := ArrayOf(result.separatedAudio);
      out.AppendAll(separated, 0, take);
    }
  }

  /** The loop's invariant after a chunk fails. */
  lemma ChunkFailed(signal: seq<real>, embedding: seq<real>, infer: Inference, processed: int,
                    done: seq<real>, progress: seq<real>)
    requires KeepsLength(infer) && 0 <= processed < |signal|
    requires Chunks(signal, embedding, infer, 0) == Combine(done, progress, Chunks(signal, embedding, infer, processed))
    requires !infer(Chunk(signal, processed), embedding).success
    ensures Chunks(signal, embedding, infer, 0) ==
      ChunkRun(Err(ErrorText(infer(Chunk(signal, processed), embedding).error)), progress)
  {
    ChunksStep(signal, embedding, infer, processed);
    assert progress + [] == progress;
  }

  /** The loop's invariant after a chunk succeeds and its samples are
      appended. */
  lemma ChunkAppended(signal: seq<real>, embedding: seq<real>, infer: Inference, processed: int,
                      done: seq<real>, progress: seq<real>)
    requires KeepsLength(infer) && 0 <= processed < |signal|
    requires Chunks(signal, embedding, infer, 0) == Combine(done, progress, Chunks(signal, embedding, infer, processed))
    requires infer(Chunk(signal, processed), embedding).success
    ensures var take := TakeCount(|signal|, processed);
      var separated := infer(Chunk(signal, processed), embedding).separatedAudio;
      Chunks(signal, embedding, infer, 0) ==
        Combine(done + separated[0..take], progress + [ProgressFraction(processed + take, |signal|)],
                Chunks(signal, embedding, infer, processed + take))
  {
    var take := TakeCount(|signal|, processed);
    var separated := infer(Chunk(signal, processed), embedding).separatedAudio;
    ChunksStep(signal, embedding, infer, processed);
    assert separated[0..take] == separated[..take];
    CombineAssoc(done, progress, separated[0..take], [ProgressFraction(processed + take, |signal|)],
                 Chunks(signal, embedding, infer, processed + take));
  }

  /** The loop's invariant once every sample is processed. */
  lemma ChunksDone(signal: seq<real>, embedding: seq<real>, infer: Inference, done: seq<real>, progress: seq<real>)
    requires KeepsLength(infer)
    requires Chunks(signal, embedding, infer, 0) == Combine(done, progress, Chunks(signal, embedding, infer, |signal|))
    ensures Chunks(signal, embedding, infer, 0) == ChunkRun(Ok(done), progress)
  {
    assert done + [] == done;
    assert progress + [] == progress;
  }

  /** `FloatArray(CHUNK_SAMPLES)` with `take` samples copied in from
      `processed`. */
  method PaddedChunk(input: array<real>, processed: int, take: int) returns (chunk: array<real>)
    requires 0 <= processed < input.Length && take == TakeCount(input.Length, processed)
    ensures fresh(chunk) && chunk[..] == Chunk(input[..], processed)
  {
    chunk := new real[CHUNK_SAMPLES](_ => 0.0);
    assert chunk[take..] == Zeros(CHUNK_SAMPLES - take);
    CopyInto(input, chunk, 0, processed, processed + take);
    assert chunk[..] == Chunk(input[..], processed);
  }

  /** The model's output as an array. */
  method ArrayOf(s: seq<real>) returns (a: array<real>)
    ensures fresh(a) && a[..] == s
  {
    a := new real[|s|](i requires 0 <= i < |s| => s[i]);
  }
}
