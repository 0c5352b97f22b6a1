/** The decoder front end: choosing the first audio track of a container,
    sizing the output buffer, converting decoder output to float samples, and
    the feed/drain loop that runs until the decoder flags end of stream. The
    extractor and the codec are an abstract script of what each call returns. */
module AudioDecodeServices {
  import opened Wrappers
  import opened JvmInt
  import opened Text
  import opened AudioRecords
  import opened FloatArrayBuilders

  /** `AudioFormat.ENCODING_PCM_16BIT` and `AudioFormat.ENCODING_PCM_FLOAT`. */
  const ENCODING_PCM_16BIT: int := 2
  const ENCODING_PCM_FLOAT: int := 4

  /** The keys of one track's `MediaFormat` that the decoder reads; a missing
      duration key is `None`. */
  datatype TrackFormat = TrackFormat(
    mime: Option<string>,
    sampleRate: int,
    channelCount: int,
    durationUs: Option<int>)

  predicate IsAudioTrack(t: TrackFormat)
  {
    t.mime.Some? && StartsWith(t.mime.value, "audio/")
  }

  /** `findFirstAudioTrack`, scanning from index `from`. */
  function FirstAudioTrackFrom(tracks: seq<TrackFormat>, from: nat): (r: Option<nat>)
    requires from <= |tracks|
    ensures r.Some? ==> from <= r.value < |tracks| && IsAudioTrack(tracks[r.value])
    ensures r.Some? ==> forall j :: from <= j < r.value ==> !IsAudioTrack(tracks[j])
    ensures r.None? ==> forall j :: from <= j < |tracks| ==> !IsAudioTrack(tracks[j])
    decreases |tracks| - from
  {
    if from == |tracks| then None
    else if IsAudioTrack(tracks[from]) then Some(from)
    else FirstAudioTrackFrom(tracks, from + 1)
  }

  /** The lowest index whose MIME type starts with "audio/"; tracks without a
      MIME type are skipped. */
  function FindFirstAudioTrack(tracks: seq<TrackFormat>): (r: Option<nat>)
    ensures r.Some? ==> r.value < |tracks| && IsAudioTrack(tracks[r.value])
    ensures r.Some? ==> forall j :: 0 <= j < r.value ==> !IsAudioTrack(tracks[j])
    ensures r.None? <==> forall j :: 0 <= j < |tracks| ==> !IsAudioTrack(tracks[j])
  {
    FirstAudioTrackFrom(tracks, 0)
  }

  /** The chosen track always has a MIME type, so the later "Missing MIME type
      for audio track" check never fires. */
  lemma ChosenTrackHasMime(tracks: seq<TrackFormat>)
    requires FindFirstAudioTrack(tracks).Some?
    ensures tracks[FindFirstAudioTrack(tracks).value].mime.Some?
  {
  }

  /** A video track ahead of the audio track is skipped. */
  lemma SkipsNonAudio(video: TrackFormat, audio: TrackFormat)
    requires !IsAudioTrack(video) && IsAudioTrack(audio)
    ensures FindFirstAudioTrack([video, audio]) == Some(1)
  {
    assert FirstAudioTrackFrom([video, audio], 1) == Some(1);
  }

  /** The 10-minute cap on the duration estimate, in seconds. */
  const MAX_ESTIMATE_SECONDS: real := 600.0

  /** The container duration in seconds, capped at ten minutes. */
  function CappedSeconds(durationUs: int): (r: real)
    ensures durationUs > 0 ==> 0.0 < r <= MAX_ESTIMATE_SECONDS
  {
    var seconds := durationUs as real / 1_000_000.0;
    if seconds > MAX_ESTIMATE_SECONDS then MAX_ESTIMATE_SECONDS else seconds
  }

  /** `estimateInitialCapacity`: `1024 * channels` without a duration, else
      the interleaved sample count of at most ten minutes, at least 1024. The
      frame count is a `Double` truncated (and saturated) to `Int`, and both
      products are `Int` arithmetic. */
  function EstimateInitialCapacity(sampleRate: int, channels: int, durationUs: int): int
  {
    if durationUs <= 0 then Wrap32(1024 * channels)
    else CapacityFor(sampleRate, channels, CappedSeconds(durationUs))
  }

  /** The estimate for a known duration of `seconds`. */
  function CapacityFor(sampleRate: int, channels: int, seconds: real): int
  {
    var frames := DoubleToInt(sampleRate as real * seconds);
    var interleaved := Wrap32(frames * channels);
    if interleaved > 1024 then interleaved else 1024
  }

  /** With a positive duration the estimate is at least 1024, and for a
      non-negative rate and channel count whose ten-minute product fits an
      `Int` it is the textbook product, so the cap bounds the allocation. */
  lemma EstimateInitialCapacityBounds(sampleRate: int, channels: int, durationUs: int)
    requires durationUs > 0
    ensures EstimateInitialCapacity(sampleRate, channels, durationUs) >= 1024
    ensures 0 <= sampleRate && 0 <= channels && sampleRate * 600 * channels <= INT_MAX ==>
      var frames := Trunc(sampleRate as real * CappedSeconds(durationUs));
      var r := EstimateInitialCapacity(sampleRate, channels, durationUs);
      r == (if frames * channels > 1024 then frames * channels else 1024) &&
      r <= (if sampleRate * 600 * channels > 1024 then sampleRate * 600 * channels else 1024)
  {
    CapacityForBounds(sampleRate, channels, CappedSeconds(durationUs));
  }

  lemma CapacityForBounds(sampleRate: int, channels: int, seconds: real)
    requires 0.0 <= seconds <= 600.0
    ensures CapacityFor(sampleRate, channels, seconds) >= 1024
    ensures 0 <= sampleRate && 0 <= channels && sampleRate * 600 * channels <= INT_MAX ==>
      var frames := Trunc(sampleRate as real * seconds);
      var r := CapacityFor(sampleRate, channels, seconds);
      r == (if frames * channels > 1024 then frames * channels else 1024) &&
      r <= (if sampleRate * 600 * channels > 1024 then sampleRate * 600 * channels else 1024)
  {
    if 0 <= sampleRate && 0 <= channels && sampleRate * 600 * channels <= INT_MAX {
      FramesProduct(sampleRate, channels, seconds);
    }
  }

  /** The interleaved count, zero channels included, is the exact product. */
  lemma FramesProduct(sampleRate: int, channels: int, capped: real)
    requires 0 <= sampleRate && 0 <= channels && 0.0 <= capped <= 600.0
    requires sampleRate * 600 * channels <= INT_MAX
    ensures var x := sampleRate as real * capped;
      DoubleToInt(x) * channels == Trunc(x) * channels &&
      0 <= Trunc(x) * channels <= sampleRate * 600 * channels &&
      Wrap32(Trunc(x) * channels) == Trunc(x) * channels
  {
    if channels == 0 {
      var x := sampleRate as real * capped;
      assert DoubleToInt(x) * channels == 0 == Trunc(x) * channels;
    } else {
      InterleavedFrames(sampleRate, channels, capped);
    }
  }

  lemma InterleavedFrames(sampleRate: int, channels: int, capped: real)
    requires 0 <= sampleRate && 0 < channels && 0.0 <= capped <= 600.0
    requires sampleRate * 600 * channels <= INT_MAX
    ensures var frames := Trunc(sampleRate as real * capped);
      DoubleToInt(sampleRate as real * capped) == frames &&
      0 <= frames * channels <= sampleRate * 600 * channels &&
      Wrap32(frames * channels) == frames * channels
  {
    MulMonotone(1, channels, sampleRate * 600);
    CappedFrames(sampleRate, capped);
    var frames := Trunc(sampleRate as real * capped);
    MulMonotone(frames, sampleRate * 600, channels);
    MulMonotone(0, frames, channels);
  }

  lemma CappedFrames(sampleRate: int, capped: real)
    requires 0 <= sampleRate && 0.0 <= capped <= 600.0 && sampleRate * 600 <= INT_MAX
    ensures 0 <= Trunc(sampleRate as real * capped) <= sampleRate * 600
    ensures DoubleToInt(sampleRate as real * capped) == Trunc(sampleRate as real * capped)
  {
    var x := sampleRate as real * capped;
    ProductNonNegative(sampleRate as real, capped);
    ProductNonNegative(sampleRate as real, 600.0 - capped);
    assert (sampleRate as real) * (600.0 - capped) == (sampleRate * 600) as real - x;
  }

  lemma ProductNonNegative(a: real, b: real)
    requires a >= 0.0 && b >= 0.0
    ensures a * b >= 0.0
  {
  }

  /** Without a duration the estimate is `1024 * channels`, wrapped. */
  lemma EstimateWithoutDuration(sampleRate: int, channels: int)
    requires 0 <= channels <= 1024
    ensures EstimateInitialCapacity(sampleRate, channels, -1) == 1024 * channels
  {
  }

  /** `estimateDurationMs`: frames times 1000 over the rate, as a `Double`
      truncated to `Long`. A zero rate divides by zero in floating point:
      0/0 is NaN and converts to 0, x/0 is an infinity and saturates. */
  function EstimateDurationMs(sampleCount: int, sampleRate: int, channels: int): int
  {
    var frames := if channels > 0 then TruncDiv(sampleCount, channels) else sampleCount;
    if sampleRate == 0 then
      (if frames == 0 then 0 else if frames > 0 then LONG_MAX else LONG_MIN)
    else DoubleToLong((frames as real * 1000.0) / sampleRate as real)
  }

  /** For real signals the estimate is integer arithmetic:
      `(sampleCount / channels) * 1000 / sampleRate`, rounded down; a
      non-positive channel count counts every sample as a frame. */
  lemma EstimateDurationExact(sampleCount: int, sampleRate: int, channels: int)
    requires 0 <= sampleCount <= INT_MAX && sampleRate > 0
    ensures channels > 0 ==>
      EstimateDurationMs(sampleCount, sampleRate, channels) == (sampleCount / channels) * 1000 / sampleRate
    ensures channels <= 0 ==>
      EstimateDurationMs(sampleCount, sampleRate, channels) == sampleCount * 1000 / sampleRate
  {
    if channels > 0 {
      FramesInRange(sampleCount, channels);
      QuotientToLong(sampleCount / channels, sampleRate);
    } else {
      QuotientToLong(sampleCount, sampleRate);
    }
  }

  lemma FramesInRange(sampleCount: int, channels: int)
    requires 0 <= sampleCount && channels > 0
    ensures TruncDiv(sampleCount, channels) == sampleCount / channels
    ensures 0 <= sampleCount / channels <= sampleCount
  {
    var frames := sampleCount / channels;
    MulMonotone(1, channels, frames);
    assert frames * channels <= sampleCount;
    MulMonotone(0, frames, channels);
  }

  /** `(frames * 1000.0 / rate).toLong()` is integer division. */
  lemma QuotientToLong(frames: int, sampleRate: int)
    requires 0 <= frames <= INT_MAX && sampleRate > 0
    ensures DoubleToLong((frames as real * 1000.0) / sampleRate as real) == frames * 1000 / sampleRate
  {
    RealQuotientFloor(frames * 1000, sampleRate);
    assert frames as real * 1000.0 == (frames * 1000) as real;
    var q := (frames * 1000) / sampleRate;
    assert q <= frames * 1000 by {
      MulMonotone(1, sampleRate, q);
    }
    assert IsLong(q);
  }

  /** Truncating an exact quotient of naturals is integer division. */
  lemma RealQuotientFloor(x: int, y: int)
    requires x >= 0 && y > 0
    ensures Trunc(x as real / y as real) == x / y
  {
    var q, r := x / y, x % y;
    var z := x as real / y as real;
    assert z * y as real == x as real;
    assert x as real == q as real * y as real + r as real;
    assert q as real <= z by {
      assert (z - q as real) * y as real == r as real;
      SignOfProduct(z - q as real, y as real);
    }
    assert z < q as real + 1.0 by {
      assert (q as real + 1.0 - z) * y as real == y as real - r as real;
      SignOfProduct(q as real + 1.0 - z, y as real);
    }
  }

  lemma SignOfProduct(a: real, b: real)
    requires b > 0.0
    ensures a * b > 0.0 ==> a > 0.0
    ensures a * b >= 0.0 ==> a >= 0.0
  {
    if a < 0.0 {
      assert a * b < 0.0;
    }
  }

  /** The duration `decodeToPcmFloat` reports: the container's, in ms, when
      positive; otherwise the estimate from the decoded samples. A missing
      duration key reads as -1. */
  function ReportedDurationMs(durationUs: Option<int>, sampleCount: int, sampleRate: int,
                              channels: int): (r: int)
    ensures durationUs.Some? && durationUs.value > 0 ==> r == durationUs.value / 1000
    ensures (durationUs.None? || durationUs.value <= 0) ==>
      r == EstimateDurationMs(sampleCount, sampleRate, channels)
  {
    var us := if durationUs.Some? then durationUs.value else -1;
    if us > 0 then us / 1000 else EstimateDurationMs(sampleCount, sampleRate, channels)
  }

  /** One decoder output buffer: its byte count (`info.size`), the same bytes
      read as floats and as 16-bit shorts, and the end-of-stream flag. */
  datatype OutputBuffer = OutputBuffer(
    size: int,
    asFloats: seq<real>,
    asShorts: seq<int>,
    endOfStream: bool)

  predicate ShortsFit(b: OutputBuffer)
  {
    forall i :: 0 <= i < |b.asShorts| ==> IsShort(b.asShorts[i])
  }

  /** The encoding named by the decoder's output format, 16-bit by default. */
  function EncodingOf(pcmEncoding: Option<int>): int
  {
    if pcmEncoding.Some? then pcmEncoding.value else ENCODING_PCM_16BIT
  }

  /** A 16-bit sample as a float: `s / 32768`. */
  function ShortToFloat(s: int): real
  {
    s as real / 32768.0
  }

  /** A short maps into [-1, 1). */
  lemma ShortToFloatRange(s: int)
    requires IsShort(s)
    ensures -1.0 <= ShortToFloat(s) < 1.0
  {
  }

  /** `appendPcmFromDecoderOutput` as a value: float PCM is copied, 16-bit and
      every other encoding is read as shorts and scaled. */
  function PcmSamples(b: OutputBuffer, pcmEncoding: Option<int>): (r: seq<real>)
    ensures EncodingOf(pcmEncoding) == ENCODING_PCM_FLOAT ==> r == b.asFloats
    ensures EncodingOf(pcmEncoding) != ENCODING_PCM_FLOAT ==>
      |r| == |b.asShorts| && forall i :: 0 <= i < |r| ==> r[i] == ShortToFloat(b.asShorts[i])
  {
    if EncodingOf(pcmEncoding) == ENCODING_PCM_FLOAT then b.asFloats
    else seq(|b.asShorts|, i requires 0 <= i < |b.asShorts| => ShortToFloat(b.asShorts[i]))
  }

  /** Integer PCM always yields samples in [-1, 1). */
  lemma PcmSamplesInRange(b: OutputBuffer, pcmEncoding: Option<int>)
    requires ShortsFit(b) && EncodingOf(pcmEncoding) != ENCODING_PCM_FLOAT
    ensures forall i :: 0 <= i < |PcmSamples(b, pcmEncoding)| ==>
      -1.0 <= PcmSamples(b, pcmEncoding)[i] < 1.0
  {
    forall i | 0 <= i < |b.asShorts|
      ensures -1.0 <= PcmSamples(b, pcmEncoding)[i] < 1.0
    {
      ShortToFloatRange(b.asShorts[i]);
    }
  }

  /** `appendPcmFromDecoderOutput`. */
  method AppendPcm(out: FloatArrayBuilder, b: OutputBuffer, pcmEncoding: Option<int>)
    requires out.Valid() && out.size + |PcmSamples(b, pcmEncoding)| <= MAX_CAPACITY
    modifies out, out.buf
    ensures out.Valid() && (out.buf == old(out.buf) || fresh(out.buf))
    ensures out.Contents() == old(out.Contents()) + PcmSamples(b, pcmEncoding)
  {
    if EncodingOf(pcmEncoding) == ENCODING_PCM_FLOAT {
      var tmp := new real[|b.asFloats|](i requires 0 <= i < |b.asFloats| => b.asFloats[i]);
      out.AppendAll(tmp, 0, tmp.Length);
      assert tmp[0..tmp.Length] == b.asFloats;
    } else {
      ghost var start := out.Contents();
      var n := |b.asShorts|;
      for i := 0 to n
        invariant out.Valid() && out.size == |start| + i
        invariant out.buf == old(out.buf) || fresh(out.buf)
        invariant out.Contents() == start + PcmSamples(b, pcmEncoding)[..i]
      {
        out.Append(ShortToFloat(b.asShorts[i]));
        assert PcmSamples(b, pcmEncoding)[..i + 1] == PcmSamples(b, pcmEncoding)[..i] + [ShortToFloat(b.asShorts[i])];
      }
      assert PcmSamples(b, pcmEncoding)[..n] == PcmSamples(b, pcmEncoding);
    }
  }

  /** What feeding input does in one turn: no input buffer free
      (`dequeueInputBuffer` timed out), a sample read and queued, or the
      extractor at its end (`readSampleData < 0`), which queues the
      end-of-stream flag. */
  datatype InputEvent = NoInputBuffer | SampleRead(size: nat, presentationTimeUs: int) | EndOfInput

  /** What draining output does in one turn: a buffer (with the output format
      at that time), a format change, a timeout, or a codec exception. */
  datatype OutputEvent =
    | Output(buffer: OutputBuffer, pcmEncoding: Option<int>)
    | FormatChanged
    | TryAgainLater
    | CodecError(message: string)

  datatype Turn = Turn(input: InputEvent, output: OutputEvent)

  /** An output event after which the loop does not go on. */
  predicate Ends(o: OutputEvent)
  {
    (o.Output? && o.buffer.endOfStream) || o.CodecError?
  }

  /** The script reaches an end: its last turn ends the loop (earlier turns
      may end it too, and then the rest is never reached). */
  predicate Finishes(turns: seq<Turn>)
  {
    |turns| > 0 && Ends(turns[|turns| - 1].output)
  }

  /** The samples an output event contributes: none unless it is a non-empty
      buffer. */
  function OutputSamples(o: OutputEvent): seq<real>
  {
    if o.Output? && o.buffer.size > 0 then PcmSamples(o.buffer, o.pcmEncoding) else []
  }

  /** Everything drained from turn `k` up to and including the first ending
      turn, in order. */
  function Drained(turns: seq<Turn>, k: nat): seq<real>
    decreases |turns| - k
  {
    if k >= |turns| then []
    else OutputSamples(turns[k].output) + (if Ends(turns[k].output) then [] else Drained(turns, k + 1))
  }

  /** What one turn queues: nothing once the input end has been queued or
      when no input buffer is free. */
  function Fed(input: InputEvent, eos: bool): seq<InputEvent>
  {
    if !eos && !input.NoInputBuffer? then [input] else []
  }

  /** The inputs queued to the decoder from turn `k` on, once the input side
      has (`eos`) or has not yet seen its end. */
  function Queued(turns: seq<Turn>, k: nat, eos: bool): seq<InputEvent>
    decreases |turns| - k
  {
    if k >= |turns| then []
    else
      var t := turns[k];
      Fed(t.input, eos) + (if Ends(t.output) then [] else Queued(turns, k + 1, eos || t.input.EndOfInput?))
  }

  /** The end-of-stream input is queued at most once, and nothing after it. */
  lemma {:induction false} QueuedEndsOnce(turns: seq<Turn>, k: nat, eos: bool)
    ensures var q := Queued(turns, k, eos);
      forall i :: 0 <= i < |q| && q[i].EndOfInput? ==> i == |q| - 1
    ensures eos ==> Queued(turns, k, eos) == []
    decreases |turns| - k
  {
    if k < |turns| {
      var t := turns[k];
      var next := eos || t.input.EndOfInput?;
      var fed := Fed(t.input, eos);
      var rest := if Ends(t.output) then [] else Queued(turns, k + 1, next);
      QueuedEndsOnce(turns, k + 1, next);
      var q := fed + rest;
      assert Queued(turns, k, eos) == q;
      forall i | 0 <= i < |q| && q[i].EndOfInput?
        ensures i == |q| - 1
      {
        if i < |fed| {
          assert q[i] == fed[i] == t.input;
          assert next && rest == [];
        } else {
          assert !Ends(t.output);
          assert q[i] == Queued(turns, k + 1, next)[i - |fed|];
        }
      }
    }
  }

  /** No `NoInputBuffer` ever reaches the decoder. */
  lemma {:induction false} QueuedAreReal(turns: seq<Turn>, k: nat, eos: bool)
    ensures var q := Queued(turns, k, eos); forall i :: 0 <= i < |q| ==> !q[i].NoInputBuffer?
    decreases |turns| - k
  {
    if k < |turns| {
      var t := turns[k];
      var next := eos || t.input.EndOfInput?;
      var fed := Fed(t.input, eos);
      var rest := if Ends(t.output) then [] else Queued(turns, k + 1, next);
      QueuedAreReal(turns, k + 1, next);
      var q := fed + rest;
      assert Queued(turns, k, eos) == q;
      forall i | 0 <= i < |q|
        ensures !q[i].NoInputBuffer?
      {
        if i < |fed| {
          assert fed == [t.input] && !t.input.NoInputBuffer?;
          assert q[i] == t.input;
        } else {
          assert !Ends(t.output);
          var j := i - |fed|;
          assert 0 <= j < |Queued(turns, k + 1, next)|;
          assert q[i] == Queued(turns, k + 1, next)[j];
          assert !Queued(turns, k + 1, next)[j].NoInputBuffer?;
        }
      }
    }
  }

  /** The environment of one `decodeToPcmFloat` call: the container's tracks
      (or the exception `setDataSource` throws), whether creating, configuring
      and starting the decoder succeeds, and the codec script. */
  datatype Media = Media(
    tracks: Result<seq<TrackFormat>, string>,
    decoderStart: Result<(), string>,
    turns: seq<Turn>)

  /** The outcome of one call: the result or the exception it throws, what
      was queued to the decoder, and which native objects were released. */
  datatype DecodeRun = DecodeRun(
    result: Result<DecodedAudio, string>,
    queued: seq<InputEvent>,
    extractorReleased: bool,
    decoderReleased: bool)

  /** The audio a successful decode of `track` reports. */
  function DecodedOf(track: TrackFormat, samples: seq<real>): DecodedAudio
  {
    DecodedAudio(samples, track.sampleRate, track.channelCount,
                 ReportedDurationMs(track.durationUs, |samples|, track.sampleRate, track.channelCount),
                 track.mime)
  }

  /** The call gets as far as the feed/drain loop. */
  predicate ReachesCodec(media: Media)
  {
    media.tracks.Ok? && FindFirstAudioTrack(media.tracks.value).Some? && media.decoderStart.Ok?
  }

  /** A script the model can run: it ends, and what it drains fits the
      builder. */
  predicate Decodable(media: Media)
  {
    ReachesCodec(media) ==> Finishes(media.turns) && |Drained(media.turns, 0)| <= MAX_CAPACITY
  }

  /** What `decodeToPcmFloat` returns, or the message of what it throws: the
      exception of `setDataSource`, the missing audio track, the exception of
      creating the decoder, or a codec exception inside the loop. */
  function DecodeResult(media: Media): Result<DecodedAudio, string>
  {
    if media.tracks.Err? then Err(media.tracks.error)
    else
      var found := FindFirstAudioTrack(media.tracks.value);
      if found.None? then Err("No audio track found in selected file")
      else if media.decoderStart.Err? then Err(media.decoderStart.error)
      else match Failure(media.turns, 0)
        case Some(message) => Err(message)
        case None => Ok(DecodedOf(media.tracks.value[found.value], Drained(media.turns, 0)))
  }

  /** `decodeToPcmFloat`. The extractor is released on every path (the
      `finally` block); the decoder only when the loop completes. */
  method DecodeToPcmFloat(media: Media) returns (run: DecodeRun)
    requires Decodable(media)
    ensures run.result == DecodeResult(media)
    ensures run.extractorReleased
    ensures run.decoderReleased <==> run.result.Ok?
    ensures ReachesCodec(media) ==> run.queued == Queued(media.turns, 0, false)
    ensures !ReachesCodec(media) ==> run.queued == []
  {
    if media.tracks.Err? {
      return DecodeRun(Err(media.tracks.error), [], true, false);
    }
    var tracks := media.tracks.value;
    var found := FindFirstAudioTrack(tracks);
    if found.None? {
      return DecodeRun(Err("No audio track found in selected file"), [], true, false);
    }
    var track := tracks[found.value];
    if media.decoderStart.Err? {
      return DecodeRun(Err(media.decoderStart.error), [], true, false);
    }
    var durationUs := if track.durationUs.Some? then track.durationUs.value else -1;
    var capacity := EstimateInitialCapacity(track.sampleRate, track.channelCount, durationUs);
    var failure, samples, queued := RunCodec(media.turns, capacity);
    if failure.Some? {
      return DecodeRun(Err(failure.value), queued, true, false);
    }
    run := DecodeRun(Ok(DecodedOf(track, samples)), queued, true, true);
  }

  /** A successful decode reports the first audio track's rate, channel
      count and MIME type, and the samples of every output buffer up to the
      end-of-stream one, in order. */
  lemma DecodeResultOk(media: Media)
    requires DecodeResult(media).Ok?
    ensures ReachesCodec(media) && Failure(media.turns, 0).None?
    ensures var track := media.tracks.value[FindFirstAudioTrack(media.tracks.value).value];
      var d := DecodeResult(media).value;
      IsAudioTrack(track) && d.samples == Drained(media.turns, 0) &&
      d.sampleRateHz == track.sampleRate && d.channelCount == track.channelCount &&
      d.mimeType == track.mime && d.mimeType.Some? &&
      d.durationMs == ReportedDurationMs(track.durationUs, |d.samples|, track.sampleRate, track.channelCount)
  {
  }

  /** When every buffer is integer PCM, every decoded sample lies in [-1, 1). */
  lemma {:induction false} DrainedInRange(turns: seq<Turn>, k: nat)
    requires forall j :: 0 <= j < |turns| && turns[j].output.Output? ==>
      ShortsFit(turns[j].output.buffer) && EncodingOf(turns[j].output.pcmEncoding) != ENCODING_PCM_FLOAT
    ensures forall i :: 0 <= i < |Drained(turns, k)| ==> -1.0 <= Drained(turns, k)[i] < 1.0
    decreases |turns| - k
  {
    if k < |turns| {
      var o := turns[k].output;
      var head := OutputSamples(o);
      var rest := if Ends(o) then [] else Drained(turns, k + 1);
      if o.Output? {
        PcmSamplesInRange(o.buffer, o.pcmEncoding);
      }
      if !Ends(o) {
        DrainedInRange(turns, k + 1);
      }
      assert Drained(turns, k) == head + rest;
      UnitRangeConcat(head, rest);
    }
  }

  lemma UnitRangeConcat(a: seq<real>, b: seq<real>)
    requires forall i :: 0 <= i < |a| ==> -1.0 <= a[i] < 1.0
    requires forall i :: 0 <= i < |b| ==> -1.0 <= b[i] < 1.0
    ensures forall i :: 0 <= i < |a + b| ==> -1.0 <= (a + b)[i] < 1.0
  {
  }

  /** The exception the codec throws before the loop ends, if any. */
  function Failure(turns: seq<Turn>, k: nat): Option<string>
    decreases |turns| - k
  {
    if k >= |turns| then None
    else if turns[k].output.CodecError? then Some(turns[k].output.message)
    else if Ends(turns[k].output) then None
    else Failure(turns, k + 1)
  }

  /** The feed/drain loop of `decodeToPcmFloat` into a fresh builder, then
      `toArray`. */
  method RunCodec(turns: seq<Turn>, initialCapacity: int)
    returns (failure: Option<string>, samples: seq<real>, queued: seq<InputEvent>)
    requires Finishes(turns) && |Drained(turns, 0)| <= MAX_CAPACITY
    ensures failure == Failure(turns, 0)
    ensures queued == Queued(turns, 0, false)
    ensures failure.None? ==> samples == Drained(turns, 0)
  {
    var out := new FloatArrayBuilder(initialCapacity);
    queued := [];
    var sawInputEos := false;
    var sawOutputEos := false;
    var k := 0;
    while !sawOutputEos
      invariant 0 <= k <= |turns| && out.Valid() && fresh(out) && fresh(out.buf)
      invariant !sawOutputEos ==> k < |turns|
      invariant !sawOutputEos ==> out.Contents() + Drained(turns, k) == Drained(turns, 0)
      invariant !sawOutputEos ==> queued + Queued(turns, k, sawInputEos) == Queued(turns, 0, false)
      invariant !sawOutputEos ==> Failure(turns, k) == Failure(turns, 0)
      invariant sawOutputEos ==> out.Contents() == Drained(turns, 0)
      invariant sawOutputEos ==> queued == Queued(turns, 0, false)
      invariant sawOutputEos ==> Failure(turns, 0) == None
      decreases |turns| - k
    {
      var turn := turns[k];
      QueuedStep(turns, k, sawInputEos, queued);
      DrainedStep(turns, k, out.Contents());
      var fed;
      fed, sawInputEos := FeedInput(turn.input, sawInputEos);
      queued := queued + fed;
      if turn.output.CodecError? {
        return Some(turn.output.message), [], queued;
      }
      sawOutputEos := DrainOutput(out, turn.output);
      k := k + 1;
    }
    var decoded := out.ToArray();
    failure, samples := None, decoded[..];
  }

  lemma DrainedStep(turns: seq<Turn>, k: nat, c: seq<real>)
    requires k < |turns|
    ensures c + Drained(turns, k) ==
      c + OutputSamples(turns[k].output) + (if Ends(turns[k].output) then [] else Drained(turns, k + 1))
  {
    AppendAssoc(c, OutputSamples(turns[k].output), if Ends(turns[k].output) then [] else Drained(turns, k + 1));
  }

  lemma QueuedStep(turns: seq<Turn>, k: nat, eos: bool, c: seq<InputEvent>)
    requires k < |turns|
    ensures var t := turns[k];
      c + Queued(turns, k, eos) ==
      c + Fed(t.input, eos) + (if Ends(t.output) then [] else Queued(turns, k + 1, eos || t.input.EndOfInput?))
  {
    var t := turns[k];
    AppendAssoc(c, Fed(t.input, eos), if Ends(t.output) then [] else Queued(turns, k + 1, eos || t.input.EndOfInput?));
  }

  /** The feeding half of a turn: dequeue an input buffer and, unless the
      input end was already queued, queue a sample or the end-of-stream flag. */
  method FeedInput(input: InputEvent, sawInputEos: bool) returns (fed: seq<InputEvent>, eos: bool)
    ensures fed == Fed(input, sawInputEos) && eos == (sawInputEos || input.EndOfInput?)
    ensures |fed| <= 1 && (sawInputEos ==> fed == [])
  {
    fed, eos := [], sawInputEos;
    if !sawInputEos {
      match input
      case NoInputBuffer =>
      case EndOfInput =>
        fed := [EndOfInput];
        eos := true;
      case SampleRead(_, _) =>
        fed := [input];
    }
  }

  /** The draining half of a turn: append a non-empty buffer's samples, and
      report whether it carried the end-of-stream flag. */
  method DrainOutput(out: FloatArrayBuilder, output: OutputEvent) returns (sawOutputEos: bool)
    requires out.Valid() && !output.CodecError?
    requires out.size + |OutputSamples(output)| <= MAX_CAPACITY
    modifies out, out.buf
    ensures out.Valid() && (out.buf == old(out.buf) || fresh(out.buf))
    ensures out.Contents() == old(out.Contents()) + OutputSamples(output)
    ensures sawOutputEos == Ends(output)
  {
    sawOutputEos := false;
    match output
    case Output(b, encoding) =>
      if b.size > 0 {
        AppendPcm(out, b, encoding);
      }
      if b.endOfStream {
        sawOutputEos := true;
      }
    case FormatChanged =>
    case TryAgainLater =>
  }

  lemma AppendAssoc<T>(a: seq<T>, b: seq<T>, c: seq<T>)
    ensures a + b + c == a + (b + c)
  {
  }
}
