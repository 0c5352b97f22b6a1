# VocalX separation core, modelled in Dafny

This project models the core of VocalX's legacy Android separation app and
five rules of its web back ends, and proves properties of that model.

On the Android side the model covers:

- **Decoding** (`AudioDecodeServices`): the first audio track is picked, PCM16
  or float output buffers are turned into float samples, and the decoder loop
  runs its input and output end-of-stream flags.
- **Signal conditioning** (`AudioResampler`, `AudioNormalizer`): downmix to
  mono, linear resampling to 16 kHz, peak and loudness normalisation.
- **The separation pipeline** (`SeparationPipeline`): the optional
  millisecond span is clamped, the signal is cut into 480 000-sample chunks,
  the last chunk is zero-padded, the model runs once per chunk, the padding is
  trimmed off and the outputs are stitched, with progress reports and an abort
  on the first failed chunk.
- **The growable float buffer** (`FloatArrayBuilders`): a class over an
  array with doubling growth.
- **The WAV writer** (`WavEncoder`): a 44-byte RIFF/WAVE PCM header
  (format tag 1, WAVE_FORMAT_PCM, as RFC 2361 registers it) and 16-bit
  little-endian samples, written over an existing file from offset 0.
- **The model and prompt encoders** (`SamAudio`, `QueryEncoders`): their
  lifecycle fields, failures turning into zero buffers, the normalisation
  guards and the whitespace tokeniser over a fixed vocabulary.
- **The analyzer's discrete parts** (`AudioAnalyzer`): tempo, key and time
  signature detection and the clamps of the other features.
- **Three small rules**: the output file name (`OutputFiles`), the
  device tier table (`DeviceDetectors`), and the main screen's span
  conversion, the Extract button's enabled rule and click guard, and the
  final progress (`SpanPrompt`).

On the web side the model covers:

- **Affiliate commissions** (`Commission`): the tier lookups, which reverse
  the shared tier array in place; commission and refund events; monthly
  payouts.
- **The payout CSV export** (`PayoutsExport`).
- **Admin authentication** (`AffiliateAuth`).
- **The Paperspace job webhook** (`PaperspaceWebhook`).
- **The local separation proxy** (`LocalSeparate`).

How the model is built:

- Samples are `real`.
- Kotlin `Int`, `Long` and `Short` wrap-around is written out (`JvmInt`)
  wherever the source can overflow.
- State the source updates in place is a `class`: the float buffer, the
  tier table, the WAV file, and the model manager and encoder. Pure rules are
  functions.
- Databases, codecs, neural networks, token signers and the clock are
  parameters.

Shared modules:

- `Wrappers`: Option and Result.
- `JvmInt`: JVM integer semantics.
- `Samples`: sums, peaks and scaling of sample sequences.
- `Text`: ASCII lower-casing, whitespace splitting, decimal text, join.
- `AudioRecords`: the record types `DecodedAudio`,
  `AudioSeparationResult` and `AudioAnalysis`.

Where the written code differs from its documented behaviour, the model
follows the code:

- Resampling takes the floor of the output length, not the rounded value.
- The WAV writer truncates and wraps samples instead of rounding and
  clamping them.
- `requireAuth` with a bad token fails with "Invalid or expired token"
  (thrown by `verifyToken`), not with "Invalid authentication".

There is one exception. For a 30-day revenue that no tier holds,
`updateAffiliateTier` as written stores the tier name "platinum" at rate 15.
The model stores the corrected "silver" at 15 instead (see "## Findings"),
and proves where the two differ.

## Model

| member | source | states |
|---|---|---|
| FloatArrayBuilders.GrowthStep | legacy/android-native/app/src/main/java/com/vocalx/domain/FloatArrayBuilder.kt:28 | one growth turn is at least 8, and below 2^30 it is the doubled capacity raised to 8 |
| FloatArrayBuilders.GrownCapacityBounds | legacy/android-native/app/src/main/java/com/vocalx/domain/FloatArrayBuilder.kt:26-29 | the grown capacity covers the request and never shrinks; it is unchanged when the capacity already suffices; otherwise it is at most twice (request - 1), or 8 |
| FloatArrayBuilders.GrowthStepWraps | legacy/android-native/app/src/main/java/com/vocalx/domain/FloatArrayBuilder.kt:28 | doubling 2^30 overflows `Int` and the floor of 8 takes over |
| FloatArrayBuilders.CopyOf | legacy/android-native/app/src/main/java/com/vocalx/domain/FloatArrayBuilder.kt:23 | `copyOf(n)`: a fresh array of length n holding the prefix, padded with zeros |
| FloatArrayBuilders.CopyInto | legacy/android-native/app/src/main/java/com/vocalx/domain/FloatArrayBuilder.kt:19 | `copyInto` overwrites exactly the destination window with `values[start..end)` and keeps the rest |
| FloatArrayBuilders.FloatArrayBuilder.constructor | legacy/android-native/app/src/main/java/com/vocalx/domain/FloatArrayBuilder.kt:6-9 | starts empty and valid (1 <= capacity, 0 <= size <= capacity); a non-positive initial capacity is raised to 1 |
| FloatArrayBuilders.FloatArrayBuilder.EnsureCapacity | legacy/android-native/app/src/main/java/com/vocalx/domain/FloatArrayBuilder.kt:25-30 | keeps the size and the stored prefix, never shrinks, reaches the request, does not reallocate when the capacity suffices, and grows to the first value of c, max(2c, 8), ... that covers the request |
| FloatArrayBuilders.FloatArrayBuilder.Append | legacy/android-native/app/src/main/java/com/vocalx/domain/FloatArrayBuilder.kt:11-14 | the contents become the old contents followed by the value; size grows by one |
| FloatArrayBuilders.FloatArrayBuilder.AppendAll | legacy/android-native/app/src/main/java/com/vocalx/domain/FloatArrayBuilder.kt:16-21 | a non-positive length changes nothing; otherwise the contents become the old contents followed by `values[offset..offset+length)`; the buffer is kept whenever it already has room |
| FloatArrayBuilders.FloatArrayBuilder.ToArray | legacy/android-native/app/src/main/java/com/vocalx/domain/FloatArrayBuilder.kt:23 | a fresh array equal to everything appended, in order |
| OutputFiles.Sanitized | legacy/android-native/app/src/main/java/com/vocalx/utils/OutputFiles.kt:9 | same length; each allowed character kept in place, every other one replaced by '_' |
| OutputFiles.TakeChars | legacy/android-native/app/src/main/java/com/vocalx/utils/OutputFiles.kt:10 | `take(n)`: the first min(n, length) characters |
| OutputFiles.SafeBlankIsEmpty | legacy/android-native/app/src/main/java/com/vocalx/utils/OutputFiles.kt:9-11 | sanitised text is blank exactly when it is empty |
| OutputFiles.SafeBaseNameShape | legacy/android-native/app/src/main/java/com/vocalx/utils/OutputFiles.kt:8-11 | the base is all safe, "output" for an empty name, otherwise min(length, 60) characters with each allowed character kept and the others turned into '_' |
| OutputFiles.SafeBaseNameIdempotent | legacy/android-native/app/src/main/java/com/vocalx/utils/OutputFiles.kt:8-11 | sanitising a sanitised base changes nothing |
| OutputFiles.OutputFileNameShape | legacy/android-native/app/src/main/java/com/vocalx/utils/OutputFiles.kt:14 | the file name ends in "_separated.wav", is at most 74 characters, and its base is safe |
| OutputFiles.OutputFileName | legacy/android-native/app/src/main/java/com/vocalx/utils/OutputFiles.kt:7-15 | definition: the output file name; stated by OutputFiles.OutputFileNameShape |
| DeviceDetectors.TierTable | legacy/android-native/app/src/main/java/com/vocalx/ai/DeviceDetector.kt:15-27 | both directions of the decision table: premium needs the premium list, an NPU and 8 GB; mid-premium needs a failed premium test, the mid list, an NPU and 6 GB; everything else is NON_AI |
| DeviceDetectors.NoNpuOrSmallRamIsNonAi | legacy/android-native/app/src/main/java/com/vocalx/ai/DeviceDetector.kt:10-27 | without an NPU, or with less than 6 GB, `detectTier` gives NON_AI |
| DeviceDetectors.TierMonotoneInRam | legacy/android-native/app/src/main/java/com/vocalx/ai/DeviceDetector.kt:15-27 | more RAM never lowers the tier of the table |
| DeviceDetectors.DetectTierMonotone | legacy/android-native/app/src/main/java/com/vocalx/ai/DeviceDetector.kt:10-27 | more RAM never lowers the tier `detectTier` reports |
| DeviceDetectors.DetectTier | legacy/android-native/app/src/main/java/com/vocalx/ai/DeviceDetector.kt:10-28 | definition: `detectTier`; stated by DeviceDetectors.TierTable, DeviceDetectors.NoNpuOrSmallRamIsNonAi and DeviceDetectors.DetectTierMonotone |
| DeviceDetectors.Sm8550Tiers | legacy/android-native/app/src/main/java/com/vocalx/ai/DeviceDetector.kt:30-61 | an SM8550 SoC (from API level 31) has an NPU and is on both lists, so 8 GB or more is premium, 6-7 GB mid-premium, less NON_AI |
| DeviceDetectors.NpuRule | legacy/android-native/app/src/main/java/com/vocalx/ai/DeviceDetector.kt:46-61 | an NPU is reported exactly when the neural-networks feature is present from API 27, a marker occurs in the lowercased SoC name, or the brand is "Apple" in any case |
| DeviceDetectors.HasNpu | legacy/android-native/app/src/main/java/com/vocalx/ai/DeviceDetector.kt:46-61 | definition: `hasNeuralProcessingUnit`; stated by DeviceDetectors.NpuRule |
| DeviceDetectors.BytesToGbFloor | legacy/android-native/app/src/main/java/com/vocalx/ai/DeviceDetector.kt:78-89 | the RAM in GB is the whole number of GiB, at least 1 |
| AudioResampler.Frame | legacy/android-native/app/src/main/java/com/vocalx/domain/AudioResampler.kt:14-16 | frame i holds exactly the c interleaved samples [i*c, i*c+c) |
| AudioResampler.Downmixed | legacy/android-native/app/src/main/java/com/vocalx/domain/AudioResampler.kt:9-10 | the mono signal has size / channelCount samples: a trailing partial frame is dropped |
| AudioResampler.DownmixInterleaved | legacy/android-native/app/src/main/java/com/vocalx/domain/AudioResampler.kt:11-18 | each mono sample is the mean of its frame: a signal copied onto every channel downmixes back to itself |
| AudioResampler.DownmixToMono | legacy/android-native/app/src/main/java/com/vocalx/domain/AudioResampler.kt:7-20 | at most one channel returns the very input array; otherwise a fresh array whose sample i is the mean of interleaved samples [i*c, i*c+c) |
| AudioResampler.ClampIndex | legacy/android-native/app/src/main/java/com/vocalx/domain/AudioResampler.kt:40-41 | `coerceIn(0, lastIndex)` lands in the input and leaves in-range indices alone |
| AudioResampler.Resampled | legacy/android-native/app/src/main/java/com/vocalx/domain/AudioResampler.kt:31-33 | the output length is max(1, floor(n * outRate / inRate)) |
| AudioResampler.FractionRange | legacy/android-native/app/src/main/java/com/vocalx/domain/AudioResampler.kt:38 | the interpolation fraction lies in [0, 1) |
| AudioResampler.SourcePosition | legacy/android-native/app/src/main/java/com/vocalx/domain/AudioResampler.kt:36-38 | read index plus fraction is exactly the read position i * inRate / outRate |
| AudioResampler.SourceIndexInRange | legacy/android-native/app/src/main/java/com/vocalx/domain/AudioResampler.kt:35-41 | within the output length the read index never leaves [0, lastIndex] |
| AudioResampler.ResampledFirst | legacy/android-native/app/src/main/java/com/vocalx/domain/AudioResampler.kt:35-42 | the first output sample is the first input sample |
| AudioResampler.ResampledBetween | legacy/android-native/app/src/main/java/com/vocalx/domain/AudioResampler.kt:40-42 | each output sample lies between the two input samples it interpolates |
| AudioResampler.ResampleLinear | legacy/android-native/app/src/main/java/com/vocalx/domain/AudioResampler.kt:26-45 | equal rates return the input before the rates are checked; unequal rates with one <= 0 fail with "Invalid sample rates"; an empty input is returned as is; otherwise a fresh array holding the interpolated signal |
| AudioResampler.ResampleNonEmpty | legacy/android-native/app/src/main/java/com/vocalx/domain/AudioResampler.kt:31-44 | the interpolation loop fills a fresh array with the interpolated signal |
| AudioNormalizer.Normalize | legacy/android-native/app/src/main/java/com/vocalx/domain/AudioNormalizer.kt:13-35 | an empty, silent or already full-scale (peak >= 1) signal is returned as the same array; otherwise a fresh copy scaled by 0.95 / peak |
| AudioNormalizer.NormalizedPeak | legacy/android-native/app/src/main/java/com/vocalx/domain/AudioNormalizer.kt:22-34 | the scaled signal keeps its length and signs and peaks at exactly 0.95 |
| AudioNormalizer.CalculateRms | legacy/android-native/app/src/main/java/com/vocalx/domain/AudioNormalizer.kt:56-65 | the loop's result is 0 for an empty signal, otherwise sqrt(sum of squares / size) |
| AudioNormalizer.RmsZero | legacy/android-native/app/src/main/java/com/vocalx/domain/AudioNormalizer.kt:44-65 | the RMS is 0 exactly when every sample is 0, the empty signal included |
| AudioNormalizer.Amplified | legacy/android-native/app/src/main/java/com/vocalx/domain/AudioNormalizer.kt:51-53 | the amplified signal keeps its length |
| AudioNormalizer.AmplifiedInRange | legacy/android-native/app/src/main/java/com/vocalx/domain/AudioNormalizer.kt:52 | whatever the gain, every sample lies in [-1, 1], and samples whose product is already in range are not clipped |
| AudioNormalizer.NormalizeLoudness | legacy/android-native/app/src/main/java/com/vocalx/domain/AudioNormalizer.kt:40-54 | RMS 0 returns the same array; otherwise a fresh copy of every sample times the gain for that RMS, clamped to [-1, 1] |
| WavEncoder.AsciiBytes | legacy/android-native/app/src/main/java/com/vocalx/AudioEncoder.kt:31 | `writeBytes` writes one byte per character, its low 8 bits |
| WavEncoder.IntLEReversed | legacy/android-native/app/src/main/java/com/vocalx/AudioEncoder.kt:32 | an `Int` written through `Integer.reverseBytes` lands on disk as its big-endian bytes in reverse order |
| WavEncoder.IntLERoundTrip | legacy/android-native/app/src/main/java/com/vocalx/AudioEncoder.kt:32-47 | decoding the four written bytes little-endian gives the `Int` back |
| WavEncoder.ShortLERoundTrip | legacy/android-native/app/src/main/java/com/vocalx/AudioEncoder.kt:38-52 | a `Short` written through `Short.reverseBytes` is little-endian and decodes to its 16-bit value |
| WavEncoder.ShortLEReversed | legacy/android-native/app/src/main/java/com/vocalx/AudioEncoder.kt:38-52 | a `Short` written through `Short.reverseBytes` lands on disk as its `writeShort` bytes swapped |
| WavEncoder.Header | legacy/android-native/app/src/main/java/com/vocalx/AudioEncoder.kt:30-47 | the header is 44 bytes |
| WavEncoder.SampleBytes | legacy/android-native/app/src/main/java/com/vocalx/AudioEncoder.kt:50-53 | two bytes per sample |
| WavEncoder.WavBytes | legacy/android-native/app/src/main/java/com/vocalx/AudioEncoder.kt:30-53 | 44 bytes plus two per sample |
| WavEncoder.Overwrite | legacy/android-native/app/src/main/java/com/vocalx/AudioEncoder.kt:28-55 | writing from a position replaces bytes and extends the file only past its end |
| WavEncoder.RandomAccessFile.constructor | legacy/android-native/app/src/main/java/com/vocalx/AudioEncoder.kt:28 | opening in "rw" mode keeps the existing bytes and starts writing at offset 0 |
| WavEncoder.RandomAccessFile.Write | legacy/android-native/app/src/main/java/com/vocalx/AudioEncoder.kt:31-52 | a write overwrites at the file pointer and moves it past the bytes |
| WavEncoder.RandomAccessFile.WriteBytes | legacy/android-native/app/src/main/java/com/vocalx/AudioEncoder.kt:31-46 | writes the low byte of each character |
| WavEncoder.RandomAccessFile.WriteInt | legacy/android-native/app/src/main/java/com/vocalx/AudioEncoder.kt:32-47 | writes the 32-bit value most significant byte first |
| WavEncoder.RandomAccessFile.WriteShort | legacy/android-native/app/src/main/java/com/vocalx/AudioEncoder.kt:38-52 | writes the 16-bit value most significant byte first |
| WavEncoder.WriteHeader | legacy/android-native/app/src/main/java/com/vocalx/AudioEncoder.kt:30-47 | the header writes append exactly the 44 header bytes |
| WavEncoder.WriteRiffDescriptor | legacy/android-native/app/src/main/java/com/vocalx/AudioEncoder.kt:31-33 | "RIFF", the chunk size, "WAVE" |
| WavEncoder.WriteFmtChunk | legacy/android-native/app/src/main/java/com/vocalx/AudioEncoder.kt:36-43 | the 24 bytes of the fmt chunk |
| WavEncoder.WriteFmtFormat | legacy/android-native/app/src/main/java/com/vocalx/AudioEncoder.kt:36-39 | "fmt ", size 16, format 1, channel count |
| WavEncoder.WriteFmtRates | legacy/android-native/app/src/main/java/com/vocalx/AudioEncoder.kt:40-43 | sample rate, byte rate, block alignment, 16 bits per sample |
| WavEncoder.WriteDataChunkHeader | legacy/android-native/app/src/main/java/com/vocalx/AudioEncoder.kt:46-47 | "data" and the data size |
| WavEncoder.EncodeAudio | legacy/android-native/app/src/main/java/com/vocalx/AudioEncoder.kt:14-62 | the file afterwards holds the WAV bytes written from offset 0 over its old content |
| WavEncoder.WavChunks | legacy/android-native/app/src/main/java/com/vocalx/AudioEncoder.kt:30-53 | the file is the 12-byte RIFF descriptor, the two 12-byte halves of the fmt chunk, the 8-byte data chunk header and then the sample bytes, in that order |
| WavEncoder.WavLayout | legacy/android-native/app/src/main/java/com/vocalx/AudioEncoder.kt:30-53 | 44 + 2n bytes with "RIFF" at 0, "WAVE" at 8, "fmt " at 12 and "data" at 36 |
| WavEncoder.WavSizeFields | legacy/android-native/app/src/main/java/com/vocalx/AudioEncoder.kt:25-47 | the RIFF size and data size fields decode little-endian to 36 + data size and the data size |
| WavEncoder.WavFmtFormatFields | legacy/android-native/app/src/main/java/com/vocalx/AudioEncoder.kt:37-39 | the fmt fields decode to size 16, format 1 (PCM) and the channel count as a `Short` |
| WavEncoder.WavFmtRateFields | legacy/android-native/app/src/main/java/com/vocalx/AudioEncoder.kt:23-43 | the sample rate, byte rate, block alignment and 16 bits per sample decode back |
| WavEncoder.HeaderArithmetic | legacy/android-native/app/src/main/java/com/vocalx/AudioEncoder.kt:23-26 | without overflow, byte rate = rate * channels * 2, block align = channels * 2, data size = n * channels * 2, chunk size = 36 + data size |
| WavEncoder.DataSizeExact | legacy/android-native/app/src/main/java/com/vocalx/AudioEncoder.kt:25 | without overflow the data size is n * channels * 2 |
| WavEncoder.DataSizeMatchesPayload | legacy/android-native/app/src/main/java/com/vocalx/AudioEncoder.kt:25-53 | the data size equals the 2n sample bytes written exactly when there is one channel |
| WavEncoder.EmptyWav | legacy/android-native/app/src/main/java/com/vocalx/AudioEncoder.kt:25-26 | an empty signal still gives a 44-byte file with data size 0 and chunk size 36 |
| WavEncoder.QuantizeRange | legacy/android-native/app/src/main/java/com/vocalx/AudioEncoder.kt:51 | a sample in [-1, 1] is s * 32767 truncated toward zero, within [-32767, 32767] |
| WavEncoder.QuantizeWraps | legacy/android-native/app/src/main/java/com/vocalx/AudioEncoder.kt:51 | out-of-range samples are not clamped: 2.0 wraps to -2 |
| WavEncoder.Quantize | legacy/android-native/app/src/main/java/com/vocalx/AudioEncoder.kt:51 | definition: `(sample * 32767).toInt().toShort()`; stated by WavEncoder.QuantizeRange and WavEncoder.QuantizeWraps |
| WavEncoder.SampleBytesAt | legacy/android-native/app/src/main/java/com/vocalx/AudioEncoder.kt:50-53 | sample i is at bytes [2i, 2i+2) of the payload, little-endian |
| WavEncoder.WavSampleAt | legacy/android-native/app/src/main/java/com/vocalx/AudioEncoder.kt:50-53 | sample i decodes from offset 44 + 2i to its quantised value |
| WavEncoder.WavImageKeepsTail | legacy/android-native/app/src/main/java/com/vocalx/AudioEncoder.kt:28-55 | the file starts with the WAV bytes, and bytes of an earlier, longer file past them remain |
| WavEncoder.OverwriteFront | legacy/android-native/app/src/main/java/com/vocalx/AudioEncoder.kt:28-55 | writing from offset 0 without truncating puts the new bytes first and leaves every old byte past them in place |
| AudioDecodeServices.FirstAudioTrackFrom | legacy/android-native/app/src/main/java/com/vocalx/domain/AudioDecodeService.kt:132-139 | the scan from an index returns the first audio track at or after it, and none only when no later track is audio |
| AudioDecodeServices.FindFirstAudioTrack | legacy/android-native/app/src/main/java/com/vocalx/domain/AudioDecodeService.kt:132-139 | the lowest index whose MIME type starts with "audio/", tracks without a MIME type skipped; none exactly when no track is audio |
| AudioDecodeServices.ChosenTrackHasMime | legacy/android-native/app/src/main/java/com/vocalx/domain/AudioDecodeService.kt:132-139 | the chosen track always has a MIME type, so "Missing MIME type for audio track" cannot be thrown |
| AudioDecodeServices.SkipsNonAudio | legacy/android-native/app/src/main/java/com/vocalx/domain/AudioDecodeService.kt:133-137 | a video track ahead of the audio track is skipped |
| AudioDecodeServices.CappedSeconds | legacy/android-native/app/src/main/java/com/vocalx/domain/AudioDecodeService.kt:143 | a positive duration becomes a positive number of seconds capped at 600 |
| AudioDecodeServices.EstimateInitialCapacityBounds | legacy/android-native/app/src/main/java/com/vocalx/domain/AudioDecodeService.kt:141-147 | with a positive duration the estimate is max(1024, frames * channels), at most the ten-minute allocation |
| AudioDecodeServices.CapacityForBounds | legacy/android-native/app/src/main/java/com/vocalx/domain/AudioDecodeService.kt:143-146 | for a capped duration of at most 600 seconds the estimate is at least 1024 and, when the ten-minute product fits an `Int`, it is max(1024, frames × channels) and no more than max(1024, rate × 600 × channels) |
| AudioDecodeServices.EstimateWithoutDuration | legacy/android-native/app/src/main/java/com/vocalx/domain/AudioDecodeService.kt:142 | without a duration the estimate is 1024 * channels |
| AudioDecodeServices.EstimateDurationExact | legacy/android-native/app/src/main/java/com/vocalx/domain/AudioDecodeService.kt:149-152 | the estimate is (sampleCount / channels) * 1000 / sampleRate rounded down, with every sample a frame when channels <= 0 |
| AudioDecodeServices.ReportedDurationMs | legacy/android-native/app/src/main/java/com/vocalx/domain/AudioDecodeService.kt:36-40 | the container duration / 1000 when positive, otherwise the estimate from the decoded samples; a missing key reads as -1 (the estimate at line 106) |
| AudioDecodeServices.ShortToFloatRange | legacy/android-native/app/src/main/java/com/vocalx/domain/AudioDecodeService.kt:175-183 | s / 32768 lies in [-1, 1) for every 16-bit s |
| AudioDecodeServices.PcmSamples | legacy/android-native/app/src/main/java/com/vocalx/domain/AudioDecodeService.kt:156-186 | float PCM is copied unchanged; 16-bit and unknown encodings map each short s to s / 32768 |
| AudioDecodeServices.PcmSamplesInRange | legacy/android-native/app/src/main/java/com/vocalx/domain/AudioDecodeService.kt:170-185 | integer PCM always yields samples in [-1, 1) |
| AudioDecodeServices.AppendPcm | legacy/android-native/app/src/main/java/com/vocalx/domain/AudioDecodeService.kt:154-187 | the builder's contents grow by exactly the buffer's samples |
| AudioDecodeServices.QueuedEndsOnce | legacy/android-native/app/src/main/java/com/vocalx/domain/AudioDecodeService.kt:54-67 | the end-of-stream input is queued at most once and, if it is, last; nothing is queued after it |
| AudioDecodeServices.QueuedAreReal | legacy/android-native/app/src/main/java/com/vocalx/domain/AudioDecodeService.kt:55-56 | a timed-out input dequeue never reaches the decoder |
| AudioDecodeServices.DecodeToPcmFloat | legacy/android-native/app/src/main/java/com/vocalx/domain/AudioDecodeService.kt:20-130 | the result is the decoded audio or the exception's message; the extractor is released on every path and the decoder exactly on success; the queued inputs are those of the loop |
| AudioDecodeServices.DecodeResultOk | legacy/android-native/app/src/main/java/com/vocalx/domain/AudioDecodeService.kt:25-46 | a successful decode reports the first audio track's rate, channels and MIME type, the samples of every output buffer up to the end-of-stream one in order, and the reported duration (and the result built at lines 105-123) |
| AudioDecodeServices.DecodeResult | legacy/android-native/app/src/main/java/com/vocalx/domain/AudioDecodeService.kt:20-130 | definition: what `decodeToPcmFloat` returns or throws; stated by AudioDecodeServices.DecodeResultOk and AudioDecodeServices.DecodeToPcmFloat |
| AudioDecodeServices.DrainedInRange | legacy/android-native/app/src/main/java/com/vocalx/domain/AudioDecodeService.kt:163-186 | when every buffer is integer PCM, every decoded sample lies in [-1, 1) |
| AudioDecodeServices.RunCodec | legacy/android-native/app/src/main/java/com/vocalx/domain/AudioDecodeService.kt:46-105 | the loop stops at the first codec exception or end-of-stream output; the samples are everything drained until then, in order |
| AudioDecodeServices.FeedInput | legacy/android-native/app/src/main/java/com/vocalx/domain/AudioDecodeService.kt:53-74 | feeding queues at most one input, none after end of stream, and records when the end has been queued |
| AudioDecodeServices.DrainOutput | legacy/android-native/app/src/main/java/com/vocalx/domain/AudioDecodeService.kt:76-99 | a non-empty buffer's samples are appended; the loop ends on an end-of-stream buffer |
| SamAudio.NormalizedAudio | legacy/android-native/app/src/main/java/com/vocalx/ai/models/SAMAudioModelManager.kt:110-120 | normalising keeps the length |
| SamAudio.NormalizedAudioSilent | legacy/android-native/app/src/main/java/com/vocalx/ai/models/SAMAudioModelManager.kt:115-119 | a silent or empty signal is returned unchanged |
| SamAudio.NormalizedAudioPeak | legacy/android-native/app/src/main/java/com/vocalx/ai/models/SAMAudioModelManager.kt:112-116 | any other signal is divided sample by sample by its peak magnitude and then peaks at exactly 1 |
| SamAudio.NormalizedAudioInRange | legacy/android-native/app/src/main/java/com/vocalx/ai/models/SAMAudioModelManager.kt:114-119 | every normalised sample lies in [-1, 1] |
| SamAudio.ProcessedShape | legacy/android-native/app/src/main/java/com/vocalx/ai/models/SAMAudioModelManager.kt:58-108 | the separated signal always has the input's length; success exactly when there is no interpreter or the run filled its output; a failure carries the exception's message over zeros; without an interpreter the result is all zeros |
| SamAudio.ProcessedPeak | legacy/android-native/app/src/main/java/com/vocalx/ai/models/SAMAudioModelManager.kt:89-96 | a successful result is silent or peaks at exactly 1 |
| SamAudio.Processed | legacy/android-native/app/src/main/java/com/vocalx/ai/models/SAMAudioModelManager.kt:58-108 | definition: `processAudio` as a value; stated by SamAudio.ProcessedShape and SamAudio.ProcessedPeak |
| SamAudio.SamAudioModelManager.constructor | legacy/android-native/app/src/main/java/com/vocalx/ai/models/SAMAudioModelManager.kt:13-19 | every field starts null and nothing has been created or closed |
| SamAudio.SamAudioModelManager.InitializeModel | legacy/android-native/app/src/main/java/com/vocalx/ai/models/SAMAudioModelManager.kt:23-56 | a failed model load changes nothing; delegate failures are swallowed, a constructed delegate staying in its field even when `addDelegate` throws; a failed interpreter keeps the fields set so far; both failures are rethrown as "Failed to initialize SAM-Audio model: " plus the message |
| SamAudio.SamAudioModelManager.AddDelegates | legacy/android-native/app/src/main/java/com/vocalx/ai/models/SAMAudioModelManager.kt:32-48 | each available delegate is constructed and stored in its field, a missing one leaves its field as it was, and the model buffer and interpreter are untouched |
| SamAudio.SamAudioModelManager.ProcessAudio | legacy/android-native/app/src/main/java/com/vocalx/ai/models/SAMAudioModelManager.kt:58-108 | never throws: the result is the one stated by ProcessedShape for the current interpreter |
| SamAudio.SamAudioModelManager.Release | legacy/android-native/app/src/main/java/com/vocalx/ai/models/SAMAudioModelManager.kt:158-162 | closes the interpreter and the delegates that are present, in that order, without clearing any field, so a second release closes them again |
| SamAudio.Present | legacy/android-native/app/src/main/java/com/vocalx/ai/models/SAMAudioModelManager.kt:159-161 | a null field contributes no close call and a set one exactly one |
| QueryEncoders.Tokenize | legacy/android-native/app/src/main/java/com/vocalx/ai/models/QueryEncoder.kt:72-76 | one token per whitespace-separated piece of the lowercased text, and at least one |
| QueryEncoders.TokensInVocab | legacy/android-native/app/src/main/java/com/vocalx/ai/models/QueryEncoder.kt:19-31 | every token is one of the eleven vocabulary ids or the padding token 0 (the lookup of `tokenize`, line 74) |
| QueryEncoders.TokenizeIgnoresCase | legacy/android-native/app/src/main/java/com/vocalx/ai/models/QueryEncoder.kt:73 | tokenising the lowercased text gives the same tokens |
| QueryEncoders.TokenizeEmpty | legacy/android-native/app/src/main/java/com/vocalx/ai/models/QueryEncoder.kt:73-74 | the empty prompt is the single padding token |
| QueryEncoders.TokenizeLeading | legacy/android-native/app/src/main/java/com/vocalx/ai/models/QueryEncoder.kt:73-74 | leading whitespace gives a first empty piece, token 0 |
| QueryEncoders.TokenizeTrailing | legacy/android-native/app/src/main/java/com/vocalx/ai/models/QueryEncoder.kt:73-74 | trailing whitespace gives a last empty piece, token 0 |
| QueryEncoders.TokenizeWords | legacy/android-native/app/src/main/java/com/vocalx/ai/models/QueryEncoder.kt:72-76 | lower-case words joined by single spaces tokenise word by word through the vocabulary |
| QueryEncoders.NormalizedEmbedding | legacy/android-native/app/src/main/java/com/vocalx/ai/models/QueryEncoder.kt:78-86 | normalising keeps the length |
| QueryEncoders.NormalizedEmbeddingUnit | legacy/android-native/app/src/main/java/com/vocalx/ai/models/QueryEncoder.kt:78-86 | a zero vector is returned unchanged; any other is divided by its L2 norm and has unit length |
| QueryEncoders.EncodedQueryLength | legacy/android-native/app/src/main/java/com/vocalx/ai/models/QueryEncoder.kt:44-70 | the embedding always has 512 entries |
| QueryEncoders.EncodedQueryZero | legacy/android-native/app/src/main/java/com/vocalx/ai/models/QueryEncoder.kt:56-69 | before initialisation, and whenever the run throws, the embedding is all zeros |
| QueryEncoders.EncodedQueryUnit | legacy/android-native/app/src/main/java/com/vocalx/ai/models/QueryEncoder.kt:56-64 | a run that fills a non-zero output yields a unit vector |
| QueryEncoders.EncodedQuery | legacy/android-native/app/src/main/java/com/vocalx/ai/models/QueryEncoder.kt:44-70 | definition: `encodeQuery` as a value; stated by QueryEncoders.EncodedQueryLength, QueryEncoders.EncodedQueryZero and QueryEncoders.EncodedQueryUnit |
| QueryEncoders.QueryEncoder.constructor | legacy/android-native/app/src/main/java/com/vocalx/ai/models/QueryEncoder.kt:13-15 | starts without an interpreter |
| QueryEncoders.QueryEncoder.Initialize | legacy/android-native/app/src/main/java/com/vocalx/ai/models/QueryEncoder.kt:33-42 | a successful load installs a new interpreter; a failure is rethrown as "Failed to init query encoder: " plus the message and leaves the field as it was |
| QueryEncoders.QueryEncoder.EncodeQuery | legacy/android-native/app/src/main/java/com/vocalx/ai/models/QueryEncoder.kt:44-70 | never throws: a fresh array holding the embedding stated by EncodedQueryLength, EncodedQueryZero and EncodedQueryUnit |
| QueryEncoders.QueryEncoder.Release | legacy/android-native/app/src/main/java/com/vocalx/ai/models/QueryEncoder.kt:119-121 | closes the interpreter if there is one, without clearing the field |
| SeparationPipeline.CoerceIn | legacy/android-native/app/src/main/java/com/vocalx/domain/SeparationPipeline.kt:106-111 | `coerceIn` lands in the range and leaves values inside it alone |
| SeparationPipeline.ClampSpanMs | legacy/android-native/app/src/main/java/com/vocalx/domain/SeparationPipeline.kt:106-111 | 0 <= first <= last <= max(duration, 0); the ends are the two clamped ends, swapped when inverted rather than rejected; a span inside the file is kept |
| SeparationPipeline.AppliedSpan | legacy/android-native/app/src/main/java/com/vocalx/domain/SeparationPipeline.kt:49-51 | an applied span is never empty: 0 <= first < last |
| SeparationPipeline.SpanOutsideDropped | legacy/android-native/app/src/main/java/com/vocalx/domain/SeparationPipeline.kt:49-51 | a span wholly at or past the end, or at or before the start, collapses to a point and is dropped, so the whole signal is processed |
| SeparationPipeline.SpanInsideApplied | legacy/android-native/app/src/main/java/com/vocalx/domain/SeparationPipeline.kt:49-51 | a span inside the file is applied as given, and its inverse is swapped back (through `clampSpanMs`, lines 106-111) |
| SeparationPipeline.MsToSampleIndexExact | legacy/android-native/app/src/main/java/com/vocalx/domain/SeparationPipeline.kt:113-115 | without overflow the index is floor(ms * rate / 1000) |
| SeparationPipeline.MsToSampleIndexMonotone | legacy/android-native/app/src/main/java/com/vocalx/domain/SeparationPipeline.kt:113-115 | at the model rate the conversion is monotone in ms |
| SeparationPipeline.InputForModelSlice | legacy/android-native/app/src/main/java/com/vocalx/domain/SeparationPipeline.kt:53-57 | the slice indices are coerced into [0, size] with start <= end, so slicing never goes out of bounds; the slice is the samples between the two converted ends |
| SeparationPipeline.TakeCount | legacy/android-native/app/src/main/java/com/vocalx/domain/SeparationPipeline.kt:69-70 | a chunk carries between 1 and 480000 input samples, a full chunk unless it reaches the end |
| SeparationPipeline.Chunk | legacy/android-native/app/src/main/java/com/vocalx/domain/SeparationPipeline.kt:69-74 | every chunk has exactly 480000 entries: the first `take` from the input, the rest zero (`CHUNK_SAMPLES`, lines 14-16) |
| SeparationPipeline.ErrorText | legacy/android-native/app/src/main/java/com/vocalx/domain/SeparationPipeline.kt:78 | the result's error, or "Model inference failed" |
| SeparationPipeline.ChunksStep | legacy/android-native/app/src/main/java/com/vocalx/domain/SeparationPipeline.kt:68-86 | one loop turn: a failed chunk stops the run with its message; a successful one appends its first `take` samples and reports its fraction |
| SeparationPipeline.ChunksIdentity | legacy/android-native/app/src/main/java/com/vocalx/domain/SeparationPipeline.kt:64-86 | with a model that returns its input, the stitched output is the input, for every length |
| SeparationPipeline.ChunksLength | legacy/android-native/app/src/main/java/com/vocalx/domain/SeparationPipeline.kt:70-82 | a successful run stitches exactly as many samples as it was given |
| SeparationPipeline.ChunksProgress | legacy/android-native/app/src/main/java/com/vocalx/domain/SeparationPipeline.kt:84-85 | one fraction per processed chunk, each the clamped share done after it; a successful run reports ceil(total / 480000) of them |
| SeparationPipeline.ProgressIncreasing | legacy/android-native/app/src/main/java/com/vocalx/domain/SeparationPipeline.kt:85 | the reported fractions rise strictly and stay in (0, 1] |
| SeparationPipeline.ProgressComplete | legacy/android-native/app/src/main/java/com/vocalx/domain/SeparationPipeline.kt:66-86 | after a successful run over a non-empty signal the last fraction is exactly 1; an empty signal reports nothing from the loop |
| SeparationPipeline.ReachedLast | legacy/android-native/app/src/main/java/com/vocalx/domain/SeparationPipeline.kt:68-84 | the last of ceil(total / 480000) chunks ends at the end of the signal |
| SeparationPipeline.ChunksFailure | legacy/android-native/app/src/main/java/com/vocalx/domain/SeparationPipeline.kt:76-79 | a failed run stops at the first chunk whose inference fails and throws its message, or the default |
| SeparationPipeline.ChunksSucceededBefore | legacy/android-native/app/src/main/java/com/vocalx/domain/SeparationPipeline.kt:76-79 | every chunk before the one that failed succeeded |
| SeparationPipeline.LastIndexOf | legacy/android-native/app/src/main/java/com/vocalx/domain/SeparationPipeline.kt:90 | the position of the last occurrence of the character, or -1 when there is none |
| SeparationPipeline.SubstringBeforeLast | legacy/android-native/app/src/main/java/com/vocalx/domain/SeparationPipeline.kt:90 | `substringBeforeLast` returns the whole name without the character, otherwise everything before its last occurrence |
| SeparationPipeline.PipelineSuccess | legacy/android-native/app/src/main/java/com/vocalx/domain/SeparationPipeline.kt:88-104 | a successful run writes a 16 kHz mono WAV of the stitched output, which has the model input's length, and is the model input itself under an identity model |
| SeparationPipeline.PipelineProgress | legacy/android-native/app/src/main/java/com/vocalx/domain/SeparationPipeline.kt:43-86 | progress starts at 0; a failure before the loop reports only 0; otherwise 0 followed by the loop's fractions |
| SeparationPipeline.Pipeline | legacy/android-native/app/src/main/java/com/vocalx/domain/SeparationPipeline.kt:34-104 | definition: `run` as a value, from decoding to the written WAV; stated by SeparationPipeline.PipelineSuccess and SeparationPipeline.PipelineProgress |
| SeparationPipeline.Prepare | legacy/android-native/app/src/main/java/com/vocalx/domain/SeparationPipeline.kt:45-59 | definition: decode, downmix, resample, span clamp and slice; stated by SeparationPipeline.PrepareInput |
| SeparationPipeline.Chunks | legacy/android-native/app/src/main/java/com/vocalx/domain/SeparationPipeline.kt:64-94 | definition: the chunk loop as a recursive value; stated by SeparationPipeline.ChunksStep, SeparationPipeline.ChunksIdentity, SeparationPipeline.ChunksLength and SeparationPipeline.ChunksProgress |
| SeparationPipeline.Run | legacy/android-native/app/src/main/java/com/vocalx/domain/SeparationPipeline.kt:34-104 | `run` produces exactly the value stated by Pipeline for the encoded query, no WAV being written after a failed chunk |
| SeparationPipeline.PrepareInput | legacy/android-native/app/src/main/java/com/vocalx/domain/SeparationPipeline.kt:45-59 | decode, downmix, resample and slice give the value's decoded audio, applied span and model input, or its failure |
| SeparationPipeline.ToMono16k | legacy/android-native/app/src/main/java/com/vocalx/domain/SeparationPipeline.kt:46-47 | the downmixed 16 kHz signal, or the resampler's error |
| SeparationPipeline.SliceForModel | legacy/android-native/app/src/main/java/com/vocalx/domain/SeparationPipeline.kt:53-59 | the span's slice of the 16 kHz signal, or the signal itself |
| SeparationPipeline.CopyOfRange | legacy/android-native/app/src/main/java/com/vocalx/domain/SeparationPipeline.kt:56 | `copyOfRange` gives a fresh array of the samples in the range |
| SeparationPipeline.RunChunks | legacy/android-native/app/src/main/java/com/vocalx/domain/SeparationPipeline.kt:64-94 | the loop's progress, its first failure and its stitched output are those of the chunk run, for an input of any length: the builder is sized to the input and never grows |
| SeparationPipeline.ProcessChunk | legacy/android-native/app/src/main/java/com/vocalx/domain/SeparationPipeline.kt:69-82 | one turn pads the chunk and runs inference; on success it appends the first `take` output samples, on failure nothing; the builder keeps its buffer |
| SeparationPipeline.PaddedChunk | legacy/android-native/app/src/main/java/com/vocalx/domain/SeparationPipeline.kt:73-74 | a fresh 480000-sample chunk: the input's samples then zeros |
| SeparationPipeline.ArrayOf | legacy/android-native/app/src/main/java/com/vocalx/domain/SeparationPipeline.kt:82 | the model's output as a fresh array with the same contents |
| AudioAnalyzer.WindowOf | legacy/android-native/app/src/main/java/com/vocalx/domain/AudioAnalyzer.kt:57-58 | the window is the first min(44100, size) samples (repeated in `detectTimeSignature`, lines 485-486) |
| AudioAnalyzer.Magnitudes | legacy/android-native/app/src/main/java/com/vocalx/domain/AudioAnalyzer.kt:63-65 | each envelope entry is the absolute value of its sample |
| AudioAnalyzer.EnvelopeShape | legacy/android-native/app/src/main/java/com/vocalx/domain/AudioAnalyzer.kt:61-74 | the envelope covers the window, lies in [0, 1], is 0 exactly where the signal is, and reaches 1 unless the window is silent |
| AudioAnalyzer.Envelope | legacy/android-native/app/src/main/java/com/vocalx/domain/AudioAnalyzer.kt:57-74 | a fresh array holding the normalised envelope of the first second (repeated in `detectTimeSignature`, lines 485-502) |
| AudioAnalyzer.AbsoluteWindow | legacy/android-native/app/src/main/java/com/vocalx/domain/AudioAnalyzer.kt:61-67 | the first loop yields the absolute window and its maximum |
| AudioAnalyzer.PeaksBelowShape | legacy/android-native/app/src/main/java/com/vocalx/domain/AudioAnalyzer.kt:77-82 | the peaks found below an index are exactly the strict local maxima above 0.5 there, in ascending order, never adjacent |
| AudioAnalyzer.PeaksOfShape | legacy/android-native/app/src/main/java/com/vocalx/domain/AudioAnalyzer.kt:77-82 | the peaks are exactly the strict local maxima above 0.5 with a neighbour on each side, and no two are adjacent |
| AudioAnalyzer.FindPeaks | legacy/android-native/app/src/main/java/com/vocalx/domain/AudioAnalyzer.kt:77-82 | the peak loop returns exactly those peaks, in order (repeated in `detectTimeSignature`, lines 505-510) |
| AudioAnalyzer.IntervalsOf | legacy/android-native/app/src/main/java/com/vocalx/domain/AudioAnalyzer.kt:85-88 | one interval less than there are peaks, each the distance between consecutive peaks |
| AudioAnalyzer.Intervals | legacy/android-native/app/src/main/java/com/vocalx/domain/AudioAnalyzer.kt:85-88 | the interval loop returns exactly those distances (repeated in `detectTimeSignature`, lines 513-516) |
| AudioAnalyzer.BeatIntervalsAtLeastTwo | legacy/android-native/app/src/main/java/com/vocalx/domain/AudioAnalyzer.kt:78-88 | every interval is at least 2 samples |
| AudioAnalyzer.ModeFrom | legacy/android-native/app/src/main/java/com/vocalx/domain/AudioAnalyzer.kt:93-94 | the scan ends on an element whose count is the largest, with every earlier element counted strictly less |
| AudioAnalyzer.ModeIndex | legacy/android-native/app/src/main/java/com/vocalx/domain/AudioAnalyzer.kt:93-94 | the index of the first element whose count is the largest |
| AudioAnalyzer.MostCommonShape | legacy/android-native/app/src/main/java/com/vocalx/domain/AudioAnalyzer.kt:93-94 | the most common interval occurs in the list, no value occurs more often, and it is the first of the tied values to occur |
| AudioAnalyzer.BpmRange | legacy/android-native/app/src/main/java/com/vocalx/domain/AudioAnalyzer.kt:90-98 | the tempo is 120 without two peaks, and always lies in [60, 180] |
| AudioAnalyzer.RhythmUsesFirstSecond | legacy/android-native/app/src/main/java/com/vocalx/domain/AudioAnalyzer.kt:57-58 | two signals with the same first 44100 samples get the same tempo and metre (in `detectBPM` and again in `detectTimeSignature`, lines 485-486) |
| AudioAnalyzer.RawBpmBelow | legacy/android-native/app/src/main/java/com/vocalx/domain/AudioAnalyzer.kt:525-531 | the unclamped rate is below 80 exactly for intervals over 33075 samples, and above 120 exactly for intervals under 22050 (the same rate as `detectBPM` line 97) |
| AudioAnalyzer.TimeSignatureShape | legacy/android-native/app/src/main/java/com/vocalx/domain/AudioAnalyzer.kt:518-532 | the metre is "4/4" or "3/4", and "3/4" exactly when the most common interval exceeds 33075 samples, which is when the reported tempo is below 80 |
| AudioAnalyzer.PeakIntervals | legacy/android-native/app/src/main/java/com/vocalx/domain/AudioAnalyzer.kt:57-88 | the envelope, peak and interval loops give the peak intervals of the first second, each at least 2 |
| AudioAnalyzer.DetectBpm | legacy/android-native/app/src/main/java/com/vocalx/domain/AudioAnalyzer.kt:54-99 | `detectBPM` returns the tempo stated by BpmRange |
| AudioAnalyzer.Bpm | legacy/android-native/app/src/main/java/com/vocalx/domain/AudioAnalyzer.kt:54-99 | definition: `detectBPM`; stated by AudioAnalyzer.BpmRange, AudioAnalyzer.RhythmUsesFirstSecond and AudioAnalyzer.DetectBpm |
| AudioAnalyzer.DetectTimeSignature | legacy/android-native/app/src/main/java/com/vocalx/domain/AudioAnalyzer.kt:482-533 | `detectTimeSignature` returns the metre stated by TimeSignatureShape |
| AudioAnalyzer.TimeSignature | legacy/android-native/app/src/main/java/com/vocalx/domain/AudioAnalyzer.kt:482-533 | definition: `detectTimeSignature`; stated by AudioAnalyzer.TimeSignatureShape and AudioAnalyzer.DetectTimeSignature |
| AudioAnalyzer.StrongestBelow | legacy/android-native/app/src/main/java/com/vocalx/domain/AudioAnalyzer.kt:107-114 | the strongest index so far is 0 or one of the bins scanned |
| AudioAnalyzer.StrongestBelowShape | legacy/android-native/app/src/main/java/com/vocalx/domain/AudioAnalyzer.kt:107-114 | the scan keeps the first strictly largest positive bin, or index 0 with value 0 when no bin is positive |
| AudioAnalyzer.StrongestIndexShape | legacy/android-native/app/src/main/java/com/vocalx/domain/AudioAnalyzer.kt:104-116 | the key is the first strongest bin when some bin is positive, and "C" when none is |
| AudioAnalyzer.DetectKey | legacy/android-native/app/src/main/java/com/vocalx/domain/AudioAnalyzer.kt:101-117 | `detectKey` returns the name of that bin |
| AudioAnalyzer.Frames | legacy/android-native/app/src/main/java/com/vocalx/domain/AudioAnalyzer.kt:231-259 | the spectra of the windows that fit, each with half as many bins as the window (the average spectrum uses the same windows, lines 274-296) |
| AudioAnalyzer.FramesCount | legacy/android-native/app/src/main/java/com/vocalx/domain/AudioAnalyzer.kt:231-258 | the number of windows is (n - size - start) / hop + 1, or 0 when none fits (the average spectrum counts its windows the same way, lines 274-295) |
| AudioAnalyzer.L1 | legacy/android-native/app/src/main/java/com/vocalx/domain/AudioAnalyzer.kt:249-252 | the flux between two spectra is never negative |
| AudioAnalyzer.TotalFlux | legacy/android-native/app/src/main/java/com/vocalx/domain/AudioAnalyzer.kt:247-255 | the summed flux is never negative |
| AudioAnalyzer.FluxGuard | legacy/android-native/app/src/main/java/com/vocalx/domain/AudioAnalyzer.kt:220-262 | the flux is never negative, and is 0 for a signal under 1536 samples (fewer than two windows) |
| AudioAnalyzer.FrameFlux | legacy/android-native/app/src/main/java/com/vocalx/domain/AudioAnalyzer.kt:249-252 | the inner loop sums the bin-wise absolute differences |
| AudioAnalyzer.AccumulateFlux | legacy/android-native/app/src/main/java/com/vocalx/domain/AudioAnalyzer.kt:247-257 | one window adds its flux against the previous spectrum, if any, and becomes the previous one |
| AudioAnalyzer.SpectralFlux | legacy/android-native/app/src/main/java/com/vocalx/domain/AudioAnalyzer.kt:220-262 | `calculateSpectralFlux` returns the mean flux between consecutive spectra, 0 with fewer than two windows |
| AudioAnalyzer.SumFrames | legacy/android-native/app/src/main/java/com/vocalx/domain/AudioAnalyzer.kt:290-292 | the bin-wise sum has one entry per bin and none negative |
| AudioAnalyzer.AverageOf | legacy/android-native/app/src/main/java/com/vocalx/domain/AudioAnalyzer.kt:298-302 | the bin-wise mean has one entry per bin and none negative; all zeros without windows |
| AudioAnalyzer.AverageSpectrumOf | legacy/android-native/app/src/main/java/com/vocalx/domain/AudioAnalyzer.kt:269-302 | the average spectrum has 1024 non-negative bins |
| AudioAnalyzer.AverageOfRepeated | legacy/android-native/app/src/main/java/com/vocalx/domain/AudioAnalyzer.kt:290-302 | averaging one repeated spectrum gives that spectrum |
| AudioAnalyzer.SumOfRepeated | legacy/android-native/app/src/main/java/com/vocalx/domain/AudioAnalyzer.kt:290-293 | summing n copies of a spectrum scales it by n |
| AudioAnalyzer.AddInto | legacy/android-native/app/src/main/java/com/vocalx/domain/AudioAnalyzer.kt:290-292 | adds the spectrum into the accumulator bin by bin |
| AudioAnalyzer.DivideInto | legacy/android-native/app/src/main/java/com/vocalx/domain/AudioAnalyzer.kt:298-302 | divides every bin by the window count |
| AudioAnalyzer.AverageSpectrum | legacy/android-native/app/src/main/java/com/vocalx/domain/AudioAnalyzer.kt:269-302 | the loop computes the average spectrum in a fresh array |
| AudioAnalyzer.Acousticness | legacy/android-native/app/src/main/java/com/vocalx/domain/AudioAnalyzer.kt:305-309 | low-band over high-band energy times 100 lies in [0, 100] |
| AudioAnalyzer.AcousticnessBands | legacy/android-native/app/src/main/java/com/vocalx/domain/AudioAnalyzer.kt:305-309 | a spectrum without low-band energy scores 0; one without high-band energy and with a low band of at least 0.001 scores 100 |
| AudioAnalyzer.Deviations | legacy/android-native/app/src/main/java/com/vocalx/domain/AudioAnalyzer.kt:353 | each bin minus the mean |
| AudioAnalyzer.Instrumentalness | legacy/android-native/app/src/main/java/com/vocalx/domain/AudioAnalyzer.kt:353-360 | 10 / (variance + 0.001), clamped, lies in [0, 100] |
| AudioAnalyzer.InstrumentalnessFlat | legacy/android-native/app/src/main/java/com/vocalx/domain/AudioAnalyzer.kt:353-360 | a perfectly flat spectrum has variance 0 and scores 100 |
| AudioAnalyzer.Speechiness | legacy/android-native/app/src/main/java/com/vocalx/domain/AudioAnalyzer.kt:410-417 | mid-band over total energy times 30 lies in [0, 30] |
| AudioAnalyzer.SpeechBand | legacy/android-native/app/src/main/java/com/vocalx/domain/AudioAnalyzer.kt:410-413 | the speech band is bins 9 up to 185 |
| AudioAnalyzer.SpectralCentroid | legacy/android-native/app/src/main/java/com/vocalx/domain/AudioAnalyzer.kt:469-480 | the loop returns the magnitude-weighted mean frequency, 0 without energy |
| AudioAnalyzer.CentroidInBand | legacy/android-native/app/src/main/java/com/vocalx/domain/AudioAnalyzer.kt:469-480 | for a spectrum without negative bins the centroid lies between 0 and the top bin's frequency |
| AudioAnalyzer.Valence | legacy/android-native/app/src/main/java/com/vocalx/domain/AudioAnalyzer.kt:461-466 | the centroid mapped from [500, 5000] Hz onto [0, 100] lies in [0, 100] |
| AudioAnalyzer.ValenceEnds | legacy/android-native/app/src/main/java/com/vocalx/domain/AudioAnalyzer.kt:464-466 | a centroid up to 500 Hz scores 0 and one from 5000 Hz on scores 100 |
| AudioAnalyzer.LevelGuards | legacy/android-native/app/src/main/java/com/vocalx/domain/AudioAnalyzer.kt:363-367 | energy is NaN exactly for an empty signal, otherwise in [0, 100] and 0 when silent; loudness is -60 dB for silence and 20 * log10(rms) otherwise (energy: `calculateEnergy`, lines 201-205) |
| AudioAnalyzer.Energy | legacy/android-native/app/src/main/java/com/vocalx/domain/AudioAnalyzer.kt:201-205 | definition: `calculateEnergy`; stated by AudioAnalyzer.LevelGuards and AudioAnalyzer.AnalysisRanges |
| AudioAnalyzer.Loudness | legacy/android-native/app/src/main/java/com/vocalx/domain/AudioAnalyzer.kt:363-367 | definition: `calculateLoudness`; stated by AudioAnalyzer.LevelGuards |
| AudioAnalyzer.Danceability | legacy/android-native/app/src/main/java/com/vocalx/domain/AudioAnalyzer.kt:207-218 | 60% tempo factor plus 40% flux, as a percentage, lies in [0, 100] |
| AudioAnalyzer.DanceabilityWithoutFlux | legacy/android-native/app/src/main/java/com/vocalx/domain/AudioAnalyzer.kt:210-217 | without flux the tempo alone scores (bpm - 60) / 2, at most 60 |
| AudioAnalyzer.AnalyzeAudio | legacy/android-native/app/src/main/java/com/vocalx/domain/AudioAnalyzer.kt:24-52 | every field of the analysis is the stated feature of the signal, with file id 0 and tempo equal to bpm |
| AudioAnalyzer.AnalysisRanges | legacy/android-native/app/src/main/java/com/vocalx/domain/AudioAnalyzer.kt:24-52 | every reported feature lies in its range: tempo in [60, 180], percentages in [0, 100], speechiness in [0, 30], the key a chroma name, and the metre "4/4" or "3/4" (the clamps of the feature functions, lines 98-532) |
| SpanPrompt.ParseLong | legacy/android-native/app/src/main/java/com/vocalx/ui/screens/VocalXApp.kt:198-199 | `toLongOrNull`: a result is always a `Long`; an empty text or one with no digit gives none |
| SpanPrompt.ParseLongRoundTrip | legacy/android-native/app/src/main/java/com/vocalx/ui/screens/VocalXApp.kt:198-199 | the decimal text of any `Long`, unsigned, with "+" or with "-", parses back to that value |
| SpanPrompt.SpanMs | legacy/android-native/app/src/main/java/com/vocalx/ui/screens/VocalXApp.kt:197-203 | with the switch off there is no span; with it on both ends of the span are `Long` values |
| SpanPrompt.SpanMsExact | legacy/android-native/app/src/main/java/com/vocalx/ui/screens/VocalXApp.kt:198-202 | typed seconds whose milliseconds fit a `Long` are scaled by 1000 exactly, negative ones become 0 |
| SpanPrompt.UnparsedStartIsZero | legacy/android-native/app/src/main/java/com/vocalx/ui/screens/VocalXApp.kt:198-200 | a start field that does not parse starts the span at 0 ms |
| SpanPrompt.BlankEndWraps | legacy/android-native/app/src/main/java/com/vocalx/ui/screens/VocalXApp.kt:199-201 | a blank or non-numeric end becomes `Long.MAX_VALUE * 1000`, which wraps to -1000 ms |
| SpanPrompt.BlankEndSpanApplied | legacy/android-native/app/src/main/java/com/vocalx/ui/screens/VocalXApp.kt:197-203 | after `clampSpanMs`, a blank end with start S seconds processes [0, min(S s, duration)] and a start of 0 drops the span |
| SpanPrompt.SecondsToMsSaturating | legacy/android-native/app/src/main/java/com/vocalx/ui/screens/VocalXApp.kt:200-201 | the corrected scaling lies in [0, `Long.MAX_VALUE`] and is exact wherever no overflow occurs |
| SpanPrompt.IntendedSpanMs | legacy/android-native/app/src/main/java/com/vocalx/ui/screens/VocalXApp.kt:197-203 | the corrected span has non-negative ends and a blank end means the end of the file (`Long.MAX_VALUE`), as the "blank = end" placeholder of line 178 says |
| SpanPrompt.IntendedBlankEndIsTail | legacy/android-native/app/src/main/java/com/vocalx/ui/screens/VocalXApp.kt:197-203 | with the corrected span, a blank end and a start inside the file process exactly [start, duration] |
| SpanPrompt.IntendedAgreesWithoutOverflow | legacy/android-native/app/src/main/java/com/vocalx/ui/screens/VocalXApp.kt:197-203 | wherever both typed values scale without overflow, the corrected span equals the one as written |
| SpanPrompt.ExtractPress | legacy/android-native/app/src/main/java/com/vocalx/ui/screens/VocalXApp.kt:189-257 | a click on the enabled button always starts a run on the selected file: the `selectedUri ?: return@Button` guard cannot fire, the screen is marked busy with error, output and progress cleared, and that screen disables the button, so no second run starts; the guard fires exactly without a file, when the button is disabled |
| SpanPrompt.FinalProgress | legacy/android-native/app/src/main/java/com/vocalx/ui/screens/VocalXApp.kt:253 | the progress shown after a run lies in [0, 1] and is 0 when nothing was reported |
| SpanPrompt.FinalProgressOfRun | legacy/android-native/app/src/main/java/com/vocalx/ui/screens/VocalXApp.kt:195-253 | a run that fails before inference, or one over empty audio, ends at 0; a successful run over non-empty audio ends at 1 |
| Commission.FirstMatchFrom | apps/affiliate/lib/commission.ts:19-24 | the scan from a position returns the first tier from there on whose range holds the revenue, and nothing exactly when none does |
| Commission.TierFor | apps/affiliate/lib/commission.ts:18-26 | a lookup returns a tier of the table; one that holds the revenue when some tier does, else the entry in front |
| Commission.Reversed | apps/affiliate/lib/commission.ts:19 | the reversal has the same length and reads the table backwards |
| Commission.ReversedTwice | apps/affiliate/lib/commission.ts:19-29 | two reversals restore the original order |
| Commission.ReversedPointwise | apps/affiliate/lib/commission.ts:19 | a sequence that reads another backwards is its reversal |
| Commission.TierTable.constructor | apps/affiliate/lib/commission.ts:11-15 | the shared table starts in declared order: silver, gold, platinum |
| Commission.TierTable.Reverse | apps/affiliate/lib/commission.ts:19 | `reverse()` leaves the shared array holding the reversal of what it held |
| Commission.TierTable.Find | apps/affiliate/lib/commission.ts:19-25 | the scan returns the lookup of the table as it stands after the reversal |
| Commission.TierTable.ReverseAndFind | apps/affiliate/lib/commission.ts:19-25 | the table is reversed in place and the result is the lookup on the reversed table |
| Commission.TierTable.CalculateCommissionRate | apps/affiliate/lib/commission.ts:18-26 | the rate is that of the tier looked up on the reversed table, which stays reversed |
| Commission.TierTable.GetTierName | apps/affiliate/lib/commission.ts:28-36 | the name is that of the tier looked up on the reversed table, which stays reversed |
| Commission.TierTable.NewTierAndRate | apps/affiliate/lib/commission.ts:57-58 | the name-then-rate step of the tier update leaves the table as it began and returns the as-written name and rate |
| Commission.ReversedTiers | apps/affiliate/lib/commission.ts:11-15 | the reversed declared table is platinum, gold, silver |
| Commission.CoveredExactly | apps/affiliate/lib/commission.ts:11-15 | some tier holds a revenue exactly when it is not negative and not strictly inside (999, 1000) or (4999, 5000) |
| Commission.InRangeAnyOrientation | apps/affiliate/lib/commission.ts:18-36 | a revenue inside a tier's range finds that tier whichever way round the table is |
| Commission.FallbackByOrientation | apps/affiliate/lib/commission.ts:25-35 | an uncovered revenue falls back to silver when the table was reversed before the call, and to platinum when it was in declared order |
| Commission.AsWrittenMismatch | apps/affiliate/lib/commission.ts:18-36 | as written, an uncovered revenue gets the tier name "platinum" with rate 15 (or "silver" with 25): name and rate of different tiers |
| Commission.AsWrittenInRange | apps/affiliate/lib/commission.ts:18-36 | a covered revenue gets the name and the rate of its own tier either way round |
| Commission.IntendedTierConsistent | apps/affiliate/lib/commission.ts:18-36 | the intended lookup takes name and rate from one tier: the one holding the revenue, else silver; it agrees with the written code on covered revenues |
| Commission.IntendedAgainstAsWritten | apps/affiliate/lib/commission.ts:18-36 | the corrected pair equals the written lookups' pair exactly when some tier holds the revenue; an uncovered revenue gives ("silver", 15) against the written ("platinum", 15) |
| Commission.FindCharge | apps/affiliate/lib/commission.ts:131-133 | finding by charge id returns the position of an event with that id and nothing exactly when no event has it |
| Commission.UpdateAffiliateTier | apps/affiliate/lib/commission.ts:38-70 | definition: the 30-day confirmed revenue and the tier update of the affiliate row; stated by Commission.TierUpdateAgainstAsWritten |
| Commission.TierUpdateAgainstAsWritten | apps/affiliate/lib/commission.ts:38-70 | the update succeeds for a known affiliate, reports the 30-day revenue, changes only that row's tier and rate, to the corrected pair, which differs from the written code's pair exactly for an uncovered revenue |
| Commission.ProcessCommissionEvent | apps/affiliate/lib/commission.ts:72-127 | definition: the duplicate and affiliate checks, the event insert, the totals and the tier update; stated by Commission.CommissionEventOutcome, Commission.CommissionEventEffect and Commission.CommissionEventFrame |
| Commission.ProcessRefund | apps/affiliate/lib/commission.ts:129-175 | definition: the original lookup, the refund insert, the status update and the totals; stated by Commission.RefundEffect |
| Commission.CommissionEventOutcome | apps/affiliate/lib/commission.ts:72-127 | a commission event fails with "Affiliate not found" for an unknown affiliate, and fails exactly for that or a charge id already recorded |
| Commission.CommissionEventEffect | apps/affiliate/lib/commission.ts:91-124 | a successful event appends a confirmed event with commission charge × old rate / 100, adds charge and commission to the totals, and stores the corrected tier and rate of the 30-day revenue including the new charge, which equal the written lookups' pair exactly when some tier holds that revenue |
| Commission.CommissionEventFrame | apps/affiliate/lib/commission.ts:95-124 | a commission event changes no other affiliate and no payout and keeps the database consistent |
| Commission.RefundEffect | apps/affiliate/lib/commission.ts:129-175 | a refund fails exactly for an unknown charge or one already refunded; otherwise it appends a negated confirmed "charge.refunded" event, marks the original refunded, subtracts both amounts from the totals, changes nothing else and keeps consistency |
| Commission.RefundTwiceFails | apps/affiliate/lib/commission.ts:140-153 | refunding the same charge again fails on the unique refund charge id |
| Commission.CommissionThenRefundKeepsTotals | apps/affiliate/lib/commission.ts:110-121 | a commission event followed by the refund of its charge leaves the affiliate's total revenue and total commissions unchanged |
| Commission.RevenueSinceUpdate | apps/affiliate/lib/commission.ts:43-56 | replacing one event changes the 30-day revenue by the difference of the two events' shares |
| Commission.RefundSubtractsTwice | apps/affiliate/lib/commission.ts:43-56 | after a refund of a recent confirmed charge the 30-day revenue drops by twice the charge: the negative event counts and the refunded original no longer does |
| Commission.MonthCommissionWithoutRows | apps/affiliate/lib/commission.ts:179-195 | an affiliate with no confirmed event in the month sums to 0 |
| Commission.MonthAffiliates | apps/affiliate/lib/commission.ts:179-183 | the group keys are distinct and are exactly the affiliates with a confirmed event in the month |
| Commission.GroupsOf | apps/affiliate/lib/commission.ts:185-194 | the groups are exactly the listed affiliates whose summed commission is positive, with that sum, each once |
| Commission.PayoutGroupsExactly | apps/affiliate/lib/commission.ts:179-195 | the grouped rows are exactly the affiliates whose confirmed commission of the month sums to a positive amount, each once |
| Commission.GenerateMonthlyPayouts | apps/affiliate/lib/commission.ts:177-237 | the loop returns the payouts of the payout run over the groups and stores its payout table |
| Commission.StepKeepsCreated | apps/affiliate/lib/commission.ts:199-233 | one loop turn keeps stored payouts, and creates only pending payouts for a free key, one per affiliate |
| Commission.StepKeepsNewKeys | apps/affiliate/lib/commission.ts:213-231 | after one loop turn every newly stored key belongs to a created payout |
| Commission.WidenInvariant | apps/affiliate/lib/commission.ts:199-234 | what holds of the payouts created from a prefix of the groups holds relative to all of them |
| Commission.PayoutRunShape | apps/affiliate/lib/commission.ts:199-236 | a run keeps every stored payout and creates pending payouts only for positive groups with a free (affiliate, month) key, at most one per affiliate |
| Commission.PayoutRunCovers | apps/affiliate/lib/commission.ts:199-234 | after a run every group with a positive sum has a payout for the month |
| Commission.PayoutRunCovered | apps/affiliate/lib/commission.ts:202-213 | when every positive group already has its payout, a run creates and stores nothing |
| Commission.RerunCreatesNothing | apps/affiliate/lib/commission.ts:203-213 | generating a month's payouts a second time, with the same events, creates none and changes nothing |
| Commission.PayoutsCreated | apps/affiliate/lib/commission.ts:177-237 | each created payout carries its affiliate's positive confirmed commission of the month, and the affiliates paid are exactly those with a positive sum and no payout yet |
| AffiliateAuth.ExtractTokenFromHeader | apps/affiliate/lib/auth.ts:93-98 | a token comes back exactly when the header starts with "Bearer ", and the header is then "Bearer " followed by the token |
| AffiliateAuth.ExtractRoundTrip | apps/affiliate/lib/auth.ts:93-98 | every token is recovered from its own "Bearer " header |
| AffiliateAuth.SchemeIsCaseSensitive | apps/affiliate/lib/auth.ts:94 | "bearer " and "BEARER " headers carry no token |
| AffiliateAuth.RequireAuthOutcome | apps/affiliate/lib/auth.ts:100-118 | the guard succeeds exactly for a "Bearer " header whose non-empty token verifies to an existing, active admin, and returns that admin and payload; a missing or empty token fails first as "Authentication required", then a token that does not verify as "Invalid or expired token" |
| AffiliateAuth.RequireAuth | apps/affiliate/lib/auth.ts:100-118 | definition: `requireAuth`; stated by AffiliateAuth.RequireAuthOutcome |
| AffiliateAuth.BareBearerRejected | apps/affiliate/lib/auth.ts:93-104 | a bare "Bearer " header yields the empty token and is refused as unauthenticated before any token check |
| AffiliateAuth.AuthenticateAdminOutcome | apps/affiliate/lib/auth.ts:37-66 | a login succeeds exactly for a known, active admin with a matching password and returns its public fields with a token signed over id, email and role; every failure is "Invalid credentials" |
| AffiliateAuth.AuthenticateAdmin | apps/affiliate/lib/auth.ts:37-66 | definition: `authenticateAdmin`; stated by AffiliateAuth.AuthenticateAdminOutcome |
| PaperspaceWebhook.Clamp | apps/webapp/app/api/webhooks/paperspace/route.ts:30 | the clamped progress lies in [0, 100], equals a value already inside, and is 0 below and 100 above |
| PaperspaceWebhook.WebhookOutcome | apps/webapp/app/api/webhooks/paperspace/route.ts:8-60 | a body that is not JSON, or whose job id is not a non-empty string or whose status is not JavaScript-truthy, gets 400, one naming an unknown job 404, and neither changes any job; every other body, whatever its status value, gets `{ ok: true }` and changes only the named job, by the update its status selects |
| PaperspaceWebhook.HandleWebhook | apps/webapp/app/api/webhooks/paperspace/route.ts:8-60 | definition: the `POST` handler; stated by PaperspaceWebhook.WebhookOutcome |
| PaperspaceWebhook.Apply | apps/webapp/app/api/webhooks/paperspace/route.ts:25-59 | definition: the update the status selects; stated by PaperspaceWebhook.ProcessingEffect, PaperspaceWebhook.SucceededEffect and PaperspaceWebhook.FailedEffect |
| PaperspaceWebhook.ProcessingEffect | apps/webapp/app/api/webhooks/paperspace/route.ts:25-35 | "processing" sets that status, clamps a numeric progress and keeps the old one otherwise, sets `startedAt` only when unset, and changes no other column |
| PaperspaceWebhook.SucceededEffect | apps/webapp/app/api/webhooks/paperspace/route.ts:37-49 | "succeeded" marks the job completed at progress 100 now, clears the error, and replaces the output key only when the body has one |
| PaperspaceWebhook.FailedEffect | apps/webapp/app/api/webhooks/paperspace/route.ts:51-59 | any other status marks the job failed now with the body's error or "Paperspace job failed", leaving progress, start and output key alone |
| PaperspaceWebhook.NonStringStatusFails | apps/webapp/app/api/webhooks/paperspace/route.ts:10-59 | a truthy status that is not a string, such as `1` or `true`, passes the 400 guard, matches neither `===` test and fails the job with `{ ok: true }` |
| PaperspaceWebhook.StatusNotConsulted | apps/webapp/app/api/webhooks/paperspace/route.ts:22-59 | the job's current status is never read: a completed or failed job goes back to processing |
| PaperspaceWebhook.ProcessingReplay | apps/webapp/app/api/webhooks/paperspace/route.ts:25-35 | replaying a "processing" body changes nothing further |
| PaperspaceWebhook.ClampIdempotent | apps/webapp/app/api/webhooks/paperspace/route.ts:30 | clamping twice is clamping once |
| PaperspaceWebhook.SucceededReplay | apps/webapp/app/api/webhooks/paperspace/route.ts:37-49 | replaying a "succeeded" body only moves `completedAt` to the replay's instant |
| PayoutsExport.ParseStatus | apps/affiliate/app/api/payouts/export/route.ts:9 | a status is accepted exactly when it is one of "pending", "approved", "paid", "failed", and it names the value parsed |
| PayoutsExport.QueryValidation | apps/affiliate/app/api/payouts/export/route.ts:7-22 | the query is accepted exactly when the month (the current one when missing or empty) matches YYYY-MM, the status is empty or one of the four and the format is "csv" or "json"; a missing format is CSV and a missing status selects every status |
| PayoutsExport.ParseQuery | apps/affiliate/app/api/payouts/export/route.ts:7-22 | definition: the schema's `parse` of the three parameters with their defaults; stated by PayoutsExport.QueryValidation |
| PayoutsExport.DatePart | apps/affiliate/app/api/payouts/export/route.ts:80-82 | `split('T')[0]` is the prefix before the first 'T' |
| PayoutsExport.DatePartOfIso | apps/affiliate/app/api/payouts/export/route.ts:80-82 | the date of an ISO instant `<date>T<time>` is `<date>` |
| PayoutsExport.RoundedCents | apps/affiliate/app/api/payouts/export/route.ts:78 | `toFixed(2)` rounds to the nearest hundredth, the larger on a tie |
| PayoutsExport.CentsTextValue | apps/affiliate/app/api/payouts/export/route.ts:78 | the text of n hundredths is decimal digits, a point and two digits, and it reads back as n |
| PayoutsExport.Fixed2OfCents | apps/affiliate/app/api/payouts/export/route.ts:78 | an amount in whole cents is written exactly |
| PayoutsExport.Fixed2Plain | apps/affiliate/app/api/payouts/export/route.ts:78 | the commission amount text has no comma, quote or line break |
| PayoutsExport.Fixed2 | apps/affiliate/app/api/payouts/export/route.ts:78 | definition: `toFixed(2)`; stated by PayoutsExport.Fixed2OfCents and PayoutsExport.Fixed2Plain |
| PayoutsExport.RowFields | apps/affiliate/app/api/payouts/export/route.ts:72-85 | each payout gives twelve fields, one per header |
| PayoutsExport.RowFieldsOptional | apps/affiliate/app/api/payouts/export/route.ts:80-84 | missing approval date, paid date, transaction id and notes are empty fields, and the created date is the day of its ISO text |
| PayoutsExport.DoubleQuotes | apps/affiliate/app/api/payouts/export/route.ts:92 | doubling the quotes never shortens a field |
| PayoutsExport.DoubleQuotesKeeps | apps/affiliate/app/api/payouts/export/route.ts:92 | doubling the quotes adds and removes no other character |
| PayoutsExport.Escape | apps/affiliate/app/api/payouts/export/route.ts:90-93 | a field with a comma is enclosed in quotes around its doubled-quote text; any other field is written unchanged |
| PayoutsExport.EscapeKeeps | apps/affiliate/app/api/payouts/export/route.ts:90-93 | escaping adds and removes no character other than the quote |
| PayoutsExport.EscapeAll | apps/affiliate/app/api/payouts/export/route.ts:89-94 | every field of a row is escaped in place, in order |
| PayoutsExport.RowsFields | apps/affiliate/app/api/payouts/export/route.ts:72-85 | the rows are the fields of every payout, in the order of the query |
| PayoutsExport.TableLines | apps/affiliate/app/api/payouts/export/route.ts:89-95 | one written line per row, in order |
| PayoutsExport.UnquotedWithoutComma | apps/affiliate/app/api/payouts/export/route.ts:91-93 | a comma-free field is written unquoted, against rules 6 and 7 of section 2 of RFC 4180, so one that starts with a quote does not read back: `"a` reads as `a` |
| PayoutsExport.LineBreakInField | apps/affiliate/app/api/payouts/export/route.ts:89-96 | a field with a line break and no comma puts a line break into its row's line |
| PayoutsExport.CsvLineAvoids | apps/affiliate/app/api/payouts/export/route.ts:89-94 | a line break or carriage return absent from every field is absent from the line |
| PayoutsExport.EscapeAllPlain | apps/affiliate/app/api/payouts/export/route.ts:90-93 | fields without a comma are written as they are |
| PayoutsExport.HeaderLine | apps/affiliate/app/api/payouts/export/route.ts:88 | the unescaped header join of plain names equals those names written as fields, and each reads back |
| PayoutsExport.HeadersArePlain | apps/affiliate/app/api/payouts/export/route.ts:57-70 | no header name has a comma, quote, line break or carriage return |
| PayoutsExport.NoCarriageReturnIn | apps/affiliate/app/api/payouts/export/route.ts:87-96 | with no CR in any header or field there is no CR in the text |
| PayoutsExport.NoCarriageReturn | apps/affiliate/app/api/payouts/export/route.ts:87-96 | lines are separated by a bare LF: the CSV holds no CR at all, where rule 2 of section 2 of RFC 4180 asks for CRLF |
| PayoutsExport.IndexOf | apps/affiliate/app/api/payouts/export/route.ts:90-93 | the reader's search returns the first position of the character, or the length when there is none |
| PayoutsExport.QuotedRoundTrip | apps/affiliate/app/api/payouts/export/route.ts:92 | reading a doubled-quote body up to its lone closing quote gives back the field and the rest of the line |
| PayoutsExport.QuotedFieldRoundTrip | apps/affiliate/app/api/payouts/export/route.ts:91-92 | a quoted field followed by the rest of its line reads back as the field, then the rest |
| PayoutsExport.PlainFieldRoundTrip | apps/affiliate/app/api/payouts/export/route.ts:93 | an unquoted field without comma or quote followed by the rest of its line reads back as the field, then the rest |
| PayoutsExport.FieldRoundTrip | apps/affiliate/app/api/payouts/export/route.ts:90-94 | every field that reads back (no line break, a comma whenever there is a quote) is recovered from its line |
| PayoutsExport.LineRoundTrip | apps/affiliate/app/api/payouts/export/route.ts:89-94 | splitting a written line at unquoted commas and undoing doubled quotes recovers its fields |
| PayoutsExport.SplitJoinLines | apps/affiliate/app/api/payouts/export/route.ts:96 | splitting on LF undoes the LF join of lines that have none |
| PayoutsExport.LineReadsBack | apps/affiliate/app/api/payouts/export/route.ts:89-94 | a line of fields that read back has no line break and reads back as those fields |
| PayoutsExport.TableRoundTrip | apps/affiliate/app/api/payouts/export/route.ts:89-95 | every row's line is free of line breaks and the lines read back as the rows |
| PayoutsExport.CsvTextRoundTrip | apps/affiliate/app/api/payouts/export/route.ts:87-96 | with plain header names and fields that read back, the text reads back as the header names followed by the rows |
| PayoutsExport.CsvRoundTrip | apps/affiliate/app/api/payouts/export/route.ts:57-96 | for payouts whose fields read back, the CSV reads back as the header row followed by each payout's twelve fields, in order |
| PayoutsExport.Selected | apps/affiliate/app/api/payouts/export/route.ts:24-40 | the exported payouts are exactly those of the table for the month and, when given, the status |
| PayoutsExport.SelectedOne | apps/affiliate/app/api/payouts/export/route.ts:24-25 | a single row is exported exactly when it matches the month and status |
| PayoutsExport.SelectedConcat | apps/affiliate/app/api/payouts/export/route.ts:27-40 | the filter keeps the table's order: selecting from `a + b` is selecting from `a`, then from `b` |
| PayoutsExport.SelectedCount | apps/affiliate/app/api/payouts/export/route.ts:24-40 | a matching row is exported as many times as the table holds it, any other row never |
| PayoutsExport.SelectedKeepsOrder | apps/affiliate/app/api/payouts/export/route.ts:39 | an order that holds along the table, such as `createdAt` descending, holds along the export |
| PayoutsExport.ExportOutcome | apps/affiliate/app/api/payouts/export/route.ts:13-122 | an unauthenticated request gets 500 with the guard's message whatever its query; an authenticated one with a bad query 400; a good one the selected payouts as CSV under a month-and-status file name, or as JSON |
| PayoutsExport.Export | apps/affiliate/app/api/payouts/export/route.ts:13-122 | definition: the `GET` handler; stated by PayoutsExport.ExportOutcome |
| PayoutsExport.Filename | apps/affiliate/app/api/payouts/export/route.ts:98 | definition: the download name; stated by PayoutsExport.FilenameStarts |
| PayoutsExport.FilenameStarts | apps/affiliate/app/api/payouts/export/route.ts:98 | the file name starts `payouts_<month>_` and, without a status, is `payouts_<month>_all_<day>.csv` |
| LocalSeparate.TrimTrailingSlashes | apps/webapp/app/api/local/separate/route.ts:26 | the trimmed URL is a prefix of the URL, everything removed is a slash, and it does not end in a slash |
| LocalSeparate.StemKey | apps/webapp/app/api/local/separate/route.ts:58-59 | the residual stem is chosen exactly when `which` is "residual"; every other value, "target" or not, chooses the target stem |
| LocalSeparate.StemAudio | apps/webapp/app/api/local/separate/route.ts:60-61 | a stem is returned exactly when the chosen key holds a non-empty string, and it is that string |
| LocalSeparate.DropUnsafe | apps/webapp/app/api/local/separate/route.ts:70 | dropping the leading unsafe run never lengthens the text and leaves it starting with a safe character |
| LocalSeparate.ReplaceRuns | apps/webapp/app/api/local/separate/route.ts:70 | the replacement has only characters of `[\w.\-]`, is no longer than the input and is empty only for empty input |
| LocalSeparate.ValidationOutcome | apps/webapp/app/api/local/separate/route.ts:7-24 | the three 400 answers precede the worker call, in order: no worker URL, an unreadable form, no file entry; a 400 happens exactly in those cases |
| LocalSeparate.RequestShape | apps/webapp/app/api/local/separate/route.ts:26-34 | the worker gets the URL without trailing slashes plus "/sam_audio/separate", the file under its name, the description, the anchors only when not blank, and "false" and "0" for the two options |
| LocalSeparate.TrimTrailingSlashesFacts | apps/webapp/app/api/local/separate/route.ts:26 | a URL not ending in a slash is kept, and trimming is idempotent |
| LocalSeparate.TrimSlashesAppended | apps/webapp/app/api/local/separate/route.ts:26 | any number of trailing slashes is removed and nothing before them |
| LocalSeparate.Slashes | apps/webapp/app/api/local/separate/route.ts:26 | a run of n slashes has length n and holds only slashes |
| LocalSeparate.AnswerOutcome | apps/webapp/app/api/local/separate/route.ts:36-80 | a failed fetch, status or body gives 502; a missing, non-string or empty stem gives 502 "Worker did not return WAV base64"; otherwise the chosen stem is returned under the download name |
| LocalSeparate.Handle | apps/webapp/app/api/local/separate/route.ts:7-80 | definition: the `POST` handler; stated by LocalSeparate.ValidationOutcome, LocalSeparate.RequestShape and LocalSeparate.AnswerOutcome |
| LocalSeparate.BuildRequest | apps/webapp/app/api/local/separate/route.ts:26-34 | definition: the forwarded form; stated by LocalSeparate.RequestShape |
| LocalSeparate.ReplaceRunsUnsafe | apps/webapp/app/api/local/separate/route.ts:70 | a run of unsafe characters becomes one underscore |
| LocalSeparate.DropUnsafeRun | apps/webapp/app/api/local/separate/route.ts:70 | dropping the leading unsafe run removes exactly that run |
| LocalSeparate.ReplaceRunsSafe | apps/webapp/app/api/local/separate/route.ts:70 | safe characters are kept as they are, in place |
| LocalSeparate.SafeBaseFacts | apps/webapp/app/api/local/separate/route.ts:70 | the base name is 1 to 64 safe characters, "audio" for an empty name, the name itself when safe and short, and sanitising it again changes nothing |
| LocalSeparate.SafeBase | apps/webapp/app/api/local/separate/route.ts:70 | definition: the sanitised base name; stated by LocalSeparate.SafeBaseFacts |
| LocalSeparate.OutName | apps/webapp/app/api/local/separate/route.ts:70-71 | definition: the download name; stated by LocalSeparate.WhichUnsanitised |
| LocalSeparate.WhichUnsanitised | apps/webapp/app/api/local/separate/route.ts:70-77 | `which` reaches the download name unsanitised, so a quote in it lands inside the `filename="..."` parameter, while the base name never holds one |

## Left out

General:

- File, content-resolver, network and database I/O are left out. Each is a
  parameter or a value: `Media` scripts stand for the extractor and codec,
  maps and sequences for the tables, functions for the fetch, the JWT signer
  and checker and the bcrypt check.
- Latency measurements and the clock are left out. `now`, `since` and
  `nowIso` are parameters, so the date arithmetic of `setDate(-30)`
  (daylight-saving days included) is not modelled.
- Coroutines, `withContext`, `scope.launch` and main-thread hand-off are left
  out. The calls are modelled as sequential.
- Floating point is modelled as `real`, so rounding, NaN and infinities are
  left out. The exceptions are the NaN energy of an empty analysis and the
  explicit `toInt`/`toLong` truncations.
- `sqrt`, `log10` and `pow` are parameters that satisfy stated properties.
  The spectra are parameters too: the DFT magnitude spectrum, `calculateChroma`
  and the average spectrum's bins.
- Only ASCII letters are lower-cased. The models' inputs (vocabulary words,
  SoC markers, "Apple") are ASCII.
- `toLongOrNull` is modelled for ASCII digits only; other Unicode digits are
  left out.
- The TensorFlow Lite interpreters, GPU and NNAPI delegates are abstract
  handles whose outcomes are parameters. Only their lifecycle is modelled.
- Logging (`Log.d`, `console.error`) is left out.

Android:

- FloatArrayBuilders.FloatArrayBuilder.EnsureCapacity: requires
  `minCapacity <= 2^30` when the capacity does not already cover the
  request; a covered request of any size returns at once, as in the source.
  Past that bound a doubling can wrap to a negative `Int`, the floor of 8
  then restarts the cycle, and the source's growth loop need not end.
- FloatArrayBuilders.FloatArrayBuilder.Append and
  FloatArrayBuilders.FloatArrayBuilder.AppendAll: require the final size to
  stay within `2^30` when the buffer has to grow, for the same reason.
- AudioDecodeServices.DecodeToPcmFloat: requires a decoder script that ends
  and drains at most `2^30` samples. The source loops forever on a codec that
  never signals end-of-stream.
- AudioDecodeServices.EstimateInitialCapacityBounds and
  AudioDecodeServices.InterleavedFrames: state the exact values only where
  `sampleRate * 600 * channels` fits an `Int`.
- AudioDecodeServices.CapacityForBounds: the same restriction, for the
  estimate of a known duration.
- AudioDecodeServices.EstimateDurationExact: states the exact value only for
  sample counts that fit an `Int`, the only counts the builder holds.
- WavEncoder.HeaderArithmetic, WavEncoder.DataSizeExact and
  WavEncoder.DataSizeMatchesPayload: state the textbook values only where the
  header products fit an `Int`. The wrapped values are stated by
  WavEncoder.WavSizeFields and WavEncoder.WavFmtRateFields.
- The "Missing MIME type for audio track" branch is left out. A track
  reaches it only after `findFirstAudioTrack` has found its MIME type.
- The `?: 4410` fallbacks of the analyzer are left out: the map they default
  is never empty.
- `MediaFormat.getInteger` on a missing key is left out. The decoder's
  formats are modelled as carrying the keys they are read with.
- The native model files and asset loading are left out. The outcome of
  loading is a parameter.
- Only two parts of `VocalXApp.kt` are modelled: the span conversion and the
  Extract button (its enabled rule and the start of its click handler), plus
  the progress clamp these feed. The rest of the Compose UI, including the
  anchors text and the coroutine the click launches, is not part of this
  model.
- `logDeviceInfo` and the `Build` fields of `DeviceDetector.kt` are
  parameters.

Web:

- `createAdmin`, `hashPassword`, `verifyPassword` and `generateToken` are
  parameters. The JWT expiry is left out.
- Prisma's `Decimal` is `real`. The event ordering of the database's
  `createdAt` and the `orderBy` of the export are taken as given: the table
  sequences are in the database's order.
- PayoutsExport.Fixed2 writes every amount in fixed notation. JavaScript's
  `toFixed(2)` switches to exponent notation from 1e21 on; that case is left
  out.
- The JSON export's serialisation of each payout is left out. Only its
  selection, month and timestamp are modelled.
- `lib/utils` (`getCurrentMonthYear`) is not part of this model. The current
  month is a parameter.
- PayoutsExport.CsvRoundTrip and PayoutsExport.CsvTextRoundTrip: are stated
  for header names without special characters, which is what
  PayoutsExport.HeadersArePlain proves of `CSV_HEADERS`. They are also stated
  only for fields that read back: no line break, and a comma wherever there
  is a quote. The other fields are the subject of
  PayoutsExport.UnquotedWithoutComma and PayoutsExport.LineBreakInField.
- The webhook's `progress` being NaN is left out, and so are a non-string
  `jobId`, `error` or `outputS3Key`, which the database layer would reject,
  and Prisma's column coercions. `new Date()` is the parameter `now`.
- Commission.UpdateAffiliateTier: stores the corrected tier and rate of
  `IntendedTierAndRate`, not the pair of the written lookups. The two differ
  only for a 30-day revenue no tier holds: the written code stores
  ("platinum", 15) where the model stores ("silver", 15). The written pair
  is `AsWrittenTierAndRate`, and Commission.TierUpdateAgainstAsWritten and
  Commission.CommissionEventEffect state where they differ.
- The proxy's fetch is a parameter that returns one of four outcomes. The
  base64 decoding of the chosen stem, the multipart encoding, the JSON error
  `details`, and form keys given more than once are left out.

## Findings

| source | as written | input that shows it | evidently intended | confidence | as-written member | corrected member |
|---|---|---|---|---|---|---|
| legacy/android-native/app/src/main/java/com/vocalx/ui/screens/VocalXApp.kt:201 | a blank end field becomes `Long.MAX_VALUE * 1000L`, which wraps to -1000 ms; `clampSpanMs` then swaps the ends, so the span processed is [0, start] | span switch on, start "5", end "" (the field's placeholder says "blank = end") | a blank end means the end of the file: [5000 ms, duration] | not executed | SpanPrompt.BlankEndWraps | SpanPrompt.IntendedBlankEndIsTail |
| apps/affiliate/lib/commission.ts:19 | `calculateCommissionRate` and `getTierName` each `reverse()` the shared `COMMISSION_TIERS` in place; for a revenue no tier holds, the fallback `COMMISSION_TIERS[0]` is read after the reversal, so `updateAffiliateTier` stores the tier name "platinum" with rate 15 | a 30-day revenue of 999.5, 4999.5, or a negative one after a refund | the "Default to silver" fallback: name and rate of one tier, silver for uncovered revenues | not executed | Commission.AsWrittenMismatch | Commission.IntendedTierConsistent |
