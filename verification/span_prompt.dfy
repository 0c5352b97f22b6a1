/** The span prompt of the main screen: two second fields turned into a
    millisecond range, the Extract button's enabled rule and click guard,
    and the progress value shown when a run ends. */
module SpanPrompt {
  import opened Wrappers
  import opened JvmInt
  import opened Samples
  import opened Text
  import SeparationPipeline
  import AudioDecodeServices
  import WavEncoder

  type Span = SeparationPipeline.Span

  // ------------------------------------------------------ toLongOrNull

  /** Kotlin's `String.toLongOrNull()` for ASCII digits: an optional sign and
      at least one digit, whose value must fit in a `Long`. */
  function ParseLong(s: string): (r: Option<int>)
    ensures r.Some? ==> IsLong(r.value)
    ensures |s| == 0 ==> r.None?
    ensures (forall i :: 0 <= i < |s| ==> !IsDigit(s[i])) ==> r.None?
  {
    if |s| == 0 then None
    else if s[0] == '-' || s[0] == '+' then
      var digits := s[1..];
      if |digits| == 0 || !AllDigits(digits) then None
      else
        var v := if s[0] == '-' then -(DigitsValue(digits) as int) else DigitsValue(digits);
        if IsLong(v) then Some(v) else None
    else if !AllDigits(s) then None
    else
      var v := DigitsValue(s);
      if IsLong(v) then Some(v) else None
  }

  /** Parsing the decimal text of any `Long` gives it back, with or without
      a sign. */
  lemma ParseLongRoundTrip(n: int)
    requires IsLong(n)
    ensures n >= 0 ==> ParseLong(Decimal(n)) == Some(n)
    ensures n >= 0 ==> ParseLong("+" + Decimal(n)) == Some(n)
    ensures ParseLong("-" + Decimal(if n < 0 then -n else n)) == Some(if n < 0 then n else -n)
  {
    var m: nat := if n < 0 then -n else n;
    DigitsValueOfDecimal(m);
    var d := Decimal(m);
    assert ("-" + d)[1..] == d;
    assert ("+" + d)[1..] == d;
    if n >= 0 {
      assert d[0] != '-' && d[0] != '+';
    }
  }

  // ------------------------------------------------------ span text

  /** `coerceAtLeast(0) * 1000L` in 64-bit arithmetic. */
  function SecondsToMs(sec: int): int
  {
    Wrap64((if sec < 0 then 0 else sec) * 1000)
  }

  /** The `spanMs` computed when Extract is pressed: no span with the switch
      off; a start that does not parse is 0 and an end that does not parse is
      `Long.MAX_VALUE` seconds, both scaled to milliseconds with wrap-around. */
  function SpanMs(enabled: bool, startText: string, endText: string): (r: Option<Span>)
    ensures !enabled ==> r.None?
    ensures enabled ==> r.Some? && IsLong(r.value.first) && IsLong(r.value.last)
  {
    if !enabled then None
    else
      var startSec := if ParseLong(startText).Some? then ParseLong(startText).value else 0;
      var endSec := if ParseLong(endText).Some? then ParseLong(endText).value else LONG_MAX;
      Some(SeparationPipeline.Span(SecondsToMs(startSec), SecondsToMs(endSec)))
  }

  /** Typed non-negative seconds below about 292 million years are scaled
      exactly; negative ones become 0. */
  lemma SpanMsExact(startText: string, endText: string, s: int, e: int)
    requires ParseLong(startText) == Some(s) && ParseLong(endText) == Some(e)
    requires s * 1000 <= LONG_MAX && e * 1000 <= LONG_MAX
    ensures SpanMs(true, startText, endText) ==
      Some(SeparationPipeline.Span(if s < 0 then 0 else s * 1000, if e < 0 then 0 else e * 1000))
  {
  }

  /** A start that does not parse counts as 0. */
  lemma UnparsedStartIsZero(startText: string, endText: string)
    requires ParseLong(startText).None?
    ensures SpanMs(true, startText, endText).value.first == 0
  {
  }

  /** As written, a blank (or non-numeric) end is `Long.MAX_VALUE * 1000`,
      which wraps to -1000 ms. */
  lemma BlankEndWraps(startText: string, endText: string)
    requires ParseLong(endText).None?
    ensures SpanMs(true, startText, endText).value.last == -1000
  {
    assert LONG_MAX * 1000 - (-1000) == 1000 * 0x8000_0000_0000_0000;
  }

  /** Through `clampSpanMs` a blank end and a start of `S` seconds process
      [0, min(S s, duration)] rather than [S s, end], and a start of 0 drops
      the span: the whole file is processed. */
  lemma BlankEndSpanApplied(startText: string, endText: string, s: int, durationMs: int)
    requires ParseLong(startText) == Some(s) && ParseLong(endText).None?
    requires 0 <= s && s * 1000 <= LONG_MAX && durationMs > 0
    ensures s == 0 ==> SeparationPipeline.AppliedSpan(SpanMs(true, startText, endText), durationMs) == None
    ensures s > 0 ==>
      (SeparationPipeline.AppliedSpan(SpanMs(true, startText, endText), durationMs) ==
       Some(SeparationPipeline.Span(0, if s * 1000 < durationMs then s * 1000 else durationMs)))
  {
    BlankEndWraps(startText, endText);
  }

  /** `coerceAtLeast(0) * 1000L`, saturating at `Long.MAX_VALUE` instead of
      wrapping. */
  function SecondsToMsSaturating(sec: int): (r: int)
    ensures 0 <= r <= LONG_MAX
    ensures 0 <= sec && sec * 1000 <= LONG_MAX ==> r == sec * 1000
  {
    var ms := (if sec < 0 then 0 else sec) * 1000;
    if ms > LONG_MAX then LONG_MAX else ms
  }

  /** The span as the "blank = end" placeholder intends it: a missing end is
      the end of the file. */
  function IntendedSpanMs(enabled: bool, startText: string, endText: string): (r: Option<Span>)
    ensures !enabled ==> r.None?
    ensures enabled ==> r.Some? && 0 <= r.value.first && 0 <= r.value.last
    ensures enabled && ParseLong(endText).None? ==> r.value.last == LONG_MAX
  {
    if !enabled then None
    else
      var startSec := if ParseLong(startText).Some? then ParseLong(startText).value else 0;
      var end := if ParseLong(endText).Some? then SecondsToMsSaturating(ParseLong(endText).value) else LONG_MAX;
      Some(SeparationPipeline.Span(SecondsToMsSaturating(startSec), end))
  }

  /** With the intended conversion a blank end and a start inside the file
      process exactly [start, duration]; wherever the written conversion does
      not overflow the two agree. */
  lemma IntendedBlankEndIsTail(startText: string, endText: string, s: int, durationMs: int)
    requires ParseLong(startText) == Some(s) && ParseLong(endText).None?
    requires 0 <= s && s * 1000 < durationMs <= LONG_MAX
    ensures SeparationPipeline.AppliedSpan(IntendedSpanMs(true, startText, endText), durationMs) ==
      Some(SeparationPipeline.Span(s * 1000, durationMs))
  {
  }

  lemma IntendedAgreesWithoutOverflow(startText: string, endText: string, s: int, e: int)
    requires ParseLong(startText) == Some(s) && ParseLong(endText) == Some(e)
    requires s * 1000 <= LONG_MAX && e * 1000 <= LONG_MAX
    ensures IntendedSpanMs(true, startText, endText) == SpanMs(true, startText, endText)
  {
  }

  // ------------------------------------------------------ button, progress

  /** The Extract button's `enabled` rule. */
  predicate ExtractEnabled(query: string, fileSelected: bool, isProcessing: bool)
  {
    |query| > 0 && fileSelected && !isProcessing
  }

  /** The screen state the Extract button reads and its click handler
      writes; the selected file is its URI text. */
  datatype Screen = Screen(
    query: string,
    selectedUri: Option<string>,
    isProcessing: bool,
    lastError: Option<string>,
    outputFile: Option<string>,
    progress: real)

  predicate Enabled(s: Screen)
  {
    ExtractEnabled(s.query, s.selectedUri.Some?, s.isProcessing)
  }

  /** What a click does: nothing when no file is selected
      (`selectedUri ?: return@Button`), otherwise a run on that file from a
      screen marked busy with the old error, output and progress cleared. */
  datatype Press = Ignored | Started(uri: string, screen: Screen)

  function OnExtract(s: Screen): Press
  {
    if s.selectedUri.None? then Ignored
    else Started(s.selectedUri.value,
                 s.(isProcessing := true, lastError := None, outputFile := None, progress := 0.0))
  }

  /** A click on the enabled button always starts a run: the early return
      cannot fire, the run gets the selected file, and the cleared screen
      keeps the query. The started screen disables the button, so a second
      click cannot start a second run until the first one ends. The early
      return fires exactly without a file, when the button is disabled. */
  lemma ExtractPress(s: Screen)
    ensures Enabled(s) ==>
      var p := OnExtract(s);
      p.Started? && Some(p.uri) == s.selectedUri &&
      p.screen.query == s.query && p.screen.selectedUri == s.selectedUri &&
      p.screen.isProcessing && p.screen.lastError.None? && p.screen.outputFile.None? &&
      p.screen.progress == 0.0 && !Enabled(p.screen)
    ensures OnExtract(s).Ignored? <==> s.selectedUri.None?
    ensures OnExtract(s).Ignored? ==> !Enabled(s)
  {
  }

  /** The progress shown once a run ends: the last value reported (0 before
      any report), clamped into [0, 1]. */
  function FinalProgress(reported: seq<real>): (r: real)
    ensures 0.0 <= r <= 1.0
    ensures |reported| == 0 ==> r == 0.0
  {
    var last := if |reported| == 0 then 0.0 else reported[|reported| - 1];
    Clamp(last, 0.0, 1.0)
  }

  /** After a successful run over a non-empty input the screen shows 1; over
      an empty input, or when the run fails before inference, it shows 0. */
  lemma FinalProgressOfRun(media: AudioDecodeServices.Media, embedding: seq<real>,
                           spanMs: Option<Span>, infer: SeparationPipeline.Inference, fileName: string,
                           existing: seq<WavEncoder.Byte>)
    requires SeparationPipeline.KeepsLength(infer)
    ensures var run := SeparationPipeline.Pipeline(media, embedding, spanMs, infer, fileName, existing);
      var prep := SeparationPipeline.Prepare(media, spanMs);
      (prep.Err? ==> FinalProgress(run.progress) == 0.0) &&
      (prep.Ok? && |prep.value.input| == 0 ==> FinalProgress(run.progress) == 0.0) &&
      (prep.Ok? && |prep.value.input| > 0 && run.result.Ok? ==> FinalProgress(run.progress) == 1.0)
  {
    var run := SeparationPipeline.Pipeline(media, embedding, spanMs, infer, fileName, existing);
    SeparationPipeline.PipelineProgress(media, embedding, spanMs, infer, fileName, existing);
    var prep := SeparationPipeline.Prepare(media, spanMs);
    if prep.Ok? {
      var chunks := SeparationPipeline.Chunks(prep.value.input, embedding, infer, 0);
      SeparationPipeline.ProgressComplete(prep.value.input, embedding, infer);
      if |prep.value.input| > 0 && run.result.Ok? {
        assert run.progress[|run.progress| - 1] == chunks.progress[|chunks.progress| - 1];
      }
    }
  }
}
