/** The on-device separation model: its lifecycle fields, the inference call
    (an abstract run with a length contract) and peak normalisation of the
    output. Inference failures never propagate; they become a zero buffer and
    `success = false`. */
module SamAudio {
  import opened Wrappers
  import opened Samples
  import opened AudioRecords

  /** A native object held by the manager (model buffer, interpreter or
      delegate), told apart by when it was created. */
  datatype Handle = Handle(id: nat)

  /** What constructing and installing one delegate does: the constructor
      throws, the constructor succeeds but `addDelegate` throws, or both
      succeed. */
  datatype DelegateOutcome = Unavailable | Rejected | Added

  /** The environment of one `initializeModel` call. */
  datatype InitEnvironment = InitEnvironment(
    load: Result<(), Option<string>>,
    gpu: DelegateOutcome,
    nnApi: DelegateOutcome,
    interpreter: Result<(), Option<string>>)

  /** What one `runForMultipleInputsOutputs` call does. */
  datatype RunOutcome = Filled(output: seq<real>) | Threw(message: Option<string>)

  const DEVICE_TYPE: string := "on-device"

  /** `normalizeAudio`: divide by the peak magnitude when it is positive; the
      peak of an empty array is taken to be 1. */
  function NormalizedAudio(audio: seq<real>): (r: seq<real>)
    ensures |r| == |audio|
  {
    var peak := if |audio| == 0 then 1.0 else MaxAbs(audio);
    if peak > 0.0 then DivideAll(audio, peak) else audio
  }

  /** A silent (or empty) signal is returned unchanged. */
  lemma NormalizedAudioSilent(audio: seq<real>)
    requires MaxAbs(audio) == 0.0
    ensures NormalizedAudio(audio) == audio
  {
    if |audio| == 0 {
      assert DivideAll(audio, 1.0) == audio;
    }
  }

  /** Any other signal is divided by its peak and then peaks at exactly 1. */
  lemma NormalizedAudioPeak(audio: seq<real>)
    requires MaxAbs(audio) > 0.0
    ensures forall i :: 0 <= i < |audio| ==> NormalizedAudio(audio)[i] == audio[i] / MaxAbs(audio)
    ensures MaxAbs(NormalizedAudio(audio)) == 1.0
  {
    var peak := MaxAbs(audio);
    assert |audio| > 0;
    var q := DivideAll(audio, peak);
    assert NormalizedAudio(audio) == q;
    MaxAbsDivide(audio, peak);
    MulQuotientOne(peak);
  }

  lemma MulQuotientOne(p: real)
    requires p > 0.0
    ensures p / p == 1.0
  {
  }

  /** After normalisation every sample lies in [-1, 1]. */
  lemma NormalizedAudioInRange(audio: seq<real>)
    ensures forall i :: 0 <= i < |audio| ==> -1.0 <= NormalizedAudio(audio)[i] <= 1.0
  {
    MaxAbsIsPeak(NormalizedAudio(audio));
    if MaxAbs(audio) > 0.0 {
      NormalizedAudioPeak(audio);
    } else {
      NormalizedAudioSilent(audio);
      MaxAbsIsPeak(audio);
    }
  }

  /** `processAudio` as a value: `interpreter` is the field, `outcome` what
      the run does (ignored when there is no interpreter, in which case the
      zero-filled output buffer is read back). */
  function Processed(interpreter: Option<Handle>, audioData: seq<real>, outcome: RunOutcome,
                     latencyMs: int): AudioSeparationResult
    requires outcome.Filled? ==> |outcome.output| == |audioData|
  {
    if interpreter.None? then
      AudioSeparationResult(NormalizedAudio(Zeros(|audioData|)), latencyMs, DEVICE_TYPE, true, None)
    else match outcome
      case Filled(output) =>
        AudioSeparationResult(NormalizedAudio(output), latencyMs, DEVICE_TYPE, true, None)
      case Threw(message) =>
        AudioSeparationResult(Zeros(|audioData|), latencyMs, DEVICE_TYPE, false, message)
  }

  /** The separated signal always has the input's length; a failed run is
      reported with its message over a zero buffer, and a run without an
      interpreter succeeds with zeros. */
  lemma ProcessedShape(interpreter: Option<Handle>, audioData: seq<real>, outcome: RunOutcome,
                       latencyMs: int)
    requires outcome.Filled? ==> |outcome.output| == |audioData|
    ensures var r := Processed(interpreter, audioData, outcome, latencyMs);
      |r.separatedAudio| == |audioData| && r.deviceType == "on-device" && r.latencyMs == latencyMs &&
      (r.success <==> interpreter.None? || outcome.Filled?) &&
      (r.success ==> r.error == None) &&
      (!r.success ==> r.error == outcome.message && r.separatedAudio == Zeros(|audioData|)) &&
      (interpreter.None? ==> r.separatedAudio == Zeros(|audioData|))
  {
    MaxAbsZero(Zeros(|audioData|));
    NormalizedAudioSilent(Zeros(|audioData|));
  }

  /** A successful result is peak-normalised: silent or peaking at exactly 1. */
  lemma ProcessedPeak(interpreter: Option<Handle>, audioData: seq<real>, outcome: RunOutcome,
                      latencyMs: int)
    requires outcome.Filled? ==> |outcome.output| == |audioData|
    requires Processed(interpreter, audioData, outcome, latencyMs).success
    ensures var p := MaxAbs(Processed(interpreter, audioData, outcome, latencyMs).separatedAudio);
      p == 0.0 || p == 1.0
  {
    var signal := if interpreter.None? then Zeros(|audioData|) else outcome.output;
    if MaxAbs(signal) > 0.0 {
      NormalizedAudioPeak(signal);
    } else {
      NormalizedAudioSilent(signal);
    }
  }

  class SamAudioModelManager {
    var modelBuffer: Option<Handle>
    var interpreter: Option<Handle>
    var gpuDelegate: Option<Handle>
    var nnApiDelegate: Option<Handle>
    /** Native objects created so far; the next one gets this id. */
    var created: nat
    /** Every `close()` call, in order. */
    var closed: seq<Handle>

    /** Every handle in a field was created before the next id. */
    ghost predicate Valid()
      reads this
    {
      Before(modelBuffer, created) && Before(interpreter, created) &&
      Before(gpuDelegate, created) && Before(nnApiDelegate, created)
    }

    constructor ()
      ensures Valid()
      ensures modelBuffer == None && interpreter == None
      ensures gpuDelegate == None && nnApiDelegate == None
      ensures created == 0 && closed == []
    {
      modelBuffer := None;
      interpreter := None;
      gpuDelegate := None;
      nnApiDelegate := None;
      created := 0;
      closed := [];
    }

    /** Create the next native object. */
    method Create() returns (h: Handle)
      requires Valid()
      modifies this
      ensures Valid()
      ensures h == Handle(old(created)) && created == old(created) + 1
      ensures modelBuffer == old(modelBuffer) && interpreter == old(interpreter)
      ensures gpuDelegate == old(gpuDelegate) && nnApiDelegate == old(nnApiDelegate)
      ensures closed == old(closed)
    {
      h := Handle(created);
      created := created + 1;
    }

    /** `initializeModel`. A failed model load changes nothing; delegate
        failures are swallowed (a delegate whose constructor succeeded stays
        in its field even when `addDelegate` throws); a failed interpreter
        construction keeps the fields set so far. Both failures are rethrown
        with a prefixed message. */
    method InitializeModel(env: InitEnvironment) returns (r: Result<(), string>)
      requires Valid()
      modifies this
      ensures Valid() && closed == old(closed) && old(created) <= created
      ensures env.load.Err? ==>
        r == Err("Failed to initialize SAM-Audio model: " + MessageText(env.load.error)) &&
        modelBuffer == old(modelBuffer) && interpreter == old(interpreter) &&
        gpuDelegate == old(gpuDelegate) && nnApiDelegate == old(nnApiDelegate) &&
        created == old(created)
      ensures env.load.Ok? ==> modelBuffer == Some(Handle(old(created)))
      ensures env.load.Ok? ==> NewOrKept(gpuDelegate, old(gpuDelegate), env.gpu != Unavailable, old(created))
      ensures env.load.Ok? ==> NewOrKept(nnApiDelegate, old(nnApiDelegate), env.nnApi != Unavailable, old(created))
      ensures env.load.Ok? && env.interpreter.Err? ==>
        r == Err("Failed to initialize SAM-Audio model: " + MessageText(env.interpreter.error)) &&
        interpreter == old(interpreter)
      ensures env.load.Ok? && env.interpreter.Ok? ==>
        r == Ok(()) && NewOrKept(interpreter, old(interpreter), true, old(created))
    {
      if env.load.Err? {
        return Err("Failed to initialize SAM-Audio model: " + MessageText(env.load.error));
      }
      var buffer := Create();
      modelBuffer := Some(buffer);
      AddDelegates(env);
      if env.interpreter.Err? {
        return Err("Failed to initialize SAM-Audio model: " + MessageText(env.interpreter.error));
      }
      var made := Create();
      interpreter := Some(made);
      r := Ok(());
    }

    /** The two best-effort delegate blocks of `initializeModel`: a delegate
        whose constructor succeeds is stored, whatever `addDelegate` does. */
    method AddDelegates(env: InitEnvironment)
      requires Valid()
      modifies this
      ensures Valid() && closed == old(closed) && old(created) <= created
      ensures modelBuffer == old(modelBuffer) && interpreter == old(interpreter)
      ensures NewOrKept(gpuDelegate, old(gpuDelegate), env.gpu != Unavailable, old(created))
      ensures NewOrKept(nnApiDelegate, old(nnApiDelegate), env.nnApi != Unavailable, old(created))
    {
      if env.gpu != Unavailable {
        var gpu := Create();
        gpuDelegate := Some(gpu);
      }
      if env.nnApi != Unavailable {
        var nnApi := Create();
        nnApiDelegate := Some(nnApi);
      }
    }

    /** `processAudio`: never throws. */
    method ProcessAudio(audioData: seq<real>, queryEmbedding: seq<real>, outcome: RunOutcome,
                        latencyMs: int) returns (result: AudioSeparationResult)
      requires outcome.Filled? ==> |outcome.output| == |audioData|
      ensures result == Processed(interpreter, audioData, outcome, latencyMs)
    {
      var outputArray := Zeros(|audioData|);
      if interpreter.Some? {
        match outcome
        case Threw(message) =>
          return AudioSeparationResult(Zeros(|audioData|), latencyMs, DEVICE_TYPE, false, message);
        case Filled(output) =>
          outputArray := output;
      }
      var normalized := NormalizedAudio(outputArray);
      result := AudioSeparationResult(normalized, latencyMs, DEVICE_TYPE, true, None);
    }

    /** `release`: closes the interpreter and both delegates that are present,
        in that order, and clears nothing. */
    method Release()
      requires Valid()
      modifies this
      ensures Valid()
      ensures modelBuffer == old(modelBuffer) && interpreter == old(interpreter)
      ensures gpuDelegate == old(gpuDelegate) && nnApiDelegate == old(nnApiDelegate)
      ensures created == old(created)
      ensures closed == old(closed) + Present(interpreter) + Present(gpuDelegate) + Present(nnApiDelegate)
    {
      closed := closed + Present(interpreter);
      closed := closed + Present(gpuDelegate);
      closed := closed + Present(nnApiDelegate);
    }
  }

  predicate Before(h: Option<Handle>, created: nat)
  {
    h.Some? ==> h.value.id < created
  }

  /** A field that now holds an object created after `mark` when `replaced`,
      and is unchanged otherwise. */
  predicate NewOrKept(now: Option<Handle>, was: Option<Handle>, replaced: bool, mark: nat)
  {
    if replaced then now.Some? && now.value.id >= mark else now == was
  }

  /** The handle in an optional field, as a list of zero or one. */
  function Present(h: Option<Handle>): (r: seq<Handle>)
    ensures h.Some? ==> r == [h.value]
    ensures h.None? ==> r == []
  {
    if h.Some? then [h.value] else []
  }
}
