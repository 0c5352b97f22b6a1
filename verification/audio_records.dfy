/** The record types passed between the decoder, the model manager, the
    pipeline and the analyzer. `FloatArray` fields are value sequences here:
    none of the modelled code mutates an array after placing it in a record. */
module AudioRecords {
  import opened Wrappers
  import opened Samples

  /** An exception message as a Kotlin string template renders it: a null
      message prints as "null". */
  function MessageText(message: Option<string>): (r: string)
    ensures message.Some? ==> r == message.value
    ensures message.None? ==> r == "null"
  {
    match message
    case Some(m) => m
    case None => "null"
  }

  /** Decoded PCM in float samples, interleaved when `channelCount > 1`. */
  datatype DecodedAudio = DecodedAudio(
    samples: seq<real>,
    sampleRateHz: int,
    channelCount: int,
    durationMs: int,
    mimeType: Option<string>)

  /** The outcome of one inference call. */
  datatype AudioSeparationResult = AudioSeparationResult(
    separatedAudio: seq<real>,
    latencyMs: int,
    deviceType: string,
    success: bool,
    error: Option<string>)

  /** The features reported by the analyzer. */
  datatype AudioAnalysis = AudioAnalysis(
    fileId: int,
    bpm: real,
    key: string,
    energyLevel: Float,
    danceability: real,
    acousticness: real,
    instrumentalness: real,
    loudness: real,
    speechiness: real,
    valence: real,
    tempo: real,
    timeSignature: string)
}
