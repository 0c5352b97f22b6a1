/** The web app's local separation proxy: the checks on the request, the
    form it forwards to the local worker, the stem it picks from the
    worker's answer, and the download name. The worker call is a
    parameter. */
module LocalSeparate {
  import opened Wrappers

  // ------------------------------------------------------------ request

  /** A form entry: text, or an uploaded file with its name. */
  datatype FormValue = TextValue(text: string) | FileValue(name: string)

  /** `String(form.get(key) ?? fallback)`: a file entry stringifies as
      "[object File]". */
  function FieldText(form: map<string, FormValue>, key: string, fallback: string): string
  {
    if key !in form then fallback
    else match form[key]
      case TextValue(t) => t
      case FileValue(_) => "[object File]"
  }

  /** The characters `String.prototype.trim` removes: the white space and
      line terminators of ECMAScript. */
  predicate IsJsSpace(c: char)
  {
    c == '\t' || c == '\n' || c == '\U{000B}' || c == '\U{000C}' || c == '\r' || c == ' ' ||
    c == '\U{00A0}' || c == '\U{1680}' || '\U{2000}' <= c <= '\U{200A}' || c == '\U{2028}' ||
    c == '\U{2029}' || c == '\U{202F}' || c == '\U{205F}' || c == '\U{3000}' || c == '\U{FEFF}'
  }

  /** `s.trim()` is empty. */
  predicate Blank(s: string)
  {
    forall i :: 0 <= i < |s| ==> IsJsSpace(s[i])
  }

  /** `replace(/\/+$/, "")`: the URL without its trailing slashes. */
  function TrimTrailingSlashes(url: string): (r: string)
    ensures |r| <= |url| && r == url[..|r|]
    ensures forall i :: |r| <= i < |url| ==> url[i] == '/'
    ensures |r| == 0 || r[|r| - 1] != '/'
  {
    if |url| == 0 || url[|url| - 1] != '/' then url else TrimTrailingSlashes(url[..|url| - 1])
  }

  const SEPARATE_PATH: string := "/sam_audio/separate"

  /** The multipart form sent to the worker, with the file passed through by
      name. */
  datatype WorkerRequest = WorkerRequest(
    url: string,
    audioName: string,
    description: string,
    anchorsJson: Option<string>,
    predictSpans: string,
    rerankingCandidates: string)

  function BuildRequest(workerUrl: string, fileName: string, form: map<string, FormValue>): WorkerRequest
  {
    var anchors := FieldText(form, "anchorsJson", "");
    WorkerRequest(TrimTrailingSlashes(workerUrl) + SEPARATE_PATH, fileName,
                  FieldText(form, "description", ""),
                  if Blank(anchors) then None else Some(anchors),
                  "false", "0")
  }

  // ------------------------------------------------------------ worker answer

  /** A JSON value in the worker's answer: a string, or anything else. */
  datatype JsonValue = JString(s: string) | JOther

  /** What the worker call comes to: the fetch threw, the status was not
      2xx, the body was not JSON with a truthy `ok`, or the body's fields. */
  datatype WorkerOutcome =
    | Unreachable
    | HttpFailure
    | InvalidResponse
    | Answer(fields: map<string, JsonValue>)

  /** `which === "residual"` picks the residual stem; every other value,
      "target" or not, the target stem. */
  function StemKey(which: string): (key: string)
    ensures key == "residual_wav_base64" <==> which == "residual"
    ensures key == "target_wav_base64" <==> which != "residual"
  {
    if which == "residual" then "residual_wav_base64" else "target_wav_base64"
  }

  /** The base64 WAV of the chosen stem: present, a string, not empty. */
  function StemAudio(fields: map<string, JsonValue>, which: string): (r: Option<string>)
    ensures r.Some? <==> StemKey(which) in fields && fields[StemKey(which)].JString? && |fields[StemKey(which)].s| > 0
    ensures r.Some? ==> fields[StemKey(which)] == JString(r.value)
  {
    var key := StemKey(which);
    if key in fields && fields[key].JString? && |fields[key].s| > 0 then Some(fields[key].s) else None
  }

  // ------------------------------------------------------------ download name

  /** The characters of `[\w.\-]`: ASCII letters and digits, `_`, `.` and
      `-`. */
  predicate SafeChar(c: char)
  {
    'A' <= c <= 'Z' || 'a' <= c <= 'z' || '0' <= c <= '9' || c == '_' || c == '.' || c == '-'
  }

  predicate Safe(s: string)
  {
    forall i :: 0 <= i < |s| ==> SafeChar(s[i])
  }

  /** `s` without its leading run of unsafe characters. */
  function DropUnsafe(s: string): (r: string)
    ensures |r| <= |s|
    ensures |r| > 0 ==> SafeChar(r[0])
  {
    if |s| == 0 || SafeChar(s[0]) then s else DropUnsafe(s[1..])
  }

  /** `replace(/[^\w.\-]+/g, "_")`: each run of unsafe characters becomes
      one underscore. */
  function ReplaceRuns(s: string): (r: string)
    ensures Safe(r) && |r| <= |s| && (|r| == 0 <==> |s| == 0)
    decreases |s|
  {
    if |s| == 0 then ""
    else if SafeChar(s[0]) then [s[0]] + ReplaceRuns(s[1..])
    else "_" + ReplaceRuns(DropUnsafe(s[1..]))
  }

  /** `(name || "audio").replace(...).slice(0, 64)`. */
  function SafeBase(name: string): string
  {
    var r := ReplaceRuns(if name == "" then "audio" else name);
    if |r| <= 64 then r else r[..64]
  }

  /** The download name, with `which` as given. */
  function OutName(name: string, which: string): string
  {
    SafeBase(name) + "." + which + ".wav"
  }

  // ------------------------------------------------------------ handler

  datatype Reply =
    | ErrorReply(status: int, message: string)
    | Wav(base64: string, filename: string)

  /** `POST`: `workerUrl` is `LOCAL_WORKER_URL` (`None` when unset), `form`
      the parsed form (`None` when it cannot be read) and `worker` the
      call to the worker. */
  function Handle(workerUrl: Option<string>, form: Option<map<string, FormValue>>,
                  worker: WorkerRequest -> WorkerOutcome): Reply
  {
    if workerUrl.None? || workerUrl.value == "" then ErrorReply(400, "LOCAL_WORKER_URL is not configured")
    else if form.None? then ErrorReply(400, "Invalid form data")
    else
      var f := form.value;
      var which := FieldText(f, "which", "target");
      if "file" !in f || !f["file"].FileValue? then ErrorReply(400, "Missing file")
      else
        var name := f["file"].name;
        match worker(BuildRequest(workerUrl.value, name, f))
        case Unreachable => ErrorReply(502, "Worker unreachable")
        case HttpFailure => ErrorReply(502, "Worker error")
        case InvalidResponse => ErrorReply(502, "Worker returned invalid response")
        case Answer(fields) =>
          var audio := StemAudio(fields, which);
          if audio.None? then ErrorReply(502, "Worker did not return WAV base64")
          else Wav(audio.value, OutName(name, which))
  }

  // ---------------------------------------------------------- properties

  /** The three 400 answers come before the worker is asked, in this order:
      no worker URL, an unreadable form, no file entry. */
  lemma ValidationOutcome(workerUrl: Option<string>, form: Option<map<string, FormValue>>,
                          worker: WorkerRequest -> WorkerOutcome)
    ensures (workerUrl.None? || workerUrl.value == "") <==>
      Handle(workerUrl, form, worker) == ErrorReply(400, "LOCAL_WORKER_URL is not configured")
    ensures workerUrl.Some? && workerUrl.value != "" && form.None? ==>
      Handle(workerUrl, form, worker) == ErrorReply(400, "Invalid form data")
    ensures workerUrl.Some? && workerUrl.value != "" && form.Some? && ("file" !in form.value || form.value["file"].TextValue?)
      ==> Handle(workerUrl, form, worker) == ErrorReply(400, "Missing file")
    ensures Handle(workerUrl, form, worker).ErrorReply? && Handle(workerUrl, form, worker).status == 400 <==>
      workerUrl.None? || workerUrl.value == "" || form.None? ||
      "file" !in form.value || form.value["file"].TextValue?
  {
  }

  /** The worker is sent the URL without trailing slashes plus the separate
      path, the description, the anchors only when they are not blank, and
      the fixed "false" and "0" options. */
  lemma RequestShape(workerUrl: string, fileName: string, form: map<string, FormValue>)
    ensures var r := BuildRequest(workerUrl, fileName, form);
      r.url == TrimTrailingSlashes(workerUrl) + "/sam_audio/separate" &&
      r.audioName == fileName && r.description == FieldText(form, "description", "") &&
      (r.anchorsJson.Some? <==> !Blank(FieldText(form, "anchorsJson", ""))) &&
      (r.anchorsJson.Some? ==> r.anchorsJson.value == FieldText(form, "anchorsJson", "")) &&
      r.predictSpans == "false" && r.rerankingCandidates == "0"
  {
  }

  /** Trimming keeps a URL that does not end in a slash, and trimming twice
      is trimming once. */
  lemma TrimTrailingSlashesFacts(url: string)
    ensures |url| == 0 || url[|url| - 1] != '/' ==> TrimTrailingSlashes(url) == url
    ensures TrimTrailingSlashes(TrimTrailingSlashes(url)) == TrimTrailingSlashes(url)
  {
  }

  /** Any number of trailing slashes is removed, and nothing before them. */
  lemma {:induction false} TrimSlashesAppended(base: string, n: nat)
    requires |base| == 0 || base[|base| - 1] != '/'
    ensures TrimTrailingSlashes(base + Slashes(n)) == base
    decreases n
  {
    if n > 0 {
      var s := base + Slashes(n);
      assert s[..|s| - 1] == base + Slashes(n - 1);
      TrimSlashesAppended(base, n - 1);
    } else {
      assert base + Slashes(0) == base;
    }
  }

  function Slashes(n: nat): (r: string)
    ensures |r| == n && forall i :: 0 <= i < n ==> r[i] == '/'
  {
    if n == 0 then "" else Slashes(n - 1) + "/"
  }

  /** A missing, non-string or empty stem is answered 502; otherwise the
      chosen stem is returned under the download name. */
  lemma AnswerOutcome(workerUrl: Option<string>, form: Option<map<string, FormValue>>,
                      worker: WorkerRequest -> WorkerOutcome)
    requires workerUrl.Some? && workerUrl.value != "" && form.Some?
    requires "file" in form.value && form.value["file"].FileValue?
    ensures var f := form.value;
      var name := f["file"].name;
      var which := FieldText(f, "which", "target");
      var outcome := worker(BuildRequest(workerUrl.value, name, f));
      var r := Handle(workerUrl, form, worker);
      (outcome.Answer? && StemAudio(outcome.fields, which).None? <==> r == ErrorReply(502, "Worker did not return WAV base64")) &&
      (r.Wav? <==> outcome.Answer? && StemAudio(outcome.fields, which).Some?) &&
      (r.Wav? ==> outcome.fields[StemKey(which)] == JString(r.base64) && |r.base64| > 0 &&
                  r.filename == OutName(name, which)) &&
      (!outcome.Answer? ==> r.ErrorReply? && r.status == 502)
  {
  }

  /** An unsafe character and the unsafe run after it become one
      underscore. */
  lemma {:induction false} ReplaceRunsUnsafe(u: string, s: string)
    requires |u| > 0 && forall i :: 0 <= i < |u| ==> !SafeChar(u[i])
    requires |s| == 0 || SafeChar(s[0])
    ensures ReplaceRuns(u + s) == "_" + ReplaceRuns(s)
  {
    assert (u + s)[0] == u[0];
    assert (u + s)[1..] == u[1..] + s;
    DropUnsafeRun(u[1..], s);
  }

  lemma {:induction false} DropUnsafeRun(u: string, s: string)
    requires forall i :: 0 <= i < |u| ==> !SafeChar(u[i])
    requires |s| == 0 || SafeChar(s[0])
    ensures DropUnsafe(u + s) == s
    decreases |u|
  {
    if |u| == 0 {
      assert u + s == s;
    } else {
      assert (u + s)[0] == u[0];
      assert (u + s)[1..] == u[1..] + s;
      DropUnsafeRun(u[1..], s);
    }
  }

  /** Safe characters are kept as they are. */
  lemma {:induction false} ReplaceRunsSafe(a: string, s: string)
    requires Safe(a)
    ensures ReplaceRuns(a + s) == a + ReplaceRuns(s)
    decreases |a|
  {
    if |a| == 0 {
      assert a + s == s;
    } else {
      var t := a + s;
      assert t[0] == a[0] && SafeChar(t[0]);
      assert t[1..] == a[1..] + s;
      assert ReplaceRuns(t) == [a[0]] + ReplaceRuns(a[1..] + s);
      ReplaceRunsSafe(a[1..], s);
      assert [a[0]] + (a[1..] + ReplaceRuns(s)) == a + ReplaceRuns(s);
    }
  }

  /** The base name has only safe characters, between 1 and 64 of them, and
      is the name itself when that is safe and short; an empty name becomes
      "audio". */
  lemma SafeBaseFacts(name: string)
    ensures Safe(SafeBase(name)) && 0 < |SafeBase(name)| <= 64
    ensures name == "" ==> SafeBase(name) == "audio"
    ensures name != "" && Safe(name) && |name| <= 64 ==> SafeBase(name) == name
    ensures SafeBase(SafeBase(name)) == SafeBase(name)
  {
    var r := ReplaceRuns(if name == "" then "audio" else name);
    var b := SafeBase(name);
    assert Safe(b);
    ReplaceRunsSafe(b, "");
    assert b + "" == b;
    if name == "" {
      ReplaceRunsSafe("audio", "");
      assert "audio" + "" == "audio";
    }
    if name != "" && Safe(name) {
      ReplaceRunsSafe(name, "");
      assert name + "" == name;
    }
  }

  /** `which` reaches the download name unsanitised: a quote in it is a
      quote in the `filename="..."` parameter, while the base name never
      holds one. */
  lemma WhichUnsanitised(name: string, which: string, i: nat)
    requires i < |which| && which[i] == '"'
    ensures '"' in OutName(name, which)
    ensures '"' !in SafeBase(name)
  {
    SafeBaseFacts(name);
    var out := OutName(name, which);
    assert out[|SafeBase(name)| + 1 + i] == '"';
  }
}
