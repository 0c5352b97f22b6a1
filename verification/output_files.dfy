/** The name of the exported WAV file: the input's base name with every
    character outside `[A-Za-z0-9._-]` replaced by '_', cut to 60 characters,
    "output" when nothing is left, and the suffix "_separated.wav". */
module OutputFiles {
  import opened Text

  const MAX_BASE_LENGTH: nat := 60
  const SUFFIX: string := "_separated.wav"

  predicate IsSafeChar(c: char)
  {
    ('A' <= c <= 'Z') || ('a' <= c <= 'z') || ('0' <= c <= '9') || c == '.' || c == '_' || c == '-'
  }

  predicate AllSafe(s: string)
  {
    forall i :: 0 <= i < |s| ==> IsSafeChar(s[i])
  }

  /** `replace(Regex("[^A-Za-z0-9._-]"), "_")`: one character for one. */
  function Sanitized(s: string): (r: string)
    ensures |r| == |s| && AllSafe(r)
    ensures forall i :: 0 <= i < |s| ==> (IsSafeChar(s[i]) ==> r[i] == s[i]) && (!IsSafeChar(s[i]) ==> r[i] == '_')
  {
    seq(|s|, i requires 0 <= i < |s| => if IsSafeChar(s[i]) then s[i] else '_')
  }

  /** `take(n)`. */
  function TakeChars(s: string, n: nat): (r: string)
    ensures |r| == if |s| < n then |s| else n
    ensures forall i :: 0 <= i < |r| ==> r[i] == s[i]
  {
    if |s| <= n then s else s[..n]
  }

  /** Kotlin's `isBlank`, on text whose whitespace is the `\s` class. */
  predicate IsBlank(s: string)
  {
    forall i :: 0 <= i < |s| ==> IsSpace(s[i])
  }

  /** The sanitised base name. */
  function SafeBaseName(baseName: string): string
  {
    var cut := TakeChars(Sanitized(baseName), MAX_BASE_LENGTH);
    if IsBlank(cut) then "output" else cut
  }

  /** `createOutputWavFile`'s file name. */
  function OutputFileName(baseName: string): string
  {
    SafeBaseName(baseName) + SUFFIX
  }

  /** Sanitised text is blank only when it is empty: whitespace is among the
      replaced characters. */
  lemma SafeBlankIsEmpty(s: string)
    requires AllSafe(s)
    ensures IsBlank(s) <==> s == ""
  {
    if s != "" {
      assert IsSafeChar(s[0]) && !IsSpace(s[0]);
    }
  }

  /** The base keeps each allowed character in place and turns every other
      one into '_', up to 60 characters; an empty name gives "output". */
  lemma SafeBaseNameShape(baseName: string)
    ensures AllSafe(SafeBaseName(baseName))
    ensures baseName == "" ==> SafeBaseName(baseName) == "output"
    ensures baseName != "" ==>
      var r := SafeBaseName(baseName);
      |r| == (if |baseName| < 60 then |baseName| else 60) &&
      forall i :: 0 <= i < |r| ==>
        (IsSafeChar(baseName[i]) ==> r[i] == baseName[i]) && (!IsSafeChar(baseName[i]) ==> r[i] == '_')
  {
    var cut := TakeChars(Sanitized(baseName), MAX_BASE_LENGTH);
    SafeBlankIsEmpty(cut);
    assert AllSafe("output") by {
      assert "output"[0] == 'o';
    }
  }

  /** Sanitising an already sanitised base changes nothing. */
  lemma SafeBaseNameIdempotent(baseName: string)
    ensures SafeBaseName(SafeBaseName(baseName)) == SafeBaseName(baseName)
  {
    var r := SafeBaseName(baseName);
    SafeBaseNameShape(baseName);
    assert Sanitized(r) == r;
    assert |r| <= 60;
    assert TakeChars(r, MAX_BASE_LENGTH) == r;
    SafeBlankIsEmpty(r);
  }

  /** The file name ends in "_separated.wav", has at most 74 characters, and
      everything before the suffix is safe. */
  lemma OutputFileNameShape(baseName: string)
    ensures var name := OutputFileName(baseName);
      14 < |name| <= 74 && name[|name| - 14..] == "_separated.wav" &&
      AllSafe(name[..|name| - 14])
  {
    SafeBaseNameShape(baseName);
    var base := SafeBaseName(baseName);
    var name := OutputFileName(baseName);
    assert |base| > 0;
    assert name[..|name| - 14] == base;
    assert name[|name| - 14..] == SUFFIX;
  }
}
