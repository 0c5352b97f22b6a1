/** The text-prompt encoder: whitespace tokenisation against a fixed
    vocabulary, an abstract interpreter run that fills a 512-value embedding,
    and L2 normalisation. Every failure of the run yields the zero vector. */
module QueryEncoders {
  import opened Wrappers
  import opened Samples
  import opened Text
  import opened AudioRecords

  const EMBEDDING_SIZE: nat := 512

  /** Word ids; every other word is the padding token 0. */
  const VOCAB: map<string, int> := map[
    "extract" := 1024,
    "vocals" := 2051,
    "drums" := 512,
    "bass" := 1089,
    "guitar" := 2048,
    "piano" := 1536,
    "strings" := 768,
    "percussion" := 1792,
    "remove" := 2560,
    "isolate" := 3072,
    "separate" := 3584]

  function TokenOf(word: string): int
  {
    if word in VOCAB then VOCAB[word] else 0
  }

  /** `tokenize`: lower-case, split on whitespace runs, look every piece up. */
  function Tokenize(text: string): (tokens: seq<int>)
    ensures |tokens| == |SplitSpaces(Lower(text))| >= 1
  {
    var pieces := SplitSpaces(Lower(text));
    seq(|pieces|, i requires 0 <= i < |pieces| => TokenOf(pieces[i]))
  }

  /** Every token is one of the eleven vocabulary ids or the padding token. */
  lemma TokensInVocab(text: string)
    ensures forall i :: 0 <= i < |Tokenize(text)| ==>
      Tokenize(text)[i] in {0, 512, 768, 1024, 1089, 1536, 1792, 2048, 2051, 2560, 3072, 3584}
  {
  }

  /** Tokenisation ignores ASCII case. */
  lemma TokenizeIgnoresCase(text: string)
    ensures Tokenize(Lower(text)) == Tokenize(text)
  {
    LowerIdempotent(text);
  }

  /** The empty prompt is the single padding token. */
  lemma TokenizeEmpty()
    ensures Tokenize("") == [0]
  {
    assert Lower("") == "";
  }

  /** Leading and trailing whitespace each contribute an empty piece, which
      maps to the padding token. */
  lemma TokenizeLeading(text: string)
    ensures Tokenize(" " + text)[0] == 0
  {
    var s := Lower(" " + text);
    assert SplitSpaces(s)[0] == "" by {
      LowerAppend(" ", text);
      assert Lower(" ") == " ";
      assert s[0] == ' ';
      assert SplitSpaces(s) == [""] + SplitSpaces(DropSpaces(s));
    }
    assert "" !in VOCAB;
  }

  lemma TokenizeTrailing(text: string)
    ensures var t := Tokenize(text + " "); |t| >= 2 && t[|t| - 1] == 0
  {
    LowerAppend(text, " ");
    assert Lower(text + " ") == Lower(text) + [' '];
    SplitSpacesTrailing(Lower(text), ' ');
  }

  /** Lower-case words without whitespace, joined by single spaces, tokenise
      to their ids in order. */
  lemma TokenizeWords(words: seq<string>)
    requires |words| >= 1
    requires forall k :: 0 <= k < |words| ==> |words[k]| > 0 && NoSpace(words[k]) && IsLower(words[k])
    ensures Tokenize(Join(words, " ")) == seq(|words|, k requires 0 <= k < |words| => TokenOf(words[k]))
  {
    LowerJoin(words);
    SplitJoin(words);
  }

  /** `Math.sqrt` of the sum of squares. */
  function Norm(e: seq<real>, sqrt: real -> real): real
  {
    sqrt(SumSquares(e))
  }

  /** `normalizeEmbedding`: divide by the L2 norm when it is positive. */
  function NormalizedEmbedding(e: seq<real>, sqrt: real -> real): (r: seq<real>)
    ensures |r| == |e|
  {
    var norm := Norm(e, sqrt);
    if norm > 0.0 then DivideAll(e, norm) else e
  }

  /** With an exact square root, a zero vector is returned unchanged and any
      other vector is divided by its norm, which gives it unit length. */
  lemma NormalizedEmbeddingUnit(e: seq<real>, sqrt: real -> real)
    requires IsSqrt(sqrt)
    ensures (forall i :: 0 <= i < |e| ==> e[i] == 0.0) ==> NormalizedEmbedding(e, sqrt) == e
    ensures (exists i :: 0 <= i < |e| && e[i] != 0.0) ==>
      Norm(e, sqrt) > 0.0 && SumSquares(NormalizedEmbedding(e, sqrt)) == 1.0 &&
      forall i :: 0 <= i < |e| ==> NormalizedEmbedding(e, sqrt)[i] == e[i] / Norm(e, sqrt)
  {
    SumSquaresZero(e);
    var q := SumSquares(e);
    var norm := sqrt(q);
    assert norm >= 0.0 && Square(norm) == q;
    if q == 0.0 {
      assert norm == 0.0;
    } else {
      assert norm > 0.0;
      SumSquaresDivide(e, norm);
      var x := SumSquares(DivideAll(e, norm));
      assert Mul(x, Square(norm)) == q;
      MulIdentity(x, q);
    }
  }

  /** A TFLite interpreter instance, told apart by the initialisation that
      created it. */
  datatype Interpreter = Interpreter(id: nat)

  /** What one inference run does: fill the output buffer, or throw. */
  datatype RunOutcome = Filled(output: seq<real>) | Threw(message: Option<string>)

  /** A run is well-formed when a filled output has the buffer's length. */
  predicate FitsEmbedding(outcome: RunOutcome)
  {
    outcome.Filled? ==> |outcome.output| == EMBEDDING_SIZE
  }

  /** `encodeQuery` as a value: without an interpreter the zero output buffer
      is normalised; a throwing run gives zeros; otherwise the run's output
      is normalised. */
  function EncodedQuery(interpreter: Option<Interpreter>, text: string,
                        model: seq<int> -> RunOutcome, sqrt: real -> real): seq<real>
    requires FitsEmbedding(model(Tokenize(text)))
  {
    if interpreter.None? then NormalizedEmbedding(Zeros(EMBEDDING_SIZE), sqrt)
    else match model(Tokenize(text))
      case Threw(_) => Zeros(EMBEDDING_SIZE)
      case Filled(output) => NormalizedEmbedding(output, sqrt)
  }

  /** The embedding always has 512 entries. */
  lemma EncodedQueryLength(interpreter: Option<Interpreter>, text: string,
                           model: seq<int> -> RunOutcome, sqrt: real -> real)
    requires FitsEmbedding(model(Tokenize(text)))
    ensures |EncodedQuery(interpreter, text, model, sqrt)| == EMBEDDING_SIZE
  {
  }

  /** Before initialisation, and whenever the run throws, the embedding is
      the zero vector. */
  lemma EncodedQueryZero(interpreter: Option<Interpreter>, text: string,
                         model: seq<int> -> RunOutcome, sqrt: real -> real)
    requires IsSqrt(sqrt) && FitsEmbedding(model(Tokenize(text)))
    requires interpreter.None? || model(Tokenize(text)).Threw?
    ensures EncodedQuery(interpreter, text, model, sqrt) == Zeros(EMBEDDING_SIZE)
  {
    NormalizedEmbeddingUnit(Zeros(EMBEDDING_SIZE), sqrt);
  }

  /** A run that fills a non-zero output yields a unit vector. */
  lemma EncodedQueryUnit(interpreter: Option<Interpreter>, text: string,
                         model: seq<int> -> RunOutcome, sqrt: real -> real)
    requires IsSqrt(sqrt) && FitsEmbedding(model(Tokenize(text)))
    requires interpreter.Some? && model(Tokenize(text)).Filled?
    requires exists i :: 0 <= i < EMBEDDING_SIZE && model(Tokenize(text)).output[i] != 0.0
    ensures SumSquares(EncodedQuery(interpreter, text, model, sqrt)) == 1.0
  {
    NormalizedEmbeddingUnit(model(Tokenize(text)).output, sqrt);
  }

  class QueryEncoder {
    var interpreter: Option<Interpreter>
    /** Interpreters created so far. */
    var created: nat
    /** Every `close()` call, in order. */
    var closed: seq<Interpreter>

    constructor ()
      ensures interpreter == None && created == 0 && closed == []
    {
      interpreter := None;
      created := 0;
      closed := [];
    }

    /** `initialize`: `load` is the outcome of loading the model and building
        the interpreter; a failure is rethrown with a prefixed message and
        leaves the field as it was. */
    method Initialize(load: Result<(), Option<string>>) returns (r: Result<(), string>)
      modifies this
      ensures closed == old(closed)
      ensures load.Ok? ==> r == Ok(()) && interpreter == Some(Interpreter(old(created)))
                           && created == old(created) + 1
      ensures load.Err? ==> r == Err("Failed to init query encoder: " + MessageText(load.error))
                            && interpreter == old(interpreter) && created == old(created)
    {
      if load.Err? {
        return Err("Failed to init query encoder: " + MessageText(load.error));
      }
      interpreter := Some(Interpreter(created));
      created := created + 1;
      r := Ok(());
    }

    /** `encodeQuery`: never throws; `model` is what the interpreter does on
        the token list. */
    method EncodeQuery(text: string, model: seq<int> -> RunOutcome, sqrt: real -> real)
      returns (embedding: array<real>)
      requires FitsEmbedding(model(Tokenize(text)))
      ensures fresh(embedding)
      ensures embedding[..] == EncodedQuery(interpreter, text, model, sqrt)
    {
      var tokens := Tokenize(text);
      var output := Zeros(EMBEDDING_SIZE);
      if interpreter.Some? {
        match model(tokens)
        case Threw(_) =>
          embedding := new real[EMBEDDING_SIZE](_ => 0.0);
          return;
        case Filled(written) =>
          output := written;
      }
      var normalized := NormalizedEmbedding(output, sqrt);
      embedding := new real[EMBEDDING_SIZE](i requires 0 <= i < EMBEDDING_SIZE => normalized[i]);
    }

    /** `release`: closes the interpreter if there is one, without clearing
        the field. */
    method Release()
      modifies this
      ensures interpreter == old(interpreter) && created == old(created)
      ensures closed == old(closed) + (if interpreter.Some? then [interpreter.value] else [])
    {
      if interpreter.Some? {
        closed := closed + [interpreter.value];
      }
    }
  }
}
