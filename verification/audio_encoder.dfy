/** The WAV serialiser: a 44-byte RIFF/WAVE header for 16-bit PCM (format
    tag 1, WAVE_FORMAT_PCM in RFC 2361) followed by one 16-bit sample per
    input value, every integer stored little-endian. The file is a byte
    sequence opened for read-write without truncation and overwritten from
    offset 0. */
module WavEncoder {
  import opened JvmInt

  newtype Byte = b: int | 0 <= b < 256

  // ------------------------------------------------------------ byte codecs

  /** `writeBytes(String)`: the low byte of every character. */
  function AsciiBytes(s: string): (r: seq<Byte>)
    ensures |r| == |s|
    ensures forall i :: 0 <= i < |s| ==> r[i] as int == s[i] as int % 0x100
  {
    seq(|s|, i requires 0 <= i < |s| => (s[i] as int % 0x100) as Byte)
  }

  /** `writeInt`: the low 32 bits, most significant byte first. */
  function IntBytesBE(x: int): (r: seq<Byte>)
    ensures |r| == 4
  {
    var u := x % 0x1_0000_0000;
    [(u / 0x100_0000) as Byte, (u / 0x1_0000 % 0x100) as Byte,
     (u / 0x100 % 0x100) as Byte, (u % 0x100) as Byte]
  }

  /** `writeShort`: the low 16 bits, most significant byte first. */
  function ShortBytesBE(x: int): (r: seq<Byte>)
    ensures |r| == 2
  {
    var u := x % 0x1_0000;
    [(u / 0x100) as Byte, (u % 0x100) as Byte]
  }

  /** `Integer.reverseBytes`. */
  function ReverseBytes32(x: int): int
  {
    var b := IntBytesBE(x);
    Wrap32(b[3] as int * 0x100_0000 + b[2] as int * 0x1_0000 + b[1] as int * 0x100 + b[0] as int)
  }

  /** `java.lang.Short.reverseBytes(x.toShort()).toInt()`. */
  function ReverseBytes16(x: int): int
  {
    var b := ShortBytesBE(x);
    Wrap16(b[1] as int * 0x100 + b[0] as int)
  }

  /** The four bytes `writeInt(Integer.reverseBytes(x))` puts on disk. */
  function IntLE(x: int): (r: seq<Byte>)
    ensures |r| == 4
  {
    IntBytesBE(ReverseBytes32(x))
  }

  /** The two bytes `writeShort(Short.reverseBytes(x.toShort()).toInt())`
      puts on disk. */
  function ShortLE(x: int): (r: seq<Byte>)
    ensures |r| == 2
  {
    ShortBytesBE(ReverseBytes16(x))
  }

  /** A reader's little-endian decoding of a signed 32-bit field. */
  function DecodeLE32(b: seq<Byte>): int
    requires |b| == 4
  {
    Wrap32(b[0] as int + b[1] as int * 0x100 + b[2] as int * 0x1_0000 + b[3] as int * 0x100_0000)
  }

  /** A reader's little-endian decoding of a signed 16-bit field. */
  function DecodeLE16(b: seq<Byte>): int
    requires |b| == 2
  {
    Wrap16(b[0] as int + b[1] as int * 0x100)
  }

  lemma WrapSameLow32(x: int)
    ensures Wrap32(x) % 0x1_0000_0000 == x % 0x1_0000_0000
  {
  }

  lemma WrapLow32(x: int)
    requires IsInt(x)
    ensures Wrap32(x % 0x1_0000_0000) == x
  {
  }

  lemma WrapSameLow16(x: int)
    ensures Wrap16(x) % 0x1_0000 == x % 0x1_0000
  {
  }

  /** The bytes of a value below 2^32 given by its four digits. */
  lemma DigitsBE32(b0: int, b1: int, b2: int, b3: int)
    requires 0 <= b0 < 0x100 && 0 <= b1 < 0x100 && 0 <= b2 < 0x100 && 0 <= b3 < 0x100
    ensures IntBytesBE(b3 * 0x100_0000 + b2 * 0x1_0000 + b1 * 0x100 + b0)
            == [b3 as Byte, b2 as Byte, b1 as Byte, b0 as Byte]
  {
    var v := b3 * 0x100_0000 + b2 * 0x1_0000 + b1 * 0x100 + b0;
    DivUnique(v, 0x1_0000_0000, 0, v);
    DivUnique(v, 0x100_0000, b3, b2 * 0x1_0000 + b1 * 0x100 + b0);
    DivUnique(v, 0x1_0000, b3 * 0x100 + b2, b1 * 0x100 + b0);
    DivUnique(b3 * 0x100 + b2, 0x100, b3, b2);
    DivUnique(v, 0x100, b3 * 0x1_0000 + b2 * 0x100 + b1, b0);
    DivUnique(b3 * 0x1_0000 + b2 * 0x100 + b1, 0x100, b3 * 0x100 + b2, b1);
  }

  lemma DigitsBE16(b0: int, b1: int)
    requires 0 <= b0 < 0x100 && 0 <= b1 < 0x100
    ensures ShortBytesBE(b1 * 0x100 + b0) == [b1 as Byte, b0 as Byte]
  {
    var v := b1 * 0x100 + b0;
    DivUnique(v, 0x1_0000, 0, v);
    DivUnique(v, 0x100, b1, b0);
  }

  /** The digits of `writeInt`'s bytes recompose the low 32 bits. */
  lemma BytesBE32Value(x: int)
    ensures var b := IntBytesBE(x);
      b[0] as int * 0x100_0000 + b[1] as int * 0x1_0000 + b[2] as int * 0x100 + b[3] as int
      == x % 0x1_0000_0000
  {
    var u := x % 0x1_0000_0000;
    var q1 := u / 0x100;
    var q2 := q1 / 0x100;
    var q3 := q2 / 0x100;
    assert u == q1 * 0x100 + u % 0x100;
    assert q1 == q2 * 0x100 + q1 % 0x100;
    assert q2 == q3 * 0x100 + q2 % 0x100;
    DivUnique(u, 0x1_0000, q2, (q1 % 0x100) * 0x100 + u % 0x100);
    DivUnique(u, 0x100_0000, q3, (q2 % 0x100) * 0x1_0000 + (q1 % 0x100) * 0x100 + u % 0x100);
  }

  lemma IntBytesBELow(x: int, y: int)
    requires x % 0x1_0000_0000 == y % 0x1_0000_0000
    ensures IntBytesBE(x) == IntBytesBE(y)
  {
  }

  /** On disk, an `Int` written through `reverseBytes` is little-endian: its
      bytes are `writeInt`'s in reverse order. */
  lemma IntLEReversed(x: int)
    ensures var be := IntBytesBE(x); IntLE(x) == [be[3], be[2], be[1], be[0]]
  {
    var be := IntBytesBE(x);
    var v := be[3] as int * 0x100_0000 + be[2] as int * 0x1_0000 + be[1] as int * 0x100 + be[0] as int;
    assert ReverseBytes32(x) == Wrap32(v);
    WrapSameLow32(v);
    IntBytesBELow(Wrap32(v), v);
    DigitsBE32(be[0] as int, be[1] as int, be[2] as int, be[3] as int);
  }

  /** Decoding the bytes little-endian gives the `Int` back. */
  lemma IntLERoundTrip(x: int)
    requires IsInt(x)
    ensures DecodeLE32(IntLE(x)) == x
  {
    IntLEReversed(x);
    BytesBE32Value(x);
    var be := IntBytesBE(x);
    var le := IntLE(x);
    assert le[0] == be[3] && le[1] == be[2] && le[2] == be[1] && le[3] == be[0];
    var v := le[0] as int + le[1] as int * 0x100 + le[2] as int * 0x1_0000 + le[3] as int * 0x100_0000;
    assert v == x % 0x1_0000_0000;
    assert DecodeLE32(le) == Wrap32(v);
    WrapLow32(x);
  }

  /** The same for a `Short`. */
  lemma ShortLERoundTrip(x: int)
    ensures var be := ShortBytesBE(x); ShortLE(x) == [be[1], be[0]]
    ensures DecodeLE16(ShortLE(x)) == Wrap16(x)
  {
    ShortLEReversed(x);
    var be := ShortBytesBE(x);
    var u := x % 0x1_0000;
    assert be[0] as int == u / 0x100 && be[1] as int == u % 0x100;
    assert u == (u / 0x100) * 0x100 + u % 0x100;
    assert DecodeLE16(ShortLE(x)) == Wrap16(u);
    assert u % 0x1_0000 == u;
  }

  /** A `Short` written through `reverseBytes` has `writeShort`'s two bytes
      swapped. */
  lemma ShortLEReversed(x: int)
    ensures var be := ShortBytesBE(x); ShortLE(x) == [be[1], be[0]]
  {
    var be := ShortBytesBE(x);
    var v := be[1] as int * 0x100 + be[0] as int;
    assert ReverseBytes16(x) == Wrap16(v);
    WrapSameLow16(v);
    ShortBytesBELow(Wrap16(v), v);
    DigitsBE16(be[0] as int, be[1] as int);
  }

  lemma ShortBytesBELow(x: int, y: int)
    requires x % 0x1_0000 == y % 0x1_0000
    ensures ShortBytesBE(x) == ShortBytesBE(y)
  {
  }

  // ------------------------------------------------------------ the layout

  const BITS_PER_SAMPLE: int := 16

  /** `sampleRate * channels * bitsPerSample / 8` in `Int`. */
  function ByteRate(sampleRate: int, channels: int): int
  {
    TruncDiv(Wrap32(Wrap32(sampleRate * channels) * BITS_PER_SAMPLE), 8)
  }

  /** `channels * bitsPerSample / 8` in `Int`. */
  function BlockAlign(channels: int): int
  {
    TruncDiv(Wrap32(channels * BITS_PER_SAMPLE), 8)
  }

  /** `audioData.size * channels * bitsPerSample / 8` in `Int`. */
  function DataSize(n: int, channels: int): int
  {
    TruncDiv(Wrap32(Wrap32(n * channels) * BITS_PER_SAMPLE), 8)
  }

  /** `36 + subChunk2Size` in `Int`. */
  function ChunkSize(n: int, channels: int): int
  {
    Wrap32(36 + DataSize(n, channels))
  }

  /** The 44 header bytes for the given field values. */
  function HeaderOf(chunkSize: int, channels: int, sampleRate: int, byteRate: int,
                    blockAlign: int, dataSize: int): (h: seq<Byte>)
    ensures |h| == 44
  {
    RiffDescriptor(chunkSize) + FmtChunk(channels, sampleRate, byteRate, blockAlign)
    + DataChunkHeader(dataSize)
  }

  function RiffDescriptor(chunkSize: int): (r: seq<Byte>)
    ensures |r| == 12
  {
    AsciiBytes("RIFF") + IntLE(chunkSize) + AsciiBytes("WAVE")
  }

  function FmtChunk(channels: int, sampleRate: int, byteRate: int, blockAlign: int): (r: seq<Byte>)
    ensures |r| == 24
  {
    FmtFormat(channels) + FmtRates(sampleRate, byteRate, blockAlign)
  }

  /** The fmt chunk's id, its size 16, format tag 1 (PCM) and channel count. */
  function FmtFormat(channels: int): (r: seq<Byte>)
    ensures |r| == 12
  {
    AsciiBytes("fmt ") + IntLE(16) + ShortLE(1) + ShortLE(channels)
  }

  function FmtRates(sampleRate: int, byteRate: int, blockAlign: int): (r: seq<Byte>)
    ensures |r| == 12
  {
    IntLE(sampleRate) + IntLE(byteRate) + ShortLE(blockAlign) + ShortLE(BITS_PER_SAMPLE)
  }

  function DataChunkHeader(dataSize: int): (r: seq<Byte>)
    ensures |r| == 8
  {
    AsciiBytes("data") + IntLE(dataSize)
  }

  function Header(n: int, sampleRate: int, channels: int): (h: seq<Byte>)
    ensures |h| == 44
  {
    HeaderOf(ChunkSize(n, channels), channels, sampleRate, ByteRate(sampleRate, channels),
             BlockAlign(channels), DataSize(n, channels))
  }

  /** `(sample * 32767).toInt().toShort()`: truncate, saturate to `Int`,
      then keep the low 16 bits. */
  function Quantize(sample: real): int
  {
    Wrap16(DoubleToInt(sample * 32767.0))
  }

  /** The sample bytes, in input order. */
  function SampleBytes(audio: seq<real>): (r: seq<Byte>)
    ensures |r| == 2 * |audio|
  {
    if |audio| == 0 then [] else SampleBytes(audio[..|audio| - 1]) + ShortLE(Quantize(audio[|audio| - 1]))
  }

  function WavBytes(audio: seq<real>, sampleRate: int, channels: int): (w: seq<Byte>)
    ensures |w| == 44 + 2 * |audio|
  {
    Header(|audio|, sampleRate, channels) + SampleBytes(audio)
  }

  /** `base` with `bytes` written over it from position `p`, extending it
      where needed. */
  function Overwrite(base: seq<Byte>, p: int, bytes: seq<Byte>): (r: seq<Byte>)
    requires 0 <= p <= |base|
    ensures |r| == if p + |bytes| < |base| then |base| else p + |bytes|
  {
    base[..p] + bytes + if p + |bytes| < |base| then base[p + |bytes|..] else []
  }

  /** The file after `encodeAudio`: the WAV bytes over whatever it held. */
  function WavImage(existing: seq<Byte>, audio: seq<real>, sampleRate: int, channels: int): seq<Byte>
  {
    Overwrite(existing, 0, WavBytes(audio, sampleRate, channels))
  }

  lemma OverwriteAppend(c: seq<Byte>, a: seq<Byte>, b: seq<Byte>)
    requires |a| <= |Overwrite(c, 0, a)|
    ensures Overwrite(Overwrite(c, 0, a), |a|, b) == Overwrite(c, 0, a + b)
  {
    var d := Overwrite(c, 0, a);
    assert d[..|a|] == a;
    if |a| + |b| < |c| {
      assert d[|a| + |b|..] == c[|a| + |b|..];
    }
  }

  // ------------------------------------------------------------- the file

  /** A `RandomAccessFile` opened in "rw" mode. */
  class RandomAccessFile {
    var content: seq<Byte>
    var pos: nat
    /** What existed when the file was opened, and what has been written
        since, from offset 0. */
    ghost var original: seq<Byte>
    ghost var written: seq<Byte>

    ghost predicate Valid()
      reads this
    {
      pos == |written| && content == Overwrite(original, 0, written)
    }

    /** Opening keeps the existing bytes and puts the pointer at 0. */
    constructor (existing: seq<Byte>)
      ensures Valid() && content == existing && pos == 0
      ensures original == existing && written == []
    {
      content := existing;
      pos := 0;
      original := existing;
      written := [];
    }

    method Write(bytes: seq<Byte>)
      requires Valid()
      modifies this
      ensures Valid() && original == old(original) && written == old(written) + bytes
      ensures content == Overwrite(old(content), old(pos), bytes)
      ensures pos == old(pos) + |bytes|
    {
      OverwriteAppend(original, written, bytes);
      content := Overwrite(content, pos, bytes);
      pos := pos + |bytes|;
      written := written + bytes;
    }

    method WriteBytes(s: string)
      requires Valid()
      modifies this
      ensures Valid() && original == old(original) && written == old(written) + AsciiBytes(s)
    {
      Write(AsciiBytes(s));
    }

    method WriteInt(v: int)
      requires Valid()
      modifies this
      ensures Valid() && original == old(original) && written == old(written) + IntBytesBE(v)
    {
      Write(IntBytesBE(v));
    }

    method WriteShort(v: int)
      requires Valid()
      modifies this
      ensures Valid() && original == old(original) && written == old(written) + ShortBytesBE(v)
    {
      Write(ShortBytesBE(v));
    }
  }

  lemma AppendAssoc3<T>(a: seq<T>, b: seq<T>, c: seq<T>, d: seq<T>)
    ensures a + b + c + d == a + (b + c + d)
  {
  }

  lemma AppendAssoc4<T>(a: seq<T>, b: seq<T>, c: seq<T>, d: seq<T>, e: seq<T>)
    ensures a + b + c + d + e == a + (b + c + d + e)
  {
  }

  /** The header writes of `encodeAudio`, in three groups. */
  method WriteHeader(raf: RandomAccessFile, chunkSize: int, channels: int, sampleRate: int,
                     byteRate: int, blockAlign: int, subChunk2Size: int)
    requires raf.Valid()
    modifies raf
    ensures raf.Valid() && raf.original == old(raf.original)
    ensures raf.written == old(raf.written)
      + HeaderOf(chunkSize, channels, sampleRate, byteRate, blockAlign, subChunk2Size)
  {
    ghost var start := raf.written;
    WriteRiffDescriptor(raf, chunkSize);
    WriteFmtChunk(raf, channels, sampleRate, byteRate, blockAlign);
    WriteDataChunkHeader(raf, subChunk2Size);
    AppendAssoc3(start, RiffDescriptor(chunkSize), FmtChunk(channels, sampleRate, byteRate, blockAlign),
      DataChunkHeader(subChunk2Size));
  }

  method WriteRiffDescriptor(raf: RandomAccessFile, chunkSize: int)
    requires raf.Valid()
    modifies raf
    ensures raf.Valid() && raf.original == old(raf.original)
    ensures raf.written == old(raf.written) + RiffDescriptor(chunkSize)
  {
    raf.WriteBytes("RIFF");
    raf.WriteInt(ReverseBytes32(chunkSize));
    raf.WriteBytes("WAVE");
  }

  method WriteFmtChunk(raf: RandomAccessFile, channels: int, sampleRate: int, byteRate: int,
                       blockAlign: int)
    requires raf.Valid()
    modifies raf
    ensures raf.Valid() && raf.original == old(raf.original)
    ensures raf.written == old(raf.written) + FmtChunk(channels, sampleRate, byteRate, blockAlign)
  {
    ghost var start := raf.written;
    WriteFmtFormat(raf, channels);
    WriteFmtRates(raf, sampleRate, byteRate, blockAlign);
    AppendAssoc(start, FmtFormat(channels), FmtRates(sampleRate, byteRate, blockAlign));
  }

  method WriteFmtFormat(raf: RandomAccessFile, channels: int)
    requires raf.Valid()
    modifies raf
    ensures raf.Valid() && raf.original == old(raf.original)
    ensures raf.written == old(raf.written) + FmtFormat(channels)
  {
    ghost var start := raf.written;
    raf.WriteBytes("fmt ");
    raf.WriteInt(ReverseBytes32(16));
    raf.WriteShort(ReverseBytes16(1));
    raf.WriteShort(ReverseBytes16(channels));
    AppendAssoc4(start, AsciiBytes("fmt "), IntLE(16), ShortLE(1), ShortLE(channels));
  }

  method WriteFmtRates(raf: RandomAccessFile, sampleRate: int, byteRate: int, blockAlign: int)
    requires raf.Valid()
    modifies raf
    ensures raf.Valid() && raf.original == old(raf.original)
    ensures raf.written == old(raf.written) + FmtRates(sampleRate, byteRate, blockAlign)
  {
    ghost var start := raf.written;
    raf.WriteInt(ReverseBytes32(sampleRate));
    raf.WriteInt(ReverseBytes32(byteRate));
    raf.WriteShort(ReverseBytes16(blockAlign));
    raf.WriteShort(ReverseBytes16(BITS_PER_SAMPLE));
    AppendAssoc4(start, IntLE(sampleRate), IntLE(byteRate), ShortLE(blockAlign), ShortLE(BITS_PER_SAMPLE));
  }

  method WriteDataChunkHeader(raf: RandomAccessFile, subChunk2Size: int)
    requires raf.Valid()
    modifies raf
    ensures raf.Valid() && raf.original == old(raf.original)
    ensures raf.written == old(raf.written) + DataChunkHeader(subChunk2Size)
  {
    raf.WriteBytes("data");
    raf.WriteInt(ReverseBytes32(subChunk2Size));
  }

  lemma AppendAssoc<T>(a: seq<T>, b: seq<T>, c: seq<T>)
    ensures a + b + c == a + (b + c)
  {
  }

  /** `encodeAudio`: the file's new content, given its old content. */
  method EncodeAudio(audioData: array<real>, existing: seq<Byte>, sampleRate: int, channels: int)
    returns (fileContent: seq<Byte>)
    ensures fileContent == WavImage(existing, audioData[..], sampleRate, channels)
  {
    var n := audioData.Length;
    var byteRate := ByteRate(sampleRate, channels);
    var blockAlign := BlockAlign(channels);
    var subChunk2Size := DataSize(n, channels);
    var chunkSize := ChunkSize(n, channels);
    var raf := new RandomAccessFile(existing);
    WriteHeader(raf, chunkSize, channels, sampleRate, byteRate, blockAlign, subChunk2Size);
    ghost var header := Header(n, sampleRate, channels);
    assert raf.written == header;
    ghost var input := audioData[..];
    for i := 0 to n
      invariant raf.Valid() && raf.original == existing
      invariant raf.written == header + SampleBytes(input[..i])
    {
      var shortSample := Wrap16(DoubleToInt(audioData[i] * 32767.0));
      raf.WriteShort(ReverseBytes16(shortSample));
      assert input[..i + 1][..i] == input[..i];
      assert SampleBytes(input[..i + 1]) == SampleBytes(input[..i]) + ShortLE(Quantize(input[i]));
      AppendAssoc(header, SampleBytes(input[..i]), ShortLE(Quantize(input[i])));
    }
    assert input[..n] == input;
    fileContent := raf.content;
  }

  // ---------------------------------------------------------- properties

  /** The file cut into its chunks: RIFF descriptor, the two halves of the
      fmt chunk, the data chunk header, then the samples. */
  lemma WavChunks(audio: seq<real>, sampleRate: int, channels: int)
    ensures var w := WavBytes(audio, sampleRate, channels);
      var n := |audio|;
      w[0..12] == RiffDescriptor(ChunkSize(n, channels)) &&
      w[12..24] == FmtFormat(channels) &&
      w[24..36] == FmtRates(sampleRate, ByteRate(sampleRate, channels), BlockAlign(channels)) &&
      w[36..44] == DataChunkHeader(DataSize(n, channels)) &&
      w[44..] == SampleBytes(audio)
  {
    var n := |audio|;
    var r := RiffDescriptor(ChunkSize(n, channels));
    var ff := FmtFormat(channels);
    var fr := FmtRates(sampleRate, ByteRate(sampleRate, channels), BlockAlign(channels));
    var d := DataChunkHeader(DataSize(n, channels));
    assert Header(n, sampleRate, channels) == r + (ff + fr) + d;
    Split12x3x8(r, ff, fr, d, SampleBytes(audio));
  }

  lemma Split12x3x8(r: seq<Byte>, ff: seq<Byte>, fr: seq<Byte>, d: seq<Byte>, rest: seq<Byte>)
    requires |r| == 12 && |ff| == 12 && |fr| == 12 && |d| == 8
    ensures var w := r + (ff + fr) + d + rest;
      w[0..12] == r && w[12..24] == ff && w[24..36] == fr && w[36..44] == d && w[44..] == rest
  {
    var w := r + (ff + fr) + d + rest;
    assert w == r + ff + fr + d + rest;
  }

  /** Bytes `k..l` of `w` are bytes `k - i..l - i` of the slice `w[i..j]`. */
  lemma SliceOfSlice(w: seq<Byte>, i: int, j: int, k: int, l: int)
    requires 0 <= i <= k <= l <= j <= |w|
    ensures w[k..l] == w[i..j][k - i..l - i]
  {
    forall t | 0 <= t < l - k
      ensures w[k..l][t] == w[i..j][k - i..l - i][t]
    {
      assert w[k..l][t] == w[k + t] == w[i..j][k - i + t];
    }
  }

  lemma Split4x3(x: seq<Byte>, y: seq<Byte>, z: seq<Byte>)
    requires |x| == 4 && |y| == 4 && |z| == 4
    ensures var c := x + y + z; c[0..4] == x && c[4..8] == y && c[8..12] == z
  {
  }

  lemma Split4x2x2(x: seq<Byte>, y: seq<Byte>, u: seq<Byte>, v: seq<Byte>)
    requires |x| == 4 && |y| == 4 && |u| == 2 && |v| == 2
    ensures var c := x + y + u + v; c[0..4] == x && c[4..8] == y && c[8..10] == u && c[10..12] == v
  {
  }

  lemma Split4x4(x: seq<Byte>, y: seq<Byte>)
    requires |x| == 4 && |y| == 4
    ensures var c := x + y; c[0..4] == x && c[4..8] == y
  {
  }

  /** 44 header bytes plus two per sample, with the four chunk tags at
      offsets 0, 8, 12 and 36. */
  lemma WavLayout(audio: seq<real>, sampleRate: int, channels: int)
    ensures var w := WavBytes(audio, sampleRate, channels);
      |w| == 44 + 2 * |audio| &&
      w[0..4] == AsciiBytes("RIFF") && w[8..12] == AsciiBytes("WAVE") &&
      w[12..16] == AsciiBytes("fmt ") && w[36..40] == AsciiBytes("data")
  {
    var n := |audio|;
    var w := WavBytes(audio, sampleRate, channels);
    WavChunks(audio, sampleRate, channels);
    Split4x3(AsciiBytes("RIFF"), IntLE(ChunkSize(n, channels)), AsciiBytes("WAVE"));
    Split4x2x2(AsciiBytes("fmt "), IntLE(16), ShortLE(1), ShortLE(channels));
    Split4x4(AsciiBytes("data"), IntLE(DataSize(n, channels)));
    SliceOfSlice(w, 0, 12, 0, 4);
    SliceOfSlice(w, 0, 12, 8, 12);
    SliceOfSlice(w, 12, 24, 12, 16);
    SliceOfSlice(w, 36, 44, 36, 40);
  }

  /** Decoding the RIFF and data size fields little-endian gives the values
      the source computes. */
  lemma WavSizeFields(audio: seq<real>, sampleRate: int, channels: int)
    ensures var w := WavBytes(audio, sampleRate, channels);
      DecodeLE32(w[4..8]) == ChunkSize(|audio|, channels) &&
      DecodeLE32(w[40..44]) == DataSize(|audio|, channels)
  {
    var n := |audio|;
    var w := WavBytes(audio, sampleRate, channels);
    WavChunks(audio, sampleRate, channels);
    Split4x3(AsciiBytes("RIFF"), IntLE(ChunkSize(n, channels)), AsciiBytes("WAVE"));
    Split4x4(AsciiBytes("data"), IntLE(DataSize(n, channels)));
    SliceOfSlice(w, 0, 12, 4, 8);
    SliceOfSlice(w, 36, 44, 40, 44);
    IntLERoundTrip(ChunkSize(n, channels));
    IntLERoundTrip(DataSize(n, channels));
  }

  lemma TruncDivInt(x: int)
    requires IsInt(x)
    ensures IsInt(TruncDiv(x, 8))
  {
  }

  /** Decoding the fmt chunk little-endian gives size 16, format 1 (PCM) and
      the channel count as a `Short`, ... */
  lemma WavFmtFormatFields(audio: seq<real>, sampleRate: int, channels: int)
    ensures var w := WavBytes(audio, sampleRate, channels);
      DecodeLE32(w[16..20]) == 16 && DecodeLE16(w[20..22]) == 1 &&
      DecodeLE16(w[22..24]) == Wrap16(channels)
  {
    var w := WavBytes(audio, sampleRate, channels);
    WavChunks(audio, sampleRate, channels);
    Split4x2x2(AsciiBytes("fmt "), IntLE(16), ShortLE(1), ShortLE(channels));
    SliceOfSlice(w, 12, 24, 16, 20);
    SliceOfSlice(w, 12, 24, 20, 22);
    SliceOfSlice(w, 12, 24, 22, 24);
    IntLERoundTrip(16);
    ShortLERoundTrip(1);
    ShortLERoundTrip(channels);
  }

  /** ... then the sample rate, the byte rate, the block alignment as a
      `Short`, and 16 bits per sample. */
  lemma WavFmtRateFields(audio: seq<real>, sampleRate: int, channels: int)
    requires IsInt(sampleRate)
    ensures var w := WavBytes(audio, sampleRate, channels);
      DecodeLE32(w[24..28]) == sampleRate &&
      DecodeLE32(w[28..32]) == ByteRate(sampleRate, channels) &&
      DecodeLE16(w[32..34]) == Wrap16(BlockAlign(channels)) &&
      DecodeLE16(w[34..36]) == 16
  {
    var w := WavBytes(audio, sampleRate, channels);
    var byteRate := ByteRate(sampleRate, channels);
    WavChunks(audio, sampleRate, channels);
    Split4x2x2(IntLE(sampleRate), IntLE(byteRate), ShortLE(BlockAlign(channels)), ShortLE(BITS_PER_SAMPLE));
    SliceOfSlice(w, 24, 36, 24, 28);
    SliceOfSlice(w, 24, 36, 28, 32);
    SliceOfSlice(w, 24, 36, 32, 34);
    SliceOfSlice(w, 24, 36, 34, 36);
    IntLERoundTrip(sampleRate);
    TruncDivInt(Wrap32(Wrap32(sampleRate * channels) * BITS_PER_SAMPLE));
    IntLERoundTrip(byteRate);
    ShortLERoundTrip(BlockAlign(channels));
    ShortLERoundTrip(BITS_PER_SAMPLE);
  }

  /** Without overflow the header fields are the textbook ones: byte rate
      `rate * channels * 2`, block alignment `channels * 2`, data size
      `n * channels * 2` and RIFF size `36 + n * channels * 2`. */
  lemma HeaderArithmetic(n: int, sampleRate: int, channels: int)
    requires n >= 0 && sampleRate > 0 && channels > 0
    requires sampleRate * channels * 16 <= INT_MAX && n * channels * 16 <= INT_MAX
    ensures ByteRate(sampleRate, channels) == sampleRate * channels * 2
    ensures BlockAlign(channels) == channels * 2
    ensures DataSize(n, channels) == n * channels * 2
    ensures ChunkSize(n, channels) == 36 + n * channels * 2
  {
    var p := sampleRate * channels;
    MulMonotone(1, sampleRate, channels);
    assert 0 < p && p * 16 <= INT_MAX;
    assert Wrap32(p) == p && Wrap32(p * 16) == p * 16;
    DataSizeExact(n, channels);
  }

  lemma DataSizeExact(n: int, channels: int)
    requires n >= 0 && channels > 0 && n * channels * 16 <= INT_MAX
    ensures DataSize(n, channels) == n * channels * 2
  {
    var q := n * channels;
    MulMonotone(0, n, channels);
    assert 0 <= q && q * 16 <= INT_MAX;
    assert Wrap32(q) == q && Wrap32(q * 16) == q * 16;
  }

  /** The data size field counts `channels` bytes pairs per input value, but
      only one pair is written: for a non-empty signal it matches the
      payload exactly when there is one channel. */
  lemma DataSizeMatchesPayload(n: int, channels: int)
    requires n > 0 && channels > 0 && n * channels * 16 <= INT_MAX
    ensures DataSize(n, channels) == 2 * n <==> channels == 1
  {
    DataSizeExact(n, channels);
    var q := n * channels;
    if channels >= 2 {
      MulMonotone(2, channels, n);
      assert q >= 2 * n;
    } else {
      assert q == n;
    }
  }

  /** An empty signal still gets the full header: data size 0, RIFF size 36. */
  lemma EmptyWav(sampleRate: int, channels: int)
    ensures |WavBytes([], sampleRate, channels)| == 44
    ensures DataSize(0, channels) == 0 && ChunkSize(0, channels) == 36
  {
  }

  /** A sample in [-1, 1] is truncated toward zero into [-32767, 32767]. */
  lemma QuantizeRange(sample: real)
    requires -1.0 <= sample <= 1.0
    ensures Quantize(sample) == Trunc(sample * 32767.0)
    ensures -32767 <= Quantize(sample) <= 32767
  {
  }

  /** Out-of-range samples are not clamped: they wrap around in 16 bits. */
  lemma QuantizeWraps()
    ensures Quantize(2.0) == -2
  {
    assert Trunc(2.0 * 32767.0) == 65534;
  }

  lemma {:induction false} SampleBytesAt(audio: seq<real>, i: int)
    requires 0 <= i < |audio|
    ensures SampleBytes(audio)[2 * i..2 * i + 2] == ShortLE(Quantize(audio[i]))
  {
    var k := |audio| - 1;
    var p := audio[..k];
    var front := SampleBytes(p);
    var last := ShortLE(Quantize(audio[k]));
    assert SampleBytes(audio) == front + last;
    if i < k {
      SampleBytesAt(p, i);
      assert p[i] == audio[i];
      assert (front + last)[2 * i..2 * i + 2] == front[2 * i..2 * i + 2];
    } else {
      assert (front + last)[2 * i..2 * i + 2] == last;
    }
  }

  /** Sample `i` is stored little-endian at offset `44 + 2 * i`. */
  lemma WavSampleAt(audio: seq<real>, sampleRate: int, channels: int, i: int)
    requires 0 <= i < |audio|
    ensures var w := WavBytes(audio, sampleRate, channels);
      DecodeLE16(w[44 + 2 * i..46 + 2 * i]) == Quantize(audio[i])
  {
    SampleBytesAt(audio, i);
    PairAfter(Header(|audio|, sampleRate, channels), SampleBytes(audio), 2 * i);
    ShortLERoundTrip(Quantize(audio[i]));
  }

  /** Two bytes at offset `k` of `b` sit at offset `|h| + k` of `h + b`. */
  lemma PairAfter(h: seq<Byte>, b: seq<Byte>, k: int)
    requires 0 <= k <= |b| - 2
    ensures (h + b)[|h| + k..|h| + k + 2] == b[k..k + 2]
  {
  }

  /** The file is not truncated: it starts with the WAV bytes, and any bytes
      of an earlier, longer file past them remain. */
  lemma WavImageKeepsTail(existing: seq<Byte>, audio: seq<real>, sampleRate: int, channels: int)
    ensures var img := WavImage(existing, audio, sampleRate, channels);
      var w := WavBytes(audio, sampleRate, channels);
      img[..|w|] == w &&
      (|existing| <= |w| ==> img == w) &&
      (|existing| > |w| ==> |img| == |existing| && img[|w|..] == existing[|w|..])
  {
    OverwriteFront(existing, WavBytes(audio, sampleRate, channels));
  }

  /** Writing `bytes` from position 0 puts them first and keeps whatever of
      `base` lies past them. */
  lemma OverwriteFront(base: seq<Byte>, bytes: seq<Byte>)
    ensures var r := Overwrite(base, 0, bytes);
      r[..|bytes|] == bytes &&
      (|base| <= |bytes| ==> r == bytes) &&
      (|base| > |bytes| ==> |r| == |base| && r[|bytes|..] == base[|bytes|..])
  {
    var r := Overwrite(base, 0, bytes);
    assert base[..0] == [];
    if |base| <= |bytes| {
      assert r == bytes;
    } else {
      assert r == bytes + base[|bytes|..];
    }
  }
}
