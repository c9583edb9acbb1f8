/** encodeWAV: the canonical 44-byte RIFF/WAVE header for mono 16-bit PCM,
    followed by the samples as little-endian Int16, and a reader for that
    layout. */
module Wav {
  import opened Pcm

  /** writeString: each character code stored with setUint8, which keeps it
      modulo 256. */
  function Ascii(str: string): (r: seq<Byte>)
    ensures |r| == |str|
  {
    seq(|str|, i requires 0 <= i < |str| => (str[i] as int) % 256)
  }

  /** The 44 header bytes for n samples at the given rate. */
  function WavHeader(n: nat, sampleRate: int): (h: seq<Byte>)
    ensures |h| == 44
  {
    Ascii("RIFF") + Le32(36 + n * 2) + Ascii("WAVE")
    + Ascii("fmt ") + Le32(16) + Le16(1) + Le16(1)
    + Le32(sampleRate) + Le32(sampleRate * 2) + Le16(2) + Le16(16)
    + Ascii("data") + Le32(n * 2)
  }

  /** The data chunk: every sample as two little-endian bytes. */
  function SampleBytes(s: seq<Int16>): (r: seq<Byte>)
    ensures |r| == 2 * |s|
  {
    if s == [] then [] else Le16(s[0]) + SampleBytes(s[1..])
  }

  /** The whole buffer that encodeWAV wraps in a Blob. */
  function WavBytes(s: seq<Int16>, sampleRate: int): (r: seq<Byte>)
    ensures |r| == 44 + 2 * |s|
  {
    WavHeader(|s|, sampleRate) + SampleBytes(s)
  }

  // ---------------------------------------------------------------- reader

  function U16At(b: seq<Byte>, k: nat): nat
    requires k + 2 <= |b|
  {
    LeValue(b[k..k + 2])
  }

  function U32At(b: seq<Byte>, k: nat): nat
    requires k + 4 <= |b|
  {
    LeValue(b[k..k + 4])
  }

  datatype WavFile = WavFile(sampleRate: nat, samples: seq<Int16>)

  datatype WavError =
    | TooShort
    | NotRiff
    | RiffSizeMismatch
    | NotWave
    | NoFmtChunk
    | UnsupportedFormat
    | ByteRateMismatch
    | NoDataChunk
    | DataSizeMismatch

  datatype ParseResult = Parsed(file: WavFile) | Malformed(error: WavError)

  /** Samples stored as consecutive little-endian Int16 pairs; a trailing
      odd byte, which the reader rejects anyway, is not decoded. */
  function DecodeSamples(b: seq<Byte>): (s: seq<Int16>)
    ensures 2 * |s| <= |b| < 2 * |s| + 2
  {
    if |b| < 2 then []
    else
      assert LeValue(b[..2]) < TWO_16 by { Pow256Widths(); }
      [Int16Of(LeValue(b[..2]))] + DecodeSamples(b[2..])
  }

  /** Reads a buffer laid out as encodeWAV lays it out: every header field is
      checked against the value encodeWAV writes for a buffer of that size. */
  function ParseWav(b: seq<Byte>): ParseResult
  {
    if |b| < 44 then Malformed(TooShort)
    else if b[0..4] != Ascii("RIFF") then Malformed(NotRiff)
    else if U32At(b, 4) != (|b| - 8) % TWO_32 then Malformed(RiffSizeMismatch)
    else if b[8..12] != Ascii("WAVE") then Malformed(NotWave)
    else if b[12..16] != Ascii("fmt ") then Malformed(NoFmtChunk)
    else if U32At(b, 16) != 16 || U16At(b, 20) != 1 || U16At(b, 22) != 1
         || U16At(b, 32) != 2 || U16At(b, 34) != 16 then Malformed(UnsupportedFormat)
    else if U32At(b, 28) != (U32At(b, 24) * 2) % TWO_32 then Malformed(ByteRateMismatch)
    else if b[36..40] != Ascii("data") then Malformed(NoDataChunk)
    else if (|b| - 44) % 2 != 0 || U32At(b, 40) != (|b| - 44) % TWO_32 then Malformed(DataSizeMismatch)
    else Parsed(WavFile(U32At(b, 24), DecodeSamples(b[44..])))
  }

  // ---------------------------------------------------------------- layout

  /** The header fields, at the offsets encodeWAV writes them. */
  lemma HeaderLayout(n: nat, sampleRate: int)
    ensures var h := WavHeader(n, sampleRate);
            && h[0..4] == Ascii("RIFF")
            && h[4..8] == Le32(36 + n * 2)
            && h[8..12] == Ascii("WAVE")
            && h[12..16] == Ascii("fmt ")
            && h[16..20] == Le32(16)
            && h[20..22] == Le16(1)
            && h[22..24] == Le16(1)
            && h[24..28] == Le32(sampleRate)
            && h[28..32] == Le32(sampleRate * 2)
            && h[32..34] == Le16(2)
            && h[34..36] == Le16(16)
            && h[36..40] == Ascii("data")
            && h[40..44] == Le32(n * 2)
  {
  }

  /** The header read back field by field: sizes 36 + 2n and 2n (modulo 2^32),
      PCM format 1, one channel, the rate, twice the rate, block align 2 and
      16 bits per sample. */
  lemma HeaderFields(n: nat, sampleRate: int)
    ensures var h := WavHeader(n, sampleRate);
            && U32At(h, 4) == (36 + 2 * n) % TWO_32
            && U32At(h, 16) == 16
            && U16At(h, 20) == 1
            && U16At(h, 22) == 1
            && U32At(h, 24) == sampleRate % TWO_32
            && U32At(h, 28) == (2 * sampleRate) % TWO_32
            && U16At(h, 32) == 2
            && U16At(h, 34) == 16
            && U32At(h, 40) == (2 * n) % TWO_32
  {
    HeaderLayout(n, sampleRate);
    Le32Value(36 + n * 2);
    Le32Value(16);
    Le16Value(1);
    Le32Value(sampleRate);
    Le32Value(sampleRate * 2);
    Le16Value(2);
    Le16Value(16);
    Le32Value(n * 2);
  }

  /** Sample i of the data chunk occupies bytes 2i and 2i+1. */
  lemma {:induction false} SampleBytesAt(s: seq<Int16>, i: nat)
    requires i < |s|
    ensures SampleBytes(s)[2 * i..2 * i + 2] == Le16(s[i])
  {
    if i > 0 {
      SampleBytesAt(s[1..], i - 1);
      assert SampleBytes(s)[2 * i..2 * i + 2] == SampleBytes(s[1..])[2 * (i - 1)..2 * (i - 1) + 2];
    }
  }

  /** Sample i is stored at bytes 44+2i and 45+2i, and reading those two bytes
      back as a little-endian Int16 gives samples[i]. */
  lemma SampleAt(s: seq<Int16>, sampleRate: int, i: nat)
    requires i < |s|
    ensures U16At(WavBytes(s, sampleRate), 44 + 2 * i) < TWO_16
    ensures Int16Of(U16At(WavBytes(s, sampleRate), 44 + 2 * i)) == s[i]
  {
    SampleSlice(s, sampleRate, i);
    Int16RoundTrip(s[i]);
  }

  lemma SampleSlice(s: seq<Int16>, sampleRate: int, i: nat)
    requires i < |s|
    ensures WavBytes(s, sampleRate)[44 + 2 * i..46 + 2 * i] == Le16(s[i])
  {
    SampleBytesAt(s, i);
    var b := WavBytes(s, sampleRate);
    assert b[44 + 2 * i..46 + 2 * i] == SampleBytes(s)[2 * i..2 * i + 2];
  }

  // ------------------------------------------------------------ round trips

  lemma {:induction false} DecodeSampleBytes(s: seq<Int16>)
    ensures DecodeSamples(SampleBytes(s)) == s
  {
    if s != [] {
      var b := SampleBytes(s);
      assert b[..2] == Le16(s[0]) && b[2..] == SampleBytes(s[1..]);
      Int16RoundTrip(s[0]);
      DecodeSampleBytes(s[1..]);
    }
  }

  /** An even number of bytes decodes to exactly half as many samples. */
  lemma EvenDecode(b: seq<Byte>)
    requires |b| % 2 == 0
    ensures 2 * |DecodeSamples(b)| == |b|
  {
  }

  lemma {:induction false} SampleBytesOfDecode(b: seq<Byte>)
    requires |b| % 2 == 0
    ensures SampleBytes(DecodeSamples(b)) == b
  {
    if |b| >= 2 {
      Int16BytesRoundTrip(b[..2]);
      SampleBytesOfDecode(b[2..]);
      assert b == b[..2] + b[2..];
    }
  }

  /** Slices inside a known prefix. */
  lemma SliceOfPrefix(b: seq<Byte>, h: seq<Byte>, i: nat, j: nat)
    requires |h| <= |b| && b[..|h|] == h && i <= j <= |h|
    ensures b[i..j] == h[i..j]
  {
    forall k | 0 <= k < j - i
      ensures b[i..j][k] == h[i..j][k]
    {
      assert b[i + k] == b[..|h|][i + k];
    }
  }

  /** Two buffers that agree on [0, k) and on [k, k+m) agree on [0, k+m). */
  lemma PrefixExtend(a: seq<Byte>, b: seq<Byte>, k: nat, m: nat)
    requires k + m <= |a| && k + m <= |b|
    requires a[..k] == b[..k] && a[k..k + m] == b[k..k + m]
    ensures a[..k + m] == b[..k + m]
  {
    assert a[..k + m] == a[..k] + a[k..k + m];
    assert b[..k + m] == b[..k] + b[k..k + m];
  }

  lemma WavBytesParts(s: seq<Int16>, sampleRate: int)
    ensures WavBytes(s, sampleRate)[..44] == WavHeader(|s|, sampleRate)
    ensures WavBytes(s, sampleRate)[44..] == SampleBytes(s)
  {
  }

  /** The reader's checks, field by field. */
  lemma ParseAccepts(b: seq<Byte>)
    requires |b| >= 44 && (|b| - 44) % 2 == 0
    requires b[0..4] == Ascii("RIFF") && U32At(b, 4) == (|b| - 8) % TWO_32
    requires b[8..12] == Ascii("WAVE") && b[12..16] == Ascii("fmt ")
    requires U32At(b, 16) == 16 && U16At(b, 20) == 1 && U16At(b, 22) == 1
    requires U16At(b, 32) == 2 && U16At(b, 34) == 16
    requires U32At(b, 28) == (U32At(b, 24) * 2) % TWO_32
    requires b[36..40] == Ascii("data") && U32At(b, 40) == (|b| - 44) % TWO_32
    ensures ParseWav(b) == Parsed(WavFile(U32At(b, 24), DecodeSamples(b[44..])))
  {
  }

  /** A buffer that starts with the header for its own sample count is
      accepted, with the rate that header stores. */
  lemma ParseOfHeader(b: seq<Byte>, n: nat, sampleRate: int)
    requires |b| == 44 + 2 * n
    requires b[..44] == WavHeader(n, sampleRate)
    ensures ParseWav(b) == Parsed(WavFile(sampleRate % TWO_32, DecodeSamples(b[44..])))
  {
    PrefixLayout(b, n, sampleRate);
    FieldValues(b, n, sampleRate);
    ParseOfFields(b, n, sampleRate);
  }

  /** A byte string of 44 + 2n bytes whose fields hold the values of the
      header for n samples is accepted. */
  lemma ParseOfFields(b: seq<Byte>, n: nat, sampleRate: int)
    requires |b| == 44 + 2 * n
    requires && b[0..4] == Ascii("RIFF")
             && b[8..12] == Ascii("WAVE")
             && b[12..16] == Ascii("fmt ")
             && b[36..40] == Ascii("data")
    requires && U32At(b, 4) == (36 + 2 * n) % TWO_32
             && U32At(b, 16) == 16
             && U16At(b, 20) == 1
             && U16At(b, 22) == 1
             && U32At(b, 24) == sampleRate % TWO_32
             && U32At(b, 28) == (2 * sampleRate) % TWO_32
             && U16At(b, 32) == 2
             && U16At(b, 34) == 16
             && U32At(b, 40) == (2 * n) % TWO_32
    ensures ParseWav(b) == Parsed(WavFile(sampleRate % TWO_32, DecodeSamples(b[44..])))
  {
    SizeFields(b, n, sampleRate);
    ParseAccepts(b);
  }

  /** The size and byte-rate fields of the header for n samples, against the
      length of a 44 + 2n byte string, as the reader compares them. */
  lemma SizeFields(b: seq<Byte>, n: nat, sampleRate: int)
    requires |b| == 44 + 2 * n
    requires && U32At(b, 4) == (36 + 2 * n) % TWO_32
             && U32At(b, 24) == sampleRate % TWO_32
             && U32At(b, 28) == (2 * sampleRate) % TWO_32
             && U32At(b, 40) == (2 * n) % TWO_32
    ensures (|b| - 44) % 2 == 0
    ensures U32At(b, 4) == (|b| - 8) % TWO_32
    ensures U32At(b, 28) == (U32At(b, 24) * 2) % TWO_32
    ensures U32At(b, 40) == (|b| - 44) % TWO_32
  {
    DoubleMod(sampleRate);
    assert |b| - 8 == 36 + 2 * n && |b| - 44 == 2 * n;
  }

  /** The numeric header fields of a byte string laid out as a header. */
  lemma FieldValues(b: seq<Byte>, n: nat, sampleRate: int)
    requires |b| >= 44
    requires && b[4..8] == Le32(36 + n * 2)
             && b[16..20] == Le32(16)
             && b[20..22] == Le16(1)
             && b[22..24] == Le16(1)
             && b[24..28] == Le32(sampleRate)
             && b[28..32] == Le32(sampleRate * 2)
             && b[32..34] == Le16(2)
             && b[34..36] == Le16(16)
             && b[40..44] == Le32(n * 2)
    ensures && U32At(b, 4) == (36 + 2 * n) % TWO_32
            && U32At(b, 16) == 16
            && U16At(b, 20) == 1
            && U16At(b, 22) == 1
            && U32At(b, 24) == sampleRate % TWO_32
            && U32At(b, 28) == (2 * sampleRate) % TWO_32
            && U16At(b, 32) == 2
            && U16At(b, 34) == 16
            && U32At(b, 40) == (2 * n) % TWO_32
  {
    Le32Value(36 + n * 2);
    Le32Value(16);
    Le16Value(1);
    Le32Value(sampleRate);
    Le32Value(sampleRate * 2);
    Le16Value(2);
    Le16Value(16);
    Le32Value(n * 2);
  }

  /** The header fields of a byte string that starts with a header. */
  lemma PrefixLayout(b: seq<Byte>, n: nat, sampleRate: int)
    requires |b| >= 44 && b[..44] == WavHeader(n, sampleRate)
    ensures && b[0..4] == Ascii("RIFF")
            && b[4..8] == Le32(36 + n * 2)
            && b[8..12] == Ascii("WAVE")
            && b[12..16] == Ascii("fmt ")
            && b[16..20] == Le32(16)
            && b[20..22] == Le16(1)
            && b[22..24] == Le16(1)
            && b[24..28] == Le32(sampleRate)
            && b[28..32] == Le32(sampleRate * 2)
            && b[32..34] == Le16(2)
            && b[34..36] == Le16(16)
            && b[36..40] == Ascii("data")
            && b[40..44] == Le32(n * 2)
  {
    HeaderLayout(n, sampleRate);
    PrefixSlices(b, WavHeader(n, sampleRate));
  }

  /** A byte string that starts with h agrees with h on every header field. */
  lemma PrefixSlices(b: seq<Byte>, h: seq<Byte>)
    requires |h| == 44 && |h| <= |b| && b[..44] == h
    ensures && b[0..4] == h[0..4] && b[4..8] == h[4..8] && b[8..12] == h[8..12]
            && b[12..16] == h[12..16] && b[16..20] == h[16..20] && b[20..22] == h[20..22]
            && b[22..24] == h[22..24] && b[24..28] == h[24..28] && b[28..32] == h[28..32]
            && b[32..34] == h[32..34] && b[34..36] == h[34..36] && b[36..40] == h[36..40]
            && b[40..44] == h[40..44]
  {
    SliceOfPrefix(b, h, 0, 4);
    SliceOfPrefix(b, h, 4, 8);
    SliceOfPrefix(b, h, 8, 12);
    SliceOfPrefix(b, h, 12, 16);
    SliceOfPrefix(b, h, 16, 20);
    SliceOfPrefix(b, h, 20, 22);
    SliceOfPrefix(b, h, 22, 24);
    SliceOfPrefix(b, h, 24, 28);
    SliceOfPrefix(b, h, 28, 32);
    SliceOfPrefix(b, h, 32, 34);
    SliceOfPrefix(b, h, 34, 36);
    SliceOfPrefix(b, h, 36, 40);
    SliceOfPrefix(b, h, 40, 44);
  }

  /** The byte-rate field agrees with the stored rate: doubling commutes with
      the reduction modulo 2^32. */
  lemma DoubleMod(v: int)
    ensures ((v % TWO_32) * 2) % TWO_32 == (2 * v) % TWO_32
  {
    var m, q := v % TWO_32, v / TWO_32;
    assert 2 * v == m * 2 + (2 * q) * TWO_32;
    ModMultiple(m * 2, 2 * q);
  }

  lemma ModMultiple(x: int, k: int)
    ensures (x + k * TWO_32) % TWO_32 == x % TWO_32
  {
    var r, q := x % TWO_32, x / TWO_32;
    assert x + k * TWO_32 == (q + k) * TWO_32 + r;
  }

  /** Decoding what encodeWAV writes gives back the rate (as the 32-bit field
      stores it) and every sample. */
  lemma EncodeThenParse(s: seq<Int16>, sampleRate: int)
    ensures ParseWav(WavBytes(s, sampleRate)) == Parsed(WavFile(sampleRate % TWO_32, s))
  {
    WavBytesParts(s, sampleRate);
    ParseOfHeader(WavBytes(s, sampleRate), |s|, sampleRate);
    DecodeSampleBytes(s);
  }

  /** Conversely, every buffer the reader accepts is exactly what encodeWAV
      writes for the samples and the rate it reads. */
  lemma ParseThenEncode(b: seq<Byte>)
    requires ParseWav(b).Parsed?
    ensures var f := ParseWav(b).file;
            WavBytes(f.samples, f.sampleRate) == b
  {
    var f := ParseWav(b).file;
    assert |b| >= 44 && (|b| - 44) % 2 == 0 && f.samples == DecodeSamples(b[44..]);
    EvenDecode(b[44..]);
    var n := |f.samples|;
    var rate := f.sampleRate;
    var h := WavHeader(n, rate);
    HeaderLayout(n, rate);
    Uint32BytesRoundTrip(b[4..8]);
    Uint32BytesRoundTrip(b[16..20]);
    Uint16BytesRoundTrip(b[20..22]);
    Uint16BytesRoundTrip(b[22..24]);
    Uint32BytesRoundTrip(b[24..28]);
    Uint32BytesRoundTrip(b[28..32]);
    Uint16BytesRoundTrip(b[32..34]);
    Uint16BytesRoundTrip(b[34..36]);
    Uint32BytesRoundTrip(b[40..44]);
    Le32Wrap(36 + n * 2);
    Le32Wrap(rate * 2);
    Le32Wrap(n * 2);
    assert b[4..8] == h[4..8];
    assert b[28..32] == h[28..32];
    assert b[40..44] == h[40..44];
    HeaderFromSlices(b, h);
    SampleBytesOfDecode(b[44..]);
    assert b == b[..44] + b[44..];
  }

  lemma Le32Wrap(v: int)
    ensures Le32(v % TWO_32) == Le32(v)
  {
  }

  /** A 44-byte header is determined by its thirteen fields. */
  lemma HeaderFromSlices(b: seq<Byte>, h: seq<Byte>)
    requires |b| >= 44 && |h| == 44
    requires b[0..4] == h[0..4] && b[4..8] == h[4..8] && b[8..12] == h[8..12]
    requires b[12..16] == h[12..16] && b[16..20] == h[16..20] && b[20..22] == h[20..22]
    requires b[22..24] == h[22..24] && b[24..28] == h[24..28] && b[28..32] == h[28..32]
    requires b[32..34] == h[32..34] && b[34..36] == h[34..36] && b[36..40] == h[36..40]
    requires b[40..44] == h[40..44]
    ensures b[..44] == h
  {
    PrefixExtend(b, h, 0, 4);
    PrefixExtend(b, h, 4, 4);
    PrefixExtend(b, h, 8, 4);
    PrefixExtend(b, h, 12, 4);
    PrefixExtend(b, h, 16, 4);
    PrefixExtend(b, h, 20, 2);
    PrefixExtend(b, h, 22, 2);
    PrefixExtend(b, h, 24, 4);
    PrefixExtend(b, h, 28, 4);
    PrefixExtend(b, h, 32, 2);
    PrefixExtend(b, h, 34, 2);
    PrefixExtend(b, h, 36, 4);
    PrefixExtend(b, h, 40, 4);
  }

  // --------------------------------------------------------------- encoder

  /** The buffer after writing `bytes` at `offset`, everything else kept. */
  ghost predicate Spliced(after: seq<Byte>, before: seq<Byte>, offset: nat, bytes: seq<Byte>)
  {
    && |after| == |before|
    && offset + |bytes| <= |before|
    && after[..offset] == before[..offset]
    && after[offset..offset + |bytes|] == bytes
    && after[offset + |bytes|..] == before[offset + |bytes|..]
  }

  /** Stores each character code of str, one byte each, from offset on. */
  method WriteString(view: array<Byte>, offset: nat, str: string)
    requires offset + |str| <= view.Length
    modifies view
    ensures Spliced(view[..], old(view[..]), offset, Ascii(str))
  {
    for i := 0 to |str|
      invariant forall j :: 0 <= j < view.Length ==>
                  view[j] == if offset <= j < offset + i then Ascii(str)[j - offset] else old(view[j])
    {
      view[offset + i] := (str[i] as int) % 256;
    }
  }

  /** A little-endian 32-bit store at offset. */
  method SetUint32(view: array<Byte>, offset: nat, value: int)
    requires offset + 4 <= view.Length
    modifies view
    ensures Spliced(view[..], old(view[..]), offset, Le32(value))
  {
    var b := Le32(value);
    view[offset] := b[0];
    view[offset + 1] := b[1];
    view[offset + 2] := b[2];
    view[offset + 3] := b[3];
  }

  /** A little-endian 16-bit unsigned store at offset. */
  method SetUint16(view: array<Byte>, offset: nat, value: int)
    requires offset + 2 <= view.Length
    modifies view
    ensures Spliced(view[..], old(view[..]), offset, Le16(value))
  {
    var b := Le16(value);
    view[offset] := b[0];
    view[offset + 1] := b[1];
  }

  /** A little-endian 16-bit signed store at offset: the same two bytes as
      the unsigned store of the value modulo 2^16. */
  method SetInt16(view: array<Byte>, offset: nat, value: Int16)
    requires offset + 2 <= view.Length
    modifies view
    ensures Spliced(view[..], old(view[..]), offset, Le16(value))
  {
    SetUint16(view, offset, value);
  }

  /** Writing a run of fields at [start, end) leaves the rest alone. */
  lemma SplicedRun(a: seq<Byte>, b: seq<Byte>, c: seq<Byte>, o1: nat, x: seq<Byte>, y: seq<Byte>)
    requires Spliced(b, a, o1, x) && Spliced(c, b, o1 + |x|, y)
    ensures Spliced(c, a, o1, x + y)
  {
    assert c[o1..o1 + |x| + |y|] == c[o1..o1 + |x|] + c[o1 + |x|..o1 + |x| + |y|];
    assert c[o1..o1 + |x|] == b[o1..o1 + |x|] by {
      assert c[..o1 + |x|] == b[..o1 + |x|];
    }
  }

  /** The RIFF chunk descriptor: "RIFF", the chunk size and "WAVE". */
  method WriteRiffDescriptor(view: array<Byte>, n: nat)
    requires view.Length >= 44
    modifies view
    ensures Spliced(view[..], old(view[..]), 0, Ascii("RIFF") + Le32(36 + n * 2) + Ascii("WAVE"))
  {
    ghost var v0 := view[..];
    WriteString(view, 0, "RIFF");
    ghost var v1 := view[..];
    SetUint32(view, 4, 36 + n * 2);
    ghost var v2 := view[..];
    SplicedRun(v0, v1, v2, 0, Ascii("RIFF"), Le32(36 + n * 2));
    WriteString(view, 8, "WAVE");
    SplicedRun(v0, v2, view[..], 0, Ascii("RIFF") + Le32(36 + n * 2), Ascii("WAVE"));
  }

  /** The "fmt " sub-chunk for mono 16-bit PCM at the given rate. */
  method WriteFmtChunk(view: array<Byte>, sampleRate: int)
    requires view.Length >= 44
    modifies view
    ensures Spliced(view[..], old(view[..]), 12, FmtChunk(sampleRate))
  {
    ghost var v0 := view[..];
    WriteString(view, 12, "fmt ");
    ghost var acc := Ascii("fmt ");
    ghost var v := view[..];
    SetUint32(view, 16, 16);
    SplicedRun(v0, v, view[..], 12, acc, Le32(16));
    acc, v := acc + Le32(16), view[..];
    SetUint16(view, 20, 1);
    SplicedRun(v0, v, view[..], 12, acc, Le16(1));
    acc, v := acc + Le16(1), view[..];
    SetUint16(view, 22, 1);
    SplicedRun(v0, v, view[..], 12, acc, Le16(1));
    acc, v := acc + Le16(1), view[..];
    SetUint32(view, 24, sampleRate);
    SplicedRun(v0, v, view[..], 12, acc, Le32(sampleRate));
    acc, v := acc + Le32(sampleRate), view[..];
    SetUint32(view, 28, sampleRate * 2);
    SplicedRun(v0, v, view[..], 12, acc, Le32(sampleRate * 2));
    acc, v := acc + Le32(sampleRate * 2), view[..];
    SetUint16(view, 32, 2);
    SplicedRun(v0, v, view[..], 12, acc, Le16(2));
    acc, v := acc + Le16(2), view[..];
    SetUint16(view, 34, 16);
    SplicedRun(v0, v, view[..], 12, acc, Le16(16));
    acc := acc + Le16(16);
    assert acc == FmtChunk(sampleRate);
  }

  /** The "data" sub-chunk header: the tag and the byte count 2n. */
  method WriteDataHeader(view: array<Byte>, n: nat)
    requires view.Length >= 44
    modifies view
    ensures Spliced(view[..], old(view[..]), 36, Ascii("data") + Le32(n * 2))
  {
    ghost var v0 := view[..];
    WriteString(view, 36, "data");
    ghost var v1 := view[..];
    SetUint32(view, 40, n * 2);
    SplicedRun(v0, v1, view[..], 36, Ascii("data"), Le32(n * 2));
  }

  function FmtChunk(sampleRate: int): (r: seq<Byte>)
    ensures |r| == 24
  {
    Ascii("fmt ") + Le32(16) + Le16(1) + Le16(1)
    + Le32(sampleRate) + Le32(sampleRate * 2) + Le16(2) + Le16(16)
  }

  lemma HeaderParts(n: nat, sampleRate: int)
    ensures WavHeader(n, sampleRate)
         == (Ascii("RIFF") + Le32(36 + n * 2) + Ascii("WAVE")) + FmtChunk(sampleRate) + (Ascii("data") + Le32(n * 2))
  {
  }

  /** The header writes of encodeWAV, in the source's order. */
  method WriteHeader(view: array<Byte>, n: nat, sampleRate: int)
    requires view.Length >= 44
    modifies view
    ensures Spliced(view[..], old(view[..]), 0, WavHeader(n, sampleRate))
  {
    ghost var v0 := view[..];
    WriteRiffDescriptor(view, n);
    ghost var v1 := view[..];
    WriteFmtChunk(view, sampleRate);
    ghost var v2 := view[..];
    SplicedRun(v0, v1, v2, 0, Ascii("RIFF") + Le32(36 + n * 2) + Ascii("WAVE"), FmtChunk(sampleRate));
    WriteDataHeader(view, n);
    SplicedRun(v0, v2, view[..], 0, Ascii("RIFF") + Le32(36 + n * 2) + Ascii("WAVE") + FmtChunk(sampleRate),
               Ascii("data") + Le32(n * 2));
    HeaderParts(n, sampleRate);
  }

  lemma HeaderIsPrefix(b: seq<Byte>, s: seq<Int16>, sampleRate: int)
    requires |b| == 44 + 2 * |s|
    requires b[0..44] == WavHeader(|s|, sampleRate)
    ensures b[..44] == WavBytes(s, sampleRate)[..44]
  {
    WavBytesParts(s, sampleRate);
    assert b[..44] == b[0..44];
  }

  /** encodeWAV: a buffer of 44 + 2n bytes holding the header and then the
      samples, written in the order the source writes them. */
  method EncodeWav(samples: array<Int16>, sampleRate: int) returns (buffer: array<Byte>)
    ensures fresh(buffer)
    ensures buffer.Length == 44 + 2 * samples.Length
    ensures buffer[..] == WavBytes(samples[..], sampleRate)
  {
    var n := samples.Length;
    buffer := new Byte[44 + n * 2];
    ghost var target := WavBytes(samples[..], sampleRate);
    WriteHeader(buffer, n, sampleRate);
    HeaderIsPrefix(buffer[..], samples[..], sampleRate);
    for i := 0 to n
      invariant buffer.Length == 44 + 2 * n
      invariant buffer[..44 + 2 * i] == target[..44 + 2 * i]
    {
      SetInt16(buffer, 44 + i * 2, samples[i]);
      SampleSlice(samples[..], sampleRate, i);
      PrefixExtend(buffer[..], target, 44 + 2 * i, 2);
    }
    assert buffer[..] == buffer[..44 + 2 * n];
  }
}
