/**
 * `audioBufferToWav`: a decoded recording laid out as a canonical 44-byte RIFF/WAVE file
 * (one `fmt ` chunk for 16-bit PCM, one `data` chunk) followed by interleaved samples.
 * Samples are reals here; a browser `Float32Array` has no other values that matter once
 * the clamp below is applied (NaN is not modelled).
 */
module WavEncoder {
  import opened Bytes

  const HEADER_SIZE: nat := 44
  const PCM_FORMAT: nat := 1
  const BIT_DEPTH: nat := 16
  const INT16_MAX: nat := 0x7FFF

  /**
   * An `AudioBuffer`: one sample sequence per channel, every channel `length` frames long.
   */
  datatype AudioBuffer = AudioBuffer(channels: seq<seq<real>>, length: nat, sampleRate: nat)
  {
    predicate Valid() {
      forall c :: 0 <= c < |channels| ==> |channels[c]| == length
    }

    function NumChannels(): nat { |channels| }

    /** Bytes per frame: two per channel for 16-bit samples. */
    function BlockAlign(): nat { NumChannels() * (BIT_DEPTH / 8) }

    function DataSize(): nat { length * BlockAlign() }
  }

  /** `Math.max(-1, Math.min(1, x))`. */
  function Clamp(x: real): (y: real)
    ensures -1.0 <= y <= 1.0
    ensures -1.0 <= x <= 1.0 ==> y == x
  {
    if x < -1.0 then -1.0 else if x > 1.0 then 1.0 else x
  }

  /** `Math.floor(clamp(x) * 0x7FFF)`: the 16-bit sample written for `x`. */
  function Quantize(x: real): (q: int)
    ensures -(INT16_MAX as int) <= q <= INT16_MAX
    ensures x >= 1.0 ==> q == INT16_MAX
    ensures x <= -1.0 ==> q == -(INT16_MAX as int)
    ensures (q as real) <= Clamp(x) * INT16_MAX as real < (q + 1) as real
  {
    (Clamp(x) * INT16_MAX as real).Floor
  }

  /** The 44 header bytes, written field by field at consecutive offsets. */
  function Header(buf: AudioBuffer): (h: seq<uint8>)
    ensures |h| == HEADER_SIZE
  {
    Ascii("RIFF") + Le32(HEADER_SIZE + buf.DataSize() - 8) + Ascii("WAVE")
    + Ascii("fmt ") + Le32(16) + Le16(PCM_FORMAT) + Le16(buf.NumChannels())
    + Le32(buf.sampleRate) + Le32(buf.sampleRate * buf.BlockAlign())
    + Le16(buf.BlockAlign()) + Le16(BIT_DEPTH)
    + Ascii("data") + Le32(buf.DataSize())
  }

  /** The samples of frame `i`, one per channel in channel order. */
  function FrameSamples(buf: AudioBuffer, i: nat): (r: seq<int>)
    requires buf.Valid() && i < buf.length
    ensures |r| == buf.NumChannels()
    ensures forall c :: 0 <= c < |r| ==> r[c] == Quantize(buf.channels[c][i])
  {
    seq(buf.NumChannels(), c requires 0 <= c < buf.NumChannels() => Quantize(buf.channels[c][i]))
  }

  /** The samples of the first `n` frames, interleaved frame by frame. */
  function Interleave(buf: AudioBuffer, n: nat): (r: seq<int>)
    requires buf.Valid() && n <= buf.length
    decreases n
  {
    if n == 0 then [] else Interleave(buf, n - 1) + FrameSamples(buf, n - 1)
  }

  /** Frame `i`, channel `c` sits at interleaved index `i * channels + c`. */
  lemma {:induction false} InterleaveIndex(buf: AudioBuffer, n: nat, i: nat, c: nat)
    requires buf.Valid() && n <= buf.length && i < n && c < buf.NumChannels()
    ensures |Interleave(buf, n)| == n * buf.NumChannels()
    ensures Interleave(buf, n)[i * buf.NumChannels() + c] == Quantize(buf.channels[c][i])
    decreases n
  {
    var k := buf.NumChannels();
    var prefix := Interleave(buf, n - 1);
    InterleaveLength(buf, n);
    InterleaveLength(buf, n - 1);
    if i < n - 1 {
      InterleaveIndex(buf, n - 1, i, c);
      SlotBound(i, c, n - 1, k);
      assert Interleave(buf, n)[i * k + c] == prefix[i * k + c];
    } else {
      assert i * k + c == |prefix| + c;
      assert Interleave(buf, n)[|prefix| + c] == FrameSamples(buf, n - 1)[c];
    }
  }

  lemma {:induction false} InterleaveLength(buf: AudioBuffer, n: nat)
    requires buf.Valid() && n <= buf.length
    ensures |Interleave(buf, n)| == n * buf.NumChannels()
    decreases n
  {
    if n > 0 {
      InterleaveLength(buf, n - 1);
      MulSucc(n - 1, buf.NumChannels());
    }
  }

  lemma MulTwo(n: nat, k: nat)
    ensures n * (k * 2) == 2 * (n * k)
  {
  }

  lemma MulSucc(n: nat, k: nat)
    ensures n * k + k == (n + 1) * k
  {
  }

  /** Slot `i * k + c` of a `k`-wide frame lies before frame `n` when `i < n`. */
  lemma SlotBound(i: nat, c: nat, n: nat, k: nat)
    requires i < n && c < k
    ensures i * k + c < n * k
  {
    MulSucc(i, k);
    MulMono(i + 1, n, k);
  }

  lemma {:induction false} MulMono(a: nat, b: nat, k: nat)
    requires a <= b
    ensures a * k <= b * k
    decreases b - a
  {
    if a < b {
      MulMono(a, b - 1, k);
      MulSucc(b - 1, k);
    }
  }

  /** Byte offset of frame `i`, channel `c` in a file with `k` channels. */
  function SampleOffset(k: nat, i: nat, c: nat): nat {
    HEADER_SIZE + 2 * (i * k + c)
  }

  /** Every sample of `buf` can be read back, as a signed 16-bit field, at its offset in `out`. */
  predicate SamplesLaidOut(buf: AudioBuffer, out: seq<uint8>)
    requires buf.Valid()
  {
    forall i, c :: 0 <= i < buf.length && 0 <= c < buf.NumChannels() ==>
      && SampleOffset(buf.NumChannels(), i, c) + 2 <= |out|
      && S16At(out, SampleOffset(buf.NumChannels(), i, c)) == Quantize(buf.channels[c][i])
  }

  /** Samples stored as consecutive signed 16-bit little-endian fields. */
  function Encode16(s: seq<int>): (r: seq<uint8>)
    ensures |r| == 2 * |s|
    decreases |s|
  {
    if |s| == 0 then [] else Encode16(s[..|s| - 1]) + Le16(s[|s| - 1])
  }

  /** Sample `k` occupies bytes `2k` and `2k + 1`. */
  lemma {:induction false} Encode16Index(s: seq<int>, k: nat)
    requires k < |s|
    ensures Encode16(s)[2 * k..2 * k + 2] == Le16(s[k])
    decreases |s|
  {
    var init := s[..|s| - 1];
    if k < |s| - 1 {
      Encode16Index(init, k);
      assert Encode16(s)[2 * k..2 * k + 2] == Encode16(init)[2 * k..2 * k + 2];
      assert init[k] == s[k];
    }
  }

  /** Encoding a concatenation encodes each part in turn. */
  lemma {:induction false} Encode16Append(a: seq<int>, b: seq<int>)
    ensures Encode16(a + b) == Encode16(a) + Encode16(b)
    decreases |b|
  {
    if |b| > 0 {
      var ab := a + b;
      assert ab[..|ab| - 1] == a + b[..|b| - 1];
      Encode16Append(a, b[..|b| - 1]);
    } else {
      assert a + b == a;
    }
  }

  /**
   * The WAV file for `buf`. The loop follows the source: frame by frame, channel by
   * channel, each clamped sample written as a little-endian 16-bit integer.
   */
  method AudioBufferToWav(buf: AudioBuffer) returns (out: seq<uint8>)
    requires buf.Valid()
    ensures |out| == HEADER_SIZE + buf.length * buf.BlockAlign()
    ensures out[..HEADER_SIZE] == Header(buf)
    ensures SamplesLaidOut(buf, out)
  {
    var header := Header(buf);
    out := header;
    var sampleIndex := 0;
    while sampleIndex < buf.length
      invariant 0 <= sampleIndex <= buf.length
      invariant out == header + Encode16(Interleave(buf, sampleIndex))
    {
      out := WriteFrame(buf, sampleIndex, out);
      FrameWritten(header, buf, sampleIndex);
      sampleIndex := sampleIndex + 1;
    }
    WavSamplesLayout(buf, out);
  }

  /** The inner loop: the samples of frame `i`, channel by channel, appended to `prefix`. */
  method WriteFrame(buf: AudioBuffer, i: nat, prefix: seq<uint8>) returns (out: seq<uint8>)
    requires buf.Valid() && i < buf.length
    ensures out == prefix + Encode16(FrameSamples(buf, i))
  {
    ghost var frame := FrameSamples(buf, i);
    out := prefix;
    var channel := 0;
    assert frame[..0] == [];
    while channel < buf.NumChannels()
      invariant 0 <= channel <= buf.NumChannels()
      invariant out == prefix + Encode16(frame[..channel])
    {
      var intSample := Quantize(buf.channels[channel][i]);
      AppendSample(frame, channel);
      out := out + Le16(intSample);
      channel := channel + 1;
    }
    assert frame[..channel] == frame;
  }

  /** One step of the inner loop: writing the next sample extends the encoded prefix. */
  lemma AppendSample(frame: seq<int>, channel: nat)
    requires channel < |frame|
    ensures Encode16(frame[..channel + 1]) == Encode16(frame[..channel]) + Le16(frame[channel])
  {
    assert frame[..channel + 1][..channel] == frame[..channel];
  }

  /** After the inner loop the whole frame has been appended. */
  lemma FrameWritten(header: seq<uint8>, buf: AudioBuffer, i: nat)
    requires buf.Valid() && i < buf.length
    ensures header + Encode16(Interleave(buf, i)) + Encode16(FrameSamples(buf, i))
         == header + Encode16(Interleave(buf, i + 1))
  {
    Encode16Append(Interleave(buf, i), FrameSamples(buf, i));
  }

  /** Reads every sample back from the bytes after the header. */
  lemma WavSamplesLayout(buf: AudioBuffer, out: seq<uint8>)
    requires buf.Valid()
    requires out == Header(buf) + Encode16(Interleave(buf, buf.length))
    ensures |out| == HEADER_SIZE + buf.length * buf.BlockAlign()
    ensures out[..HEADER_SIZE] == Header(buf)
    ensures SamplesLaidOut(buf, out)
  {
    var k := buf.NumChannels();
    InterleaveLength(buf, buf.length);
    assert buf.BlockAlign() == k * 2;
    MulTwo(buf.length, k);
    forall i, c | 0 <= i < buf.length && 0 <= c < k
      ensures SampleOffset(k, i, c) + 2 <= |out|
      ensures S16At(out, SampleOffset(k, i, c)) == Quantize(buf.channels[c][i])
    {
      SampleReadsBack(buf, i, c);
    }
  }

  /** The file as the method writes it: the header, then every frame's samples. */
  function WavBytes(buf: AudioBuffer): seq<uint8>
    requires buf.Valid()
  {
    Header(buf) + Encode16(Interleave(buf, buf.length))
  }

  /** The sample of frame `i`, channel `c` reads back, quantised, at its offset in the file. */
  lemma SampleReadsBack(buf: AudioBuffer, i: nat, c: nat)
    requires buf.Valid() && i < buf.length && c < buf.NumChannels()
    ensures SampleOffset(buf.NumChannels(), i, c) + 2 <= |WavBytes(buf)|
    ensures S16At(WavBytes(buf), SampleOffset(buf.NumChannels(), i, c)) == Quantize(buf.channels[c][i])
  {
    var samples := Interleave(buf, buf.length);
    InterleaveIndex(buf, buf.length, i, c);
    SlotBound(i, c, buf.length, buf.NumChannels());
    EncodedAt(Header(buf), samples, i * buf.NumChannels() + c);
  }

  /** Sample `j` of the encoded samples reads back at `2j` bytes past a 44-byte header. */
  lemma EncodedAt(h: seq<uint8>, samples: seq<int>, j: nat)
    requires |h| == HEADER_SIZE && j < |samples|
    requires -(INT16_MAX as int) <= samples[j] <= INT16_MAX
    ensures HEADER_SIZE + 2 * j + 2 <= |h + Encode16(samples)|
    ensures S16At(h + Encode16(samples), HEADER_SIZE + 2 * j) == samples[j]
  {
    var out := h + Encode16(samples);
    Encode16Index(samples, j);
    assert out[HEADER_SIZE + 2 * j..HEADER_SIZE + 2 * j + 2] == Encode16(samples)[2 * j..2 * j + 2];
    Le16Signed(samples[j]);
  }

  /**
   * The header, read back field by field: chunk identifiers, the RIFF size (data size plus
   * 36, as a 32-bit field), the PCM format, channel count, rates, block alignment and
   * bit depth, and the data size.
   */
  lemma HeaderFields(buf: AudioBuffer)
    ensures var h := Header(buf);
      && h[0..4] == Ascii("RIFF")
      && U32At(h, 4) == (buf.DataSize() + 36) % TWO_32
      && h[8..12] == Ascii("WAVE")
      && h[12..16] == Ascii("fmt ")
      && U32At(h, 16) == 16
      && U16At(h, 20) == PCM_FORMAT
      && U16At(h, 22) == buf.NumChannels() % TWO_16
      && U32At(h, 24) == buf.sampleRate % TWO_32
      && U32At(h, 28) == (buf.sampleRate * buf.BlockAlign()) % TWO_32
      && U16At(h, 32) == buf.BlockAlign() % TWO_16
      && U16At(h, 34) == BIT_DEPTH
      && h[36..40] == Ascii("data")
      && U32At(h, 40) == buf.DataSize() % TWO_32
  {
    var h := Header(buf);
    assert h[4..8] == Le32(HEADER_SIZE + buf.DataSize() - 8);
    assert h[16..20] == Le32(16);
    assert h[20..22] == Le16(PCM_FORMAT);
    assert h[22..24] == Le16(buf.NumChannels());
    assert h[24..28] == Le32(buf.sampleRate);
    assert h[28..32] == Le32(buf.sampleRate * buf.BlockAlign());
    assert h[32..34] == Le16(buf.BlockAlign());
    assert h[34..36] == Le16(BIT_DEPTH);
    assert h[40..44] == Le32(buf.DataSize());
    Le32Decode(HEADER_SIZE + buf.DataSize() - 8);
    Le32Decode(16);
    Le16Decode(PCM_FORMAT);
    Le16Decode(buf.NumChannels());
    Le32Decode(buf.sampleRate);
    Le32Decode(buf.sampleRate * buf.BlockAlign());
    Le16Decode(buf.BlockAlign());
    Le16Decode(BIT_DEPTH);
    Le32Decode(buf.DataSize());
  }

  /** The RIFF size field is the file length minus the 8 bytes of the RIFF chunk header. */
  lemma RiffSizeIsFileLengthMinus8(buf: AudioBuffer, out: seq<uint8>)
    requires |out| == HEADER_SIZE + buf.length * buf.BlockAlign()
    requires out[..HEADER_SIZE] == Header(buf)
    ensures U32At(out, 4) == (|out| - 8) % TWO_32
  {
    HeaderFields(buf);
    assert out[4..8] == Header(buf)[4..8];
  }
}
