/** PCM on its way through the FLAC frame: bytes to samples, blocks of planes back to interleaved
    samples, samples back to 16-bit bytes.

    The codec itself is outside and taken to be lossless: the decoder hands back the samples the
    encoder was given, cut into blocks of any size.  Samples are stored low byte first. */
module FlacPcm {
  import opened Values

  const COUNT := 0x1_0000_0000

  // ----- samples -----

  function Signed16(low: byte, high: byte): (s: int)
    ensures -32768 <= s < 32768
  {
    var u := low as int + 256 * high as int;
    if u < 32768 then u else u - 65536
  }

  function Signed32(b: seq<byte>): (s: int)
    requires |b| == 4
  {
    var u := b[0] as int + 0x100 * b[1] as int + 0x1_0000 * b[2] as int + 0x100_0000 * b[3] as int;
    if u < 0x8000_0000 then u else u - 0x1_0000_0000
  }

  /** Sample `i` of a byte string. */
  function SampleAt(pcm: seq<byte>, depth: int, i: nat): int
    requires depth == 16 || depth == 32
    requires (i + 1) * (depth / 8) <= |pcm|
  {
    if depth == 16 then Signed16(pcm[2 * i], pcm[2 * i + 1]) else Signed32(pcm[4 * i..4 * i + 4])
  }

  function Samples(pcm: seq<byte>, depth: int, n: nat): (r: seq<int>)
    requires depth == 16 || depth == 32
    requires n * (depth / 8) <= |pcm|
    ensures |r| == n
  {
    seq(n, i requires 0 <= i < n => SampleAt(pcm, depth, i))
  }

  function Clamp(s: int): (r: int)
    ensures -32768 <= r < 32768
  {
    if s < -32768 then -32768 else if s > 32767 then 32767 else s
  }

  function Low(s: int): byte
    requires -32768 <= s < 32768
  {
    (s % 256) as byte
  }

  function High(s: int): byte
    requires -32768 <= s < 32768
  {
    (s % 65536 / 256) as byte
  }

  /** Samples clamped to 16 bits, as bytes. */
  function Pcm16(samples: seq<int>): (r: seq<byte>)
    ensures |r| == 2 * |samples|
  {
    seq(2 * |samples|, k requires 0 <= k < 2 * |samples| =>
      if k % 2 == 0 then Low(Clamp(samples[k / 2])) else High(Clamp(samples[k / 2])))
  }

  lemma SampleBytes(low: byte, high: byte)
    ensures Clamp(Signed16(low, high)) == Signed16(low, high)
    ensures Low(Signed16(low, high)) == low && High(Signed16(low, high)) == high
  {
  }

  lemma BytesSample(s: int)
    requires -32768 <= s < 32768
    ensures Signed16(Low(s), High(s)) == s
  {
    var u := s % 65536;
    assert u == if s < 0 then s + 65536 else s;
    assert u == 256 * (u / 256) + u % 256 && u % 256 == s % 256;
  }

  /** Four bytes are a sample in two's complement, the low byte first. */
  lemma FourBytesExactly(b: seq<byte>)
    requires |b| == 4
    ensures -0x8000_0000 <= Signed32(b) < 0x8000_0000
    ensures (Signed32(b) - (b[0] as int + 0x100 * (b[1] as int + 0x100 * (b[2] as int + 0x100 * b[3] as int)))) % COUNT == 0
  {
  }

  // ----- the encoder's side -----

  /** What the encoder produces: an exception, nothing at all, or a stream of frames. */
  datatype Encoded =
    | Refused
    | NoBytes
    | Stream(channels: nat, sampleRate: nat, bitDepth: int, samples: seq<int>)

  predicate Accepted(channels: int, sampleRate: int, bitDepth: int) {
    channels > 0 && sampleRate > 0 && (bitDepth == 16 || bitDepth == 32)
  }

  /** Whole frames in a byte string; a rest is cut off. */
  function Frames(pcm: seq<byte>, channels: int, bitDepth: int): (n: nat)
    requires channels > 0 && (bitDepth == 16 || bitDepth == 32)
    ensures n * channels * (bitDepth / 8) <= |pcm|
    ensures |pcm| < (n + 1) * channels * (bitDepth / 8)
  {
    var n := |pcm| / (channels * (bitDepth / 8));
    WholeFrames(|pcm|, channels, bitDepth / 8);
    n
  }

  lemma WholeFrames(total: nat, channels: nat, width: nat)
    requires channels > 0 && width > 0
    ensures channels * width > 0
    ensures var n := total / (channels * width);
            n >= 0 && n * channels * width <= total < (n + 1) * channels * width
  {
    assert channels * width > 0;
    var size := channels * width;
    var n := total / size;
    assert n * size <= total < (n + 1) * size;
    Associate(n, channels, width);
    Associate(n + 1, channels, width);
  }

  lemma Associate(a: nat, b: nat, c: nat)
    ensures a * b * c == a * (b * c)
  {
  }

  /** The frames the library is told about: the count is narrowed to 32 bits. */
  function Handed(frames: nat): nat {
    frames % COUNT
  }

  lemma HandedFits(frames: nat, channels: nat)
    ensures Handed(frames) * channels <= frames * channels
    ensures Handed(frames) == frames <==> frames < COUNT
  {
    assert Handed(frames) <= frames;
  }

  function Encoding(pcm: seq<byte>, channels: int, sampleRate: int, bitDepth: int): Encoded {
    if !Accepted(channels, sampleRate, bitDepth) then Refused
    else
      var frames := Frames(pcm, channels, bitDepth);
      if frames == 0 then NoBytes
      else
        HandedFits(frames, channels);
        Stream(channels, sampleRate, bitDepth, Samples(pcm, bitDepth, frames * channels)[..Handed(frames) * channels])
  }

  /** The loop that turns bytes into the library's 32-bit samples. */
  method ReadSamples(pcm: seq<byte>, bitDepth: int, n: nat) returns (samples: array<int>)
    requires bitDepth == 16 || bitDepth == 32
    requires n * (bitDepth / 8) <= |pcm|
    ensures fresh(samples) && samples[..] == Samples(pcm, bitDepth, n)
  {
    samples := new int[n];
    if bitDepth == 16 {
      for i := 0 to n
        invariant forall j | 0 <= j < i :: samples[j] == SampleAt(pcm, bitDepth, j)
      {
        samples[i] := Signed16(pcm[i * 2], pcm[i * 2 + 1]);
      }
    } else {
      for i := 0 to n
        invariant forall j | 0 <= j < i :: samples[j] == SampleAt(pcm, bitDepth, j)
      {
        samples[i] := Signed32(pcm[i * 4..i * 4 + 4]);
      }
    }
  }

  method EncodeFlac(pcm: seq<byte>, channels: int, sampleRate: int, bitDepth: int) returns (r: Encoded)
    ensures r == Encoding(pcm, channels, sampleRate, bitDepth)
  {
    if channels <= 0 { return Refused; }
    if sampleRate <= 0 { return Refused; }
    if !(bitDepth == 16 || bitDepth == 32) { return Refused; }
    var frames := Frames(pcm, channels, bitDepth);
    if frames == 0 { return NoBytes; }
    var samples := ReadSamples(pcm, bitDepth, frames * channels);
    HandedFits(frames, channels);
    r := Stream(channels, sampleRate, bitDepth, samples[..Handed(frames) * channels]);
  }

  /** The encoder refuses a channel count or a rate below one and any depth but 16 and 32 bits; all else
      it takes, if only to make nothing of it. */
  lemma RefusesExactly(pcm: seq<byte>, channels: int, sampleRate: int, bitDepth: int)
    ensures Encoding(pcm, channels, sampleRate, bitDepth).Refused?
            <==> channels < 1 || sampleRate < 1 || (bitDepth != 16 && bitDepth != 32)
    ensures Encoding(pcm, channels, sampleRate, bitDepth).Stream? ==>
              var e := Encoding(pcm, channels, sampleRate, bitDepth);
              e.channels == channels && e.sampleRate == sampleRate && e.bitDepth == bitDepth
  {
  }

  // ----- the decoder's side -----

  /** One decoded block: a plane of `size` samples for each channel. */
  datatype Block = Block(planes: seq<seq<int>>, size: nat)

  predicate IsBlock(b: Block, channels: nat) {
    |b.planes| == channels && forall ch | 0 <= ch < channels :: |b.planes[ch]| == b.size
  }

  /** Frame `i` of a block: one sample of every channel. */
  function Row(b: Block, channels: nat, i: nat): (r: seq<int>)
    requires IsBlock(b, channels) && i < b.size
    ensures |r| == channels
  {
    seq(channels, ch requires 0 <= ch < channels => b.planes[ch][i])
  }

  /** The first `n` frames of a block, one after the other. */
  function Interleaved(b: Block, channels: nat, n: nat): (r: seq<int>)
    requires IsBlock(b, channels) && n <= b.size
    ensures |r| == n * channels
  {
    if n == 0 then [] else Interleaved(b, channels, n - 1) + Row(b, channels, n - 1)
  }

  ghost predicate AreBlocks(blocks: seq<Block>, channels: nat) {
    forall i | 0 <= i < |blocks| :: IsBlock(blocks[i], channels)
  }

  function AllInterleaved(blocks: seq<Block>, channels: nat): seq<int>
    requires AreBlocks(blocks, channels)
  {
    if blocks == [] then []
    else
      var last := blocks[|blocks| - 1];
      AllInterleaved(blocks[..|blocks| - 1], channels) + Interleaved(last, channels, last.size)
  }

  class DecodeContext {
    var decoded: array<int>

    constructor ()
      ensures fresh(decoded) && decoded[..] == []
    {
      decoded := new int[0];
    }

    /** Room for `more` samples behind those decoded so far. */
    method Grow(more: nat)
      modifies this
      ensures fresh(decoded) && decoded.Length == old(decoded.Length) + more
      ensures decoded[..old(decoded.Length)] == old(decoded[..])
    {
      var larger := new int[decoded.Length + more];
      for k := 0 to decoded.Length
        invariant decoded == old(decoded) && decoded[..] == old(decoded[..]) && k <= decoded.Length
        invariant larger[..k] == decoded[..k]
      {
        larger[k] := decoded[k];
      }
      decoded := larger;
    }

    /** flacWritePcmCb: planes become interleaved frames at the end of the buffer. */
    method WriteBlock(b: Block, channels: nat)
      requires IsBlock(b, channels)
      modifies this
      ensures fresh(decoded)
      ensures decoded[..] == old(decoded[..]) + Interleaved(b, channels, b.size)
    {
      var base := decoded.Length;
      ghost var before := decoded[..];
      Grow(channels * b.size);
      for i := 0 to b.size
        invariant fresh(decoded) && decoded.Length == base + channels * b.size
        invariant i * channels <= channels * b.size
        invariant decoded[..base + i * channels] == before + Interleaved(b, channels, i)
      {
        RowFits(i, b.size, channels);
        WriteRow(b, channels, i, base, before);
      }
      assert decoded[..] == decoded[..base + b.size * channels];
    }

    /** The inner loop: one frame. */
    method WriteRow(b: Block, channels: nat, i: nat, base: nat, ghost before: seq<int>)
      requires IsBlock(b, channels) && i < b.size && base == |before|
      requires base + i * channels + channels <= decoded.Length
      requires decoded[..base + i * channels] == before + Interleaved(b, channels, i)
      modifies decoded
      ensures decoded[..base + (i + 1) * channels] == before + Interleaved(b, channels, i + 1)
    {
      ghost var done := decoded[..base + i * channels];
      for ch := 0 to channels
        invariant decoded[..base + i * channels] == done
        invariant decoded[base + i * channels..base + i * channels + ch] == Row(b, channels, i)[..ch]
      {
        decoded[base + i * channels + ch] := b.planes[ch][i];
      }
      assert base + (i + 1) * channels == base + i * channels + channels;
      assert decoded[..base + (i + 1) * channels]
             == done + decoded[base + i * channels..base + i * channels + channels];
    }
  }

  lemma RowFits(i: nat, size: nat, channels: nat)
    requires i < size
    ensures i * channels + channels == (i + 1) * channels <= channels * size
  {
    assert (size - i - 1) * channels >= 0;
    assert (size - i - 1) * channels == channels * size - (i + 1) * channels;
  }

  /** The clamping loop. */
  method WritePcm16(samples: array<int>) returns (pcm: array<byte>)
    ensures fresh(pcm) && pcm[..] == Pcm16(samples[..])
  {
    pcm := new byte[2 * samples.Length];
    for i := 0 to samples.Length
      invariant forall k | 0 <= k < 2 * i :: pcm[k] == Pcm16(samples[..])[k]
    {
      var s := Clamp(samples[i]);
      pcm[2 * i] := Low(s);
      pcm[2 * i + 1] := High(s);
    }
  }

  /** decodeFlacToPcm16_, given the blocks the decoder calls back with. */
  method DecodeFlac(blocks: seq<Block>, channels: nat) returns (pcm: array<byte>)
    requires AreBlocks(blocks, channels)
    ensures fresh(pcm) && pcm[..] == Pcm16(AllInterleaved(blocks, channels))
  {
    var ctx := new DecodeContext();
    for i := 0 to |blocks|
      invariant fresh(ctx) && fresh(ctx.decoded) && ctx.decoded[..] == AllInterleaved(blocks[..i], channels)
    {
      assert blocks[..i + 1][..i] == blocks[..i];
      ctx.WriteBlock(blocks[i], channels);
    }
    assert blocks[..|blocks|] == blocks;
    pcm := WritePcm16(ctx.decoded);
  }

  // ----- round trips -----

  /** A lossless decoder calls back with the encoder's samples, in blocks of any size. */
  ghost predicate Carries(e: Encoded, blocks: seq<Block>)
    requires e.Stream?
  {
    AreBlocks(blocks, e.channels) && AllInterleaved(blocks, e.channels) == e.samples
  }

  /** Clamping does nothing to 16-bit samples, and their bytes are the ones they came from. */
  lemma Pcm16OfSamples(pcm: seq<byte>, n: nat)
    requires 2 * n <= |pcm|
    ensures Pcm16(Samples(pcm, 16, n)) == pcm[..2 * n]
  {
    forall k | 0 <= k < 2 * n ensures Pcm16(Samples(pcm, 16, n))[k] == pcm[k] {
      SampleBytes(pcm[2 * (k / 2)], pcm[2 * (k / 2) + 1]);
    }
  }

  lemma SamplesPrefix(pcm: seq<byte>, depth: int, n: nat, m: nat)
    requires (depth == 16 || depth == 32) && m <= n && n * (depth / 8) <= |pcm|
    ensures m * (depth / 8) <= |pcm| && Samples(pcm, depth, n)[..m] == Samples(pcm, depth, m)
  {
  }

  /** For every channel count and every 16-bit byte string, decoding what was encoded gives a prefix
      of it: the bytes of the samples handed over.  Less than one frame is missing, so that it is
      the longest prefix of whole frames, if and only if the frame count fits into 32 bits. */
  lemma RoundTrip16(pcm: seq<byte>, channels: int, sampleRate: int, blocks: seq<Block>)
    requires var e := Encoding(pcm, channels, sampleRate, 16); e.Stream? && Carries(e, blocks)
    ensures var e, back := Encoding(pcm, channels, sampleRate, 16), Pcm16(AllInterleaved(blocks, channels));
            && |back| == 2 * |e.samples| && back <= pcm
            && (|pcm| - |back| < 2 * channels <==> Frames(pcm, channels, 16) < COUNT)
  {
    var frames := Frames(pcm, channels, 16);
    HandedFits(frames, channels);
    SamplesPrefix(pcm, 16, frames * channels, Handed(frames) * channels);
    Pcm16OfSamples(pcm, Handed(frames) * channels);
    MissingFrames(frames, channels, |pcm|);
  }

  lemma MissingFrames(frames: nat, channels: nat, total: nat)
    requires channels > 0 && frames * channels * 2 <= total < (frames + 1) * channels * 2
    ensures total - 2 * (Handed(frames) * channels) < 2 * channels <==> frames < COUNT
  {
    assert (frames + 1) * channels == frames * channels + channels;
    if frames >= COUNT {
      MoreFrames(Handed(frames), frames, channels);
    }
  }

  lemma MoreFrames(m: nat, n: nat, channels: nat)
    requires m < n
    ensures m * channels + channels <= n * channels
  {
    assert (n - m - 1) * channels >= 0;
    assert n * channels == m * channels + channels + (n - m - 1) * channels;
  }

  /** Nothing is encoded only when there is no whole frame to encode. */
  lemma NothingToEncode(pcm: seq<byte>, channels: int, sampleRate: int, bitDepth: int)
    requires Accepted(channels, sampleRate, bitDepth)
    ensures Encoding(pcm, channels, sampleRate, bitDepth).NoBytes? <==> |pcm| < channels * (bitDepth / 8)
  {
    var n := Frames(pcm, channels, bitDepth);
    if n > 0 {
      assert n * channels >= channels;
      assert n * channels * (bitDepth / 8) >= channels * (bitDepth / 8);
    }
  }

  /** The samples a stream carries are those of the input. */
  lemma StreamSample(pcm: seq<byte>, channels: int, sampleRate: int, bitDepth: int, i: nat)
    requires var e := Encoding(pcm, channels, sampleRate, bitDepth); e.Stream? && i < |e.samples|
    ensures (i + 1) * (bitDepth / 8) <= |pcm|
    ensures Encoding(pcm, channels, sampleRate, bitDepth).samples[i] == SampleAt(pcm, bitDepth, i)
  {
    var frames := Frames(pcm, channels, bitDepth);
    HandedFits(frames, channels);
    var all := Samples(pcm, bitDepth, frames * channels);
    assert Encoding(pcm, channels, sampleRate, bitDepth).samples[i] == all[i];
  }

  /** 32-bit input comes back as 16-bit samples: each one is kept exactly when it fits. */
  lemma RoundTrip32(pcm: seq<byte>, channels: int, sampleRate: int, blocks: seq<Block>, i: nat)
    requires var e := Encoding(pcm, channels, sampleRate, 32); e.Stream? && Carries(e, blocks) && i < |e.samples|
    ensures var back := Pcm16(AllInterleaved(blocks, channels));
            && |back| == 2 * |Encoding(pcm, channels, sampleRate, 32).samples| && 4 * i + 4 <= |pcm|
            && var s := SampleAt(pcm, 32, i);
            && Signed16(back[2 * i], back[2 * i + 1]) == Clamp(s)
            && (Signed16(back[2 * i], back[2 * i + 1]) == s <==> -32768 <= s < 32768)
  {
    StreamSample(pcm, channels, sampleRate, 32, i);
    PcmAt(AllInterleaved(blocks, channels), i);
  }

  lemma PcmAt(samples: seq<int>, i: nat)
    requires i < |samples|
    ensures Signed16(Pcm16(samples)[2 * i], Pcm16(samples)[2 * i + 1]) == Clamp(samples[i])
  {
    BytesSample(Clamp(samples[i]));
  }

  // ----- how the decoder is fed -----

  datatype Feed = Abort | EndOfStream | Continue(chunk: seq<byte>)

  class ReadContext {
    const input: seq<byte>
    var pos: nat

    ghost predicate Valid()
      reads this
    {
      pos <= |input|
    }

    constructor (bytes: seq<byte>)
      ensures Valid() && input == bytes && pos == 0
    {
      input, pos := bytes, 0;
    }

    /** flacReadCb: at most the number of bytes asked for. */
    method Read(wanted: nat) returns (r: Feed)
      requires Valid()
      modifies this
      ensures Valid() && r == FeedOf(input, old(pos), wanted) && pos == Reach(old(pos), wanted, |input|)
    {
      if wanted == 0 { return Abort; }
      var remaining := |input| - pos;
      var toCopy := if wanted < remaining then wanted else remaining;
      if toCopy == 0 { return EndOfStream; }
      r := Continue(input[pos..pos + toCopy]);
      pos := pos + toCopy;
    }
  }

  function FeedOf(input: seq<byte>, pos: nat, wanted: nat): Feed
    requires pos <= |input|
  {
    if wanted == 0 then Abort
    else if pos == |input| then EndOfStream
    else Continue(input[pos..Reach(pos, wanted, |input|)])
  }

  /** How far `n` more bytes reach. */
  function Reach(pos: nat, n: nat, end: nat): (r: nat)
    requires pos <= end
    ensures pos <= r <= end
  {
    if pos + n < end then pos + n else end
  }

  function BytesFed(f: Feed): seq<byte> {
    if f.Continue? then f.chunk else []
  }

  /** Everything fed by a sequence of requests, from a position on. */
  function FedBy(input: seq<byte>, pos: nat, wanted: seq<nat>): (r: seq<byte>)
    requires pos <= |input|
    decreases wanted
  {
    if wanted == [] then []
    else BytesFed(FeedOf(input, pos, wanted[0])) + FedBy(input, Reach(pos, wanted[0], |input|), wanted[1..])
  }

  function Sum(wanted: seq<nat>): nat {
    if wanted == [] then 0 else wanted[0] + Sum(wanted[1..])
  }

  /** Whatever sizes are asked for, the input is handed over once and in order, as far as the
      requests reach. */
  lemma {:induction false} FedInOrder(input: seq<byte>, pos: nat, wanted: seq<nat>)
    requires pos <= |input|
    ensures FedBy(input, pos, wanted)
            == input[pos..Reach(pos, Sum(wanted), |input|)]
    decreases wanted
  {
    if wanted == [] {
      assert input[pos..pos] == [];
    } else {
      var next, rest := Reach(pos, wanted[0], |input|), wanted[1..];
      FedInOrder(input, next, rest);
      OneFeed(input, pos, wanted[0]);
      ReachTwice(pos, wanted[0], Sum(rest), |input|);
      Slices(input, pos, next, Reach(next, Sum(rest), |input|));
    }
  }

  lemma OneFeed(input: seq<byte>, pos: nat, wanted: nat)
    requires pos <= |input|
    ensures BytesFed(FeedOf(input, pos, wanted)) == input[pos..Reach(pos, wanted, |input|)]
  {
  }

  lemma ReachTwice(pos: nat, m: nat, n: nat, end: nat)
    requires pos <= end
    ensures Reach(Reach(pos, m, end), n, end) == Reach(pos, m + n, end)
  {
  }

  lemma Slices(s: seq<byte>, i: nat, j: nat, k: nat)
    requires i <= j <= k <= |s|
    ensures s[i..j] + s[j..k] == s[i..k]
  {
  }

  /** The end is reported exactly when all of it was handed over. */
  lemma EndMeansAll(input: seq<byte>, wanted: seq<nat>, next: nat)
    requires next > 0
    ensures |FedBy(input, 0, wanted)| <= |input|
    ensures FeedOf(input, |FedBy(input, 0, wanted)|, next).EndOfStream? <==> FedBy(input, 0, wanted) == input
  {
    FedInOrder(input, 0, wanted);
  }
}
