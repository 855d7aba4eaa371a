/** The eight-lane interleaved DDR image (software/dr47/waveforms.py). */
module Interleave {
  import opened Arithmetic
  import opened Bytes
  import opened WaveProtocol

  type int16 = s: int | -0x8000 <= s < 0x8000

  type Waves = map<int, seq<int16>>

  /** Byte d (0 low, 1 high) of a two's-complement sample. */
  function SampleByte(s: int16, d: nat): (b: byte)
    requires d < 2
  {
    if d == 0 then s % 256 else s / 256 % 256
  }

  /** The two bytes of a sample are its low sixteen bits, low byte first. */
  lemma SampleBytes(s: int16)
    ensures SampleByte(s, 0) + 256 * SampleByte(s, 1) == s % 0x1_0000
  {
  }

  function AlignBytes(n: nat): (aligned: nat)
    ensures n <= aligned < n + BEAT_BYTES && aligned % BEAT_BYTES == 0
  {
    n + (BEAT_BYTES - n % BEAT_BYTES) % BEAT_BYTES
  }

  function Wave(waves: Waves, channel: int): seq<int16> {
    if channel in waves then waves[channel] else []
  }

  /** The longest of channels 1..n. */
  function Longest(waves: Waves, n: nat): (len: nat)
    ensures forall c :: 1 <= c <= n ==> |Wave(waves, c)| <= len
    ensures len == 0 || exists c :: 1 <= c <= n && |Wave(waves, c)| == len
  {
    if n == 0 then 0
    else if |Wave(waves, n)| > Longest(waves, n - 1) then |Wave(waves, n)| else Longest(waves, n - 1)
  }

  /** Samples per channel after padding to whole DAC beats. */
  function SampleCount(waves: Waves): nat {
    AlignBytes(Longest(waves, CHANNELS) * 2) / 2
  }

  /** Every channel has the least number of samples that is a multiple of 16 and
      leaves no wave out. */
  lemma SampleCountIsLeast(waves: Waves, n: nat)
    ensures SampleCount(waves) % 16 == 0 && forall c :: 1 <= c <= 8 ==> |Wave(waves, c)| <= SampleCount(waves)
    ensures n % 16 == 0 && (forall c :: 1 <= c <= 8 ==> |Wave(waves, c)| <= n) ==> SampleCount(waves) <= n
  {
    var bytes := AlignBytes(Longest(waves, CHANNELS) * 2);
    assert bytes == 32 * (bytes / 32) && SampleCount(waves) == 16 * (bytes / 32);
    if n % 16 == 0 && forall c :: 1 <= c <= 8 ==> |Wave(waves, c)| <= n {
      assert Longest(waves, CHANNELS) <= n == 16 * (n / 16);
    }
  }

  /** Byte b of a channel's padded stream. */
  function ChannelByte(wave: seq<int16>, b: nat): byte {
    if b / 2 < |wave| then SampleByte(wave[b / 2], b % 2) else 0
  }

  /** Byte k of the image: 64-byte DDR beats of eight 8-byte lanes. */
  function ImageByte(waves: Waves, k: nat): byte {
    ChannelByte(Wave(waves, k % DDR_BEAT_BYTES / LANE_BYTES + 1), k / DDR_BEAT_BYTES * LANE_BYTES + k % LANE_BYTES)
  }

  function Image(waves: Waves): seq<byte> {
    seq(SampleCount(waves) / 4 * DDR_BEAT_BYTES, k requires 0 <= k => ImageByte(waves, k))
  }

  function InterleavedDdrAddr(channel: int, byteOffset: int, base: int): Result<int, RangeError> {
    if !(0 <= channel - 1 < CHANNELS) || byteOffset < 0 || byteOffset % LANE_BYTES != 0 || base % BEAT_BYTES != 0 then
      Err(ParameterRangeError)
    else
      Ok(base + byteOffset / LANE_BYTES * DDR_BEAT_BYTES + (channel - 1) * LANE_BYTES)
  }

  /** The image is whole DAC frames of 256 bytes, so BEGIN's size equation holds. */
  lemma ImageIsWholeFrames(waves: Waves)
    ensures |Image(waves)| == SampleCount(waves) * 2 * CHANNELS
    ensures |Image(waves)| % DAC_FRAME_BYTES == 0
    ensures |Image(waves)| == 0 <==> forall c :: 1 <= c <= CHANNELS ==> Wave(waves, c) == []
  {
    var n := AlignBytes(Longest(waves, CHANNELS) * 2);
    assert n == 32 * (n / 32) && SampleCount(waves) == 16 * (n / 32);
    assert SampleCount(waves) / 4 * 64 == 256 * (n / 32);
    if |Image(waves)| == 0 {
      assert Longest(waves, CHANNELS) == 0;
    }
  }

  /** A lane address exists exactly for a channel, a whole lane and an aligned
      base, and grows by 64 bytes for every 8 of the channel. */
  lemma LaneAddress(channel: int, byteOffset: int, base: int)
    ensures InterleavedDdrAddr(channel, byteOffset, base)
            == if 1 <= channel <= 8 && byteOffset >= 0 && byteOffset % 8 == 0 && base % 32 == 0 then
                 Ok(base + 8 * (byteOffset + channel - 1))
               else Err(ParameterRangeError)
  {
  }

  /** The sixteen bits at the lane address of sample i of a channel. */
  predicate SampleAt(memory: seq<byte>, channel: int, i: nat, sample: int) {
    var address := 64 * (i / 4) + 8 * (channel - 1) + 2 * (i % 4);
    && 0 <= address && address + 1 < |memory|
    && var low: int, high: int := memory[address], memory[address + 1];
       low + 256 * high == sample % 0x1_0000
  }

  /** Sample i of a channel, or the silence after its end. */
  function PaddedSample(waves: Waves, channel: int, i: nat): int16 {
    if i < |Wave(waves, channel)| then Wave(waves, channel)[i] else 0
  }

  /** Sample i of channel c is found at the lane address of its 8-byte group. */
  lemma ImageHoldsSample(waves: Waves, channel: int, i: nat)
    requires 1 <= channel <= CHANNELS && i < SampleCount(waves)
    ensures SampleAt(Image(waves), channel, i, PaddedSample(waves, channel, i))
  {
    hide Image, ImageByte, SampleCount, SampleByte;
    SampleBytes(PaddedSample(waves, channel, i));
    SampleBytes(0);
    ZeroBytes();
    var q, d := i / 4, 2 * (i % 4);
    BeatInImage(waves, q);
    ImageLane(waves, channel, q, d);
    ImageLane(waves, channel, q, d + 1);
    assert q * LANE_BYTES + d == 2 * i;
  }

  lemma ZeroBytes()
    ensures SampleByte(0, 0) == SampleByte(0, 1) == 0
  {
  }

  lemma BeatInImage(waves: Waves, beat: nat)
    requires 4 * beat < SampleCount(waves)
    ensures (beat + 1) * DDR_BEAT_BYTES <= |Image(waves)|
  {
    ImageIsWholeFrames(waves);
  }

  /** Byte d of the lane of `channel` in a beat. */
  lemma ImageLane(waves: Waves, channel: int, beat: nat, d: nat)
    requires 1 <= channel <= CHANNELS && d < LANE_BYTES && (beat + 1) * DDR_BEAT_BYTES <= |Image(waves)|
    ensures var k := beat * DDR_BEAT_BYTES + (channel - 1) * LANE_BYTES + d;
            k < |Image(waves)| && Image(waves)[k] == ChannelByte(Wave(waves, channel), beat * LANE_BYTES + d)
  {
    hide SampleCount, ChannelByte;
    LaneCoordinates(beat, channel, d);
  }

  /** The (beat, channel, byte) coordinates of an image byte are unique. */
  lemma LaneCoordinates(beat: nat, channel: int, d: nat)
    requires 1 <= channel <= CHANNELS && d < LANE_BYTES
    ensures var k := beat * DDR_BEAT_BYTES + (channel - 1) * LANE_BYTES + d;
            k / DDR_BEAT_BYTES == beat && k % DDR_BEAT_BYTES / LANE_BYTES + 1 == channel && k % LANE_BYTES == d
  {
    var lane, m := channel - 1, (channel - 1) * LANE_BYTES + d;
    QuotientUnique(m, LANE_BYTES, lane);
    QuotientUnique(beat * DDR_BEAT_BYTES + m, DDR_BEAT_BYTES, beat);
    QuotientUnique(beat * DDR_BEAT_BYTES + m, LANE_BYTES, beat * CHANNELS + lane);
  }

  /** Byte d of the lane of `channel` at channel offset o is image byte k. */
  predicate LaneByteAt(channel: int, o: int, d: int, k: int) {
    0 <= d < LANE_BYTES && InterleavedDdrAddr(channel, o, 0).Ok? && InterleavedDdrAddr(channel, o, 0).value + d == k
  }

  /** Every image byte is exactly one lane byte: the eight channels tile the
      image, and no two of them share an address. */
  lemma AddressesTile(k: nat)
    ensures LaneByteAt(k % DDR_BEAT_BYTES / LANE_BYTES + 1, k / DDR_BEAT_BYTES * LANE_BYTES, k % LANE_BYTES, k)
    ensures forall c, o, d :: LaneByteAt(c, o, d, k)
                 ==> && c == k % DDR_BEAT_BYTES / LANE_BYTES + 1 && o == k / DDR_BEAT_BYTES * LANE_BYTES
                     && d == k % LANE_BYTES
  {
    var m := k % 64;
    assert k == k / 64 * 64 + m && m == m / 8 * 8 + m % 8;
    LaneCoordinates(k / 64, m / 8 + 1, m % 8);
    forall c, o, d | LaneByteAt(c, o, d, k)
      ensures c == k % DDR_BEAT_BYTES / LANE_BYTES + 1 && o == k / DDR_BEAT_BYTES * LANE_BYTES && d == k % LANE_BYTES
    {
      LaneCoordinates(o / LANE_BYTES, c, d);
    }
  }

  // ----- Channel mask -----

  function Bit(b: bool): nat {
    if b then 1 else 0
  }

  /** Bits for channels c..8, lowest first. */
  function MaskFrom(waves: Waves, c: nat): nat
    requires 1 <= c <= CHANNELS + 1
    decreases CHANNELS + 1 - c
  {
    if c > CHANNELS then 0 else Bit(c in waves) + 2 * MaskFrom(waves, c + 1)
  }

  /** The mask of the channels that have a wave: bit channel - 1. */
  function MaskOf(waves: Waves): nat {
    MaskFrom(waves, 1)
  }

  function BitAt(mask: nat, k: nat): nat {
    if k == 0 then mask % 2 else BitAt(mask / 2, k - 1)
  }

  predicate Selected(mask: nat, channel: int)
    requires 1 <= channel <= CHANNELS
  {
    BitAt(mask, channel - 1) == 1
  }

  /** Waves of channels outside the mask are replaced by silence of the same length. */
  function Masked(waves: Waves, mask: nat): Waves
    requires forall c :: c in waves ==> 1 <= c <= CHANNELS
  {
    map c | c in waves :: if Selected(mask, c) then waves[c] else seq(|waves[c]|, i => 0)
  }

  /** Masking keeps the length of every wave, so the image keeps its size. */
  lemma MaskingKeepsLength(waves: Waves, mask: nat)
    requires forall c :: c in waves ==> 1 <= c <= CHANNELS
    ensures SampleCount(Masked(waves, mask)) == SampleCount(waves)
    ensures |Image(Masked(waves, mask))| == 16 * SampleCount(waves)
  {
    SameLongest(waves, Masked(waves, mask), CHANNELS);
    ImageIsWholeFrames(Masked(waves, mask));
  }

  lemma {:induction false} SameLongest(a: Waves, b: Waves, n: nat)
    requires forall c :: 1 <= c <= n ==> |Wave(a, c)| == |Wave(b, c)|
    ensures Longest(a, n) == Longest(b, n)
  {
    if n == 0 {
    } else {
      SameLongest(a, b, n - 1);
    }
  }

  /** The bit of each channel, and the default mask, written out. */
  lemma MaskBits(waves: Waves, mask: nat, channel: int)
    requires 1 <= channel <= CHANNELS
    ensures Selected(mask, channel) <==> mask / [1, 2, 4, 8, 16, 32, 64, 128][channel - 1] % 2 == 1
    ensures MaskOf(waves)
            == (if 1 in waves then 1 else 0) + (if 2 in waves then 2 else 0) + (if 3 in waves then 4 else 0)
               + (if 4 in waves then 8 else 0) + (if 5 in waves then 16 else 0) + (if 6 in waves then 32 else 0)
               + (if 7 in waves then 64 else 0) + (if 8 in waves then 128 else 0)
  {
    BitAtIsQuotient(mask, channel - 1);
    PowersOfTwo();
  }

  lemma {:induction false} BitAtIsQuotient(mask: nat, k: nat)
    ensures BitAt(mask, k) == mask / Pow2(k) % 2
  {
    if k == 0 {
    } else {
      BitAtIsQuotient(mask / 2, k - 1);
      HalfThenDivide(mask, Pow2(k - 1));
    }
  }

  lemma HalfThenDivide(n: nat, d: nat)
    requires d > 0
    ensures n / 2 / d == n / (2 * d)
  {
    var q := n / 2 / d;
    assert q * d <= n / 2 < q * d + d;
    QuotientUnique(n, 2 * d, q);
  }

  lemma PowersOfTwo()
    ensures Pow2(0) == 1 && Pow2(1) == 2 && Pow2(2) == 4 && Pow2(3) == 8
    ensures Pow2(4) == 16 && Pow2(5) == 32 && Pow2(6) == 64 && Pow2(7) == 128
  {
    assert Pow2(3) == 8 && Pow2(5) == 32;
  }

  /** The default mask selects exactly the channels that were given a wave. */
  lemma DefaultMaskSelects(waves: Waves, channel: int)
    requires 1 <= channel <= CHANNELS
    ensures MaskOf(waves) < BYTE_RANGE && (Selected(MaskOf(waves), channel) <==> channel in waves)
  {
    MaskBelow(waves, 1);
    assert Pow2(4) == 16 && Pow2(CHANNELS) == 16 * Pow2(4);
    BitOfMask(waves, 1, channel - 1);
  }

  function Pow2(n: nat): (p: nat)
    ensures p > 0
  {
    if n == 0 then 1 else 2 * Pow2(n - 1)
  }

  lemma {:induction false} MaskBelow(waves: Waves, c: nat)
    requires 1 <= c <= CHANNELS + 1
    ensures MaskFrom(waves, c) < Pow2(CHANNELS + 1 - c)
    decreases CHANNELS + 1 - c
  {
    if c <= CHANNELS {
      MaskBelow(waves, c + 1);
    }
  }

  lemma {:induction false} BitOfMask(waves: Waves, c: nat, k: nat)
    requires 1 <= c && c + k <= CHANNELS
    ensures BitAt(MaskFrom(waves, c), k) == Bit(c + k in waves)
    decreases k
  {
    QuotientUnique(MaskFrom(waves, c), 2, MaskFrom(waves, c + 1));
    if k == 0 {
    } else {
      BitOfMask(waves, c + 1, k - 1);
    }
  }

  /** End to end: in the uploaded image, sample i of a channel is the caller's
      sample if the channel is in the mask and i is in range, and zero otherwise. */
  lemma UploadedSample(waves: Waves, mask: nat, channel: int, i: nat)
    requires forall c :: c in waves ==> 1 <= c <= CHANNELS
    requires 1 <= channel <= CHANNELS && i < SampleCount(Masked(waves, mask))
    ensures SampleAt(Image(Masked(waves, mask)), channel, i, CallerSample(waves, mask, channel, i))
  {
    hide Image, ImageByte, SampleCount, SampleAt;
    ImageHoldsSample(Masked(waves, mask), channel, i);
  }

  /** The caller's samples, at their lane addresses from base on: those of channels
      in the mask, and zero everywhere else. */
  ghost predicate HoldsSamples(memory: seq<byte>, waves: Waves, mask: nat)
    requires forall c :: c in waves ==> 1 <= c <= CHANNELS
  {
    forall channel, i: nat :: 1 <= channel <= CHANNELS && i < SampleCount(Masked(waves, mask)) ==>
      SampleAt(memory, channel, i, CallerSample(waves, mask, channel, i))
  }

  function CallerSample(waves: Waves, mask: nat, channel: int, i: nat): int16
    requires 1 <= channel <= CHANNELS
  {
    if channel in waves && Selected(mask, channel) && i < |waves[channel]| then waves[channel][i] else 0
  }

  /** The image of the masked waves holds exactly the caller's samples. */
  lemma ImageHoldsSamples(waves: Waves, mask: nat)
    requires forall c :: c in waves ==> 1 <= c <= CHANNELS
    ensures HoldsSamples(Image(Masked(waves, mask)), waves, mask)
  {
    hide Image, SampleCount, Masked, Selected, SampleAt;
    forall channel, i: nat | 1 <= channel <= CHANNELS && i < SampleCount(Masked(waves, mask))
      ensures SampleAt(Image(Masked(waves, mask)), channel, i, CallerSample(waves, mask, channel, i))
    {
      UploadedSample(waves, mask, channel, i);
    }
  }

  lemma ImageHoldsAll(waves: Waves)
    ensures forall channel, i: nat :: 1 <= channel <= CHANNELS && i < SampleCount(waves) ==>
              SampleAt(Image(waves), channel, i, PaddedSample(waves, channel, i))
  {
    forall channel, i: nat | 1 <= channel <= CHANNELS && i < SampleCount(waves)
      ensures SampleAt(Image(waves), channel, i, PaddedSample(waves, channel, i))
    {
      ImageHoldsSample(waves, channel, i);
    }
  }

  /** The padded little-endian bytes of one channel. */
  method PackChannel(wave: seq<int16>, samples: nat) returns (packed: seq<byte>)
    requires |wave| <= samples
    ensures |packed| == 2 * samples && forall b :: 0 <= b < |packed| ==> packed[b] == ChannelByte(wave, b)
  {
    packed := seq(2 * samples, b requires 0 <= b => ChannelByte(wave, b));
  }

  method PackInterleaved(waves: Waves) returns (image: seq<byte>, samples: nat)
    ensures image == Image(waves)
    ensures waves != map[] ==> samples == SampleCount(waves)
    ensures forall channel, i: nat :: 1 <= channel <= CHANNELS && i < SampleCount(waves) ==>
              SampleAt(image, channel, i, PaddedSample(waves, channel, i))
  {
    ImageIsWholeFrames(waves);
    ImageHoldsAll(waves);
    if waves == map[] {
      return [], 0;
    }
    var longest := 0;
    for channel := 1 to CHANNELS + 1
      invariant longest == Longest(waves, channel - 1)
    {
      if |Wave(waves, channel)| > longest {
        longest := |Wave(waves, channel)|;
      }
    }
    samples := AlignBytes(longest * 2) / 2;
    var packed: seq<seq<byte>> := [];
    for channel := 1 to CHANNELS + 1
      invariant |packed| == channel - 1
      invariant forall c :: 0 <= c < |packed| ==>
        && |packed[c]| == 2 * samples
        && forall b :: 0 <= b < |packed[c]| ==> packed[c][b] == ChannelByte(Wave(waves, c + 1), b)
    {
      var lane := PackChannel(Wave(waves, channel), samples);
      packed := packed + [lane];
    }
    image := Weave(waves, packed, samples);
  }

  lemma LaneExtendsImage(waves: Waves, channel: int, beat: nat, packed: seq<byte>)
    requires 1 <= channel <= CHANNELS && (beat + 1) * DDR_BEAT_BYTES <= |Image(waves)|
    requires (beat + 1) * LANE_BYTES <= |packed|
    requires forall b :: 0 <= b < |packed| ==> packed[b] == ChannelByte(Wave(waves, channel), b)
    ensures var target := beat * DDR_BEAT_BYTES + (channel - 1) * LANE_BYTES;
            Image(waves)[..target + LANE_BYTES]
            == Image(waves)[..target] + packed[beat * LANE_BYTES..beat * LANE_BYTES + LANE_BYTES]
  {
    hide Image, ChannelByte;
    var target := beat * DDR_BEAT_BYTES + (channel - 1) * LANE_BYTES;
    var lane := packed[beat * LANE_BYTES..beat * LANE_BYTES + LANE_BYTES];
    forall d | 0 <= d < LANE_BYTES
      ensures Image(waves)[target..target + LANE_BYTES][d] == lane[d]
    {
      ImageLane(waves, channel, beat, d);
    }
    assert Image(waves)[target..target + LANE_BYTES] == lane;
  }

  ghost predicate Packed(waves: Waves, packed: seq<seq<byte>>) {
    && |packed| == CHANNELS
    && forall c :: 0 <= c < CHANNELS ==>
         && |packed[c]| == 2 * SampleCount(waves)
         && forall b :: 0 <= b < |packed[c]| ==> packed[c][b] == ChannelByte(Wave(waves, c + 1), b)
  }

  lemma WholeImage(a: seq<byte>, b: seq<byte>)
    requires |a| == |b| && a[..|a|] == b[..|a|]
    ensures a == b
  {
    assert a == a[..|a|] && b == b[..|a|];
  }

  /** Interleave the packed channels beat by beat. */
  method Weave(waves: Waves, packed: seq<seq<byte>>, samples: nat) returns (image: seq<byte>)
    requires samples == SampleCount(waves) && Packed(waves, packed)
    ensures image == Image(waves)
  {
    hide Image, Packed, SampleCount;
    ImageIsWholeFrames(waves);
    var buffer := new byte[samples / 4 * DDR_BEAT_BYTES](i => 0);
    for beat := 0 to samples / 4
      invariant buffer.Length == |Image(waves)| == samples / 4 * DDR_BEAT_BYTES
      invariant buffer[..beat * DDR_BEAT_BYTES] == Image(waves)[..beat * DDR_BEAT_BYTES]
    {
      WeaveBeat(waves, packed, beat, buffer);
    }
    WholeImage(Image(waves), buffer[..]);
    image := buffer[..];
  }

  method WeaveBeat(waves: Waves, packed: seq<seq<byte>>, beat: nat, buffer: array<byte>)
    requires Packed(waves, packed) && 4 * beat < SampleCount(waves)
    requires (beat + 1) * DDR_BEAT_BYTES <= buffer.Length == |Image(waves)|
    requires buffer[..beat * DDR_BEAT_BYTES] == Image(waves)[..beat * DDR_BEAT_BYTES]
    modifies buffer
    ensures buffer[..(beat + 1) * DDR_BEAT_BYTES] == Image(waves)[..(beat + 1) * DDR_BEAT_BYTES]
  {
    hide Image, ChannelByte, SampleCount;
    for channel := 1 to CHANNELS + 1
      invariant var done := beat * DDR_BEAT_BYTES + (channel - 1) * LANE_BYTES;
                buffer[..done] == Image(waves)[..done]
    {
      var start, target := beat * LANE_BYTES, beat * DDR_BEAT_BYTES + (channel - 1) * LANE_BYTES;
      LaneFits(waves, beat);
      LaneExtendsImage(waves, channel, beat, packed[channel - 1]);
      PutLane(buffer, target, packed[channel - 1][start..start + LANE_BYTES]);
    }
  }

  lemma LaneFits(waves: Waves, beat: nat)
    requires 4 * beat < SampleCount(waves)
    ensures (beat + 1) * LANE_BYTES <= 2 * SampleCount(waves)
  {
    hide SampleCount;
    SampleCountIsLeast(waves, 0);
    GroupFits(SampleCount(waves) / 16, beat);
  }

  lemma GroupFits(sixteens: nat, beat: nat)
    requires 4 * beat < 16 * sixteens
    ensures (beat + 1) * LANE_BYTES <= 32 * sixteens
  {
  }

  /** buffer[target:target + |lane|] = lane. */
  method PutLane(buffer: array<byte>, target: nat, lane: seq<byte>)
    requires target + |lane| <= buffer.Length
    modifies buffer
    ensures buffer[..] == old(buffer[..target]) + lane + old(buffer[target + |lane|..])
  {
    forall d | 0 <= d < |lane| {
      buffer[target + d] := lane[d];
    }
    assert buffer[target..target + |lane|] == lane;
  }
}
