/** The max-length record with CW markers (software/host.py): a run-length
    generator against a per-beat definition. */
module MaxLength {
  import opened Arithmetic
  import opened Bytes
  import opened WaveProtocol

  datatype Region = Body | Start | Middle | End

  datatype RecordError = BadArgument

  const DDR_MAX_BYTES_PER_CHANNEL: nat := DDR_MAX_INTERLEAVED_BYTES / CHANNELS

  function MarkerRegion(physicalOffset: nat, totalBytes: nat, markerBytesPerChannel: nat): Region {
    var marker := markerBytesPerChannel * CHANNELS;
    var centred := totalBytes / 2 - marker / 2;
    var middleStart := if centred > 0 then centred else 0;
    if physicalOffset < marker then Start
    else if middleStart <= physicalOffset < middleStart + marker then Middle
    else if physicalOffset >= totalBytes - marker then End
    else Body
  }

  function Amplitude(channel: nat, region: Region): nat {
    (match region
     case Body => 0x0800
     case Start => 0x1000
     case Middle => 0x2000
     case End => 0x3000) + channel * 0x80
  }

  /** The lane of one channel: two constant I samples with Q zero. */
  function Lane(region: Region, channel: nat): (s: seq<byte>)
    ensures |s| == LANE_BYTES
  {
    var i := LittleEndian(Amplitude(channel, region), 2);
    i + [0, 0] + i + [0, 0]
  }

  /** The lanes of channels 1..n. */
  function Lanes(region: Region, n: nat): (s: seq<byte>)
    ensures |s| == LANE_BYTES * n
  {
    if n == 0 then [] else Lanes(region, n - 1) + Lane(region, n)
  }

  /** One 512-bit DDR beat. */
  function BeatOf(region: Region): (s: seq<byte>)
    ensures |s| == DDR_BEAT_BYTES
  {
    Lanes(region, CHANNELS)
  }

  function InterleavedBeat(beat: nat, totalBeats: nat, markerBytesPerChannel: nat): seq<byte> {
    BeatOf(MarkerRegion(beat * DDR_BEAT_BYTES, totalBeats * DDR_BEAT_BYTES, markerBytesPerChannel))
  }

  predicate RecordArgumentsOk(bytesPerChannel: int, markerBytesPerChannel: int, chunkBeats: int) {
    && bytesPerChannel % BEAT_BYTES == 0 && 0 < bytesPerChannel <= DDR_MAX_BYTES_PER_CHANNEL
    && chunkBeats > 0
    && 0 < markerBytesPerChannel && markerBytesPerChannel % BEAT_BYTES == 0
  }

  lemma EvenDifference(a: nat, b: nat)
    requires a % 4 == 0 && b % 4 == 0
    ensures a > b ==> 2 * ((a - b) / 2) == a - b
  {
    if a > b {
      HalfOfQuadruple(a / 4 - b / 4);
      assert a - b == 4 * (a / 4 - b / 4);
    }
  }

  lemma HalfOfQuadruple(n: nat)
    ensures 4 * n / 2 == 2 * n
  {
  }

  // ----- In units of beats -----

  /** total and marker are counted in 64-byte DDR beats. */
  datatype Layout = Layout(total: nat, marker: nat, chunk: nat) {
    predicate Ok() {
      total > 0 && total % 4 == 0 && marker > 0 && marker % 4 == 0 && chunk > 0
    }

    function MiddleStart(): nat {
      if total > marker then (total - marker) / 2 else 0
    }

    function At(beat: nat): Region {
      if beat < marker then Start
      else if MiddleStart() <= beat < MiddleStart() + marker then Middle
      else if beat >= total - marker then End
      else Body
    }

    /** The longest run of at most `count` beats that ends in the region it starts in. */
    function RunLength(beat: nat, count: nat): (c: nat)
      requires count > 0
      ensures 1 <= c <= count && At(beat + c - 1) == At(beat)
      ensures forall e :: beat + c <= e < beat + count ==> At(e) != At(beat)
    {
      if count == 1 || At(beat + count - 1) == At(beat) then count else RunLength(beat, count - 1)
    }

    function Count(beat: nat): (c: nat)
      requires beat < total && chunk > 0
      ensures 1 <= c <= chunk && beat + c <= total
    {
      RunLength(beat, if chunk < total - beat then chunk else total - beat)
    }

    /** The region each generated beat is drawn from, run by run. */
    function Generated(beat: nat): (rs: seq<Region>)
      requires beat <= total && chunk > 0
      ensures |rs| == total - beat
      decreases total - beat
    {
      if beat == total then []
      else seq(Count(beat), i => At(beat)) + Generated(beat + Count(beat))
    }

    function Chunks(beat: nat): seq<(nat, seq<byte>)>
      requires beat <= total && chunk > 0
      decreases total - beat
    {
      if beat == total then []
      else [(beat, Render(seq(Count(beat), i => At(beat))))] + Chunks(beat + Count(beat))
    }

    /** The run that starts at `beat` covers one region only. */
    ghost predicate RunIsPure(beat: nat)
      requires beat < total && chunk > 0
    {
      forall i :: beat <= i < beat + Count(beat) ==> At(i) == At(beat)
    }

    /** The per-beat definition, from a beat on. */
    function DefinedFrom(beat: nat): (rs: seq<Region>)
      requires beat <= total
      ensures |rs| == total - beat
    {
      seq(total - beat, i requires 0 <= i => At(beat + i))
    }

    ghost predicate CorrectFrom(beat: nat)
      requires beat <= total && chunk > 0
    {
      Generated(beat) == DefinedFrom(beat)
    }

    /** Exactly when the generator is right: the record has no body, or the last
        run before the middle marker is too short to jump over the marker. */
    predicate ChunkSafe()
      requires chunk > 0
    {
      total <= 3 * marker || chunk <= marker + ((total - 3 * marker) / 2 - 1) % chunk + 1
    }

    lemma CorrectStep(beat: nat)
      requires beat < total && chunk > 0
      ensures CorrectFrom(beat) <==> RunIsPure(beat) && CorrectFrom(beat + Count(beat))
    {
      hide At, RunLength, MiddleStart;
      var c := Count(beat);
      var run, pure := seq(c, i => At(beat)), seq(c, i requires 0 <= i => At(beat + i));
      assert DefinedFrom(beat) == pure + DefinedFrom(beat + c);
      assert Generated(beat)[..c] == run && Generated(beat)[c..] == Generated(beat + c);
      assert DefinedFrom(beat)[..c] == pure && DefinedFrom(beat)[c..] == DefinedFrom(beat + c);
      if run == pure {
        assert forall i :: beat <= i < beat + c ==> At(i) == pure[i - beat] == run[i - beat];
      }
    }

    /** Two beats of one region have only that region between them, unless one
        is in the first body and the other in the second. */
    lemma RegionIsInterval(i: nat, k: nat, j: nat)
      requires Ok() && i <= k <= j < total && At(i) == At(j)
      requires At(i) == Body ==> i >= MiddleStart() || j < MiddleStart()
      ensures At(k) == At(i)
    {
    }

    lemma RunPureIf(beat: nat)
      requires Ok() && beat < total
      requires At(beat) == Body ==> beat >= MiddleStart() || beat + Count(beat) - 1 < MiddleStart()
      ensures RunIsPure(beat)
    {
      forall i | beat <= i < beat + Count(beat)
        ensures At(i) == At(beat)
      {
        RegionIsInterval(beat, i, beat + Count(beat) - 1);
      }
    }

    lemma NoBody(beat: nat)
      requires Ok() && beat < total <= 3 * marker
      ensures At(beat) != Body
    {
    }

    /** Past the first body, or without any body, every run is pure. */
    lemma {:induction false} CorrectPastFirstBody(beat: nat)
      requires Ok() && beat <= total && (total <= 3 * marker || beat >= MiddleStart())
      ensures CorrectFrom(beat)
      decreases total - beat
    {
      hide At, Generated, RunLength, MiddleStart, Ok;
      if beat < total {
        if total <= 3 * marker {
          NoBody(beat);
        }
        RunPureIf(beat);
        CorrectPastFirstBody(beat + Count(beat));
        CorrectStep(beat);
      }
    }

    /** In the first body only the run that reaches its end matters. */
    lemma {:induction false} CorrectInFirstBody(beat: nat)
      requires Ok() && total > 3 * marker && marker <= beat < MiddleStart()
      ensures CorrectFrom(beat) <==> chunk <= marker + (MiddleStart() - beat - 1) % chunk + 1
      decreases total - beat
    {
      hide Generated, RunLength, RunIsPure, At;
      var left := MiddleStart() - beat;
      CorrectStep(beat);
      if beat + chunk > MiddleStart() + marker {
        JumpsOverMiddle(beat);
        QuotientUnique(left - 1, chunk, 0);
      } else if chunk >= left {
        EndsAtMiddle(beat);
        RunPureIf(beat);
        CorrectPastFirstBody(MiddleStart());
        QuotientUnique(left - 1, chunk, 0);
      } else {
        FullRunInBody(beat);
        RunPureIf(beat);
        CorrectInFirstBody(beat + chunk);
        ModuloShift(left - 1, chunk);
      }
    }

    lemma JumpsOverMiddle(beat: nat)
      requires Ok() && total > 3 * marker && marker <= beat < MiddleStart() && beat + chunk > MiddleStart() + marker
      ensures !RunIsPure(beat)
    {
      var e := MiddleStart() + marker;
      assert At(beat) == Body && At(e) == Body && e < beat + Count(beat);
      assert At(MiddleStart()) == Middle;
    }

    lemma FullRunInBody(beat: nat)
      requires Ok() && total > 3 * marker && marker <= beat && beat + chunk <= MiddleStart()
      ensures Count(beat) == chunk
    {
      assert At(beat) == Body && At(beat + chunk - 1) == Body;
    }

    lemma EndsAtMiddle(beat: nat)
      requires Ok() && total > 3 * marker && marker <= beat < MiddleStart()
      requires MiddleStart() <= beat + chunk <= MiddleStart() + marker
      ensures Count(beat) == MiddleStart() - beat
    {
      assert At(beat) == Body && At(MiddleStart() - 1) == Body;
      assert forall e :: MiddleStart() <= e < beat + chunk ==> At(e) == Middle;
    }

    lemma StartRun(beat: nat)
      requires Ok() && beat < marker && beat < total
      ensures At(beat) == Start && beat + Count(beat) <= marker
    {
      assert At(beat + Count(beat) - 1) == Start;
    }

    /** The start marker is always generated right, and ends exactly at its last beat. */
    lemma {:induction false} CorrectInStart(beat: nat)
      requires Ok() && total > 3 * marker && beat <= marker
      ensures CorrectFrom(beat) <==> CorrectFrom(marker)
      decreases total - beat
    {
      hide At, Generated, RunLength, MiddleStart, Ok;
      if beat < marker {
        StartRun(beat);
        RunPureIf(beat);
        CorrectStep(beat);
        CorrectInStart(beat + Count(beat));
      }
    }

    lemma MiddleIsCentred()
      requires Ok()
      ensures 2 * MiddleStart() == if total > marker then total - marker else 0
    {
      EvenDifference(total, marker);
    }

    lemma CorrectIffChunkSafe()
      requires Ok()
      ensures CorrectFrom(0) <==> ChunkSafe()
    {
      hide MiddleStart, At, CorrectFrom;
      if total <= 3 * marker {
        CorrectPastFirstBody(0);
      } else {
        CorrectInStart(0);
        MiddleIsCentred();
        CorrectInFirstBody(marker);
      }
    }
  }

  /** The regions of a record, by the distance of a beat's middle from the middle
      of the record: markers of equal length at the start, around the middle and at
      the end, the earlier one where they overlap. */
  lemma RegionsOfRecord(l: Layout, beat: nat)
    requires l.Ok() && beat < l.total
    ensures l.At(beat) == if beat < l.marker then Start
                          else if l.total - l.marker < 2 * beat + 1 < l.total + l.marker then Middle
                          else if l.total - l.marker <= beat then End
                          else Body
  {
    l.MiddleIsCentred();
    hide Layout.MiddleStart;
  }

  /** A record with room for its three markers is symmetric. */
  lemma RecordIsSymmetric(l: Layout, beat: nat)
    requires l.Ok() && beat < l.total && 3 * l.marker <= l.total
    ensures l.At(l.total - 1 - beat) == match l.At(beat)
                                        case Start => End
                                        case End => Start
                                        case other => other
  {
    hide Layout.At;
    RegionsOfRecord(l, beat);
    RegionsOfRecord(l, l.total - 1 - beat);
  }

  // ----- Bytes -----

  function Render(regions: seq<Region>): (s: seq<byte>)
    ensures |s| == DDR_BEAT_BYTES * |regions|
  {
    if regions == [] then [] else BeatOf(regions[0]) + Render(regions[1..])
  }

  lemma {:induction false} RenderAppend(a: seq<Region>, b: seq<Region>)
    ensures Render(a + b) == Render(a) + Render(b)
  {
    if a == [] {
      assert a + b == b;
    } else {
      assert (a + b)[1..] == a[1..] + b;
      RenderAppend(a[1..], b);
    }
  }

  /** In every beat each of the eight lanes holds the channel's amplitude as both
      I samples, and zero as both Q samples. */
  lemma BeatSamples(region: Region, channel: nat)
    requires 1 <= channel <= 8
    ensures var lane, beat := 8 * (channel - 1), BeatOf(region);
            var base := if region == Body then 0x800 else if region == Start then 0x1000
                        else if region == Middle then 0x2000 else 0x3000;
            && UintAt(beat, lane, 2) == UintAt(beat, lane + 4, 2) == base + 0x80 * channel
            && UintAt(beat, lane + 2, 2) == UintAt(beat, lane + 6, 2) == 0
  {
    hide Lanes, Lane;
    var beat, lane := BeatOf(region), Lane(region, channel);
    LaneSamples(region, channel);
    forall k | 0 <= k < 8
      ensures beat[8 * (channel - 1) + k] == lane[k]
    {
      LaneOfBeat(region, channel, CHANNELS, k);
    }
    SameUints(beat, 8 * (channel - 1), lane);
  }

  lemma SameUints(s: seq<byte>, at: nat, lane: seq<byte>)
    requires |lane| == 8 && at + 8 <= |s| && forall k :: 0 <= k < 8 ==> s[at + k] == lane[k]
    ensures UintAt(s, at, 2) == UintAt(lane, 0, 2) && UintAt(s, at + 2, 2) == UintAt(lane, 2, 2)
    ensures UintAt(s, at + 4, 2) == UintAt(lane, 4, 2) && UintAt(s, at + 6, 2) == UintAt(lane, 6, 2)
  {
    assert s[at + 0] == lane[0] && s[at + 1] == lane[1] && s[at + 2] == lane[2] && s[at + 3] == lane[3];
    assert s[at + 4] == lane[4] && s[at + 5] == lane[5] && s[at + 6] == lane[6] && s[at + 7] == lane[7];
  }

  lemma {:induction false} LaneOfBeat(region: Region, channel: nat, n: nat, k: nat)
    requires 1 <= channel <= n && k < LANE_BYTES
    ensures LANE_BYTES * (channel - 1) + k < |Lanes(region, n)|
    ensures Lanes(region, n)[LANE_BYTES * (channel - 1) + k] == Lane(region, channel)[k]
    decreases n
  {
    hide Lane;
    if channel < n {
      LaneOfBeat(region, channel, n - 1, k);
    }
  }

  lemma LaneSamples(region: Region, channel: nat)
    requires channel <= CHANNELS
    ensures var lane := Lane(region, channel);
            && UintAt(lane, 0, 2) == UintAt(lane, 4, 2) == Amplitude(channel, region)
            && UintAt(lane, 2, 2) == UintAt(lane, 6, 2) == 0
  {
    LowBytes(Amplitude(channel, region));
  }

  lemma LowBytes(v: nat)
    requires v < 0x1_0000
    ensures LittleEndian(v, 2) == [v % 256, v / 256]
  {
    assert LittleEndian(v / 256, 1) == [v / 256] + LittleEndian(0, 0);
  }

  /** The regions have distinct beats. */
  lemma BeatsDiffer(a: Region, b: Region)
    ensures BeatOf(a) == BeatOf(b) ==> a == b
  {
    hide BeatOf;
    BeatSamples(a, 1);
    BeatSamples(b, 1);
  }

  lemma {:induction false} RenderInjective(a: seq<Region>, b: seq<Region>)
    requires |a| == |b|
    ensures Render(a) == Render(b) <==> a == b
  {
    if a == [] {
    } else {
      RenderInjective(a[1..], b[1..]);
      if Render(a) == Render(b) {
        assert Render(a)[..DDR_BEAT_BYTES] == BeatOf(a[0]) && Render(b)[..DDR_BEAT_BYTES] == BeatOf(b[0]);
        assert Render(a)[DDR_BEAT_BYTES..] == Render(a[1..]) && Render(b)[DDR_BEAT_BYTES..] == Render(b[1..]);
        BeatsDiffer(a[0], b[0]);
        assert a == [a[0]] + a[1..] && b == [b[0]] + b[1..];
      }
    }
  }

  function Payloads(chunks: seq<(nat, seq<byte>)>): seq<byte> {
    if chunks == [] then [] else chunks[0].1 + Payloads(chunks[1..])
  }

  lemma NothingRendered()
    ensures Render([]) == []
  {
  }

  lemma {:induction false} ChunksRenderGenerated(l: Layout, beat: nat)
    requires l.chunk > 0 && beat <= l.total
    ensures Payloads(l.Chunks(beat)) == Render(l.Generated(beat))
    decreases l.total - beat
  {
    hide Render, Layout.At, Layout.RunLength;
    NothingRendered();
    if beat < l.total {
      var c := l.Count(beat);
      ChunksRenderGenerated(l, beat + c);
      RenderAppend(seq(c, i => l.At(beat)), l.Generated(beat + c));
      assert l.Chunks(beat)[1..] == l.Chunks(beat + c);
    }
  }

  /** The concatenated chunks equal the per-beat record if and only if ChunkSafe. */
  lemma GeneratorRefinesDefinition(l: Layout)
    requires l.Ok()
    ensures Payloads(l.Chunks(0)) == Render(l.DefinedFrom(0)) <==> l.ChunkSafe()
  {
    ChunksRenderGenerated(l, 0);
    RenderInjective(l.Generated(0), l.DefinedFrom(0));
    l.CorrectIffChunkSafe();
  }

  // ----- The generator -----

  function LayoutOf(bytesPerChannel: nat, markerBytesPerChannel: nat, chunkBeats: nat): Layout {
    Layout(bytesPerChannel * CHANNELS / DDR_BEAT_BYTES, markerBytesPerChannel * CHANNELS / DDR_BEAT_BYTES, chunkBeats)
  }

  lemma LayoutIsOk(bytesPerChannel: nat, markerBytesPerChannel: nat, chunkBeats: nat)
    requires RecordArgumentsOk(bytesPerChannel, markerBytesPerChannel, chunkBeats)
    ensures var l := LayoutOf(bytesPerChannel, markerBytesPerChannel, chunkBeats);
            && l.Ok() && l.chunk == chunkBeats
            && l.total * DDR_BEAT_BYTES == bytesPerChannel * CHANNELS
            && l.marker * DDR_BEAT_BYTES == markerBytesPerChannel * CHANNELS
  {
    BeatsOfBytes(bytesPerChannel);
    BeatsOfBytes(markerBytesPerChannel);
  }

  lemma BeatsOfBytes(n: nat)
    requires n % BEAT_BYTES == 0
    ensures n * CHANNELS / DDR_BEAT_BYTES == 4 * (n / 32) && n * CHANNELS == 4 * (n / 32) * DDR_BEAT_BYTES
  {
    assert n == 32 * (n / 32);
  }

  /** The byte-level region of a beat is its region in the layout. */
  lemma RegionOfBeat(bytesPerChannel: nat, markerBytesPerChannel: nat, chunkBeats: nat, beat: nat)
    requires RecordArgumentsOk(bytesPerChannel, markerBytesPerChannel, chunkBeats)
    ensures var l := LayoutOf(bytesPerChannel, markerBytesPerChannel, chunkBeats);
            MarkerRegion(beat * DDR_BEAT_BYTES, l.total * DDR_BEAT_BYTES, markerBytesPerChannel) == l.At(beat)
  {
    LayoutIsOk(bytesPerChannel, markerBytesPerChannel, chunkBeats);
    var l := LayoutOf(bytesPerChannel, markerBytesPerChannel, chunkBeats);
    RegionScales(l.total / 4, l.marker / 4, beat, markerBytesPerChannel);
  }

  lemma RegionScales(total: nat, marker: nat, beat: nat, markerBytesPerChannel: nat)
    requires markerBytesPerChannel * CHANNELS == 4 * marker * DDR_BEAT_BYTES
    ensures MarkerRegion(beat * DDR_BEAT_BYTES, 4 * total * DDR_BEAT_BYTES, markerBytesPerChannel)
            == Layout(4 * total, 4 * marker, 1).At(beat)
  {
    assert 4 * total * 64 / 2 - 4 * marker * 64 / 2 == 128 * (total - marker);
    if total > marker {
      assert (4 * total - 4 * marker) / 2 == 2 * (total - marker);
    }
  }

  /** count copies of one beat. */
  function Repeat(beat: seq<byte>, count: nat): seq<byte> {
    if count == 0 then [] else beat + Repeat(beat, count - 1)
  }

  lemma {:induction false} RepeatIsRender(region: Region, count: nat)
    ensures Repeat(BeatOf(region), count) == Render(seq(count, i => region))
  {
    if count == 0 {
    } else {
      RepeatIsRender(region, count - 1);
      assert seq(count, i => region)[1..] == seq(count - 1, i => region);
    }
  }

  /** Shrink a run until it ends in the region it starts in. */
  method ShrinkRun(bytesPerChannel: int, chunkBeats: int, markerBytesPerChannel: int, beat: nat, limit: nat,
                   region: Region)
    returns (count: nat)
    requires RecordArgumentsOk(bytesPerChannel, markerBytesPerChannel, chunkBeats) && limit > 0
    requires region == LayoutOf(bytesPerChannel, markerBytesPerChannel, chunkBeats).At(beat)
    ensures count == LayoutOf(bytesPerChannel, markerBytesPerChannel, chunkBeats).RunLength(beat, limit)
  {
    hide MarkerRegion, LayoutOf, Layout.At;
    ghost var l := LayoutOf(bytesPerChannel, markerBytesPerChannel, chunkBeats);
    LayoutIsOk(bytesPerChannel, markerBytesPerChannel, chunkBeats);
    var totalBytes := bytesPerChannel * CHANNELS;
    count := limit;
    while count > 1
      invariant count >= 1 && l.RunLength(beat, count) == l.RunLength(beat, limit)
    {
      var endRegion := MarkerRegion((beat + count - 1) * DDR_BEAT_BYTES, totalBytes, markerBytesPerChannel);
      RegionOfBeat(bytesPerChannel, markerBytesPerChannel, chunkBeats, beat + count - 1);
      if endRegion == region {
        break;
      }
      count := count - 1;
    }
  }

  /** iter_max_length_payload_chunks for the cw-marker pattern. */
  method PayloadChunks(bytesPerChannel: int, chunkBeats: int, markerBytesPerChannel: int)
    returns (r: Result<seq<(nat, seq<byte>)>, RecordError>)
    ensures r.Ok? <==> RecordArgumentsOk(bytesPerChannel, markerBytesPerChannel, chunkBeats)
    ensures r.Ok? <==> && 0 < bytesPerChannel <= 0x3FFE_0000 && bytesPerChannel % 32 == 0 && chunkBeats > 0
                       && 0 < markerBytesPerChannel && markerBytesPerChannel % 32 == 0
    ensures r.Ok? ==> r.value == LayoutOf(bytesPerChannel, markerBytesPerChannel, chunkBeats).Chunks(0)
  {
    if !RecordArgumentsOk(bytesPerChannel, markerBytesPerChannel, chunkBeats) {
      return Err(BadArgument);
    }
    var chunks := GenerateChunks(bytesPerChannel, chunkBeats, markerBytesPerChannel);
    r := Ok(chunks);
  }

  method GenerateChunks(bytesPerChannel: nat, chunkBeats: nat,
                        markerBytesPerChannel: nat) returns (chunks: seq<(nat, seq<byte>)>)
    requires RecordArgumentsOk(bytesPerChannel, markerBytesPerChannel, chunkBeats)
    ensures chunks == LayoutOf(bytesPerChannel, markerBytesPerChannel, chunkBeats).Chunks(0)
  {
    hide MarkerRegion, BeatOf, Render, Repeat, LayoutOf, RecordArgumentsOk, Layout.At, Layout.RunLength, Layout.Chunks;
    ghost var l := LayoutOf(bytesPerChannel, markerBytesPerChannel, chunkBeats);
    LayoutIsOk(bytesPerChannel, markerBytesPerChannel, chunkBeats);
    var totalBytes := bytesPerChannel * CHANNELS;
    var totalBeats := totalBytes / DDR_BEAT_BYTES;
    chunks := [];
    var beat := 0;
    while beat < totalBeats
      invariant beat <= totalBeats == l.total && chunks + l.Chunks(beat) == l.Chunks(0)
      decreases totalBeats - beat
    {
      var limit := if chunkBeats < totalBeats - beat then chunkBeats else totalBeats - beat;
      var region := MarkerRegion(beat * DDR_BEAT_BYTES, totalBytes, markerBytesPerChannel);
      RegionOfBeat(bytesPerChannel, markerBytesPerChannel, chunkBeats, beat);
      var count := ShrinkRun(bytesPerChannel, chunkBeats, markerBytesPerChannel, beat, limit, region);
      RepeatIsRender(region, count);
      var payload := Repeat(InterleavedBeat(beat, totalBeats, markerBytesPerChannel), count);
      ChunkHead(l, beat);
      assert chunks + ([(beat, payload)] + l.Chunks(beat + count))
              == chunks + [(beat, payload)] + l.Chunks(beat + count);
      chunks := chunks + [(beat, payload)];
      beat := beat + count;
    }
    NoChunks(l);
  }

  lemma NoChunks(l: Layout)
    requires l.chunk > 0
    ensures l.Chunks(l.total) == []
  {
  }

  lemma ChunkHead(l: Layout, beat: nat)
    requires l.chunk > 0 && beat < l.total
    ensures l.Chunks(beat) == [(beat, Render(seq(l.Count(beat), i => l.At(beat))))] + l.Chunks(beat + l.Count(beat))
    ensures l.Count(beat) == l.RunLength(beat, if l.chunk < l.total - beat then l.chunk else l.total - beat)
  {
  }

  /** A chunk no longer than the marker plus one beat is always safe; so every UDP batch is. */
  lemma ShortChunksAreSafe(l: Layout)
    requires l.Ok() && l.chunk <= l.marker + 1
    ensures l.ChunkSafe()
  {
  }

  /** The defaults lose the middle marker of a full-memory record. */
  lemma DefaultChunkLosesMarker()
    ensures var l := LayoutOf(DDR_MAX_BYTES_PER_CHANNEL, 4096, 8192);
            l.Ok() && !l.ChunkSafe() && Payloads(l.Chunks(0)) != Render(l.DefinedFrom(0))
  {
    hide Render, Payloads, Layout.Chunks, Layout.DefinedFrom;
    var l := Layout(134201344, 512, 8192);
    assert LayoutOf(DDR_MAX_BYTES_PER_CHANNEL, 4096, 8192) == l;
    assert ((134201344 - 3 * 512) / 2 - 1) % 8192 == 7423;
    GeneratorRefinesDefinition(l);
  }
}
