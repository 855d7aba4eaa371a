/** Bulk UDP datagrams and the record cache (software/host.py): what memory holds
    after a stream has been written. */
module BulkStream {
  import opened Bytes
  import opened WaveProtocol
  import opened MaxLength
  import Upload
  import WaveWire

  const BULK_MAGIC: nat := 0x5741564553545230
  const MAX_DATAGRAM_BEATS: nat := 4

  type BeatChunk = (nat, seq<byte>)

  /** The chunks are whole beats and follow each other from `beat` on. */
  predicate Sequential(chunks: seq<BeatChunk>, beat: nat) {
    chunks == []
    || (&& chunks[0].0 == beat && chunks[0].1 != [] && |chunks[0].1| % DDR_BEAT_BYTES == 0
        && Sequential(chunks[1..], beat + |chunks[0].1| / DDR_BEAT_BYTES))
  }

  lemma {:induction false} ChunksAreSequential(l: Layout, beat: nat)
    requires l.chunk > 0 && beat <= l.total
    ensures Sequential(l.Chunks(beat), beat) && |Payloads(l.Chunks(beat))| == (l.total - beat) * DDR_BEAT_BYTES
    decreases l.total - beat
  {
    hide Render, Layout.At, Layout.RunLength, Layout.Chunks, Layout.Generated, Payloads;
    ChunksRenderGenerated(l, beat);
    if beat < l.total {
      var c := l.Count(beat);
      ChunkHead(l, beat);
      ChunksAreSequential(l, beat + c);
      assert l.Chunks(beat)[1..] == l.Chunks(beat + c);
    } else {
      NoChunks(l);
    }
  }

  // ----- Datagrams -----

  function PackDatagram(base: nat, chunk: BeatChunk): Result<seq<byte>, RecordError> {
    var address, words := base + chunk.0 * DDR_BEAT_BYTES, |chunk.1| / 8;
    if address >= LONG_RANGE || words >= LONG_RANGE then Err(BadArgument)
    else Ok(PackRecord(ENVELOPE, [BULK_MAGIC, address, words]) + chunk.1)
  }

  function DecodeDatagram(datagram: seq<byte>): Result<(nat, seq<byte>), RecordError> {
    EnvelopeSize();
    if |datagram| < HEADER_BYTES then Err(BadArgument) else
    var header := UnpackRecord(ENVELOPE, datagram[..HEADER_BYTES]);
    var payload := datagram[HEADER_BYTES..];
    if header[0] != BULK_MAGIC || header[1] % BEAT_BYTES != 0 then Err(BadArgument)
    else if header[2] == 0 || header[2] % 4 != 0 || |payload| != header[2] * 8 then Err(BadArgument)
    else Ok((header[1], payload))
  }

  /** A packed chunk decodes to its address and payload. */
  lemma DecodeInvertsPack(base: nat, chunk: BeatChunk)
    requires base % BEAT_BYTES == 0 && chunk.1 != [] && |chunk.1| % DDR_BEAT_BYTES == 0
    requires PackDatagram(base, chunk).Ok?
    ensures DecodeDatagram(PackDatagram(base, chunk).value) == Ok((base + chunk.0 * DDR_BEAT_BYTES, chunk.1))
  {
    hide PackRecord, UnpackRecord, Size;
    EnvelopeSize();
    var address, words := base + chunk.0 * DDR_BEAT_BYTES, |chunk.1| / 8;
    EnvelopeFits(BULK_MAGIC, address, words);
    UnpackPrefix(ENVELOPE, [BULK_MAGIC, address, words], chunk.1);
    HeaderFields(base, chunk.0, |chunk.1|);
  }

  /** The magic, the address and the number of 64-bit words, and then the chunk. */
  lemma DatagramLayout(base: nat, chunk: BeatChunk)
    requires chunk.1 != [] && |chunk.1| % DDR_BEAT_BYTES == 0
    ensures PackDatagram(base, chunk).Ok? <==>
            base + 64 * chunk.0 < 0x1_0000_0000_0000_0000 && |chunk.1| < 8 * 0x1_0000_0000_0000_0000
    ensures PackDatagram(base, chunk).Ok? ==>
              var d := PackDatagram(base, chunk).value;
              && |d| == 24 + |chunk.1| && UintAt(d, 0, 8) == 0x5741564553545230
              && UintAt(d, 8, 8) == base + 64 * chunk.0 && 8 * UintAt(d, 16, 8) == |chunk.1| && d[24..] == chunk.1
  {
    hide PackRecord, UnpackRecord, Size, UintAt;
    if PackDatagram(base, chunk).Ok? {
      EnvelopeSize();
      var address, words := base + chunk.0 * DDR_BEAT_BYTES, |chunk.1| / 8;
      EnvelopeFits(BULK_MAGIC, address, words);
      UnpackPrefix(ENVELOPE, [BULK_MAGIC, address, words], chunk.1);
      WaveWire.HeaderFields(PackDatagram(base, chunk).value);
      assert |chunk.1| == 64 * (|chunk.1| / 64);
    }
  }

  /** What the decoder accepts, and what it reads. */
  lemma DecodesExactly(d: seq<byte>)
    ensures DecodeDatagram(d).Ok? <==>
            && |d| > 24 && UintAt(d, 0, 8) == 0x5741564553545230 && UintAt(d, 8, 8) % 32 == 0
            && |d| == 24 + 8 * UintAt(d, 16, 8) && UintAt(d, 16, 8) % 4 == 0
    ensures DecodeDatagram(d).Ok? ==> DecodeDatagram(d).value == (UintAt(d, 8, 8), d[24..])
  {
    hide UnpackRecord, Size, UintAt;
    EnvelopeSize();
    if |d| >= 24 {
      WaveWire.HeaderFields(d);
    }
  }

  lemma HeaderFields(base: nat, beat: nat, n: nat)
    requires base % BEAT_BYTES == 0 && n > 0 && n % DDR_BEAT_BYTES == 0
    ensures (base + beat * DDR_BEAT_BYTES) % BEAT_BYTES == 0
    ensures n / 8 * 8 == n && n / 8 % 4 == 0 && n / 8 > 0
  {
    AlignedAddress(base, beat);
    var q := n / 64;
    assert n == 64 * q;
    assert n / 8 == 4 * (2 * q);
  }

  lemma AlignedAddress(base: nat, beat: nat)
    requires base % BEAT_BYTES == 0
    ensures (base + beat * DDR_BEAT_BYTES) % BEAT_BYTES == 0
  {
    assert base + beat * 64 == 32 * (base / 32 + 2 * beat);
  }

  // ----- Memory -----

  /** The DDR contents; a write past the end is not carried out. */
  type Memory = seq<byte>

  function WriteBytes(memory: Memory, at: nat, raw: seq<byte>): (next: Memory)
    ensures |next| == |memory|
  {
    if at + |raw| <= |memory| then memory[..at] + raw + memory[at + |raw|..] else memory
  }

  /** A write changes the bytes it covers, and no others. */
  lemma WrittenByte(memory: Memory, at: nat, raw: seq<byte>, k: nat)
    requires at + |raw| <= |memory| && k < |memory|
    ensures WriteBytes(memory, at, raw)[k] == if at <= k < at + |raw| then raw[k - at] else memory[k]
  {
  }

  /** The board writes every datagram it can decode, in order. */
  function WriteAll(memory: Memory, datagrams: seq<seq<byte>>): Memory
    decreases |datagrams|
  {
    if datagrams == [] then memory
    else
      var next := match DecodeDatagram(datagrams[0])
                  case Ok((at, raw)) => WriteBytes(memory, at, raw)
                  case Err(_) => memory;
      WriteAll(next, datagrams[1..])
  }

  /** The datagrams decode to consecutive non-empty pieces of the image from `at`
      on, so each image byte is carried exactly once. */
  predicate Tiles(datagrams: seq<seq<byte>>, at: nat, image: seq<byte>) {
    if datagrams == [] then image == []
    else
      var d := DecodeDatagram(datagrams[0]);
      && d.Ok? && d.value.0 == at && 0 < |d.value.1| <= |image| && d.value.1 == image[..|d.value.1|]
      && Tiles(datagrams[1..], at + |d.value.1|, image[|d.value.1|..])
  }

  /** Two adjacent writes are one. */
  lemma WriteTwice(memory: Memory, at: nat, a: seq<byte>, b: seq<byte>)
    requires at + |a| + |b| <= |memory|
    ensures WriteBytes(WriteBytes(memory, at, a), at + |a|, b) == WriteBytes(memory, at, a + b)
  {
  }

  /** A tiling stream fills exactly [at, at + |image|) with the image. */
  lemma {:induction false} TilesFillMemory(memory: Memory, datagrams: seq<seq<byte>>, at: nat, image: seq<byte>)
    requires Tiles(datagrams, at, image) && at + |image| <= |memory|
    ensures WriteAll(memory, datagrams) == WriteBytes(memory, at, image)
    decreases |datagrams|
  {
    hide DecodeDatagram;
    if datagrams == [] {
    } else {
      hide WriteBytes;
      var raw := DecodeDatagram(datagrams[0]).value.1;
      TilesFillMemory(WriteBytes(memory, at, raw), datagrams[1..], at + |raw|, image[|raw|..]);
      assert image == raw + image[|raw|..];
      WriteTwice(memory, at, raw, image[|raw|..]);
    }
  }

  /** Two images written at one address leave the same memory only if they are equal. */
  lemma WriteBytesInjective(memory: Memory, at: nat, a: seq<byte>, b: seq<byte>)
    requires |a| == |b| && at + |a| <= |memory|
    ensures WriteBytes(memory, at, a) == WriteBytes(memory, at, b) <==> a == b
  {
    assert WriteBytes(memory, at, a)[at..at + |a|] == a;
    assert WriteBytes(memory, at, b)[at..at + |b|] == b;
  }

  // ----- Streams -----

  predicate StreamArgumentsOk(base: int, beatsPerDatagram: int) {
    base >= 0 && base % BEAT_BYTES == 0 && 1 <= beatsPerDatagram <= MAX_DATAGRAM_BEATS
  }

  /** One datagram per chunk: a 24-byte header and the chunk's bytes. */
  predicate Carries(datagrams: seq<seq<byte>>, chunks: seq<BeatChunk>) {
    && |datagrams| == |chunks|
    && forall k :: 0 <= k < |chunks| ==> |datagrams[k]| == 24 + |chunks[k].1| && datagrams[k][24..] == chunks[k].1
  }

  lemma NothingCarried()
    ensures Carries([], [])
  {
  }

  lemma CarriesOneMore(datagram: seq<byte>, chunk: BeatChunk, rest: seq<seq<byte>>, chunks: seq<BeatChunk>)
    requires |datagram| == 24 + |chunk.1| && datagram[24..] == chunk.1 && Carries(rest, chunks)
    ensures Carries([datagram] + rest, [chunk] + chunks)
  {
  }

  /** One datagram per chunk; a header field that does not fit is an error. */
  method PackAll(base: nat, chunks: seq<BeatChunk>, ghost at: nat) returns (r: Result<seq<seq<byte>>, RecordError>)
    requires base % BEAT_BYTES == 0 && Sequential(chunks, at)
    ensures r.Ok? ==> Tiles(r.value, base + at * DDR_BEAT_BYTES, Payloads(chunks))
    ensures r.Ok? ==> Carries(r.value, chunks)
    ensures base + at * DDR_BEAT_BYTES + |Payloads(chunks)| <= LONG_RANGE ==> r.Ok?
    decreases |chunks|
  {
    hide PackDatagram, DecodeDatagram, Carries;
    if chunks == [] {
      NothingCarried();
      return Ok([]);
    }
    PackSucceeds(base, chunks[0]);
    var datagram := PackDatagram(base, chunks[0]);
    if datagram.Err? {
      return Err(datagram.error);
    }
    DecodeInvertsPack(base, chunks[0]);
    var rest := PackAll(base, chunks[1..], at + |chunks[0].1| / DDR_BEAT_BYTES);
    if rest.Err? {
      return Err(rest.error);
    }
    var image := Payloads(chunks);
    assert image[..|chunks[0].1|] == chunks[0].1 && image[|chunks[0].1|..] == Payloads(chunks[1..]);
    assert ([datagram.value] + rest.value)[1..] == rest.value;
    DatagramLayout(base, chunks[0]);
    CarriesOneMore(datagram.value, chunks[0], rest.value, chunks[1..]);
    assert chunks == [chunks[0]] + chunks[1..];
    r := Ok([datagram.value] + rest.value);
  }

  lemma PackSucceeds(base: nat, chunk: BeatChunk)
    requires chunk.1 != []
    ensures base + chunk.0 * DDR_BEAT_BYTES + |chunk.1| <= LONG_RANGE ==> PackDatagram(base, chunk).Ok?
  {
  }

  /** iter_max_length_udp_batches: stream the generated record directly. */
  method UdpBatches(bytesPerChannel: int, base: int, beatsPerDatagram: int, markerBytesPerChannel: int)
    returns (r: Result<seq<seq<byte>>, RecordError>)
    ensures r.Ok? ==> && RecordArgumentsOk(bytesPerChannel, markerBytesPerChannel, beatsPerDatagram)
                      && StreamArgumentsOk(base, beatsPerDatagram)
    ensures r.Ok? ==> Tiles(r.value, base, Record(bytesPerChannel, markerBytesPerChannel))
    ensures r.Ok? ==> forall k :: 0 <= k < |r.value| ==> 24 + 64 <= |r.value[k]| <= 24 + 64 * beatsPerDatagram
    ensures (&& RecordArgumentsOk(bytesPerChannel, markerBytesPerChannel, beatsPerDatagram)
             && StreamArgumentsOk(base, beatsPerDatagram) && base + bytesPerChannel * CHANNELS <= LONG_RANGE) ==> r.Ok?
  {
    if !StreamArgumentsOk(base, beatsPerDatagram) {
      return Err(BadArgument);
    }
    var chunks := PayloadChunks(bytesPerChannel, beatsPerDatagram, markerBytesPerChannel);
    if chunks.Err? {
      return Err(chunks.error);
    }
    ghost var l := LayoutOf(bytesPerChannel, markerBytesPerChannel, beatsPerDatagram);
    LayoutIsOk(bytesPerChannel, markerBytesPerChannel, beatsPerDatagram);
    ChunksAreSequential(l, 0);
    DirectStreamIsTheRecord(bytesPerChannel, markerBytesPerChannel, beatsPerDatagram);
    ChunkSizes(l, 0);
    r := PackAll(base, chunks.value, 0);
  }

  /** A generated chunk has at least one beat and at most the chunk size. */
  lemma {:induction false} ChunkSizes(l: Layout, beat: nat)
    requires l.chunk > 0 && beat <= l.total
    ensures forall k :: 0 <= k < |l.Chunks(beat)| ==>
              DDR_BEAT_BYTES <= |l.Chunks(beat)[k].1| <= DDR_BEAT_BYTES * l.chunk
    decreases l.total - beat
  {
    hide Render, Layout.At, Layout.RunLength, Layout.Chunks;
    if beat < l.total {
      ChunkHead(l, beat);
      ChunkSizes(l, beat + l.Count(beat));
    } else {
      NoChunks(l);
    }
  }

  /** The record by its per-beat definition. */
  function Record(bytesPerChannel: nat, markerBytesPerChannel: nat): seq<byte> {
    Render(LayoutOf(bytesPerChannel, markerBytesPerChannel, 1).DefinedFrom(0))
  }

  /** Batches of at most four beats meet the generator's guard, since a marker is at least four beats. */
  lemma DirectStreamIsTheRecord(bytesPerChannel: nat, markerBytesPerChannel: nat, chunkBeats: nat)
    requires RecordArgumentsOk(bytesPerChannel, markerBytesPerChannel, chunkBeats) && chunkBeats <= MAX_DATAGRAM_BEATS
    ensures Payloads(LayoutOf(bytesPerChannel, markerBytesPerChannel, chunkBeats).Chunks(0))
            == Record(bytesPerChannel, markerBytesPerChannel)
  {
    var l := LayoutOf(bytesPerChannel, markerBytesPerChannel, chunkBeats);
    LayoutIsOk(bytesPerChannel, markerBytesPerChannel, chunkBeats);
    ShortChunksAreSafe(l);
    GeneratorRefinesDefinition(l);
    DefinitionIgnoresChunk(l, LayoutOf(bytesPerChannel, markerBytesPerChannel, 1));
  }

  lemma DefinitionIgnoresChunk(a: Layout, b: Layout)
    requires a.total == b.total && a.marker == b.marker
    ensures a.DefinedFrom(0) == b.DefinedFrom(0)
  {
    assert forall i :: 0 <= i < a.total ==> a.DefinedFrom(0)[i] == a.At(i) == b.At(i) == b.DefinedFrom(0)[i];
  }

  /** Write the chunks one after another. */
  method WriteFile(chunks: seq<BeatChunk>) returns (file: seq<byte>)
    ensures file == Payloads(chunks)
  {
    file := [];
    for c := 0 to |chunks|
      invariant file + Payloads(chunks[c..]) == Payloads(chunks)
    {
      assert chunks[c..][1..] == chunks[c + 1..];
      file := file + chunks[c].1;
    }
    assert chunks[|chunks|..] == [];
  }

  /** ensure_max_length_waveform_cache: reuse a file of the right size, or generate one. */
  method EnsureCache(existing: Option<seq<byte>>, force: bool, bytesPerChannel: int, markerBytesPerChannel: int,
                     generationChunkBeats: int)
    returns (r: Result<seq<byte>, RecordError>)
    ensures r.Ok? ==> |r.value| == bytesPerChannel * CHANNELS
    ensures (&& bytesPerChannel % BEAT_BYTES == 0 && existing.Some? && !force
             && |existing.value| == bytesPerChannel * CHANNELS) ==>
              r == Ok(existing.value)
    ensures r.Ok? && (existing.None? || |existing.value| != bytesPerChannel * CHANNELS || force) ==>
              && RecordArgumentsOk(bytesPerChannel, markerBytesPerChannel, generationChunkBeats)
              && r.value == Payloads(LayoutOf(bytesPerChannel, markerBytesPerChannel, generationChunkBeats).Chunks(0))
    ensures RecordArgumentsOk(bytesPerChannel, markerBytesPerChannel, generationChunkBeats) ==> r.Ok?
  {
    if bytesPerChannel % BEAT_BYTES != 0 {
      return Err(BadArgument);
    }
    var expected := bytesPerChannel * CHANNELS;
    if existing.Some? && |existing.value| == expected && !force {
      return Ok(existing.value);
    }
    var chunks := PayloadChunks(bytesPerChannel, generationChunkBeats, markerBytesPerChannel);
    if chunks.Err? {
      return Err(chunks.error);
    }
    LayoutIsOk(bytesPerChannel, markerBytesPerChannel, generationChunkBeats);
    ChunksAreSequential(LayoutOf(bytesPerChannel, markerBytesPerChannel, generationChunkBeats), 0);
    var file := WriteFile(chunks.value);
    if |file| != expected {
      return Err(BadArgument);
    }
    r := Ok(file);
  }

  lemma ChunkIsWholeBeats(chunkBeats: nat, length: nat, beat: nat)
    requires length % DDR_BEAT_BYTES == 0 && beat * DDR_BEAT_BYTES <= length
    ensures chunkBeats * DDR_BEAT_BYTES % DDR_BEAT_BYTES == 0 && (length - beat * DDR_BEAT_BYTES) % DDR_BEAT_BYTES == 0
  {
    assert length - beat * 64 == 64 * (length / 64 - beat);
  }

  lemma ReadOne(file: seq<byte>, chunks: seq<BeatChunk>, beat: nat, size: nat)
    requires 0 < size && beat * DDR_BEAT_BYTES + size <= |file| && size % DDR_BEAT_BYTES == 0
    requires SequentialTo(chunks, 0, beat) && Payloads(chunks) == file[..beat * DDR_BEAT_BYTES]
    ensures var position := beat * DDR_BEAT_BYTES;
            var more := chunks + [(beat, file[position..position + size])];
            && SequentialTo(more, 0, beat + size / DDR_BEAT_BYTES) && Payloads(more) == file[..position + size]
            && (beat + size / DDR_BEAT_BYTES) * DDR_BEAT_BYTES == position + size
  {
    hide SequentialTo, Payloads;
    var position := beat * DDR_BEAT_BYTES;
    SequentialSnoc(chunks, 0, beat, file[position..position + size]);
    assert file[..position + size] == file[..position] + file[position..position + size];
    BeatsAdvance(beat, size);
  }

  /** Chunk k starts at beat k * chunkBeats and takes that many beats, or all that are left. */
  predicate EqualPieces(chunks: seq<BeatChunk>, length: nat, chunkBeats: int) {
    forall k :: 0 <= k < |chunks| ==>
      && chunks[k].0 == k * chunkBeats
      && |chunks[k].1| == Min(64 * chunkBeats, length - 64 * chunks[k].0)
  }

  function Min(a: int, b: int): int {
    if a < b then a else b
  }

  lemma OnePieceMore(chunks: seq<BeatChunk>, length: nat, chunkBeats: nat, beat: nat, payload: seq<byte>)
    requires EqualPieces(chunks, length, chunkBeats) && beat == |chunks| * chunkBeats
    requires |payload| == Min(64 * chunkBeats, length - 64 * beat)
    ensures EqualPieces(chunks + [(beat, payload)], length, chunkBeats)
    ensures 64 * beat + |payload| < length ==> beat + |payload| / 64 == (|chunks| + 1) * chunkBeats
  {
    assert (|chunks| + 1) * chunkBeats == beat + chunkBeats;
  }

  /** iter_max_length_payload_chunks_from_cache. */
  method ReadCache(file: seq<byte>, bytesPerChannel: int,
                   chunkBeats: int) returns (r: Result<seq<BeatChunk>, RecordError>)
    ensures r.Ok? ==> Sequential(r.value, 0) && Payloads(r.value) == file && |file| == bytesPerChannel * CHANNELS
    ensures r.Ok? ==> EqualPieces(r.value, |file|, chunkBeats)
    ensures r.Ok? ==> bytesPerChannel % BEAT_BYTES == 0 && 0 < bytesPerChannel <= DDR_MAX_BYTES_PER_CHANNEL
    ensures (&& bytesPerChannel % BEAT_BYTES == 0 && 0 < bytesPerChannel <= DDR_MAX_BYTES_PER_CHANNEL
             && chunkBeats > 0 && |file| == bytesPerChannel * CHANNELS) ==> r.Ok?
  {
    if bytesPerChannel % BEAT_BYTES != 0 || !(0 < bytesPerChannel <= DDR_MAX_BYTES_PER_CHANNEL) || chunkBeats <= 0
       || |file| != bytesPerChannel * CHANNELS {
      return Err(BadArgument);
    }
    hide SequentialTo, Sequential, Payloads, EqualPieces, ReadSoFar;
    WholeBeats(bytesPerChannel);
    var chunkBytes := chunkBeats * DDR_BEAT_BYTES;
    var chunks: seq<BeatChunk> := [];
    var beat: nat, position: nat := 0, 0;
    NothingRead(file, chunkBeats);
    while position < |file|
      invariant position <= |file| && ReadSoFar(file, chunks, chunkBeats, beat, position)
      decreases |file| - position
    {
      var size := if chunkBytes < |file| - position then chunkBytes else |file| - position;
      ReadStep(file, chunks, chunkBeats, beat, position);
      var payload := file[position..position + size];
      if payload == [] {
        break;
      }
      if |payload| % DDR_BEAT_BYTES != 0 {
        return Err(BadArgument);
      }
      chunks := chunks + [(beat, payload)];
      beat := beat + |payload| / DDR_BEAT_BYTES;
      position := position + |payload|;
    }
    if position != |file| {
      return Err(BadArgument);
    }
    AllRead(file, chunks, chunkBeats, beat);
    r := Ok(chunks);
  }

  /** The chunks read up to a position of the file. */
  ghost predicate ReadSoFar(file: seq<byte>, chunks: seq<BeatChunk>, chunkBeats: int, beat: nat, position: nat) {
    && position == beat * DDR_BEAT_BYTES <= |file|
    && SequentialTo(chunks, 0, beat) && Payloads(chunks) == file[..position]
    && EqualPieces(chunks, |file|, chunkBeats) && (position < |file| ==> beat == |chunks| * chunkBeats)
  }

  lemma NothingRead(file: seq<byte>, chunkBeats: int)
    ensures ReadSoFar(file, [], chunkBeats, 0, 0)
  {
  }

  lemma ReadStep(file: seq<byte>, chunks: seq<BeatChunk>, chunkBeats: nat, beat: nat, position: nat)
    requires ReadSoFar(file, chunks, chunkBeats, beat, position) && position < |file|
    requires chunkBeats > 0 && |file| % DDR_BEAT_BYTES == 0
    ensures var size := Min(chunkBeats * DDR_BEAT_BYTES, |file| - position);
            var next := chunks + [(beat, file[position..position + size])];
            && size > 0 && size % DDR_BEAT_BYTES == 0
            && ReadSoFar(file, next, chunkBeats, beat + size / DDR_BEAT_BYTES, position + size)
  {
    hide SequentialTo, Payloads, EqualPieces;
    var size := Min(chunkBeats * DDR_BEAT_BYTES, |file| - position);
    ChunkIsWholeBeats(chunkBeats, |file|, beat);
    ReadOne(file, chunks, beat, size);
    OnePieceMore(chunks, |file|, chunkBeats, beat, file[position..position + size]);
  }

  lemma AllRead(file: seq<byte>, chunks: seq<BeatChunk>, chunkBeats: int, beat: nat)
    requires ReadSoFar(file, chunks, chunkBeats, beat, |file|)
    ensures Sequential(chunks, 0) && Payloads(chunks) == file && EqualPieces(chunks, |file|, chunkBeats)
  {
    hide Payloads, EqualPieces, SequentialTo, Sequential;
    assert file[..|file|] == file;
    SequentialToIsSequential(chunks, 0, beat);
  }

  lemma WholeBeats(bytesPerChannel: nat)
    requires bytesPerChannel % BEAT_BYTES == 0
    ensures bytesPerChannel * CHANNELS % DDR_BEAT_BYTES == 0
  {
    assert bytesPerChannel * CHANNELS == DDR_BEAT_BYTES * (4 * (bytesPerChannel / 32));
  }

  /** Sequential chunks from `beat` that end just before `end`. */
  predicate SequentialTo(chunks: seq<BeatChunk>, beat: nat, end: nat) {
    if chunks == [] then beat == end
    else
      && chunks[0].0 == beat && chunks[0].1 != [] && |chunks[0].1| % DDR_BEAT_BYTES == 0
      && SequentialTo(chunks[1..], beat + |chunks[0].1| / DDR_BEAT_BYTES, end)
  }

  lemma {:induction false} SequentialSnoc(chunks: seq<BeatChunk>, beat: nat, end: nat, payload: seq<byte>)
    requires SequentialTo(chunks, beat, end) && payload != [] && |payload| % DDR_BEAT_BYTES == 0
    ensures SequentialTo(chunks + [(end, payload)], beat, end + |payload| / DDR_BEAT_BYTES)
    ensures Payloads(chunks + [(end, payload)]) == Payloads(chunks) + payload
  {
    if chunks == [] {
      assert Payloads([(end, payload)]) == payload + Payloads([]);
    } else {
      assert (chunks + [(end, payload)])[1..] == chunks[1..] + [(end, payload)];
      SequentialSnoc(chunks[1..], beat + |chunks[0].1| / DDR_BEAT_BYTES, end, payload);
    }
  }

  lemma {:induction false} SequentialToIsSequential(chunks: seq<BeatChunk>, beat: nat, end: nat)
    requires SequentialTo(chunks, beat, end)
    ensures Sequential(chunks, beat)
  {
    if chunks == [] {
    } else {
      SequentialToIsSequential(chunks[1..], beat + |chunks[0].1| / DDR_BEAT_BYTES, end);
    }
  }

  /** iter_max_length_udp_batches_from_cache. */
  method UdpBatchesFromCache(file: seq<byte>, bytesPerChannel: int, base: int, beatsPerDatagram: int)
    returns (r: Result<seq<seq<byte>>, RecordError>)
    ensures r.Ok? ==> && StreamArgumentsOk(base, beatsPerDatagram) && Tiles(r.value, base, file)
                      && |file| == bytesPerChannel * CHANNELS
    ensures r.Ok? ==> forall k :: 0 <= k < |r.value| ==>
                        |r.value[k]| == 24 + Min(64 * beatsPerDatagram, |file| - 64 * (k * beatsPerDatagram))
    ensures (&& StreamArgumentsOk(base, beatsPerDatagram) && bytesPerChannel % BEAT_BYTES == 0
             && 0 < bytesPerChannel <= DDR_MAX_BYTES_PER_CHANNEL && |file| == bytesPerChannel * CHANNELS
             && base + |file| <= LONG_RANGE) ==> r.Ok?
  {
    if !StreamArgumentsOk(base, beatsPerDatagram) {
      return Err(BadArgument);
    }
    var chunks := ReadCache(file, bytesPerChannel, beatsPerDatagram);
    if chunks.Err? {
      return Err(chunks.error);
    }
    r := PackAll(base, chunks.value, 0);
  }

  /** The direct stream, and the stream of a freshly generated cache, leave the
      same memory exactly when the cache's generation chunk size is safe. */
  lemma StreamsAgreeIff(memory: Memory, direct: seq<seq<byte>>, cached: seq<seq<byte>>, base: nat,
                        bytesPerChannel: nat, markerBytesPerChannel: nat, generationChunkBeats: nat)
    requires RecordArgumentsOk(bytesPerChannel, markerBytesPerChannel, generationChunkBeats)
    requires Tiles(direct, base, Record(bytesPerChannel, markerBytesPerChannel))
    requires base + bytesPerChannel * CHANNELS <= |memory|
    requires var l := LayoutOf(bytesPerChannel, markerBytesPerChannel, generationChunkBeats);
             Tiles(cached, base, Payloads(l.Chunks(0)))
    ensures LayoutOf(bytesPerChannel, markerBytesPerChannel, generationChunkBeats).Ok()
    ensures WriteAll(memory, direct) == WriteBytes(memory, base, Record(bytesPerChannel, markerBytesPerChannel))
    ensures WriteAll(memory, direct) == WriteAll(memory, cached)
            <==> LayoutOf(bytesPerChannel, markerBytesPerChannel, generationChunkBeats).ChunkSafe()
  {
    hide WriteBytes, Record;
    var l := LayoutOf(bytesPerChannel, markerBytesPerChannel, generationChunkBeats);
    LayoutIsOk(bytesPerChannel, markerBytesPerChannel, generationChunkBeats);
    ChunksAreSequential(l, 0);
    RecordOf(bytesPerChannel, markerBytesPerChannel, generationChunkBeats);
    TilesFillMemory(memory, direct, base, Record(bytesPerChannel, markerBytesPerChannel));
    TilesFillMemory(memory, cached, base, Payloads(l.Chunks(0)));
    GeneratorRefinesDefinition(l);
    WriteBytesInjective(memory, base, Record(bytesPerChannel, markerBytesPerChannel), Payloads(l.Chunks(0)));
  }

  lemma RecordOf(bytesPerChannel: nat, markerBytesPerChannel: nat, chunkBeats: nat)
    requires RecordArgumentsOk(bytesPerChannel, markerBytesPerChannel, chunkBeats)
    ensures var l := LayoutOf(bytesPerChannel, markerBytesPerChannel, chunkBeats);
            Record(bytesPerChannel, markerBytesPerChannel) == Render(l.DefinedFrom(0))
            && |Record(bytesPerChannel, markerBytesPerChannel)| == l.total * DDR_BEAT_BYTES
  {
    DefinitionIgnoresChunk(LayoutOf(bytesPerChannel, markerBytesPerChannel, chunkBeats),
                           LayoutOf(bytesPerChannel, markerBytesPerChannel, 1));
  }

  // ----- The record as an upload -----

  /** The (byte offset, payload) pairs handed to upload_interleaved_chunks. */
  function ByteChunks(chunks: seq<BeatChunk>): seq<Upload.Chunk> {
    if chunks == [] then [] else [(chunks[0].0 * DDR_BEAT_BYTES, chunks[0].1)] + ByteChunks(chunks[1..])
  }

  /** Generated or cached chunks are a stream the driver accepts, with the same bytes. */
  lemma {:induction false} RecordChunksUpload(chunks: seq<BeatChunk>, beat: nat)
    requires Sequential(chunks, beat)
    ensures Upload.Contiguous(ByteChunks(chunks), beat * DDR_BEAT_BYTES, beat * DDR_BEAT_BYTES + |Payloads(chunks)|)
    ensures Upload.ChunkBytes(ByteChunks(chunks)) == Payloads(chunks)
  {
    if chunks == [] {
    } else {
      var raw := chunks[0].1;
      RecordChunksUpload(chunks[1..], beat + |raw| / DDR_BEAT_BYTES);
      assert ByteChunks(chunks)[1..] == ByteChunks(chunks[1..]);
      BeatsAdvance(beat, |raw|);
    }
  }

  lemma BeatsAdvance(beat: nat, n: nat)
    requires n % DDR_BEAT_BYTES == 0
    ensures (beat + n / DDR_BEAT_BYTES) * DDR_BEAT_BYTES == beat * DDR_BEAT_BYTES + n && n % BEAT_BYTES == 0
  {
    assert n == 64 * (n / 64) == 32 * (2 * (n / 64));
  }
}
