/** Sending a max-length record (software/send_waveform_udp.py): the generator or its cache,
    fed into the upload. */
module RecordUpload {
  import opened Bytes
  import opened WaveProtocol
  import opened Transport
  import opened Upload
  import opened Exchange
  import MaxLength
  import BulkStream
  import Driver

  const CHUNK_BEATS: nat := 8192

  datatype SendError = BadRecord | UploadFailed(error: DriverError)

  /** The cache file, if it is reused. */
  predicate Reused(useCache: bool, existing: Option<seq<byte>>, force: bool, bytesPerChannel: int) {
    useCache && !force && existing.Some? && |existing.value| == bytesPerChannel * CHANNELS
  }

  /** What the record is taken from: a reused file, or the generator. */
  function Content(useCache: bool, existing: Option<seq<byte>>, force: bool, bytesPerChannel: nat,
                   markerBytesPerChannel: nat)
    : seq<byte>
    requires Reused(useCache, existing, force, bytesPerChannel)
             || MaxLength.RecordArgumentsOk(bytesPerChannel, markerBytesPerChannel, CHUNK_BEATS)
  {
    if Reused(useCache, existing, force, bytesPerChannel) then existing.value
    else
      MaxLength.LayoutIsOk(bytesPerChannel, markerBytesPerChannel, CHUNK_BEATS);
      MaxLength.Payloads(MaxLength.LayoutOf(bytesPerChannel, markerBytesPerChannel, CHUNK_BEATS).Chunks(0))
  }

  /** The chunks that are uploaded. */
  method RecordChunks(useCache: bool, existing: Option<seq<byte>>, force: bool, bytesPerChannel: int,
                      markerBytesPerChannel: nat)
    returns (r: Result<seq<BulkStream.BeatChunk>, SendError>)
    ensures r.Ok? ==> 0 < bytesPerChannel && bytesPerChannel % BEAT_BYTES == 0 && BulkStream.Sequential(r.value, 0)
    ensures r.Ok? ==> Reused(useCache, existing, force, bytesPerChannel)
                      || MaxLength.RecordArgumentsOk(bytesPerChannel, markerBytesPerChannel, CHUNK_BEATS)
    ensures r.Ok? ==>
              MaxLength.Payloads(r.value) == Content(useCache, existing, force, bytesPerChannel, markerBytesPerChannel)
    ensures MaxLength.RecordArgumentsOk(bytesPerChannel, markerBytesPerChannel, CHUNK_BEATS) ==> r.Ok?
  {
    if !useCache {
      var chunks := MaxLength.PayloadChunks(bytesPerChannel, CHUNK_BEATS, markerBytesPerChannel);
      if chunks.Err? {
        return Err(BadRecord);
      }
      MaxLength.LayoutIsOk(bytesPerChannel, markerBytesPerChannel, CHUNK_BEATS);
      BulkStream.ChunksAreSequential(MaxLength.LayoutOf(bytesPerChannel, markerBytesPerChannel, CHUNK_BEATS), 0);
      return Ok(chunks.value);
    }
    var file := BulkStream.EnsureCache(existing, force, bytesPerChannel, markerBytesPerChannel, CHUNK_BEATS);
    if file.Err? {
      return Err(BadRecord);
    }
    var chunks := BulkStream.ReadCache(file.value, bytesPerChannel, CHUNK_BEATS);
    if chunks.Err? {
      return Err(BadRecord);
    }
    r := Ok(chunks.value);
  }

  /** Generate or read the record and upload it. If it returns normally in a safe
      session, the board committed the record's content; generated content is
      the defined record exactly if the chunk size is safe. */
  method SendRecord(device: Driver.Dr47Device, useCache: bool, existing: Option<seq<byte>>, force: bool,
                    bytesPerChannel: int,
                    markerBytesPerChannel: nat)
    returns (r: Result<Driver.UploadResult, SendError>)
    requires device.Valid()
    modifies device`sequence, device`runId, device`uploads, device.transport`sent, device.transport`schedule
    modifies device.transport`issued, device.transport`history, device.transport.board
    ensures device.Valid()
    ensures r.Ok? ==> 0 < bytesPerChannel
    ensures r.Ok? ==> Reused(useCache, existing, force, bytesPerChannel)
                      || MaxLength.RecordArgumentsOk(bytesPerChannel, markerBytesPerChannel, CHUNK_BEATS)
    ensures r.Ok? && old(device.NumbersDistinct() && device.SafeSession(device.runId)) ==>
              CommittedSince(device.transport.State(), old(|device.transport.history|),
                             Begin(old(device.runId), bytesPerChannel * CHANNELS, 0xFF,
                                   bytesPerChannel / BEAT_BYTES, 1, 1),
                             Content(useCache, existing, force, bytesPerChannel, markerBytesPerChannel),
                             r.value.descriptor)
    ensures r.Ok? && !Reused(useCache, existing, force, bytesPerChannel) ==>
              && MaxLength.LayoutOf(bytesPerChannel, markerBytesPerChannel, CHUNK_BEATS).Ok()
              && (MaxLength.LayoutOf(bytesPerChannel, markerBytesPerChannel, CHUNK_BEATS).ChunkSafe() <==>
                  Content(useCache, existing, force, bytesPerChannel, markerBytesPerChannel)
                  == BulkStream.Record(bytesPerChannel, markerBytesPerChannel))
  {
    hide Content, CommittedSince, Contiguous, ChunkBytes, AllFragments, InRange, Distinct, FreshSession, Automatic;
    hide BulkStream.Sequential, MaxLength.Payloads, BulkStream.ByteChunks;
    var chunks := RecordChunks(useCache, existing, force, bytesPerChannel, markerBytesPerChannel);
    if chunks.Err? {
      return Err(chunks.error);
    }
    BulkStream.RecordChunksUpload(chunks.value, 0);
    var result := device.UploadInterleavedChunks(BulkStream.ByteChunks(chunks.value), bytesPerChannel * CHANNELS,
                                                 bytesPerChannel / BEAT_BYTES, 0xFF, 1, None, 1024);
    if result.Err? {
      return Err(UploadFailed(result.error));
    }
    if !Reused(useCache, existing, force, bytesPerChannel) {
      GeneratedContent(useCache, existing, force, bytesPerChannel, markerBytesPerChannel);
    }
    r := Ok(result.value);
  }

  lemma GeneratedContent(useCache: bool, existing: Option<seq<byte>>, force: bool, bytesPerChannel: nat,
                         markerBytesPerChannel: nat)
    requires !Reused(useCache, existing, force, bytesPerChannel)
    requires MaxLength.RecordArgumentsOk(bytesPerChannel, markerBytesPerChannel, CHUNK_BEATS)
    ensures var l := MaxLength.LayoutOf(bytesPerChannel, markerBytesPerChannel, CHUNK_BEATS);
            && l.Ok()
            && (l.ChunkSafe() <==> Content(useCache, existing, force, bytesPerChannel, markerBytesPerChannel)
                                   == BulkStream.Record(bytesPerChannel, markerBytesPerChannel))
  {
    var l := MaxLength.LayoutOf(bytesPerChannel, markerBytesPerChannel, CHUNK_BEATS);
    MaxLength.LayoutIsOk(bytesPerChannel, markerBytesPerChannel, CHUNK_BEATS);
    MaxLength.GeneratorRefinesDefinition(l);
    BulkStream.RecordOf(bytesPerChannel, markerBytesPerChannel, CHUNK_BEATS);
  }
}
