/** The host driver's upload calls (software/dr47/device.py). */
module Driver {
  import opened Arithmetic
  import opened Bytes
  import opened WaveProtocol
  import opened Board
  import opened BoardRuns
  import opened Transport
  import opened Upload
  import opened Exchange
  import opened UploadSuccess
  import Interleave

  datatype UploadResult = UploadResult(session: nat, bytes: nat, packetCount: nat, descriptor: nat)

  predicate PacketBytesOk(packetBytes: int) {
    BEAT_BYTES <= packetBytes <= MAX_DATA_BYTES && packetBytes % BEAT_BYTES == 0
  }

  predicate UploadArgumentsOk(totalBytes: int, totalBeats: int, channelMask: int, loopCount: int, packetBytes: int) {
    && WaveUint(totalBytes, LONG_RANGE, true) && WaveUint(totalBeats, WORD_RANGE, true)
    && WaveUint(channelMask, BYTE_RANGE, true) && WaveUint(loopCount, WORD_RANGE, true)
    && totalBytes == totalBeats * DAC_FRAME_BYTES && PacketBytesOk(packetBytes)
  }

  lemma UploadArguments(totalBytes: int, totalBeats: int, channelMask: int, loopCount: int, packetBytes: int)
    ensures UploadArgumentsOk(totalBytes, totalBeats, channelMask, loopCount, packetBytes) <==>
            && 0 < totalBeats <= 0xFFFF_FFFF && totalBytes == 256 * totalBeats
            && 0 < channelMask <= 0xFF && 0 < loopCount <= 0xFFFF_FFFF
            && 32 <= packetBytes <= 1408 && packetBytes % 32 == 0
  {
  }

  /** What an upload of these pieces that started in n, with this sequence number,
      leaves behind: the network and the result are those of its exchanges. */
  ghost predicate Uploaded(n: Net, link: Link, begin: WaveRequest, pieces: seq<seq<byte>>, number: nat, m: Net,
                           r: Result<UploadResult, DriverError>)
    requires begin.Begin?
  {
    match Exchanges(n, link, UploadRequests(begin, pieces), number)
    case Failed(net, e) => m == net && r == Err(e)
    case Answered(net, reply) =>
      && m == net && r.Ok? && reply.Some? && r.value.session == begin.session && r.value.bytes == begin.totalBytes
      && r.value.packetCount == |pieces| && r.value.descriptor == reply.value.descriptor
  }

  /** Facts about a successful upload that started in world w: its requests are the
      whole log since then; a complete chain of stale and own requests was
      committed under the returned descriptor; and in a safe session that is the image. */
  ghost predicate Committed(w: World, next: World, begin: WaveRequest, pieces: seq<seq<byte>>, distinct: bool,
                            safe: bool,
                            descriptor: nat)
    requires begin.Begin?
  {
    && Logged(w.issued, next.issued, UploadRequests(begin, pieces))
    && (distinct ==> CommittedChain(next, |w.history|, begin.session, Pool(w, begin, pieces), descriptor))
    && (distinct && safe ==> CommittedSince(next, |w.history|, begin, Concat(pieces), descriptor))
  }

  class Dr47Device {
    const transport: UdpTransport
    const retries: nat
    /** Where this object's requests start in the socket's log. */
    ghost const base: nat
    var sequence: nat
    var runId: nat
    var connected: bool
    /** How often the run id has been taken. */
    ghost var uploads: nat

    ghost predicate Valid()
      reads this, transport, transport.board
    {
      && transport.Valid() && base <= |transport.issued|
      && 0 < sequence < WORD_RANGE && 0 < runId < WORD_RANGE && runId == SequenceAt(1, uploads)
    }

    function Line(): Link {
      Link(transport.board.crc, transport.Near(), retries)
    }

    /** Requests can be sent. */
    predicate Live()
      reads this, transport
    {
      connected && !transport.closed
    }

    /** No request that can still be answered carries one of the next sequence numbers. */
    ghost predicate NumbersDistinct()
      reads this, transport
    {
      Distinct(transport.issued, sequence)
    }

    /** Every upload of this object so far took its own run id as its session. */
    ghost predicate AutomaticSessions()
      reads this, transport
    {
      Automatic(transport.issued, base, uploads)
    }

    /** Nothing stale can write to the session: it is fresh, or it is the next run
        id of an automatic device and no other driver object's request carries it. */
    ghost predicate SafeSession(session: int)
      reads this, transport, transport.board
    {
      || FreshSession(transport.State(), session)
      || (session == runId && AutomaticSessions() && ElsewhereUnused(transport.State(), base, session))
    }

    /** A new object may share its socket's log with earlier ones. */
    constructor (transport: UdpTransport, retries: nat, timeSeed: nat)
      requires transport.Valid()
      ensures Valid() && this.transport == transport && this.retries == retries && runId == 1 && connected
      ensures sequence == (if timeSeed % 0x1_0000_0000 == 0 then 1 else timeSeed % 0x1_0000_0000)
      ensures base == |transport.issued| && AutomaticSessions() && (transport.issued == [] ==> NumbersDistinct())
    {
      this.transport, this.retries, base := transport, retries, |transport.issued|;
      var seed := if timeSeed % WORD_RANGE == 0 then 1 else timeSeed % WORD_RANGE;
      sequence, runId, connected, uploads := seed, 1, true, 0;
    }

    /** begin_waveform, data_waveform and commit_waveform: number, pack and send one request. */
    method SubmitRequest(request: WaveRequest) returns (r: Result<Response, DriverError>)
      requires Valid()
      modifies this`sequence, transport`sent, transport`schedule, transport`issued, transport`history, transport.board
      ensures Valid() && (old(NumbersDistinct()) ==> NumbersDistinct())
      ensures !connected ==>
                r == Err(NotConnected) && sequence == old(sequence) && transport.issued == old(transport.issued)
      ensures connected ==> sequence == NextSequence(old(sequence)) && |transport.issued| == |old(transport.issued)| + 1
      ensures connected && !InRange(request) ==> r == Err(OutOfRange)
      ensures connected && InRange(request) && transport.closed ==> r == Err(LinkFailure(TransportClosed))
      ensures Live() && InRange(request) ==>
                (r, transport.Network()) == Ask(old(transport.Network()), Line(), request, old(sequence))
      ensures AddedFor(old(transport.issued), transport.issued, request.session)
    {
      hide WorldOk, Distinct, SequenceAt, NextSequence, PackRequest, InRange, Requests, ParseWaveResponse, AddedFor;
      var number := sequence;
      AddedOne(transport.issued, Other(number), request.session);
      AddedOne(transport.issued, Wave(request, number), request.session);
      if !connected {
        return Err(NotConnected);
      }
      NextInRange(number);
      if Distinct(transport.issued, number) {
        DistinctStep(transport.issued, Other(number), number);
        DistinctStep(transport.issued, Wave(request, number), number);
      }
      sequence := NextSequence(sequence);
      var packet := PackRequest(request, number, transport.board.crc);
      PackFailure(request, number, transport.board.crc);
      if packet.Err? {
        transport.Skip(number);
        return Err(OutOfRange);
      }
      var answer := transport.RequestWave(packet.value, request, number, request.Opcode(), retries);
      r := if answer.Err? then Err(LinkFailure(answer.error)) else Ok(answer.value);
    }

    /** Submit and raise on any status but OK. */
    method SubmitChecked(request: WaveRequest) returns (r: Result<Response, DriverError>)
      requires Valid()
      modifies this`sequence, transport`sent, transport`schedule, transport`issued, transport`history, transport.board
      ensures Valid() && (old(NumbersDistinct()) ==> NumbersDistinct())
      ensures r.Ok? ==> Live() && InRange(request) && r.value.status == STATUS_OK
      ensures connected && InRange(request) ==> r != Err(OutOfRange)
      ensures connected ==> sequence == NextSequence(old(sequence)) && |transport.issued| == |old(transport.issued)| + 1
      ensures Live() && InRange(request) ==>
                var outcome := Send(old(transport.Network()), Line(), request, old(sequence));
                transport.Network() == outcome.net && r == AnswerOf(outcome)
      ensures AddedFor(old(transport.issued), transport.issued, request.session)
    {
      hide WorldOk, Distinct, NextSequence, InRange, Requests, AddedFor, SequenceAt;
      r := SubmitRequest(request);
      if r.Ok? && r.value.status != STATUS_OK {
        r := Err(DeviceStatusError(r.value.status));
      }
    }

    /** Send one DATA packet, as the next one of a list. */
    method SendPiece(session: nat, packetSeq: nat, offset: nat, piece: seq<byte>, ghost done: seq<seq<byte>>,
                     ghost from: nat,
                     ghost rest: seq<seq<byte>>, ghost n: Net, ghost number: nat)
      returns (r: Result<Response, DriverError>)
      requires Valid() && connected && InRange(Data(session, packetSeq, offset, piece))
      requires packetSeq == |done| && offset == |Concat(done)| && from <= |done|
      requires Live() ==>
                 Ran(n, Line(), DataRequests(session, done, from), number, transport.Network(), sequence, None)
      modifies this`sequence, transport`sent, transport`schedule, transport`issued, transport`history, transport.board
      ensures Valid() && (old(NumbersDistinct()) ==> NumbersDistinct())
      ensures AddedFor(old(transport.issued), transport.issued, session) && r != Err(OutOfRange) && (r.Ok? ==> Live())
      ensures Live() ==>
                Ran(n, Line(), DataRequests(session, done + [piece], from), number, transport.Network(), sequence,
                    ErrorOf(r))
      ensures Live() && r.Err? ==>
                Ran(n, Line(), DataRequests(session, done + [piece] + rest, from), number, transport.Network(),
                    sequence, ErrorOf(r))
    {
      hide InRange, Concat, WorldOk, Distinct, NextSequence, SequenceAt, Ran, AddedFor, DataRequests, Send;
      ghost var before, numberBefore := transport.Network(), sequence;
      r := SubmitChecked(Data(session, packetSeq, offset, piece));
      if Live() {
        PieceSent(n, Line(), session, done, piece, from, number, before, numberBefore, rest);
      }
    }

    /** Send one producer chunk as DATA packets numbered from packetSeq. */
    method SendChunk(raw: seq<byte>, session: nat, packetSeq: nat, offset: nat, packetBytes: nat,
                     ghost begin: WaveRequest,
                     ghost pieces: seq<seq<byte>>)
      returns (r: Result<nat, DriverError>)
      requires Valid() && connected && begin.Begin? && InRange(begin) && begin.session == session
      requires |raw| % BEAT_BYTES == 0 && packetBytes > 0 && PacketBytesOk(packetBytes) && offset % BEAT_BYTES == 0
      requires offset + |raw| <= begin.totalBytes && packetSeq * BEAT_BYTES <= offset
      requires packetSeq == |pieces| && offset == |Concat(pieces)|
      modifies this`sequence, transport`sent, transport`schedule, transport`issued, transport`history, transport.board
      ensures Valid() && (old(NumbersDistinct()) ==> NumbersDistinct()) && r != Err(OutOfRange)
      ensures var all := pieces + Fragments(raw, packetBytes);
              && (r.Ok? ==> Live() || raw == [])
              && (r.Ok? ==> r.value == |all| && r.value * BEAT_BYTES <= offset + |raw| == |Concat(all)|)
              && (Live() ==> Ran(old(transport.Network()), Line(), DataRequests(session, all, |pieces|), old(sequence),
                                 transport.Network(), sequence, ErrorOf(r)))
      ensures AddedFor(old(transport.issued), transport.issued, session)
    {
      hide InRange, Concat, Fragments, WorldOk, Distinct, NextSequence, SequenceAt, Ran, AddedFor, DataRequests, Send;
      hide PacketBytesOk;
      var start, count := 0, packetSeq;
      ghost var done, all := pieces, pieces + Fragments(raw, packetBytes);
      AddedSame(transport.issued, session);
      NothingSent(transport.Network(), Line(), session, pieces, sequence);
      while start < |raw|
        invariant Valid() && (old(NumbersDistinct()) ==> NumbersDistinct())
        invariant start <= |raw| && start % BEAT_BYTES == 0 && (start > 0 ==> Live())
        invariant count == |done| && count * BEAT_BYTES <= offset + start == |Concat(done)|
        invariant |pieces| <= |done| && done + Fragments(raw[start..], packetBytes) == all
        invariant Live() ==> Ran(old(transport.Network()), Line(), DataRequests(session, done, |pieces|), old(sequence),
                                 transport.Network(), sequence, None)
        invariant AddedFor(old(transport.issued), transport.issued, session)
      {
        var piece := raw[start..if start + packetBytes < |raw| then start + packetBytes else |raw|];
        NextPiece(raw, start, packetBytes, done, all);
        PieceFits(begin, raw, start, packetBytes, offset, count);
        ghost var before, rest := transport.issued, Fragments(raw[start + |piece|..], packetBytes);
        var answer := SendPiece(session, count, offset + start, piece, done, |pieces|, rest, old(transport.Network()),
                                old(sequence));
        AddedTransitive(old(transport.issued), before, transport.issued, session);
        if answer.Err? {
          return Err(answer.error);
        }
        done := done + [piece];
        count, start := count + 1, start + |piece|;
      }
      assert raw[start..] == [];
      FragmentsOfNothing(packetBytes);
      assert done + [] == done;
      r := Ok(count);
    }

    /** Stream producer chunks through BEGIN, DATA and COMMIT. */
    method UploadInterleavedChunks(chunks: seq<Chunk>, totalBytes: int, totalBeats: int, channelMask: int,
                                   loopCount: int,
                                   session: Option<int>, packetBytes: int)
      returns (r: Result<UploadResult, DriverError>)
      requires Valid()
      modifies this`sequence, this`runId, this`uploads
      modifies transport`sent, transport`schedule, transport`issued, transport`history, transport.board
      ensures Valid() && (old(NumbersDistinct()) ==> NumbersDistinct())
      ensures old(AutomaticSessions()) && session.None? ==> AutomaticSessions()
      ensures session.Some? ==> runId == old(runId) && uploads == old(uploads)
      ensures var id := if session.Some? then session.value else old(runId);
              var begin := Begin(id, totalBytes, channelMask, totalBeats, loopCount, 1);
              var argumentsOk := UploadArgumentsOk(totalBytes, totalBeats, channelMask, loopCount, packetBytes);
              && (r == Err(OutOfRange) ==> !argumentsOk || !InRange(begin) || !Contiguous(chunks, 0, totalBytes))
              && (r.Ok? ==> argumentsOk && InRange(begin) && Contiguous(chunks, 0, totalBytes) && Live())
              && (argumentsOk && InRange(begin) && Contiguous(chunks, 0, totalBytes) && Live() ==>
                    var pieces := AllFragments(chunks, packetBytes);
                    && Concat(pieces) == ChunkBytes(chunks)
                    && Uploaded(old(transport.Network()), Line(), begin, pieces, old(sequence), transport.Network(), r)
                    && (r.Ok? ==> Committed(old(transport.State()), transport.State(), begin, pieces,
                                            old(NumbersDistinct()),
                                            old(SafeSession(id)), r.value.descriptor))
                    && (transport.Near() && AnswersInTime(old(transport.Network()), |pieces| + 2, retries) ==>
                          && r.Ok? && transport.board.state == Prefetch && Holds(transport.board.State(), begin, pieces)
                          && r.value.descriptor == transport.board.descriptor != 0))
    {
      hide InRange, Concat, Distinct, Automatic, AddedFor, Uploaded, Committed, WorldOk, SequenceAt, FreshSession;
      hide AllFragments, Contiguous, ChunkBytes, Holds, AnswersInTime, ElsewhereUnused;
      if !connected {
        return Err(NotConnected);
      }
      if !UploadArgumentsOk(totalBytes, totalBeats, channelMask, loopCount, packetBytes) {
        return Err(OutOfRange);
      }
      if session.Some? && !WaveUint(session.value, WORD_RANGE, true) {
        SessionInRange(Begin(session.value, totalBytes, channelMask, totalBeats, loopCount, 1));
        return Err(OutOfRange);
      }
      ghost var issued, n := transport.issued, uploads;
      ghost var safe := SafeSession(if session.Some? then session.value else runId);
      if safe && Automatic(issued, base, n) {
        AutomaticIsFresh(transport.State(), base, n);
      }
      var id: int;
      if session.None? {
        id := TakeRunId();
      } else {
        id := session.value;
      }
      r := RunUpload(Begin(id, totalBytes, channelMask, totalBeats, loopCount, 1), chunks, packetBytes, safe);
      if session.None? && Automatic(issued, base, n) {
        AutomaticGrows(issued, transport.issued, base, n);
      }
    }

    /** session = run id; the run id steps over zero. */
    method TakeRunId() returns (id: nat)
      requires Valid()
      modifies this`runId, this`uploads
      ensures Valid() && id == old(runId) == SequenceAt(1, old(uploads)) && uploads == old(uploads) + 1
    {
      id := runId;
      runId := if (id + 1) % WORD_RANGE == 0 then 1 else (id + 1) % WORD_RANGE;
      uploads := uploads + 1;
    }

    /** BEGIN, the DATA phase, COMMIT. */
    method RunUpload(begin: WaveRequest, chunks: seq<Chunk>, packetBytes: nat, ghost safe: bool)
      returns (r: Result<UploadResult, DriverError>)
      requires Valid() && connected && begin.Begin? && PacketBytesOk(packetBytes)
      requires safe ==> FreshSession(transport.State(), begin.session)
      modifies this`sequence, transport`sent, transport`schedule, transport`issued, transport`history, transport.board
      ensures Valid() && (old(NumbersDistinct()) ==> NumbersDistinct())
      ensures AddedFor(old(transport.issued), transport.issued, begin.session)
      ensures |transport.issued| > |old(transport.issued)|
      ensures r == Err(OutOfRange) ==> !InRange(begin) || !Contiguous(chunks, 0, begin.totalBytes)
      ensures r.Ok? ==> InRange(begin) && Contiguous(chunks, 0, begin.totalBytes) && Live()
      ensures InRange(begin) && Contiguous(chunks, 0, begin.totalBytes) && Live() ==>
                var pieces := AllFragments(chunks, packetBytes);
                && Concat(pieces) == ChunkBytes(chunks)
                && Uploaded(old(transport.Network()), Line(), begin, pieces, old(sequence), transport.Network(), r)
                && (r.Ok? ==> Committed(old(transport.State()), transport.State(), begin, pieces,
                                        old(NumbersDistinct()), safe,
                                        r.value.descriptor))
                && (transport.Near() && AnswersInTime(old(transport.Network()), |pieces| + 2, retries) ==>
                      && r.Ok? && transport.board.state == Prefetch && Holds(transport.board.State(), begin, pieces)
                      && r.value.descriptor == transport.board.descriptor != 0)
    {
      hide InRange, Concat, Distinct, AddedFor, Committed, WorldOk, SequenceAt, NextSequence, FreshSession, Ran;
      hide Send, Uploaded;
      hide AllFragments, Contiguous, ChunkBytes, Holds, AnswersInTime, DataRequests, UploadRequests, BoardInv;
      hide PiecesInRange;
      ghost var n, number, pieces := transport.Network(), sequence, AllFragments(chunks, packetBytes);
      ghost var contiguous := Contiguous(chunks, 0, begin.totalBytes);
      if InRange(begin) && contiguous {
        FragmentsInRange(chunks, packetBytes, begin);
      }
      var begun := SubmitChecked(begin);
      AddedSame(transport.issued, begin.session);
      if begun.Err? {
        r := Err(begun.error);
        if Live() && InRange(begin) && contiguous {
          BeginFailed(n, Line(), begin, pieces, number);
          UploadFacts(n, Line(), begin, pieces, number, transport.Network(), r, safe);
        }
        return;
      }
      ghost var m1, number1 := transport.Network(), sequence;
      var sent := StreamChunks(chunks, packetBytes, begin);
      AddedTransitive(n.world.issued, m1.world.issued, transport.issued, begin.session);
      ghost var m2, number2 := transport.Network(), sequence;
      if contiguous {
        BeginThenData(n, Line(), begin, pieces, number, m1, number1, m2, number2, ErrorOf(sent));
      }
      if sent.Err? {
        r := Err(sent.error);
        if contiguous {
          UploadFacts(n, Line(), begin, pieces, number, m2, r, safe);
        }
        return;
      }
      CommitInRange(begin);
      BeginBounds(begin);
      var committed := SubmitChecked(Command(OP_COMMIT, begin.session));
      AddedTransitive(n.world.issued, m2.world.issued, transport.issued, begin.session);
      if committed.Err? {
        r := Err(committed.error);
      } else {
        r := Ok(UploadResult(begin.session, begin.totalBytes, sent.value, committed.value.descriptor));
      }
      DataThenCommit(n, Line(), begin, pieces, number, m2, number2, r, committed);
      UploadFacts(n, Line(), begin, pieces, number, transport.Network(), r, safe);
    }

    /** The DATA phase: fragment each chunk in turn. */
    method StreamChunks(chunks: seq<Chunk>, packetBytes: nat, begin: WaveRequest) returns (r: Result<nat, DriverError>)
      requires Valid() && connected && begin.Begin? && InRange(begin) && PacketBytesOk(packetBytes)
      modifies this`sequence, transport`sent, transport`schedule, transport`issued, transport`history, transport.board
      ensures Valid() && (old(NumbersDistinct()) ==> NumbersDistinct())
      ensures AddedFor(old(transport.issued), transport.issued, begin.session)
      ensures r == Err(OutOfRange) ==> !Contiguous(chunks, 0, begin.totalBytes)
      ensures r.Ok? ==> Contiguous(chunks, 0, begin.totalBytes) && r.value == |AllFragments(chunks, packetBytes)|
      ensures Live() && Contiguous(chunks, 0, begin.totalBytes) ==>
                Ran(old(transport.Network()), Line(), DataRequests(begin.session, AllFragments(chunks, packetBytes), 0),
                    old(sequence), transport.Network(), sequence, ErrorOf(r))
    {
      hide AllFragments, Contiguous;
      hide InRange, Concat, Fragments, WorldOk, Distinct, NextSequence, SequenceAt, Ran, AddedFor, DataRequests;
      BeginBounds(begin);
      var expected, packets := 0, 0;
      ghost var pieces: seq<seq<byte>> := [];
      ghost var n, number, all := transport.Network(), sequence, AllFragments(chunks, packetBytes);
      NoPieces();
      NothingSent(n, Line(), begin.session, [], number);
      AddedSame(transport.issued, begin.session);
      assert chunks[0..] == chunks;
      for c := 0 to |chunks|
        invariant Valid() && connected && (old(NumbersDistinct()) ==> NumbersDistinct())
        invariant packets == |pieces| && packets * BEAT_BYTES <= expected == |Concat(pieces)|
        invariant expected % BEAT_BYTES == 0
        invariant expected <= begin.totalBytes && pieces + AllFragments(chunks[c..], packetBytes) == all
        invariant Contiguous(chunks, 0, begin.totalBytes) <==> Contiguous(chunks[c..], expected, begin.totalBytes)
        invariant AddedFor(old(transport.issued), transport.issued, begin.session)
        invariant Live() ==> Ran(n, Line(), DataRequests(begin.session, pieces, 0), number, transport.Network(),
                                 sequence, None)
      {
        var (offset, raw) := chunks[c];
        ChunkHead(chunks[c..], packetBytes, expected, begin.totalBytes);
        assert chunks[c..][0] == chunks[c] && chunks[c..][1..] == chunks[c + 1..];
        if !WaveUint(offset, LONG_RANGE, false) || offset != expected
           || raw == [] || |raw| % BEAT_BYTES != 0 || offset + |raw| > begin.totalBytes {
          return Err(OutOfRange);
        }
        ghost var before, numberBefore := transport.Network(), sequence;
        ghost var rest, longer := AllFragments(chunks[c + 1..], packetBytes), pieces + Fragments(raw, packetBytes);
        var sent := SendChunk(raw, begin.session, packets, offset, packetBytes, begin, pieces);
        AddedTransitive(old(transport.issued), before.world.issued, transport.issued, begin.session);
        assert pieces + (Fragments(raw, packetBytes) + rest) == longer + rest;
        if Live() {
          ChunkSent(n, Line(), begin.session, pieces, Fragments(raw, packetBytes), rest, number, before, numberBefore,
                    transport.Network(), sequence, ErrorOf(sent));
        }
        if sent.Err? {
          return Err(sent.error);
        }
        pieces := longer;
        packets, expected := sent.value, expected + |raw|;
      }
      assert chunks[|chunks|..] == [] && pieces + [] == pieces;
      NoChunksLeft(packetBytes, expected, begin.totalBytes);
      if expected != begin.totalBytes {
        return Err(OutOfRange);
      }
      r := Ok(packets);
    }

    /** Pack one wave per channel and upload the image in 1024-byte packets. */
    method UploadWaveforms(waves: Interleave.Waves, channelMask: Option<int>, loopCount: int)
      returns (r: Result<UploadResult, DriverError>)
      requires Valid()
      modifies this`sequence, this`runId, this`uploads
      modifies transport`sent, transport`schedule, transport`issued, transport`history, transport.board
      ensures Valid() && (old(NumbersDistinct()) ==> NumbersDistinct())
      ensures old(AutomaticSessions()) && connected ==> AutomaticSessions()
      ensures var mask := if channelMask.Some? then channelMask.value else Interleave.MaskOf(waves);
              var wavesOk := && waves != map[] && (forall c :: c in waves ==> 1 <= c <= CHANNELS)
                             && WaveUint(mask, BYTE_RANGE, true);
              && (r.Ok? ==> wavesOk && Live())
              && (wavesOk ==>
                    var image := Interleave.Image(Interleave.Masked(waves, mask));
                    var begin := Begin(old(runId), |image|, mask, |image| / DAC_FRAME_BYTES, loopCount, 1);
                    && (r.Ok? ==> InRange(begin))
                    && (InRange(begin) && Live() ==>
                          var pieces := Fragments(image, 1024);
                          && Concat(pieces) == image && |pieces| == CeilDiv(|image|, 1024)
                          && Uploaded(old(transport.Network()), Line(), begin, pieces, old(sequence),
                                      transport.Network(), r)
                          && (r.Ok? ==> Committed(old(transport.State()), transport.State(), begin, pieces,
                                                  old(NumbersDistinct()), old(SafeSession(runId)), r.value.descriptor))
                          && (transport.Near() && AnswersInTime(old(transport.Network()), |pieces| + 2, retries) ==>
                                && r.Ok? && transport.board.state == Prefetch
                                && Holds(transport.board.State(), begin, pieces)
                                && r.value.descriptor == transport.board.descriptor != 0
                                && Interleave.HoldsSamples(transport.board.received, waves, mask))))
    {
      hide InRange, Concat, Distinct, Automatic, AddedFor, Uploaded, Committed, WorldOk, SequenceAt, FreshSession;
      hide AllFragments, Contiguous, ChunkBytes, AnswersInTime, ElsewhereUnused, Fragments;
      hide Interleave.Image, Interleave.Masked, Interleave.MaskOf, Interleave.HoldsSamples;
      if waves == map[] || exists c :: c in waves && !(1 <= c <= CHANNELS) {
        return Err(OutOfRange);
      }
      var mask := if channelMask.Some? then channelMask.value else Interleave.MaskOf(waves);
      if !WaveUint(mask, BYTE_RANGE, true) {
        return Err(OutOfRange);
      }
      var image, _ := Interleave.PackInterleaved(Interleave.Masked(waves, mask));
      var begin := Begin(runId, |image|, mask, |image| / DAC_FRAME_BYTES, loopCount, 1);
      WholeImage(waves, mask, begin);
      if image == [] {
        return Err(OutOfRange);
      }
      ghost var issued, n := transport.issued, uploads;
      ghost var safe := SafeSession(runId);
      if safe && Automatic(issued, base, n) {
        AutomaticIsFresh(transport.State(), base, n);
      }
      var _ := TakeRunId();
      if !connected {
        return Err(NotConnected);
      }
      r := RunUpload(begin, [(0, image)], 1024, safe);
      if Automatic(issued, base, n) {
        AutomaticGrows(issued, transport.issued, base, n);
      }
    }
  }

  lemma AddedSame(issued: seq<Issued>, session: int)
    ensures AddedFor(issued, issued, session)
  {
  }

  lemma NextInRange(number: nat)
    requires 0 < number < WORD_RANGE
    ensures 0 < NextSequence(number) < WORD_RANGE
  {
  }

  // ----- What the exchanges so far amount to -----

  lemma NothingSent(n: Net, link: Link, session: int, pieces: seq<seq<byte>>, number: nat)
    ensures Ran(n, link, DataRequests(session, pieces, |pieces|), number, n, number, None)
  {
    RanNothing(n, link, number);
    assert DataRequests(session, pieces, |pieces|) == [];
  }

  /** One more piece: either the list grows by it, or the rest is not sent. */
  lemma PieceSent(n0: Net, link: Link, session: int, done: seq<seq<byte>>, piece: seq<byte>, from: nat, s0: nat,
                  n1: Net, s1: nat,
                  rest: seq<seq<byte>>)
    requires from <= |done| && Ran(n0, link, DataRequests(session, done, from), s0, n1, s1, None)
    ensures var outcome := Send(n1, link, Data(session, |done|, |Concat(done)|, piece), s1);
            var error := ErrorOf(AnswerOf(outcome));
            && Ran(n0, link, DataRequests(session, done + [piece], from), s0, outcome.net, NextSequence(s1), error)
            && (error.Some? ==> Ran(n0, link, DataRequests(session, done + [piece] + rest, from), s0, outcome.net,
                                    NextSequence(s1), error))
  {
    hide Ran, Send, NextSequence, Concat, DataRequests;
    var request := Data(session, |done|, |Concat(done)|, piece);
    RanSend(n0, link, DataRequests(session, done, from), s0, n1, s1, request);
    DataSnoc(session, done, piece, from);
    var outcome := Send(n1, link, request, s1);
    if ErrorOf(AnswerOf(outcome)).Some? {
      DataJoin(session, done + [piece], rest, from);
      RanFails(n0, link, DataRequests(session, done + [piece], from), s0, outcome.net, NextSequence(s1),
               ErrorOf(AnswerOf(outcome)).value, DataRequests(session, done + [piece] + rest, |done + [piece]|));
    }
  }

  /** One more chunk, likewise. */
  lemma ChunkSent(n0: Net, link: Link, session: int, pieces: seq<seq<byte>>, more: seq<seq<byte>>,
                  rest: seq<seq<byte>>, s0: nat,
                  n1: Net, s1: nat, n2: Net, s2: nat, error: Option<DriverError>)
    requires Ran(n0, link, DataRequests(session, pieces, 0), s0, n1, s1, None)
    requires Ran(n1, link, DataRequests(session, pieces + more, |pieces|), s1, n2, s2, error)
    ensures Ran(n0, link, DataRequests(session, pieces + more, 0), s0, n2, s2, error)
    ensures error.Some? ==> Ran(n0, link, DataRequests(session, pieces + more + rest, 0), s0, n2, s2, error)
  {
    hide Ran, DataRequests;
    DataJoin(session, pieces, more, 0);
    RanThen(n0, link, DataRequests(session, pieces, 0), s0, n1, s1, DataRequests(session, pieces + more, |pieces|), n2,
            s2, error);
    if error.Some? {
      DataJoin(session, pieces + more, rest, 0);
      RanFails(n0, link, DataRequests(session, pieces + more, 0), s0, n2, s2, error.value,
               DataRequests(session, pieces + more + rest, |pieces + more|));
    }
  }

  lemma BeginFailed(n: Net, link: Link, begin: WaveRequest, pieces: seq<seq<byte>>, number: nat)
    requires begin.Begin? && AnswerOf(Send(n, link, begin, number)).Err?
    ensures var outcome := Send(n, link, begin, number);
            Uploaded(n, link, begin, pieces, number, outcome.net, Err(AnswerOf(outcome).error))
  {
    hide Send, Exchanges, UploadRequests, NextSequence;
    var outcome, requests := Send(n, link, begin, number), UploadRequests(begin, pieces);
    RanNothing(n, link, number);
    RanSend(n, link, [], number, n, number, begin);
    RequestAt(begin, pieces, 0);
    assert [] + [begin] == [begin] && requests[..0] == [] && requests[..1] == [begin];
    RanFails(n, link, [begin], number, outcome.net, NextSequence(number), AnswerOf(outcome).error, requests[1..]);
    assert [begin] + requests[1..] == requests;
  }

  /** BEGIN and then the DATA are the upload's requests up to COMMIT. */
  lemma BeginThenData(n: Net, link: Link, begin: WaveRequest, pieces: seq<seq<byte>>, number: nat, m1: Net, s1: nat,
                      m2: Net, s2: nat,
                      error: Option<DriverError>)
    requires begin.Begin? && var outcome := Send(n, link, begin, number);
             AnswerOf(outcome).Ok? && m1 == outcome.net && s1 == NextSequence(number)
    requires Ran(m1, link, DataRequests(begin.session, pieces, 0), s1, m2, s2, error)
    ensures |UploadRequests(begin, pieces)| == |pieces| + 2
    ensures Ran(n, link, UploadRequests(begin, pieces)[..|pieces| + 1], number, m2, s2, error)
    ensures error.Some? ==> Uploaded(n, link, begin, pieces, number, m2, Err(error.value))
  {
    hide Send, NextSequence, Exchanges, SequenceAt;
    var data, requests := DataRequests(begin.session, pieces, 0), UploadRequests(begin, pieces);
    RanNothing(n, link, number);
    RanSend(n, link, [], number, n, number, begin);
    assert [] + [begin] == [begin];
    RanThen(n, link, [begin], number, m1, s1, data, m2, s2, error);
    var prefix := requests[..|pieces| + 1];
    assert [begin] + data == prefix && prefix + requests[|pieces| + 1..] == requests;
    if error.Some? {
      RanFails(n, link, prefix, number, m2, s2, error.value, requests[|pieces| + 1..]);
    }
  }

  lemma DataThenCommit(n: Net, link: Link, begin: WaveRequest, pieces: seq<seq<byte>>, number: nat, m2: Net, s2: nat,
                       r: Result<UploadResult, DriverError>, committed: Result<Response, DriverError>)
    requires begin.Begin? && begin.session >= 0 && begin.totalBytes >= 0
    requires |UploadRequests(begin, pieces)| == |pieces| + 2
    requires Ran(n, link, UploadRequests(begin, pieces)[..|pieces| + 1], number, m2, s2, None)
    requires committed == AnswerOf(Send(m2, link, Command(OP_COMMIT, begin.session), s2))
    requires r == if committed.Err? then Err(committed.error)
                  else Ok(UploadResult(begin.session, begin.totalBytes, |pieces|, committed.value.descriptor))
    ensures Uploaded(n, link, begin, pieces, number, Send(m2, link, Command(OP_COMMIT, begin.session), s2).net, r)
  {
    hide Ask, Exchanges, SequenceAt, UploadRequests;
    ExchangesLast(n, link, begin, pieces, number);
  }

  /** What an upload that ran as specified has achieved. */
  lemma UploadFacts(n: Net, link: Link, begin: WaveRequest, pieces: seq<seq<byte>>, number: nat, m: Net,
                    r: Result<UploadResult, DriverError>, safe: bool)
    requires begin.Begin? && PiecesInRange(begin, pieces) && WorldOk(n.world, link.crc) && 0 < number < WORD_RANGE
    requires Uploaded(n, link, begin, pieces, number, m, r) && (safe ==> FreshSession(n.world, begin.session))
    ensures r.Ok? ==> Committed(n.world, m.world, begin, pieces, Distinct(n.world.issued, number), safe,
                                r.value.descriptor)
    ensures link.near && AnswersInTime(n, |pieces| + 2, link.retries) ==>
              && r.Ok? && m.world.board.state == Prefetch && Holds(m.world.board, begin, pieces)
              && r.value.descriptor == m.world.board.descriptor != 0
  {
    hide PiecesInRange, WorldOk, Distinct, Exchanges, UploadRequests, FreshSession, AnswersInTime, Logged;
    hide CommittedChain;
    hide CommittedSince, Pool, Concat, BeforeCommit, Holds;
    PiecesGiveRequests(begin, pieces);
    WorldBoard(n.world, link.crc);
    if link.near && AnswersInTime(n, |pieces| + 2, link.retries) {
      UploadSucceeds(n, link, begin, pieces, number);
    }
    if r.Ok? {
      ExchangesLogged(n, link, UploadRequests(begin, pieces), number);
      if Distinct(n.world.issued, number) {
        UploadCommitsChain(n, link, begin, pieces, number);
        ChainEarlier(m.world, |n.world.history|, |BeforeCommit(n, link, begin, pieces, number).history|, begin.session,
                     Pool(n.world, begin, pieces), r.value.descriptor);
        if safe {
          ImageInRange(begin, pieces);
          FreshUploadCommitsImage(n, link, begin, pieces, number);
        }
      }
    }
  }

  // ----- Fragments -----

  /** The pieces of a wave image are its fragments. */
  lemma WholeImage(waves: Interleave.Waves, mask: nat, begin: WaveRequest)
    requires forall c :: c in waves ==> 1 <= c <= CHANNELS
    requires var image := Interleave.Image(Interleave.Masked(waves, mask)); begin.Begin? && begin.totalBytes == |image|
    ensures var image := Interleave.Image(Interleave.Masked(waves, mask));
            var pieces := Fragments(image, 1024);
            && AllFragments([(0, image)], 1024) == pieces && Concat(pieces) == image
            && |pieces| == CeilDiv(|image|, 1024)
            && (image != [] ==> Contiguous([(0, image)], 0, begin.totalBytes)) && (image == [] ==> !InRange(begin))
            && Interleave.HoldsSamples(image, waves, mask)
  {
    hide Interleave.Image, Interleave.Masked, Interleave.HoldsSamples, Fragments, Concat, InRange, Contiguous;
    var image := Interleave.Image(Interleave.Masked(waves, mask));
    Interleave.ImageIsWholeFrames(Interleave.Masked(waves, mask));
    Interleave.ImageHoldsSamples(waves, mask);
    FragmentsConcat(image, 1024);
    OneChunk(image, begin);
  }

  lemma OneChunk(image: seq<byte>, begin: WaveRequest)
    requires begin.Begin? && begin.totalBytes == |image| && |image| % DAC_FRAME_BYTES == 0
    ensures AllFragments([(0, image)], 1024) == Fragments(image, 1024)
    ensures image != [] ==> Contiguous([(0, image)], 0, begin.totalBytes)
    ensures image == [] ==> !InRange(begin)
  {
    hide Fragments;
    WholeBeatsOf(|image|);
    assert AllFragments([], 1024) == [] && Fragments(image, 1024) + [] == Fragments(image, 1024);
  }

  lemma WholeBeatsOf(n: nat)
    requires n % DAC_FRAME_BYTES == 0
    ensures n % BEAT_BYTES == 0
  {
    var q := n / 256;
    assert n == 32 * (8 * q);
  }

  /** A piece that DATA can carry. */
  predicate GoodPiece(piece: seq<byte>) {
    0 < |piece| <= MAX_DATA_BYTES && |piece| % BEAT_BYTES == 0
  }

  lemma {:induction false} FragmentsAreGood(raw: seq<byte>, packetBytes: nat)
    requires PacketBytesOk(packetBytes) && |raw| % BEAT_BYTES == 0
    ensures forall p :: p in Fragments(raw, packetBytes) ==> GoodPiece(p)
  {
    if raw == [] {
    } else if |raw| <= packetBytes {
      assert Fragments(raw, packetBytes) == [raw];
    } else {
      FragmentsAreGood(raw[packetBytes..], packetBytes);
      assert GoodPiece(raw[..packetBytes]);
    }
  }

  lemma {:induction false} AllFragmentsAreGood(chunks: seq<Chunk>, at: nat, total: int, packetBytes: nat)
    requires PacketBytesOk(packetBytes) && Contiguous(chunks, at, total)
    ensures forall p :: p in AllFragments(chunks, packetBytes) ==> GoodPiece(p)
  {
    hide GoodPiece, Fragments;
    if chunks == [] {
    } else {
      FragmentsAreGood(chunks[0].1, packetBytes);
      AllFragmentsAreGood(chunks[1..], at + |chunks[0].1|, total, packetBytes);
    }
  }

  /** Every piece the driver cuts from contiguous chunks meets the limits of a DATA packet. */
  lemma FragmentsInRange(chunks: seq<Chunk>, packetBytes: nat, begin: WaveRequest)
    requires begin.Begin? && InRange(begin) && PacketBytesOk(packetBytes) && Contiguous(chunks, 0, begin.totalBytes)
    ensures Concat(AllFragments(chunks, packetBytes)) == ChunkBytes(chunks)
    ensures PiecesInRange(begin, AllFragments(chunks, packetBytes))
  {
    hide AllFragments, Contiguous, ChunkBytes, Concat, InRange, GoodPiece;
    var pieces := AllFragments(chunks, packetBytes);
    AllFragmentsConcat(chunks, packetBytes);
    ContiguousBytes(chunks, 0, begin.totalBytes);
    AllFragmentsAreGood(chunks, 0, begin.totalBytes, packetBytes);
    forall i | 0 <= i < |pieces|
      ensures InRange(PieceRequest(begin.session, pieces, i))
    {
      GoodPieces(pieces, i);
      assert pieces[..i + 1] == pieces[..i] + [pieces[i]] && pieces == pieces[..i + 1] + pieces[i + 1..];
      ConcatSnoc(pieces[..i], pieces[i]);
      ConcatAppend(pieces[..i + 1], pieces[i + 1..]);
      GoodPieceInRange(begin, PieceRequest(begin.session, pieces, i));
    }
  }

  lemma {:induction false} GoodPieces(pieces: seq<seq<byte>>, k: nat)
    requires k <= |pieces| && forall p :: p in pieces ==> GoodPiece(p)
    ensures k * BEAT_BYTES <= |Concat(pieces[..k])| && |Concat(pieces[..k])| % BEAT_BYTES == 0
  {
    if k == 0 {
      assert pieces[..0] == [];
    } else {
      GoodPieces(pieces, k - 1);
      assert pieces[..k] == pieces[..k - 1] + [pieces[k - 1]] && GoodPiece(pieces[k - 1]);
      ConcatSnoc(pieces[..k - 1], pieces[k - 1]);
    }
  }

  lemma GoodPieceInRange(begin: WaveRequest, data: WaveRequest)
    requires begin.Begin? && InRange(begin) && data.Data? && data.session == begin.session && GoodPiece(data.payload)
    requires data.byteOffset >= 0 && data.byteOffset % BEAT_BYTES == 0
    requires data.byteOffset + |data.payload| <= begin.totalBytes
    requires 0 <= data.packetSeq && data.packetSeq * BEAT_BYTES <= data.byteOffset
    ensures InRange(data)
  {
    PieceInRange(begin, data);
  }

  lemma WorldBoard(w: World, crc: Crc)
    requires WorldOk(w, crc)
    ensures BoardInv(w.board, crc)
  {
  }

  lemma ChunkHead(chunks: seq<Chunk>, packetBytes: nat, at: nat, total: int)
    requires packetBytes > 0 && chunks != []
    ensures AllFragments(chunks, packetBytes)
            == Fragments(chunks[0].1, packetBytes) + AllFragments(chunks[1..], packetBytes)
    ensures Contiguous(chunks, at, total) <==>
            && chunks[0].0 == at && chunks[0].1 != [] && |chunks[0].1| % BEAT_BYTES == 0 && at + |chunks[0].1| <= total
            && Contiguous(chunks[1..], at + |chunks[0].1|, total)
  {
  }

  lemma NoChunksLeft(packetBytes: nat, at: nat, total: int)
    requires packetBytes > 0
    ensures AllFragments([], packetBytes) == [] && (Contiguous([], at, total) <==> at == total)
  {
  }

  lemma NoPieces()
    ensures Concat([]) == []
  {
  }

  lemma SessionInRange(begin: WaveRequest)
    requires begin.Begin?
    ensures InRange(begin) ==> WaveUint(begin.session, WORD_RANGE, true)
  {
  }

  lemma BeginBounds(begin: WaveRequest)
    requires begin.Begin? && InRange(begin)
    ensures 0 < begin.session < WORD_RANGE && 0 < begin.totalBytes <= DDR_MAX_INTERLEAVED_BYTES
  {
  }

  lemma FragmentsOfNothing(packetBytes: nat)
    requires packetBytes > 0
    ensures Fragments([], packetBytes) == []
  {
  }

  lemma FragmentsHead(raw: seq<byte>, packetBytes: nat)
    requires packetBytes > 0 && raw != []
    ensures var n := if packetBytes < |raw| then packetBytes else |raw|;
            Fragments(raw, packetBytes) == [raw[..n]] + Fragments(raw[n..], packetBytes)
  {
    if |raw| <= packetBytes {
      assert raw[..|raw|] == raw && raw[|raw|..] == [];
    }
  }

  /** One more piece off the front of what is left of raw. */
  lemma NextPiece(raw: seq<byte>, start: nat, packetBytes: nat, done: seq<seq<byte>>, target: seq<seq<byte>>)
    requires start < |raw| && packetBytes > 0 && done + Fragments(raw[start..], packetBytes) == target
    ensures var piece := raw[start..if start + packetBytes < |raw| then start + packetBytes else |raw|];
            && done + [piece] + Fragments(raw[start + |piece|..], packetBytes) == target
            && |Concat(done + [piece])| == |Concat(done)| + |piece|
  {
    hide Fragments, Concat;
    FragmentsHead(raw[start..], packetBytes);
    var piece := raw[start..if start + packetBytes < |raw| then start + packetBytes else |raw|];
    var n := |piece|;
    assert raw[start..][..n] == piece && raw[start..][n..] == raw[start + n..];
    assert done + ([piece] + Fragments(raw[start + n..], packetBytes))
            == done + [piece] + Fragments(raw[start + n..], packetBytes);
    ConcatSnoc(done, piece);
  }

  /** The next piece is a DATA packet in range and keeps the count below the bytes sent. */
  lemma PieceFits(begin: WaveRequest, raw: seq<byte>, start: nat, packetBytes: nat, offset: nat, count: nat)
    requires begin.Begin? && InRange(begin) && PacketBytesOk(packetBytes) && start < |raw| && start % BEAT_BYTES == 0
    requires |raw| % BEAT_BYTES == 0 && offset % BEAT_BYTES == 0 && offset + |raw| <= begin.totalBytes
    requires count * BEAT_BYTES <= offset + start
    ensures var piece := raw[start..if start + packetBytes < |raw| then start + packetBytes else |raw|];
            && InRange(Data(begin.session, count, offset + start, piece)) && piece != []
            && start + |piece| <= |raw| && (start + |piece|) % BEAT_BYTES == 0
            && (count + 1) * BEAT_BYTES <= offset + start + |piece|
  {
    var piece := raw[start..if start + packetBytes < |raw| then start + packetBytes else |raw|];
    PieceInRange(begin, Data(begin.session, count, offset + start, piece));
  }

  /** Every piece the driver cuts meets the limits of a DATA packet. */
  lemma PieceInRange(begin: WaveRequest, data: WaveRequest)
    requires begin.Begin? && InRange(begin) && data.Data? && data.session == begin.session
    requires 0 < |data.payload| <= MAX_DATA_BYTES && |data.payload| % BEAT_BYTES == 0
    requires data.byteOffset >= 0 && data.byteOffset % BEAT_BYTES == 0
    requires data.byteOffset + |data.payload| <= begin.totalBytes
    requires 0 <= data.packetSeq && data.packetSeq * BEAT_BYTES <= data.byteOffset
    ensures InRange(data)
  {
  }

  lemma PackFailure(r: WaveRequest, seq_: nat, crc: Crc)
    requires seq_ < WORD_RANGE
    ensures PackRequest(r, seq_, crc).Err? <==> !InRange(r)
  {
  }
}
