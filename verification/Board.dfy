/** The board's waveform state machine (software/dr47/simulator.py).

    Each call is a function from board state to board state and reply; the
    class SimulatedBoard holds the fields that the calls update in place. */
module Board {
  import opened Bytes
  import opened WaveProtocol

  datatype Fragment = Fragment(offset: int, length: nat, crc: nat)

  datatype BoardState = BoardState(
    state: PlayState, session: nat, descriptor: nat, generation: nat,
    fragments: map<int, Fragment>, totalBytes: int, totalBeats: int, channelMask: int, loopCount: int,
    received: seq<byte>, nextPacket: nat, receivedBytes: nat, errorOffset: int,
    prefetchComplete: bool, playPending: bool)

  /** The extra fields of a DATA reply. */
  datatype Progress = Progress(ack: Option<nat>, nextExpected: nat, receivedBytes: nat, firstErrorOffset: int)

  datatype Reply = Reply(opcode: nat, status: nat, session: nat, state: PlayState, descriptor: nat,
                         progress: Option<Progress>)

  datatype Call =
    | Submit(request: WaveRequest, payloadCrc: Option<int>)
    | CompletePrefetch
    | TriggerEvent

  const POWER_ON: BoardState :=
    BoardState(Idle, 0, 0, 0, map[], 0, 0, 0, 0, [], 0, 0, 0, false, false)

  function Crc32(crc: Crc, raw: seq<byte>): nat {
    crc(raw) % WORD_RANGE
  }

  function Respond(b: BoardState, opcode: nat, status: nat, progress: Option<Progress>): Reply {
    Reply(opcode, status, b.session, b.state, b.descriptor, progress)
  }

  function DataProgress(b: BoardState, ack: Option<nat>, firstErrorOffset: int): Option<Progress> {
    Some(Progress(ack, b.nextPacket, b.receivedBytes, firstErrorOffset))
  }

  /** buffer[lo:lo + |raw|] = raw on a growable byte buffer; an lo past the end appends. */
  function SliceAssign(buffer: seq<byte>, lo: nat, raw: seq<byte>): seq<byte> {
    var from := if lo < |buffer| then lo else |buffer|;
    var to := if lo + |raw| < |buffer| then lo + |raw| else |buffer|;
    buffer[..from] + raw + buffer[to..]
  }

  function Cleared(b: BoardState): BoardState {
    b.(descriptor := 0, received := [], receivedBytes := 0, nextPacket := 0, fragments := map[],
       playPending := false, prefetchComplete := false)
  }

  // ----- Calls -----

  function BeginWaveform(b: BoardState, session: int, totalBytes: int, channelMask: int, totalBeats: int,
                         loopCount: int, layout: int): (BoardState, Reply) {
    if !BeginInRange(session, totalBytes, channelMask, totalBeats, loopCount, layout) then
      (b, Respond(b, OP_BEGIN, STATUS_BAD_REQUEST, None))
    else
      var next := Cleared(b).(state := Upload, session := session, totalBytes := totalBytes, totalBeats := totalBeats,
                              channelMask := channelMask, loopCount := loopCount);
      (next, Respond(next, OP_BEGIN, STATUS_OK, None))
  }

  function DataWaveform(b: BoardState, crc: Crc, session: int, packetSeq: int, byteOffset: int, payload: seq<byte>,
                        payloadCrc: Option<int>): (BoardState, Reply) {
    if byteOffset < 0 || byteOffset % 32 != 0 then
      (b, Respond(b, OP_DATA, STATUS_OFFSET, DataProgress(b, None, byteOffset)))
    else if !DataInRange(session, packetSeq, byteOffset, payload) then
      (b, Respond(b, OP_DATA, STATUS_BAD_REQUEST, None))
    else if payloadCrc.Some? && payloadCrc.value % WORD_RANGE != Crc32(crc, payload) then
      var next := b.(errorOffset := byteOffset);
      (next, Respond(next, OP_DATA, STATUS_CRC, DataProgress(next, None, byteOffset)))
    else if session != b.session || b.state != Upload then
      (b, Respond(b, OP_DATA, STATUS_BAD_REQUEST, None))
    else TakeData(b, packetSeq, byteOffset, payload, Crc32(crc, payload))
  }

  /** DATA of the session being uploaded: a replay, the next fragment, or neither. */
  function TakeData(b: BoardState, packetSeq: nat, byteOffset: nat, payload: seq<byte>,
                    digest: nat): (BoardState, Reply) {
    var value := Fragment(byteOffset, |payload|, digest);
    if packetSeq < b.nextPacket then
      if packetSeq !in b.fragments || b.fragments[packetSeq] != value then
        (b, Respond(b, OP_DATA, STATUS_SEQUENCE, None))
      else
        (b, Respond(b, OP_DATA, STATUS_OK, DataProgress(b, Some(packetSeq), b.errorOffset)))
    else if packetSeq != b.nextPacket then
      (b, Respond(b, OP_DATA, STATUS_SEQUENCE, DataProgress(b, None, byteOffset)))
    else if byteOffset != b.receivedBytes || byteOffset + |payload| > b.totalBytes then
      var next := b.(errorOffset := byteOffset);
      (next, Respond(next, OP_DATA, STATUS_OFFSET, DataProgress(next, None, byteOffset)))
    else
      var next := b.(received := SliceAssign(b.received, byteOffset, payload),
                     receivedBytes := b.receivedBytes + |payload|,
                     fragments := b.fragments[packetSeq := value], nextPacket := b.nextPacket + 1);
      (next, Respond(next, OP_DATA, STATUS_OK, DataProgress(next, Some(packetSeq), 0)))
  }

  function CommitWaveform(b: BoardState, session: int): (BoardState, Reply) {
    if session == b.session && b.descriptor != 0 then
      (b, Respond(b, OP_COMMIT, STATUS_OK, None))
    else if session != b.session || b.state != Upload then
      (b, Respond(b, OP_COMMIT, STATUS_BAD_REQUEST, None))
    else if b.receivedBytes != b.totalBytes then
      (b, Respond(b, OP_COMMIT, STATUS_INCOMPLETE, None))
    else
      var masked := (b.generation + 1) % WORD_RANGE;
      var generation := if masked == 0 then 1 else masked;
      var next := b.(generation := generation, descriptor := generation, state := Prefetch, prefetchComplete := false);
      (next, Respond(next, OP_COMMIT, STATUS_OK, None))
  }

  function PrefetchCompleted(b: BoardState): BoardState {
    if b.state == Prefetch then
      b.(prefetchComplete := true, state := if b.playPending then Playing else WaitTrigger, playPending := false)
    else b
  }

  predicate OtherSession(b: BoardState, session: int) {
    session != 0 && session != b.session
  }

  function Play(b: BoardState, session: int): (BoardState, Reply) {
    if OtherSession(b, session) then
      (b, Respond(b, OP_PLAY, STATUS_BAD_REQUEST, None))
    else if b.state in {Ready, Done, Prefetch} then
      var next := b.(state := Prefetch, prefetchComplete := false, playPending := true);
      (next, Respond(next, OP_PLAY, STATUS_OK, None))
    else if b.state == WaitTrigger then
      var next := b.(state := Playing);
      (next, Respond(next, OP_PLAY, STATUS_OK, None))
    else
      (b, Respond(b, OP_PLAY, STATUS_BAD_REQUEST, None))
  }

  function Pause(b: BoardState, session: int): (BoardState, Reply) {
    if OtherSession(b, session) then
      (b, Respond(b, OP_PAUSE, STATUS_BAD_REQUEST, None))
    else if b.state in {Ready, Done, Playing, WaitTrigger, Prefetch} then
      var next := b.(state := Ready, prefetchComplete := false, playPending := false);
      (next, Respond(next, OP_PAUSE, STATUS_OK, None))
    else
      (b, Respond(b, OP_PAUSE, STATUS_BAD_REQUEST, None))
  }

  function Abort(b: BoardState, session: int): (BoardState, Reply) {
    if OtherSession(b, session) then
      (b, Respond(b, OP_ABORT, STATUS_BAD_REQUEST, None))
    else
      var next := Cleared(b).(state := Idle, session := 0, errorOffset := 0);
      (next, Respond(next, OP_ABORT, STATUS_OK, None))
  }

  function Stop(b: BoardState, session: int): (BoardState, Reply) {
    if OtherSession(b, session) then
      (b, Respond(b, OP_STOP, STATUS_BAD_REQUEST, None))
    else if b.state == Upload then
      var next := Abort(b, session).0;
      (next, Respond(next, OP_STOP, STATUS_OK, None))
    else
      var (next, reply) := Pause(b, session);
      (next, reply.(opcode := OP_STOP))
  }

  function Triggered(b: BoardState): BoardState {
    if b.state == WaitTrigger then b.(state := Playing) else b
  }

  function Handle(b: BoardState, crc: Crc, r: WaveRequest, payloadCrc: Option<int>): (BoardState, Reply) {
    match r
    case Begin(session, totalBytes, channelMask, totalBeats, loopCount, layout) =>
      BeginWaveform(b, session, totalBytes, channelMask, totalBeats, loopCount, layout)
    case Data(session, packetSeq, byteOffset, payload) =>
      DataWaveform(b, crc, session, packetSeq, byteOffset, payload, payloadCrc)
    case Command(opcode, session) =>
      if opcode == OP_COMMIT then CommitWaveform(b, session)
      else if opcode == OP_PLAY then Play(b, session)
      else if opcode == OP_PAUSE then Pause(b, session)
      else if opcode == OP_STOP then Stop(b, session)
      else if opcode == OP_ABORT then Abort(b, session)
      else (b, Respond(b, OP_STATUS, STATUS_OK, None))
  }

  /** A request as it arrives over the wire: its CRC field was computed from its payload. */
  function Receive(b: BoardState, crc: Crc, r: WaveRequest): (BoardState, Reply) {
    Handle(b, crc, r, if r.Data? then Some(Crc32(crc, r.payload)) else None)
  }

  function Step(b: BoardState, crc: Crc, call: Call): BoardState {
    match call
    case Submit(request, payloadCrc) => Handle(b, crc, request, payloadCrc).0
    case CompletePrefetch => PrefetchCompleted(b)
    case TriggerEvent => Triggered(b)
  }

  /** The board's answer on the wire: it echoes the request's sequence number.
      DATA fields that the reply leaves out, and the STATUS counters, read zero. */
  function WireReply(seq_: nat, reply: Reply): Response {
    Response(WAVE_PROTOCOL_VERSION, reply.opcode, seq_, reply.status, reply.session, reply.state, 0, reply.descriptor,
             0,
             if reply.opcode == OP_DATA then
               match reply.progress
               case None => [0, 0, 0, 0, 0, 0]
               case Some(p) =>
                 [if p.ack.Some? then p.ack.value else 0, p.nextExpected, p.receivedBytes,
                  p.firstErrorOffset % LONG_RANGE, 0, 0]
             else if reply.opcode == OP_STATUS then seq(17, i => 0)
             else [])
  }

  // ----- The board object -----

  class SimulatedBoard {
    const crc: Crc
    var state: PlayState
    var session: nat
    var descriptor: nat
    var generation: nat
    var fragments: map<int, Fragment>
    var totalBytes: int
    var totalBeats: int
    var channelMask: int
    var loopCount: int
    var received: seq<byte>
    var nextPacket: nat
    var receivedBytes: nat
    var errorOffset: int
    var prefetchComplete: bool
    var playPending: bool

    function State(): BoardState
      reads this
    {
      BoardState(state, session, descriptor, generation, fragments, totalBytes, totalBeats, channelMask, loopCount,
                 received, nextPacket, receivedBytes, errorOffset, prefetchComplete, playPending)
    }

    constructor (crc: Crc)
      ensures State() == POWER_ON && this.crc == crc
    {
      this.crc := crc;
      state, session, descriptor, generation := Idle, 0, 0, 0;
      fragments, totalBytes, totalBeats, channelMask, loopCount := map[], 0, 0, 0, 0;
      received, nextPacket, receivedBytes, errorOffset := [], 0, 0, 0;
      prefetchComplete, playPending := false, false;
    }

    method Answer(opcode: nat, status: nat, progress: Option<Progress>) returns (reply: Reply)
      ensures reply == Respond(State(), opcode, status, progress)
    {
      reply := Reply(opcode, status, session, state, descriptor, progress);
    }

    /** The part of the state that BEGIN and ABORT both clear. */
    method ClearUpload()
      modifies `received, `fragments, `descriptor, `playPending, `prefetchComplete, `nextPacket, `receivedBytes
      ensures received == [] && fragments == map[] && descriptor == 0 && !playPending && !prefetchComplete
      ensures nextPacket == 0 && receivedBytes == 0
    {
      received, fragments, descriptor := [], map[], 0;
      playPending, prefetchComplete := false, false;
      nextPacket, receivedBytes := 0, 0;
    }

    method Begin(session: int, totalBytes: int, channelMask: int, totalBeats: int, loopCount: int, layout: int)
      returns (reply: Reply)
      modifies this
      ensures (State(), reply)
              == BeginWaveform(old(State()), session, totalBytes, channelMask, totalBeats, loopCount, layout)
      ensures reply.status == STATUS_OK
              <==> BeginInRange(session, totalBytes, channelMask, totalBeats, loopCount, layout)
      ensures reply.status != STATUS_OK ==> State() == old(State())
      ensures reply.status == STATUS_OK ==> state == PlayState.Upload && this.session == session
                                            && received == [] && fragments == map[] && descriptor == 0
    {
      if !BeginInRange(session, totalBytes, channelMask, totalBeats, loopCount, layout) {
        reply := Answer(OP_BEGIN, STATUS_BAD_REQUEST, None);
        return;
      }
      Bind(session, totalBytes, channelMask, totalBeats, loopCount);
      reply := Answer(OP_BEGIN, STATUS_OK, None);
    }

    /** Start collecting an upload. */
    method Bind(session: nat, totalBytes: int, channelMask: int, totalBeats: int, loopCount: int)
      modifies this
      ensures State() == Cleared(old(State())).(state := PlayState.Upload, session := session, totalBytes := totalBytes,
                                                totalBeats := totalBeats, channelMask := channelMask,
                                                loopCount := loopCount)
      ensures received == [] && fragments == map[] && descriptor == 0 && this.session == session
      ensures state == PlayState.Upload
    {
      ghost var before := State();
      this.session, this.totalBytes, this.totalBeats := session, totalBytes, totalBeats;
      this.channelMask, this.loopCount := channelMask, loopCount;
      ClearUpload();
      state := PlayState.Upload;
      assert State() == Cleared(before).(state := PlayState.Upload, session := session, totalBytes := totalBytes,
                                         totalBeats := totalBeats, channelMask := channelMask, loopCount := loopCount);
    }

    method Data(session: int, packetSeq: int, byteOffset: int, payload: seq<byte>, payloadCrc: Option<int>)
      returns (reply: Reply)
      modifies `received, `receivedBytes, `fragments, `nextPacket, `errorOffset
      ensures (State(), reply) == DataWaveform(old(State()), crc, session, packetSeq, byteOffset, payload, payloadCrc)
      ensures nextPacket == old(nextPacket) ==> State() == old(State()).(errorOffset := errorOffset)
      ensures nextPacket != old(nextPacket) ==>
                && reply.status == STATUS_OK && packetSeq == old(nextPacket) == nextPacket - 1
                && byteOffset == old(receivedBytes)
                && receivedBytes == old(receivedBytes) + |payload| <= totalBytes
                && fragments == old(fragments)[packetSeq := Fragment(byteOffset, |payload|, Crc32(crc, payload))]
      ensures reply.status == STATUS_OK ==>
                packetSeq in fragments && fragments[packetSeq] == Fragment(byteOffset, |payload|, Crc32(crc, payload))
    {
      hide SliceAssign, Crc32, TakeData;
      if byteOffset < 0 || byteOffset % 32 != 0 {
        reply := Answer(OP_DATA, STATUS_OFFSET, Some(Progress(None, nextPacket, receivedBytes, byteOffset)));
        return;
      }
      if !DataInRange(session, packetSeq, byteOffset, payload) {
        reply := Answer(OP_DATA, STATUS_BAD_REQUEST, None);
        return;
      }
      var digest := Crc32(crc, payload);
      if payloadCrc.Some? && payloadCrc.value % WORD_RANGE != digest {
        errorOffset := byteOffset;
        reply := Answer(OP_DATA, STATUS_CRC, Some(Progress(None, nextPacket, receivedBytes, byteOffset)));
        return;
      }
      if session != this.session || state != PlayState.Upload {
        reply := Answer(OP_DATA, STATUS_BAD_REQUEST, None);
        return;
      }
      reply := Take(packetSeq, byteOffset, payload, digest);
    }

    /** DATA of the session being uploaded. */
    method Take(packetSeq: nat, byteOffset: nat, payload: seq<byte>, digest: nat) returns (reply: Reply)
      modifies `received, `receivedBytes, `fragments, `nextPacket, `errorOffset
      ensures (State(), reply) == TakeData(old(State()), packetSeq, byteOffset, payload, digest)
      ensures nextPacket == old(nextPacket) ==> State() == old(State()).(errorOffset := errorOffset)
      ensures nextPacket != old(nextPacket) ==>
                && reply.status == STATUS_OK && packetSeq == old(nextPacket) == nextPacket - 1
                && byteOffset == old(receivedBytes)
                && receivedBytes == old(receivedBytes) + |payload| <= totalBytes
                && fragments == old(fragments)[packetSeq := Fragment(byteOffset, |payload|, digest)]
      ensures reply.status == STATUS_OK ==>
                packetSeq in fragments && fragments[packetSeq] == Fragment(byteOffset, |payload|, digest)
    {
      hide SliceAssign;
      if packetSeq < nextPacket {
        if packetSeq !in fragments || fragments[packetSeq] != Fragment(byteOffset, |payload|, digest) {
          reply := Answer(OP_DATA, STATUS_SEQUENCE, None);
        } else {
          reply := Answer(OP_DATA, STATUS_OK, Some(Progress(Some(packetSeq), nextPacket, receivedBytes, errorOffset)));
        }
        return;
      }
      if packetSeq != nextPacket {
        reply := Answer(OP_DATA, STATUS_SEQUENCE, Some(Progress(None, nextPacket, receivedBytes, byteOffset)));
        return;
      }
      if byteOffset != receivedBytes || byteOffset + |payload| > totalBytes {
        errorOffset := byteOffset;
        reply := Answer(OP_DATA, STATUS_OFFSET, Some(Progress(None, nextPacket, receivedBytes, byteOffset)));
        return;
      }
      Accept(packetSeq, byteOffset, payload, digest);
      reply := Answer(OP_DATA, STATUS_OK, Some(Progress(Some(packetSeq), nextPacket, receivedBytes, 0)));
    }

    /** Take the next fragment. */
    method Accept(packetSeq: int, byteOffset: nat, payload: seq<byte>, digest: nat)
      modifies `received, `receivedBytes, `fragments, `nextPacket
      ensures received == SliceAssign(old(received), byteOffset, payload)
      ensures fragments == old(fragments)[packetSeq := Fragment(byteOffset, |payload|, digest)]
      ensures receivedBytes == old(receivedBytes) + |payload| && nextPacket == old(nextPacket) + 1
    {
      received := SliceAssign(received, byteOffset, payload);
      receivedBytes := receivedBytes + |payload|;
      fragments := fragments[packetSeq := Fragment(byteOffset, |payload|, digest)];
      nextPacket := nextPacket + 1;
    }

    method Commit(session: int) returns (reply: Reply)
      modifies `generation, `descriptor, `state, `prefetchComplete
      ensures (State(), reply) == CommitWaveform(old(State()), session)
      ensures reply.status == STATUS_OK ==> session == this.session && descriptor == reply.descriptor != 0
      ensures reply.status != STATUS_OK || old(descriptor) != 0 ==> State() == old(State())
      ensures reply.status == STATUS_OK && old(descriptor) == 0 ==>
                state == PlayState.Prefetch && old(state) == PlayState.Upload && receivedBytes == totalBytes
      ensures reply.status == STATUS_OK && old(descriptor) == 0 ==>
                && descriptor == generation && (old(generation) < 0xFFFF_FFFF ==> generation == old(generation) + 1)
                && (old(generation) == 0xFFFF_FFFF ==> generation == 1)
    {
      if session == this.session && descriptor != 0 {
        reply := Answer(OP_COMMIT, STATUS_OK, None);
        return;
      }
      if session != this.session || state != PlayState.Upload {
        reply := Answer(OP_COMMIT, STATUS_BAD_REQUEST, None);
        return;
      }
      if receivedBytes != totalBytes {
        reply := Answer(OP_COMMIT, STATUS_INCOMPLETE, None);
        return;
      }
      generation := (generation + 1) % WORD_RANGE;
      if generation == 0 {
        generation := 1;
      }
      descriptor := generation;
      state := PlayState.Prefetch;
      prefetchComplete := false;
      reply := Answer(OP_COMMIT, STATUS_OK, None);
    }

    method CompletePrefetch()
      modifies `prefetchComplete, `state, `playPending
      ensures State() == PrefetchCompleted(old(State()))
      ensures if old(state) != PlayState.Prefetch then State() == old(State())
              else prefetchComplete && state == if old(playPending) then PlayState.Playing else PlayState.WaitTrigger
    {
      if state == PlayState.Prefetch {
        prefetchComplete := true;
        state := if playPending then PlayState.Playing else PlayState.WaitTrigger;
        playPending := false;
      }
    }

    method StartPlay(session: int) returns (reply: Reply)
      modifies `state, `prefetchComplete, `playPending
      ensures (State(), reply) == Play(old(State()), session)
      ensures reply.status == STATUS_OK <==>
              && (session == 0 || session == this.session)
              && old(state) !in {Idle, Upload, Playing, Draining, PlayState.Error}
      ensures reply.status != STATUS_OK ==> State() == old(State())
      ensures state == PlayState.Playing && old(state) != PlayState.Playing ==> old(state) == PlayState.WaitTrigger
    {
      if session != 0 && session != this.session {
        reply := Answer(OP_PLAY, STATUS_BAD_REQUEST, None);
      } else if state in {PlayState.Ready, PlayState.Done, PlayState.Prefetch} {
        state, prefetchComplete, playPending := PlayState.Prefetch, false, true;
        reply := Answer(OP_PLAY, STATUS_OK, None);
      } else if state == PlayState.WaitTrigger {
        state := PlayState.Playing;
        reply := Answer(OP_PLAY, STATUS_OK, None);
      } else {
        reply := Answer(OP_PLAY, STATUS_BAD_REQUEST, None);
      }
    }

    method PausePlay(session: int) returns (reply: Reply)
      modifies `state, `prefetchComplete, `playPending
      ensures (State(), reply) == Pause(old(State()), session)
      ensures reply.status == STATUS_OK <==>
              (session == 0 || session == this.session) && old(state) !in {Idle, Upload, Draining, PlayState.Error}
      ensures reply.status == STATUS_OK ==> state == PlayState.Ready && !prefetchComplete && !playPending
      ensures reply.status != STATUS_OK ==> State() == old(State())
    {
      if session != 0 && session != this.session {
        reply := Answer(OP_PAUSE, STATUS_BAD_REQUEST, None);
      } else if state in {PlayState.Ready, PlayState.Done, PlayState.Playing, PlayState.WaitTrigger,
                          PlayState.Prefetch} {
        state, prefetchComplete, playPending := PlayState.Ready, false, false;
        reply := Answer(OP_PAUSE, STATUS_OK, None);
      } else {
        assert state.Idle? || state.Upload? || state.Draining? || state.Error?;
        reply := Answer(OP_PAUSE, STATUS_BAD_REQUEST, None);
      }
    }

    method AbortAll(session: int) returns (reply: Reply)
      modifies this
      ensures (State(), reply) == Abort(old(State()), session)
      ensures if session != 0 && session != old(this.session) then State() == old(State())
              else && state == PlayState.Idle && this.session == 0 && descriptor == 0
                   && received == [] && fragments == map[]
    {
      if session != 0 && session != this.session {
        reply := Answer(OP_ABORT, STATUS_BAD_REQUEST, None);
        return;
      }
      ghost var before := State();
      state := PlayState.Idle;
      this.session, errorOffset := 0, 0;
      ClearUpload();
      assert State() == Cleared(before).(state := PlayState.Idle, session := 0, errorOffset := 0);
      reply := Answer(OP_ABORT, STATUS_OK, None);
    }

    method StopPlay(session: int) returns (reply: Reply)
      modifies this
      ensures (State(), reply) == Stop(old(State()), session)
      ensures reply.status == STATUS_OK <==>
              (session == 0 || session == old(this.session)) && old(state) !in {Idle, Draining, PlayState.Error}
      ensures reply.opcode == OP_STOP && (reply.status != STATUS_OK ==> State() == old(State()))
      ensures reply.status == STATUS_OK ==>
                state == if old(state) == PlayState.Upload then PlayState.Idle else PlayState.Ready
    {
      if session != 0 && session != this.session {
        reply := Answer(OP_STOP, STATUS_BAD_REQUEST, None);
        return;
      }
      if state == PlayState.Upload {
        var _ := AbortAll(session);
        reply := Answer(OP_STOP, STATUS_OK, None);
        return;
      }
      reply := PausePlay(session);
      reply := reply.(opcode := OP_STOP);
    }

    method Trigger() returns (fired: bool)
      modifies `state
      ensures State() == Triggered(old(State()))
      ensures if fired then state == PlayState.Playing else State() == old(State())
      ensures fired <==> old(state) == WaitTrigger
    {
      fired := state == PlayState.WaitTrigger;
      if fired {
        state := PlayState.Playing;
      }
    }

    /** A request datagram arrives. */
    method Serve(request: WaveRequest) returns (reply: Reply)
      modifies this
      ensures (State(), reply) == Receive(old(State()), crc, request)
    {
      match request
      case Begin(session, totalBytes, channelMask, totalBeats, loopCount, layout) =>
        reply := Begin(session, totalBytes, channelMask, totalBeats, loopCount, layout);
      case Data(session, packetSeq, byteOffset, payload) =>
        reply := Data(session, packetSeq, byteOffset, payload, Some(Crc32(crc, payload)));
      case Command(opcode, session) =>
        if opcode == OP_COMMIT {
          reply := Commit(session);
        } else if opcode == OP_PLAY {
          reply := StartPlay(session);
        } else if opcode == OP_PAUSE {
          reply := PausePlay(session);
        } else if opcode == OP_STOP {
          reply := StopPlay(session);
        } else if opcode == OP_ABORT {
          reply := AbortAll(session);
        } else {
          reply := Answer(OP_STATUS, STATUS_OK, None);
        }
    }
  }
}
