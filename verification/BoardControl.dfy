/** Which calls a board accepts, and where they lead, in every state that any
    sequence of calls reaches (software/dr47/simulator.py). Acceptance is said
    in terms of the upload the board holds: its session, its descriptor and
    whether its buffer is complete. */
module BoardControl {
  import opened Bytes
  import opened WaveProtocol
  import opened WaveWire
  import opened Board
  import opened BoardRuns
  import Upload

  const BAD_REQUEST := 2
  const INCOMPLETE := 4
  const LAST_WORD := 0xFFFF_FFFF

  /** The command names this board's upload, or none. */
  predicate Addressed(b: BoardState, session: int) {
    session == 0 || session == b.session
  }

  /** What the flags of a reachable state say about its upload. */
  lemma {:induction false} ReachableUpload(crc: Crc, calls: seq<Call>)
    ensures var b := Run(POWER_ON, crc, calls);
            && PlaybackOk(b) && RangesOk(b) && |b.received| == b.receivedBytes
            && (b.session == 0 ==> b.state == Idle && b.descriptor == 0)
            && (b.session != 0 && b.descriptor == 0 ==> b.state == Upload)
            && (b.descriptor != 0 ==> |b.received| == b.totalBytes)
  {
    hide Run, FragmentOk, FragmentBytes;
    ReachableInv(crc, calls);
  }

  lemma {:induction false} ReachableFlagsAndRanges(crc: Crc, calls: seq<Call>)
    ensures PlaybackOk(Run(POWER_ON, crc, calls)) && RangesOk(Run(POWER_ON, crc, calls))
  {
    hide Run, FragmentsOk, PlaybackOk, RangesOk;
    ReachableInv(crc, calls);
  }

  /** BEGIN (opcode 1) is accepted exactly for packable arguments. It keeps only
      the generation and the recorded error offset of what was there before. */
  lemma {:induction false} BeginAccepted(crc: Crc, calls: seq<Call>, r: WaveRequest)
    requires r.Begin?
    ensures var b := Run(POWER_ON, crc, calls);
            var (next, reply) := Receive(b, crc, r);
            && reply.opcode == 1 && reply.status == (if Packable(r) then 0 else BAD_REQUEST)
            && next == if !Packable(r) then b
                       else POWER_ON.(state := Upload, session := r.session, totalBytes := r.totalBytes,
                                      totalBeats := r.totalBeats, channelMask := r.channelMask,
                                      loopCount := r.loopCount, generation := b.generation,
                                      errorOffset := b.errorOffset)
  {
    hide Run;
    PackableIsInRange(r);
  }

  /** COMMIT (opcode 3) is accepted exactly when it names the session of an
      upload whose buffer is complete, and says so when it is not complete. A
      committed upload is left alone; a new descriptor is the next generation. */
  lemma {:induction false} CommitAccepted(crc: Crc, calls: seq<Call>, session: int)
    ensures var b := Run(POWER_ON, crc, calls);
            var (next, reply) := Receive(b, crc, Command(3, session));
            var own := session == b.session && session != 0;
            var generation := if b.generation == LAST_WORD then 1 else b.generation + 1;
            && reply.opcode == 3
            && reply.status == (if !own then BAD_REQUEST else if |b.received| < b.totalBytes then INCOMPLETE else 0)
            && next == if reply.status == 0 && b.descriptor == 0 then
                         b.(state := Prefetch, descriptor := generation, generation := generation)
                       else b
  {
    hide Run;
    ReachableUpload(crc, calls);
  }

  /** PLAY (opcode 4) is accepted exactly when a waveform is committed and not
      already playing. A prefetched one plays, any other is prefetched first. */
  lemma {:induction false} PlayAccepted(crc: Crc, calls: seq<Call>, session: int)
    ensures var b := Run(POWER_ON, crc, calls);
            var (next, reply) := Receive(b, crc, Command(4, session));
            && reply.opcode == 4
            && reply.status == (if Addressed(b, session) && b.descriptor != 0 && b.state != Playing then 0
                                else BAD_REQUEST)
            && next == if reply.status != 0 then b
                       else if b.prefetchComplete then b.(state := Playing)
                       else b.(state := Prefetch, playPending := true)
  {
    hide Run;
    ReachableUpload(crc, calls);
  }

  /** PAUSE (opcode 5) is accepted exactly when a waveform is committed; it keeps
      the waveform and forgets the prefetch. */
  lemma {:induction false} PauseAccepted(crc: Crc, calls: seq<Call>, session: int)
    ensures var b := Run(POWER_ON, crc, calls);
            var (next, reply) := Receive(b, crc, Command(5, session));
            && reply.opcode == 5
            && reply.status == (if Addressed(b, session) && b.descriptor != 0 then 0 else BAD_REQUEST)
            && next == if reply.status != 0 then b
                       else b.(state := Ready, prefetchComplete := false, playPending := false)
  {
    hide Run;
    ReachableUpload(crc, calls);
  }

  /** The board without its upload: as at power-on, but for the generation and
      the last description. */
  function Dropped(b: BoardState): BoardState {
    POWER_ON.(generation := b.generation, totalBytes := b.totalBytes, totalBeats := b.totalBeats,
              channelMask := b.channelMask, loopCount := b.loopCount)
  }

  /** STOP (opcode 6) is accepted exactly when an upload is bound: it pauses a
      committed waveform and drops any other upload. */
  lemma {:induction false} StopAccepted(crc: Crc, calls: seq<Call>, session: int)
    ensures var b := Run(POWER_ON, crc, calls);
            var (next, reply) := Receive(b, crc, Command(6, session));
            && reply.opcode == 6
            && reply.status == (if Addressed(b, session) && b.session != 0 then 0 else BAD_REQUEST)
            && next == if reply.status != 0 then b
                       else if b.descriptor == 0 then Dropped(b)
                       else b.(state := Ready, prefetchComplete := false, playPending := false)
  {
    hide Run;
    ReachableUpload(crc, calls);
  }

  /** ABORT (opcode 7) is accepted from any caller but another session's, and
      drops the upload. STATUS (opcode 8) is always accepted and changes nothing. */
  lemma {:induction false} AbortAndStatusAccepted(crc: Crc, calls: seq<Call>, session: int)
    ensures var b := Run(POWER_ON, crc, calls);
            var (next, reply) := Receive(b, crc, Command(7, session));
            && reply.opcode == 7 && reply.status == (if Addressed(b, session) then 0 else BAD_REQUEST)
            && next == if Addressed(b, session) then Dropped(b) else b
    ensures var b := Run(POWER_ON, crc, calls);
            var (next, reply) := Receive(b, crc, Command(8, session));
            reply.opcode == 8 && reply.status == 0 && next == b
  {
    hide Run;
  }

  /** Every reply reports the board after the call. */
  lemma ReplyReportsBoard(b: BoardState, crc: Crc, r: WaveRequest)
    ensures var (next, reply) := Receive(b, crc, r);
            reply.session == next.session && reply.state == next.state && reply.descriptor == next.descriptor
    ensures !r.Data? ==> Receive(b, crc, r).1.progress == None
  {
    hide SliceAssign, DataInRange, BeginInRange, Crc32, Cleared;
    if r.Data? {
      DataReportsBoard(b, crc, r.session, r.packetSeq, r.byteOffset, r.payload, Some(Crc32(crc, r.payload)));
    } else {
      hide DataWaveform;
    }
  }

  lemma DataReportsBoard(b: BoardState, crc: Crc, session: int, packetSeq: int, byteOffset: int, payload: seq<byte>,
                         payloadCrc: Option<int>)
    ensures var (next, reply) := DataWaveform(b, crc, session, packetSeq, byteOffset, payload, payloadCrc);
            reply.session == next.session && reply.state == next.state && reply.descriptor == next.descriptor
  {
    hide SliceAssign, DataInRange, Crc32;
  }

  // ----- DATA -----

  /** Which answer DATA gets, and what it reports. `own` DATA is aligned, in
      range, undamaged and for the upload being received; it comes early, late
      or in turn. */
  lemma {:induction false} DataStatus(crc: Crc, calls: seq<Call>, r: WaveRequest, payloadCrc: Option<int>)
    requires r.Data?
    ensures var b := Run(POWER_ON, crc, calls);
            var (next, reply) := Handle(b, crc, r, payloadCrc);
            var aligned := r.byteOffset >= 0 && r.byteOffset % 32 == 0;
            var intact := payloadCrc == None
                          || payloadCrc.value % 0x1_0000_0000 == crc(r.payload) % 0x1_0000_0000;
            var own := Packable(r) && intact && b.state == Upload && r.session == b.session;
            var fits := r.byteOffset == |b.received| && r.byteOffset + |r.payload| <= b.totalBytes;
            var known := r.packetSeq in b.fragments
                         && b.fragments[r.packetSeq]
                            == Fragment(r.byteOffset, |r.payload|, crc(r.payload) % 0x1_0000_0000);
            && reply.opcode == 2
            && (reply.status == 6 <==> !aligned || (own && r.packetSeq == b.nextPacket && !fits))
            && (reply.status == 7 <==> Packable(r) && !intact)
            && (reply.status == 5 <==> own && (r.packetSeq > b.nextPacket || (r.packetSeq < b.nextPacket && !known)))
            && (reply.status == 0 <==> own && (known || (r.packetSeq == b.nextPacket && fits)))
            && reply.status in {0, 2, 5, 6, 7}
  {
    hide Run, SliceAssign, FragmentOk, FragmentBytes;
    ReachableInv(crc, calls);
    PackableIsInRange(r);
  }

  /** The counters in a DATA reply: an acknowledgement names the packet, and the
      reply says which packet and how many bytes come next. */
  lemma {:induction false} DataReport(crc: Crc, calls: seq<Call>, r: WaveRequest, payloadCrc: Option<int>)
    requires r.Data?
    ensures var b := Run(POWER_ON, crc, calls);
            var (next, reply) := Handle(b, crc, r, payloadCrc);
            && (reply.status == 0 ==>
                  && reply.progress.Some? && reply.progress.value.ack == Some(r.packetSeq)
                  && reply.progress.value.firstErrorOffset == if r.packetSeq < b.nextPacket then b.errorOffset else 0)
            && (reply.progress.Some? ==>
                  && reply.progress.value.nextExpected == next.nextPacket
                  && reply.progress.value.receivedBytes == |next.received|
                  && (reply.status != 0 ==> reply.progress.value == Progress(None, b.nextPacket, |b.received|,
                                                                             r.byteOffset)))
            && (reply.progress.None? <==>
                reply.status == BAD_REQUEST || (reply.status == 5 && r.packetSeq < b.nextPacket))
            && (next.errorOffset != b.errorOffset ==>
                  next.errorOffset == r.byteOffset && reply.status in {6, 7})
            && (reply.status == 7 || (reply.status == 6 && Packable(r)) ==> next.errorOffset == r.byteOffset)
  {
    hide Run, FragmentOk, FragmentBytes, SliceAssign;
    ReachableInv(crc, calls);
    PackableIsInRange(r);
    DataOutcome(Run(POWER_ON, crc, calls), crc, r.session, r.packetSeq, r.byteOffset, r.payload, payloadCrc);
  }

  // ----- Playback -----

  /** What is accepted for playing does play: PLAY and then a prefetch, or a
      prefetch and then PLAY or a trigger. PAUSE and another PLAY start over. */
  lemma {:induction false} PlaybackCycle(crc: Crc, calls: seq<Call>)
    requires Run(POWER_ON, crc, calls).descriptor != 0
    ensures var b := Run(POWER_ON, crc, calls);
            var paused := Receive(b, crc, Command(5, b.session)).0;
            var asked := Receive(paused, crc, Command(4, b.session)).0;
            && asked.state == Prefetch && PrefetchCompleted(asked).state == Playing
            && asked.received == b.received && asked.descriptor == b.descriptor
            && Triggered(asked) == asked && PrefetchCompleted(paused) == paused && Triggered(paused) == paused
    ensures var b := Run(POWER_ON, crc, calls);
            b.state == Prefetch && !b.playPending ==>
              var waiting := PrefetchCompleted(b);
              && waiting == b.(state := WaitTrigger, prefetchComplete := true)
              && Triggered(waiting) == Receive(waiting, crc, Command(4, 0)).0 == waiting.(state := Playing)
  {
    hide Run;
    ReachableUpload(crc, calls);
  }

  // ----- Descriptors -----

  /** How many commits of the run bound a new descriptor. */
  function NewCommits(crc: Crc, calls: seq<Call>): nat {
    if calls == [] then 0
    else
      var prefix := calls[..|calls| - 1];
      var binds := Run(POWER_ON, crc, prefix).descriptor == 0 && Run(POWER_ON, crc, calls).descriptor != 0;
      NewCommits(crc, prefix) + if binds then 1 else 0
  }

  /** The generation after n new commits: it skips zero when it wraps. */
  function GenerationAfter(n: nat): nat {
    if n == 0 then 0 else 1 + (n - 1) % LAST_WORD
  }

  /** One call changes the generation exactly when it binds a new descriptor,
      which is then the next generation. */
  lemma GenerationStep(b: BoardState, crc: Crc, call: Call)
    requires PlaybackOk(b) && RangesOk(b) && (b.descriptor != 0 ==> b.descriptor == b.generation)
    ensures var next := Step(b, crc, call);
            && (next.descriptor != 0 ==> next.descriptor == next.generation)
            && next.generation == if b.descriptor != 0 || next.descriptor == 0 then b.generation
                                  else if b.generation == LAST_WORD then 1 else b.generation + 1
  {
    if call.Submit? && call.request.Data? {
      var r := call.request;
      DataKeepsDescriptor(b, crc, r.session, r.packetSeq, r.byteOffset, r.payload, call.payloadCrc);
    } else {
      hide DataWaveform;
    }
  }

  lemma DataKeepsDescriptor(b: BoardState, crc: Crc, session: int, packetSeq: int, byteOffset: int,
                            payload: seq<byte>, payloadCrc: Option<int>)
    ensures var next := DataWaveform(b, crc, session, packetSeq, byteOffset, payload, payloadCrc).0;
            next.descriptor == b.descriptor && next.generation == b.generation
  {
    hide SliceAssign, DataInRange, Crc32;
  }

  lemma GenerationAfterStep(n: nat)
    ensures GenerationAfter(n) <= LAST_WORD
    ensures GenerationAfter(n + 1) == if GenerationAfter(n) == LAST_WORD then 1 else GenerationAfter(n) + 1
  {
    if n > 0 {
      Upload.NextResidue(n - 1);
    }
  }

  /** In every run the generation counts the new commits, and a descriptor is
      the generation of its commit. */
  lemma {:induction false} GenerationCountsCommits(crc: Crc, calls: seq<Call>)
    ensures var b := Run(POWER_ON, crc, calls);
            b.generation == GenerationAfter(NewCommits(crc, calls))
            && (b.descriptor != 0 ==> b.descriptor == b.generation)
  {
    if calls == [] {
    } else {
      hide Step, Run, NewCommits, GenerationAfter, PlaybackOk, RangesOk;
      var prefix := calls[..|calls| - 1];
      GenerationCountsCommits(crc, prefix);
      ReachableFlagsAndRanges(crc, prefix);
      GenerationAfterStep(NewCommits(crc, prefix));
      GenerationStep(Run(POWER_ON, crc, prefix), crc, calls[|calls| - 1]);
      OneMoreCall(crc, calls);
    }
  }

  lemma OneMoreCall(crc: Crc, calls: seq<Call>)
    requires calls != []
    ensures var before, after := Run(POWER_ON, crc, calls[..|calls| - 1]), Run(POWER_ON, crc, calls);
            && after == Step(before, crc, calls[|calls| - 1])
            && NewCommits(crc, calls)
               == NewCommits(crc, calls[..|calls| - 1])
                  + (if before.descriptor == 0 && after.descriptor != 0 then 1 else 0)
  {
    hide Step;
  }

  /** Two committed states of a run show the same descriptor exactly when the
      new commits between them are a multiple of 2^32 - 1, so consecutive
      commits never share one. */
  lemma DescriptorsRepeatIff(crc: Crc, calls: seq<Call>, i: nat)
    requires i <= |calls|
    requires Run(POWER_ON, crc, calls[..i]).descriptor != 0 && Run(POWER_ON, crc, calls).descriptor != 0
    ensures NewCommits(crc, calls) >= NewCommits(crc, calls[..i]) > 0
    ensures Run(POWER_ON, crc, calls[..i]).descriptor == Run(POWER_ON, crc, calls).descriptor <==>
            (NewCommits(crc, calls) - NewCommits(crc, calls[..i])) % LAST_WORD == 0
  {
    hide Run, NewCommits, GenerationAfter;
    GenerationCountsCommits(crc, calls);
    GenerationCountsCommits(crc, calls[..i]);
    CommitsGrow(crc, calls, i);
    GenerationsEqualIff(NewCommits(crc, calls[..i]), NewCommits(crc, calls));
  }

  lemma {:induction false} CommitsGrow(crc: Crc, calls: seq<Call>, i: nat)
    requires i <= |calls|
    ensures NewCommits(crc, calls) >= NewCommits(crc, calls[..i])
  {
    if i == |calls| {
      assert calls[..i] == calls;
    } else {
      var prefix := calls[..|calls| - 1];
      assert prefix[..i] == calls[..i];
      CommitsGrow(crc, prefix, i);
    }
  }

  lemma GenerationsEqualIff(m: nat, n: nat)
    requires m <= n && GenerationAfter(m) != 0
    ensures m > 0
    ensures GenerationAfter(m) == GenerationAfter(n) <==> (n - m) % LAST_WORD == 0
  {
    Upload.SameResidue(n - 1, m - 1);
  }
}
