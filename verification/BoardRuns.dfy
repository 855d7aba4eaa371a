/** What every run of the board keeps: fragment bookkeeping, playback safety,
    and that its wire replies always have a wire form. */
module BoardRuns {
  import opened Bytes
  import opened WaveProtocol
  import opened Board

  /** Bytes in fragments 0..n-1. */
  ghost function FragmentBytes(fragments: map<int, Fragment>, n: nat): nat
    requires forall k :: 0 <= k < n ==> k in fragments
  {
    if n == 0 then 0 else FragmentBytes(fragments, n - 1) + fragments[n - 1].length
  }

  ghost predicate FragmentOk(b: BoardState, crc: Crc, k: int)
    requires 0 <= k < b.nextPacket && forall i :: 0 <= i < b.nextPacket ==> i in b.fragments
    requires |b.received| == b.receivedBytes
  {
    var f := b.fragments[k];
    && f.length >= BEAT_BYTES && f.length % BEAT_BYTES == 0
    && f.offset == FragmentBytes(b.fragments, k)
    && f.offset + f.length <= b.receivedBytes
    && f.crc == Crc32(crc, b.received[f.offset..f.offset + f.length])
  }

  ghost predicate FragmentsOk(b: BoardState, crc: Crc) {
    && (forall k :: k in b.fragments <==> 0 <= k < b.nextPacket)
    && |b.received| == b.receivedBytes == FragmentBytes(b.fragments, b.nextPacket)
    && forall k :: 0 <= k < b.nextPacket ==> FragmentOk(b, crc, k)
  }

  predicate PlaybackOk(b: BoardState) {
    && b.state !in {Draining, Done, PlayState.Error}
    && (b.descriptor != 0 <==> b.state in {Ready, Prefetch, WaitTrigger, Playing})
    && (b.prefetchComplete <==> b.state in {WaitTrigger, Playing})
    && (b.playPending ==> b.state == Prefetch)
    && (b.descriptor != 0 ==> b.receivedBytes == b.totalBytes)
  }

  predicate RangesOk(b: BoardState) {
    && (b.session == 0 <==> b.state == Idle)
    && 0 <= b.session < WORD_RANGE && b.descriptor < WORD_RANGE && b.generation < WORD_RANGE
    && 0 <= b.errorOffset < LONG_RANGE
    && b.receivedBytes <= (if b.state == Idle then 0 else b.totalBytes) <= DDR_MAX_INTERLEAVED_BYTES
  }

  ghost predicate BoardInv(b: BoardState, crc: Crc) {
    FragmentsOk(b, crc) && PlaybackOk(b) && RangesOk(b)
  }

  lemma {:induction false} FragmentBytesIgnoresLater(f: map<int, Fragment>, n: nat, key: int, value: Fragment)
    requires forall k :: 0 <= k < n ==> k in f
    requires key >= n
    ensures FragmentBytes(f[key := value], n) == FragmentBytes(f, n)
  {
    if n == 0 {
    } else {
      FragmentBytesIgnoresLater(f, n - 1, key, value);
    }
  }

  /** What a DATA call does, for any arguments: either it accepts the next
      fragment, or it leaves everything but the recorded error offset alone. */
  lemma DataOutcome(b: BoardState, crc: Crc, session: int, packetSeq: int, byteOffset: int, payload: seq<byte>,
                    payloadCrc: Option<int>)
    requires FragmentsOk(b, crc)
    ensures var (next, reply) := DataWaveform(b, crc, session, packetSeq, byteOffset, payload, payloadCrc);
            var value := Fragment(byteOffset, |payload|, Crc32(crc, payload));
            var accepts := DataInRange(session, packetSeq, byteOffset, payload)
                           && (payloadCrc.Some? ==> payloadCrc.value % WORD_RANGE == Crc32(crc, payload))
                           && session == b.session && b.state == Upload;
            var taken := && accepts && packetSeq == b.nextPacket && byteOffset == |b.received|
                         && byteOffset + |payload| <= b.totalBytes;
            var replay := accepts && 0 <= packetSeq < b.nextPacket && b.fragments[packetSeq] == value;
            && (reply.status == STATUS_OK <==> taken || replay)
            && (taken ==> next == b.(received := b.received + payload, receivedBytes := b.receivedBytes + |payload|,
                                     nextPacket := b.nextPacket + 1,
                                     fragments := b.fragments[packetSeq := value]))
            && (!taken ==> next == b.(errorOffset := next.errorOffset))
            && (replay ==> next == b)
  {
    hide TakeData, SliceAssign, Crc32, FragmentOk;
    if DataInRange(session, packetSeq, byteOffset, payload) {
      TakeOutcome(b, packetSeq, byteOffset, payload, Crc32(crc, payload));
    }
  }

  lemma TakeOutcome(b: BoardState, packetSeq: nat, byteOffset: nat, payload: seq<byte>, digest: nat)
    requires (forall k :: k in b.fragments <==> 0 <= k < b.nextPacket) && |b.received| == b.receivedBytes
    ensures var (next, reply) := TakeData(b, packetSeq, byteOffset, payload, digest);
            var value := Fragment(byteOffset, |payload|, digest);
            var taken := && packetSeq == b.nextPacket && byteOffset == |b.received|
                         && byteOffset + |payload| <= b.totalBytes;
            var replay := packetSeq < b.nextPacket && b.fragments[packetSeq] == value;
            && (reply.status == STATUS_OK <==> taken || replay)
            && (taken ==> next == b.(received := b.received + payload, receivedBytes := b.receivedBytes + |payload|,
                                     nextPacket := b.nextPacket + 1, fragments := b.fragments[packetSeq := value]))
            && (!taken ==> next == b.(errorOffset := next.errorOffset)) && (replay ==> next == b)
  {
    if byteOffset == |b.received| {
      assert SliceAssign(b.received, byteOffset, payload) == b.received + payload;
    }
  }

  lemma AcceptKeepsFragments(b: BoardState, next: BoardState, crc: Crc, payload: seq<byte>)
    requires FragmentsOk(b, crc) && |payload| >= BEAT_BYTES && |payload| % BEAT_BYTES == 0
    requires next == b.(received := b.received + payload, receivedBytes := b.receivedBytes + |payload|,
                        nextPacket := b.nextPacket + 1,
                        fragments := b.fragments[b.nextPacket :=
                                                   Fragment(|b.received|, |payload|, Crc32(crc, payload))])
    ensures FragmentsOk(next, crc)
  {
    var value := Fragment(|b.received|, |payload|, Crc32(crc, payload));
    forall k | 0 <= k <= b.nextPacket
      ensures FragmentBytes(next.fragments, k) == FragmentBytes(b.fragments, k)
    {
      FragmentBytesIgnoresLater(b.fragments, k, b.nextPacket, value);
    }
    forall k | 0 <= k < next.nextPacket
      ensures FragmentOk(next, crc, k)
    {
      var f := next.fragments[k];
      if k < b.nextPacket {
        assert FragmentOk(b, crc, k);
        assert next.received[f.offset..f.offset + f.length] == b.received[f.offset..f.offset + f.length];
      } else {
        assert next.received[f.offset..f.offset + f.length] == payload;
      }
    }
  }

  lemma DataKeepsInv(b: BoardState, crc: Crc, session: int, packetSeq: int, byteOffset: int, payload: seq<byte>,
                     payloadCrc: Option<int>)
    requires BoardInv(b, crc)
    ensures BoardInv(DataWaveform(b, crc, session, packetSeq, byteOffset, payload, payloadCrc).0, crc)
  {
    hide SliceAssign;
    DataOutcome(b, crc, session, packetSeq, byteOffset, payload, payloadCrc);
    var next := DataWaveform(b, crc, session, packetSeq, byteOffset, payload, payloadCrc).0;
    if next.nextPacket == b.nextPacket {
      SameFragments(b, next, crc);
    } else {
      AcceptKeepsFragments(b, next, crc, payload);
    }
  }

  lemma SameFragments(b: BoardState, next: BoardState, crc: Crc)
    requires FragmentsOk(b, crc)
    requires next.fragments == b.fragments && next.received == b.received
    requires next.receivedBytes == b.receivedBytes && next.nextPacket == b.nextPacket
    ensures FragmentsOk(next, crc)
  {
    forall k | 0 <= k < next.nextPacket
      ensures FragmentOk(next, crc, k)
    {
      assert FragmentOk(b, crc, k);
    }
  }

  /** Every call keeps the invariant, whatever its arguments. */
  lemma StepKeepsInv(b: BoardState, crc: Crc, call: Call)
    requires BoardInv(b, crc)
    ensures BoardInv(Step(b, crc, call), crc)
  {
    if call.Submit? && call.request.Data? {
      var r := call.request;
      DataKeepsInv(b, crc, r.session, r.packetSeq, r.byteOffset, r.payload, call.payloadCrc);
    } else {
      OtherCallsKeepFlags(b, crc, call);
      OtherCallsKeepFragments(b, crc, call);
    }
  }

  lemma OtherCallsKeepFlags(b: BoardState, crc: Crc, call: Call)
    requires PlaybackOk(b) && RangesOk(b) && !(call.Submit? && call.request.Data?)
    ensures PlaybackOk(Step(b, crc, call)) && RangesOk(Step(b, crc, call))
  {
    hide DataWaveform;
  }

  lemma OtherCallsKeepFragments(b: BoardState, crc: Crc, call: Call)
    requires FragmentsOk(b, crc) && !(call.Submit? && call.request.Data?)
    ensures FragmentsOk(Step(b, crc, call), crc)
  {
    hide DataWaveform, FragmentOk;
    var next := Step(b, crc, call);
    if next.fragments == b.fragments && next.nextPacket == b.nextPacket {
      SameFragments(b, next, crc);
    }
  }

  function Run(b: BoardState, crc: Crc, calls: seq<Call>): BoardState {
    if calls == [] then b else Step(Run(b, crc, calls[..|calls| - 1]), crc, calls[|calls| - 1])
  }

  /** After any sequence of calls from power-on: fragment k is the k-th piece of
      the buffer with its CRC, indices are exactly 0..nextPacket-1, and the
      playback flags agree with the state. */
  lemma {:induction false} ReachableInv(crc: Crc, calls: seq<Call>)
    ensures BoardInv(Run(POWER_ON, crc, calls), crc)
  {
    if calls == [] {
    } else {
      ReachableInv(crc, calls[..|calls| - 1]);
      StepKeepsInv(Run(POWER_ON, crc, calls[..|calls| - 1]), crc, calls[|calls| - 1]);
    }
  }

  predicate Discards(call: Call) {
    call.Submit? && (call.request.Begin? || (call.request.Command? && call.request.opcode == OP_ABORT))
  }

  /** A committed buffer stays complete and frozen until BEGIN or ABORT. */
  lemma {:induction false} CommittedBufferIsFrozen(b: BoardState, crc: Crc, calls: seq<Call>)
    requires BoardInv(b, crc) && b.descriptor != 0
    requires forall i :: 0 <= i < |calls| ==> !Discards(calls[i])
    ensures var next := Run(b, crc, calls);
            && BoardInv(next, crc) && next.descriptor == b.descriptor && next.session == b.session
            && next.received == b.received && next.fragments == b.fragments
            && |next.received| == next.totalBytes == b.totalBytes
  {
    if calls != [] {
      var prefix, last := calls[..|calls| - 1], calls[|calls| - 1];
      assert forall i :: 0 <= i < |prefix| ==> prefix[i] == calls[i];
      CommittedBufferIsFrozen(b, crc, prefix);
      hide BoardInv, Step, Discards;
      StepKeepsInv(Run(b, crc, prefix), crc, last);
      StepKeepsCommitted(Run(b, crc, prefix), crc, last);
    } else {
      CommittedIsComplete(b, crc);
    }
  }

  lemma CommittedIsComplete(b: BoardState, crc: Crc)
    requires BoardInv(b, crc) && b.descriptor != 0
    ensures |b.received| == b.totalBytes
  {
    hide FragmentOk, FragmentBytes;
  }

  lemma StepKeepsCommitted(b: BoardState, crc: Crc, call: Call)
    requires BoardInv(b, crc) && b.descriptor != 0 && !Discards(call)
    ensures var next := Step(b, crc, call);
            && next.descriptor == b.descriptor && next.session == b.session
            && next.received == b.received && next.fragments == b.fragments && next.totalBytes == b.totalBytes
  {
    hide FragmentOk, FragmentBytes, SliceAssign;
  }

  lemma OnlyPrefetchCompletes(b: BoardState, crc: Crc, call: Call)
    requires BoardInv(b, crc) && !b.prefetchComplete && Step(b, crc, call).prefetchComplete
    ensures call == CompletePrefetch && b.state == Prefetch
  {
    hide FragmentsOk, RangesOk, SliceAssign;
  }

  /** The prefetch has been complete ever since call k. */
  predicate CompleteSince(b: BoardState, crc: Crc, calls: seq<Call>, k: nat) {
    forall m :: k < m <= |calls| ==> Run(b, crc, calls[..m]).prefetchComplete
  }

  lemma CompleteLonger(b: BoardState, crc: Crc, calls: seq<Call>, k: nat)
    requires calls != [] && k < |calls| && Run(b, crc, calls).prefetchComplete
    requires k == |calls| - 1 || CompleteSince(b, crc, calls[..|calls| - 1], k)
    ensures CompleteSince(b, crc, calls, k)
  {
    hide Run;
    var prefix := calls[..|calls| - 1];
    forall m | k < m <= |calls|
      ensures Run(b, crc, calls[..m]).prefetchComplete
    {
      assert if m < |calls| then calls[..m] == prefix[..m] else calls[..m] == calls;
    }
  }

  /** If the prefetch was incomplete after i calls and is complete at the end,
      some later call completed it, and it has been complete ever since. */
  lemma {:induction false} PrefetchCompletes(b: BoardState, crc: Crc, calls: seq<Call>, i: nat) returns (k: nat)
    requires BoardInv(b, crc) && i <= |calls|
    requires !Run(b, crc, calls[..i]).prefetchComplete && Run(b, crc, calls).prefetchComplete
    ensures i <= k < |calls| && calls[k] == CompletePrefetch && Run(b, crc, calls[..k]).state == Prefetch
    ensures CompleteSince(b, crc, calls, k)
  {
    hide BoardInv, Step, Run, CompleteSince;
    assert calls[..|calls|] == calls;
    RunSnoc(b, crc, calls);
    var prefix := calls[..|calls| - 1];
    var before := Run(b, crc, prefix);
    RunKeepsInv(b, crc, prefix);
    if before.prefetchComplete {
      assert prefix[..i] == calls[..i];
      k := PrefetchCompletes(b, crc, prefix, i);
      assert prefix[..k] == calls[..k];
    } else {
      k := |calls| - 1;
      OnlyPrefetchCompletes(before, crc, calls[k]);
    }
    CompleteLonger(b, crc, calls, k);
  }

  lemma RunSnoc(b: BoardState, crc: Crc, calls: seq<Call>)
    ensures calls == [] ==> Run(b, crc, calls) == b
    ensures calls != [] ==> Run(b, crc, calls) == Step(Run(b, crc, calls[..|calls| - 1]), crc, calls[|calls| - 1])
  {
  }

  lemma {:induction false} RunKeepsInv(b: BoardState, crc: Crc, calls: seq<Call>)
    requires BoardInv(b, crc)
    ensures BoardInv(Run(b, crc, calls), crc)
  {
    if calls == [] {
    } else {
      RunKeepsInv(b, crc, calls[..|calls| - 1]);
      StepKeepsInv(Run(b, crc, calls[..|calls| - 1]), crc, calls[|calls| - 1]);
    }
  }

  /** PLAYING is never entered without a prefetch that completed since the
      board was last in PREFETCH. */
  lemma PlayingNeedsPrefetch(crc: Crc, calls: seq<Call>, i: nat)
    requires i <= |calls| && Run(POWER_ON, crc, calls[..i]).state == Prefetch
    requires Run(POWER_ON, crc, calls).state == Playing
    ensures exists k :: i <= k < |calls| && calls[k] == CompletePrefetch
                        && Run(POWER_ON, crc, calls[..k]).state == Prefetch
                        && forall m :: k < m <= |calls| ==>
                             Run(POWER_ON, crc, calls[..m]).state in {WaitTrigger, Playing}
  {
    hide BoardInv, Run, PlaybackOk;
    ReachableFlags(crc, calls);
    ReachableFlags(crc, calls[..i]);
    var k := PrefetchCompletes(POWER_ON, crc, calls, i);
    forall m | k < m <= |calls|
      ensures Run(POWER_ON, crc, calls[..m]).state in {WaitTrigger, Playing}
    {
      ReachableFlags(crc, calls[..m]);
    }
  }

  lemma ReachableFlags(crc: Crc, calls: seq<Call>)
    ensures var b := Run(POWER_ON, crc, calls);
            b.prefetchComplete <==> b.state in {WaitTrigger, Playing}
    ensures BoardInv(POWER_ON, crc)
  {
    hide Run, FragmentsOk, RangesOk;
    ReachableInv(crc, calls);
    StartIsOk(crc);
  }

  lemma StartIsOk(crc: Crc)
    ensures BoardInv(POWER_ON, crc)
  {
    ReachableInv(crc, []);
  }

  // ----- Wire form of replies -----

  lemma {:induction false} FragmentCountBound(fragments: map<int, Fragment>, n: nat)
    requires forall k :: 0 <= k < n ==> k in fragments && fragments[k].length >= BEAT_BYTES
    ensures n * BEAT_BYTES <= FragmentBytes(fragments, n)
  {
    if n == 0 {
    } else {
      FragmentCountBound(fragments, n - 1);
    }
  }

  predicate ReplyInRange(reply: Reply) {
    && OP_BEGIN <= reply.opcode <= OP_STATUS && reply.status < WORD16_RANGE
    && 0 <= reply.session < WORD_RANGE && reply.descriptor < WORD_RANGE
    && (reply.progress.Some? ==>
          var p := reply.progress.value;
          && (p.ack.Some? ==> p.ack.value < WORD_RANGE)
          && p.nextExpected < WORD_RANGE && p.receivedBytes < LONG_RANGE && 0 <= p.firstErrorOffset < LONG_RANGE)
  }

  lemma PacketCountInRange(b: BoardState, crc: Crc)
    requires BoardInv(b, crc)
    ensures b.nextPacket < WORD_RANGE && b.receivedBytes < LONG_RANGE
  {
    forall k | 0 <= k < b.nextPacket
      ensures k in b.fragments && b.fragments[k].length >= BEAT_BYTES
    {
      assert FragmentOk(b, crc, k);
    }
    FragmentCountBound(b.fragments, b.nextPacket);
  }

  /** The replies that report a board's own fields are in range. */
  lemma DataReplyInRange(b: BoardState, next: BoardState, crc: Crc, r: WaveRequest, payloadCrc: Option<int>)
    requires BoardInv(b, crc) && BoardInv(next, crc) && InRange(r) && r.Data?
    requires next == DataWaveform(b, crc, r.session, r.packetSeq, r.byteOffset, r.payload, payloadCrc).0
    ensures ReplyInRange(DataWaveform(b, crc, r.session, r.packetSeq, r.byteOffset, r.payload, payloadCrc).1)
  {
    hide SliceAssign, FragmentsOk, PlaybackOk;
    PacketCountInRange(b, crc);
    PacketCountInRange(next, crc);
  }

  /** Every reply to a request that could be packed can itself be packed, and
      carries that request's opcode. */
  lemma RepliesAreInRange(b: BoardState, crc: Crc, r: WaveRequest)
    requires BoardInv(b, crc) && InRange(r)
    ensures var (next, reply) := Receive(b, crc, r);
            BoardInv(next, crc) && ReplyInRange(reply) && reply.opcode == r.Opcode()
  {
    hide SliceAssign, FragmentsOk, PlaybackOk, DataWaveform, InRange;
    var payloadCrc := if r.Data? then Some(Crc32(crc, r.payload)) else None;
    StepKeepsInv(b, crc, Submit(r, payloadCrc));
    if r.Data? {
      DataReplyInRange(b, Receive(b, crc, r).0, crc, r, payloadCrc);
      DataReplyOpcode(b, crc, r, payloadCrc);
    } else {
      ControlReplyInRange(b, Receive(b, crc, r).0, crc, r);
    }
  }

  lemma DataReplyOpcode(b: BoardState, crc: Crc, r: WaveRequest, payloadCrc: Option<int>)
    requires r.Data?
    ensures DataWaveform(b, crc, r.session, r.packetSeq, r.byteOffset, r.payload, payloadCrc).1.opcode == OP_DATA
  {
    hide SliceAssign, DataInRange;
  }

  lemma RangesGiveWire(b: BoardState)
    requires RangesOk(b)
    ensures 0 <= b.session < WORD_RANGE && b.descriptor < WORD_RANGE
  {
  }

  /** A control reply reports the state after the call. */
  lemma ControlReplyShape(b: BoardState, crc: Crc, r: WaveRequest)
    requires InRange(r) && !r.Data?
    ensures var (next, reply) := Receive(b, crc, r);
            exists status: nat :: status < WORD16_RANGE && r.Opcode() >= 0
                                  && reply == Respond(next, r.Opcode(), status, None)
  {
    hide DataWaveform, BeginInRange, Cleared;
    var (next, reply) := Receive(b, crc, r);
    assert reply == Respond(next, r.Opcode(), reply.status, None);
  }

  lemma ControlReplyInRange(b: BoardState, next: BoardState, crc: Crc, r: WaveRequest)
    requires RangesOk(b) && RangesOk(next) && InRange(r) && !r.Data?
    requires next == Receive(b, crc, r).0
    ensures ReplyInRange(Receive(b, crc, r).1) && Receive(b, crc, r).1.opcode == r.Opcode()
  {
    hide DataWaveform, BeginInRange, RangesOk;
    ControlReplyShape(b, crc, r);
    RangesGiveWire(b);
    RangesGiveWire(next);
  }

  lemma ExtensionFits(reply: Reply, seq_: nat)
    requires ReplyInRange(reply)
    ensures Fits(ExtensionFormat(reply.opcode), WireReply(seq_, reply).extension)
  {
    PowerConstants();
  }

  lemma WireReplyEncodable(reply: Reply, seq_: nat)
    requires ReplyInRange(reply) && seq_ < WORD_RANGE
    ensures Encodable(WireReply(seq_, reply)) && WireReply(seq_, reply).version == WAVE_PROTOCOL_VERSION
  {
    ExtensionFits(reply, seq_);
  }
}
