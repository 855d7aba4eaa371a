/** When an upload succeeds: a network that loses and repeats packets, but answers every
    request before its retries run out, lets every upload through. */
module UploadSuccess {
  import opened Bytes
  import opened WaveProtocol
  import opened Board
  import opened BoardRuns
  import opened Transport
  import opened Upload
  import opened Exchange

  // ----- The board under in-order requests -----

  /** The board after BEGIN and the first k DATA packets, in order and without loss. */
  function BoardAfter(b: BoardState, crc: Crc, begin: WaveRequest, pieces: seq<seq<byte>>, k: nat): BoardState
    requires begin.Begin? && k <= |pieces|
  {
    if k == 0 then Receive(b, crc, begin).0
    else Receive(BoardAfter(b, crc, begin, pieces, k - 1), crc, PieceRequest(begin.session, pieces, k - 1)).0
  }

  /** The reply to DATA number k. */
  function DataReply(b: BoardState, crc: Crc, begin: WaveRequest, pieces: seq<seq<byte>>, k: nat): Reply
    requires begin.Begin? && k < |pieces|
  {
    Receive(BoardAfter(b, crc, begin, pieces, k), crc, PieceRequest(begin.session, pieces, k)).1
  }

  predicate PiecesInRange(begin: WaveRequest, pieces: seq<seq<byte>>)
    requires begin.Begin?
  {
    && InRange(begin) && |Concat(pieces)| == begin.totalBytes
    && forall i :: 0 <= i < |pieces| ==> InRange(PieceRequest(begin.session, pieces, i))
  }

  /** A repetition of the request would change nothing. */
  ghost predicate Steady(b: BoardState, crc: Crc, r: WaveRequest) {
    Receive(Receive(b, crc, r).0, crc, r).0 == Receive(b, crc, r).0
  }

  lemma BeginIsSteady(b: BoardState, crc: Crc, begin: WaveRequest)
    requires begin.Begin?
    ensures Steady(b, crc, begin) && (InRange(begin) ==> Receive(b, crc, begin).1.status == STATUS_OK)
  {
  }

  lemma {:induction false} InOrderDataIsAccepted(b: BoardState, crc: Crc, begin: WaveRequest, pieces: seq<seq<byte>>,
                                                 k: nat)
    requires BoardInv(b, crc) && begin.Begin? && PiecesInRange(begin, pieces) && k <= |pieces|
    ensures var next := BoardAfter(b, crc, begin, pieces, k);
            BoardInv(next, crc) && next.state == PlayState.Upload && Holds(next, begin, pieces[..k])
    ensures k > 0 ==> var before := BoardAfter(b, crc, begin, pieces, k - 1);
                      var r := PieceRequest(begin.session, pieces, k - 1);
                      Receive(before, crc, r).1.status == STATUS_OK && Steady(before, crc, r)
  {
    hide BoardInv;
    if k == 0 {
      StepKeepsInv(b, crc, Submit(begin, None));
      assert pieces[..0] == [];
    } else {
      InOrderDataIsAccepted(b, crc, begin, pieces, k - 1);
      var previous, data := BoardAfter(b, crc, begin, pieces, k - 1), PieceRequest(begin.session, pieces, k - 1);
      NextPieceIsAccepted(previous, crc, begin, pieces, k - 1);
      StepKeepsInv(previous, crc, Submit(data, Some(Crc32(crc, data.payload))));
    }
  }

  lemma NextPieceIsAccepted(b: BoardState, crc: Crc, begin: WaveRequest, pieces: seq<seq<byte>>, k: nat)
    requires BoardInv(b, crc) && begin.Begin? && |Concat(pieces)| == begin.totalBytes && k < |pieces|
    requires b.state == PlayState.Upload && Holds(b, begin, pieces[..k])
    requires InRange(PieceRequest(begin.session, pieces, k))
    ensures var (next, reply) := Receive(b, crc, PieceRequest(begin.session, pieces, k));
            reply.status == STATUS_OK && next.state == PlayState.Upload && Holds(next, begin, pieces[..k + 1])
    ensures Steady(b, crc, PieceRequest(begin.session, pieces, k))
  {
    hide SliceAssign, PlaybackOk, RangesOk;
    var data := PieceRequest(begin.session, pieces, k);
    var digest := Some(Crc32(crc, data.payload));
    DataOutcome(b, crc, data.session, data.packetSeq, data.byteOffset, data.payload, digest);
    assert pieces == pieces[..k + 1] + pieces[k + 1..] && pieces[..k + 1] == pieces[..k] + [pieces[k]];
    ConcatAppend(pieces[..k + 1], pieces[k + 1..]);
    ConcatSnoc(pieces[..k], pieces[k]);
    var next := Receive(b, crc, data).0;
    StepKeepsInv(b, crc, Submit(data, digest));
    DataOutcome(next, crc, data.session, data.packetSeq, data.byteOffset, data.payload, digest);
  }

  lemma CommitOfFullBuffer(b: BoardState, crc: Crc, begin: WaveRequest, pieces: seq<seq<byte>>)
    requires BoardInv(b, crc) && b.state == PlayState.Upload && |b.received| == b.totalBytes && Holds(b, begin, pieces)
    ensures var (next, reply) := CommitWaveform(b, b.session);
            && reply.status == STATUS_OK && next.state == Prefetch && next.descriptor == reply.descriptor != 0
            && Holds(next, begin, pieces)
    ensures Steady(b, crc, Command(OP_COMMIT, b.session))
  {
  }

  /** Without loss, every request of an upload is acknowledged, whatever the
      board held before, and COMMIT starts the prefetch of exactly the image. */
  lemma LossFreeUploadCommits(b: BoardState, crc: Crc, begin: WaveRequest, pieces: seq<seq<byte>>)
    requires BoardInv(b, crc) && begin.Begin? && PiecesInRange(begin, pieces)
    ensures Receive(b, crc, begin).1.status == STATUS_OK
    ensures forall k :: 0 <= k < |pieces| ==>
              DataReply(b, crc, begin, pieces, k).status == STATUS_OK
    ensures var full, commit := BoardAfter(b, crc, begin, pieces, |pieces|), Command(OP_COMMIT, begin.session);
            var (next, reply) := Receive(full, crc, commit);
            && reply.status == STATUS_OK && next.state == Prefetch && next.descriptor == reply.descriptor != 0
            && Holds(next, begin, pieces) && Steady(full, crc, commit)
  {
    hide BoardInv, DataWaveform;
    forall k | 0 <= k < |pieces|
      ensures DataReply(b, crc, begin, pieces, k).status == STATUS_OK
    {
      InOrderDataIsAccepted(b, crc, begin, pieces, k + 1);
    }
    InOrderDataIsAccepted(b, crc, begin, pieces, |pieces|);
    assert pieces[..|pieces|] == pieces;
    CommitOfFullBuffer(BoardAfter(b, crc, begin, pieces, |pieces|), crc, begin, pieces);
  }

  lemma PiecesGiveRequests(begin: WaveRequest, pieces: seq<seq<byte>>)
    requires begin.Begin? && PiecesInRange(begin, pieces)
    ensures AllInRange(UploadRequests(begin, pieces)) && |UploadRequests(begin, pieces)| == |pieces| + 2
    ensures |pieces| * BEAT_BYTES <= begin.totalBytes && |pieces| + 2 <= MAX_AGE && begin.session > 0
  {
    forall k | 0 <= k < |UploadRequests(begin, pieces)|
      ensures InRange(UploadRequests(begin, pieces)[k])
    {
      RequestAt(begin, pieces, k);
    }
    WholeBeats(begin, pieces, |pieces|);
    assert pieces[..|pieces|] == pieces;
  }

  lemma ImageInRange(begin: WaveRequest, pieces: seq<seq<byte>>)
    requires begin.Begin? && PiecesInRange(begin, pieces)
    ensures InRange(begin) && |Concat(pieces)| == begin.totalBytes
  {
  }

  lemma {:induction false} WholeBeats(begin: WaveRequest, pieces: seq<seq<byte>>, k: nat)
    requires begin.Begin? && PiecesInRange(begin, pieces) && k <= |pieces|
    ensures k * BEAT_BYTES <= |Concat(pieces[..k])|
  {
    if k == 0 {
    } else {
      WholeBeats(begin, pieces, k - 1);
      assert InRange(PieceRequest(begin.session, pieces, k - 1));
      assert pieces[..k] == pieces[..k - 1] + [pieces[k - 1]];
      ConcatSnoc(pieces[..k - 1], pieces[k - 1]);
    }
  }

  // ----- A network that answers in time -----

  /** The schedule serves request i at least once and then hands over its first
      reply; until then it may repeat the request, bring datagrams of other hosts,
      and let up to `timeouts` receives time out. Returns the rest of the schedule
      and the number of events by then. */
  function Deliver(s: seq<NetAction>, i: nat, first: nat, events: nat, timeouts: nat): Option<(seq<NetAction>, nat)>
    decreases |s|
  {
    if s == [] then None
    else
      match s[0]
      case ToBoard(x) => if x == i then Deliver(s[1..], i, first, events + 1, timeouts) else None
      case ToHost(x) => if x == first < events then Some((s[1..], events)) else None
      case Silence => if timeouts > 0 then Deliver(s[1..], i, first, events, timeouts - 1) else None
      case Foreign(_, _, _) => Deliver(s[1..], i, first, events, timeouts)
      case _ => None
  }

  /** The schedule answers k requests in turn, the first of them request i. */
  function PlanRest(s: seq<NetAction>, i: nat, events: nat, k: nat, retries: nat): Option<(seq<NetAction>, nat)> {
    if k == 0 then Some((s, events))
    else
      match PlanRest(s, i, events, k - 1, retries)
      case None => None
      case Some((rest, e)) => Deliver(rest, i + k - 1, e, e, retries)
  }

  /** Every one of the next k requests is answered before its retries run out. */
  predicate AnswersInTime(n: Net, k: nat, retries: nat) {
    PlanRest(n.schedule, |n.world.issued|, |n.world.history|, k, retries).Some?
  }

  /** Only repetitions of the newest request r have reached the board since w0. */
  ghost predicate Since(w: World, w0: World, crc: Crc, r: WaveRequest) {
    && |w0.issued| > 0 && w.issued == w0.issued && w.others == w0.others && w0.history <= w.history
    && var (next, reply) := Receive(w0.board, crc, r);
       if |w.history| == |w0.history| then w.board == w0.board
       else w.board == next && w.history[|w0.history|] == Event(|w0.issued| - 1, w0.board, next, reply)
  }

  lemma RequestsStep(n: Net, crc: Crc, near: bool, seq_: nat, opcode: int, attempts: nat)
    requires attempts > 0 && n.schedule != []
    ensures var a, next := n.schedule[0], Net(NetStep(n.world, crc, n.schedule[0]), n.schedule[1..]);
            && (a.ToHost? && near && Accepts(ReplyAt(next.world, a.j), seq_, opcode) ==>
                  Requests(n, crc, near, seq_, opcode, attempts) == (Ok(ReplyAt(next.world, a.j).value), next))
            && (a.Silence? && attempts > 1 ==>
                  Requests(n, crc, near, seq_, opcode, attempts)
                  == Requests(next, crc, near, seq_, opcode, attempts - 1))
            && (a.ToBoard? || a.FromOther? || a.Foreign? ==>
                  Requests(n, crc, near, seq_, opcode, attempts) == Requests(next, crc, near, seq_, opcode, attempts))
  {
    hide NetStep, ReplyAt, Receives;
    ReceivesStep(n, crc, near, seq_, opcode);
  }

  lemma StepSince(w: World, w0: World, crc: Crc, r: WaveRequest, number: nat, a: NetAction)
    requires Since(w, w0, crc, r) && Steady(w0.board, crc, r) && w0.issued[|w0.issued| - 1] == Wave(r, number)
    requires a.ToBoard? ==> a.i == |w0.issued| - 1
    requires a.ToBoard? || a.ToHost? || a.Silence? || a.Foreign?
    ensures Since(NetStep(w, crc, a), w0, crc, r)
    ensures |NetStep(w, crc, a).history| == |w.history| + if a.ToBoard? then 1 else 0
  {
    hide Receive;
  }

  /** Such a schedule lets the request return its own first reply. */
  lemma {:induction false} DeliverAnswers(n: Net, w0: World, crc: Crc, r: WaveRequest, number: nat, timeouts: nat)
    requires Since(n.world, w0, crc, r) && Steady(w0.board, crc, r) && w0.issued[|w0.issued| - 1] == Wave(r, number)
    requires Receive(w0.board, crc, r).1.opcode == r.Opcode()
    requires Deliver(n.schedule, |w0.issued| - 1, |w0.history|, |n.world.history|, timeouts).Some?
    ensures var (rest, events) := Deliver(n.schedule, |w0.issued| - 1, |w0.history|, |n.world.history|, timeouts).value;
            var (answer, m) := Requests(n, crc, true, number, r.Opcode(), timeouts + 1);
            && answer == Ok(WireReply(number, Receive(w0.board, crc, r).1))
            && m.schedule == rest && |m.world.history| == events > |w0.history| && Since(m.world, w0, crc, r)
    decreases |n.schedule|
  {
    hide Receive, NetStep, Requests, Steady, Since;
    var a, next := n.schedule[0], Net(NetStep(n.world, crc, n.schedule[0]), n.schedule[1..]);
    RequestsStep(n, crc, true, number, r.Opcode(), timeouts + 1);
    StepSince(n.world, w0, crc, r, number, a);
    match a
    case ToHost(x) => FirstReply(next.world, w0, crc, r, number);
    case Silence => DeliverAnswers(next, w0, crc, r, number, timeouts - 1);
    case ToBoard(_) => DeliverAnswers(next, w0, crc, r, number, timeouts);
    case Foreign(_, _, _) => DeliverAnswers(next, w0, crc, r, number, timeouts);
    case _ =>
  }

  lemma FirstReply(w: World, w0: World, crc: Crc, r: WaveRequest, number: nat)
    requires Since(w, w0, crc, r) && |w.history| > |w0.history| && w0.issued[|w0.issued| - 1] == Wave(r, number)
    requires Receive(w0.board, crc, r).1.opcode == r.Opcode()
    ensures ReplyAt(w, |w0.history|) == Some(WireReply(number, Receive(w0.board, crc, r).1))
    ensures Accepts(ReplyAt(w, |w0.history|), number, r.Opcode())
  {
    hide Receive;
  }

  /** One request answered in time. */
  lemma SendDelivered(n: Net, link: Link, r: WaveRequest, number: nat)
    requires link.near && BoardInv(n.world.board, link.crc) && InRange(r) && Steady(n.world.board, link.crc, r)
    requires Receive(n.world.board, link.crc, r).1.status == STATUS_OK
    requires Deliver(n.schedule, |n.world.issued|, |n.world.history|, |n.world.history|, link.retries).Some?
    ensures var (rest, events) :=
              Deliver(n.schedule, |n.world.issued|, |n.world.history|, |n.world.history|, link.retries).value;
            var (next, reply) := Receive(n.world.board, link.crc, r);
            var outcome := Send(n, link, r, number);
            && outcome.Answered? && outcome.reply == Some(WireReply(number, reply))
            && outcome.net.schedule == rest && |outcome.net.world.history| == events
            && outcome.net.world.board == next && |outcome.net.world.issued| == |n.world.issued| + 1
  {
    hide BoardInv, Receive, InRange, Deliver, Requests, Steady;
    RepliesAreInRange(n.world.board, link.crc, r);
    var start := Sent(n, r, number);
    DeliverAnswers(start, start.world, link.crc, r, number, link.retries);
  }

  ghost predicate BoardAt(b: BoardState, b0: BoardState, crc: Crc, begin: WaveRequest, pieces: seq<seq<byte>>, k: nat)
    requires begin.Begin? && k <= |pieces| + 2
  {
    if k == 0 then b == b0
    else if k <= |pieces| + 1 then b == BoardAfter(b0, crc, begin, pieces, k - 1)
    else b == Receive(BoardAfter(b0, crc, begin, pieces, |pieces|), crc, Command(OP_COMMIT, begin.session)).0
  }

  /** The next request of an upload is in range, steady, and acknowledged. */
  lemma NextIsAccepted(b0: BoardState, crc: Crc, begin: WaveRequest, pieces: seq<seq<byte>>, k: nat, b: BoardState)
    requires BoardInv(b0, crc) && begin.Begin? && PiecesInRange(begin, pieces) && k < |pieces| + 2
    requires BoardAt(b, b0, crc, begin, pieces, k)
    ensures var r := UploadRequests(begin, pieces)[k];
            && InRange(r) && Steady(b, crc, r) && Receive(b, crc, r).1.status == STATUS_OK && BoardInv(b, crc)
            && BoardAt(Receive(b, crc, r).0, b0, crc, begin, pieces, k + 1)
  {
    hide BoardInv, Receive, Steady, UploadRequests, InRange, Concat;
    RequestAt(begin, pieces, k);
    CommitInRange(begin);
    if k == 0 {
      BeginIsSteady(b0, crc, begin);
    } else {
      InOrderDataIsAccepted(b0, crc, begin, pieces, k - 1);
      if k <= |pieces| {
        InOrderDataIsAccepted(b0, crc, begin, pieces, k);
      } else {
        LossFreeUploadCommits(b0, crc, begin, pieces);
      }
    }
  }

  lemma CommitInRange(begin: WaveRequest)
    requires begin.Begin? && InRange(begin)
    ensures InRange(Command(OP_COMMIT, begin.session))
  {
  }

  /** Through such a network the first k requests of an upload are all answered with OK. */
  lemma {:induction false} UploadAdvances(n: Net, link: Link, begin: WaveRequest, pieces: seq<seq<byte>>, number: nat,
                                          k: nat)
    requires link.near && BoardInv(n.world.board, link.crc) && begin.Begin? && PiecesInRange(begin, pieces)
    requires k <= |pieces| + 2 && AnswersInTime(n, k, link.retries)
    ensures |UploadRequests(begin, pieces)| == |pieces| + 2
    ensures var outcome := Exchanges(n, link, UploadRequests(begin, pieces)[..k], number);
            var (rest, events) := PlanRest(n.schedule, |n.world.issued|, |n.world.history|, k, link.retries).value;
            && outcome.Answered? && outcome.net.schedule == rest && |outcome.net.world.history| == events
            && |outcome.net.world.issued| == |n.world.issued| + k
            && BoardAt(outcome.net.world.board, n.world.board, link.crc, begin, pieces, k)
    ensures k > 0 ==> var outcome := Exchanges(n, link, UploadRequests(begin, pieces)[..k], number);
                      var before := Exchanges(n, link, UploadRequests(begin, pieces)[..k - 1], number);
                      var r, last := UploadRequests(begin, pieces)[k - 1], SequenceAt(number, k - 1);
                      outcome.reply == Some(WireReply(last, Receive(before.net.world.board, link.crc, r).1))
  {
    hide BoardInv, Receive, Steady, BoardAt, UploadRequests, InRange, PiecesInRange, Deliver, Send, WireReply;
    RequestAt(begin, pieces, if k == 0 then 0 else k - 1);
    if k == 0 {
      assert UploadRequests(begin, pieces)[..0] == [];
      AtStart(n.world.board, link.crc, begin, pieces);
    } else {
      UploadAdvances(n, link, begin, pieces, number, k - 1);
      var requests := UploadRequests(begin, pieces);
      var before := Exchanges(n, link, requests[..k - 1], number).net;
      NextIsAccepted(n.world.board, link.crc, begin, pieces, k - 1, before.world.board);
      SendDelivered(before, link, requests[k - 1], SequenceAt(number, k - 1));
      ExchangesSnoc(n, link, requests[..k - 1], requests[k - 1], number);
    }
  }

  lemma AtStart(b: BoardState, crc: Crc, begin: WaveRequest, pieces: seq<seq<byte>>)
    requires begin.Begin?
    ensures BoardAt(b, b, crc, begin, pieces, 0)
  {
  }

  /** If every request is answered before its retries run out, the upload returns
      normally and the board prefetches exactly the image under the descriptor it returns. */
  lemma UploadSucceeds(n: Net, link: Link, begin: WaveRequest, pieces: seq<seq<byte>>, number: nat)
    requires link.near && BoardInv(n.world.board, link.crc) && begin.Begin? && PiecesInRange(begin, pieces)
    requires AnswersInTime(n, |pieces| + 2, link.retries)
    ensures var outcome := Exchanges(n, link, UploadRequests(begin, pieces), number);
            && outcome.Answered? && outcome.reply.Some?
            && var b := outcome.net.world.board;
               && b.state == Prefetch && Holds(b, begin, pieces)
               && b.descriptor == outcome.reply.value.descriptor != 0
  {
    hide BoardInv, Receive, Steady, InRange, Deliver, Send, UploadRequests, PiecesInRange;
    UploadAdvances(n, link, begin, pieces, number, |pieces| + 2);
    UploadAdvances(n, link, begin, pieces, number, |pieces| + 1);
    RequestAt(begin, pieces, |pieces| + 1);
    var requests := UploadRequests(begin, pieces);
    assert requests[..|pieces| + 2] == requests;
    LossFreeUploadCommits(n.world.board, link.crc, begin, pieces);
  }
}
