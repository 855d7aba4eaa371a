/** The UDP transport (software/dr47/transport.py) between a driver and a board.

    The network is adversarial: it may serve any request to the board, and hand
    any reply of the board to the host, in any order and any number of times.
    Whatever it does not do is a loss. Its only limit is a datagram's age: it has
    forgotten a request, and the replies to it, once MAX_AGE later uses of the
    driver's sequence counter have happened.

    Requests of other driver objects, earlier or concurrent ones with sockets of
    their own, may reach the board at any time; their replies go to those sockets. */
module Transport {
  import opened Bytes
  import opened WaveProtocol
  import opened Board
  import opened BoardRuns
  import WaveWire

  /** One use of the driver's sequence counter: a waveform request, or a
      control-plane request or refused packet that the board never sees here. */
  datatype Issued = Wave(request: WaveRequest, seq_: nat) | Other(seq_: nat)

  /** The board served request `index`. */
  datatype Event = Event(index: nat, before: BoardState, after: BoardState, reply: Reply)

  /** `issued` and `history` belong to one socket; `others` are the requests of other driver objects. */
  datatype World = World(board: BoardState, issued: seq<Issued>, history: seq<Event>, others: seq<WaveRequest>)

  datatype NetAction =
    | ToBoard(i: nat)                                    // request i reaches the board
    | ToHost(j: nat)                                     // the reply of event j reaches the host
    | FromOther(k: nat)                                  // request k of another driver object reaches the board
    | PrefetchDone
    | ExternalTrigger
    | Foreign(ip: string, port: int, raw: seq<byte>)     // another host's datagram
    | ControlPlane(raw: seq<byte>)                       // a datagram of the board's other protocol
    | Silence                                            // the receive times out

  const MAX_AGE: nat := WORD_RANGE - 1

  predicate Deliverable(w: World, i: nat) {
    i < |w.issued| && |w.issued| - i <= MAX_AGE
  }

  function NetStep(w: World, crc: Crc, a: NetAction): World {
    match a
    case ToBoard(i) =>
      if Deliverable(w, i) && w.issued[i].Wave? then
        var (after, reply) := Receive(w.board, crc, w.issued[i].request);
        w.(board := after, history := w.history + [Event(i, w.board, after, reply)])
      else w
    case FromOther(k) =>
      if k < |w.others| then w.(board := Receive(w.board, crc, w.others[k]).0) else w
    case PrefetchDone => w.(board := PrefetchCompleted(w.board))
    case ExternalTrigger => w.(board := Triggered(w.board))
    case _ => w
  }

  function NetRun(w: World, crc: Crc, actions: seq<NetAction>): World {
    if actions == [] then w
    else NetStep(NetRun(w, crc, actions[..|actions| - 1]), crc, actions[|actions| - 1])
  }

  // ----- What every run of the network keeps -----

  ghost predicate EventOk(w: World, crc: Crc, j: nat)
    requires j < |w.history|
  {
    var e := w.history[j];
    && e.index < |w.issued| && w.issued[e.index].Wave?
    && BoardInv(e.before, crc)
    && Receive(e.before, crc, w.issued[e.index].request) == (e.after, e.reply)
  }

  ghost predicate WorldOk(w: World, crc: Crc) {
    && BoardInv(w.board, crc)
    && (forall i :: 0 <= i < |w.issued| ==>
          w.issued[i].seq_ < WORD_RANGE && (w.issued[i].Wave? ==> InRange(w.issued[i].request)))
    && (forall j :: 0 <= j < |w.history| ==> EventOk(w, crc, j))
  }

  lemma NetStepKeepsWorldOk(w: World, crc: Crc, a: NetAction)
    requires WorldOk(w, crc)
    ensures WorldOk(NetStep(w, crc, a), crc)
    ensures NetStep(w, crc, a).issued == w.issued && w.history <= NetStep(w, crc, a).history
    ensures NetStep(w, crc, a).others == w.others
  {
    hide Receive, BoardInv;
    var next := NetStep(w, crc, a);
    if a.FromOther? && a.k < |w.others| {
      ReceiveKeepsInv(w.board, crc, w.others[a.k]);
    }
    if a.ToBoard? && next.history != w.history {
      RepliesAreInRange(w.board, crc, w.issued[a.i].request);
    }
    StepKeepsInv(w.board, crc, CompletePrefetch);
    StepKeepsInv(w.board, crc, TriggerEvent);
    forall j | 0 <= j < |next.history|
      ensures EventOk(next, crc, j)
    {
      if j < |w.history| {
        assert EventOk(w, crc, j);
      }
    }
  }

  lemma ReceiveKeepsInv(b: BoardState, crc: Crc, r: WaveRequest)
    requires BoardInv(b, crc)
    ensures BoardInv(Receive(b, crc, r).0, crc)
  {
    hide BoardInv, Handle;
    StepKeepsInv(b, crc, Submit(r, if r.Data? then Some(Crc32(crc, r.payload)) else None));
  }

  lemma {:induction false} NetRunKeepsWorldOk(w: World, crc: Crc, actions: seq<NetAction>)
    requires WorldOk(w, crc)
    ensures WorldOk(NetRun(w, crc, actions), crc)
    ensures NetRun(w, crc, actions).issued == w.issued && w.history <= NetRun(w, crc, actions).history
    ensures NetRun(w, crc, actions).others == w.others
  {
    if actions == [] {
    } else {
      NetRunKeepsWorldOk(w, crc, actions[..|actions| - 1]);
      NetStepKeepsWorldOk(NetRun(w, crc, actions[..|actions| - 1]), crc, actions[|actions| - 1]);
    }
  }

  /** The network's schedule moved from s0 to s1, taking the world from w0 to w1. */
  ghost predicate Moved(w0: World, s0: seq<NetAction>, w1: World, s1: seq<NetAction>, crc: Crc) {
    && |s1| <= |s0|
    && s1 == s0[|s0| - |s1|..]
    && w1 == NetRun(w0, crc, s0[..|s0| - |s1|])
  }

  lemma MovedStep(w0: World, s0: seq<NetAction>, w1: World, s1: seq<NetAction>, crc: Crc)
    requires Moved(w0, s0, w1, s1, crc) && s1 != []
    ensures Moved(w0, s0, NetStep(w1, crc, s1[0]), s1[1..], crc)
  {
    var k := |s0| - |s1|;
    assert s0[..k + 1][..k] == s0[..k];
  }

  lemma {:induction false} NetRunAppend(w: World, crc: Crc, a: seq<NetAction>, b: seq<NetAction>)
    ensures NetRun(w, crc, a + b) == NetRun(NetRun(w, crc, a), crc, b)
  {
    if b == [] {
      assert a + b == a;
    } else {
      assert (a + b)[..|a + b| - 1] == a + b[..|b| - 1];
      NetRunAppend(w, crc, a, b[..|b| - 1]);
    }
  }

  lemma MovedNowhere(w: World, s: seq<NetAction>, crc: Crc)
    ensures Moved(w, s, w, s, crc)
  {
  }

  lemma PackedIsInRange(r: WaveRequest, seq_: int, crc: Crc)
    requires PackRequest(r, seq_, crc).Ok?
    ensures InRange(r) && 0 <= seq_ < WORD_RANGE
  {
  }

  lemma MovedTransitive(w0: World, s0: seq<NetAction>, w1: World, s1: seq<NetAction>, w2: World, s2: seq<NetAction>,
                        crc: Crc)
    requires Moved(w0, s0, w1, s1, crc) && Moved(w1, s1, w2, s2, crc)
    ensures Moved(w0, s0, w2, s2, crc)
  {
    var first, second := s0[..|s0| - |s1|], s1[..|s1| - |s2|];
    assert s0[..|s0| - |s2|] == first + second;
    NetRunAppend(w0, crc, first, second);
  }

  lemma IssueKeepsWorldOk(w: World, crc: Crc, item: Issued)
    requires WorldOk(w, crc) && item.seq_ < WORD_RANGE && (item.Wave? ==> InRange(item.request))
    ensures WorldOk(w.(issued := w.issued + [item]), crc)
  {
    hide Receive, BoardInv, InRange;
    var next := w.(issued := w.issued + [item]);
    forall j | 0 <= j < |next.history|
      ensures EventOk(next, crc, j)
    {
      assert EventOk(w, crc, j);
    }
  }

  /** The bytes of the board's reply to event j. */
  function Datagram(w: World, j: nat): seq<byte>
    requires j < |w.history| && w.history[j].index < |w.issued|
    requires Encodable(WireReply(w.issued[w.history[j].index].seq_, w.history[j].reply))
  {
    EncodeResponse(WireReply(w.issued[w.history[j].index].seq_, w.history[j].reply))
  }

  /** Reply j arrives with the sequence number and opcode of the request it answers. */
  lemma DatagramParses(w: World, crc: Crc, j: nat)
    requires WorldOk(w, crc) && j < |w.history|
    ensures EventOk(w, crc, j)
    ensures var e := w.history[j];
            var reply := WireReply(w.issued[e.index].seq_, e.reply);
            && Encodable(reply) && ParseWaveResponse(Datagram(w, j), true) == Ok(reply)
            && reply.opcode == w.issued[e.index].request.Opcode()
  {
    hide Receive, BoardInv, EncodeResponse, ParseWaveResponse;
    var e := w.history[j];
    assert EventOk(w, crc, j);
    RepliesAreInRange(e.before, crc, w.issued[e.index].request);
    WireReplyEncodable(e.reply, w.issued[e.index].seq_);
    ParseInvertsEncode(WireReply(w.issued[e.index].seq_, e.reply));
  }

  /** What the board's reply to a request says, byte by byte. */
  predicate ReplyCarries(raw: seq<byte>, seq_: nat, reply: Reply) {
    && |raw| == (if reply.opcode == 2 then 88 else if reply.opcode == 8 then 104 else 56)
    && UintAt(raw, 8, 2) == 1
    && UintAt(raw, 10, 2) == UintAt(raw, 32, 4) == reply.status
    && UintAt(raw, 12, 4) == reply.opcode
    && UintAt(raw, 16, 4) == seq_
    && UintAt(raw, 24, 4) == reply.session
    && WaveWire.StateOnWire(UintAt(raw, 28, 4), reply.state)
    && UintAt(raw, 36, 4) == 0
    && UintAt(raw, 40, 4) == reply.descriptor
    && UintAt(raw, 44, 8) == 0
    && (reply.opcode == 2 && reply.progress.Some? ==>
          var p := reply.progress.value;
          && UintAt(raw, 52, 4) == (if p.ack.Some? then p.ack.value else 0)
          && UintAt(raw, 56, 4) == p.nextExpected
          && UintAt(raw, 60, 8) == p.receivedBytes
          && UintAt(raw, 68, 8) == p.firstErrorOffset)
  }

  lemma ReplyOnWire(reply: Reply, seq_: nat)
    requires ReplyInRange(reply) && seq_ < WORD_RANGE
    ensures Encodable(WireReply(seq_, reply)) && ReplyCarries(EncodeResponse(WireReply(seq_, reply)), seq_, reply)
  {
    hide EncodeResponse, ParseWaveResponse, UintAt, Encodable, Fits;
    WireReplyEncodable(reply, seq_);
    var response := WireReply(seq_, reply);
    ParseInvertsEncode(response);
    WaveWire.ReplyLayout(EncodeResponse(response), true);
  }

  /** Every datagram the board sends carries its reply and the request's number. */
  lemma DatagramCarries(w: World, crc: Crc, j: nat)
    requires WorldOk(w, crc) && j < |w.history|
    ensures EventOk(w, crc, j)
    ensures var e := w.history[j];
            Encodable(WireReply(w.issued[e.index].seq_, e.reply))
            && ReplyCarries(Datagram(w, j), w.issued[e.index].seq_, e.reply)
            && e.reply.opcode == w.issued[e.index].request.Opcode()
  {
    hide Receive, BoardInv, EncodeResponse, ReplyCarries;
    var e := w.history[j];
    assert EventOk(w, crc, j);
    RepliesAreInRange(e.before, crc, w.issued[e.index].request);
    ReplyOnWire(e.reply, w.issued[e.index].seq_);
  }

  // ----- One request and its answer -----

  datatype TransportError = TransportClosed | TransportTimeout | BadDatagram(error: ParseError)

  predicate SourceMatches(ip: string, port: int, fromIp: string, fromPort: int) {
    fromPort == port && (ip == "255.255.255.255" || ip == "169.254.255.255" || fromIp == ip)
  }

  /** A unicast receiver takes its board's datagrams only; a broadcast one takes
      those of any host, and both only from the board's port. */
  lemma SourcesTaken(ip: string, port: int, fromIp: string, fromPort: int)
    ensures SourceMatches(ip, port, ip, port)
    ensures SourceMatches(ip, port, fromIp, fromPort) ==> fromPort == port
    ensures ip !in {"255.255.255.255", "169.254.255.255"} && SourceMatches(ip, port, fromIp, fromPort) ==> fromIp == ip
    ensures ip in {"255.255.255.255", "169.254.255.255"} ==> SourceMatches(ip, port, fromIp, port)
  {
  }

  /** The response answers event j, and matches what the receiver waits for. */
  ghost predicate Answers(w: World, j: nat, response: Response, seq_: nat, opcode: int) {
    && j < |w.history| && w.history[j].index < |w.issued|
    && Deliverable(w, w.history[j].index)
    && response == WireReply(w.issued[w.history[j].index].seq_, w.history[j].reply)
    && response.seq_ == seq_ && response.opcode == opcode
  }

  /** A world and what the network will do next. */
  datatype Net = Net(world: World, schedule: seq<NetAction>)

  type Received = Result<Response, TransportError>

  /** The reply of event j, if it still exists. */
  function ReplyAt(w: World, j: nat): Option<Response> {
    if j < |w.history| && Deliverable(w, w.history[j].index) then
      Some(WireReply(w.issued[w.history[j].index].seq_, w.history[j].reply))
    else None
  }

  predicate Accepts(reply: Option<Response>, seq_: nat, opcode: int) {
    reply.Some? && reply.value.seq_ == seq_ && reply.value.opcode == opcode
  }

  /** What a receive returns, and where it leaves the network; `near` says that
      the board's address is the one the socket accepts. */
  function Receives(n: Net, crc: Crc, near: bool, seq_: nat, opcode: int): (Received, Net)
    decreases |n.schedule|
  {
    if n.schedule == [] then (Err(TransportTimeout), n)
    else
      var a, next := n.schedule[0], Net(NetStep(n.world, crc, n.schedule[0]), n.schedule[1..]);
      match a
      case ToHost(j) =>
        var reply := ReplyAt(next.world, j);
        if near && Accepts(reply, seq_, opcode) then (Ok(reply.value), next)
        else Receives(next, crc, near, seq_, opcode)
      case ControlPlane(raw) =>
        var parsed := ParseWaveResponse(raw, true);
        if near && parsed.Err? then (Err(BadDatagram(parsed.error)), next)
        else Receives(next, crc, near, seq_, opcode)
      case Silence => (Err(TransportTimeout), next)
      case _ => Receives(next, crc, near, seq_, opcode)
  }

  /** One network action of a receive. */
  lemma ReceivesStep(n: Net, crc: Crc, near: bool, seq_: nat, opcode: int)
    requires n.schedule != []
    ensures var a, next := n.schedule[0], Net(NetStep(n.world, crc, n.schedule[0]), n.schedule[1..]);
            Receives(n, crc, near, seq_, opcode) ==
            if a.ToHost? && near && Accepts(ReplyAt(next.world, a.j), seq_, opcode) then
              (Ok(ReplyAt(next.world, a.j).value), next)
            else if a.ControlPlane? && near && ParseWaveResponse(a.raw, true).Err? then
              (Err(BadDatagram(ParseWaveResponse(a.raw, true).error)), next)
            else if a.Silence? then (Err(TransportTimeout), next)
            else Receives(next, crc, near, seq_, opcode)
  {
    hide NetStep, ParseWaveResponse, WireReply;
  }

  lemma ReceivesNothing(n: Net, crc: Crc, near: bool, seq_: nat, opcode: int)
    requires n.schedule == []
    ensures Receives(n, crc, near, seq_, opcode) == (Err(TransportTimeout), n)
  {
  }

  /** Receive again after each timeout, at most `attempts` times in all. */
  function Requests(n: Net, crc: Crc, near: bool, seq_: nat, opcode: int, attempts: nat): (Received, Net)
    requires attempts > 0
    decreases attempts
  {
    var (r, next) := Receives(n, crc, near, seq_, opcode);
    if r == Err(TransportTimeout) && attempts > 1 then Requests(next, crc, near, seq_, opcode, attempts - 1)
    else (r, next)
  }

  /** How many packets that sends: one before each receive. */
  function Sends(n: Net, crc: Crc, near: bool, seq_: nat, opcode: int, attempts: nat): (count: nat)
    requires attempts > 0
    ensures 1 <= count <= attempts
    decreases attempts
  {
    var (r, next) := Receives(n, crc, near, seq_, opcode);
    1 + if r == Err(TransportTimeout) && attempts > 1 then Sends(next, crc, near, seq_, opcode, attempts - 1) else 0
  }

  lemma RequestsOnce(n: Net, crc: Crc, near: bool, seq_: nat, opcode: int, attempts: nat)
    requires attempts > 0
    ensures var (r, next) := Receives(n, crc, near, seq_, opcode);
            Requests(n, crc, near, seq_, opcode, attempts) ==
            if r == Err(TransportTimeout) && attempts > 1 then Requests(next, crc, near, seq_, opcode, attempts - 1)
            else (r, next)
    ensures var (r, next) := Receives(n, crc, near, seq_, opcode);
            Sends(n, crc, near, seq_, opcode, attempts) ==
            if r == Err(TransportTimeout) && attempts > 1 then
              1 + Sends(next, crc, near, seq_, opcode, attempts - 1)
            else 1
  {
  }

  /** After `attempt` of the attempts timed out, the rest of them is still to come. */
  ghost predicate Trying(start: Net, now: Net, crc: Crc, near: bool, seq_: nat, opcode: int, attempts: nat,
                         attempt: nat)
    requires attempt <= attempts && attempts > 0
  {
    if attempt < attempts then
      && Requests(now, crc, near, seq_, opcode, attempts - attempt)
         == Requests(start, crc, near, seq_, opcode, attempts)
      && attempt + Sends(now, crc, near, seq_, opcode, attempts - attempt)
         == Sends(start, crc, near, seq_, opcode, attempts)
    else
      && Requests(start, crc, near, seq_, opcode, attempts) == (Err(TransportTimeout), now)
      && Sends(start, crc, near, seq_, opcode, attempts) == attempts
  }

  lemma TryStep(start: Net, now: Net, crc: Crc, near: bool, seq_: nat, opcode: int, attempts: nat, attempt: nat)
    requires attempt < attempts && Trying(start, now, crc, near, seq_, opcode, attempts, attempt)
    ensures var (r, next) := Receives(now, crc, near, seq_, opcode);
            if r == Err(TransportTimeout) then Trying(start, next, crc, near, seq_, opcode, attempts, attempt + 1)
            else && Requests(start, crc, near, seq_, opcode, attempts) == (r, next)
                 && Sends(start, crc, near, seq_, opcode, attempts) == attempt + 1
  {
    hide Receives, Requests, Sends;
    RequestsOnce(now, crc, near, seq_, opcode, attempts - attempt);
  }

  lemma TryStart(start: Net, crc: Crc, near: bool, seq_: nat, opcode: int, attempts: nat)
    requires attempts > 0
    ensures Trying(start, start, crc, near, seq_, opcode, attempts, 0)
  {
  }

  lemma TriedAll(start: Net, now: Net, crc: Crc, near: bool, seq_: nat, opcode: int, attempts: nat)
    requires attempts > 0 && Trying(start, now, crc, near, seq_, opcode, attempts, attempts)
    ensures Requests(start, crc, near, seq_, opcode, attempts) == (Err(TransportTimeout), now)
    ensures Sends(start, crc, near, seq_, opcode, attempts) == attempts
  {
  }

  /** The packet was sent `count` times. */
  ghost predicate SentAgain(before: seq<seq<byte>>, after: seq<seq<byte>>, packet: seq<byte>, count: nat) {
    after == before + seq(count, _ => packet)
  }

  lemma NotSentYet(sent: seq<seq<byte>>, packet: seq<byte>)
    ensures SentAgain(sent, sent, packet, 0)
  {
  }

  lemma SendAgain(before: seq<seq<byte>>, after: seq<seq<byte>>, packet: seq<byte>, count: nat)
    requires SentAgain(before, after, packet, count)
    ensures SentAgain(before, after + [packet], packet, count + 1)
  {
    assert seq(count + 1, _ => packet) == seq(count, _ => packet) + [packet];
  }

  lemma SentAre(before: seq<seq<byte>>, after: seq<seq<byte>>, packet: seq<byte>, count: nat)
    requires SentAgain(before, after, packet, count)
    ensures |after| == |before| + count && before <= after
    ensures forall k :: |before| <= k < |after| ==> after[k] == packet
  {
  }

  /** The network moved on from n to m. */
  ghost predicate Moves(n: Net, m: Net, crc: Crc) {
    Moved(n.world, n.schedule, m.world, m.schedule, crc)
  }

  /** A receive only moves the network, and returns a reply that matches. */
  lemma {:induction false} ReceivesMoves(n: Net, crc: Crc, near: bool, seq_: nat, opcode: int)
    ensures var (r, m) := Receives(n, crc, near, seq_, opcode);
            Moves(n, m, crc) && (r.Ok? ==> near && exists j: nat :: Answers(m.world, j, r.value, seq_, opcode))
    decreases |n.schedule|
  {
    hide NetStep, Moved, ParseWaveResponse, WireReply;
    MovedNowhere(n.world, n.schedule, crc);
    if n.schedule != [] {
      var a, next := n.schedule[0], Net(NetStep(n.world, crc, n.schedule[0]), n.schedule[1..]);
      MovedStep(n.world, n.schedule, n.world, n.schedule, crc);
      ReceivesMoves(next, crc, near, seq_, opcode);
      var (_, m) := Receives(next, crc, near, seq_, opcode);
      MovedTransitive(n.world, n.schedule, next.world, next.schedule, m.world, m.schedule, crc);
      if a.ToHost? && near && Accepts(ReplyAt(next.world, a.j), seq_, opcode) {
        assert Answers(next.world, a.j, ReplyAt(next.world, a.j).value, seq_, opcode);
      }
    }
  }

  lemma {:induction false} RequestsMoves(n: Net, crc: Crc, near: bool, seq_: nat, opcode: int, attempts: nat)
    requires attempts > 0
    ensures var (r, m) := Requests(n, crc, near, seq_, opcode, attempts);
            Moves(n, m, crc) && (r.Ok? ==> exists j: nat :: Answers(m.world, j, r.value, seq_, opcode))
    decreases attempts
  {
    hide Moved, Receives, Answers;
    var (r, next) := Receives(n, crc, near, seq_, opcode);
    ReceivesMoves(n, crc, near, seq_, opcode);
    if r == Err(TransportTimeout) && attempts > 1 {
      RequestsMoves(next, crc, near, seq_, opcode, attempts - 1);
      var (_, m) := Requests(next, crc, near, seq_, opcode, attempts - 1);
      MovedTransitive(n.world, n.schedule, next.world, next.schedule, m.world, m.schedule, crc);
    }
  }

  // ----- The transport object -----

  class UdpTransport {
    const ip: string
    const port: int
    const boardIp: string
    const board: SimulatedBoard
    const others: seq<WaveRequest>
    var closed: bool
    /** The packets handed to the network, in order. */
    var sent: seq<seq<byte>>
    var schedule: seq<NetAction>
    var issued: seq<Issued>
    var history: seq<Event>

    function State(): World
      reads this, board
    {
      World(board.State(), issued, history, others)
    }

    function Network(): Net
      reads this, board
    {
      Net(State(), schedule)
    }

    /** The board's datagrams pass the source check. */
    predicate Near() {
      SourceMatches(ip, port, boardIp, port)
    }

    /** Foreign datagrams do not carry the board's address, and control-plane
        datagrams do not parse as waveform replies. */
    predicate Tolerable(a: NetAction) {
      && (a.Foreign? ==> !SourceMatches(ip, port, a.ip, a.port))
      && (a.ControlPlane? ==> ParseWaveResponse(a.raw, true).Err?)
    }

    ghost predicate Valid()
      reads this, board
    {
      WorldOk(State(), board.crc) && forall k :: 0 <= k < |schedule| ==> Tolerable(schedule[k])
    }

    constructor (ip: string, port: int, boardIp: string, board: SimulatedBoard, others: seq<WaveRequest>,
                 schedule: seq<NetAction>)
      requires BoardInv(board.State(), board.crc)
      requires forall a :: a in schedule && a.Foreign? ==> !SourceMatches(ip, port, a.ip, a.port)
      requires forall a :: a in schedule && a.ControlPlane? ==> ParseWaveResponse(a.raw, true).Err?
      ensures Valid() && State() == World(board.State(), [], [], others) && this.board == board && !closed
      ensures this.ip == ip && this.port == port && this.boardIp == boardIp && this.schedule == schedule
    {
      this.ip, this.port, this.boardIp, this.board, this.others := ip, port, boardIp, board, others;
      closed, sent, this.schedule, issued, history := false, [], schedule, [], [];
    }

    /** The network takes its next action as far as the board is concerned. */
    method Advance(a: NetAction)
      requires WorldOk(State(), board.crc)
      modifies this`history, board
      ensures State() == NetStep(old(State()), board.crc, a) && WorldOk(State(), board.crc)
      ensures old(history) <= history
    {
      NetStepKeepsWorldOk(State(), board.crc, a);
      match a
      case ToBoard(i) =>
        if Deliverable(State(), i) && issued[i].Wave? {
          var stateBefore := board.State();
          var reply := board.Serve(issued[i].request);
          history := history + [Event(i, stateBefore, board.State(), reply)];
        }
      case FromOther(k) =>
        if k < |others| {
          var _ := board.Serve(others[k]);
        }
      case PrefetchDone => board.CompletePrefetch();
      case ExternalTrigger => var _ := board.Trigger();
      case _ =>
    }

    /** Parse the datagram of event j, if it still exists, and match it. */
    method ReadReply(j: nat, expectedSeq: nat, expectedOpcode: int) returns (reply: Option<Response>)
      requires Valid()
      ensures reply == if Near() && Accepts(ReplyAt(State(), j), expectedSeq, expectedOpcode)
                       then ReplyAt(State(), j) else None
    {
      hide Receive, BoardInv, ParseWaveResponse, WireReply;
      if j < |history| && Deliverable(State(), history[j].index) && SourceMatches(ip, port, boardIp, port) {
        DatagramParses(State(), board.crc, j);
        var response := ParseWaveResponse(Datagram(State(), j), true).value;
        if response.seq_ == expectedSeq && response.opcode == expectedOpcode {
          return Some(response);
        }
      }
      reply := None;
    }

    method ReceiveWaveResponse(expectedSeq: nat, expectedOpcode: int) returns (r: Received)
      requires Valid()
      modifies this`schedule, this`history, board
      ensures Valid() && old(history) <= history
      ensures closed ==> r == Err(TransportClosed) && Network() == old(Network())
      ensures !closed ==> (r, Network()) == Receives(old(Network()), board.crc, Near(), expectedSeq, expectedOpcode)
      ensures r.Ok? ==> exists j: nat :: Answers(State(), j, r.value, expectedSeq, expectedOpcode)
    {
      hide WorldOk, NetStep, ParseWaveResponse, Receives, Answers, ReplyAt, SourceMatches;
      if closed {
        return Err(TransportClosed);
      }
      ghost var outcome := Receives(Network(), board.crc, Near(), expectedSeq, expectedOpcode);
      ReceivesMoves(Network(), board.crc, Near(), expectedSeq, expectedOpcode);
      while schedule != []
        invariant Valid() && old(history) <= history
        invariant Receives(Network(), board.crc, Near(), expectedSeq, expectedOpcode) == outcome
        decreases |schedule|
      {
        var action := schedule[0];
        assert Tolerable(action);
        ReceivesStep(Network(), board.crc, Near(), expectedSeq, expectedOpcode);
        Advance(action);
        schedule := schedule[1..];
        match action
        case ToHost(j) =>
          var reply := ReadReply(j, expectedSeq, expectedOpcode);
          if reply.Some? {
            return Ok(reply.value);
          }
        case ControlPlane(raw) =>
          if SourceMatches(ip, port, boardIp, port) {
            return Err(BadDatagram(ParseWaveResponse(raw, true).error));
          }
        case Silence => return Err(TransportTimeout);
        case _ =>
      }
      ReceivesNothing(Network(), board.crc, Near(), expectedSeq, expectedOpcode);
      return Err(TransportTimeout);
    }

    /** The driver used a sequence number without sending a waveform request. */
    method Skip(seq_: nat)
      requires Valid() && seq_ < WORD_RANGE
      modifies this`issued
      ensures Valid() && issued == old(issued) + [Other(seq_)]
    {
      IssueKeepsWorldOk(State(), board.crc, Other(seq_));
      issued := issued + [Other(seq_)];
    }

    /** Send one immutable packet until a matching reply arrives or the retries run out. */
    method RequestWave(packet: seq<byte>, request: WaveRequest, seq_: nat, opcode: int,
                       retries: int) returns (r: Received)
      requires Valid() && PackRequest(request, seq_, board.crc) == Ok(packet) && opcode == request.Opcode()
      modifies this`sent, this`schedule, this`issued, this`history, board
      ensures Valid() && old(history) <= history
      ensures issued == old(issued) + [if closed then Other(seq_) else Wave(request, seq_)]
      ensures closed ==> r == Err(TransportClosed) && Network() == Net(old(State()).(issued := issued), old(schedule))
      ensures !closed ==>
                (r, Network()) == Requests(Net(old(State()).(issued := issued), old(schedule)), board.crc, Near(), seq_,
                                           opcode, (if retries > 0 then retries else 0) + 1)
      ensures !closed ==>
                |sent| == |old(sent)| + Sends(Net(old(State()).(issued := issued), old(schedule)), board.crc, Near(),
                                              seq_, opcode, (if retries > 0 then retries else 0) + 1)
      ensures !closed ==> |old(sent)| < |sent| <= |old(sent)| + (if retries > 0 then retries else 0) + 1
      ensures r == Err(TransportTimeout) ==> |sent| == |old(sent)| + (if retries > 0 then retries else 0) + 1
      ensures closed ==> sent == old(sent)
      ensures old(sent) <= sent && forall k :: |old(sent)| <= k < |sent| ==> sent[k] == packet
    {
      hide WorldOk, Requests, Sends, PackRequest, SourceMatches;
      PackedIsInRange(request, seq_, board.crc);
      IssueKeepsWorldOk(State(), board.crc, if closed then Other(seq_) else Wave(request, seq_));
      if closed {
        issued := issued + [Other(seq_)];
        return Err(TransportClosed);
      }
      issued := issued + [Wave(request, seq_)];
      r := SendUntilAnswered(packet, seq_, opcode, (if retries > 0 then retries else 0) + 1);
    }

    /** The attempts of one request. */
    method SendUntilAnswered(packet: seq<byte>, seq_: nat, opcode: int, attempts: nat) returns (r: Received)
      requires Valid() && !closed && attempts > 0
      modifies this`sent, this`schedule, this`history, board
      ensures Valid() && old(history) <= history
      ensures (r, Network()) == Requests(old(Network()), board.crc, Near(), seq_, opcode, attempts)
      ensures |sent| == |old(sent)| + Sends(old(Network()), board.crc, Near(), seq_, opcode, attempts)
      ensures r == Err(TransportTimeout) ==> |sent| == |old(sent)| + attempts
      ensures old(sent) <= sent && forall k :: |old(sent)| <= k < |sent| ==> sent[k] == packet
    {
      hide WorldOk, Receives, Requests, Sends, Trying, SentAgain, ParseWaveResponse, Answers, SourceMatches;
      ghost var start := Network();
      TryStart(start, board.crc, Near(), seq_, opcode, attempts);
      NotSentYet(sent, packet);
      for attempt := 0 to attempts
        invariant Valid() && old(history) <= history
        invariant Trying(start, Network(), board.crc, Near(), seq_, opcode, attempts, attempt)
        invariant SentAgain(old(sent), sent, packet, attempt)
      {
        SendAgain(old(sent), sent, packet, attempt);
        sent := sent + [packet];
        TryStep(start, Network(), board.crc, Near(), seq_, opcode, attempts, attempt);
        r := ReceiveWaveResponse(seq_, opcode);
        SentAre(old(sent), sent, packet, attempt + 1);
        if r != Err(TransportTimeout) {
          return;
        }
      }
      TriedAll(start, Network(), board.crc, Near(), seq_, opcode, attempts);
      SentAre(old(sent), sent, packet, attempts);
      r := Err(TransportTimeout);
    }
  }
}
