/** What a list of requests does to the board and the network: the exchanges behind
    the driver's upload calls (software/dr47/device.py, software/dr47/transport.py). */
module Exchange {
  import opened Arithmetic
  import opened Bytes
  import opened WaveProtocol
  import opened Board
  import opened BoardRuns
  import opened Transport
  import opened Upload

  datatype DriverError =
    | NotConnected
    | OutOfRange
    | LinkFailure(error: TransportError)
    | DeviceStatusError(status: nat)

  /** What stays fixed while a driver talks to its board: the CRC, whether the
      board's address passes the source check, and the retries. */
  datatype Link = Link(crc: Crc, near: bool, retries: nat)

  datatype Outcome = Answered(net: Net, reply: Option<Response>) | Failed(net: Net, error: DriverError)

  function Sent(n: Net, request: WaveRequest, number: nat): Net {
    Net(Issue(n.world, request, number), n.schedule)
  }

  /** One request and its reply, if one arrives. */
  function Ask(n: Net, link: Link, request: WaveRequest, number: nat): (Result<Response, DriverError>, Net) {
    match Requests(Sent(n, request, number), link.crc, link.near, number, request.Opcode(), link.retries + 1)
    case (Err(e), m) => (Err(LinkFailure(e)), m)
    case (Ok(response), m) => (Ok(response), m)
  }

  /** One request, answered with status OK or not. */
  function Send(n: Net, link: Link, request: WaveRequest, number: nat): Outcome {
    match Ask(n, link, request, number)
    case (Err(e), m) => Failed(m, e)
    case (Ok(response), m) =>
      if response.status != STATUS_OK then Failed(m, DeviceStatusError(response.status))
      else Answered(m, Some(response))
  }

  /** The requests in order, until one of them fails. */
  function Exchanges(n: Net, link: Link, requests: seq<WaveRequest>, number: nat): Outcome {
    if requests == [] then Answered(n, None)
    else
      var last := |requests| - 1;
      match Exchanges(n, link, requests[..last], number)
      case Failed(m, e) => Failed(m, e)
      case Answered(m, _) => Send(m, link, requests[last], SequenceAt(number, last))
  }

  lemma ExchangesSnoc(n: Net, link: Link, requests: seq<WaveRequest>, request: WaveRequest, number: nat)
    ensures Exchanges(n, link, requests + [request], number) ==
            match Exchanges(n, link, requests, number)
            case Failed(m, e) => Failed(m, e)
            case Answered(m, _) => Send(m, link, request, SequenceAt(number, |requests|))
  {
    assert (requests + [request])[..|requests|] == requests;
  }

  /** Once a request has failed, nothing more is sent. */
  lemma {:induction false} FailedStays(n: Net, link: Link, requests: seq<WaveRequest>, more: seq<WaveRequest>,
                                       number: nat)
    requires Exchanges(n, link, requests, number).Failed?
    ensures Exchanges(n, link, requests + more, number) == Exchanges(n, link, requests, number)
  {
    if more == [] {
      assert requests + more == requests;
    } else {
      var shorter := more[..|more| - 1];
      FailedStays(n, link, requests, shorter, number);
      ExchangesSnoc(n, link, requests + shorter, more[|more| - 1], number);
      assert requests + more == requests + shorter + [more[|more| - 1]];
    }
  }

  /** If all requests are answered, so were the first k. */
  lemma {:induction false} PrefixDone(n: Net, link: Link, requests: seq<WaveRequest>, number: nat, k: nat)
    requires Exchanges(n, link, requests, number).Answered? && k <= |requests|
    ensures Exchanges(n, link, requests[..k], number).Answered?
  {
    if Exchanges(n, link, requests[..k], number).Failed? {
      FailedStays(n, link, requests[..k], requests[k..], number);
      assert requests[..k] + requests[k..] == requests;
    }
  }

  // ----- Every answer is the request's own -----

  ghost predicate LinkReady(n: Net, link: Link, number: nat) {
    WorldOk(n.world, link.crc) && 0 < number < WORD_RANGE && Distinct(n.world.issued, number)
  }

  /** The network's part of an exchange. */
  function Actions(n: Net, m: Net): seq<NetAction> {
    if |m.schedule| <= |n.schedule| then n.schedule[..|n.schedule| - |m.schedule|] else []
  }

  lemma SendServes(n: Net, link: Link, request: WaveRequest, number: nat)
    requires LinkReady(n, link, number) && InRange(request)
    ensures var outcome := Send(n, link, request, number);
            var m := outcome.net;
            && LinkReady(m, link, NextSequence(number)) && |n.world.history| <= |m.world.history|
            && m.world.issued == n.world.issued + [Wave(request, number)] && m.world.others == n.world.others
            && m.world == NetRun(Issue(n.world, request, number), link.crc, Actions(n, m))
            && (outcome.Answered? ==>
                  && outcome.reply.Some? && outcome.reply.value.status == STATUS_OK
                  && Served(n.world, m.world, Actions(n, m), link.crc, request, number, outcome.reply.value))
  {
    hide WorldOk, InRange, Requests, NetRun, Distinct, SequenceAt, NextSequence, Answers;
    var start, item := Sent(n, request, number), Wave(request, number);
    RequestsMoves(start, link.crc, link.near, number, request.Opcode(), link.retries + 1);
    var (r, m) := Requests(start, link.crc, link.near, number, request.Opcode(), link.retries + 1);
    IssueKeepsWorldOk(n.world, link.crc, item);
    NetRunKeepsWorldOk(start.world, link.crc, Actions(n, m));
    DistinctStep(n.world.issued, item, number);
    if r.Ok? {
      var j: nat :| Answers(m.world, j, r.value, number, request.Opcode());
      AnswerIsOwn(m.world, n.world.issued, request, number, j, r.value, request.Opcode());
      OwnEvent(n.world, m.world, link.crc, request, number, j, r.value);
    }
  }

  lemma OwnEvent(w0: World, w1: World, crc: Crc, request: WaveRequest, number: nat, j: nat, response: Response)
    requires WorldOk(w0, crc) && w0.history <= w1.history && w1.issued == w0.issued + [Wave(request, number)]
    requires Answers(w1, j, response, number, request.Opcode()) && w1.history[j].index == |w0.issued|
    ensures ServedAt(w0, w1, j, number, response)
  {
    hide BoardInv, Receive, InRange;
    assert j < |w0.history| ==> EventOk(w0, crc, j);
  }

  predicate AllInRange(requests: seq<WaveRequest>) {
    forall k :: 0 <= k < |requests| ==> InRange(requests[k])
  }

  lemma {:induction false} ExchangesReady(n: Net, link: Link, requests: seq<WaveRequest>, number: nat)
    requires LinkReady(n, link, number) && AllInRange(requests)
    ensures var outcome := Exchanges(n, link, requests, number);
            && |n.world.history| <= |outcome.net.world.history| && outcome.net.world.others == n.world.others
            && (outcome.Answered? ==>
                  && LinkReady(outcome.net, link, SequenceAt(number, |requests|))
                  && Logged(n.world.issued, outcome.net.world.issued, requests))
  {
    hide LinkReady, Send, InRange, NextSequence;
    if requests == [] {
      assert n.world.issued[|n.world.issued|..] == [];
    } else {
      var last := |requests| - 1;
      ExchangesReady(n, link, requests[..last], number);
      var before := Exchanges(n, link, requests[..last], number);
      if before.Answered? {
        SendServes(before.net, link, requests[last], SequenceAt(number, last));
        var m, base := Send(before.net, link, requests[last], SequenceAt(number, last)).net, |n.world.issued|;
        assert m.world.issued[base..]
                == before.net.world.issued[base..] + [Wave(requests[last], SequenceAt(number, last))];
        assert requests == requests[..last] + [requests[last]];
      }
    }
  }

  lemma SendLogs(n: Net, link: Link, request: WaveRequest, number: nat)
    requires WorldOk(n.world, link.crc) && InRange(request) && number < WORD_RANGE
    ensures var m := Send(n, link, request, number).net;
            && WorldOk(m.world, link.crc) && |n.world.history| <= |m.world.history|
            && m.world.issued == n.world.issued + [Wave(request, number)]
  {
    hide WorldOk, InRange, Requests, NetRun, Answers;
    var start := Sent(n, request, number);
    RequestsMoves(start, link.crc, link.near, number, request.Opcode(), link.retries + 1);
    IssueKeepsWorldOk(n.world, link.crc, Wave(request, number));
    NetRunKeepsWorldOk(start.world, link.crc, Actions(n, Send(n, link, request, number).net));
  }

  /** The log of answered requests is exactly those requests. */
  lemma {:induction false} ExchangesLogged(n: Net, link: Link, requests: seq<WaveRequest>, number: nat)
    requires WorldOk(n.world, link.crc) && AllInRange(requests) && 0 < number < WORD_RANGE
    ensures var outcome := Exchanges(n, link, requests, number);
            && |n.world.history| <= |outcome.net.world.history| && WorldOk(outcome.net.world, link.crc)
            && (outcome.Answered? ==> Logged(n.world.issued, outcome.net.world.issued, requests))
  {
    hide WorldOk, Send, InRange, SequenceAt;
    if requests == [] {
      assert n.world.issued[|n.world.issued|..] == [];
    } else {
      var last := |requests| - 1;
      ExchangesLogged(n, link, requests[..last], number);
      var before := Exchanges(n, link, requests[..last], number);
      if before.Answered? {
        SequenceClosedForm(number, last);
        SendLogs(before.net, link, requests[last], SequenceAt(number, last));
        var m, base := Send(before.net, link, requests[last], SequenceAt(number, last)).net, |n.world.issued|;
        assert m.world.issued[base..]
                == before.net.world.issued[base..] + [Wave(requests[last], SequenceAt(number, last))];
        assert requests == requests[..last] + [requests[last]];
      }
    }
  }

  // ----- Lists of requests in pieces -----

  /** Sending the requests from n0 on led to n1: the next number is then s1, or
      one of them failed with the error. */
  ghost predicate Ran(n0: Net, link: Link, requests: seq<WaveRequest>, s0: nat, n1: Net, s1: nat,
                      error: Option<DriverError>) {
    match Exchanges(n0, link, requests, s0)
    case Answered(m, _) => error.None? && n1 == m && s1 == SequenceAt(s0, |requests|)
    case Failed(m, e) => error == Some(e) && n1 == m
  }

  lemma RanNothing(n: Net, link: Link, number: nat)
    ensures Ran(n, link, [], number, n, number, None)
  {
  }

  /** The result of one request. */
  function AnswerOf(outcome: Outcome): Result<Response, DriverError> {
    match outcome
    case Answered(_, Some(response)) => Ok(response)
    case Answered(_, None) => Err(OutOfRange)
    case Failed(_, e) => Err(e)
  }

  function ErrorOf<T>(r: Result<T, DriverError>): Option<DriverError> {
    if r.Ok? then None else Some(r.error)
  }

  lemma RanSend(n0: Net, link: Link, requests: seq<WaveRequest>, s0: nat, n1: Net, s1: nat, request: WaveRequest)
    requires Ran(n0, link, requests, s0, n1, s1, None)
    ensures var outcome := Send(n1, link, request, s1);
            Ran(n0, link, requests + [request], s0, outcome.net, NextSequence(s1), ErrorOf(AnswerOf(outcome)))
  {
    hide Requests, NextSequence;
    ExchangesSnoc(n0, link, requests, request, s0);
    assert SequenceAt(s0, |requests| + 1) == NextSequence(SequenceAt(s0, |requests|));
  }

  lemma {:induction false} RanThen(n0: Net, link: Link, first: seq<WaveRequest>, s0: nat, n1: Net, s1: nat,
                                   second: seq<WaveRequest>, n2: Net, s2: nat, error: Option<DriverError>)
    requires Ran(n0, link, first, s0, n1, s1, None) && Ran(n1, link, second, s1, n2, s2, error)
    ensures Ran(n0, link, first + second, s0, n2, s2, error)
  {
    hide Send;
    if second == [] {
      assert first + second == first;
    } else {
      var last := |second| - 1;
      var shorter, r := second[..last], second[last];
      assert first + second == first + shorter + [r];
      ExchangesSnoc(n0, link, first + shorter, r, s0);
      SequenceJoins(s0, |first|, last);
      SequenceJoins(s0, |first|, last + 1);
      match Exchanges(n1, link, shorter, s1)
      case Answered(m, _) => RanThen(n0, link, first, s0, n1, s1, shorter, m, SequenceAt(s1, last), None);
      case Failed(m, e) => RanThen(n0, link, first, s0, n1, s1, shorter, m, s2, Some(e));
    }
  }

  lemma {:induction false} SequenceJoins(number: nat, a: nat, b: nat)
    ensures SequenceAt(SequenceAt(number, a), b) == SequenceAt(number, a + b)
  {
    hide NextSequence;
    if b == 0 {
    } else {
      SequenceJoins(number, a, b - 1);
    }
  }

  lemma RanFails(n0: Net, link: Link, requests: seq<WaveRequest>, s0: nat, n1: Net, s1: nat, error: DriverError,
                 more: seq<WaveRequest>)
    requires Ran(n0, link, requests, s0, n1, s1, Some(error))
    ensures Ran(n0, link, requests + more, s0, n1, s1, Some(error))
  {
    FailedStays(n0, link, requests, more, s0);
  }

  lemma RequestAt(begin: WaveRequest, pieces: seq<seq<byte>>, k: nat)
    requires begin.Begin? && k < |pieces| + 2
    ensures |UploadRequests(begin, pieces)| == |pieces| + 2
    ensures UploadRequests(begin, pieces)[k] ==
            if k == 0 then begin
            else if k <= |pieces| then PieceRequest(begin.session, pieces, k - 1)
            else Command(OP_COMMIT, begin.session)
    ensures UploadRequests(begin, pieces)[..k + 1]
            == UploadRequests(begin, pieces)[..k] + [UploadRequests(begin, pieces)[k]]
  {
    assert 0 < k <= |pieces| ==> UploadRequests(begin, pieces)[k] == DataRequests(begin.session, pieces, 0)[k - 1];
  }

  /** COMMIT is the last exchange of an upload. */
  lemma ExchangesLast(n: Net, link: Link, begin: WaveRequest, pieces: seq<seq<byte>>, number: nat)
    requires begin.Begin?
    ensures |UploadRequests(begin, pieces)| == |pieces| + 2
    ensures Exchanges(n, link, UploadRequests(begin, pieces)[..|pieces| + 1], number).Answered? ==>
              Exchanges(n, link, UploadRequests(begin, pieces), number)
              == Send(Exchanges(n, link, UploadRequests(begin, pieces)[..|pieces| + 1], number).net, link,
                      Command(OP_COMMIT, begin.session), CommitNumber(number, pieces))
  {
    hide Send, UploadRequests, SequenceAt;
    RequestAt(begin, pieces, |pieces| + 1);
    var requests := UploadRequests(begin, pieces);
    assert requests[..|pieces| + 2] == requests;
    ExchangesSnoc(n, link, requests[..|pieces| + 1], Command(OP_COMMIT, begin.session), number);
  }

  // ----- What a successful upload commits -----

  ghost predicate Belongs(pool: iset<WaveRequest>, session: int, requests: seq<WaveRequest>) {
    forall k :: 0 <= k < |requests| ==> Carries(pool, session, requests[k])
  }

  lemma ReadyWorld(n: Net, link: Link, number: nat)
    requires LinkReady(n, link, number)
    ensures WorldOk(n.world, link.crc) && 0 < number < WORD_RANGE
  {
  }

  /** After BEGIN and any further requests of the session have been answered, the
      board's buffer for the session is a chain of the pool. */
  lemma {:induction false} UploadKeepsInv(n: Net, link: Link, requests: seq<WaveRequest>, number: nat,
                                          begin: WaveRequest,
                                          pool: iset<WaveRequest>)
    requires LinkReady(n, link, number) && AllInRange(requests) && requests != [] && requests[0] == begin
    requires begin.Begin? && begin.session > 0 && begin in pool
    requires Stale(n.world, begin.session) <= pool && Belongs(pool, begin.session, requests)
    requires Exchanges(n, link, requests, number).Answered?
    ensures UploadInv(Exchanges(n, link, requests, number).net.world, begin.session, pool)
  {
    hide LinkReady, Send, InRange, UploadInv, Carries, NetRun, Served;
    var last := |requests| - 1;
    var prefix, r := requests[..last], requests[last];
    ExchangesReady(n, link, prefix, number);
    var m := Exchanges(n, link, prefix, number).net;
    SendServes(m, link, r, SequenceAt(number, last));
    ReadyWorld(m, link, SequenceAt(number, last));
    var next := Send(m, link, r, SequenceAt(number, last));
    if last == 0 {
      AfterBegin(m.world, next.net.world, Actions(m, next.net), link.crc, begin, number, next.reply.value, pool);
    } else {
      UploadKeepsInv(n, link, prefix, number, begin, pool);
      AfterRequest(m.world, next.net.world, Actions(m, next.net), link.crc, r, SequenceAt(number, last), begin.session,
                   pool);
    }
  }

  /** The upload up to its last DATA. */
  function BeforeCommit(n: Net, link: Link, begin: WaveRequest, pieces: seq<seq<byte>>, number: nat): World
    requires begin.Begin?
  {
    Exchanges(n, link, UploadRequests(begin, pieces)[..|pieces| + 1], number).net.world
  }

  /** The sequence number of an upload's COMMIT. */
  function CommitNumber(number: nat, pieces: seq<seq<byte>>): nat {
    SequenceAt(number, |pieces| + 1)
  }

  /** If all requests of an upload are answered, everything the board served from
      the COMMIT on started from a chain of the pool; among it is the COMMIT. */
  lemma CommitPhase(n: Net, link: Link, begin: WaveRequest, pieces: seq<seq<byte>>, number: nat)
    requires LinkReady(n, link, number) && begin.Begin? && AllInRange(UploadRequests(begin, pieces))
    requires Exchanges(n, link, UploadRequests(begin, pieces), number).Answered?
    ensures var before := BeforeCommit(n, link, begin, pieces, number);
            var done := Exchanges(n, link, UploadRequests(begin, pieces), number);
            var w := done.net.world;
            && |n.world.history| <= |before.history| <= |w.history| && WorldOk(w, link.crc) && begin.session > 0
            && done.reply.Some? && done.reply.value.status == STATUS_OK
            && w.issued == before.issued + [Wave(Command(OP_COMMIT, begin.session), CommitNumber(number, pieces))]
            && (forall j :: |before.history| <= j < |w.history| ==>
                  Coherent(w.history[j].before, begin.session, Pool(n.world, begin, pieces)))
            && exists j: nat :: ServedAt(before, w, j, CommitNumber(number, pieces), done.reply.value)
  {
    hide LinkReady, Send, UploadInv, Carries, NetRun, Coherent, CommittedSince, WorldOk;
    var requests, pool := UploadRequests(begin, pieces), Pool(n.world, begin, pieces);
    var prefix, commit := requests[..|pieces| + 1], Command(OP_COMMIT, begin.session);
    assert requests[0] == begin && requests[|pieces| + 1] == commit && InRange(begin) && InRange(commit);
    PrefixDone(n, link, requests, number, |pieces| + 1);
    UploadBelongs(n.world, begin, pieces);
    ExchangesReady(n, link, prefix, number);
    UploadKeepsInv(n, link, prefix, number, begin, pool);
    var m, last := Exchanges(n, link, prefix, number).net, CommitNumber(number, pieces);
    SendServes(m, link, commit, last);
    ReadyWorld(m, link, last);
    var next := Send(m, link, commit, last);
    AfterRequest(m.world, next.net.world, Actions(m, next.net), link.crc, commit, last, begin.session, pool);
    ReadyWorld(next.net, link, NextSequence(last));
  }

  /** For every network schedule: if BEGIN, the DATA and COMMIT are all answered
      with OK, COMMIT committed a complete chain made of stale requests of the
      session and the upload's own. */
  lemma UploadCommitsChain(n: Net, link: Link, begin: WaveRequest, pieces: seq<seq<byte>>, number: nat)
    requires LinkReady(n, link, number) && begin.Begin? && AllInRange(UploadRequests(begin, pieces))
    requires Exchanges(n, link, UploadRequests(begin, pieces), number).Answered?
    ensures var done := Exchanges(n, link, UploadRequests(begin, pieces), number);
            && done.reply.Some? && |n.world.history| <= |BeforeCommit(n, link, begin, pieces, number).history|
            && CommittedChain(done.net.world, |BeforeCommit(n, link, begin, pieces, number).history|, begin.session,
                              Pool(n.world, begin, pieces), done.reply.value.descriptor)
  {
    hide LinkReady, Exchanges, BeforeCommit, Coherent, CommittedSince, WorldOk, AllInRange;
    CommitPhase(n, link, begin, pieces, number);
    var before := BeforeCommit(n, link, begin, pieces, number);
    var done := Exchanges(n, link, UploadRequests(begin, pieces), number);
    var w, pool := done.net.world, Pool(n.world, begin, pieces);
    var j: nat :| ServedAt(before, w, j, CommitNumber(number, pieces), done.reply.value);
    CommitEvent(w, link.crc, j, begin.session, pool);
    ChainEarlier(w, |before.history|, j, begin.session, pool, done.reply.value.descriptor);
  }

  lemma UploadBelongs(w: World, begin: WaveRequest, pieces: seq<seq<byte>>)
    requires begin.Begin?
    ensures Belongs(Pool(w, begin, pieces), begin.session, UploadRequests(begin, pieces))
    ensures Stale(w, begin.session) <= Pool(w, begin, pieces) && begin in Pool(w, begin, pieces)
  {
    hide Stale;
    var requests := UploadRequests(begin, pieces);
    assert requests[0] == begin;
  }

  lemma ChainEarlier(w: World, from: nat, later: nat, session: int, pool: iset<WaveRequest>, descriptor: nat)
    requires from <= later && CommittedChain(w, later, session, pool, descriptor)
    ensures CommittedChain(w, from, session, pool, descriptor)
  {
    hide CommittedSince;
    var begin, pieces :| Chain(pool, session, begin, pieces)
                         && CommittedSince(w, later, begin, Concat(pieces), descriptor);
    ChainBegin(pool, session, begin, pieces);
    SinceEarlier(w, from, later, begin, Concat(pieces), descriptor);
  }

  /** If no stale request can write to the session, the committed chain is the upload's own image. */
  lemma FreshUploadCommitsImage(n: Net, link: Link, begin: WaveRequest, pieces: seq<seq<byte>>, number: nat)
    requires LinkReady(n, link, number) && begin.Begin? && AllInRange(UploadRequests(begin, pieces))
    requires Exchanges(n, link, UploadRequests(begin, pieces), number).Answered? && begin.totalBytes == |Concat(pieces)|
    requires FreshSession(n.world, begin.session)
    ensures var done := Exchanges(n, link, UploadRequests(begin, pieces), number);
            && done.reply.Some?
            && CommittedSince(done.net.world, |n.world.history|, begin, Concat(pieces), done.reply.value.descriptor)
  {
    hide LinkReady, Exchanges, CommittedImage, AllInRange, Stale, BeforeCommit;
    UploadCommitsChain(n, link, begin, pieces, number);
    var before := BeforeCommit(n, link, begin, pieces, number);
    var done := Exchanges(n, link, UploadRequests(begin, pieces), number);
    var pool, from, descriptor := Pool(n.world, begin, pieces), |before.history|, done.reply.value.descriptor;
    var other, chain :| Chain(pool, begin.session, other, chain)
                        && CommittedSince(done.net.world, from, other, Concat(chain), descriptor);
    ChainBegin(pool, begin.session, other, chain);
    CommittedTotal(done.net.world, from, other, Concat(chain), descriptor);
    OwnChainIsImage(pool, begin, pieces, other, chain);
    SinceEarlier(done.net.world, |n.world.history|, from, begin, Concat(pieces), descriptor);
  }

  lemma CommittedTotal(w: World, from: nat, begin: WaveRequest, image: seq<byte>, descriptor: nat)
    requires begin.Begin? && CommittedSince(w, from, begin, image, descriptor)
    ensures |image| == begin.totalBytes && descriptor != 0
  {
  }
}
