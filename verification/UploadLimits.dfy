/** Exactly which images an upload can commit: every complete chain of requests that can
    still arrive, stale ones included, is committed in some run in which the upload's
    own requests are all acknowledged, and nothing else ever is. */
module UploadLimits {
  import opened Bytes
  import opened WaveProtocol
  import opened Board
  import opened BoardRuns
  import opened Transport
  import opened Upload
  import opened Exchange
  import opened UploadSuccess

  // ----- What the network can still deliver when COMMIT is sent -----

  /** Action a brings the request to the board once the whole upload has been
      sent: it is a logged request that is not yet too old then, a request of the
      upload itself, or one of another driver object. */
  ghost predicate Brings(w: World, begin: WaveRequest, pieces: seq<seq<byte>>, r: WaveRequest, a: NetAction)
    requires begin.Begin?
  {
    var log, requests := w.issued, UploadRequests(begin, pieces);
    match a
    case ToBoard(i) =>
      if i < |log| then |log| + |requests| - i <= MAX_AGE && log[i].Wave? && log[i].request == r
      else i < |log| + |requests| && requests[i - |log|] == r
    case FromOther(k) => k < |w.others| && w.others[k] == r
    case _ => false
  }

  ghost predicate Available(w: World, begin: WaveRequest, pieces: seq<seq<byte>>, r: WaveRequest)
    requires begin.Begin?
  {
    exists a :: Brings(w, begin, pieces, r, a)
  }

  /** No stale request of the session reaches its age limit during the upload. */
  ghost predicate NoneExpires(w: World, begin: WaveRequest, pieces: seq<seq<byte>>)
    requires begin.Begin?
  {
    forall r :: r in Stale(w, begin.session) ==> Available(w, begin, pieces, r)
  }

  lemma OwnIsAvailable(w: World, begin: WaveRequest, pieces: seq<seq<byte>>, r: WaveRequest)
    requires begin.Begin? && r in UploadRequests(begin, pieces)
    ensures Available(w, begin, pieces, r)
  {
    var requests := UploadRequests(begin, pieces);
    var k :| 0 <= k < |requests| && requests[k] == r;
    assert Brings(w, begin, pieces, r, ToBoard(|w.issued| + k));
  }

  /** The world after the upload has been sent, with COMMIT the newest request. */
  ghost predicate AllSent(w: World, w0: World, begin: WaveRequest, pieces: seq<seq<byte>>)
    requires begin.Begin?
  {
    Logged(w0.issued, w.issued, UploadRequests(begin, pieces)) && w.others == w0.others
  }

  function EventsOf(actions: seq<NetAction>): nat {
    if actions == [] then 0
    else EventsOf(actions[..|actions| - 1]) + if actions[|actions| - 1].ToBoard? then 1 else 0
  }

  lemma BringsRequest(w: World, w0: World, crc: Crc, begin: WaveRequest, pieces: seq<seq<byte>>, r: WaveRequest,
                      a: NetAction)
    requires begin.Begin? && |pieces| + 2 <= MAX_AGE && AllSent(w, w0, begin, pieces) && Brings(w0, begin, pieces, r, a)
    ensures var next := NetStep(w, crc, a);
            && next.board == Receive(w.board, crc, r).0 && AllSent(next, w0, begin, pieces) && next.issued == w.issued
            && |next.history| == |w.history| + if a.ToBoard? then 1 else 0
    ensures a.ToBoard? || a.FromOther?
  {
    hide Receive;
    if a.ToBoard? {
      LogEntry(w, w0, begin, pieces, a.i);
    }
  }

  lemma LogEntry(w: World, w0: World, begin: WaveRequest, pieces: seq<seq<byte>>, i: nat)
    requires begin.Begin? && AllSent(w, w0, begin, pieces) && i < |w0.issued| + |UploadRequests(begin, pieces)|
    ensures |w.issued| == |w0.issued| + |UploadRequests(begin, pieces)|
    ensures i < |w0.issued| ==> w.issued[i] == w0.issued[i]
    ensures i >= |w0.issued| ==>
              w.issued[i].Wave? && w.issued[i].request == UploadRequests(begin, pieces)[i - |w0.issued|]
  {
    var items := w.issued[|w0.issued|..];
    if i >= |w0.issued| {
      assert w.issued[i] == items[i - |w0.issued|];
    }
  }

  /** The board after a list of requests. */
  function ReceiveAll(b: BoardState, crc: Crc, requests: seq<WaveRequest>): BoardState {
    if requests == [] then b
    else Receive(ReceiveAll(b, crc, requests[..|requests| - 1]), crc, requests[|requests| - 1]).0
  }

  ghost predicate AllBrought(w: World, begin: WaveRequest, pieces: seq<seq<byte>>, requests: seq<WaveRequest>,
                             actions: seq<NetAction>)
    requires begin.Begin?
  {
    |actions| == |requests| && forall k :: 0 <= k < |actions| ==> Brings(w, begin, pieces, requests[k], actions[k])
  }

  ghost predicate AllAvailable(w: World, begin: WaveRequest, pieces: seq<seq<byte>>, requests: seq<WaveRequest>)
    requires begin.Begin?
  {
    forall k :: 0 <= k < |requests| ==> Available(w, begin, pieces, requests[k])
  }

  lemma {:induction false} BringAll(w: World, begin: WaveRequest, pieces: seq<seq<byte>>, requests: seq<WaveRequest>)
    returns (actions: seq<NetAction>)
    requires begin.Begin? && AllAvailable(w, begin, pieces, requests)
    ensures AllBrought(w, begin, pieces, requests, actions)
  {
    hide Brings;
    if requests == [] {
      actions := [];
    } else {
      var last := requests[|requests| - 1];
      actions := BringAll(w, begin, pieces, requests[..|requests| - 1]);
      var a :| Brings(w, begin, pieces, last, a);
      actions := actions + [a];
    }
  }

  /** Bringing the requests one by one runs them through the board. */
  lemma {:induction false} BroughtRun(w: World, w0: World, crc: Crc, begin: WaveRequest, pieces: seq<seq<byte>>,
                                      requests: seq<WaveRequest>, actions: seq<NetAction>)
    requires begin.Begin? && |pieces| + 2 <= MAX_AGE && AllSent(w, w0, begin, pieces)
    requires AllBrought(w0, begin, pieces, requests, actions)
    ensures var next := NetRun(w, crc, actions);
            && next.board == ReceiveAll(w.board, crc, requests) && AllSent(next, w0, begin, pieces)
            && next.issued == w.issued && |next.history| == |w.history| + EventsOf(actions)
  {
    hide Receive, NetStep, AllSent, Brings;
    if actions == [] {
    } else {
      var last := |actions| - 1;
      BroughtRun(w, w0, crc, begin, pieces, requests[..last], actions[..last]);
      BringsRequest(NetRun(w, crc, actions[..last]), w0, crc, begin, pieces, requests[last], actions[last]);
    }
  }

  /** While requests only travel to the board, a receive goes on waiting. */
  lemma {:induction false} RequestsWait(w: World, crc: Crc, actions: seq<NetAction>, rest: seq<NetAction>, near: bool,
                                        seq_: nat, opcode: int, attempts: nat)
    requires attempts > 0 && rest != []
    requires forall k :: 0 <= k < |actions| ==> actions[k].ToBoard? || actions[k].FromOther?
    ensures Requests(Net(w, actions + rest), crc, near, seq_, opcode, attempts)
            == Requests(Net(NetRun(w, crc, actions), rest), crc, near, seq_, opcode, attempts)
  {
    hide NetStep, Requests;
    if actions == [] {
      assert actions + rest == rest;
    } else {
      var shorter, a := actions[..|actions| - 1], actions[|actions| - 1];
      RequestsWait(w, crc, shorter, [a] + rest, near, seq_, opcode, attempts);
      assert actions + rest == shorter + ([a] + rest);
      var n := Net(NetRun(w, crc, shorter), [a] + rest);
      RequestsStep(n, crc, near, seq_, opcode, attempts);
      assert n.schedule[1..] == rest;
    }
  }

  // ----- Every chain can be committed -----

  /** Requests and replies in step: request i + k is served as event `events` + k and answered. */
  function InStep(i: nat, events: nat, k: nat): (s: seq<NetAction>)
    ensures |s| == 2 * k
  {
    if k == 0 then [] else InStep(i, events, k - 1) + [ToBoard(i + k - 1), ToHost(events + k - 1)]
  }

  lemma {:induction false} InStepAnswers(i: nat, events: nat, k: nat, rest: seq<NetAction>, retries: nat)
    ensures PlanRest(InStep(i, events, k) + rest, i, events, k, retries) == Some((rest, events + k))
  {
    if k == 0 {
      assert InStep(i, events, 0) + rest == rest;
    } else {
      var pair := [ToBoard(i + k - 1), ToHost(events + k - 1)];
      InStepAnswers(i, events, k - 1, pair + rest, retries);
      assert InStep(i, events, k) + rest == InStep(i, events, k - 1) + (pair + rest);
      DeliverPair(i + k - 1, events + k - 1, rest, retries);
    }
  }

  lemma DeliverPair(i: nat, first: nat, rest: seq<NetAction>, retries: nat)
    ensures Deliver([ToBoard(i), ToHost(first)] + rest, i, first, first, retries) == Some((rest, first + 1))
  {
    var s := [ToBoard(i), ToHost(first)] + rest;
    assert s[0] == ToBoard(i) && s[1..][0] == ToHost(first) && s[1..][1..] == rest;
    assert Deliver(s, i, first, first, retries) == Deliver(s[1..], i, first, first + 1, retries);
  }

  /** What an upload can commit: some schedule answers all its requests with OK
      while the COMMIT commits this description and image. */
  ghost predicate CanCommit(w: World, link: Link, begin: WaveRequest, pieces: seq<seq<byte>>, number: nat,
                            other: WaveRequest, image: seq<byte>)
    requires begin.Begin?
  {
    exists schedule :: Commits(Net(w, schedule), link, begin, pieces, number, other, image)
  }

  ghost predicate Commits(n: Net, link: Link, begin: WaveRequest, pieces: seq<seq<byte>>, number: nat,
                          other: WaveRequest, image: seq<byte>)
    requires begin.Begin?
  {
    var done := Exchanges(n, link, UploadRequests(begin, pieces), number);
    && done.Answered? && done.reply.Some? && other.Begin? && other.session == begin.session && InRange(other)
    && CommittedSince(done.net.world, |BeforeCommit(n, link, begin, pieces, number).history|, other, image,
                      done.reply.value.descriptor)
  }

  lemma ChainRequestsFill(b: BoardState, crc: Crc, begin: WaveRequest, pieces: seq<seq<byte>>, k: nat)
    requires begin.Begin? && k <= |pieces|
    ensures |UploadRequests(begin, pieces)| == |pieces| + 2
    ensures ReceiveAll(b, crc, UploadRequests(begin, pieces)[..k + 1]) == BoardAfter(b, crc, begin, pieces, k)
    decreases k
  {
    hide Receive, UploadRequests;
    var requests := UploadRequests(begin, pieces);
    RequestAt(begin, pieces, k);
    assert requests[..k + 1][..k] == requests[..k];
    if k == 0 {
      assert requests[..0] == [];
    } else {
      ChainRequestsFill(b, crc, begin, pieces, k - 1);
    }
  }

  /** In the world where COMMIT has just been sent, serving the chain and then
      COMMIT commits the chain, and the COMMIT is answered with OK. */
  lemma ChainThenCommit(n: Net, w0: World, link: Link, begin: WaveRequest, pieces: seq<seq<byte>>, last: nat,
                        other: WaveRequest, chain: seq<seq<byte>>, actions: seq<NetAction>)
    requires begin.Begin? && |pieces| + 2 <= MAX_AGE && link.near && BoardInv(n.world.board, link.crc)
    requires other.Begin? && other.session == begin.session && PiecesInRange(other, chain)
    requires var commit := Command(OP_COMMIT, begin.session);
             && InRange(commit) && AllSent(Issue(n.world, commit, last), w0, begin, pieces)
             && |n.world.issued| == |w0.issued| + |pieces| + 1
    requires |UploadRequests(other, chain)| == |chain| + 2
    requires AllBrought(w0, begin, pieces, UploadRequests(other, chain)[..|chain| + 1], actions)
    requires n.schedule == actions + [ToBoard(|n.world.issued|), ToHost(|n.world.history| + EventsOf(actions))]
    ensures var done := Send(n, link, Command(OP_COMMIT, begin.session), last);
            && done.Answered? && done.reply.Some?
            && CommittedSince(done.net.world, |n.world.history|, other, Concat(chain), done.reply.value.descriptor)
  {
    hide Receive, UploadRequests, NetRun, BoardInv, Requests, InRange, PiecesInRange, Concat, AllSent, AllBrought;
    hide Holds, CommittedSince, BoardAfter, ReceiveAll, EventsOf;
    var start := Sent(n, Command(OP_COMMIT, begin.session), last);
    var w := NetRun(start.world, link.crc, actions);
    ChainServed(start, w0, link, begin, pieces, last, other, chain, actions, |n.world.history| + EventsOf(actions));
    FullBufferCommits(n.world.board, link.crc, other, chain);
    ImageInRange(other, chain);
    CommitAnswered(w, link, begin.session, last, other, chain);
    SinceEarlier(Send(n, link, Command(OP_COMMIT, begin.session), last).net.world, |n.world.history|, |w.history|,
                 other,
                 Concat(chain), Send(n, link, Command(OP_COMMIT, begin.session), last).reply.value.descriptor);
  }

  lemma FullBufferCommits(b: BoardState, crc: Crc, begin: WaveRequest, pieces: seq<seq<byte>>)
    requires BoardInv(b, crc) && begin.Begin? && PiecesInRange(begin, pieces)
    ensures var full := BoardAfter(b, crc, begin, pieces, |pieces|);
            var (next, reply) := Receive(full, crc, Command(OP_COMMIT, begin.session));
            && BoardInv(full, crc) && reply.status == STATUS_OK && next.descriptor == reply.descriptor != 0
            && Holds(next, begin, pieces)
  {
    hide Receive, BoardInv, PiecesInRange, Holds, BoardAfter, Steady;
    LossFreeUploadCommits(b, crc, begin, pieces);
    InOrderDataIsAccepted(b, crc, begin, pieces, |pieces|);
  }

  /** Serving a chain while COMMIT waits for its answer. */
  lemma ChainServed(n: Net, w0: World, link: Link, begin: WaveRequest, pieces: seq<seq<byte>>, last: nat,
                    other: WaveRequest,
                    chain: seq<seq<byte>>, actions: seq<NetAction>, reply: nat)
    requires begin.Begin? && |pieces| + 2 <= MAX_AGE && AllSent(n.world, w0, begin, pieces) && n.world.issued != []
    requires other.Begin? && |UploadRequests(other, chain)| == |chain| + 2
    requires AllBrought(w0, begin, pieces, UploadRequests(other, chain)[..|chain| + 1], actions)
    requires n.schedule == actions + [ToBoard(|n.world.issued| - 1), ToHost(reply)]
    ensures var w := NetRun(n.world, link.crc, actions);
            && w.board == BoardAfter(n.world.board, link.crc, other, chain, |chain|) && w.issued == n.world.issued
            && |w.history| == |n.world.history| + EventsOf(actions)
            && Requests(n, link.crc, true, last, OP_COMMIT, link.retries + 1)
               == Requests(Net(w, [ToBoard(|w.issued| - 1), ToHost(reply)]), link.crc, true, last, OP_COMMIT,
                           link.retries + 1)
  {
    hide Receive, UploadRequests, NetRun, Requests, AllSent, AllBrought, ReceiveAll, BoardAfter, EventsOf;
    var requests, tail := UploadRequests(other, chain)[..|chain| + 1], [ToBoard(|n.world.issued| - 1), ToHost(reply)];
    BroughtRun(n.world, w0, link.crc, begin, pieces, requests, actions);
    ActionsTravel(w0, begin, pieces, requests, actions);
    RequestsWait(n.world, link.crc, actions, tail, true, last, OP_COMMIT, link.retries + 1);
    ChainRequestsFill(n.world.board, link.crc, other, chain, |chain|);
  }

  lemma ActionsTravel(w0: World, begin: WaveRequest, pieces: seq<seq<byte>>, requests: seq<WaveRequest>,
                      actions: seq<NetAction>)
    requires begin.Begin? && AllBrought(w0, begin, pieces, requests, actions)
    ensures forall k :: 0 <= k < |actions| ==> actions[k].ToBoard? || actions[k].FromOther?
  {
    forall k | 0 <= k < |actions|
      ensures actions[k].ToBoard? || actions[k].FromOther?
    {
      assert Brings(w0, begin, pieces, requests[k], actions[k]);
    }
  }

  /** A full buffer, COMMIT served, and its reply delivered. */
  lemma CommitAnswered(w: World, link: Link, session: int, last: nat, other: WaveRequest, chain: seq<seq<byte>>)
    requires link.near && BoardInv(w.board, link.crc) && other.Begin? && other.session == session
    requires w.issued != [] && w.issued[|w.issued| - 1] == Wave(Command(OP_COMMIT, session), last)
    requires InRange(Command(OP_COMMIT, session)) && |Concat(chain)| == other.totalBytes
    requires var (next, reply) := Receive(w.board, link.crc, Command(OP_COMMIT, session));
             && reply.status == STATUS_OK && next.descriptor == reply.descriptor != 0 && Holds(next, other, chain)
    ensures var n := Net(w, [ToBoard(|w.issued| - 1), ToHost(|w.history|)]);
            var (answer, m) := Requests(n, link.crc, true, last, OP_COMMIT, link.retries + 1);
            && answer.Ok? && answer.value.status == STATUS_OK
            && CommittedSince(m.world, |w.history|, other, Concat(chain), answer.value.descriptor)
  {
    hide Receive, BoardInv, Concat, InRange, Requests;
    var commit := Command(OP_COMMIT, session);
    var n := Net(w, [ToBoard(|w.issued| - 1), ToHost(|w.history|)]);
    RepliesAreInRange(w.board, link.crc, commit);
    RequestsStep(n, link.crc, true, last, OP_COMMIT, link.retries + 1);
    var next := Net(NetStep(w, link.crc, n.schedule[0]), n.schedule[1..]);
    RequestsStep(next, link.crc, true, last, OP_COMMIT, link.retries + 1);
    assert CommittedImage(next.world, |w.history|, other, Concat(chain));
  }

  /** With requests and replies in step, everything up to COMMIT is answered. */
  lemma SentInStep(n: Net, link: Link, begin: WaveRequest, pieces: seq<seq<byte>>, number: nat, tail: seq<NetAction>)
    requires LinkReady(n, link, number) && link.near && begin.Begin? && PiecesInRange(begin, pieces)
    requires n.schedule == InStep(|n.world.issued|, |n.world.history|, |pieces| + 1) + tail
    ensures |UploadRequests(begin, pieces)| == |pieces| + 2
    ensures var requests := UploadRequests(begin, pieces);
            var sent, commit := Exchanges(n, link, requests[..|pieces| + 1], number), Command(OP_COMMIT, begin.session);
            && requests == requests[..|pieces| + 1] + [commit] && InRange(commit)
            && sent.Answered? && sent.net.schedule == tail
            && |sent.net.world.history| == |n.world.history| + |pieces| + 1
            && |sent.net.world.issued| == |n.world.issued| + |pieces| + 1
            && LinkReady(sent.net, link, CommitNumber(number, pieces))
            && AllSent(Issue(sent.net.world, commit, CommitNumber(number, pieces)), n.world, begin, pieces)
  {
    hide LinkReady, BoardInv, InRange, PiecesInRange, SequenceAt, Concat, Exchanges, UploadRequests, Deliver, PlanRest;
    PiecesGiveRequests(begin, pieces);
    InStepAnswers(|n.world.issued|, |n.world.history|, |pieces| + 1, tail, link.retries);
    ReadyBoard(n, link, number);
    UploadAdvances(n, link, begin, pieces, number, |pieces| + 1);
    var requests := UploadRequests(begin, pieces);
    var prefix := requests[..|pieces| + 1];
    ExchangesReady(n, link, prefix, number);
    RequestAt(begin, pieces, |pieces| + 1);
    var m, last := Exchanges(n, link, prefix, number).net, CommitNumber(number, pieces);
    LoggedOneMore(n.world.issued, m.world.issued, prefix, Command(OP_COMMIT, begin.session), last);
    assert requests[..|pieces| + 2] == requests;
  }

  /** For every complete chain that is still available when COMMIT is sent, some
      schedule answers every request of the upload with OK and commits the chain. */
  lemma ChainCanBeCommitted(w0: World, link: Link, begin: WaveRequest, pieces: seq<seq<byte>>, number: nat,
                            other: WaveRequest, chain: seq<seq<byte>>)
    requires LinkReady(Net(w0, []), link, number) && link.near && begin.Begin? && PiecesInRange(begin, pieces)
    requires other.Begin? && other.session == begin.session && PiecesInRange(other, chain)
    requires Available(w0, begin, pieces, other)
    requires forall k: nat :: k < |chain| ==> Available(w0, begin, pieces, PieceRequest(begin.session, chain, k))
    ensures CanCommit(w0, link, begin, pieces, number, other, Concat(chain))
  {
    hide Available, InRange, PiecesInRange, SequenceAt, WorldOk, Distinct, CommitNumber;
    hide Send, Concat, CommittedSince, Exchanges, UploadRequests, AllBrought, AllSent, AllAvailable, CanCommit;
    PiecesGiveRequests(begin, pieces);
    WantedAvailable(w0, begin, pieces, other, chain);
    var actions := BringAll(w0, begin, pieces, UploadRequests(other, chain)[..|chain| + 1]);
    var sent, events := |w0.issued| + |pieces| + 1, |w0.history| + |pieces| + 1;
    var tail := actions + [ToBoard(sent), ToHost(events + EventsOf(actions))];
    var n := Net(w0, InStep(|w0.issued|, |w0.history|, |pieces| + 1) + tail);
    SentInStep(n, link, begin, pieces, number, tail);
    var prefix, last := UploadRequests(begin, pieces)[..|pieces| + 1], CommitNumber(number, pieces);
    var m := Exchanges(n, link, prefix, number).net;
    ReadyBoard(m, link, last);
    ChainThenCommit(m, w0, link, begin, pieces, last, other, chain, actions);
    FinishCommit(n, link, begin, pieces, number, other, chain);
  }

  lemma FinishCommit(n: Net, link: Link, begin: WaveRequest, pieces: seq<seq<byte>>, number: nat, other: WaveRequest,
                     chain: seq<seq<byte>>)
    requires begin.Begin? && other.Begin? && other.session == begin.session && PiecesInRange(other, chain)
    requires |UploadRequests(begin, pieces)| == |pieces| + 2
    requires var sent := Exchanges(n, link, UploadRequests(begin, pieces)[..|pieces| + 1], number);
             var done := Send(sent.net, link, Command(OP_COMMIT, begin.session), CommitNumber(number, pieces));
             && sent.Answered? && done.Answered? && done.reply.Some?
             && CommittedSince(done.net.world, |sent.net.world.history|, other, Concat(chain),
                               done.reply.value.descriptor)
    ensures CanCommit(n.world, link, begin, pieces, number, other, Concat(chain))
  {
    hide PiecesInRange, Send, Concat, CommittedSince, Exchanges, UploadRequests, CommitNumber;
    ExchangesLast(n, link, begin, pieces, number);
    ImageInRange(other, chain);
    assert Commits(Net(n.world, n.schedule), link, begin, pieces, number, other, Concat(chain));
  }

  lemma ReadyBoard(n: Net, link: Link, number: nat)
    requires LinkReady(n, link, number)
    ensures BoardInv(n.world.board, link.crc)
  {
  }

  lemma LoggedOneMore(before: seq<Issued>, after: seq<Issued>, requests: seq<WaveRequest>, r: WaveRequest, number: nat)
    requires Logged(before, after, requests)
    ensures Logged(before, after + [Wave(r, number)], requests + [r])
  {
    assert (after + [Wave(r, number)])[|before|..] == after[|before|..] + [Wave(r, number)];
  }

  lemma WantedAvailable(w0: World, begin: WaveRequest, pieces: seq<seq<byte>>, other: WaveRequest,
                        chain: seq<seq<byte>>)
    requires begin.Begin? && other.Begin? && other.session == begin.session && Available(w0, begin, pieces, other)
    requires forall k: nat :: k < |chain| ==> Available(w0, begin, pieces, PieceRequest(begin.session, chain, k))
    ensures |UploadRequests(other, chain)| == |chain| + 2
    ensures AllAvailable(w0, begin, pieces, UploadRequests(other, chain)[..|chain| + 1])
  {
    hide Available, UploadRequests;
    RequestAt(other, chain, 0);
    var wanted := UploadRequests(other, chain)[..|chain| + 1];
    forall k | 0 <= k < |wanted|
      ensures Available(w0, begin, pieces, wanted[k])
    {
      RequestAt(other, chain, k);
      if k > 0 {
        assert Available(w0, begin, pieces, PieceRequest(begin.session, chain, k - 1));
      }
    }
  }

  // ----- Exactly what an upload can commit -----

  /** A complete chain of the upload's pool with this description and image. */
  ghost predicate CompleteChain(w: World, begin: WaveRequest, pieces: seq<seq<byte>>, other: WaveRequest,
                                chain: seq<seq<byte>>)
    requires begin.Begin?
  {
    Chain(Pool(w, begin, pieces), begin.session, other, chain) && |Concat(chain)| == other.totalBytes
  }

  /** Requests of the pool are in range, and available unless they expire. */
  lemma PoolMember(w: World, begin: WaveRequest, pieces: seq<seq<byte>>, r: WaveRequest)
    requires begin.Begin? && PiecesInRange(begin, pieces) && r in Pool(w, begin, pieces)
    ensures InRange(r) && (NoneExpires(w, begin, pieces) ==> Available(w, begin, pieces, r))
  {
    hide Available, PiecesInRange;
    if r in UploadRequests(begin, pieces) {
      PiecesGiveRequests(begin, pieces);
      OwnIsAvailable(w, begin, pieces, r);
    }
  }

  lemma CompleteChainInRange(w: World, begin: WaveRequest, pieces: seq<seq<byte>>, other: WaveRequest,
                             chain: seq<seq<byte>>)
    requires begin.Begin? && PiecesInRange(begin, pieces) && CompleteChain(w, begin, pieces, other, chain)
    ensures other.Begin? && other.session == begin.session && PiecesInRange(other, chain)
    ensures NoneExpires(w, begin, pieces) ==> Available(w, begin, pieces, other)
    ensures NoneExpires(w, begin, pieces) ==>
              forall k: nat :: k < |chain| ==> Available(w, begin, pieces, PieceRequest(begin.session, chain, k))
  {
    hide Available, NoneExpires, InRange, Pool, UploadRequests;
    PoolMember(w, begin, pieces, other);
    forall k: nat | k < |chain|
      ensures InRange(PieceRequest(begin.session, chain, k))
      ensures NoneExpires(w, begin, pieces) ==> Available(w, begin, pieces, PieceRequest(begin.session, chain, k))
    {
      PoolMember(w, begin, pieces, PieceRequest(begin.session, chain, k));
    }
  }

  /** Whatever is committed from the COMMIT on, in any run, is a complete chain. */
  lemma CommitsOnlyChains(n: Net, link: Link, begin: WaveRequest, pieces: seq<seq<byte>>, number: nat,
                          other: WaveRequest,
                          image: seq<byte>) returns (chain: seq<seq<byte>>)
    requires LinkReady(n, link, number) && begin.Begin? && PiecesInRange(begin, pieces)
    requires Commits(n, link, begin, pieces, number, other, image)
    ensures CompleteChain(n.world, begin, pieces, other, chain) && Concat(chain) == image
  {
    hide LinkReady, Exchanges, BeforeCommit, WorldOk, AllInRange, PiecesInRange, Available, NoneExpires, Coherent, Pool;
    hide CommitWaveform, EventOk, Chain;
    PiecesGiveRequests(begin, pieces);
    CommitPhase(n, link, begin, pieces, number);
    var before := BeforeCommit(n, link, begin, pieces, number);
    var done := Exchanges(n, link, UploadRequests(begin, pieces), number);
    var w, pool := done.net.world, Pool(n.world, begin, pieces);
    var j: nat :| |before.history| <= j && CommittedImage(w, j, other, image)
                  && w.history[j].after.descriptor == done.reply.value.descriptor;
    var found;
    found, chain := EventChain(w, link.crc, j, begin.session, pool, other, image);
    assert CompleteChain(n.world, begin, pieces, found, chain);
    CompleteChainInRange(n.world, begin, pieces, found, chain);
    ImageInRange(found, chain);
    OneLayout(found, other);
  }

  lemma EventChain(w: World, crc: Crc, j: nat, session: int, pool: iset<WaveRequest>, other: WaveRequest,
                   image: seq<byte>)
    returns (found: WaveRequest, chain: seq<seq<byte>>)
    requires WorldOk(w, crc) && session > 0 && j < |w.history| && Coherent(w.history[j].before, session, pool)
    requires other.Begin? && other.session == session && CommittedImage(w, j, other, image)
    ensures Chain(pool, session, found, chain) && found.Begin? && Concat(chain) == image && |image| == found.totalBytes
    ensures found.session == other.session && found.totalBytes == other.totalBytes
    ensures found.totalBeats == other.totalBeats
    ensures found.channelMask == other.channelMask && found.loopCount == other.loopCount
  {
    hide WorldOk, Coherent, CommitWaveform, Chain;
    WorldEvent(w, crc, j);
    var e := w.history[j];
    assert Receive(e.before, crc, Command(OP_COMMIT, session)) == CommitWaveform(e.before, session);
    found, chain := CommitSeesChain(e.before, crc, session, pool);
    ChainBegin(pool, session, found, chain);
  }

  /** A BEGIN in range is determined by its description: there is one layout. */
  lemma OneLayout(a: WaveRequest, b: WaveRequest)
    requires a.Begin? && b.Begin? && InRange(a) && InRange(b)
    requires a.session == b.session && a.totalBytes == b.totalBytes && a.totalBeats == b.totalBeats
    requires a.channelMask == b.channelMask && a.loopCount == b.loopCount
    ensures a == b
  {
  }

  /** An upload whose requests are all acknowledged can commit a description and
      image if and only if some complete chain of requests that can still arrive,
      stale or its own, has that description and image. */
  lemma UploadOutcomes(w: World, link: Link, begin: WaveRequest, pieces: seq<seq<byte>>, number: nat,
                       other: WaveRequest,
                       image: seq<byte>)
    requires LinkReady(Net(w, []), link, number) && link.near && begin.Begin? && PiecesInRange(begin, pieces)
    requires NoneExpires(w, begin, pieces)
    ensures CanCommit(w, link, begin, pieces, number, other, image)
            <==> exists chain :: CompleteChain(w, begin, pieces, other, chain) && Concat(chain) == image
  {
    hide Commits, WorldOk, Distinct, Available, NoneExpires, PiecesInRange, CompleteChain;
    if CanCommit(w, link, begin, pieces, number, other, image) {
      var schedule :| Commits(Net(w, schedule), link, begin, pieces, number, other, image);
      var chain := CommitsOnlyChains(Net(w, schedule), link, begin, pieces, number, other, image);
    }
    if exists chain :: CompleteChain(w, begin, pieces, other, chain) && Concat(chain) == image {
      var chain :| CompleteChain(w, begin, pieces, other, chain) && Concat(chain) == image;
      CompleteChainInRange(w, begin, pieces, other, chain);
      ChainCanBeCommitted(w, link, begin, pieces, number, other, chain);
    }
  }

  /** No schedule lets the upload succeed with anything but its own image committed. */
  ghost predicate ImageIsCertain(w: World, link: Link, begin: WaveRequest, pieces: seq<seq<byte>>, number: nat)
    requires begin.Begin?
  {
    forall other, image ::
      CanCommit(w, link, begin, pieces, number, other, image) ==> other == begin && image == Concat(pieces)
  }

  /** So an acknowledged upload can be trusted exactly when every complete chain is its own image. */
  lemma CertainIffNoOtherChain(w: World, link: Link, begin: WaveRequest, pieces: seq<seq<byte>>, number: nat)
    requires LinkReady(Net(w, []), link, number) && link.near && begin.Begin? && PiecesInRange(begin, pieces)
    requires NoneExpires(w, begin, pieces)
    ensures ImageIsCertain(w, link, begin, pieces, number) <==>
            forall other, chain :: CompleteChain(w, begin, pieces, other, chain)
                                   ==> other == begin && Concat(chain) == Concat(pieces)
  {
    hide LinkReady, CanCommit, NoneExpires, PiecesInRange, CompleteChain;
    if ImageIsCertain(w, link, begin, pieces, number) {
      forall other, chain | CompleteChain(w, begin, pieces, other, chain)
        ensures other == begin && Concat(chain) == Concat(pieces)
      {
        UploadOutcomes(w, link, begin, pieces, number, other, Concat(chain));
      }
    }
    forall other, image | CanCommit(w, link, begin, pieces, number, other, image)
      ensures exists chain :: CompleteChain(w, begin, pieces, other, chain) && Concat(chain) == image
    {
      UploadOutcomes(w, link, begin, pieces, number, other, image);
    }
  }

  // ----- Ways to lose the image -----

  lemma {:induction false} SamePlaces(pieces: seq<seq<byte>>, k: nat, piece: seq<byte>, i: nat)
    requires k < |pieces| && |piece| == |pieces[k]| && i <= |pieces|
    ensures |Concat(pieces[k := piece][..i])| == |Concat(pieces[..i])|
  {
    var changed := pieces[k := piece];
    if i == 0 {
      assert changed[..0] == pieces[..0];
    } else {
      SamePlaces(pieces, k, piece, i - 1);
      assert changed[..i] == changed[..i - 1] + [changed[i - 1]] && pieces[..i] == pieces[..i - 1] + [pieces[i - 1]];
      ConcatSnoc(changed[..i - 1], changed[i - 1]);
      ConcatSnoc(pieces[..i - 1], pieces[i - 1]);
    }
  }

  /** Every DATA of the changed upload is in range and available. */
  lemma ChangedPiece(w: World, begin: WaveRequest, pieces: seq<seq<byte>>, k: nat, piece: seq<byte>, i: nat)
    requires begin.Begin? && PiecesInRange(begin, pieces) && k < |pieces| && |piece| == |pieces[k]| && i < |pieces|
    requires Available(w, begin, pieces, Data(begin.session, k, |Concat(pieces[..k])|, piece))
    ensures var r := PieceRequest(begin.session, pieces[k := piece], i);
            InRange(r) && Available(w, begin, pieces, r)
  {
    hide Available, Concat;
    SamePlaces(pieces, k, piece, i);
    var own := PieceRequest(begin.session, pieces, i);
    assert InRange(own);
    RequestAt(begin, pieces, i + 1);
    OwnIsAvailable(w, begin, pieces, own);
  }

  lemma ChangeShows(pieces: seq<seq<byte>>, k: nat, piece: seq<byte>)
    requires k < |pieces| && |piece| == |pieces[k]| && piece != pieces[k]
    ensures Concat(pieces[k := piece]) != Concat(pieces)
  {
    var changed := pieces[k := piece];
    PieceInImage(pieces, k);
    PieceInImage(changed, k);
    assert changed[..k] == pieces[..k];
  }

  lemma PieceInImage(pieces: seq<seq<byte>>, k: nat)
    requires k < |pieces|
    ensures var at := |Concat(pieces[..k])|;
            at + |pieces[k]| <= |Concat(pieces)| && Concat(pieces)[at..at + |pieces[k]|] == pieces[k]
  {
    assert pieces == pieces[..k + 1] + pieces[k + 1..] && pieces[..k + 1] == pieces[..k] + [pieces[k]];
    ConcatAppend(pieces[..k + 1], pieces[k + 1..]);
    ConcatSnoc(pieces[..k], pieces[k]);
  }

  /** One stale DATA of the right number, offset and length: the upload can succeed
      with this piece replaced in what the board commits. */
  lemma StalePieceIsCommitted(w: World, link: Link, begin: WaveRequest, pieces: seq<seq<byte>>, number: nat, k: nat,
                              piece: seq<byte>)
    requires LinkReady(Net(w, []), link, number) && link.near && begin.Begin? && PiecesInRange(begin, pieces)
    requires k < |pieces| && |piece| == |pieces[k]|
    requires Available(w, begin, pieces, Data(begin.session, k, |Concat(pieces[..k])|, piece))
    ensures CanCommit(w, link, begin, pieces, number, begin, Concat(pieces[k := piece]))
    ensures piece != pieces[k] ==> Concat(pieces[k := piece]) != Concat(pieces)
  {
    hide LinkReady, Available, CanCommit, InRange, PieceRequest;
    var changed := pieces[k := piece];
    SamePlaces(pieces, k, piece, |pieces|);
    assert changed[..|pieces|] == changed && pieces[..|pieces|] == pieces;
    OwnIsAvailable(w, begin, pieces, begin) by {
      RequestAt(begin, pieces, 0);
    }
    forall i: nat | i < |changed|
      ensures InRange(PieceRequest(begin.session, changed, i))
      ensures Available(w, begin, pieces, PieceRequest(begin.session, changed, i))
    {
      ChangedPiece(w, begin, pieces, k, piece, i);
    }
    ChainCanBeCommitted(w, link, begin, pieces, number, begin, changed);
    if piece != pieces[k] {
      ChangeShows(pieces, k, piece);
    }
  }

  /** A stale BEGIN of the same size: the upload can succeed with its mask and loop count. */
  lemma StaleBeginIsCommitted(w: World, link: Link, begin: WaveRequest, pieces: seq<seq<byte>>, number: nat,
                              stale: WaveRequest)
    requires LinkReady(Net(w, []), link, number) && link.near && begin.Begin? && PiecesInRange(begin, pieces)
    requires stale.Begin? && InRange(stale) && stale.session == begin.session && stale.totalBytes == begin.totalBytes
    requires Available(w, begin, pieces, stale)
    ensures CanCommit(w, link, begin, pieces, number, stale, Concat(pieces))
  {
    hide LinkReady, Available, CanCommit, InRange;
    forall i: nat | i < |pieces|
      ensures Available(w, begin, pieces, PieceRequest(begin.session, pieces, i))
    {
      RequestAt(begin, pieces, i + 1);
      OwnIsAvailable(w, begin, pieces, PieceRequest(begin.session, pieces, i));
    }
    ChainCanBeCommitted(w, link, begin, pieces, number, stale, pieces);
  }

  /** Every driver object numbers its sessions from 1. While the requests of a first
      object's upload can still reach the board, a second object's upload under the
      same session can be acknowledged in full with the first image committed. */
  lemma SecondDriverCommitsFirstImage(b: BoardState, link: Link, number: nat, first: WaveRequest,
                                      firstPieces: seq<seq<byte>>,
                                      begin: WaveRequest, pieces: seq<seq<byte>>, others: seq<WaveRequest>)
    requires BoardInv(b, link.crc) && link.near && 0 < number < WORD_RANGE
    requires begin.Begin? && PiecesInRange(begin, pieces) && first.Begin? && PiecesInRange(first, firstPieces)
    requires first.session == begin.session && forall r :: r in UploadRequests(first, firstPieces) ==> r in others
    ensures CanCommit(World(b, [], [], others), link, begin, pieces, number, first, Concat(firstPieces))
  {
    hide BoardInv, InRange, CanCommit, UploadRequests, Available;
    var w := World(b, [], [], others);
    RequestAt(first, firstPieces, 0);
    OthersAreAvailable(w, begin, pieces, first);
    forall i: nat | i < |firstPieces|
      ensures Available(w, begin, pieces, PieceRequest(begin.session, firstPieces, i))
    {
      RequestAt(first, firstPieces, i + 1);
      OthersAreAvailable(w, begin, pieces, PieceRequest(begin.session, firstPieces, i));
    }
    ChainCanBeCommitted(w, link, begin, pieces, number, first, firstPieces);
  }

  lemma OthersAreAvailable(w: World, begin: WaveRequest, pieces: seq<seq<byte>>, r: WaveRequest)
    requires begin.Begin? && r in w.others
    ensures Available(w, begin, pieces, r)
  {
    var k :| 0 <= k < |w.others| && w.others[k] == r;
    assert Brings(w, begin, pieces, r, FromOther(k));
  }
}
