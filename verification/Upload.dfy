/** Why an upload over an adversarial network is safe: sequence numbers identify
    requests, and the board's buffer is always a prefix of the image bound to its
    session. */
module Upload {
  import opened Arithmetic
  import opened Bytes
  import opened WaveProtocol
  import opened Board
  import opened BoardRuns
  import opened Transport

  // ----- Sequence numbers -----

  function NextSequence(value: nat): nat {
    if value == 0xFFFF_FFFF then 1 else value + 1
  }

  /** The k-th sequence number of a driver that starts at `first`. */
  function SequenceAt(first: nat, k: nat): nat {
    if k == 0 then first else NextSequence(SequenceAt(first, k - 1))
  }

  lemma {:induction false} SequenceClosedForm(first: nat, k: nat)
    requires 0 < first < WORD_RANGE
    ensures SequenceAt(first, k) == (first - 1 + k) % MAX_AGE + 1
    ensures 0 < SequenceAt(first, k) < WORD_RANGE
  {
    if k == 0 {
    } else {
      SequenceClosedForm(first, k - 1);
      NextResidue(first - 1 + (k - 1));
    }
  }

  lemma NextResidue(n: nat)
    ensures NextSequence(n % MAX_AGE + 1) == (n + 1) % MAX_AGE + 1
  {
    var q, r := n / MAX_AGE, n % MAX_AGE;
    if r + 1 < MAX_AGE {
      QuotientUnique(n + 1, MAX_AGE, q);
    } else {
      QuotientUnique(n + 1, MAX_AGE, q + 1);
    }
  }

  /** Two uses of the counter share a number exactly when they are a multiple of
      2^32 - 1 apart; zero is never used. */
  lemma SequenceCollision(first: nat, i: nat, j: nat)
    requires 0 < first < WORD_RANGE
    ensures SequenceAt(first, i) == SequenceAt(first, j) <==> (i - j) % MAX_AGE == 0
  {
    SequenceClosedForm(first, i);
    SequenceClosedForm(first, j);
    SameResidue(first - 1 + i, first - 1 + j);
  }

  lemma SameResidue(a: int, b: int)
    ensures a % MAX_AGE == b % MAX_AGE <==> (a - b) % MAX_AGE == 0
  {
    var p, q := a / MAX_AGE, b / MAX_AGE;
    assert a - b == (p - q) * MAX_AGE + (a % MAX_AGE - b % MAX_AGE);
  }

  lemma {:induction false} SequenceShift(number: nat, k: nat)
    ensures SequenceAt(NextSequence(number), k) == SequenceAt(number, k + 1)
  {
    if k == 0 {
      assert SequenceAt(number, 1) == NextSequence(SequenceAt(number, 0));
    } else {
      SequenceShift(number, k - 1);
    }
  }

  /** No request that can still be answered carries the number of the k-th next
      request while both are in the network. */
  ghost predicate Distinct(issued: seq<Issued>, number: nat) {
    forall i: nat, k: nat :: i < |issued| && |issued| + k - i < MAX_AGE ==> issued[i].seq_ != SequenceAt(number, k)
  }

  /** Using the next number keeps the numbers distinct: a number comes back only after MAX_AGE uses. */
  lemma DistinctStep(issued: seq<Issued>, item: Issued, number: nat)
    requires 0 < number < WORD_RANGE && Distinct(issued, number) && item.seq_ == number
    ensures Distinct(issued + [item], NextSequence(number)) && 0 < NextSequence(number) < WORD_RANGE
  {
    hide SequenceAt;
    var more := issued + [item];
    forall i: nat, k: nat | i < |more| && |more| + k - i < MAX_AGE
      ensures more[i].seq_ != SequenceAt(NextSequence(number), k)
    {
      SequenceShift(number, k);
      if i < |issued| {
        assert more[i] == issued[i] && |issued| + (k + 1) - i < MAX_AGE;
      } else {
        NotBackYet(number, k + 1);
      }
    }
  }

  lemma NotBackYet(number: nat, k: nat)
    requires 0 < number < WORD_RANGE && 0 < k < MAX_AGE
    ensures SequenceAt(number, k) != number
  {
    SequenceCollision(number, k, 0);
    QuotientUnique(k, MAX_AGE, 0);
    assert SequenceAt(number, 0) == number;
  }

  /** A matching reply answers the newest request itself, never an older one. */
  lemma AnswerIsOwn(w: World, issued: seq<Issued>, request: WaveRequest, number: nat, j: nat, response: Response,
                    opcode: int)
    requires Distinct(issued, number) && w.issued == issued + [Wave(request, number)]
    requires Answers(w, j, response, number, opcode)
    ensures w.history[j].index == |issued|
  {
    assert SequenceAt(number, 0) == number;
  }

  /** The age limit is exact: the reply to a request one step older would be
      taken for the answer to the newest one. */
  lemma OlderAnswerWouldMatch(first: nat, n: nat)
    requires 0 < first < WORD_RANGE && n >= MAX_AGE
    ensures SequenceAt(first, n - MAX_AGE) == SequenceAt(first, n)
  {
    SequenceCollision(first, n - MAX_AGE, n);
    assert n - MAX_AGE - n == -1 * MAX_AGE;
  }

  // ----- What a session's buffer can hold -----

  /** DATA number k of a list of pieces: numbered from zero, at contiguous offsets. */
  function PieceRequest(session: int, pieces: seq<seq<byte>>, k: nat): WaveRequest
    requires k < |pieces|
  {
    Data(session, k, |Concat(pieces[..k])|, pieces[k])
  }

  /** A BEGIN of the session and, for every piece, its DATA are all in the pool. */
  ghost predicate Chain(pool: iset<WaveRequest>, session: int, begin: WaveRequest, pieces: seq<seq<byte>>) {
    && begin.Begin? && begin.session == session && begin in pool
    && forall k: nat :: k < |pieces| ==> PieceRequest(session, pieces, k) in pool
  }

  /** The board may take bytes or a description for the session from this request. */
  predicate Writes(session: int, r: WaveRequest) {
    !r.Command? && r.session == session && InRange(r)
  }

  /** The request cannot write to the session, or is in the pool. */
  ghost predicate Carries(pool: iset<WaveRequest>, session: int, r: WaveRequest) {
    Writes(session, r) ==> r in pool
  }

  /** Every BEGIN and DATA of this session that can still arrive is in the pool. */
  ghost predicate OnlyPool(w: World, session: int, pool: iset<WaveRequest>) {
    && (forall i: nat :: Deliverable(w, i) && w.issued[i].Wave? ==> Carries(pool, session, w.issued[i].request))
    && (forall r :: r in w.others ==> Carries(pool, session, r))
  }

  ghost predicate Holds(b: BoardState, begin: WaveRequest, pieces: seq<seq<byte>>) {
    && begin.Begin? && b.session == begin.session
    && b.totalBytes == begin.totalBytes && b.totalBeats == begin.totalBeats
    && b.channelMask == begin.channelMask && b.loopCount == begin.loopCount
    && b.nextPacket == |pieces| && b.received == Concat(pieces)
  }

  /** While the board is in the session, its buffer is a chain of pool requests. */
  ghost predicate Coherent(b: BoardState, session: int, pool: iset<WaveRequest>) {
    b.session == session ==> exists begin, pieces :: Chain(pool, session, begin, pieces) && Holds(b, begin, pieces)
  }

  lemma ChainSnoc(pool: iset<WaveRequest>, session: int, begin: WaveRequest, pieces: seq<seq<byte>>, piece: seq<byte>)
    requires Chain(pool, session, begin, pieces) && Data(session, |pieces|, |Concat(pieces)|, piece) in pool
    ensures Chain(pool, session, begin, pieces + [piece]) && Concat(pieces + [piece]) == Concat(pieces) + piece
  {
    var more := pieces + [piece];
    ConcatSnoc(pieces, piece);
    forall k: nat | k < |more|
      ensures PieceRequest(session, more, k) in pool
    {
      assert more[..k] == pieces[..k];
      if k < |pieces| {
        assert PieceRequest(session, pieces, k) in pool;
      } else {
        assert pieces[..k] == pieces;
      }
    }
  }

  lemma ReceiveKeepsCoherent(b: BoardState, crc: Crc, r: WaveRequest, session: int, pool: iset<WaveRequest>)
    requires session > 0 && BoardInv(b, crc) && Coherent(b, session, pool) && Carries(pool, session, r)
    ensures Coherent(Receive(b, crc, r).0, session, pool)
  {
    hide Chain, Concat, SliceAssign, FragmentOk;
    var next := Receive(b, crc, r).0;
    if r.Begin? && next != b {
      BeginHoldsNothing(b, crc, r, session, pool);
    } else if r.Data? && b.session == session {
      var begin, pieces :| Chain(pool, session, begin, pieces) && Holds(b, begin, pieces);
      DataOutcome(b, crc, r.session, r.packetSeq, r.byteOffset, r.payload, Some(Crc32(crc, r.payload)));
      if next.nextPacket != b.nextPacket {
        ChainSnoc(pool, session, begin, pieces, r.payload);
        assert Holds(next, begin, pieces + [r.payload]);
      } else {
        assert Holds(next, begin, pieces);
      }
    } else if next.session == session && !r.Begin? {
      OtherKeepsHolding(b, crc, r, session, pool);
    }
  }

  lemma BeginHoldsNothing(b: BoardState, crc: Crc, r: WaveRequest, session: int, pool: iset<WaveRequest>)
    requires r.Begin? && Carries(pool, session, r) && (InRange(r) || Receive(b, crc, r).0 != b)
    ensures Coherent(Receive(b, crc, r).0, session, pool) && Receive(b, crc, r).0.session == r.session
    ensures Receive(b, crc, r).1.status == STATUS_OK
  {
    var next := Receive(b, crc, r).0;
    if r.session == session {
      assert Chain(pool, session, r, []) && Holds(next, r, []);
    }
  }

  /** Nothing but BEGIN and DATA writes to a session's buffer or its description. */
  lemma OtherKeepsHolding(b: BoardState, crc: Crc, r: WaveRequest, session: int, pool: iset<WaveRequest>)
    requires session > 0 && BoardInv(b, crc) && Coherent(b, session, pool) && !r.Begin?
    requires Receive(b, crc, r).0.session == session && (r.Data? ==> b.session != session)
    ensures Coherent(Receive(b, crc, r).0, session, pool)
  {
    hide Chain, Concat, SliceAssign, FragmentsOk, DataInRange;
    var next := Receive(b, crc, r).0;
    if b.session == session {
      var begin, pieces :| Chain(pool, session, begin, pieces) && Holds(b, begin, pieces);
      assert Holds(next, begin, pieces);
    }
  }

  lemma NetStepKeepsCoherent(w: World, crc: Crc, a: NetAction, session: int, pool: iset<WaveRequest>)
    requires session > 0 && WorldOk(w, crc) && OnlyPool(w, session, pool) && Coherent(w.board, session, pool)
    ensures Coherent(NetStep(w, crc, a).board, session, pool)
  {
    hide Receive, BoardInv, Chain, EventOk;
    if a.ToBoard? && Deliverable(w, a.i) && w.issued[a.i].Wave? {
      ReceiveKeepsCoherent(w.board, crc, w.issued[a.i].request, session, pool);
    } else if a.FromOther? && a.k < |w.others| {
      ReceiveKeepsCoherent(w.board, crc, w.others[a.k], session, pool);
    } else if w.board.session == session {
      var begin, pieces :| Chain(pool, session, begin, pieces) && Holds(w.board, begin, pieces);
      assert Holds(NetStep(w, crc, a).board, begin, pieces);
    }
  }

  /** From a coherent world on, every event the network causes starts coherent. */
  lemma {:induction false} NetRunKeepsCoherent(w: World, crc: Crc, actions: seq<NetAction>, session: int,
                                               pool: iset<WaveRequest>)
    requires session > 0 && WorldOk(w, crc) && OnlyPool(w, session, pool) && Coherent(w.board, session, pool)
    ensures var next := NetRun(w, crc, actions);
            && WorldOk(next, crc) && next.issued == w.issued && w.history <= next.history && next.others == w.others
            && Coherent(next.board, session, pool)
            && forall j :: |w.history| <= j < |next.history| ==> Coherent(next.history[j].before, session, pool)
  {
    hide Receive, BoardInv, EventOk, Coherent, Carries;
    if actions == [] {
    } else {
      var prefix, last := actions[..|actions| - 1], actions[|actions| - 1];
      NetRunKeepsCoherent(w, crc, prefix, session, pool);
      NetRunKeepsWorldOk(w, crc, prefix);
      var mid := NetRun(w, crc, prefix);
      NetStepKeepsWorldOk(mid, crc, last);
      NetStepKeepsCoherent(mid, crc, last, session, pool);
    }
  }

  /** Once the board has served a BEGIN of the pool for this session, it is
      coherent, whatever it held before. */
  lemma {:induction false} ServedBeginMakesCoherent(w: World, crc: Crc, actions: seq<NetAction>, j: nat,
                                                    begin: WaveRequest,
                                                    pool: iset<WaveRequest>)
    requires begin.Begin? && begin.session > 0 && InRange(begin) && begin in pool
    requires WorldOk(w, crc) && OnlyPool(w, begin.session, pool)
    requires var next := NetRun(w, crc, actions);
             && |w.history| <= j < |next.history| && next.history[j].index < |w.issued|
             && w.issued[next.history[j].index].Wave? && w.issued[next.history[j].index].request == begin
    ensures Coherent(NetRun(w, crc, actions).board, begin.session, pool)
  {
    hide Receive, BoardInv, EventOk, Coherent, InRange;
    if actions == [] {
      assert false;
    } else {
      var prefix, last := actions[..|actions| - 1], actions[|actions| - 1];
      var mid := NetRun(w, crc, prefix);
      NetRunKeepsWorldOk(w, crc, prefix);
      NetStepKeepsWorldOk(mid, crc, last);
      if j < |mid.history| {
        ServedBeginMakesCoherent(w, crc, prefix, j, begin, pool);
        NetStepKeepsCoherent(mid, crc, last, begin.session, pool);
      } else {
        BeginHoldsNothing(mid.board, crc, begin, begin.session, pool);
      }
    }
  }

  /** The board served a COMMIT of the session and answered OK while holding exactly the image. */
  ghost predicate CommittedImage(w: World, j: nat, begin: WaveRequest, image: seq<byte>)
    requires begin.Begin?
  {
    && j < |w.history| && w.history[j].index < |w.issued|
    && (var e := w.history[j];
        && w.issued[e.index].Wave? && w.issued[e.index].request == Command(OP_COMMIT, begin.session)
        && e.reply.status == STATUS_OK
        && e.after.session == begin.session && e.after.descriptor == e.reply.descriptor != 0
        && e.after.received == image && e.after.totalBytes == begin.totalBytes == |image|
        && e.after.totalBeats == begin.totalBeats && e.after.channelMask == begin.channelMask
        && e.after.loopCount == begin.loopCount)
  }

  /** The image was committed under this descriptor at event `from` or later. */
  ghost predicate CommittedSince(w: World, from: nat, begin: WaveRequest, image: seq<byte>, descriptor: nat)
    requires begin.Begin?
  {
    exists j: nat :: from <= j && CommittedImage(w, j, begin, image) && w.history[j].after.descriptor == descriptor
  }

  lemma SinceEarlier(w: World, from: nat, later: nat, begin: WaveRequest, image: seq<byte>, descriptor: nat)
    requires begin.Begin? && from <= later && CommittedSince(w, later, begin, image, descriptor)
    ensures CommittedSince(w, from, begin, image, descriptor)
  {
    hide CommittedImage;
  }

  /** A complete chain of the pool was committed under this descriptor. */
  ghost predicate CommittedChain(w: World, from: nat, session: int, pool: iset<WaveRequest>, descriptor: nat) {
    exists begin, pieces :: Chain(pool, session, begin, pieces)
                            && CommittedSince(w, from, begin, Concat(pieces), descriptor)
  }

  /** An acknowledged COMMIT of a coherent board committed a complete chain. */
  lemma CommitSeesChain(b: BoardState, crc: Crc, session: int, pool: iset<WaveRequest>)
    returns (begin: WaveRequest, pieces: seq<seq<byte>>)
    requires session > 0 && BoardInv(b, crc) && Coherent(b, session, pool)
    requires CommitWaveform(b, session).1.status == STATUS_OK
    ensures Chain(pool, session, begin, pieces)
    ensures var (next, reply) := CommitWaveform(b, session);
            && next.session == session && next.descriptor == reply.descriptor != 0
            && next.received == b.received == Concat(pieces) && |Concat(pieces)| == begin.totalBytes
            && next.totalBytes == begin.totalBytes && next.totalBeats == begin.totalBeats
            && next.channelMask == begin.channelMask && next.loopCount == begin.loopCount
  {
    hide Chain, FragmentOk;
    begin, pieces :| Chain(pool, session, begin, pieces) && Holds(b, begin, pieces);
    assert |b.received| == b.receivedBytes == b.totalBytes;
  }

  // ----- Stale and own requests -----

  ghost predicate InLog(w: World, r: WaveRequest) {
    exists i: nat :: i < |w.issued| && |w.issued| - i < MAX_AGE && w.issued[i].Wave? && w.issued[i].request == r
  }

  /** The BEGIN and DATA of this session that can still arrive once the next request is sent. */
  ghost function Stale(w: World, session: int): iset<WaveRequest> {
    iset r: WaveRequest | Writes(session, r) && (InLog(w, r) || r in w.others)
  }

  ghost predicate FreshSession(w: World, session: int) {
    Stale(w, session) == iset{}
  }

  /** What can write to an upload's session while it runs: stale requests and its own. */
  ghost function Pool(w: World, begin: WaveRequest, pieces: seq<seq<byte>>): iset<WaveRequest>
    requires begin.Begin?
  {
    Stale(w, begin.session) + iset r | r in UploadRequests(begin, pieces)
  }

  /** A complete chain of an upload's own requests is its own image. */
  lemma OwnChainIsImage(pool: iset<WaveRequest>, begin: WaveRequest, pieces: seq<seq<byte>>, other: WaveRequest,
                        chain: seq<seq<byte>>)
    requires begin.Begin? && Chain(pool, begin.session, other, chain)
    requires forall r :: r in pool ==> r in UploadRequests(begin, pieces)
    requires |Concat(chain)| == other.totalBytes && begin.totalBytes == |Concat(pieces)|
    ensures other == begin && Concat(chain) == Concat(pieces)
  {
    hide UploadRequests;
    BeginIsOwn(begin, pieces, other);
    if chain != [] {
      DataIsPiece(begin, pieces, PieceRequest(begin.session, chain, |chain| - 1));
    }
    forall k: nat | k < |chain|
      ensures chain[k] == pieces[k]
    {
      DataIsPiece(begin, pieces, PieceRequest(begin.session, chain, k));
    }
    assert chain == pieces[..|chain|];
    var rest := pieces[|chain|..];
    assert pieces == chain + rest;
    ConcatAppend(chain, rest);
  }

  lemma BeginIsOwn(begin: WaveRequest, pieces: seq<seq<byte>>, r: WaveRequest)
    requires begin.Begin? && r.Begin? && r in UploadRequests(begin, pieces)
    ensures r == begin
  {
  }

  lemma DataIsPiece(begin: WaveRequest, pieces: seq<seq<byte>>, r: WaveRequest)
    requires begin.Begin? && r.Data? && r in UploadRequests(begin, pieces)
    ensures 0 <= r.packetSeq < |pieces| && r == PieceRequest(begin.session, pieces, r.packetSeq)
  {
    var all := UploadRequests(begin, pieces);
    var i :| 0 <= i < |all| && all[i] == r;
    assert i == 0 || i == |pieces| + 1 || all[i] == DataRequests(begin.session, pieces, 0)[i - 1];
  }

  // ----- The requests of an upload -----

  predicate Are(items: seq<Issued>, requests: seq<WaveRequest>) {
    |items| == |requests| && forall k :: 0 <= k < |items| ==> items[k].Wave? && items[k].request == requests[k]
  }

  /** The log grew by exactly these requests. */
  ghost predicate Logged(before: seq<Issued>, after: seq<Issued>, requests: seq<WaveRequest>) {
    before <= after && Are(after[|before|..], requests)
  }

  /** DATA for pieces from..: consecutive numbers, contiguous offsets. */
  function DataRequests(session: int, pieces: seq<seq<byte>>, from: nat): (requests: seq<WaveRequest>)
    requires from <= |pieces|
    ensures |requests| == |pieces| - from
  {
    seq(|pieces| - from, k requires 0 <= k < |pieces| - from =>
      Data(session, from + k, |Concat(pieces[..from + k])|, pieces[from + k]))
  }

  /** BEGIN, every DATA, COMMIT. */
  function UploadRequests(begin: WaveRequest, pieces: seq<seq<byte>>): seq<WaveRequest>
    requires begin.Begin?
  {
    [begin] + DataRequests(begin.session, pieces, 0) + [Command(OP_COMMIT, begin.session)]
  }

  lemma DataSnoc(session: int, pieces: seq<seq<byte>>, piece: seq<byte>, from: nat)
    requires from <= |pieces|
    ensures DataRequests(session, pieces + [piece], from)
            == DataRequests(session, pieces, from) + [Data(session, |pieces|, |Concat(pieces)|, piece)]
  {
    forall k | 0 <= k <= |pieces|
      ensures (pieces + [piece])[..k] == pieces[..k]
    {
    }
    assert pieces[..|pieces|] == pieces;
  }

  lemma DataJoin(session: int, pieces: seq<seq<byte>>, more: seq<seq<byte>>, from: nat)
    requires from <= |pieces|
    ensures DataRequests(session, pieces + more, from)
            == DataRequests(session, pieces, from) + DataRequests(session, pieces + more, |pieces|)
  {
    forall k | 0 <= k <= |pieces|
      ensures (pieces + more)[..k] == pieces[..k]
    {
    }
  }

  // ----- Automatic sessions are fresh -----

  /** Every BEGIN or DATA added to the log is for this session. */
  ghost predicate AddedFor(before: seq<Issued>, after: seq<Issued>, session: int) {
    && before <= after
    && forall i :: |before| <= i < |after| && after[i].Wave? && !after[i].request.Command?
                   ==> after[i].request.session == session
  }

  lemma AddedTransitive(a: seq<Issued>, b: seq<Issued>, c: seq<Issued>, session: int)
    requires AddedFor(a, b, session) && AddedFor(b, c, session)
    ensures AddedFor(a, c, session) && |a| <= |b| <= |c|
  {
    forall i | |a| <= i < |c| && c[i].Wave? && !c[i].request.Command?
      ensures c[i].request.session == session
    {
      assert i < |b| ==> b[i] == c[i];
    }
  }

  lemma AddedOne(issued: seq<Issued>, item: Issued, session: int)
    requires item.Wave? ==> item.request.session == session
    ensures AddedFor(issued, issued, session) && AddedFor(issued, issued + [item], session)
  {
  }

  /** Request i belongs to upload u, and every upload since has used a sequence number. */
  ghost predicate OwnedBy(issued: seq<Issued>, i: nat, u: nat, uploads: nat)
    requires i < |issued| && issued[i].Wave?
  {
    u < uploads && issued[i].request.session == SequenceAt(1, u) && uploads - u <= |issued| - i
  }

  /** From log entry `base` on, the driver object has made `uploads` uploads, each under its own run id. */
  ghost predicate Automatic(issued: seq<Issued>, base: nat, uploads: nat) {
    forall i: nat :: base <= i < |issued| && issued[i].Wave? && !issued[i].request.Command?
                     ==> exists u: nat :: OwnedBy(issued, i, u, uploads)
  }

  lemma AutomaticGrows(before: seq<Issued>, after: seq<Issued>, base: nat, uploads: nat)
    requires Automatic(before, base, uploads) && AddedFor(before, after, SequenceAt(1, uploads)) && |before| < |after|
    ensures Automatic(after, base, uploads + 1)
  {
    hide SequenceAt;
    var next := uploads + 1;
    forall i: nat | base <= i < |after| && after[i].Wave? && !after[i].request.Command?
      ensures exists u: nat :: OwnedBy(after, i, u, next)
    {
      if i < |before| {
        assert before[i] == after[i];
        var u: nat :| OwnedBy(before, i, u, uploads);
        assert OwnedBy(after, i, u, next);
      } else {
        assert OwnedBy(after, i, uploads, next);
      }
    }
  }

  lemma FullCycle(u: nat, v: nat)
    requires u < v && SequenceAt(1, u) == SequenceAt(1, v)
    ensures v - u >= MAX_AGE
  {
    SequenceCollision(1, v, u);
    if v - u < MAX_AGE {
      QuotientUnique(v - u, MAX_AGE, 0);
    }
  }

  /** The requests of other driver objects that can still write to this session:
      those on sockets of their own, and those an earlier object left in this log. */
  ghost predicate ElsewhereUnused(w: World, base: nat, session: int) {
    && (forall r :: r in w.others ==> !Writes(session, r))
    && (forall i: nat :: i < base && i < |w.issued| && |w.issued| - i < MAX_AGE && w.issued[i].Wave?
                         ==> !Writes(session, w.issued[i].request))
  }

  /** The run id and the sequence number wrap alike, and an upload uses at least
      one sequence number: by the time a run id comes back, every request of this
      object that carried it is too old to be delivered. So an automatic session
      is fresh exactly when no other driver object's request can still write to it. */
  lemma AutomaticIsFresh(w: World, base: nat, uploads: nat)
    requires Automatic(w.issued, base, uploads)
    ensures FreshSession(w, SequenceAt(1, uploads)) <==> ElsewhereUnused(w, base, SequenceAt(1, uploads))
  {
    hide SequenceAt;
    var session := SequenceAt(1, uploads);
    if ElsewhereUnused(w, base, session) {
      forall r
        ensures r !in Stale(w, session)
      {
        if r in Stale(w, session) {
          OwnIsOld(w, base, uploads, r);
        }
      }
    }
    if FreshSession(w, session) {
      FreshMeansUnused(w, base, session);
    }
  }

  lemma OwnIsOld(w: World, base: nat, uploads: nat, r: WaveRequest)
    requires Automatic(w.issued, base, uploads) && r in Stale(w, SequenceAt(1, uploads))
    ensures !ElsewhereUnused(w, base, SequenceAt(1, uploads))
  {
    hide SequenceAt;
    if r !in w.others {
      var i: nat :| i < |w.issued| && |w.issued| - i < MAX_AGE && w.issued[i].Wave? && w.issued[i].request == r;
      if base <= i {
        var u: nat :| OwnedBy(w.issued, i, u, uploads);
        FullCycle(u, uploads);
        assert false;
      }
    }
  }

  lemma FreshMeansUnused(w: World, base: nat, session: int)
    requires FreshSession(w, session)
    ensures ElsewhereUnused(w, base, session)
  {
    forall r | r in w.others
      ensures !Writes(session, r)
    {
      assert r !in Stale(w, session);
    }
    forall i: nat | i < base && i < |w.issued| && |w.issued| - i < MAX_AGE && w.issued[i].Wave?
      ensures !Writes(session, w.issued[i].request)
    {
      assert w.issued[i].request !in Stale(w, session);
    }
  }

  // ----- One request of an upload -----

  ghost predicate UploadInv(w: World, session: int, pool: iset<WaveRequest>) {
    OnlyPool(w, session, pool) && Coherent(w.board, session, pool)
  }

  function Issue(w: World, request: WaveRequest, seq_: nat): World {
    w.(issued := w.issued + [Wave(request, seq_)])
  }

  /** Event j of w1 served the request issued last in w0, and answered with `response`. */
  ghost predicate ServedAt(w0: World, w1: World, j: nat, seq_: nat, response: Response) {
    && |w0.history| <= j < |w1.history|
    && w1.history[j].index == |w0.issued|
    && response == WireReply(seq_, w1.history[j].reply)
  }

  /** The driver issued the request in w0, the network took the world to w1, and
      the response answers that very request. */
  ghost predicate Served(w0: World, w1: World, actions: seq<NetAction>, crc: Crc, request: WaveRequest, seq_: nat,
                         response: Response)
  {
    w1 == NetRun(Issue(w0, request, seq_), crc, actions) && exists j: nat :: ServedAt(w0, w1, j, seq_, response)
  }

  lemma IssueKeepsPool(w: World, session: int, pool: iset<WaveRequest>, request: WaveRequest, seq_: nat)
    requires OnlyPool(w, session, pool) && Carries(pool, session, request)
    ensures OnlyPool(Issue(w, request, seq_), session, pool)
  {
    var start := Issue(w, request, seq_);
    forall i: nat | Deliverable(start, i) && start.issued[i].Wave?
      ensures Carries(pool, session, start.issued[i].request)
    {
      if i < |w.issued| {
        assert Deliverable(w, i);
      }
    }
  }

  lemma StaleIsPool(w: World, session: int, pool: iset<WaveRequest>, request: WaveRequest, seq_: nat)
    requires Stale(w, session) <= pool && Carries(pool, session, request)
    ensures OnlyPool(Issue(w, request, seq_), session, pool)
  {
    var start := Issue(w, request, seq_);
    forall i: nat | Deliverable(start, i) && start.issued[i].Wave?
      ensures Carries(pool, session, start.issued[i].request)
    {
      if i < |w.issued| {
        assert start.issued[i] == w.issued[i];
        assert Carries(pool, session, start.issued[i].request) by {
          if Writes(session, start.issued[i].request) {
            assert start.issued[i].request in Stale(w, session);
          }
        }
      }
    }
    forall r | r in w.others
      ensures Carries(pool, session, r)
    {
      if Writes(session, r) {
        assert r in Stale(w, session);
      }
    }
  }

  lemma AfterBegin(w0: World, w1: World, actions: seq<NetAction>, crc: Crc, begin: WaveRequest, seq_: nat,
                   response: Response, pool: iset<WaveRequest>)
    requires WorldOk(w0, crc) && seq_ < WORD_RANGE && begin.Begin? && begin.session > 0 && InRange(begin)
    requires Stale(w0, begin.session) <= pool && begin in pool
    requires Served(w0, w1, actions, crc, begin, seq_, response)
    ensures UploadInv(w1, begin.session, pool)
  {
    hide WorldOk, BoardInv, Coherent, InRange, Carries;
    var j: nat :| ServedAt(w0, w1, j, seq_, response);
    var start := Issue(w0, begin, seq_);
    IssueKeepsWorldOk(w0, crc, Wave(begin, seq_));
    assert Carries(pool, begin.session, begin) by {
      BeginCarries(pool, begin);
    }
    StaleIsPool(w0, begin.session, pool, begin, seq_);
    NetRunKeepsWorldOk(start, crc, actions);
    ServedBeginMakesCoherent(start, crc, actions, j, begin, pool);
  }

  lemma BeginCarries(pool: iset<WaveRequest>, r: WaveRequest)
    requires r in pool
    ensures Carries(pool, r.session, r)
  {
  }

  lemma AfterRequest(w0: World, w1: World, actions: seq<NetAction>, crc: Crc, request: WaveRequest, seq_: nat,
                     session: int, pool: iset<WaveRequest>)
    requires WorldOk(w0, crc) && seq_ < WORD_RANGE && session > 0 && InRange(request)
    requires UploadInv(w0, session, pool) && Carries(pool, session, request)
    requires w1 == NetRun(Issue(w0, request, seq_), crc, actions)
    ensures UploadInv(w1, session, pool)
    ensures |w0.history| <= |w1.history|
    ensures forall j :: |w0.history| <= j < |w1.history| ==> Coherent(w1.history[j].before, session, pool)
  {
    hide WorldOk, BoardInv, Coherent, InRange, Carries;
    IssueKeepsWorldOk(w0, crc, Wave(request, seq_));
    IssueKeepsPool(w0, session, pool, request, seq_);
    NetRunKeepsCoherent(Issue(w0, request, seq_), crc, actions, session, pool);
  }

  /** Any acknowledged COMMIT of the session from a coherent state on commits a complete chain. */
  lemma CommitEvent(w: World, crc: Crc, j: nat, session: int, pool: iset<WaveRequest>)
    requires WorldOk(w, crc) && session > 0 && j < |w.history| && Coherent(w.history[j].before, session, pool)
    requires w.history[j].index < |w.issued| && w.history[j].reply.status == STATUS_OK
    requires w.issued[w.history[j].index].Wave?
    requires w.issued[w.history[j].index].request == Command(OP_COMMIT, session)
    ensures CommittedChain(w, j, session, pool, w.history[j].reply.descriptor)
  {
    hide WorldOk, Coherent, CommitWaveform, Chain;
    WorldEvent(w, crc, j);
    var e := w.history[j];
    assert Receive(e.before, crc, Command(OP_COMMIT, session)) == CommitWaveform(e.before, session);
    var begin, pieces := CommitSeesChain(e.before, crc, session, pool);
    ChainBegin(pool, session, begin, pieces);
    assert CommittedImage(w, j, begin, Concat(pieces));
  }

  lemma ChainBegin(pool: iset<WaveRequest>, session: int, begin: WaveRequest, pieces: seq<seq<byte>>)
    requires Chain(pool, session, begin, pieces)
    ensures begin.Begin? && begin.session == session
  {
  }

  lemma WorldEvent(w: World, crc: Crc, j: nat)
    requires WorldOk(w, crc) && j < |w.history|
    ensures EventOk(w, crc, j)
  {
  }

  // ----- Fragmentation -----

  /** The DATA payloads of one producer chunk. */
  function Fragments(raw: seq<byte>, packetBytes: nat): (pieces: seq<seq<byte>>)
    requires packetBytes > 0
  {
    if raw == [] then []
    else if |raw| <= packetBytes then [raw]
    else [raw[..packetBytes]] + Fragments(raw[packetBytes..], packetBytes)
  }

  type Chunk = (int, seq<byte>)

  function AllFragments(chunks: seq<Chunk>, packetBytes: nat): seq<seq<byte>>
    requires packetBytes > 0
  {
    if chunks == [] then [] else Fragments(chunks[0].1, packetBytes) + AllFragments(chunks[1..], packetBytes)
  }

  function ChunkBytes(chunks: seq<Chunk>): seq<byte> {
    if chunks == [] then [] else chunks[0].1 + ChunkBytes(chunks[1..])
  }

  /** The chunks are non-empty 32-byte multiples that run from offset `at` to `total` without a gap. */
  predicate Contiguous(chunks: seq<Chunk>, at: nat, total: int) {
    if chunks == [] then at == total
    else
      var (offset, raw) := chunks[0];
      && offset == at && raw != [] && |raw| % BEAT_BYTES == 0 && at + |raw| <= total
      && Contiguous(chunks[1..], at + |raw|, total)
  }

  lemma {:induction false} FragmentsConcat(raw: seq<byte>, packetBytes: nat)
    requires packetBytes > 0
    ensures Concat(Fragments(raw, packetBytes)) == raw
    ensures |Fragments(raw, packetBytes)| == CeilDiv(|raw|, packetBytes)
  {
    if raw == [] {
      CeilDivStep(0, packetBytes);
    } else if |raw| <= packetBytes {
      assert Concat([raw]) == raw + Concat([]);
      CeilDivStep(|raw|, packetBytes);
    } else {
      var rest := raw[packetBytes..];
      FragmentsConcat(rest, packetBytes);
      assert Concat(Fragments(raw, packetBytes)) == raw[..packetBytes] + Concat(Fragments(rest, packetBytes)) by {
        assert Fragments(raw, packetBytes)[1..] == Fragments(rest, packetBytes);
      }
      assert raw == raw[..packetBytes] + rest;
      CeilDivStep(|raw|, packetBytes);
    }
  }

  /** The pieces put back together are the producer's bytes. */
  lemma {:induction false} AllFragmentsConcat(chunks: seq<Chunk>, packetBytes: nat)
    requires packetBytes > 0
    ensures Concat(AllFragments(chunks, packetBytes)) == ChunkBytes(chunks)
  {
    if chunks == [] {
    } else {
      FragmentsConcat(chunks[0].1, packetBytes);
      AllFragmentsConcat(chunks[1..], packetBytes);
      ConcatAppend(Fragments(chunks[0].1, packetBytes), AllFragments(chunks[1..], packetBytes));
    }
  }

  lemma {:induction false} ContiguousBytes(chunks: seq<Chunk>, at: nat, total: int)
    requires Contiguous(chunks, at, total)
    ensures at + |ChunkBytes(chunks)| == total
  {
    if chunks == [] {
    } else {
      ContiguousBytes(chunks[1..], at + |chunks[0].1|, total);
    }
  }

  /** At least ceil(total / packetBytes) packets are sent, and exactly that many
      when every chunk but the last is a whole number of packets. */
  lemma {:induction false} PacketCount(chunks: seq<Chunk>, packetBytes: nat)
    requires packetBytes > 0
    ensures |AllFragments(chunks, packetBytes)| >= CeilDiv(|ChunkBytes(chunks)|, packetBytes)
    ensures (forall i :: 0 <= i < |chunks| - 1 ==> |chunks[i].1| % packetBytes == 0)
            ==> |AllFragments(chunks, packetBytes)| == CeilDiv(|ChunkBytes(chunks)|, packetBytes)
  {
    if chunks == [] {
      CeilDivStep(0, packetBytes);
    } else {
      FragmentsConcat(chunks[0].1, packetBytes);
      PacketCount(chunks[1..], packetBytes);
      CeilDivSum(|chunks[0].1|, |ChunkBytes(chunks[1..])|, packetBytes);
      assert forall i :: 0 <= i < |chunks| - 2 ==> chunks[1..][i] == chunks[i + 1];
      if |chunks| == 1 {
        CeilDivStep(0, packetBytes);
        assert chunks[1..] == [];
      }
    }
  }
}
