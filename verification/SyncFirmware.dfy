/** The firmware's SYNC-epoch transaction and its packed status word (firmware/src/main.c). */
module SyncFirmware {
  import opened Bytes

  const REQUIRED: bv32 := 0x0000_0002
  const READY: bv32 := 0x0000_0004
  const FAILED: bv32 := 0x0000_0008
  const TILES: bv32 := 0x0000_00F0
  const NCO_READY: bv32 := 0x0100_0000
  const ACK_MASK: bv32 := 0x7E00_0000
  const EPOCH_MASK: bv32 := 0x3F

  const MTS_OK: bv32 := 0
  const XST_FAILURE: bv32 := 1

  function EpochOf(word: bv32): bv32 {
    (word >> 25) & EPOCH_MASK
  }

  function AckField(epoch: bv32): bv32 {
    (epoch & EPOCH_MASK) << 25
  }

  function ErrorOf(word: bv32): bv32 {
    (word >> 8) & 0xFFFF
  }

  predicate Has(word: bv32, flag: bv32) {
    word & flag != 0
  }

  predicate IsEpoch(epoch: bv32) {
    epoch & EPOCH_MASK == epoch
  }

  /** The ACK global holds nothing but a shifted epoch. */
  predicate IsAck(ack: bv32) {
    ack & !ACK_MASK == 0
  }

  function LowError(error: bv32): bv32 {
    error & 0xFFFF
  }

  function MtsStatus(ack: bv32, ready: bool, failed: bool, error: bv32): bv32 {
    REQUIRED | TILES | (LowError(error) << 8) | ack | (if ready then READY else 0) | (if failed then FAILED else 0)
  }

  function WithAck(status: bv32, ack: bv32): bv32 {
    (status & !ACK_MASK) | ack
  }

  function WithNco(status: bv32): bv32 {
    status | NCO_READY
  }

  function WithoutResult(status: bv32): bv32 {
    status & !(READY | FAILED | NCO_READY)
  }

  /** What the RFDC driver answers during one alignment: datapath reinitialization,
      the measuring and the pinning MTS pass, and the NCO alignment. */
  datatype Outcome = Outcome(reinit: bool, measure: bv32, pin: bv32, nco: bool) {
    predicate MtsOk() {
      measure == MTS_OK && pin == MTS_OK
    }

    predicate Succeeds() {
      reinit && MtsOk() && nco
    }

    /** The error code a failed alignment reports. */
    function Error(): bv32 {
      if !reinit || MtsOk() then XST_FAILURE else LowError(if measure != MTS_OK then measure else pin)
    }
  }

  /** The two status globals and everything written to the status register. */
  datatype State = State(status: bv32, ack: bv32, published: seq<bv32>)

  function Write(s: State, status: bv32): State {
    s.(status := status, published := s.published + [status])
  }

  function PublishMts(s: State, ready: bool, failed: bool, error: bv32): State {
    Write(s, MtsStatus(s.ack, ready, failed, error))
  }

  function PublishAck(s: State, epoch: bv32): State {
    var t := s.(ack := AckField(epoch));
    Write(t, WithAck(t.status, t.ack))
  }

  function PublishFailure(s: State, epoch: bv32, error: bv32): State {
    PublishMts(s.(ack := AckField(epoch)), false, true, error)
  }

  function PublishNcoReady(s: State): State {
    Write(s, WithAck(WithNco(s.status), s.ack))
  }

  function ConfigureMts(s: State, o: Outcome): State {
    if o.measure != MTS_OK then PublishMts(s, false, true, o.measure)
    else if o.pin != MTS_OK then PublishMts(s, false, true, o.pin)
    else PublishMts(s, true, false, 0)
  }

  function Realign(s: State, epoch: bv32, o: Outcome): State {
    var cleared := PublishMts(s.(status := WithoutResult(s.status)), false, false, 0);
    if !o.reinit then PublishFailure(cleared, epoch, XST_FAILURE)
    else
      var mts := ConfigureMts(cleared, o);
      if !o.MtsOk() then PublishFailure(mts, epoch, ErrorOf(mts.status))
      else if !o.nco then PublishFailure(mts, epoch, XST_FAILURE)
      else PublishAck(PublishNcoReady(mts), epoch)
  }

  /** One turn of the poll loop: the register read, and what an alignment would meet. */
  datatype Poll = Poll(register: bv32, outcome: Outcome)

  function PollStep(s: State, last: bv32, p: Poll): (State, bv32) {
    var epoch := EpochOf(p.register);
    if epoch != last then (Realign(s, epoch, p.outcome), epoch) else (s, last)
  }

  function PollRun(s: State, last: bv32, polls: seq<Poll>): (State, bv32) {
    if polls == [] then (s, last)
    else
      var (t, e) := PollRun(s, last, polls[..|polls| - 1]);
      PollStep(t, e, polls[|polls| - 1])
  }

  /** Power-up to the poll loop, or to a halt with the output blocked. */
  datatype Boot = Halted(state: State) | Polling(state: State)

  /** The GPIO setup publishes the first word; `reinit` stands for the RFDC setup before MTS. */
  function Startup(o: Outcome): Boot {
    var first := PublishMts(State(0, 0, []), false, false, 0);
    if !o.reinit then Halted(first)
    else
      var mts := ConfigureMts(first, o);
      if !o.MtsOk() || !o.nco then Halted(mts) else Polling(PublishNcoReady(mts))
  }

  // ----- Safety -----

  /** READY and FAILED never together, NCO ready only when MTS is ready, and MTS
      always required of all four tiles. */
  predicate SafeWord(word: bv32) {
    && !(Has(word, READY) && Has(word, FAILED))
    && (Has(word, NCO_READY) ==> Has(word, READY))
    && Has(word, REQUIRED) && word & 0xF0 == 0xF0
  }

  /** The flags of a status word: required in bit 1, READY in 2, FAILED in 3 and the
      tiles in 4..7; bits 24 and 31 are clear. */
  lemma FlagLayout(ack: bv32, ready: bool, failed: bool, error: bv32)
    requires IsAck(ack)
    ensures MtsStatus(ack, ready, failed, error) & 0x8100_00FF
            == 0xF2 | (if ready then 0x4 else 0) | (if failed then 0x8 else 0)
  {
  }

  /** The error code is in bits 8..23 and the epoch in bits 25..30. */
  lemma FieldLayout(word: bv32)
    ensures ErrorOf(word) <= 0xFFFF && ErrorOf(word) << 8 == word & 0xFF_FF00
    ensures EpochOf(word) <= 0x3F && EpochOf(word) << 25 == word & 0x7E00_0000
  {
  }

  /** Publishing NCO_SYNC_READY or a new ACK touches its own bits only. */
  lemma OtherBitsStay(word: bv32, ack: bv32)
    ensures WithNco(word) == word | 0x100_0000
    ensures WithAck(word, ack) == (word & 0x81FF_FFFF) | ack
  {
    assert !ACK_MASK == 0x81FF_FFFF;
  }

  predicate StateOk(s: State) {
    && s.published != [] && s.published[|s.published| - 1] == s.status
    && (forall k :: 0 <= k < |s.published| ==> SafeWord(s.published[k]))
    && IsAck(s.ack) && EpochOf(s.status) == EpochIn(s.ack)
  }

  /** The epoch an ACK global stands for. */
  function EpochIn(ack: bv32): bv32 {
    ack >> 25
  }

  lemma MtsWord(ack: bv32, ready: bool, failed: bool, error: bv32)
    requires IsAck(ack) && !(ready && failed)
    ensures var word := MtsStatus(ack, ready, failed, error);
            && SafeWord(word) && EpochOf(word) == EpochIn(ack)
            && Has(word, READY) == ready && Has(word, FAILED) == failed && !Has(word, NCO_READY)
            && ErrorOf(word) == LowError(error)
  {
    hide MtsStatus, SafeWord, EpochOf, EpochIn, Has, ErrorOf, LowError, IsAck;
    MtsFlags(ack, ready, failed, error);
    MtsEpoch(ack, ready, failed, error);
    MtsError(ack, ready, failed, error);
  }

  lemma MtsFlags(ack: bv32, ready: bool, failed: bool, error: bv32)
    requires IsAck(ack) && !(ready && failed)
    ensures var word := MtsStatus(ack, ready, failed, error);
            SafeWord(word) && Has(word, READY) == ready && Has(word, FAILED) == failed && !Has(word, NCO_READY)
  {
  }

  lemma MtsEpoch(ack: bv32, ready: bool, failed: bool, error: bv32)
    requires IsAck(ack)
    ensures EpochOf(MtsStatus(ack, ready, failed, error)) == EpochIn(ack)
  {
  }

  lemma MtsError(ack: bv32, ready: bool, failed: bool, error: bv32)
    requires IsAck(ack)
    ensures ErrorOf(MtsStatus(ack, ready, failed, error)) == LowError(error)
  {
  }

  lemma NcoWord(status: bv32, ack: bv32)
    requires SafeWord(status) && Has(status, READY) && IsAck(ack)
    ensures var word := WithAck(WithNco(status), ack);
            && SafeWord(word) && Has(word, READY) && !Has(word, FAILED) && Has(word, NCO_READY)
            && EpochOf(word) == EpochIn(ack)
  {
  }

  lemma AckWord(status: bv32, ack: bv32)
    requires SafeWord(status) && IsAck(ack)
    ensures var word := WithAck(status, ack);
            && SafeWord(word) && EpochOf(word) == EpochIn(ack)
            && Has(word, READY) == Has(status, READY) && Has(word, FAILED) == Has(status, FAILED)
            && Has(word, NCO_READY) == Has(status, NCO_READY)
  {
  }

  lemma AckRoundTrip(epoch: bv32)
    requires IsEpoch(epoch)
    ensures IsAck(AckField(epoch)) && EpochIn(AckField(epoch)) == epoch
  {
  }

  /** The words one alignment attempt publishes, oldest first. */
  function AttemptWords(before: State, after: State): seq<bv32> {
    if |before.published| <= |after.published| then after.published[|before.published|..] else []
  }

  /** One attempt: earlier words keep the old ACK; the first of them is not FAILED,
      and one of them already shows NCO_SYNC_READY exactly if everything succeeds; the
      last word carries the new ACK, with READY and NCO_SYNC_READY if everything succeeded and with FAILED
      and the error code if anything did not. */
  ghost predicate AttemptOk(before: State, after: State, epoch: bv32, o: Outcome) {
    && before.published < after.published
    && (var words := AttemptWords(before, after);
        var final := words[|words| - 1];
        && (forall k :: 0 <= k < |words| - 1 ==> EpochOf(words[k]) == EpochOf(before.status))
        && |words| > 1 && !Has(words[0], FAILED)
        && (o.Succeeds() <==> exists k :: 0 <= k < |words| - 1 && Has(words[k], NCO_READY))
        && EpochOf(final) == epoch
        && (o.Succeeds() ==> Has(final, READY) && Has(final, NCO_READY) && !Has(final, FAILED))
        && (!o.Succeeds() ==>
              && Has(final, FAILED) && !Has(final, READY) && !Has(final, NCO_READY)
              && ErrorOf(final) == o.Error()))
  }

  ghost predicate AllSafe(words: seq<bv32>) {
    forall k :: 0 <= k < |words| ==> SafeWord(words[k])
  }

  lemma PublishMtsOk(s: State, ready: bool, failed: bool, error: bv32)
    requires IsAck(s.ack) && !(ready && failed) && AllSafe(s.published)
    ensures var t := PublishMts(s, ready, failed, error);
            && StateOk(t) && t.ack == s.ack && t.published == s.published + [t.status]
            && EpochOf(t.status) == EpochIn(s.ack)
            && Has(t.status, READY) == ready && Has(t.status, FAILED) == failed && !Has(t.status, NCO_READY)
            && ErrorOf(t.status) == LowError(error)
  {
    hide MtsStatus, SafeWord, EpochOf, ErrorOf, Has, IsAck, EpochIn, LowError;
    MtsWord(s.ack, ready, failed, error);
  }

  lemma PublishFailureOk(s: State, epoch: bv32, error: bv32)
    requires AllSafe(s.published) && IsEpoch(epoch)
    ensures var t := PublishFailure(s, epoch, error);
            && StateOk(t) && t.published == s.published + [t.status]
            && EpochOf(t.status) == epoch && Has(t.status, FAILED) && !Has(t.status, READY) && !Has(t.status, NCO_READY)
            && ErrorOf(t.status) == LowError(error)
  {
    hide PublishMts, SafeWord, EpochOf, ErrorOf, Has, IsAck, IsEpoch, EpochIn, AckField, LowError, StateOk;
    AckRoundTrip(epoch);
    PublishMtsOk(s.(ack := AckField(epoch)), false, true, error);
  }

  lemma PublishSuccessOk(s: State, epoch: bv32)
    requires StateOk(s) && Has(s.status, READY) && IsEpoch(epoch)
    ensures var n, t := PublishNcoReady(s), PublishAck(PublishNcoReady(s), epoch);
            && StateOk(n) && StateOk(t) && t.published == s.published + [n.status, t.status]
            && EpochOf(n.status) == EpochOf(s.status) && EpochOf(t.status) == epoch && Has(n.status, NCO_READY)
            && Has(t.status, READY) && Has(t.status, NCO_READY) && !Has(t.status, FAILED)
  {
    hide WithAck, WithNco, SafeWord, EpochOf, ErrorOf, Has, IsAck, IsEpoch, EpochIn, AckField;
    assert SafeWord(s.status);
    NcoWord(s.status, s.ack);
    AckRoundTrip(epoch);
    AckWord(PublishNcoReady(s).status, AckField(epoch));
  }

  lemma ConfigureMtsOk(s: State, o: Outcome)
    requires IsAck(s.ack) && AllSafe(s.published)
    ensures var t := ConfigureMts(s, o);
            && StateOk(t) && t.ack == s.ack && t.published == s.published + [t.status]
            && EpochOf(t.status) == EpochIn(s.ack)
            && Has(t.status, READY) == o.MtsOk() && !Has(t.status, NCO_READY)
            && (!o.MtsOk() ==> ErrorOf(t.status) == LowError(if o.measure != MTS_OK then o.measure else o.pin))
  {
    hide PublishMts, StateOk, SafeWord, EpochOf, ErrorOf, Has, IsAck, EpochIn, LowError;
    if o.measure != MTS_OK {
      PublishMtsOk(s, false, true, o.measure);
    } else if o.pin != MTS_OK {
      PublishMtsOk(s, false, true, o.pin);
    } else {
      PublishMtsOk(s, true, false, 0);
    }
  }

  lemma LowErrorTwice(x: bv32)
    ensures LowError(LowError(x)) == LowError(x) && LowError(XST_FAILURE) == XST_FAILURE
  {
  }

  lemma StateIsSafe(s: State)
    requires StateOk(s)
    ensures AllSafe(s.published) && IsAck(s.ack) && EpochOf(s.status) == EpochIn(s.ack)
    ensures s.published != [] && s.published[|s.published| - 1] == s.status
  {
  }

  /** The words of an attempt that has published `middle` and then `final`. */
  lemma AttemptFrom(s: State, t: State, middle: seq<bv32>, final: bv32, epoch: bv32, o: Outcome)
    requires t.published == s.published + middle + [final]
    requires forall k :: 0 <= k < |middle| ==> EpochOf(middle[k]) == EpochOf(s.status)
    requires middle != [] && !Has(middle[0], FAILED)
    requires o.Succeeds() <==> exists k :: 0 <= k < |middle| && Has(middle[k], NCO_READY)
    requires EpochOf(final) == epoch
    requires o.Succeeds() ==> Has(final, READY) && Has(final, NCO_READY) && !Has(final, FAILED)
    requires !o.Succeeds() ==>
               Has(final, FAILED) && !Has(final, READY) && !Has(final, NCO_READY) && ErrorOf(final) == o.Error()
    ensures AttemptOk(s, t, epoch, o)
  {
    hide EpochOf, ErrorOf, Has;
    var words := AttemptWords(s, t);
    assert words == middle + [final];
    assert forall k :: 0 <= k < |middle| ==> words[k] == middle[k];
  }

  /** An attempt for an epoch keeps every word safe and acknowledges as AttemptOk says. */
  lemma RealignIsSafe(s: State, epoch: bv32, o: Outcome)
    requires StateOk(s) && IsEpoch(epoch)
    ensures var t := Realign(s, epoch, o);
            StateOk(t) && EpochOf(t.status) == epoch && AttemptOk(s, t, epoch, o)
  {
    hide PublishMts, PublishFailure, PublishAck, PublishNcoReady, ConfigureMts, WithoutResult;
    hide StateOk, AttemptOk, SafeWord, EpochOf, ErrorOf, Has, IsAck, IsEpoch, EpochIn, LowError, AllSafe;
    StateIsSafe(s);
    var start := s.(status := WithoutResult(s.status));
    var cleared := PublishMts(start, false, false, 0);
    PublishMtsOk(start, false, false, 0);
    StateIsSafe(cleared);
    var t := Realign(s, epoch, o);
    LowErrorTwice(if o.measure != MTS_OK then o.measure else o.pin);
    if !o.reinit {
      PublishFailureOk(cleared, epoch, XST_FAILURE);
      AttemptFrom(s, t, [cleared.status], t.status, epoch, o);
    } else {
      ConfigureMtsOk(cleared, o);
      var mts := ConfigureMts(cleared, o);
      StateIsSafe(mts);
      if !o.Succeeds() {
        var error := if !o.MtsOk() then ErrorOf(mts.status) else XST_FAILURE;
        PublishFailureOk(mts, epoch, error);
        AttemptFrom(s, t, [cleared.status, mts.status], t.status, epoch, o);
      } else {
        PublishSuccessOk(mts, epoch);
        var middle := [cleared.status, mts.status, PublishNcoReady(mts).status];
        assert Has(middle[2], NCO_READY);
        AttemptFrom(s, t, middle, t.status, epoch, o);
      }
    }
  }

  /** What the last word of an attempt reports: success exactly if the datapath came
      up, both MTS passes and the NCO alignment succeeded, and otherwise the code of
      the first step that failed. */
  lemma OutcomeReported(s: State, epoch: bv32, o: Outcome)
    requires StateOk(s) && IsEpoch(epoch)
    ensures var final := Realign(s, epoch, o).status;
            && (final & 0x0100_000C == 0x0100_0004 <==> o.reinit && o.measure == 0 && o.pin == 0 && o.nco)
            && (final & 0x0100_000C != 0x0100_0004 ==>
                  && final & 0x0100_000C == 0x8
                  && ErrorOf(final) == if o.reinit && o.measure != 0 then o.measure & 0xFFFF
                                       else if o.reinit && o.pin != 0 then o.pin & 0xFFFF
                                       else 1)
  {
    hide Realign, StateOk, SafeWord, EpochOf, ErrorOf, Has, Outcome.Error;
    ErrorMeaning(o);
    RealignIsSafe(s, epoch, o);
    var t := Realign(s, epoch, o);
    StateIsSafe(t);
    assert AttemptWords(s, t)[|AttemptWords(s, t)| - 1] == t.status;
    FlagsOf(t.status);
  }

  lemma ErrorMeaning(o: Outcome)
    ensures o.reinit && o.measure != 0 ==> o.Error() == o.measure & 0xFFFF
    ensures o.reinit && o.measure == 0 && o.pin != 0 ==> o.Error() == o.pin & 0xFFFF
    ensures !o.reinit || (o.measure == 0 && o.pin == 0) ==> o.Error() == 1
  {
  }

  lemma FlagsOf(word: bv32)
    ensures Has(word, READY) && Has(word, NCO_READY) && !Has(word, FAILED) ==> word & 0x0100_000C == 0x0100_0004
    ensures Has(word, FAILED) && !Has(word, READY) && !Has(word, NCO_READY) ==> word & 0x0100_000C == 0x8
  {
  }

  lemma EpochIsMasked(word: bv32)
    ensures IsEpoch(EpochOf(word))
  {
  }

  /** In every run of the poll loop: every word ever published is safe, the ACK
      field at the loop head is the last consumed epoch, and each attempt
      acknowledges its own epoch as AttemptOk says. */
  lemma {:induction false} PollRunIsSafe(s: State, last: bv32, polls: seq<Poll>)
    requires StateOk(s) && EpochOf(s.status) == last
    ensures var (t, e) := PollRun(s, last, polls);
            StateOk(t) && EpochOf(t.status) == e
    ensures forall i :: 0 <= i < |polls| ==> PollAcknowledges(s, last, polls, i)
  {
    hide Realign, AttemptOk, EpochOf, StateOk;
    if polls == [] {
    } else {
      var prefix := polls[..|polls| - 1];
      PollRunIsSafe(s, last, prefix);
      var (t, e) := PollRun(s, last, prefix);
      var p := polls[|polls| - 1];
      EpochIsMasked(p.register);
      RealignIsSafe(t, EpochOf(p.register), p.outcome);
      forall i | 0 <= i < |polls|
        ensures PollAcknowledges(s, last, polls, i)
      {
        if i < |prefix| {
          assert PollAcknowledges(s, last, prefix, i);
          assert prefix[..i] == polls[..i] && prefix[..i + 1] == polls[..i + 1];
        } else {
          assert polls[..i + 1] == polls && polls[..i] == prefix;
        }
      }
    }
  }

  /** Poll i either sees no new epoch and publishes nothing, or makes one attempt. */
  ghost predicate PollAcknowledges(s: State, last: bv32, polls: seq<Poll>, i: nat)
    requires i < |polls|
  {
    var (before, previous) := PollRun(s, last, polls[..i]);
    var (after, _) := PollRun(s, last, polls[..i + 1]);
    var epoch := EpochOf(polls[i].register);
    if epoch == previous then after == before else AttemptOk(before, after, epoch, polls[i].outcome)
  }

  /** An unfailed word that acknowledges the epoch of its own attempt is the last
      word of an attempt in which everything succeeded. */
  lemma UnfailedAckIsEarned(before: State, after: State, epoch: bv32, o: Outcome, k: nat)
    requires AttemptOk(before, after, epoch, o) && EpochOf(before.status) != epoch
    requires k < |AttemptWords(before, after)|
    requires EpochOf(AttemptWords(before, after)[k]) == epoch && !Has(AttemptWords(before, after)[k], FAILED)
    ensures o.Succeeds() && k == |AttemptWords(before, after)| - 1
    ensures Has(AttemptWords(before, after)[k], READY) && Has(AttemptWords(before, after)[k], NCO_READY)
  {
  }

  /** A boot either halts without NCO_SYNC_READY, or enters the loop with ACK zero,
      the epoch the loop starts from. */
  lemma StartupIsSafe(o: Outcome)
    ensures var boot := Startup(o);
            && StateOk(boot.state) && EpochOf(boot.state.status) == 0
            && (boot.Polling? <==> o.Succeeds())
            && (Has(boot.state.status, NCO_READY) <==> boot.Polling?)
  {
    hide PublishMts, ConfigureMts, WithAck, WithNco;
    PublishMtsOk(State(0, 0, []), false, false, 0);
    var first := PublishMts(State(0, 0, []), false, false, 0);
    ConfigureMtsOk(first, o);
    var mts := ConfigureMts(first, o);
    if o.MtsOk() {
      NcoWord(mts.status, mts.ack);
      assert SafeWord(mts.status);
    }
  }

  // ----- Reading a success from the ACK -----

  /** The epoch consumed before poll n. */
  function LastEpoch(last: bv32, polls: seq<Poll>, n: nat): bv32
    requires n <= |polls|
  {
    if n == 0 then last else EpochOf(polls[n - 1].register)
  }

  /** Poll i makes an alignment attempt. */
  predicate Attempts(last: bv32, polls: seq<Poll>, i: nat)
    requires i < |polls|
  {
    EpochOf(polls[i].register) != LastEpoch(last, polls, i)
  }

  /** Whether the latest attempt for the epoch in the first n polls succeeded; None if there was none. */
  function EpochOutcome(last: bv32, polls: seq<Poll>, n: nat, epoch: bv32): Option<bool>
    requires n <= |polls|
  {
    if n == 0 then None
    else if Attempts(last, polls,
                     n - 1) && EpochOf(polls[n - 1].register) == epoch then Some(polls[n - 1].outcome.Succeeds())
    else EpochOutcome(last, polls, n - 1, epoch)
  }

  /** The outcome of the latest attempt of all in the first n polls. */
  function LastOutcome(last: bv32, polls: seq<Poll>, n: nat): Option<bool>
    requires n <= |polls|
  {
    if n == 0 then None
    else if Attempts(last, polls, n - 1) then Some(polls[n - 1].outcome.Succeeds())
    else LastOutcome(last, polls, n - 1)
  }

  /** The words poll i publishes. */
  function PollWords(s: State, last: bv32, polls: seq<Poll>, i: nat): seq<bv32>
    requires i < |polls|
  {
    AttemptWords(PollRun(s, last, polls[..i]).0, PollRun(s, last, polls[..i + 1]).0)
  }

  /** Every word of poll i without FAILED names an epoch whose latest attempt
      succeeded, or one never attempted in this run. */
  ghost predicate Truthful(s: State, last: bv32, polls: seq<Poll>, i: nat)
    requires i < |polls|
  {
    forall k :: 0 <= k < |PollWords(s, last, polls, i)| && !Has(PollWords(s, last, polls, i)[k], FAILED) ==>
      EpochOutcome(last, polls, i + 1, EpochOf(PollWords(s, last, polls, i)[k])) != Some(false)
  }

  /** The same for the words with NCO_SYNC_READY. */
  ghost predicate NcoTruthful(s: State, last: bv32, polls: seq<Poll>, i: nat)
    requires i < |polls|
  {
    forall k :: 0 <= k < |PollWords(s, last, polls, i)| && Has(PollWords(s, last, polls, i)[k], NCO_READY) ==>
      EpochOutcome(last, polls, i + 1, EpochOf(PollWords(s, last, polls, i)[k])) != Some(false)
  }

  /** The latest attempt is the latest one for the epoch the loop holds. */
  lemma {:induction false} HeldEpochOutcome(last: bv32, polls: seq<Poll>, n: nat)
    requires n <= |polls|
    ensures EpochOutcome(last, polls, n, LastEpoch(last, polls, n)) == LastOutcome(last, polls, n)
  {
    hide EpochOf;
    if n == 0 {
    } else {
      HeldEpochOutcome(last, polls, n - 1);
    }
  }

  lemma {:induction false} PollEpoch(s: State, last: bv32, polls: seq<Poll>, n: nat)
    requires n <= |polls|
    ensures PollRun(s, last, polls[..n]).1 == LastEpoch(last, polls, n)
  {
    hide EpochOf, Realign;
    if n == 0 {
    } else {
      PollEpoch(s, last, polls, n - 1);
      assert polls[..n][..n - 1] == polls[..n - 1];
    }
  }

  /** The words of an attempt, read against the outcomes so far. */
  lemma AttemptReading(before: State, after: State, epoch: bv32, o: Outcome, held: Option<bool>, k: nat)
    requires AttemptOk(before, after, epoch, o) && EpochOf(before.status) != epoch && k < |AttemptWords(before, after)|
    requires AllSafe(AttemptWords(before, after))
    ensures var word := AttemptWords(before, after)[k];
            var outcome := if EpochOf(word) == epoch then Some(o.Succeeds()) else held;
            && (EpochOf(word) == epoch || EpochOf(word) == EpochOf(before.status))
            && (held != Some(false) && !Has(word, FAILED) ==> outcome != Some(false))
            && (held != Some(false) || !o.Succeeds() ==> Has(word, NCO_READY) ==> outcome != Some(false))
  {
    hide EpochOf, ErrorOf;
    assert SafeWord(AttemptWords(before, after)[k]);
    hide Has;
  }

  lemma PollAttempt(s: State, last: bv32, polls: seq<Poll>, i: nat)
    requires StateOk(s) && EpochOf(s.status) == last && i < |polls|
    ensures var before, after := PollRun(s, last, polls[..i]).0, PollRun(s, last, polls[..i + 1]).0;
            && EpochOf(before.status) == LastEpoch(last, polls, i)
            && (!Attempts(last, polls, i) ==> PollWords(s, last, polls, i) == [])
            && (Attempts(last, polls, i) ==>
                  AttemptOk(before, after, EpochOf(polls[i].register),
                            polls[i].outcome) && AllSafe(PollWords(s, last, polls, i)))
  {
    hide Realign, AttemptOk, EpochOf, SafeWord, Has, IsAck, EpochIn;
    PollEpoch(s, last, polls, i);
    PollRunIsSafe(s, last, polls[..i]);
    PollRunIsSafe(s, last, polls[..i + 1]);
    assert polls[..i + 1][..i] == polls[..i] && polls[..i + 1][..i + 1] == polls[..i + 1];
    assert PollAcknowledges(s, last, polls[..i + 1], i);
  }

  /** Poll i is truthful exactly if it makes no attempt or the attempt before it did not fail. */
  lemma PollIsTruthful(s: State, last: bv32, polls: seq<Poll>, i: nat)
    requires StateOk(s) && EpochOf(s.status) == last && i < |polls|
    ensures Truthful(s, last, polls, i) <==> !Attempts(last, polls, i) || LastOutcome(last, polls, i) != Some(false)
    ensures NcoTruthful(s, last, polls, i) <==>
            !Attempts(last, polls, i) || LastOutcome(last, polls, i) != Some(false) || !polls[i].outcome.Succeeds()
  {
    hide Realign, AttemptOk, EpochOf, SafeWord, Has, PollRun, StateOk, AllSafe;
    PollAttempt(s, last, polls, i);
    HeldEpochOutcome(last, polls, i);
    if Attempts(last, polls, i) {
      var before, after := PollRun(s, last, polls[..i]).0, PollRun(s, last, polls[..i + 1]).0;
      var epoch, o, held := EpochOf(polls[i].register), polls[i].outcome, LastOutcome(last, polls, i);
      forall k: nat | k < |PollWords(s, last, polls, i)|
        ensures var word := PollWords(s, last, polls, i)[k];
                var outcome := EpochOutcome(last, polls, i + 1, EpochOf(word));
                && (held != Some(false) && !Has(word, FAILED) ==> outcome != Some(false))
                && (held != Some(false) || !o.Succeeds() ==> Has(word, NCO_READY) ==> outcome != Some(false))
      {
        AttemptReading(before, after, epoch, o, held, k);
      }
      if held == Some(false) {
        FailureShows(before, after, epoch, o);
        var words := PollWords(s, last, polls, i);
        assert EpochOutcome(last, polls, i + 1, EpochOf(words[0])) == Some(false);
        if o.Succeeds() {
          var k :| 0 <= k < |words| - 1 && Has(words[k], NCO_READY) && EpochOf(words[k]) == EpochOf(before.status);
          assert EpochOutcome(last, polls, i + 1, EpochOf(words[k])) == Some(false);
        }
      }
    }
  }

  /** The first word of an attempt has the old ACK without FAILED; a successful
      attempt also publishes the old ACK with NCO_SYNC_READY. */
  lemma FailureShows(before: State, after: State, epoch: bv32, o: Outcome)
    requires AttemptOk(before, after, epoch, o) && EpochOf(before.status) != epoch
    ensures var words := AttemptWords(before, after);
            && |words| > 1 && !Has(words[0], FAILED) && EpochOf(words[0]) == EpochOf(before.status)
            && (o.Succeeds() ==>
                  exists k :: 0 <= k < |words| - 1 && Has(words[k], NCO_READY)
                              && EpochOf(words[k]) == EpochOf(before.status))
  {
    hide EpochOf, ErrorOf, Has;
  }

  /** The attempt LastOutcome speaks of. */
  lemma {:induction false} LatestAttempt(last: bv32, polls: seq<Poll>, n: nat) returns (a: nat)
    requires n <= |polls| && LastOutcome(last, polls, n).Some?
    ensures a < n && Attempts(last, polls, a) && LastOutcome(last, polls, n) == Some(polls[a].outcome.Succeeds())
    ensures forall b :: a < b < n ==> !Attempts(last, polls, b)
  {
    hide Attempts;
    if Attempts(last, polls, n - 1) {
      a := n - 1;
    } else {
      a := LatestAttempt(last, polls, n - 1);
    }
  }

  lemma {:induction false} SomeAttempt(last: bv32, polls: seq<Poll>, a: nat, n: nat)
    requires a < n <= |polls| && Attempts(last, polls, a)
    ensures LastOutcome(last, polls, n).Some?
  {
    hide Attempts;
    if n == a + 1 {
    } else {
      SomeAttempt(last, polls, a, n - 1);
    }
  }

  /** A failed attempt shows at the next one. */
  lemma {:induction false} FailureReaches(last: bv32, polls: seq<Poll>, a: nat, b: nat) returns (i: nat)
    requires a < b < |polls| && Attempts(last, polls, a) && Attempts(last, polls, b) && !polls[a].outcome.Succeeds()
    ensures a < i <= b && Attempts(last, polls, i) && LastOutcome(last, polls, i) == Some(false)
    ensures polls[b].outcome.Succeeds() ==>
              exists c :: a < c <= b && Attempts(last, polls, c) && LastOutcome(last, polls, c) == Some(false)
                          && polls[c].outcome.Succeeds()
    decreases b
  {
    hide Attempts;
    SomeAttempt(last, polls, a, b);
    var c := LatestAttempt(last, polls, b);
    if c == a || !polls[c].outcome.Succeeds() {
      i := b;
    } else {
      i := FailureReaches(last, polls, a, c);
    }
  }

  /** For every run: a word without FAILED can be read as the success of the epoch
      it names if and only if no failed attempt is followed by another attempt. */
  lemma AckIsTruthfulIff(s: State, last: bv32, polls: seq<Poll>)
    requires StateOk(s) && EpochOf(s.status) == last
    ensures (forall i: nat :: i < |polls| ==> Truthful(s, last, polls, i)) <==>
            forall a: nat, b: nat :: a < b < |polls| && Attempts(last, polls, a) && Attempts(last, polls, b)
                                     ==> polls[a].outcome.Succeeds()
  {
    hide Truthful, StateOk, Attempts, EpochOf, LastOutcome;
    forall i: nat | i < |polls|
      ensures Truthful(s, last, polls, i) <==> !Attempts(last, polls, i) || LastOutcome(last, polls, i) != Some(false)
    {
      PollIsTruthful(s, last, polls, i);
    }
    forall a: nat, b: nat | a < b < |polls| && Attempts(last, polls, a) && Attempts(last, polls, b)
      ensures !polls[a].outcome.Succeeds() ==> exists i: nat :: i < |polls| && !Truthful(s, last, polls, i)
    {
      if !polls[a].outcome.Succeeds() {
        var i := FailureReaches(last, polls, a, b);
      }
    }
    forall i: nat | i < |polls| && !Truthful(s, last, polls, i)
      ensures exists a: nat :: a < i && Attempts(last, polls, a) && Attempts(last, polls, i)
                               && !polls[a].outcome.Succeeds()
    {
      var a := LatestAttempt(last, polls, i);
    }
  }

  /** With NCO_SYNC_READY demanded as well, the reading holds if and only if no
      failed attempt is ever followed by a successful one. */
  lemma NcoAckIsTruthfulIff(s: State, last: bv32, polls: seq<Poll>)
    requires StateOk(s) && EpochOf(s.status) == last
    ensures (forall i: nat :: i < |polls| ==> NcoTruthful(s, last, polls, i)) <==>
            forall a: nat, b: nat ::
              a < b < |polls| && Attempts(last, polls, a) && Attempts(last, polls, b) && !polls[a].outcome.Succeeds()
              ==> !polls[b].outcome.Succeeds()
  {
    hide NcoTruthful, StateOk, Attempts, EpochOf, LastOutcome;
    forall i: nat | i < |polls|
      ensures NcoTruthful(s, last, polls, i) <==>
              !Attempts(last, polls, i) || LastOutcome(last, polls, i) != Some(false) || !polls[i].outcome.Succeeds()
    {
      PollIsTruthful(s, last, polls, i);
    }
    forall a: nat, b: nat | a < b < |polls| && Attempts(last, polls, a) && Attempts(last, polls, b)
      ensures !polls[a].outcome.Succeeds() && polls[b].outcome.Succeeds() ==>
                exists i: nat :: i < |polls| && !NcoTruthful(s, last, polls, i)
    {
      if !polls[a].outcome.Succeeds() && polls[b].outcome.Succeeds() {
        var i := FailureReaches(last, polls, a, b);
      }
    }
    forall i: nat | i < |polls| && !NcoTruthful(s, last, polls, i)
      ensures polls[i].outcome.Succeeds()
      ensures exists a: nat :: a < i && Attempts(last, polls, a) && Attempts(last, polls, i)
                               && !polls[a].outcome.Succeeds()
    {
      var a := LatestAttempt(last, polls, i);
    }
  }

  /** Two attempts in a row: after a failed epoch, the next attempt's first word
      shows that epoch's ACK without FAILED, and a later one shows it with
      NCO_SYNC_READY exactly if the attempt succeeds. */
  lemma FailedAckReappears(s: State, failed: bv32, next: bv32, o: Outcome, later: Outcome)
    requires StateOk(s) && IsEpoch(failed) && IsEpoch(next) && !o.Succeeds()
    ensures var t := Realign(s, failed, o);
            Has(t.status, FAILED) && OldAckShown(AttemptWords(t, Realign(t, next, later)), failed, later)
  {
    hide Realign, StateOk, OldAckShown, EpochOf, ErrorOf, Has, IsEpoch, AttemptOk;
    var t := Realign(s, failed, o);
    RealignIsSafe(s, failed, o);
    FailedAttempt(s, t, failed, o);
    RealignIsSafe(t, next, later);
    OldAckShows(t, Realign(t, next, later), failed, next, later);
  }

  /** The words show the old ACK without FAILED, and with NCO_SYNC_READY exactly on success. */
  ghost predicate OldAckShown(words: seq<bv32>, previous: bv32, o: Outcome) {
    && words != [] && EpochOf(words[0]) == previous && !Has(words[0], FAILED)
    && (o.Succeeds() <==> exists k :: 0 <= k < |words| - 1 && EpochOf(words[k]) == previous && Has(words[k], NCO_READY))
  }

  lemma FailedAttempt(s: State, t: State, epoch: bv32, o: Outcome)
    requires StateOk(t) && AttemptOk(s, t, epoch, o) && !o.Succeeds()
    ensures Has(t.status, FAILED)
  {
    hide SafeWord, EpochOf, ErrorOf, Has, IsAck, EpochIn;
  }

  lemma OldAckShows(before: State, after: State, previous: bv32, epoch: bv32, o: Outcome)
    requires EpochOf(before.status) == previous && AttemptOk(before, after, epoch, o)
    ensures OldAckShown(AttemptWords(before, after), previous, o)
  {
    hide EpochOf, ErrorOf, Has;
    var words := AttemptWords(before, after);
    assert forall k :: 0 <= k < |words| - 1 ==> EpochOf(words[k]) == previous;
  }

  // ----- The firmware itself -----

  class Firmware {
    var dacMtsStatus: bv32
    var syncAckStatus: bv32
    /** Everything written to the status register. */
    var written: seq<bv32>

    function Now(): State
      reads this
    {
      State(dacMtsStatus, syncAckStatus, written)
    }

    constructor ()
      ensures Now() == State(0, 0, [])
    {
      dacMtsStatus, syncAckStatus, written := 0, 0, [];
    }

    method WriteStatus()
      modifies this`written
      ensures Now() == Write(old(Now()), old(dacMtsStatus))
    {
      written := written + [dacMtsStatus];
    }

    method PublishSyncAlignmentAck(epoch: bv32)
      modifies this
      ensures Now() == PublishAck(old(Now()), epoch)
    {
      hide WithAck, AckField;
      syncAckStatus := AckField(epoch);
      dacMtsStatus := WithAck(dacMtsStatus, syncAckStatus);
      WriteStatus();
    }

    method PublishDacMtsStatus(ready: bool, failed: bool, error: bv32)
      modifies this
      ensures Now() == PublishMts(old(Now()), ready, failed, error)
    {
      hide MtsStatus;
      dacMtsStatus := MtsStatus(syncAckStatus, ready, failed, error);
      WriteStatus();
    }

    method PublishSyncAlignmentFailure(epoch: bv32, error: bv32)
      modifies this
      ensures Now() == PublishFailure(old(Now()), epoch, error)
    {
      hide MtsStatus, AckField;
      syncAckStatus := AckField(epoch);
      PublishDacMtsStatus(false, true, error);
    }

    method PublishDacNcoSyncReady()
      modifies this
      ensures Now() == PublishNcoReady(old(Now()))
    {
      hide WithAck, WithNco;
      dacMtsStatus := WithNco(dacMtsStatus);
      dacMtsStatus := WithAck(dacMtsStatus, syncAckStatus);
      WriteStatus();
    }

    method ConfigureDacMts(o: Outcome) returns (ok: bool)
      modifies this
      ensures Now() == ConfigureMts(old(Now()), o) && ok == o.MtsOk()
      ensures old(IsAck(syncAckStatus) && AllSafe(written)) ==>
                StateOk(Now()) && Has(dacMtsStatus, READY) == ok && !Has(dacMtsStatus, NCO_READY)
    {
      hide PublishMts, StateOk, Has, IsAck, AllSafe;
      if IsAck(syncAckStatus) && AllSafe(written) {
        ConfigureMtsOk(Now(), o);
      }
      if o.measure != MTS_OK {
        PublishDacMtsStatus(false, true, o.measure);
        return false;
      }
      if o.pin != MTS_OK {
        PublishDacMtsStatus(false, true, o.pin);
        return false;
      }
      PublishDacMtsStatus(true, false, 0);
      ok := true;
    }

    method RealignDacForSyncEpoch(epoch: bv32, o: Outcome) returns (ok: bool)
      modifies this
      ensures Now() == Realign(old(Now()), epoch, o) && ok == o.Succeeds()
      ensures old(StateOk(Now())) && IsEpoch(epoch) ==>
                StateOk(Now()) && EpochOf(dacMtsStatus) == epoch && AttemptOk(old(Now()), Now(), epoch, o)
    {
      hide StateOk, AttemptOk, IsEpoch, EpochOf;
      if StateOk(Now()) && IsEpoch(epoch) {
        RealignIsSafe(Now(), epoch, o);
      }
      hide WithoutResult, PublishMts, PublishFailure, PublishNcoReady, PublishAck, ConfigureMts, ErrorOf;
      dacMtsStatus := WithoutResult(dacMtsStatus);
      PublishDacMtsStatus(false, false, 0);
      if !o.reinit {
        PublishSyncAlignmentFailure(epoch, XST_FAILURE);
        return false;
      }
      var mts := ConfigureDacMts(o);
      if !mts {
        var error := ErrorOf(dacMtsStatus);
        PublishSyncAlignmentFailure(epoch, error);
        return false;
      }
      if !o.nco {
        PublishSyncAlignmentFailure(epoch, XST_FAILURE);
        return false;
      }
      PublishDacNcoSyncReady();
      PublishSyncAlignmentAck(epoch);
      ok := true;
    }

    /** Init_GPIO. */
    method InitGpio()
      modifies this
      ensures Now() == PublishMts(old(Now()), false, false, 0)
    {
      PublishDacMtsStatus(false, false, 0);
    }

    /** Boot, then poll: each read of the status register that shows a new epoch
        starts one alignment. */
    method Run(boot: Outcome, polls: seq<Poll>) returns (polling: bool)
      requires Now() == State(0, 0, [])
      modifies this
      ensures polling == Startup(boot).Polling? && StateOk(Now())
      ensures polling ==> Now() == PollRun(Startup(boot).state, 0, polls).0
      ensures polling ==> EpochOf(dacMtsStatus) == PollRun(Startup(boot).state, 0, polls).1
    {
      hide StateOk, ConfigureMts, PublishNcoReady, Realign, PublishMts;
      StartupIsSafe(boot);
      PollRunIsSafe(Startup(boot).state, 0, polls);
      InitGpio();
      if !boot.reinit {
        return false;
      }
      var mts := ConfigureDacMts(boot);
      if !mts || !boot.nco {
        return false;
      }
      PublishDacNcoSyncReady();
      var last: bv32 := 0;
      for i := 0 to |polls|
        invariant (Now(), last) == PollRun(Startup(boot).state, 0, polls[..i])
      {
        assert polls[..i + 1][..i] == polls[..i];
        var epoch := EpochOf(polls[i].register);
        if epoch != last {
          last := epoch;
          var _ := RealignDacForSyncEpoch(epoch, polls[i].outcome);
        }
      }
      assert polls[..|polls|] == polls;
      polling := true;
    }
  }
}
