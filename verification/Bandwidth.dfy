/** The bandwidth firmware's counters (firmware/src/bandwidth_main.c). */
module Bandwidth {

  const U32: nat := 0x1_0000_0000
  const U64: nat := 0x1_0000_0000_0000_0000
  const WINDOW_SECONDS: nat := 30

  // ----- Reading a 64-bit counter through two 32-bit registers -----

  /** A counter register pair: `count` is its value at each instant, and reads
      happen at instants the bus chooses. */
  class CounterPort {
    const count: nat -> nat
    var now: nat
    var delays: seq<nat>

    constructor (count: nat -> nat, delays: seq<nat>)
      ensures this.count == count && now == 0 && this.delays == delays
    {
      this.count, now, this.delays := count, 0, delays;
    }

    /** A 64-bit counter that never falls. */
    ghost predicate Rising() {
      forall i: nat, j: nat :: i <= j ==> count(i) <= count(j) < U64
    }

    method Wait()
      modifies this
      ensures now >= old(now)
    {
      if delays != [] {
        now, delays := now + delays[0], delays[1..];
      }
    }

    method ReadHigh() returns (value: nat)
      modifies this
      ensures now >= old(now) && value == count(now) / U32 % U32
    {
      Wait();
      value := count(now) / U32 % U32;
    }

    method ReadLow() returns (value: nat)
      modifies this
      ensures now >= old(now) && value == count(now) % U32
    {
      Wait();
      value := count(now) % U32;
    }

    /** read_u64_regs: re-read the low word when the high word moved. */
    method ReadU64() returns (value: nat, ghost t1: nat, ghost t2: nat, ghost t3: nat, ghost t4: nat)
      modifies this
      ensures old(now) <= t1 <= t2 <= t3 <= t4 == now
      ensures value == Combine(count(t1), count(t2), count(t3), count(t4))
      ensures Rising() ==> count(t1) <= value <= count(t4)
      ensures Rising() && count(t4) - count(t1) <= U32 ==> value == count(t2) || value == count(t4)
    {
      var high := ReadHigh();
      t1 := now;
      var low := ReadLow();
      t2 := now;
      var highAgain := ReadHigh();
      t3 := now;
      if high != highAgain {
        low := ReadLow();
        high := highAgain;
      }
      t4 := now;
      value := high * U32 + low;
      if Rising() {
        assert count(t1) <= count(t2) <= count(t3) <= count(t4) < U64;
        TornRead(count(t1), count(t2), count(t3), count(t4));
      }
    }
  }

  /** The value assembled from the counter at the four read instants. */
  function Combine(c1: nat, c2: nat, c3: nat, c4: nat): nat {
    if c1 / U32 % U32 == c3 / U32 % U32 then c1 / U32 % U32 * U32 + c2 % U32
    else c3 / U32 % U32 * U32 + c4 % U32
  }

  /** For a monotone 64-bit counter: with equal high words the result is the value
      at the low read; otherwise it is the value at the second low read exactly
      when no further carry happened before it. It always lies between the first
      and the last value, and growth of at most 2^32 makes it a value held at a
      read instant. */
  lemma TornRead(c1: nat, c2: nat, c3: nat, c4: nat)
    requires c1 <= c2 <= c3 <= c4 < U64
    ensures var r := Combine(c1, c2, c3, c4);
            && c1 <= r <= c4
            && (c1 / U32 == c3 / U32 ==> r == c2)
            && (c1 / U32 != c3 / U32 ==> (r == c4 <==> c3 / U32 == c4 / U32))
            && (c4 - c1 <= U32 ==> r == c2 || r == c4)
  {
    assert c1 / U32 < U32 && c3 / U32 < U32;
  }

  /** The growth bound is tight: one more count and the result can be a value
      that the counter held at none of the read instants. */
  lemma TornReadBoundIsTight()
    ensures var c1, c2, c3, c4 := U32 - 1, U32 - 1, U32 + 1, 2 * U32;
            c4 - c1 == U32 + 1 && Combine(c1, c2, c3, c4) !in {c1, c2, c3, c4}
  {
  }

  // ----- Burst windows -----

  function DeltaU32(now: nat, prev: nat): nat
    requires now < U32 && prev < U32
  {
    (now - prev) % U32
  }

  /** The counted increase over samples from..to, from 32-bit register readings of
      the true counts. */
  function Counted(counts: seq<nat>, from: nat, to: nat): nat
    requires from <= to < |counts|
  {
    if from == to then 0
    else Counted(counts, from, to - 1) + DeltaU32(counts[to] % U32, counts[to - 1] % U32)
  }

  predicate Monotone(counts: seq<nat>) {
    forall i :: 0 <= i < |counts| - 1 ==> counts[i] <= counts[i + 1]
  }

  function Total(windows: seq<nat>): nat {
    if windows == [] then 0 else Total(windows[..|windows| - 1]) + windows[|windows| - 1]
  }

  lemma DeltaOfStep(before: nat, after: nat)
    requires before <= after
    ensures DeltaU32(after % U32, before % U32) <= after - before
    ensures DeltaU32(after % U32, before % U32) == after - before <==> after - before < U32
  {
    assert (after % U32 - before % U32) % U32 == (after - before) % U32;
  }

  /** The counted increase is the true one exactly when no sample advanced the
      counter by 2^32 or more; otherwise it is smaller. */
  lemma {:induction false} CountedIsTrueIncrease(counts: seq<nat>, from: nat, to: nat)
    requires Monotone(counts) && from <= to < |counts|
    ensures counts[from] <= counts[to] && Counted(counts, from, to) <= counts[to] - counts[from]
    ensures Counted(counts, from, to) == counts[to] - counts[from]
            <==> forall i :: from <= i < to ==> counts[i + 1] - counts[i] < U32
  {
    if from < to {
      CountedIsTrueIncrease(counts, from, to - 1);
      DeltaOfStep(counts[to - 1], counts[to]);
      assert counts[to - 1 + 1] == counts[to];
    }
  }

  lemma {:induction false} CountedSplits(counts: seq<nat>, from: nat, mid: nat, to: nat)
    requires from <= mid <= to < |counts|
    ensures Counted(counts, from, to) == Counted(counts, from, mid) + Counted(counts, mid, to)
  {
    if mid < to {
      CountedSplits(counts, from, mid, to - 1);
    }
  }

  lemma {:induction false} CountedFitsU64(counts: seq<nat>, from: nat, to: nat)
    requires from <= to < |counts|
    ensures Counted(counts, from, to) <= (to - from) * (U32 - 1)
  {
    if from < to {
      CountedFitsU64(counts, from, to - 1);
    }
  }

  /** One more sample: the 64-bit accumulator takes it without wrapping. */
  lemma AddSample(counts: seq<nat>, from: nat, sample: nat)
    requires from < sample < |counts| && sample - from <= WINDOW_SECONDS
    ensures Counted(counts, from, sample)
            == Counted(counts, from, sample - 1) + DeltaU32(counts[sample] % U32, counts[sample - 1] % U32)
    ensures Counted(counts, from, sample) < U64
  {
    CountedFitsU64(counts, from, sample);
    assert (sample - from) * (U32 - 1) <= WINDOW_SECONDS * (U32 - 1);
  }

  lemma NothingCounted(counts: seq<nat>, from: nat)
    requires from < |counts|
    ensures Counted(counts, from, from) == 0 && Total([]) == 0
  {
  }

  lemma CloseWindow(counts: seq<nat>, windows: seq<nat>, bursts: nat)
    requires (|windows| + 1) * WINDOW_SECONDS < |counts|
    requires bursts == Counted(counts, |windows| * WINDOW_SECONDS, (|windows| + 1) * WINDOW_SECONDS)
    requires Total(windows) == Counted(counts, 0, |windows| * WINDOW_SECONDS)
    ensures Total(windows + [bursts]) == Counted(counts, 0, (|windows| + 1) * WINDOW_SECONDS)
  {
    hide Counted;
    assert (windows + [bursts])[..|windows|] == windows;
    CountedSplits(counts, 0, |windows| * WINDOW_SECONDS, (|windows| + 1) * WINDOW_SECONDS);
  }

  /** The sample loop: counts[0] is the burst total at the start and counts[i] the
      total at sample i. Prints one window per WINDOW_SECONDS samples. */
  method SampleLoop(counts: seq<nat>) returns (windows: seq<nat>, open: nat)
    requires |counts| > 0
    ensures |windows| == (|counts| - 1) / WINDOW_SECONDS
    ensures forall w :: 0 <= w < |windows| ==>
              windows[w] == Counted(counts, w * WINDOW_SECONDS, (w + 1) * WINDOW_SECONDS) < U64
    ensures open == Counted(counts, |windows| * WINDOW_SECONDS, |counts| - 1) < U64
    ensures Total(windows) + open == Counted(counts, 0, |counts| - 1)
  {
    hide Counted, Total, DeltaU32;
    var prev := counts[0] % U32;
    var elapsed := 0;
    windows, open := [], 0;
    NothingCounted(counts, 0);
    for sample := 1 to |counts|
      invariant prev == counts[sample - 1] % U32
      invariant elapsed < WINDOW_SECONDS && |windows| * WINDOW_SECONDS + elapsed == sample - 1
      invariant forall w :: 0 <= w < |windows| ==>
                  windows[w] == Counted(counts, w * WINDOW_SECONDS, (w + 1) * WINDOW_SECONDS) < U64
      invariant open == Counted(counts, |windows| * WINDOW_SECONDS, sample - 1) < U64
      invariant Total(windows) == Counted(counts, 0, |windows| * WINDOW_SECONDS)
    {
      AddSample(counts, |windows| * WINDOW_SECONDS, sample);
      var total := counts[sample] % U32;
      var delta := DeltaU32(total, prev);
      prev := total;
      elapsed := elapsed + 1;
      open := (open + delta) % U64;
      if elapsed >= WINDOW_SECONDS {
        CloseWindow(counts, windows, open);
        windows := windows + [open];
        elapsed, open := 0, 0;
        NothingCounted(counts, sample);
      }
    }
    CountedSplits(counts, 0, |windows| * WINDOW_SECONDS, |counts| - 1);
  }

  /** Printed windows and the open one add up to the true increase since the first
      reading exactly when every sample advanced the counter by less than 2^32. */
  method BurstsSinceStart(counts: seq<nat>) returns (windows: seq<nat>, open: nat)
    requires |counts| > 0 && Monotone(counts)
    ensures counts[0] + Total(windows) + open <= counts[|counts| - 1]
    ensures counts[0] + Total(windows) + open == counts[|counts| - 1]
            <==> forall i :: 0 <= i < |counts| - 1 ==> counts[i + 1] - counts[i] < U32
  {
    windows, open := SampleLoop(counts);
    CountedIsTrueIncrease(counts, 0, |counts| - 1);
  }
}
