/** Capture analysis (software/ila_capture_report.py): valid windows and sample comparison. */
module IlaReport {
  import opened Arithmetic
  import opened Bytes

  // ----- Valid windows -----

  type Window = (nat, nat)

  /** A maximal run of active samples, as a closed interval. */
  predicate IsWindow(valid: seq<bool>, w: Window) {
    && w.0 <= w.1 < |valid|
    && (forall i :: w.0 <= i <= w.1 ==> valid[i])
    && (w.0 > 0 ==> !valid[w.0 - 1])
    && (w.1 + 1 < |valid| ==> !valid[w.1 + 1])
  }

  predicate Covered(windows: seq<Window>, i: int) {
    exists w :: 0 <= w < |windows| && windows[w].0 <= i <= windows[w].1
  }

  /** Windows in order, each ending at least one sample before the next begins. */
  predicate Separated(windows: seq<Window>) {
    forall a, b :: 0 <= a < b < |windows| ==> windows[a].1 + 1 < windows[b].0
  }

  /** The windows cover exactly the active samples below n. */
  predicate DescribesPrefix(valid: seq<bool>, windows: seq<Window>, n: nat)
    requires n <= |valid|
  {
    && (forall w :: 0 <= w < |windows| ==> IsWindow(valid, windows[w]) && windows[w].1 < n)
    && Separated(windows)
    && (forall i :: 0 <= i < n ==> (valid[i] <==> Covered(windows, i)))
  }

  predicate DescribesWindows(valid: seq<bool>, windows: seq<Window>) {
    DescribesPrefix(valid, windows, |valid|)
  }

  /** The windows before sample n, when no active run crosses into n. */
  predicate Closed(valid: seq<bool>, windows: seq<Window>, n: nat)
    requires n <= |valid|
  {
    DescribesPrefix(valid, windows, n) && (n > 0 ==> !valid[n - 1])
  }

  method ValidWindows(valid: seq<bool>) returns (windows: seq<Window>)
    ensures DescribesWindows(valid, windows)
  {
    hide DescribesPrefix;
    windows := [];
    var start: Option<nat> := None;
    NothingClosed(valid);
    for i := 0 to |valid|
      invariant start.Some? ==> start.value < i
      invariant Closed(valid, windows, if start.Some? then start.value else i)
      invariant start.Some? ==> forall k :: start.value <= k < i ==> valid[k]
      invariant start.None? && i > 0 ==> !valid[i - 1]
    {
      if valid[i] && start.None? {
        start := Some(i);
      } else if !valid[i] && start.Some? {
        CloseWindow(valid, windows, start.value, i);
        windows := windows + [(start.value, i - 1)];
        SkipInactive(valid, windows, i);
        start := None;
      } else if !valid[i] {
        SkipInactive(valid, windows, i);
      }
    }
    if start.Some? {
      CloseWindow(valid, windows, start.value, |valid|);
      windows := windows + [(start.value, |valid| - 1)];
    }
  }

  lemma NothingClosed(valid: seq<bool>)
    ensures Closed(valid, [], 0)
  {
  }

  lemma SkipInactive(valid: seq<bool>, windows: seq<Window>, i: nat)
    requires i < |valid| && DescribesPrefix(valid, windows, i) && !valid[i]
    ensures Closed(valid, windows, i + 1)
  {
    hide IsWindow, Separated;
  }

  lemma CloseWindow(valid: seq<bool>, windows: seq<Window>, start: nat, end: nat)
    requires start < end <= |valid| && Closed(valid, windows, start)
    requires (forall k :: start <= k < end ==> valid[k]) && (end < |valid| ==> !valid[end])
    ensures DescribesPrefix(valid, windows + [(start, end - 1)], end)
  {
    var w := (start, end - 1);
    CoverageGrows(windows, w);
    SeparationGrows(valid, windows, w);
    assert IsWindow(valid, w);
    hide IsWindow, Separated;
    forall i | 0 <= i < end
      ensures valid[i] <==> Covered(windows + [w], i)
    {
      assert i >= start ==> valid[i];
    }
  }

  lemma SeparationGrows(valid: seq<bool>, windows: seq<Window>, w: Window)
    requires Separated(windows) && 0 < w.0 + 1 <= |valid| && (w.0 > 0 ==> !valid[w.0 - 1])
    requires forall k :: 0 <= k < |windows| ==> IsWindow(valid, windows[k]) && windows[k].1 < w.0
    ensures Separated(windows + [w])
  {
    forall k | 0 <= k < |windows|
      ensures windows[k].1 + 1 < w.0
    {
      assert IsWindow(valid, windows[k]) && valid[windows[k].1];
    }
  }

  lemma CoverageGrows(windows: seq<Window>, w: Window)
    ensures forall i :: Covered(windows + [w], i) <==> Covered(windows, i) || w.0 <= i <= w.1
  {
    forall i
      ensures Covered(windows + [w], i) <==> Covered(windows, i) || w.0 <= i <= w.1
    {
      var more := windows + [w];
      if Covered(windows, i) {
        var k :| 0 <= k < |windows| && windows[k].0 <= i <= windows[k].1;
        assert more[k] == windows[k];
      }
      if w.0 <= i <= w.1 {
        assert more[|windows|] == w;
      }
    }
  }

  function ActiveCount(valid: seq<bool>, n: nat): nat
    requires n <= |valid|
  {
    if n == 0 then 0 else ActiveCount(valid, n - 1) + if valid[n - 1] then 1 else 0
  }

  function TotalLength(windows: seq<Window>): int {
    if windows == [] then 0
    else TotalLength(windows[..|windows| - 1]) + windows[|windows| - 1].1 - windows[|windows| - 1].0 + 1
  }

  lemma {:induction false} ActiveRun(valid: seq<bool>, from: nat, to: nat, value: bool)
    requires from <= to <= |valid| && forall i :: from <= i < to ==> valid[i] == value
    ensures ActiveCount(valid, to) == ActiveCount(valid, from) + if value then to - from else 0
  {
    if from < to {
      ActiveRun(valid, from, to - 1, value);
    }
  }

  lemma LastWindow(valid: seq<bool>, prefix: seq<Window>, last: Window, n: nat)
    requires n <= |valid| && DescribesPrefix(valid, prefix + [last], n)
    ensures last.0 <= last.1 < n && DescribesPrefix(valid, prefix, last.0)
    ensures forall i :: last.0 <= i < last.1 + 1 ==> valid[i] == true
    ensures forall i :: last.1 + 1 <= i < n ==> valid[i] == false
  {
    var windows := prefix + [last];
    assert windows[|prefix|] == last && IsWindow(valid, last);
    PrefixIsBefore(valid, prefix, last, n);
    CoverageGrows(prefix, last);
    hide Separated, IsWindow;
    forall i
      ensures Covered(prefix, i) ==> i < last.0
    {
    }
  }

  lemma PrefixIsBefore(valid: seq<bool>, prefix: seq<Window>, last: Window, n: nat)
    requires n <= |valid| && DescribesPrefix(valid, prefix + [last], n)
    ensures Separated(prefix)
    ensures forall w :: 0 <= w < |prefix| ==> IsWindow(valid, prefix[w]) && prefix[w].1 < last.0
  {
    var windows := prefix + [last];
    assert forall w :: 0 <= w < |prefix| ==> prefix[w] == windows[w];
    assert windows[|prefix|] == last;
    hide IsWindow, Covered;
  }

  lemma NoWindows(valid: seq<bool>, n: nat)
    requires n <= |valid| && DescribesPrefix(valid, [], n)
    ensures TotalLength([]) == ActiveCount(valid, n)
  {
    assert forall i :: 0 <= i < n ==> !Covered([], i);
    ActiveRun(valid, 0, n, false);
  }

  lemma LengthOfLast(prefix: seq<Window>, last: Window)
    ensures TotalLength(prefix + [last]) == TotalLength(prefix) + last.1 - last.0 + 1
  {
    assert (prefix + [last])[..|prefix|] == prefix;
  }

  lemma {:induction false} PrefixLengths(valid: seq<bool>, windows: seq<Window>, n: nat)
    requires n <= |valid| && DescribesPrefix(valid, windows, n)
    ensures TotalLength(windows) == ActiveCount(valid, n)
  {
    hide *;
    if windows == [] {
      NoWindows(valid, n);
    } else {
      var prefix, last := windows[..|windows| - 1], windows[|windows| - 1];
      assert windows == prefix + [last];
      LengthOfLast(prefix, last);
      LastWindow(valid, prefix, last, n);
      ActiveRun(valid, last.1 + 1, n, false);
      ActiveRun(valid, last.0, last.1 + 1, true);
      PrefixLengths(valid, prefix, last.0);
    }
  }

  function ActiveSamples(valid: seq<bool>, n: nat): set<int>
    requires n <= |valid|
  {
    set i | 0 <= i < n && valid[i]
  }

  lemma {:induction false} ActiveCounts(valid: seq<bool>, n: nat)
    requires n <= |valid|
    ensures ActiveCount(valid, n) == |ActiveSamples(valid, n)|
  {
    if n == 0 {
      assert ActiveSamples(valid, 0) == {};
    } else {
      ActiveCounts(valid, n - 1);
      assert ActiveSamples(valid, n) == ActiveSamples(valid, n - 1) + if valid[n - 1] then {n - 1} else {};
    }
  }

  /** The window lengths add up to the number of active cycles. */
  lemma LengthsAreActiveCycles(valid: seq<bool>, windows: seq<Window>)
    requires DescribesWindows(valid, windows)
    ensures TotalLength(windows) == ActiveCount(valid, |valid|) == |ActiveSamples(valid, |valid|)|
  {
    PrefixLengths(valid, windows, |valid|);
    ActiveCounts(valid, |valid|);
  }

  lemma OverlappingRunsAreEqual(valid: seq<bool>, u: Window, v: Window)
    requires IsWindow(valid, u) && IsWindow(valid, v) && u.0 <= v.0 <= u.1
    ensures u == v
  {
  }

  /** The listed windows are exactly the maximal active runs, so the signal determines the list. */
  lemma WindowsAreTheMaximalRuns(valid: seq<bool>, windows: seq<Window>)
    requires DescribesWindows(valid, windows)
    ensures forall w: Window :: w in windows <==> IsWindow(valid, w)
  {
    hide *;
    forall w: Window | IsWindow(valid, w)
      ensures w in windows
    {
      RunIsListed(valid, windows, w);
    }
    ListedAreRuns(valid, windows);
  }

  lemma ListedAreRuns(valid: seq<bool>, windows: seq<Window>)
    requires DescribesWindows(valid, windows)
    ensures forall w: Window :: w in windows ==> IsWindow(valid, w)
  {
    hide IsWindow;
  }

  lemma RunIsListed(valid: seq<bool>, windows: seq<Window>, w: Window)
    requires DescribesWindows(valid, windows) && IsWindow(valid, w)
    ensures w in windows
  {
    assert Covered(windows, w.0);
    var k :| 0 <= k < |windows| && windows[k].0 <= w.0 <= windows[k].1;
    OverlappingRunsAreEqual(valid, windows[k], w);
  }

  // ----- Comparison -----

  datatype Mismatch = Mismatch(index: nat, captured: Option<int>, expected: Option<int>)

  function At(s: seq<int>, i: nat): Option<int> {
    if i < |s| then Some(s[i]) else None
  }

  function Min(a: nat, b: nat): nat {
    if a < b then a else b
  }

  function Max(a: nat, b: nat): nat {
    if a < b then b else a
  }

  /** Indices below n at which the sequences differ, in order. */
  function Differences(a: seq<int>, b: seq<int>, n: nat): seq<nat>
    requires n <= |a| && n <= |b|
  {
    if n == 0 then [] else Differences(a, b, n - 1) + if a[n - 1] != b[n - 1] then [n - 1] else []
  }

  function CompareSamples(captured: seq<int>, expected: seq<int>): (int, int, Option<Mismatch>) {
    var limit := Min(|captured|, |expected|);
    var differences := Differences(captured, expected, limit);
    var gap := Max(|captured|, |expected|) - limit;
    var mismatches := |differences| + gap;
    if mismatches == 0 then (limit, 0, None)
    else
      var index := if differences != [] then differences[0] else limit;
      (limit - |differences|, mismatches, Some(Mismatch(index, At(captured, index), At(expected, index))))
  }

  lemma {:induction false} DifferencesAre(a: seq<int>, b: seq<int>, n: nat)
    requires n <= |a| && n <= |b|
    ensures |Differences(a, b, n)| <= n
    ensures forall i: nat :: i in Differences(a, b, n) <==> i < n && a[i] != b[i]
    ensures forall i: nat :: i in Differences(a, b, n) ==> Differences(a, b, n)[0] <= i
  {
    if n == 0 {
    } else {
      var before := Differences(a, b, n - 1);
      DifferencesAre(a, b, n - 1);
      if a[n - 1] != b[n - 1] {
        assert Differences(a, b, n) == before + [n - 1];
        assert before != [] ==> before[0] in before;
      } else {
        assert Differences(a, b, n) == before;
      }
    }
  }

  /** The positions at which both sequences have the same sample. */
  function Matches(a: seq<int>, b: seq<int>): set<int> {
    set i | 0 <= i < |a| && i < |b| && a[i] == b[i]
  }

  lemma {:induction false} MatchesOrDiffers(a: seq<int>, b: seq<int>, n: nat)
    requires n <= |a| && n <= |b|
    ensures |Matches(a[..n], b[..n])| + |Differences(a, b, n)| == n
  {
    if n == 0 {
      assert Matches(a[..0], b[..0]) == {};
    } else {
      MatchesOrDiffers(a, b, n - 1);
      assert Matches(a[..n], b[..n])
             == Matches(a[..n - 1], b[..n - 1]) + if a[n - 1] == b[n - 1] then {n - 1} else {};
    }
  }

  /** Every position of the longer sequence counts once, as a match or a mismatch;
      the sequences are equal exactly when nothing mismatches; and the reported
      mismatch is the least one. */
  lemma ComparisonIsExact(captured: seq<int>, expected: seq<int>)
    ensures var (matched, mismatches, first) := CompareSamples(captured, expected);
            && mismatches >= 0 && matched == |Matches(captured, expected)|
            && matched + mismatches == (if |captured| < |expected| then |expected| else |captured|)
            && (mismatches == 0 <==> captured == expected) && (first.None? <==> captured == expected)
            && (first.Some? ==>
                  var m := first.value;
                  && m.captured == At(captured, m.index) != At(expected, m.index) == m.expected
                  && forall i: nat :: i < m.index ==> At(captured, i) == At(expected, i) && At(captured, i).Some?)
  {
    var limit := Min(|captured|, |expected|);
    var differences := Differences(captured, expected, limit);
    DifferencesAre(captured, expected, limit);
    MatchesOrDiffers(captured, expected, limit);
    assert Matches(captured, expected) == Matches(captured[..limit], expected[..limit]);
    if differences != [] {
      assert differences[0] in differences;
      assert captured != expected;
    } else {
      assert forall i: nat :: i < limit ==> captured[i] == expected[i] by {
        assert forall i: nat :: i < limit && captured[i] != expected[i] ==> i in differences;
      }
    }
  }

  /** np.resize: repeat cyclically to the given size. */
  function Resize(s: seq<int>, size: nat): (t: seq<int>)
    requires s != []
    ensures |t| == size && forall i :: 0 <= i < size ==> t[i] == s[i % |s|]
  {
    seq(size, i requires 0 <= i => s[i % |s|])
  }

  /** np.roll(s, -offset). */
  function RollLeft(s: seq<int>, offset: nat): (t: seq<int>)
    requires offset < |s|
    ensures |t| == |s|
    ensures forall i :: 0 <= i < |s| ==> t[i] == s[if i + offset < |s| then i + offset else i + offset - |s|]
  {
    s[offset..] + s[..offset]
  }

  /** The capture is the expected record played in a loop, starting at `offset`. */
  predicate LoopsFrom(captured: seq<int>, expected: seq<int>, offset: nat)
    requires expected != []
  {
    forall i :: 0 <= i < |captured| ==> captured[i] == expected[(i + offset) % |expected|]
  }

  lemma TiledIffLoops(captured: seq<int>, expected: seq<int>, offset: nat)
    requires offset < |expected|
    ensures captured == Resize(RollLeft(expected, offset), |captured|) <==> LoopsFrom(captured, expected, offset)
  {
    var tiled := Resize(RollLeft(expected, offset), |captured|);
    forall i | 0 <= i < |captured|
      ensures tiled[i] == expected[(i + offset) % |expected|]
    {
      RotatedIndex(i, offset, |expected|);
    }
    if captured == tiled {
      assert forall i :: 0 <= i < |captured| ==> captured[i] == tiled[i];
    }
  }

  lemma RotatedIndex(i: nat, offset: nat, n: nat)
    requires offset < n
    ensures (i + offset) % n == if i % n + offset < n then i % n + offset else i % n + offset - n
  {
    RotatedParts(i / n, i % n, offset, n);
  }

  lemma RotatedParts(q: nat, r: nat, offset: nat, n: nat)
    requires offset < n && r < n
    ensures (q * n + r + offset) % n == if r + offset < n then r + offset else r + offset - n
  {
    if r + offset < n {
      QuotientUnique(q * n + r + offset, n, q);
    } else {
      assert (q + 1) * n == q * n + n;
      QuotientUnique(q * n + r + offset, n, q + 1);
    }
  }

  /** The positions at which the capture is the record repeated from its start. */
  function LoopMatches(captured: seq<int>, expected: seq<int>): set<int>
    requires expected != []
  {
    set i | 0 <= i < |captured| && captured[i] == expected[i % |expected|]
  }

  lemma ComparedWithNothing(captured: seq<int>)
    ensures var (matched, mismatches, first) := CompareSamples(captured, []);
            matched == 0 && mismatches == |captured| && (first.None? <==> captured == [])
  {
    ComparisonIsExact(captured, []);
    assert Matches(captured, []) == {};
  }

  /** The comparison with the record repeated from its start. */
  lemma UnrotatedComparison(captured: seq<int>, expected: seq<int>)
    requires expected != [] && !LoopsFrom(captured, expected, 0)
    ensures var (matched, mismatches, first) := CompareSamples(captured, Resize(expected, |captured|));
            && matched == |LoopMatches(captured, expected)| && matched + mismatches == |captured| && mismatches > 0
            && first.Some? && first.value.index < |captured|
            && (var m := first.value;
                && m.captured == Some(captured[m.index])
                && m.expected == Some(expected[m.index % |expected|]) != m.captured
                && forall i :: 0 <= i < m.index ==> captured[i] == expected[i % |expected|])
  {
    hide CompareSamples, Matches, LoopMatches, LoopsFrom, RollLeft;
    var tiled := Resize(expected, |captured|);
    TiledIffLoops(captured, expected, 0);
    NotRolled(expected);
    ComparisonIsExact(captured, tiled);
    LoopMatchesAre(captured, expected);
    FirstDifference(captured, tiled, CompareSamples(captured, tiled).2.value);
  }

  lemma NotRolled(s: seq<int>)
    requires s != []
    ensures RollLeft(s, 0) == s
  {
  }

  /** The first mismatch of two sequences of the same length. */
  lemma FirstDifference(a: seq<int>, b: seq<int>, m: Mismatch)
    requires |a| == |b| && m.captured == At(a, m.index) != At(b, m.index) == m.expected
    requires forall i: nat :: i < m.index ==> At(a, i) == At(b, i) && At(a, i).Some?
    ensures m.index < |a| && m.captured == Some(a[m.index]) && m.expected == Some(b[m.index])
    ensures forall i :: 0 <= i < m.index ==> a[i] == b[i]
  {
    forall i | 0 <= i < m.index
      ensures a[i] == b[i]
    {
      assert At(a, i) == At(b, i);
    }
  }

  lemma LoopMatchesAre(captured: seq<int>, expected: seq<int>)
    requires expected != []
    ensures Matches(captured, Resize(expected, |captured|)) == LoopMatches(captured, expected)
  {
  }

  /** Zero mismatches are reported exactly when the capture is some rotation of
      the endlessly repeated record; otherwise the report compares with the unrotated one. */
  method CompareLoopSamples(captured: seq<int>, expected: seq<int>)
    returns (matched: int, mismatches: int, first: Option<Mismatch>)
    ensures expected == [] ==> (matched, mismatches, first) == CompareSamples(captured, expected)
    ensures expected != [] ==> matched + mismatches == |captured|
    ensures expected != [] ==>
              (mismatches == 0 <==> exists offset: nat :: offset < |expected| && LoopsFrom(captured, expected, offset))
    ensures expected != [] && mismatches != 0 ==>
              (matched, mismatches, first) == CompareSamples(captured, Resize(expected, |captured|))
    ensures expected != [] ==>
              matched == if mismatches == 0 then |captured| else |LoopMatches(captured, expected)|
    ensures first.None? <==> mismatches == 0
    ensures expected != [] && first.Some? ==>
              var m := first.value;
              && m.index < |captured| && m.captured == Some(captured[m.index])
              && m.expected == Some(expected[m.index % |expected|]) != m.captured
              && forall i :: 0 <= i < m.index ==> captured[i] == expected[i % |expected|]
    ensures expected == [] ==> matched == 0 && mismatches == |captured|
  {
    hide CompareSamples, LoopsFrom, Resize, RollLeft;
    if expected == [] {
      ComparedWithNothing(captured);
      var result := CompareSamples(captured, expected);
      return result.0, result.1, result.2;
    }
    for offset := 0 to |expected|
      invariant forall o: nat :: o < offset ==> !LoopsFrom(captured, expected, o)
    {
      TiledIffLoops(captured, expected, offset);
      var tiled := Resize(RollLeft(expected, offset), |captured|);
      if captured == tiled {
        return |captured|, 0, None;
      }
    }
    UnrotatedComparison(captured, expected);
    var result := CompareSamples(captured, Resize(expected, |captured|));
    return result.0, result.1, result.2;
  }
}
