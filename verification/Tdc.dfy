/** TDC code-density calibration (software/dr47/tdc.py), over exact rationals. */
module Tdc {
  import opened Arithmetic
  import opened Bytes

  const TAPS: nat := 2048
  const SAMPLE_PERIOD_PS: nat := 5000

  datatype TdcError = BadLength | NegativeCount | InsufficientCoverage | WideBin | BadTable

  /** Entries are in 0..600, never decrease, and span at least 400 units of 10 ps. */
  predicate TableOk(table: seq<int>) {
    && |table| == TAPS
    && (forall k :: 0 <= k < TAPS ==> 0 <= table[k] <= 600)
    && (forall k :: 0 <= k < TAPS - 1 ==> table[k] <= table[k + 1])
    && table[TAPS - 1] - table[0] >= 400
  }

  function ValidateTable(table: seq<int>): Result<seq<int>, TdcError> {
    if TableOk(table) then Ok(table) else Err(BadTable)
  }

  function Sum(counts: seq<int>): int {
    if counts == [] then 0 else Sum(counts[..|counts| - 1]) + counts[|counts| - 1]
  }

  function Occupied(counts: seq<int>): nat {
    if counts == [] then 0
    else Occupied(counts[..|counts| - 1]) + if counts[|counts| - 1] != 0 then 1 else 0
  }

  function OccupiedBins(counts: seq<int>): set<int> {
    set k | 0 <= k < |counts| && counts[k] != 0
  }

  lemma {:induction false} OccupiedCounts(counts: seq<int>)
    ensures Occupied(counts) == |OccupiedBins(counts)|
  {
    if counts == [] {
      assert OccupiedBins(counts) == {};
    } else {
      var n := |counts| - 1;
      OccupiedCounts(counts[..n]);
      assert OccupiedBins(counts) == OccupiedBins(counts[..n]) + if counts[n] != 0 then {n} else {};
    }
  }

  /** A table is valid exactly when it never decreases, from one end to the
      other, stays in 0..600 and spans at least 4 ns. */
  lemma ValidTables(table: seq<int>)
    ensures ValidateTable(table)
            == if && |table| == 2048
                  && (forall i, j :: 0 <= i <= j < 2048 ==> 0 <= table[i] <= table[j] <= 600)
                  && table[2047] - table[0] >= 400
               then Ok(table) else Err(BadTable)
  {
    if TableOk(table) {
      forall i, j | 0 <= i <= j < TAPS
        ensures table[i] <= table[j]
      {
        StepsAscend(table, i, j);
      }
    }
  }

  lemma {:induction false} StepsAscend(table: seq<int>, i: nat, j: nat)
    requires i <= j < |table| && forall k :: 0 <= k < |table| - 1 ==> table[k] <= table[k + 1]
    ensures table[i] <= table[j]
  {
    if i < j {
      StepsAscend(table, i, j - 1);
    }
  }

  /** n / d to the nearest integer, ties to even. */
  function Rint(n: nat, d: nat): nat
    requires d > 0
  {
    var q, twice := n / d, 2 * (n % d);
    if twice < d || (twice == d && q % 2 == 0) then q else q + 1
  }

  /** Bin k's centre, counted in half samples. */
  function HalfCentre(counts: seq<int>, k: nat): int
    requires k < |counts|
  {
    2 * Sum(counts[..k + 1]) - counts[k]
  }

  function Entry(counts: seq<int>, k: nat): nat
    requires k < |counts| && Sum(counts) > 0 && HalfCentre(counts, k) >= 0
  {
    Rint(250 * HalfCentre(counts, k), Sum(counts))
  }

  predicate NonNegative(counts: seq<int>) {
    forall k :: 0 <= k < |counts| ==> counts[k] >= 0
  }

  predicate NarrowBins(counts: seq<int>) {
    forall k :: 0 <= k < |counts| ==> counts[k] * SAMPLE_PERIOD_PS <= 100 * Sum(counts)
  }

  lemma {:induction false} SumBounds(counts: seq<int>, k: nat)
    requires NonNegative(counts) && k < |counts|
    ensures 0 <= Sum(counts[..k]) && Sum(counts[..k + 1]) == Sum(counts[..k]) + counts[k]
    ensures Sum(counts[..k + 1]) <= Sum(counts)
    ensures HalfCentre(counts, k) == 2 * Sum(counts[..k]) + counts[k]
  {
    assert counts[..k + 1][..k] == counts[..k];
    SumMonotone(counts, 0, k);
    SumMonotone(counts, k + 1, |counts|);
    assert counts[..|counts|] == counts;
  }

  lemma {:induction false} SumMonotone(counts: seq<int>, i: nat, j: nat)
    requires NonNegative(counts) && i <= j <= |counts|
    ensures Sum(counts[..i]) <= Sum(counts[..j])
  {
    if i < j {
      SumMonotone(counts, i, j - 1);
      assert counts[..j][..j - 1] == counts[..j - 1];
    }
  }

  lemma {:induction false} OccupiedNeedsSamples(counts: seq<int>)
    requires NonNegative(counts)
    ensures Occupied(counts) <= Sum(counts)
  {
    if counts == [] {
    } else {
      OccupiedNeedsSamples(counts[..|counts| - 1]);
    }
  }

  function Table(counts: seq<int>): (table: seq<int>)
    requires NonNegative(counts) && Sum(counts) > 0
    ensures |table| == |counts|
  {
    seq(|counts|, k requires 0 <= k < |counts| => SumBounds(counts, k); Entry(counts, k))
  }

  predicate Calibratable(histogram: seq<int>, minimumSamples: int) {
    && |histogram| == TAPS && NonNegative(histogram)
    && Sum(histogram) >= minimumSamples && Occupied(histogram) >= 64
    && NarrowBins(histogram)
  }

  function CalibrationFromHistogram(histogram: seq<int>, minimumSamples: int): Result<seq<int>, TdcError> {
    if |histogram| != TAPS then Err(BadLength)
    else if !NonNegative(histogram) then Err(NegativeCount)
    else if Sum(histogram) < minimumSamples || Occupied(histogram) < 64 then Err(InsufficientCoverage)
    else if !NarrowBins(histogram) then Err(WideBin)
    else
      OccupiedNeedsSamples(histogram);
      ValidateTable(Table(histogram))
  }

  lemma RintNearest(n: nat, d: nat)
    requires d > 0
    ensures 2 * n - d <= 2 * (Rint(n, d) * d) <= 2 * n + d
  {
    var q := n / d;
    assert n == q * d + n % d;
    assert (q + 1) * d == q * d + d;
  }

  /** Half-way values go to the even neighbour, so that with RintNearest the
      value is determined. */
  lemma RintTiesToEven(n: nat, d: nat)
    requires d > 0
    ensures 2 * (Rint(n, d) * d) in {2 * n - d, 2 * n + d} ==> Rint(n, d) % 2 == 0
    ensures 2 * (n % d) == d ==> Rint(n, d) % 2 == 0
  {
    var q := n / d;
    assert n == q * d + n % d;
    assert (q + 1) * d == q * d + d;
  }

  lemma RintMonotone(m: nat, n: nat, d: nat)
    requires d > 0 && m <= n
    ensures Rint(m, d) <= Rint(n, d)
  {
    var p, q := m / d, n / d;
    assert m == p * d + m % d && n == q * d + n % d;
    assert (p - q) * d == p * d - q * d;
    NotPositive(p - q, d);
    assert p == q ==> m % d <= n % d;
  }

  lemma RintAtMost(n: nat, d: nat, limit: nat)
    requires d > 0 && n <= limit * d
    ensures Rint(n, d) <= limit
  {
    RintOfMultiple(limit, d);
    RintMonotone(n, limit * d, d);
  }

  lemma RintAtLeast(n: nat, d: nat, limit: nat)
    requires d > 0 && n >= limit * d
    ensures Rint(n, d) >= limit
  {
    RintOfMultiple(limit, d);
    RintMonotone(limit * d, n, d);
  }

  lemma RintOfMultiple(k: nat, d: nat)
    requires d > 0
    ensures Rint(k * d, d) == k
  {
    QuotientUnique(k * d, d, k);
  }

  /** The entry of a bin is the integer nearest to its centre in units of 10 ps,
      500 (before + counts[k] / 2) / total, and the even one of two nearest. */
  predicate NearestEven(counts: seq<int>, k: nat, entry: int)
    requires k < |counts|
  {
    var total, centre := Sum(counts), 500 * Sum(counts[..k]) + 250 * counts[k];
    && -total <= 2 * (entry * total - centre) <= total
    && (2 * (entry * total - centre) in {-total, total} ==> entry % 2 == 0)
  }

  lemma EntryIsNearestEven(counts: seq<int>, k: nat)
    requires NonNegative(counts) && Sum(counts) > 0 && k < |counts|
    ensures NearestEven(counts, k, Table(counts)[k])
  {
    hide Rint, Sum;
    SumBounds(counts, k);
    RintNearest(250 * HalfCentre(counts, k), Sum(counts));
    RintTiesToEven(250 * HalfCentre(counts, k), Sum(counts));
  }

  /** Every calibratable histogram gives a table inside 0..500 that never
      decreases, starts within 5 units of 0 and ends within 5 of 500. */
  lemma TableProperties(counts: seq<int>)
    requires |counts| == TAPS && NonNegative(counts) && NarrowBins(counts) && Sum(counts) > 0
    ensures var table := Table(counts);
            && (forall k :: 0 <= k < TAPS ==> 0 <= table[k] <= 500)
            && (forall k :: 0 <= k < TAPS - 1 ==> table[k] <= table[k + 1])
            && table[0] <= 5 && table[TAPS - 1] >= 495
            && (forall k :: 0 <= k < TAPS ==> NearestEven(counts, k, table[k]))
  {
    hide Rint, Sum, NearestEven;
    var total, table := Sum(counts), Table(counts);
    forall k | 0 <= k < TAPS
      ensures 0 <= table[k] <= 500 && NearestEven(counts, k, table[k])
    {
      SumBounds(counts, k);
      EntryIsNearestEven(counts, k);
      RintAtMost(250 * HalfCentre(counts, k), total, 500);
    }
    forall k | 0 <= k < TAPS - 1
      ensures table[k] <= table[k + 1]
    {
      SumBounds(counts, k);
      SumBounds(counts, k + 1);
      RintMonotone(250 * HalfCentre(counts, k), 250 * HalfCentre(counts, k + 1), total);
    }
    SumBounds(counts, 0);
    EmptySum(counts);
    RintAtMost(250 * HalfCentre(counts, 0), total, 5);
    SumBounds(counts, TAPS - 1);
    assert counts[..TAPS] == counts;
    RintAtLeast(250 * HalfCentre(counts, TAPS - 1), total, 495);
  }

  lemma EmptySum(counts: seq<int>)
    ensures Sum(counts[..0]) == 0
  {
  }

  /** Calibration succeeds exactly on the histograms that pass its checks: the
      table it then builds is never refused by validate_table. */
  lemma CalibrationAccepts(histogram: seq<int>, minimumSamples: int)
    ensures CalibrationFromHistogram(histogram, minimumSamples).Ok? <==>
            && |histogram| == 2048 && (forall k :: 0 <= k < 2048 ==> histogram[k] >= 0)
            && Sum(histogram) >= minimumSamples && |OccupiedBins(histogram)| >= 64
            && (forall k :: 0 <= k < 2048 ==> 50 * histogram[k] <= Sum(histogram))
    ensures Calibratable(histogram, minimumSamples) ==>
              && Sum(histogram) > 0
              && CalibrationFromHistogram(histogram, minimumSamples) == Ok(Table(histogram))
              && TableOk(Table(histogram)) && Table(histogram)[TAPS - 1] - Table(histogram)[0] >= 490
              && (forall k :: 0 <= k < 2048 ==> NearestEven(histogram, k, Table(histogram)[k]))
  {
    hide Entry, HalfCentre, Sum, Occupied, NearestEven, OccupiedBins;
    OccupiedCounts(histogram);
    if Calibratable(histogram, minimumSamples) {
      OccupiedNeedsSamples(histogram);
      TableProperties(histogram);
    }
  }

  /** The centre of bin k in picoseconds. */
  function CentrePs(counts: seq<int>, k: nat): real
    requires k < |counts| && Sum(counts) > 0
  {
    (Sum(counts[..k + 1]) as real - counts[k] as real / 2.0) * (SAMPLE_PERIOD_PS as real) / (Sum(counts) as real)
  }

  /** Every table entry is within 5 ps of its bin's centre. */
  lemma EntryNearCentre(counts: seq<int>, k: nat)
    requires NonNegative(counts) && Sum(counts) > 0 && k < |counts|
    ensures -5.0 <= 10.0 * (Table(counts)[k] as real) - CentrePs(counts, k) <= 5.0
  {
    hide Sum, Rint, Table;
    SumBounds(counts, k);
    EntryIsNearestEven(counts, k);
    var n, d, entry := 250 * HalfCentre(counts, k), Sum(counts), Table(counts)[k];
    CentreIsRatio(Sum(counts[..k + 1]), counts[k], d);
    NearRatio(entry, n, d);
  }

  lemma CentreIsRatio(s: int, c: int, d: int)
    requires d > 0
    ensures (s as real - c as real / 2.0) * (SAMPLE_PERIOD_PS as real) / (d as real)
            == 10.0 * ((250 * (2 * s - c)) as real) / (d as real)
  {
  }

  lemma NearRatio(entry: int, n: int, d: int)
    requires d > 0 && 2 * n - d <= 2 * (entry * d) <= 2 * n + d
    ensures -5.0 <= 10.0 * (entry as real) - 10.0 * (n as real) / (d as real) <= 5.0
  {
    RealProduct(entry, d);
    NearQuotient(entry as real, n as real, d as real, (entry * d) as real);
  }

  lemma RealProduct(a: int, b: int)
    ensures (a * b) as real == (a as real) * (b as real)
  {
  }

  lemma NearQuotient(e: real, x: real, y: real, product: real)
    requires y > 0.0 && product == e * y && 2.0 * x - y <= 2.0 * product <= 2.0 * x + y
    ensures -5.0 <= 10.0 * e - 10.0 * x / y <= 5.0
  {
    var r := x / y;
    TimesQuotient(x, y);
    SmallFactor(e - r, y, product - x);
  }

  lemma TimesQuotient(x: real, y: real)
    requires y > 0.0
    ensures x / y * y == x && 10.0 * x / y == 10.0 * (x / y)
  {
  }

  lemma SmallFactor(t: real, y: real, product: real)
    requires y > 0.0 && product == t * y && -y <= 2.0 * product <= y
    ensures -1.0 <= 2.0 * t <= 1.0
  {
  }
}
