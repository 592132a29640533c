/** The progress page (src/pages/Progress.tsx): summary figures over a fixed
    workout history and fixed form-improvement metrics. */
module Progress {

  datatype WorkoutRecord = WorkoutRecord(date: string, duration: int, exercises: int, feedback: int)

  datatype Metric = Metric(name: string, initial: int, current: int)

  const WorkoutHistory: seq<WorkoutRecord> := [
    WorkoutRecord("2025-05-01", 35, 4, 12),
    WorkoutRecord("2025-05-03", 42, 5, 15),
    WorkoutRecord("2025-05-05", 28, 3, 8),
    WorkoutRecord("2025-05-07", 45, 6, 18),
    WorkoutRecord("2025-05-09", 50, 5, 14),
    WorkoutRecord("2025-05-11", 38, 4, 10),
    WorkoutRecord("2025-05-13", 55, 7, 20)
  ]

  const ImprovementMetrics: seq<Metric> := [
    Metric("Squat Form", 65, 87),
    Metric("Push-up Depth", 72, 90),
    Metric("Plank Stability", 60, 82),
    Metric("Deadlift Form", 55, 78)
  ]

  // ---------------------------------------------------------------------------
  // Sums

  /** `xs.reduce((sum, x) => sum + f(x), 0)`: a fold from the left. */
  function SumBy<T>(xs: seq<T>, f: T -> int): (r: int)
    ensures |xs| == 1 ==> r == f(xs[0])
  {
    if xs == [] then 0 else SumBy(xs[..|xs| - 1], f) + f(xs[|xs| - 1])
  }

  /** Every item contributes a non-negative amount. */
  predicate NonNegativeOn<T>(xs: seq<T>, f: T -> int) {
    forall k :: 0 <= k < |xs| ==> f(xs[k]) >= 0
  }

  /** A sum of non-negative amounts is non-negative. */
  lemma {:induction false} SumByNonNegative<T>(xs: seq<T>, f: T -> int)
    ensures NonNegativeOn(xs, f) ==> SumBy(xs, f) >= 0
  {
    if xs != [] {
      SumByNonNegative(xs[..|xs| - 1], f);
    }
  }

  /** The sum of a concatenation is the sum of the parts. */
  lemma {:induction false} SumByAppend<T>(a: seq<T>, b: seq<T>, f: T -> int)
    ensures SumBy(a + b, f) == SumBy(a, f) + SumBy(b, f)
    decreases |b|
  {
    if b == [] {
      assert a + b == a;
    } else {
      var n := |b| - 1;
      assert (a + b)[..|a + b| - 1] == a + b[..n];
      SumByAppend(a, b[..n], f);
    }
  }

  /** A sequence is its prefix, one item and its suffix. */
  lemma SplitAround<T>(ys: seq<T>, k: nat)
    requires k < |ys|
    ensures ys == ys[..k] + ([ys[k]] + ys[k + 1..])
  {
    assert ys[k..] == [ys[k]] + ys[k + 1..];
    assert ys == ys[..k] + ys[k..];
  }

  /** Taking one item out of the sum. */
  lemma SumByRemove<T>(ys: seq<T>, k: nat, f: T -> int)
    requires k < |ys|
    ensures SumBy(ys, f) == f(ys[k]) + SumBy(ys[..k] + ys[k + 1..], f)
  {
    var a, y, b := ys[..k], ys[k], ys[k + 1..];
    calc {
      SumBy(ys, f);
      == { SplitAround(ys, k); }
      SumBy(a + ([y] + b), f);
      == { SumByAppend(a, [y] + b, f); SumByAppend([y], b, f); }
      SumBy(a, f) + SumBy([y], f) + SumBy(b, f);
      == { SumByAppend(a, b, f); }
      f(y) + SumBy(a + b, f);
    }
  }

  lemma MultisetRemove<T>(ys: seq<T>, k: nat)
    requires k < |ys|
    ensures multiset(ys[..k] + ys[k + 1..]) == multiset(ys) - multiset{ys[k]}
  {
    assert ys == ys[..k] + [ys[k]] + ys[k + 1..];
  }

  /** Summing does not depend on the order of the items. */
  lemma {:induction false} SumByPermutation<T>(xs: seq<T>, ys: seq<T>, f: T -> int)
    requires multiset(xs) == multiset(ys)
    ensures SumBy(xs, f) == SumBy(ys, f)
    decreases |xs|
  {
    if xs == [] {
      assert |ys| == |multiset(ys)| == 0;
    } else {
      var n := |xs| - 1;
      var x := xs[n];
      assert x in multiset(ys) by {
        assert x in multiset(xs);
      }
      var k :| 0 <= k < |ys| && ys[k] == x;
      var rest := ys[..k] + ys[k + 1..];
      MultisetRemove(ys, k);
      MultisetRemove(xs, n);
      assert xs[..n] + xs[n + 1..] == xs[..n];
      calc {
        SumBy(xs, f);
        SumBy(xs[..n], f) + f(x);
        == { SumByPermutation(xs[..n], rest, f); }
        SumBy(rest, f) + f(x);
        == { SumByRemove(ys, k, f); }
        SumBy(ys, f);
      }
    }
  }

  function Duration(w: WorkoutRecord): int { w.duration }
  function Corrections(w: WorkoutRecord): int { w.feedback }
  function One(w: WorkoutRecord): int { 1 }

  /** `workoutHistory.length`. */
  function TotalWorkouts(history: seq<WorkoutRecord>): (n: nat)
    ensures n == SumBy(history, One)
  {
    TotalWorkoutsCountsRecords(history);
    |history|
  }

  /** Total minutes: the sum of `duration`. */
  function TotalMinutes(history: seq<WorkoutRecord>): (m: int)
    ensures NonNegativeOn(history, Duration) ==> m >= 0
  {
    SumByNonNegative(history, Duration);
    SumBy(history, Duration)
  }

  /** Form corrections: the sum of `feedback`. */
  function TotalCorrections(history: seq<WorkoutRecord>): (c: int)
    ensures NonNegativeOn(history, Corrections) ==> c >= 0
  {
    SumByNonNegative(history, Corrections);
    SumBy(history, Corrections)
  }

  /** The workout count is the number of records: each counts once. */
  lemma {:induction false} TotalWorkoutsCountsRecords(history: seq<WorkoutRecord>)
    ensures |history| == SumBy(history, One)
  {
    if history != [] {
      TotalWorkoutsCountsRecords(history[..|history| - 1]);
    }
  }

  /** Both totals are 0 for no records, ignore the order of the records and
      add up over a split of the history. */
  lemma TotalsProperties(history: seq<WorkoutRecord>, other: seq<WorkoutRecord>)
    ensures TotalMinutes([]) == 0 && TotalCorrections([]) == 0
    ensures multiset(history) == multiset(other) ==>
      TotalMinutes(history) == TotalMinutes(other) && TotalCorrections(history) == TotalCorrections(other)
    ensures TotalMinutes(history + other) == TotalMinutes(history) + TotalMinutes(other)
    ensures TotalCorrections(history + other) == TotalCorrections(history) + TotalCorrections(other)
  {
    if multiset(history) == multiset(other) {
      SumByPermutation(history, other, Duration);
      SumByPermutation(history, other, Corrections);
    }
    SumByAppend(history, other, Duration);
    SumByAppend(history, other, Corrections);
  }

  // ---------------------------------------------------------------------------
  // Average improvement

  /** A JavaScript number as far as `Math.round(sum / n)` can produce one. */
  datatype JsNumber = Finite(value: int) | NaN | PositiveInfinity | NegativeInfinity

  /** `Math.round(sum / n)`: the quotient rounded to the nearest integer, a half
      rounding up; dividing by zero gives NaN or an infinity. */
  function RoundedMean(sum: int, n: nat): (r: JsNumber)
    ensures n > 0 ==> r.Finite? && 2 * (n * r.value) - n <= 2 * sum < 2 * (n * r.value) + n
    ensures n == 0 && sum == 0 ==> r == NaN
    ensures n == 0 && sum > 0 ==> r == PositiveInfinity
    ensures n == 0 && sum < 0 ==> r == NegativeInfinity
  {
    if n == 0 then
      (if sum == 0 then NaN else if sum > 0 then PositiveInfinity else NegativeInfinity)
    else
      var q := (2 * sum + n) / (2 * n);
      assert (2 * n) * q == 2 * (n * q);
      assert 2 * (n * q) <= 2 * sum + n < 2 * (n * q) + 2 * n;
      Finite(q)
  }

  /** At most one integer lies within half of the exact mean, ties counted upward. */
  lemma RoundedMeanUnique(sum: int, n: nat, r: int)
    requires n > 0 && 2 * (n * r) - n <= 2 * sum < 2 * (n * r) + n
    ensures RoundedMean(sum, n) == Finite(r)
  {
    var q := RoundedMean(sum, n).value;
    assert n * (q - r) == n * q - n * r;
    assert n * (r - q) == n * r - n * q;
    MulLessCancel(n, q - r, 1);
    MulLessCancel(n, r - q, 1);
  }

  lemma MulLessCancel(k: int, a: int, b: int)
    requires k > 0 && k * a < k * b
    ensures a < b
  {
    assert k * (b - a) == k * b - k * a;
  }

  function Current(m: Metric): int { m.current }
  function Initial(m: Metric): int { m.initial }

  /** The per-metric label `current - initial`. */
  function MetricDelta(m: Metric): (d: int)
    ensures m.initial + d == m.current
    ensures d > 0 <==> m.current > m.initial
  {
    m.current - m.initial
  }

  /** The average improvement; for no metrics, a division by zero. */
  function AverageImprovement(metrics: seq<Metric>): (r: JsNumber)
    ensures metrics == [] ==> r == NaN
    ensures metrics != [] ==> r.Finite?
  {
    RoundedMean(SumBy(metrics, MetricDelta), |metrics|)
  }

  /** The summed improvement is the summed current scores minus the summed initial ones. */
  lemma {:induction false} ImprovementIsDifferenceOfTotals(metrics: seq<Metric>)
    ensures SumBy(metrics, MetricDelta) ==
      SumBy(metrics, Current) - SumBy(metrics, Initial)
  {
    if metrics != [] {
      ImprovementIsDifferenceOfTotals(metrics[..|metrics| - 1]);
    }
  }

  /** Sums bounded item by item are bounded by the count times the bound. */
  lemma {:induction false} SumByBounds<T>(xs: seq<T>, f: T -> int, lo: int, hi: int)
    requires forall k :: 0 <= k < |xs| ==> lo <= f(xs[k]) <= hi
    ensures |xs| * lo <= SumBy(xs, f) <= |xs| * hi
  {
    if xs != [] {
      var n := |xs| - 1;
      SumByBounds(xs[..n], f, lo, hi);
      BoundStep(n, SumBy(xs[..n], f), f(xs[n]), lo, hi);
    }
  }

  /** One more item within the bounds keeps the sum within the next multiples. */
  lemma BoundStep(n: nat, s: int, v: int, lo: int, hi: int)
    requires n * lo <= s <= n * hi && lo <= v <= hi
    ensures (n + 1) * lo <= s + v <= (n + 1) * hi
  {
    assert (n + 1) * lo == n * lo + lo && (n + 1) * hi == n * hi + hi;
  }

  /** An integer within half of `s/n` lies between `lo` and `hi` when `s/n` does. */
  lemma RoundedBetween(n: int, s: int, r: int, lo: int, hi: int)
    requires n > 0
    requires 2 * (n * r) - n <= 2 * s < 2 * (n * r) + n
    requires n * lo <= s <= n * hi
    ensures lo <= r <= hi
  {
    assert n * (r + 1) == n * r + n;
    assert n * (r - 1) == n * r - n;
    MulLessCancel(n, lo, r + 1);
    MulLessCancel(n, r - 1, hi);
  }

  /** With every improvement between `lo` and `hi`, so is the rounded average. */
  lemma AverageWithinBounds(metrics: seq<Metric>, lo: int, hi: int)
    requires |metrics| > 0
    requires forall k :: 0 <= k < |metrics| ==> lo <= MetricDelta(metrics[k]) <= hi
    ensures AverageImprovement(metrics).Finite?
    ensures lo <= AverageImprovement(metrics).value <= hi
  {
    SumByBounds(metrics, MetricDelta, lo, hi);
    RoundedBetween(|metrics|, SumBy(metrics, MetricDelta), AverageImprovement(metrics).value, lo, hi);
  }

  // ---------------------------------------------------------------------------
  // Row bars

  /** The width, in percent, of the progress bar in history row `index`. */
  function BarWidth(index: nat): (w: int)
    ensures w >= 65 && w % 5 == 0
  {
    65 + 5 * index
  }

  /** Later rows have strictly wider bars; the seven rows stay within 100%. */
  lemma BarWidthIncreasing(i: nat, j: nat)
    ensures i < j ==> BarWidth(i) < BarWidth(j)
    ensures i < |WorkoutHistory| ==> 65 <= BarWidth(i) <= 95
  {
  }

  // ---------------------------------------------------------------------------
  // The figures the page shows

  lemma SumByPrefixStep<T>(xs: seq<T>, k: nat, f: T -> int)
    requires 0 < k <= |xs|
    ensures SumBy(xs[..k], f) == SumBy(xs[..k - 1], f) + f(xs[k - 1])
  {
    assert xs[..k][..k - 1] == xs[..k - 1];
  }

  lemma PageFigures()
    ensures TotalWorkouts(WorkoutHistory) == 7
    ensures TotalMinutes(WorkoutHistory) == 293
    ensures TotalCorrections(WorkoutHistory) == 97
    ensures SumBy(ImprovementMetrics, MetricDelta) == 85
    ensures AverageImprovement(ImprovementMetrics) == Finite(21)
  {
    var h := WorkoutHistory;
    assert h[..0] == [];
    for k := 1 to 8
      invariant SumBy(h[..k - 1], Duration) == [0, 35, 77, 105, 150, 200, 238, 293][k - 1]
      invariant SumBy(h[..k - 1], Corrections) == [0, 12, 27, 35, 53, 67, 77, 97][k - 1]
    {
      SumByPrefixStep(h, k, Duration);
      SumByPrefixStep(h, k, Corrections);
    }
    assert h[..7] == h;
    var m := ImprovementMetrics;
    assert m[..0] == [];
    for k := 1 to 5
      invariant SumBy(m[..k - 1], MetricDelta) == [0, 22, 40, 62, 85][k - 1]
    {
      SumByPrefixStep(m, k, MetricDelta);
    }
    assert m[..4] == m;
    RoundedMeanUnique(85, 4, 21);
  }
}
