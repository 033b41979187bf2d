// src/backtest/stats.rs: the one-pass loops and the statistics built on them.
module Stats {
  import opened Wrappers
  import opened Sorting

  // ---------- drawdown ----------

  // Starting capital plus the first n results.
  function Equity(start: real, pnls: seq<real>, n: nat): real
    requires n <= |pnls|
  {
    if n == 0 then start else Equity(start, pnls, n - 1) + pnls[n - 1]
  }

  // Percentage lost from point i to point j of the equity path.
  function Drop(start: real, pnls: seq<real>, i: nat, j: nat): real
    requires i <= |pnls| && j <= |pnls| && Equity(start, pnls, i) != 0.0
  {
    LossPct(Equity(start, pnls, i), Equity(start, pnls, j))
  }

  function LossPct(peak: real, now: real): real
    requires peak != 0.0
  {
    (peak - now) / peak * 100.0
  }

  ghost predicate PeakOf(start: real, pnls: seq<real>, n: nat, peak: real)
    requires n <= |pnls|
  {
    && (forall i :: 0 <= i <= n ==> Equity(start, pnls, i) <= peak)
    && (exists i :: 0 <= i <= n && Equity(start, pnls, i) == peak)
  }

  // Some point up to n lost that much from its running peak, which was positive.
  ghost predicate LostFromPeak(start: real, pnls: seq<real>, n: nat, j: nat, peak: real, loss: real)
    requires n <= |pnls|
  {
    j <= n && PeakOf(start, pnls, j, peak) && peak > 0.0 && loss == LossPct(peak, Equity(start, pnls, j))
  }

  // The largest loss from a running peak over the first n results, or zero if no peak is positive.
  ghost predicate WorstFromPeak(start: real, pnls: seq<real>, n: nat, dd: real)
    requires n <= |pnls|
  {
    && dd >= 0.0
    && (forall j: nat, peak, loss :: LostFromPeak(start, pnls, n, j, peak, loss) ==> loss <= dd)
    && (dd == 0.0 || exists j: nat, peak :: LostFromPeak(start, pnls, n, j, peak, dd))
  }

  // The loop of `compute_statistics` finds the worst loss from a running peak.
  method MaxDrawdown(start: real, pnls: seq<real>) returns (maxDd: real)
    ensures WorstFromPeak(start, pnls, |pnls|, maxDd)
  {
    var equity, peak := start, start;
    maxDd := 0.0;
    StartIsPeak(start, pnls);
    for i := 0 to |pnls|
      invariant equity == Equity(start, pnls, i) && PeakOf(start, pnls, i, peak)
      invariant WorstFromPeak(start, pnls, i, maxDd)
    {
      ghost var peakBefore := peak;
      equity := equity + pnls[i];
      if equity > peak {
        peak := equity;
      }
      PeakMoves(start, pnls, i, peakBefore, peak);
      var dd := if peak > 0.0 then (peak - equity) / peak * 100.0 else 0.0;
      ghost var ddBefore := maxDd;
      if dd > maxDd {
        maxDd := dd;
      }
      WorstMoves(start, pnls, i, ddBefore, peak, maxDd);
    }
  }

  lemma StartIsPeak(start: real, pnls: seq<real>)
    ensures PeakOf(start, pnls, 0, start) && WorstFromPeak(start, pnls, 0, 0.0)
  {
    assert Equity(start, pnls, 0) == start;
    forall j: nat, peak, loss | LostFromPeak(start, pnls, 0, j, peak, loss) ensures loss <= 0.0 {
      assert peak == start;
      assert LossPct(start, start) == 0.0;
    }
  }

  lemma PeakMoves(start: real, pnls: seq<real>, n: nat, before: real, peak: real)
    requires n < |pnls| && PeakOf(start, pnls, n, before)
    requires peak == if Equity(start, pnls, n + 1) > before then Equity(start, pnls, n + 1) else before
    ensures PeakOf(start, pnls, n + 1, peak)
  {
  }

  lemma PeakIsUnique(start: real, pnls: seq<real>, n: nat, a: real, b: real)
    requires n <= |pnls| && PeakOf(start, pnls, n, a) && PeakOf(start, pnls, n, b)
    ensures a == b
  {
  }

  lemma WorstMoves(start: real, pnls: seq<real>, n: nat, before: real, peak: real, dd: real)
    requires n < |pnls| && WorstFromPeak(start, pnls, n, before) && PeakOf(start, pnls, n + 1, peak)
    requires var last := if peak > 0.0 then LossPct(peak, Equity(start, pnls, n + 1)) else 0.0; dd == if last > before then last else before
    ensures WorstFromPeak(start, pnls, n + 1, dd)
  {
    var m := n + 1;
    hide LossPct;
    forall j: nat, p, loss | LostFromPeak(start, pnls, m, j, p, loss) ensures loss <= dd {
      if j == m {
        PeakIsUnique(start, pnls, j, p, peak);
      } else {
        assert LostFromPeak(start, pnls, n, j, p, loss);
      }
    }
    if dd > before {
      assert LostFromPeak(start, pnls, m, m, peak, dd);
    } else if dd != 0.0 {
      var j: nat, p :| LostFromPeak(start, pnls, n, j, p, dd);
      assert LostFromPeak(start, pnls, m, j, p, dd);
    }
  }

  lemma LossBounds(peak: real, now: real)
    requires peak > 0.0
    ensures now <= peak ==> LossPct(peak, now) >= 0.0
    ensures LossPct(peak, now) <= 100.0 <==> now >= 0.0
  {
    var q := (peak - now) / peak;
    assert q * peak == peak - now;
    assert (q - 1.0) * peak == 0.0 - now;
    SignOfProduct(q, peak);
    SignOfProduct(q - 1.0, peak);
    assert LossPct(peak, now) == q * 100.0;
    assert q - 1.0 > 0.0 <==> now < 0.0;
  }

  // From a higher peak the same non-negative level is a larger loss.
  lemma HigherPeakLosesMore(low: real, high: real, now: real)
    requires 0.0 < low <= high && now >= 0.0
    ensures LossPct(low, now) <= LossPct(high, now)
  {
    var x, y := 1.0 - (low - now) / low, 1.0 - (high - now) / high;
    assert (low - now) / low * low == low - now && (high - now) / high * high == high - now;
    assert x * low == now && y * high == now;
    SignOfProduct(x, low);
    NonNegative(x, high - low);
    assert (y - x) * high == 0.0 - x * (high - low);
    SignOfProduct(y - x, high);
  }

  lemma {:induction false} PeakExists(start: real, pnls: seq<real>, n: nat) returns (peak: real)
    requires n <= |pnls|
    ensures PeakOf(start, pnls, n, peak)
  {
    if n == 0 {
      peak := start;
    } else {
      var before := PeakExists(start, pnls, n - 1);
      peak := if Equity(start, pnls, n) > before then Equity(start, pnls, n) else before;
      PeakMoves(start, pnls, n - 1, before, peak);
    }
  }

  ghost predicate PositivePath(start: real, pnls: seq<real>) {
    start > 0.0 && forall i :: 0 <= i <= |pnls| ==> Equity(start, pnls, i) >= 0.0
  }

  // While equity never goes negative, the running figure is the maximum over all pairs
  // of an earlier and a later point, and lies between 0 and 100.
  lemma WorstIsTheWorstPair(start: real, pnls: seq<real>, dd: real)
    requires PositivePath(start, pnls) && WorstFromPeak(start, pnls, |pnls|, dd)
    ensures forall i: nat, j: nat :: i <= j <= |pnls| && Equity(start, pnls, i) > 0.0 ==> Drop(start, pnls, i, j) <= dd
    ensures exists i: nat, j: nat :: i <= j <= |pnls| && Equity(start, pnls, i) > 0.0 && Drop(start, pnls, i, j) == dd
    ensures 0.0 <= dd <= 100.0
  {
    assert LossPct(start, start) == 0.0;
    hide LossPct;
    forall i: nat, j: nat | i <= j <= |pnls| && Equity(start, pnls, i) > 0.0 ensures Drop(start, pnls, i, j) <= dd {
      var peak := PeakExists(start, pnls, j);
      assert LostFromPeak(start, pnls, |pnls|, j, peak, LossPct(peak, Equity(start, pnls, j)));
      HigherPeakLosesMore(Equity(start, pnls, i), peak, Equity(start, pnls, j));
    }
    if dd == 0.0 {
      assert Equity(start, pnls, 0) == start && Drop(start, pnls, 0, 0) == dd;
    } else {
      var j: nat, peak :| LostFromPeak(start, pnls, |pnls|, j, peak, dd);
      var i: nat :| i <= j && Equity(start, pnls, i) == peak;
      assert Drop(start, pnls, i, j) == dd;
      LossBounds(peak, Equity(start, pnls, j));
    }
  }

  // It stays at or below 100 exactly when equity never goes negative.
  lemma AtMostHundredIff(start: real, pnls: seq<real>, dd: real)
    requires start > 0.0 && WorstFromPeak(start, pnls, |pnls|, dd)
    ensures dd <= 100.0 <==> PositivePath(start, pnls)
  {
    hide LossPct;
    forall j: nat | dd <= 100.0 && j <= |pnls| ensures Equity(start, pnls, j) >= 0.0 {
      var peak := PeakExists(start, pnls, j);
      assert peak >= Equity(start, pnls, 0) == start;
      assert LostFromPeak(start, pnls, |pnls|, j, peak, LossPct(peak, Equity(start, pnls, j)));
      LossBounds(peak, Equity(start, pnls, j));
    }
    if PositivePath(start, pnls) {
      WorstIsTheWorstPair(start, pnls, dd);
    }
  }

  // Below zero the pairwise reading fails: from 100 to 200 to -50 the running figure
  // is 125 while the pair (100, -50) lost 150.
  lemma PairsFailBelowZero()
    ensures var pnls := [100.0, 0.0 - 250.0];
      WorstFromPeak(100.0, pnls, 2, 125.0) && Equity(100.0, pnls, 0) != 0.0 && Drop(100.0, pnls, 0, 2) == 150.0
  {
    var pnls := [100.0, 0.0 - 250.0];
    assert Equity(100.0, pnls, 0) == 100.0 && Equity(100.0, pnls, 1) == 200.0 && Equity(100.0, pnls, 2) == 0.0 - 50.0;
    StartIsPeak(100.0, pnls);
    PeakMoves(100.0, pnls, 0, 100.0, 200.0);
    WorstMoves(100.0, pnls, 0, 0.0, 200.0, 0.0);
    PeakMoves(100.0, pnls, 1, 200.0, 200.0);
    WorstMoves(100.0, pnls, 1, 0.0, 200.0, 125.0);
  }

  // ---------- losing streak ----------

  ghost predicate LosingBlock(pnls: seq<real>, i: nat, j: nat) {
    i <= j <= |pnls| && forall k :: i <= k < j ==> pnls[k] <= 0.0
  }

  ghost predicate LongestBlock(pnls: seq<real>, longest: nat) {
    && (exists i: nat, j: nat :: LosingBlock(pnls, i, j) && j - i == longest)
    && (forall i: nat, j: nat :: LosingBlock(pnls, i, j) ==> j - i <= longest)
  }

  // The longest contiguous block of results that are not wins.
  method LongestLosingStreak(pnls: seq<real>) returns (longest: nat)
    ensures LongestBlock(pnls, longest)
  {
    longest := 0;
    var current: nat := 0;
    ghost var from: nat, to: nat := 0, 0;
    for n := 0 to |pnls|
      invariant current <= n && LosingBlock(pnls, n - current, n)
      invariant current < n ==> pnls[n - current - 1] > 0.0
      invariant LosingBlock(pnls, from, to) && to - from == longest && to <= n
      invariant forall i: nat, j: nat :: j <= n && LosingBlock(pnls, i, j) ==> j - i <= longest
    {
      if pnls[n] <= 0.0 {
        current := current + 1;
        if current > longest {
          longest := current;
          from, to := n + 1 - current, n + 1;
        }
      } else {
        current := 0;
      }
      ghost var m := n + 1;
      forall i: nat | LosingBlock(pnls, i, m) ensures m - i <= longest {
        assert i >= m - current;
      }
    }
  }

  // ---------- square root ----------

  function NewtonStep(v: real, g: real): real
    requires g != 0.0
  {
    (g + v / g) / 2.0
  }

  // One step lands at or above the root, and its square misses v by the square of the step.
  lemma StepOvershoots(v: real, g: real)
    requires g > 0.0 && v > 0.0
    ensures var next := NewtonStep(v, g);
      && next > 0.0
      && next * next - v == (next - g) * (next - g)
  {
    var q := v / g;
    var next := NewtonStep(v, g);
    assert q * g == v;
    SignOfProduct(q, g);
    assert next - g == (q - g) / 2.0;
    SquareGap(g, q);
  }

  lemma SquareGap(g: real, q: real)
    ensures (g + q) / 2.0 * ((g + q) / 2.0) - q * g == (q - g) / 2.0 * ((q - g) / 2.0)
  {
    var a, b := (g + q) / 2.0, (q - g) / 2.0;
    assert a + b == q && a - b == g;
    assert (a + b) * (a - b) == a * a - b * b;
  }

  // From at or above the root, the quotient is positive and at most the guess.
  lemma QuotientBelow(v: real, g: real)
    requires g > 0.0 && v > 0.0 && g * g >= v
    ensures 0.0 < v / g <= g
  {
    var q := v / g;
    assert q * g == v;
    assert (q - g) * g == v - g * g;
    SignOfProduct(q, g);
    SignOfProduct(q - g, g);
  }

  lemma QuotientGap(v: real, next: real, d: real)
    requires next > 0.0 && 0.0 <= d <= next && next * next - v == d * d
    ensures 0.0 <= next - v / next <= d
  {
    var r := v / next;
    var gap := next - r;
    assert r * next == v;
    assert gap * next == next * next - r * next;
    Square(d);
    SignOfProduct(gap, next);
    NonNegative(d, next - d);
    assert (gap - d) * next == 0.0 - d * (next - d);
    SignOfProduct(gap - d, next);
  }

  lemma NonNegative(a: real, b: real)
    requires a >= 0.0 && b >= 0.0
    ensures a * b >= 0.0
  {
  }

  // From above the root the steps go down and at least halve each time.
  lemma StepsHalve(v: real, g: real)
    requires g > 0.0 && v > 0.0 && g * g >= v
    ensures var next := NewtonStep(v, g);
      && next > 0.0 && next * next >= v
      && 0.0 <= next - NewtonStep(v, next) <= (g - next) / 2.0
      && g - next <= g / 2.0
  {
    var next := NewtonStep(v, g);
    var d := g - next;
    StepOvershoots(v, g);
    Square(d);
    assert (next - g) * (next - g) == d * d;
    QuotientBelow(v, g);
    QuotientGap(v, next, d);
  }

  lemma Square(x: real)
    ensures x * x >= 0.0
  {
  }

  function Halved(x: real, n: nat): real {
    if n == 0 then x else Halved(x, n - 1) / 2.0
  }

  const EPSILON := 0.0000000001
  const MAX_STEPS := 50
  const ROOT_RANGE := 225000.0

  lemma HalvedFive(x: real, n: nat)
    ensures Halved(x, n + 5) == Halved(x, n) / 32.0
  {
    assert Halved(x, n + 1) == Halved(x, n) / 2.0;
    assert Halved(x, n + 2) == Halved(x, n + 1) / 2.0;
    assert Halved(x, n + 3) == Halved(x, n + 2) / 2.0;
    assert Halved(x, n + 4) == Halved(x, n + 3) / 2.0;
  }

  lemma HalvingSuffices(x: real)
    requires 0.0 <= x <= 28126.0
    ensures Halved(x, 48) < EPSILON
  {
    HalvedFive(x, 43);
    HalvedFive(x, 38);
    HalvedFive(x, 33);
    HalvedFive(x, 28);
    HalvedFive(x, 23);
    HalvedFive(x, 18);
    HalvedFive(x, 13);
    HalvedFive(x, 8);
    HalvedFive(x, 3);
    assert Halved(x, 1) == x / 2.0;
    assert Halved(x, 2) == x / 4.0;
    assert Halved(x, 3) == x / 8.0;
    hide Halved;
  }

  // Before iteration i the guess is at or above the root, except at the start, and
  // the coming step is at most a bound that has been halved i - 1 times.
  ghost predicate Converging(v: real, g: real, i: nat) {
    && v > 0.0 && g > 0.0
    && (i == 0 ==> g == v / 2.0)
    && (i > 0 ==>
          && g * g >= v && 0.0 <= g - NewtonStep(v, g)
          && (v <= ROOT_RANGE ==> g - NewtonStep(v, g) <= Halved(28126.0, i - 1)))
  }

  lemma ConvergingStep(v: real, g: real, i: nat)
    requires Converging(v, g, i)
    ensures Converging(v, NewtonStep(v, g), i + 1)
  {
    if i == 0 {
      FirstStep(v);
    } else {
      StepsHalve(v, g);
      StepsHalve(v, NewtonStep(v, g));
      assert Halved(28126.0, i) == Halved(28126.0, i - 1) / 2.0;
    }
    hide NewtonStep, Halved;
  }

  function Gap(a: real, b: real): real {
    if a - b >= 0.0 then a - b else b - a
  }

  // The last iteration at the latest stops, within the range.
  lemma LastStepIsSmall(v: real, g: real)
    requires Converging(v, g, 49) && v <= ROOT_RANGE
    ensures Gap(NewtonStep(v, g), g) < EPSILON
  {
    hide NewtonStep, Halved;
    HalvingSuffices(28126.0);
  }

  lemma SmallStepIsAccurate(v: real, g: real)
    requires v > 0.0 && g > 0.0
    ensures var next := NewtonStep(v, g);
      && next > 0.0 && next * next >= v
      && (Gap(next, g) < EPSILON ==> next * next - v < EPSILON * EPSILON)
  {
    StepOvershoots(v, g);
    var gap := NewtonStep(v, g) - g;
    hide NewtonStep;
    Square(gap);
    if Gap(gap + g, g) < EPSILON {
      SmallSquare(if gap >= 0.0 then gap else 0.0 - gap, EPSILON);
      assert (0.0 - gap) * (0.0 - gap) == gap * gap;
    }
  }

  // The guesses of `decimal_sqrt` from g on, with n steps left.
  function RootFrom(n: nat, v: real, g: real): real
    requires v > 0.0 && g > 0.0
  {
    if n == 0 then g
    else
      var next := NewtonStep(v, g);
      StepOvershoots(v, g);
      if Gap(next, g) < EPSILON then next else RootFrom(n - 1, v, next)
  }

  function Root(v: real): real {
    if v <= 0.0 then 0.0 else RootFrom(MAX_STEPS, v, v / 2.0)
  }

  lemma {:induction false} RootFromIsAccurate(v: real, g: real, i: nat)
    requires i <= MAX_STEPS && Converging(v, g, i) && (i == MAX_STEPS ==> v > ROOT_RANGE)
    ensures var r := RootFrom(MAX_STEPS - i, v, g);
      r > 0.0 && r * r >= v && (v <= ROOT_RANGE ==> r * r - v < EPSILON * EPSILON)
    decreases MAX_STEPS - i
  {
    hide NewtonStep, Halved;
    if i < MAX_STEPS {
      var next := NewtonStep(v, g);
      SmallStepIsAccurate(v, g);
      if Gap(next, g) >= EPSILON {
        ConvergingStep(v, g, i);
        if i == MAX_STEPS - 1 && v <= ROOT_RANGE {
          LastStepIsSmall(v, g);
        }
        RootFromIsAccurate(v, next, i + 1);
      }
    }
  }

  // Never below the root, and within the range a square at most 10^-20 too large.
  ghost predicate RootOf(v: real, r: real) {
    && (v <= 0.0 ==> r == 0.0)
    && (v > 0.0 ==> r > 0.0 && r * r >= v)
    && (0.0 < v <= ROOT_RANGE ==> r * r - v < EPSILON * EPSILON)
  }

  // Within the range the steps always stop early.
  lemma RootIsAccurate(v: real)
    ensures RootOf(v, Root(v))
  {
    hide NewtonStep, RootFrom;
    if v > 0.0 {
      RootFromIsAccurate(v, v / 2.0, 0);
    }
  }

  // `decimal_sqrt` over the reals.
  method DecimalSqrt(v: real) returns (r: real)
    ensures r == Root(v) && RootOf(v, r)
  {
    RootIsAccurate(v);
    if v <= 0.0 {
      return 0.0;
    }
    var guess := v / 2.0;
    hide NewtonStep, Root, RootOf;
    for i := 0 to MAX_STEPS
      invariant guess > 0.0 && RootFrom(MAX_STEPS - i, v, guess) == Root(v)
    {
      var next := NewtonStep(v, guess);
      StepOvershoots(v, guess);
      if Gap(next, guess) < EPSILON {
        return next;
      }
      guess := next;
    }
    return guess;
  }

  lemma SmallSquare(x: real, e: real)
    requires 0.0 <= x < e
    ensures x * x < e * e
  {
    assert x * (e - x) >= 0.0;
    assert (e - x) * e > 0.0;
  }

  lemma FirstStep(v: real)
    requires v > 0.0
    ensures var g := NewtonStep(v, v / 2.0);
      g > 0.0 && g * g >= v && 0.0 <= g - NewtonStep(v, g) && (v <= ROOT_RANGE ==> g - NewtonStep(v, g) <= 28126.0)
  {
    var half := v / 2.0;
    StepOvershoots(v, half);
    assert v / half == 2.0 by {
      assert 2.0 * half == v;
    }
    var g := NewtonStep(v, half);
    assert g == v / 4.0 + 1.0;
    Square(g - half);
    StepsHalve(v, g);
  }

  // ---------- median ----------

  function Identity(x: real): real {
    x
  }

  function Middle(sorted: seq<real>): real {
    var n := |sorted|;
    if n == 0 then 0.0
    else if n % 2 == 0 then (sorted[n / 2 - 1] + sorted[n / 2]) / 2.0
    else sorted[n / 2]
  }

  lemma MiddleSplits(sorted: seq<real>)
    requires forall i, j :: 0 <= i < j < |sorted| ==> sorted[i] <= sorted[j]
    ensures forall i :: 0 <= i < (|sorted| + 1) / 2 ==> sorted[i] <= Middle(sorted)
    ensures forall i :: |sorted| / 2 <= i < |sorted| ==> Middle(sorted) <= sorted[i]
    ensures var n := |sorted|; n > 0 ==> 2.0 * Middle(sorted) == sorted[(n - 1) / 2] + sorted[n / 2]
    ensures sorted == [] ==> Middle(sorted) == 0.0
  {
  }

  // At least half of the values are at or below the median, and at least half at or above it.
  lemma MedianSplits(values: seq<real>)
    ensures var m := Middle(Sort(values, Identity));
      && 2 * |Select(values, (x: real) => x <= m)| >= |values|
      && 2 * |Select(values, (x: real) => x >= m)| >= |values|
  {
    var sorted := Sort(values, Identity);
    var m := Middle(sorted);
    SortIsSorted(values, Identity);
    forall i, j | 0 <= i < j < |sorted| ensures sorted[i] <= sorted[j] {
      assert Identity(sorted[i]) <= Identity(sorted[j]);
    }
    MiddleSplits(sorted);
    hide Middle, Sort, Select;
    SelectPart(sorted, (x: real) => x <= m, 0, (|sorted| + 1) / 2);
    SelectPart(sorted, (x: real) => x >= m, |sorted| / 2, |sorted|);
    SortCounts(values, Identity, (x: real) => x <= m);
    SortCounts(values, Identity, (x: real) => x >= m);
  }

  // ---------- interval and verdict ----------

  datatype Verdict = SyntheticData | NoOosData | InvalidData | InsufficientOosSample | Inconclusive | PositiveExpectancy | NegativeExpectancy

  const MIN_OOS_TRADES := 5

  datatype Summary = Summary(synthetic: bool, oosTotal: nat, oosUsable: nat, ciLow: real, ciHigh: real)

  function Ci95(mean: real, error: real): (real, real) {
    (mean - 1.96 * error, mean + 1.96 * error)
  }

  function VerdictOf(s: Summary): Verdict {
    if s.synthetic then SyntheticData
    else if s.oosTotal == 0 then NoOosData
    else if s.oosUsable == 0 then InvalidData
    else if s.oosUsable < MIN_OOS_TRADES then InsufficientOosSample
    else if s.ciLow <= 0.0 && s.ciHigh >= 0.0 then Inconclusive
    else if s.ciLow > 0.0 then PositiveExpectancy
    else if s.ciHigh < 0.0 then NegativeExpectancy
    else Inconclusive
  }

  // A verdict about expectancy needs real data, enough usable trades, and a mean more
  // than 1.96 standard errors from zero; then the sign of the mean decides, and the
  // final fallback is never reached.
  lemma VerdictIff(synthetic: bool, total: nat, usable: nat, mean: real, error: real)
    requires error >= 0.0 && usable <= total
    ensures var (low, high) := Ci95(mean, error);
      var v := VerdictOf(Summary(synthetic, total, usable, low, high));
      var heard := !synthetic && usable >= MIN_OOS_TRADES;
      && (v.PositiveExpectancy? <==> heard && mean > 1.96 * error)
      && (v.NegativeExpectancy? <==> heard && mean < 0.0 - 1.96 * error)
      && (v.Inconclusive? <==> heard && 0.0 - 1.96 * error <= mean <= 1.96 * error)
      && (v.SyntheticData? <==> synthetic)
      && (v.NoOosData? <==> !synthetic && total == 0)
      && (v.InvalidData? <==> !synthetic && total > 0 && usable == 0)
      && (v.InsufficientOosSample? <==> !synthetic && 0 < usable < MIN_OOS_TRADES)
      && MIN_OOS_TRADES == 5
  {
  }
}
