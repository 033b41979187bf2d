// The statistics of a run: `compute_statistics` (src/backtest/stats.rs) over the usable
// trades, and the report of src/backtest/mod.rs with its out-of-sample verdict.
module Statistics {
  import opened Wrappers
  import opened Signals
  import opened Sorting
  import opened Splits
  import opened Simulation
  import opened Backtest
  import opened Stats
  import G = EntryGate

  function Sum(xs: seq<real>): real {
    if xs == [] then 0.0 else Sum(xs[..|xs| - 1]) + xs[|xs| - 1]
  }

  function Mean(xs: seq<real>): real {
    if xs == [] then 0.0 else Sum(xs) / (|xs| as real)
  }

  function SquareFrom(x: real, centre: real): real {
    (x - centre) * (x - centre)
  }

  function SquaresFrom(xs: seq<real>, centre: real): seq<real> {
    seq(|xs|, i requires 0 <= i < |xs| => SquareFrom(xs[i], centre))
  }

  // Bessel-corrected.
  function Variance(xs: seq<real>): real {
    if |xs| <= 1 then 0.0 else Sum(SquaresFrom(xs, Mean(xs))) / ((|xs| - 1) as real)
  }

  // The mean times the size is the sum, and the variance times one less than the size is
  // the sum of the squares less the size times the squared mean.
  lemma VarianceMeans(xs: seq<real>)
    ensures xs != [] ==> Mean(xs) * |xs| as real == Sum(xs)
    ensures |xs| > 1 ==>
      Variance(xs) * (|xs| as real - 1.0) == Sum(SquaresFrom(xs, 0.0)) - |xs| as real * (Mean(xs) * Mean(xs))
    ensures |xs| <= 1 ==> Variance(xs) == 0.0
  {
    hide Sum, SquaresFrom, Mean, Variance;
    if xs != [] {
      MeanTimes(xs);
    }
    if |xs| > 1 {
      VarianceTimes(xs);
      SquaresShift(xs, Mean(xs));
      AroundTheMean(Variance(xs), Sum(SquaresFrom(xs, Mean(xs))), Sum(SquaresFrom(xs, 0.0)), Sum(xs), |xs| as real, Mean(xs));
    } else {
      NoVariance(xs);
    }
  }

  lemma MeanTimes(xs: seq<real>)
    requires xs != []
    ensures Mean(xs) * |xs| as real == Sum(xs)
  {
    QuotientTimes(Sum(xs), |xs| as real);
  }

  lemma VarianceTimes(xs: seq<real>)
    requires |xs| > 1
    ensures Variance(xs) * (|xs| as real - 1.0) == Sum(SquaresFrom(xs, Mean(xs)))
  {
    var n := (|xs| - 1) as real;
    assert n == |xs| as real - 1.0;
    QuotientTimes(Sum(SquaresFrom(xs, Mean(xs))), n);
    hide Sum, SquaresFrom, Mean;
  }

  lemma NoVariance(xs: seq<real>)
    requires |xs| <= 1
    ensures Variance(xs) == 0.0
  {
  }

  lemma QuotientTimes(a: real, n: real)
    requires n != 0.0
    ensures a / n * n == a
  {
  }

  lemma AroundTheMean(v: real, squares: real, plain: real, sum: real, n: real, m: real)
    requires v * (n - 1.0) == squares && m * n == sum && squares == Shifted(plain, sum, n, m)
    ensures v * (n - 1.0) == plain - n * (m * m)
  {
    assert 2.0 * m * (m * n) == 2.0 * (n * m * m);
  }

  lemma SquaresOfFront(xs: seq<real>, centre: real)
    requires xs != []
    ensures SquaresFrom(xs, centre)[..|xs| - 1] == SquaresFrom(xs[..|xs| - 1], centre)
  {
    var front := xs[..|xs| - 1];
    forall i | 0 <= i < |front| ensures SquaresFrom(xs, centre)[i] == SquaresFrom(front, centre)[i] {
      assert front[i] == xs[i];
    }
  }

  // The squares about a centre, from the squares about zero.
  function Shifted(plain: real, sum: real, n: real, centre: real): real {
    plain - 2.0 * centre * sum + n * centre * centre
  }

  lemma {:induction false} SquaresShift(xs: seq<real>, centre: real)
    ensures Sum(SquaresFrom(xs, centre)) == Shifted(Sum(SquaresFrom(xs, 0.0)), Sum(xs), |xs| as real, centre)
  {
    if xs == [] {
      NothingShifted(centre);
    } else {
      var front, last := xs[..|xs| - 1], xs[|xs| - 1];
      hide Shifted, SquareFrom;
      SquaresShift(front, centre);
      SquaresOfFront(xs, centre);
      SquaresOfFront(xs, 0.0);
      assert |xs| as real == |front| as real + 1.0;
      OneMoreSquare(Sum(SquaresFrom(front, 0.0)), Sum(front), |front| as real, last, centre);
    }
  }

  lemma NothingShifted(centre: real)
    ensures Shifted(0.0, 0.0, 0.0, centre) == 0.0
  {
  }

  lemma OneMoreSquare(plain: real, sum: real, n: real, x: real, c: real)
    ensures Shifted(plain, sum, n, c) + SquareFrom(x, c) == Shifted(plain + SquareFrom(x, 0.0), sum + x, n + 1.0, c)
  {
    assert (x - c) * (x - c) == x * x - 2.0 * c * x + c * c;
    assert (n + 1.0) * c * c == n * c * c + c * c;
    assert 2.0 * c * (sum + x) == 2.0 * c * sum + 2.0 * c * x;
  }

  function StandardError(xs: seq<real>): real {
    if xs == [] then 0.0
    else
      RootIsAccurate(|xs| as real);
      Root(Variance(xs)) / Root(|xs| as real)
  }

  function Column(trades: seq<Trade>, field: Trade -> real): seq<real> {
    seq(|trades|, i requires 0 <= i < |trades| => field(trades[i]))
  }

  function NetPct(t: Trade): real {
    t.netPct
  }

  function NetPnl(t: Trade): real {
    t.netPnl
  }

  datatype Figures = Figures(
    accepted: nat,
    usable: nat,
    mean: real,
    median: real,
    netPnl: real,
    maxDrawdown: real,
    losingStreak: nat,
    stdDev: real,
    error: real)

  // What the figures say about the usable trades, in their order.
  ghost predicate Describes(f: Figures, trades: seq<Trade>, capital: real) {
    var usable := Select(trades, Usable);
    var nets, pcts := Column(usable, NetPnl), Column(usable, NetPct);
    && f.accepted == |trades| && f.usable == |usable|
    && WorstFromPeak(capital, nets, |nets|, f.maxDrawdown) && LongestBlock(nets, f.losingStreak)
    && Equity(capital, nets, |nets|) == capital + f.netPnl
    && f.mean == Mean(pcts) && f.median == Middle(Sort(pcts, Identity))
    && f.stdDev == Root(Variance(pcts)) && f.error == StandardError(pcts)
  }

  method ComputeStatistics(trades: seq<Trade>, capital: real) returns (f: Figures)
    ensures Describes(f, trades, capital)
  {
    var usable := Select(trades, Usable);
    var nets, pcts := Column(usable, NetPnl), Column(usable, NetPct);
    SumIsEquity(capital, nets);
    hide Root, Variance, Mean, Middle, Sort, Select, WorstFromPeak, LongestBlock, Sum;
    var drawdown := MaxDrawdown(capital, nets);
    var streak := LongestLosingStreak(nets);
    var stdDev := DecimalSqrt(Variance(pcts));
    var error := 0.0;
    if |usable| > 0 {
      var size := DecimalSqrt(|usable| as real);
      RootIsAccurate(|usable| as real);
      error := stdDev / size;
    }
    f := Figures(|trades|, |usable|, Mean(pcts), Middle(Sort(pcts, Identity)), Sum(nets), drawdown, streak, stdDev, error);
  }

  lemma {:induction false} SumIsEquity(start: real, pnls: seq<real>)
    ensures Equity(start, pnls, |pnls|) == start + Sum(pnls)
  {
    if pnls != [] {
      var front := pnls[..|pnls| - 1];
      SumIsEquity(start, front);
      EquityOfPrefix(start, pnls, |front|);
    }
  }

  lemma {:induction false} EquityOfPrefix(start: real, pnls: seq<real>, n: nat)
    requires n < |pnls|
    ensures Equity(start, pnls, n) == Equity(start, pnls[..|pnls| - 1], n)
  {
    if n > 0 {
      EquityOfPrefix(start, pnls, n - 1);
    }
  }

  // ---------- the verdict of a run ----------

  function ReturnsOf(trades: seq<Trade>, split: Split): seq<real> {
    Column(Only(trades, split, Clean), NetPct)
  }

  function VerdictFor(trades: seq<Trade>, synthetic: bool): Verdict {
    var pcts := ReturnsOf(trades, OutOfSample);
    var (low, high) := Ci95(Mean(pcts), StandardError(pcts));
    VerdictOf(Summary(synthetic, |Only(trades, OutOfSample, Every)|, |pcts|, low, high))
  }

  datatype Evaluation = Evaluation(
    report: Report,
    whole: Figures,
    train: Figures,
    validation: Figures,
    oos: Figures,
    verdict: Verdict)

  // The run with its statistics: over all trades, and over each period apart.
  method Evaluate(c: G.Config, a: Assumptions, sc: Splits.Config, lines: seq<Line>, capital: real, synthetic: bool)
    returns (r: Option<Evaluation>)
    ensures r.Some? <==> BoundariesOk(sc)
    ensures r.Some? ==>
      var e := r.value;
      var trades := TradesOfFile(c, a, sc, lines);
      && e.report.trades == trades && Accounts(e.report, sc) && Faithful(e.report, c, a, sc, lines)
      && Describes(e.whole, trades, capital)
      && Describes(e.train, Only(trades, Train, Every), capital)
      && Describes(e.validation, Only(trades, Validation, Every), capital)
      && Describes(e.oos, Only(trades, OutOfSample, Every), capital)
      && e.verdict == VerdictFor(trades, synthetic)
  {
    hide StandardError, Mean, Describes, Faithful, Sort, Kept, Select, TradesOf, Only, InTimeOrder, WellPlaced, VerdictOf;
    var run := RunBacktest(c, a, sc, lines);
    if run.None? {
      return None;
    }
    var trades := run.value.trades;
    FaithfulTrades(run.value, c, a, sc, lines);
    var whole := ComputeStatistics(trades, capital);
    var train := ComputeStatistics(Only(trades, Train, Every), capital);
    var validation := ComputeStatistics(Only(trades, Validation, Every), capital);
    var oos := ComputeStatistics(Only(trades, OutOfSample, Every), capital);
    var verdict := Judge(run.value, oos, sc, capital, synthetic);
    r := Some(Evaluation(run.value, whole, train, validation, oos, verdict));
  }

  lemma FaithfulTrades(r: Report, c: G.Config, a: Assumptions, sc: Splits.Config, lines: seq<Line>)
    requires Faithful(r, c, a, sc, lines)
    ensures r.trades == TradesOfFile(c, a, sc, lines)
  {
  }

  // The verdict from the counts of the report and the figures of its last period.
  method Judge(report: Report, oos: Figures, sc: Splits.Config, capital: real, synthetic: bool) returns (verdict: Verdict)
    requires Accounts(report, sc) && Describes(oos, Only(report.trades, OutOfSample, Every), capital)
    ensures verdict == VerdictFor(report.trades, synthetic)
  {
    OnlyTwice(report.trades, OutOfSample);
    hide StandardError, Mean, Only, Select, WorstFromPeak, LongestBlock, Middle, Sort, InTimeOrder, WellPlaced, VerdictOf;
    var (low, high) := Ci95(oos.mean, oos.error);
    verdict := VerdictOf(Summary(synthetic, report.oos.total, report.oos.usable, low, high));
  }

  lemma {:induction false} OnlyTwice(trades: seq<Trade>, split: Split)
    ensures Select(Only(trades, split, Every), Usable) == Only(trades, split, Clean)
  {
    if trades != [] {
      var front, last := trades[..|trades| - 1], trades[|trades| - 1];
      assert trades == front + [last];
      OnlyTwice(front, split);
      OnlyAppend(front, last, split, Every);
      OnlyAppend(front, last, split, Clean);
      SelectAppend(Only(front, split, Every), last, Usable);
    }
  }

  lemma {:induction false} SumIsNonNegative(xs: seq<real>)
    requires forall i :: 0 <= i < |xs| ==> xs[i] >= 0.0
    ensures Sum(xs) >= 0.0
  {
    if xs != [] {
      SumIsNonNegative(xs[..|xs| - 1]);
    }
  }

  lemma QuotientIsNonNegative(a: real, b: real)
    requires a >= 0.0 && b > 0.0
    ensures a / b >= 0.0
  {
    var q := a / b;
    assert q * b == a;
    SignOfProduct(q, b);
  }

  lemma VarianceIsNonNegative(xs: seq<real>)
    ensures Variance(xs) >= 0.0
  {
    if |xs| > 1 {
      var squares := SquaresFrom(xs, Mean(xs));
      forall i | 0 <= i < |squares| ensures squares[i] >= 0.0 {
        Square(xs[i] - Mean(xs));
      }
      SumIsNonNegative(squares);
      QuotientIsNonNegative(Sum(squares), (|xs| - 1) as real);
    }
  }

  lemma ErrorIsNonNegative(xs: seq<real>)
    ensures StandardError(xs) >= 0.0
  {
    if xs != [] {
      VarianceIsNonNegative(xs);
      RootIsAccurate(Variance(xs));
      RootIsAccurate(|xs| as real);
      QuotientIsNonNegative(Root(Variance(xs)), Root(|xs| as real));
    }
  }

  // The error is the deviation over the root of the size.
  lemma ErrorMeans(xs: seq<real>)
    ensures xs != [] ==> StandardError(xs) * Root(|xs| as real) == Root(Variance(xs))
    ensures xs == [] ==> StandardError(xs) == 0.0
  {
    if xs != [] {
      RootIsAccurate(|xs| as real);
      var q := Root(Variance(xs)) / Root(|xs| as real);
      assert q * Root(|xs| as real) == Root(Variance(xs));
    }
    hide Root, Variance;
  }

  // A claim of positive expectancy is significant for the exact roots as well: the
  // squared mean exceeds 1.96 squared times the variance over the sample size, up to
  // the accuracy of the root.
  lemma PositiveIsSignificant(trades: seq<Trade>, synthetic: bool)
    requires VerdictFor(trades, synthetic).PositiveExpectancy?
    ensures var pcts := ReturnsOf(trades, OutOfSample);
      && |pcts| >= MIN_OOS_TRADES && Mean(pcts) > 0.0
      && (|pcts| <= 225000 ==> Significant(Mean(pcts), Variance(pcts), |pcts| as real))
  {
    var pcts := ReturnsOf(trades, OutOfSample);
    ErrorIsNonNegative(pcts);
    hide StandardError, Mean, ReturnsOf, Variance;
    if |pcts| <= 225000 {
      BeyondErrorIsSignificant(pcts);
    }
  }

  ghost predicate Significant(mean: real, v: real, n: real) {
    mean * mean * (n + EPSILON * EPSILON) > 1.96 * 1.96 * v
  }

  lemma BeyondErrorIsSignificant(pcts: seq<real>)
    requires 0 < |pcts| <= 225000 && Mean(pcts) > 1.96 * StandardError(pcts)
    ensures Significant(Mean(pcts), Variance(pcts), |pcts| as real)
  {
    var n, v := |pcts| as real, Variance(pcts);
    RootIsAccurate(n);
    RootIsAccurate(v);
    VarianceIsNonNegative(pcts);
    hide Root, Variance, Mean;
    SquaresCompare(Mean(pcts), Root(v), Root(n), v, n + EPSILON * EPSILON);
  }

  lemma SquaresCompare(mean: real, deviation: real, size: real, v: real, n: real)
    requires deviation >= 0.0 && size > 0.0 && deviation * deviation >= v && size * size < n
    requires mean > 1.96 * (deviation / size)
    ensures mean > 0.0 && mean * mean * n > 1.96 * 1.96 * v
  {
    var e := deviation / size;
    assert e * size == deviation;
    QuotientIsNonNegative(deviation, size);
    var a, b := mean * size, 1.96 * deviation;
    assert (mean - 1.96 * e) * size == a - b;
    SignOfProduct(mean - 1.96 * e, size);
    SmallSquare(b, a);
    assert a * a == mean * mean * (size * size);
    assert b * b == 1.96 * 1.96 * (deviation * deviation);
    SignOfProduct(mean, mean);
    SignOfProduct(n - size * size, mean * mean);
  }

  // ---------- no period sees another ----------

  function InPeriod(sc: Splits.Config, split: Split): Signal -> bool {
    (s: Signal) => Classify(s.timestamp, sc) == (split, false)
  }

  function LineInPeriod(sc: Splits.Config, split: Split): Line -> bool {
    (l: Line) => l.Record? && InPeriod(sc, split)(l.signal)
  }

  function AcceptedOf(lines: seq<Line>): (accepted: seq<Signal>)
    ensures WithWallets(accepted)
  {
    AcceptedShape(lines);
    Select(Sort(Kept(lines), ByTime), Coherent)
  }

  // The trades of a run over a file.
  function TradesOfFile(c: G.Config, a: Assumptions, sc: Splits.Config, lines: seq<Line>): seq<Trade> {
    TradesOf(c, a, sc, AcceptedOf(lines))
  }

  // Duplicates share their time, so they never cross a period.
  lemma {:induction false} KeptThenSelect(sc: Splits.Config, split: Split, lines: seq<Line>)
    ensures Select(Kept(lines), InPeriod(sc, split)) == Kept(Select(lines, LineInPeriod(sc, split)))
  {
    if lines != [] {
      var front, last := lines[..|lines| - 1], lines[|lines| - 1];
      var p, q := InPeriod(sc, split), LineInPeriod(sc, split);
      KeptThenSelect(sc, split, front);
      hide Classify, Validates;
      assert lines == front + [last];
      SelectAppend(front, last, q);
      KeptAppend(front, last);
      KeptAppend(Select(front, q), last);
      if last.Record? {
        SelectAppend(Kept(front), last.signal, p);
        if p(last.signal) {
          KeySelected(Kept(front), p, KeyOf(last.signal), sc, split);
        }
      }
    }
  }

  lemma KeptAppend(lines: seq<Line>, last: Line)
    ensures Kept(lines + [last]) ==
      if last.Record? && Validates(last.signal) && !HasKey(Kept(lines), KeyOf(last.signal)) then Kept(lines) + [last.signal] else Kept(lines)
  {
    assert (lines + [last])[..|lines|] == lines;
  }

  lemma {:induction false} SelectHas<T>(s: seq<T>, p: T -> bool, x: T)
    ensures x in Select(s, p) <==> x in s && p(x)
  {
    if s != [] {
      SelectHas(s[..|s| - 1], p, x);
    }
  }

  lemma KeySelected(signals: seq<Signal>, p: Signal -> bool, key: (string, int), sc: Splits.Config, split: Split)
    requires p == InPeriod(sc, split) && Classify(key.1, sc) == (split, false)
    ensures HasKey(Select(signals, p), key) <==> HasKey(signals, key)
  {
    hide Classify, Select;
    if i :| 0 <= i < |signals| && KeyOf(signals[i]) == key {
      SelectHas(signals, p, signals[i]);
    }
    if j :| 0 <= j < |Select(signals, p)| && KeyOf(Select(signals, p)[j]) == key {
      SelectHas(signals, p, Select(signals, p)[j]);
    }
  }

  lemma AcceptedThenSelect(sc: Splits.Config, split: Split, lines: seq<Line>)
    ensures Select(AcceptedOf(lines), InPeriod(sc, split)) == AcceptedOf(Select(lines, LineInPeriod(sc, split)))
  {
    var p := InPeriod(sc, split);
    SelectsCommute(Sort(Kept(lines), ByTime), Coherent, p);
    SortThenSelect(Kept(lines), ByTime, p);
    KeptThenSelect(sc, split, lines);
  }

  // Everything but the running number.
  function Unnumbered(trades: seq<Trade>): seq<Trade> {
    seq(|trades|, i requires 0 <= i < |trades| => trades[i].(index := 0))
  }

  lemma UnnumberedAppend(trades: seq<Trade>, last: Trade)
    ensures Unnumbered(trades + [last]) == Unnumbered(trades) + [last.(index := 0)]
  {
  }

  lemma OnlyAppend(trades: seq<Trade>, last: Trade, split: Split, mark: Mark)
    ensures Only(trades + [last], split, mark) ==
      if last.split == split && Marked(last, mark) then Only(trades, split, mark) + [last] else Only(trades, split, mark)
  {
    assert (trades + [last])[..|trades|] == trades;
  }

  lemma NumberIsIrrelevant(c: G.Config, a: Assumptions, s: Signal, split: Split, i: nat, j: nat)
    requires s.wallets != []
    ensures var x, y := Simulated(c, a, ProductionFor(c)(s), s, split, i), Simulated(c, a, ProductionFor(c)(s), s, split, j);
      && (x.Ok? <==> y.Ok?)
      && (x.Ok? ==> x.value.(index := 0) == y.value.(index := 0) && x.value.split == split)
  {
  }

  // The trades with one more signal, whose trade may have any number.
  lemma OneMoreSignal(c: G.Config, a: Assumptions, sc: Splits.Config, front: seq<Signal>, s: Signal, split: Split, mark: Mark)
    requires WithWallets(front) && s.wallets != []
    ensures WithWallets(front + [s])
    ensures var before, after := TradesOf(c, a, sc, front), TradesOf(c, a, sc, front + [s]);
      var r := Simulated(c, a, ProductionFor(c)(s), s, split, 0);
      Unnumbered(Only(after, split, mark)) ==
        Unnumbered(Only(before, split, mark))
        + (if InPeriod(sc, split)(s) && r.Ok? && Marked(r.value, mark) then [r.value.(index := 0)] else [])
  {
    assert (front + [s])[..|front|] == front;
    var before := TradesOf(c, a, sc, front);
    NumberIsIrrelevant(c, a, s, Classify(s.timestamp, sc).0, 0, |before|);
    hide Simulated, Classify;
    var x := Simulated(c, a, ProductionFor(c)(s), s, Classify(s.timestamp, sc).0, |before|);
    if !Excluded(sc, s) && x.Ok? {
      OnlyAppend(before, x.value, split, mark);
      UnnumberedAppend(Only(before, split, mark), x.value);
    }
  }

  lemma {:induction false} TradesThenSelect(c: G.Config, a: Assumptions, sc: Splits.Config, signals: seq<Signal>, split: Split, mark: Mark)
    requires WithWallets(signals) && WithWallets(Select(signals, InPeriod(sc, split)))
    ensures Unnumbered(Only(TradesOf(c, a, sc, signals), split, mark))
      == Unnumbered(Only(TradesOf(c, a, sc, Select(signals, InPeriod(sc, split))), split, mark))
  {
    if signals != [] {
      var front, s := signals[..|signals| - 1], signals[|signals| - 1];
      var p := InPeriod(sc, split);
      assert signals == front + [s];
      SelectAppend(front, s, p);
      SelectKeeps(front, p, (x: Signal) => x.wallets != []);
      TradesThenSelect(c, a, sc, front, split, mark);
      OneMoreSignal(c, a, sc, front, s, split, mark);
      if p(s) {
        OneMoreSignal(c, a, sc, Select(front, p), s, split, mark);
      }
      hide Select, TradesOf, Simulated, Only;
    }
  }

  // The trades of a period, but for their numbers, come from its own records: whatever
  // else the file holds, before, between or after them.
  lemma PeriodIsItsOwn(c: G.Config, a: Assumptions, sc: Splits.Config, lines: seq<Line>, split: Split, mark: Mark)
    ensures Unnumbered(Only(TradesOfFile(c, a, sc, lines), split, mark))
      == Unnumbered(Only(TradesOfFile(c, a, sc, Select(lines, LineInPeriod(sc, split))), split, mark))
  {
    AcceptedThenSelect(sc, split, lines);
    TradesThenSelect(c, a, sc, AcceptedOf(lines), split, mark);
  }

  lemma ColumnIgnoresNumbers(trades: seq<Trade>)
    ensures Column(Unnumbered(trades), NetPct) == Column(trades, NetPct)
    ensures |Unnumbered(trades)| == |trades|
  {
    var plain := Unnumbered(trades);
    forall i | 0 <= i < |trades| ensures Column(plain, NetPct)[i] == Column(trades, NetPct)[i] {
      assert Column(plain, NetPct)[i] == NetPct(plain[i]) == NetPct(trades[i]) == Column(trades, NetPct)[i];
    }
  }

  // Two files with the same out-of-sample records get the same verdict from the same
  // returns, whatever their training and validation records are.
  lemma VerdictReadsOnlyItsPeriod(c: G.Config, a: Assumptions, sc: Splits.Config, lines: seq<Line>, lines': seq<Line>, synthetic: bool)
    requires Select(lines, LineInPeriod(sc, OutOfSample)) == Select(lines', LineInPeriod(sc, OutOfSample))
    ensures var trades, trades' := TradesOfFile(c, a, sc, lines), TradesOfFile(c, a, sc, lines');
      && ReturnsOf(trades, OutOfSample) == ReturnsOf(trades', OutOfSample)
      && VerdictFor(trades, synthetic) == VerdictFor(trades', synthetic)
  {
    var trades, trades' := TradesOfFile(c, a, sc, lines), TradesOfFile(c, a, sc, lines');
    PeriodIsItsOwn(c, a, sc, lines, OutOfSample, Clean);
    PeriodIsItsOwn(c, a, sc, lines', OutOfSample, Clean);
    PeriodIsItsOwn(c, a, sc, lines, OutOfSample, Every);
    PeriodIsItsOwn(c, a, sc, lines', OutOfSample, Every);
    ColumnIgnoresNumbers(Only(trades, OutOfSample, Clean));
    ColumnIgnoresNumbers(Only(trades', OutOfSample, Clean));
    ColumnIgnoresNumbers(Only(trades, OutOfSample, Every));
    ColumnIgnoresNumbers(Only(trades', OutOfSample, Every));
    hide TradesOfFile, Only, Mean, StandardError, VerdictOf;
  }
}
