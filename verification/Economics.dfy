// src/economics: the break-even calculator, the cost gate, and the expected value
// that the backtest reconstructs from them.
module Economics {
  import opened Wrappers
  import opened Signals

  datatype Fault = NonPositive | ProbabilityOutOfRange | Negative

  datatype BreakEven = BreakEven(
    roundTripCost: real,
    costPct: real,
    requiredWinRate: real,
    requiredAvgWinPct: real,
    failedCost: real)

  predicate InputsOk(i: CostInputs) {
    && i.position > 0.0 && i.winLossRatio > 0.0 && i.avgLossPct > 0.0 && 0.0 <= i.failedRate <= 1.0
    && i.priorityFee >= 0.0 && i.swapFeeBps >= 0.0 && i.slippageBps >= 0.0 && i.impactBps >= 0.0 && i.failedCost >= 0.0
  }

  // `break_even_calculator`: the checks in the order of the source.
  function BreakEvenOf(i: CostInputs): Result<BreakEven, Fault> {
    if i.position <= 0.0 || i.winLossRatio <= 0.0 || i.avgLossPct <= 0.0 then Err(NonPositive)
    else if i.failedRate < 0.0 || i.failedRate > 1.0 then Err(ProbabilityOutOfRange)
    else if i.priorityFee < 0.0 || i.swapFeeBps < 0.0 || i.slippageBps < 0.0 || i.impactBps < 0.0 || i.failedCost < 0.0 then Err(Negative)
    else
      var fillCost := i.position * (i.swapFeeBps + i.slippageBps + i.impactBps) / 10000.0;
      var failed := 2.0 * i.failedRate * i.failedCost;
      var cost := 2.0 * (fillCost + i.priorityFee) + failed;
      var pct := cost / i.position * 100.0;
      var loss := i.avgLossPct;
      Ok(BreakEven(cost, pct, (loss + pct) / (loss * (1.0 + i.winLossRatio)), (loss + pct) / i.winLossRatio + pct, failed))
  }

  // `ExpectedValue::estimate` with no adverse selection and no extra exit cost, as the backtest calls it.
  function ExpectedNet(gross: real, i: CostInputs, haircut: real): Result<real, Fault> {
    match BreakEvenOf(i)
    case Err(e) => Err(e)
    case Ok(r) =>
      if haircut < 0.0 then Err(Negative)
      else
        var fees := 2.0 * i.swapFeeBps / 100.0;
        var priority := 2.0 * i.priorityFee / i.position * 100.0;
        var slippage := 2.0 * i.slippageBps / 100.0;
        var impact := 2.0 * i.impactBps / 100.0;
        var failed := r.failedCost / i.position * 100.0;
        Ok(gross - fees - priority - slippage - impact - failed - haircut)
  }

  // What the calculator charges: both legs' rates on the position, both priority fees, and
  // two failed attempts at their rate; the percentage is of the position.
  lemma CostMeans(i: CostInputs)
    requires InputsOk(i)
    ensures var r := BreakEvenOf(i).value;
      && r.roundTripCost == i.position * (i.swapFeeBps + i.slippageBps + i.impactBps) / 5000.0 + 2.0 * i.priorityFee + r.failedCost
      && r.failedCost == 2.0 * i.failedRate * i.failedCost
      && r.costPct * i.position == 100.0 * r.roundTripCost
  {
    var r := BreakEvenOf(i).value;
    assert r.roundTripCost / i.position * i.position == r.roundTripCost;
    assert r.roundTripCost / i.position * 100.0 * i.position == 100.0 * (r.roundTripCost / i.position * i.position);
  }

  lemma Cancel(x: real, y: real)
    requires y != 0.0
    ensures x * y / y == x
  {
  }

  lemma DivSum(a: real, b: real, y: real)
    requires y != 0.0
    ensures (a + b) / y == a / y + b / y
  {
  }

  // The percentage form of the round-trip cost is the sum of the components that the expected value subtracts.
  lemma CostIsTheSumOfItsParts(i: CostInputs)
    requires InputsOk(i)
    ensures var r := BreakEvenOf(i).value;
      r.costPct == 2.0 * i.swapFeeBps / 100.0 + 2.0 * i.slippageBps / 100.0 + 2.0 * i.impactBps / 100.0
        + 2.0 * i.priorityFee / i.position * 100.0 + r.failedCost / i.position * 100.0
    ensures BreakEvenOf(i).value.costPct >= 0.0
  {
    var p, bps := i.position, i.swapFeeBps + i.slippageBps + i.impactBps;
    var failed := 2.0 * i.failedRate * i.failedCost;
    var fill := p * bps / 10000.0;
    var cost := 2.0 * (fill + i.priorityFee) + failed;
    ProductNonNegative(i.failedRate, i.failedCost);
    ProductNonNegative(p, bps);
    assert fill == (bps / 10000.0) * p;
    assert 2.0 * fill == (2.0 * bps / 10000.0) * p;
    Cancel(2.0 * bps / 10000.0, p);
    DivSum(2.0 * fill, 2.0 * i.priorityFee + failed, p);
    DivSum(2.0 * i.priorityFee, failed, p);
    QuotientNonNegative(cost, p);
  }

  lemma ProductNonNegative(a: real, b: real)
    requires a >= 0.0 && b >= 0.0
    ensures a * b >= 0.0
  {
  }

  lemma QuotientNonNegative(a: real, b: real)
    requires a >= 0.0 && b > 0.0
    ensures a / b >= 0.0
  {
  }

  // The win rate the calculator reports is the break-even one: winning ratio * loss
  // and losing loss, each net of the cost, averages to zero at that rate and no other.
  lemma RequiredWinRateBreaksEven(i: CostInputs, p: real)
    requires InputsOk(i)
    ensures var r := BreakEvenOf(i).value;
      p * (i.winLossRatio * i.avgLossPct - r.costPct) + (1.0 - p) * (0.0 - i.avgLossPct - r.costPct) == 0.0
      <==> p == r.requiredWinRate
  {
    var r := BreakEvenOf(i).value;
    var l, q, c := i.avgLossPct, i.winLossRatio, r.costPct;
    var d := l * (1.0 + q);
    ProductPositive(l, 1.0 + q);
    assert p * (q * l - c) + (1.0 - p) * (0.0 - l - c) == p * d - (l + c) by {
      assert p * (q * l - c) == p * (q * l) - p * c;
      assert (1.0 - p) * (0.0 - l - c) == 0.0 - l - c + p * l + p * c;
      assert p * d == p * l + p * (q * l) by {
        assert d == l + q * l;
      }
    }
    SolveFor(p, d, l + c);
  }

  lemma ProductPositive(a: real, b: real)
    requires a > 0.0 && b > 0.0
    ensures a * b > 0.0
  {
  }

  lemma SolveFor(p: real, d: real, n: real)
    requires d > 0.0
    ensures p * d - n == 0.0 <==> p == n / d
  {
    assert n / d * d == n;
    if p * d == n {
      assert (p - n / d) * d == 0.0;
    }
  }

  // The average win it requires, net of the cost and scaled by the payoff ratio, repays
  // one average loss net of the cost: break even at a win rate of ratio / (1 + ratio).
  lemma RequiredWinBreaksEven(i: CostInputs)
    requires InputsOk(i)
    ensures var r := BreakEvenOf(i).value;
      (r.requiredAvgWinPct - r.costPct) * i.winLossRatio == i.avgLossPct + r.costPct
  {
    var r := BreakEvenOf(i).value;
    assert (i.avgLossPct + r.costPct) / i.winLossRatio * i.winLossRatio == i.avgLossPct + r.costPct;
  }

  // The edge the backtest puts to the production threshold: costs cancel except for a
  // term that pushes it up.
  lemma ReconstructedEdge(i: CostInputs, haircut: real)
    requires InputsOk(i) && haircut >= 0.0
    ensures var r := BreakEvenOf(i).value;
      ExpectedNet(r.requiredAvgWinPct, i, haircut) == Ok((i.avgLossPct + r.costPct) / i.winLossRatio - haircut)
  {
    CostIsTheSumOfItsParts(i);
  }

  // So of two signals with the same assumed payoff, the costlier one shows the better edge.
  lemma EdgeGrowsWithCost(i: CostInputs, j: CostInputs, haircut: real)
    requires InputsOk(i) && InputsOk(j) && haircut >= 0.0
    requires i.avgLossPct == j.avgLossPct && i.winLossRatio == j.winLossRatio
    ensures var r, s := BreakEvenOf(i).value, BreakEvenOf(j).value;
      r.costPct < s.costPct <==>
        ExpectedNet(r.requiredAvgWinPct, i, haircut).value < ExpectedNet(s.requiredAvgWinPct, j, haircut).value
  {
    ReconstructedEdge(i, haircut);
    ReconstructedEdge(j, haircut);
    var r, s := BreakEvenOf(i).value, BreakEvenOf(j).value;
    DivMonotone(i.avgLossPct + r.costPct, i.avgLossPct + s.costPct, i.winLossRatio);
  }

  lemma DivMonotone(a: real, b: real, y: real)
    requires y > 0.0
    ensures a < b <==> a / y < b / y
  {
    assert a / y * y == a && b / y * y == b;
    assert (b / y - a / y) * y == b - a;
    SignOfProduct(b / y - a / y, y);
  }
}
