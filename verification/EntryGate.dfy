// The entry decision of the backtest: the cost gate and evaluate_signal_pit
// (src/backtest/engine.rs), on point-in-time data only.
module EntryGate {
  import opened Wrappers
  import opened Signals
  import opened Economics
  import opened ExitWalk

  datatype Config = Config(
    maxDataAgeSecs: int,
    minTokenAgeSecs: int,
    minConsensus: nat,
    minSamples: nat,
    minWalletScore: real,
    minNetReturnPct: real,
    minSignalScore: real,
    costThresholdPct: real,
    haircutPct: real,
    exits: Strategy)

  datatype Rejection =
    | CostsAfterSignal | CostsTooHigh | NoEvidence | StaleMarket | ThinLiquidity | SafetyFilter
    | NoConsensus | WalletEvidence | EdgeTooSmall | LowConfidence | NonPositivePrice

  predicate SafetyFails(s: Safety, c: Config) {
    || s.ageSecs < c.minTokenAgeSecs || s.mintAuthority || s.freezeAuthority || s.top10Pct > 70.0
    || s.sellable != Some(true) || s.routeAvailable != Some(true)
    || s.creatorSuspicious == Some(true) || s.abnormalActivity == Some(true)
    || (if s.liquidityChangePct.Some? then s.liquidityChangePct.value else 0.0) < 0.0 - 20.0
  }

  predicate WalletFails(w: Wallet, c: Config, now: int) {
    w.trades < c.minSamples || w.score < c.minWalletScore || w.updatedAt > now
  }

  function SumScores(ws: seq<Wallet>): real {
    if ws == [] then 0.0 else SumScores(ws[..|ws| - 1]) + ws[|ws| - 1].score
  }

  function Cap(x: real, top: real): real {
    if x > top then top else x
  }

  function Clamp(x: real, low: real, top: real): real {
    if x < low then low else Cap(x, top)
  }

  // The six components averaged into the final score.
  function FinalScore(s: Signal, net: real): real
    requires s.wallets != []
  {
    var count := |s.wallets| as real;
    var wallet := SumScores(s.wallets) / count;
    var consensus := Cap(count * 20.0, 100.0);
    var liquidity := Cap(s.market.liquidity / 10000.0 * 100.0, 100.0);
    var momentum := Clamp(s.market.imbalance * 50.0, 0.0, 100.0);
    var risk := 100.0 - Cap(s.market.volatilityPct, 100.0);
    var economic := Cap(net * 10.0, 100.0);
    (wallet + consensus + liquidity + momentum + risk + economic) / 6.0
  }

  // `evaluate_signal_pit`, given the reconstructed expected net return.
  function Evaluate(c: Config, s: Signal, net: real): Option<Rejection>
    requires s.wallets != []
  {
    var now := s.timestamp;
    if s.market.observedAt > now || s.safety.observedAt > now || now - s.market.observedAt > c.maxDataAgeSecs then Some(StaleMarket)
    else if s.market.liquidity < c.exits.minLiquidity then Some(ThinLiquidity)
    else if SafetyFails(s.safety, c) then Some(SafetyFilter)
    else if |s.wallets| < c.minConsensus then Some(NoConsensus)
    else if exists w :: w in s.wallets && WalletFails(w, c, now) then Some(WalletEvidence)
    else if net < c.minNetReturnPct then Some(EdgeTooSmall)
    else if FinalScore(s, net) < c.minSignalScore then Some(LowConfidence)
    else None
  }

  // The whole entry decision of `simulate_signal`.
  function Decide(c: Config, s: Signal): Option<Rejection>
    requires s.wallets != []
  {
    if s.costs.observedAt > s.timestamp then Some(CostsAfterSignal)
    else match BreakEvenOf(s.costs.input)
      case Err(_) => Some(NoEvidence)
      case Ok(r) =>
        if r.costPct > c.costThresholdPct then Some(CostsTooHigh)
        else match ExpectedNet(r.requiredAvgWinPct, s.costs.input, c.haircutPct)
          case Err(_) => Some(NoEvidence)
          case Ok(net) =>
            match Evaluate(c, s, net)
            case Some(why) => Some(why)
            case None => if s.market.price <= 0.0 then Some(NonPositivePrice) else None
  }

  // ---------- exactly which signals are accepted ----------

  // The safety evidence is complete and clean.
  predicate Safe(s: Safety, c: Config) {
    && s.ageSecs >= c.minTokenAgeSecs && !s.mintAuthority && !s.freezeAuthority && s.top10Pct <= 70.0
    && s.sellable == Some(true) && s.routeAvailable == Some(true)
    && s.creatorSuspicious != Some(true) && s.abnormalActivity != Some(true)
    && (s.liquidityChangePct.Some? ==> s.liquidityChangePct.value >= 0.0 - 20.0)
  }

  predicate Fresh(c: Config, s: Signal) {
    && s.costs.observedAt <= s.timestamp && s.market.observedAt <= s.timestamp && s.safety.observedAt <= s.timestamp
    && s.timestamp <= s.market.observedAt + c.maxDataAgeSecs
    && forall w :: w in s.wallets ==> w.updatedAt <= s.timestamp
  }

  // The round trip is affordable and the reconstructed edge reaches the threshold.
  predicate Economic(c: Config, i: CostInputs) {
    && InputsOk(i) && c.haircutPct >= 0.0
    && BreakEvenOf(i).value.costPct <= c.costThresholdPct
    && (i.avgLossPct + BreakEvenOf(i).value.costPct) / i.winLossRatio - c.haircutPct >= c.minNetReturnPct
  }

  function Edge(c: Config, i: CostInputs): real
    requires InputsOk(i)
  {
    (i.avgLossPct + BreakEvenOf(i).value.costPct) / i.winLossRatio - c.haircutPct
  }

  // The market and wallet side of the decision, for any edge.
  lemma EvaluatedIff(c: Config, s: Signal, net: real)
    requires s.wallets != []
    ensures Evaluate(c, s, net).None? <==>
      && s.market.observedAt <= s.timestamp && s.safety.observedAt <= s.timestamp
      && s.timestamp <= s.market.observedAt + c.maxDataAgeSecs
      && (forall w :: w in s.wallets ==> w.updatedAt <= s.timestamp && w.trades >= c.minSamples && w.score >= c.minWalletScore)
      && Safe(s.safety, c) && s.market.liquidity >= c.exits.minLiquidity && |s.wallets| >= c.minConsensus
      && net >= c.minNetReturnPct && FinalScore(s, net) >= c.minSignalScore
  {
    assert (exists w :: w in s.wallets && WalletFails(w, c, s.timestamp)) <==>
      !(forall w :: w in s.wallets ==> w.updatedAt <= s.timestamp && w.trades >= c.minSamples && w.score >= c.minWalletScore);
    hide FinalScore;
  }

  // A signal is accepted if and only if everything it needs was observed in time, the
  // token is safe and liquid, enough good wallets agree, the costs leave an edge, the
  // score reaches its minimum, and there is a price.
  lemma AcceptedIff(c: Config, s: Signal)
    requires s.wallets != []
    ensures Decide(c, s).None? <==>
      && Fresh(c, s) && Safe(s.safety, c) && s.market.liquidity >= c.exits.minLiquidity && s.market.price > 0.0
      && |s.wallets| >= c.minConsensus
      && (forall w :: w in s.wallets ==> w.trades >= c.minSamples && w.score >= c.minWalletScore)
      && Economic(c, s.costs.input) && FinalScore(s, Edge(c, s.costs.input)) >= c.minSignalScore
  {
    var i := s.costs.input;
    FaultIff(i, c.haircutPct);
    if InputsOk(i) && c.haircutPct >= 0.0 {
      ReconstructedEdge(i, c.haircutPct);
      EvaluatedIff(c, s, Edge(c, i));
    }
    hide BreakEvenOf, ExpectedNet, FinalScore, Evaluate, Safe, InputsOk;
  }

  lemma FaultIff(i: CostInputs, haircut: real)
    ensures BreakEvenOf(i).Ok? <==> InputsOk(i)
    ensures forall gross :: ExpectedNet(gross, i, haircut).Ok? <==> InputsOk(i) && haircut >= 0.0
  {
  }

  function Lower(a: real, b: real): real {
    if a < b then a else b
  }

  // Twenty a wallet, a hundredth of the liquidity, half the imbalance, calm, and ten times
  // the edge, each capped at a hundred and the momentum not below zero.
  function OtherParts(s: Signal, net: real): real {
    Lower(20.0 * |s.wallets| as real, 100.0) + Lower(s.market.liquidity / 100.0, 100.0)
    + (if s.market.imbalance <= 0.0 then 0.0 else Lower(50.0 * s.market.imbalance, 100.0))
    + (100.0 - Lower(s.market.volatilityPct, 100.0)) + Lower(10.0 * net, 100.0)
  }

  // The score is the mean of six parts: those five and the wallets' mean score.
  lemma ScoreMeans(s: Signal, net: real)
    requires s.wallets != []
    ensures (6.0 * FinalScore(s, net) - OtherParts(s, net)) * |s.wallets| as real == SumScores(s.wallets)
  {
    var n := |s.wallets| as real;
    var mean := SumScores(s.wallets) / n;
    assert mean * n == SumScores(s.wallets);
    assert 6.0 * FinalScore(s, net) - OtherParts(s, net) == mean;
    hide SumScores, FinalScore, OtherParts;
  }

  // The wallets' sum lies between their number times the least and the greatest score.
  lemma {:induction false} SumIsBounded(ws: seq<Wallet>, low: real, high: real)
    requires forall w :: w in ws ==> low <= w.score <= high
    ensures low * |ws| as real <= SumScores(ws) <= high * |ws| as real
  {
    if ws != [] {
      var front := ws[..|ws| - 1];
      SumIsBounded(front, low, high);
      assert |ws| as real == |front| as real + 1.0;
      assert low * |ws| as real == low * |front| as real + low && high * |ws| as real == high * |front| as real + high;
    }
  }

  // Everything an accepted signal was judged on had been observed by the signal's time.
  lemma AcceptedIsPointInTime(c: Config, s: Signal)
    requires s.wallets != [] && Decide(c, s).None?
    ensures s.costs.observedAt <= s.timestamp && s.market.observedAt <= s.timestamp && s.safety.observedAt <= s.timestamp
    ensures s.timestamp - s.market.observedAt <= c.maxDataAgeSecs
    ensures forall w :: w in s.wallets ==> w.updatedAt <= s.timestamp && w.score >= c.minWalletScore && w.trades >= c.minSamples
  {
    forall w | w in s.wallets ensures !WalletFails(w, c, s.timestamp) {
      assert Decide(c, s) != Some(WalletEvidence);
    }
  }

  // The two economic checks together: cost at most the threshold, and cost at least
  // what the edge threshold leaves over.  The second is a lower bound on cost.
  lemma EconomicChecksBracketTheCost(c: Config, s: Signal)
    requires s.wallets != [] && InputsOk(s.costs.input) && c.haircutPct >= 0.0
    ensures var i := s.costs.input;
      var cost := BreakEvenOf(i).value.costPct;
      && (Decide(c, s).None? ==>
            i.winLossRatio * (c.minNetReturnPct + c.haircutPct) - i.avgLossPct <= cost <= c.costThresholdPct)
      && (Decide(c, s) == Some(EdgeTooSmall) ==>
            cost < i.winLossRatio * (c.minNetReturnPct + c.haircutPct) - i.avgLossPct)
  {
    var i := s.costs.input;
    var r := BreakEvenOf(i).value;
    ReconstructedEdge(i, c.haircutPct);
    EdgeThreshold(i.avgLossPct + r.costPct, i.winLossRatio, c.haircutPct, c.minNetReturnPct);
    hide BreakEvenOf, ExpectedNet, FinalScore;
  }

  lemma EdgeThreshold(n: real, ratio: real, haircut: real, min: real)
    requires ratio > 0.0
    ensures n / ratio - haircut < min <==> n < ratio * (min + haircut)
  {
    var q := n / ratio;
    assert q * ratio == n;
    if q < min + haircut {
      assert (min + haircut - q) * ratio > 0.0;
    } else {
      assert (q - (min + haircut)) * ratio >= 0.0;
    }
  }

  // The price history and the recorded forecast have no say in the decision.
  lemma DecisionIgnoresTheFuture(c: Config, s: Signal, history: seq<Observation>, forecast: real)
    requires s.wallets != []
    ensures Decide(c, s.(history := history, expectedGrossPct := forecast)) == Decide(c, s)
  {
    hide BreakEvenOf, ExpectedNet;
    var t := s.(history := history, expectedGrossPct := forecast);
    assert t.wallets == s.wallets && t.market == s.market && t.safety == s.safety;
  }
}
