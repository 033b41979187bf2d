// simulate_signal (src/backtest/engine.rs) end to end: decision, walk, costs, PnL.
module Simulation {
  import opened Wrappers
  import opened Signals
  import opened ExitWalk
  import G = EntryGate
  import opened Splits

  datatype LegRates = LegRates(swapFeeBps: real, priorityFee: real, slippageBps: real, impactBps: real)

  datatype Assumptions = Assumptions(entry: LegRates, exit: LegRates, failedRate: real, failedCost: real)

  datatype LegCosts = LegCosts(swapFee: real, priorityFee: real, slippage: real, impact: real, total: real)

  // `entry_costs` and `exit_costs`, which differ only in the rates they read.
  function CostsOf(r: LegRates, notional: real): LegCosts {
    var fee := notional * r.swapFeeBps / 10000.0;
    var slippage := notional * r.slippageBps / 10000.0;
    var impact := notional * r.impactBps / 10000.0;
    LegCosts(fee, r.priorityFee, slippage, impact, fee + r.priorityFee + slippage + impact)
  }

  function ExpectedFailedCost(a: Assumptions): real {
    2.0 * a.failedRate * a.failedCost
  }

  datatype Trade = Trade(
    index: nat,
    timestamp: int,
    mint: string,
    split: Split,
    entryPrice: real,
    position: real,
    quantity: real,
    entryCosts: LegCosts,
    exitTime: int,
    exitPrice: real,
    reason: Reason,
    holdingMinutes: int,
    exitCosts: LegCosts,
    grossPct: real,
    grossPnl: real,
    totalCost: real,
    netPct: real,
    netPnl: real,
    mfe: real,
    mae: real,
    ambiguous: bool,
    censored: bool)

  function PctOf(pnl: real, position: real): real {
    if position > 0.0 then pnl / position * 100.0 else 0.0
  }

  // The record booked for a walk.
  function Booked(s: Signal, a: Assumptions, split: Split, index: nat, w: Walked): Trade
    requires s.market.price > 0.0
  {
    var entryCosts := CostsOf(a.entry, s.position);
    var quantity := s.position / s.market.price;
    var proceeds := quantity * w.exitPrice;
    var exitCosts := CostsOf(a.exit, proceeds);
    var total := entryCosts.total + exitCosts.total + ExpectedFailedCost(a);
    var gross := proceeds - s.position;
    var net := gross - total;
    Trade(index, s.timestamp, s.mint, split, s.market.price, s.position, quantity, entryCosts, w.exitTime, w.exitPrice,
          w.reason, Minutes(w.exitTime - s.timestamp), exitCosts, PctOf(gross, s.position), gross, total,
          PctOf(net, s.position), net, w.mfe, w.mae, w.ambiguous, w.censored)
  }

  // For an arbitrary exit rule; the code's own is `Production`.
  type RuleFor = Signal -> Rule

  function ProductionFor(c: G.Config): RuleFor {
    (s: Signal) => Production(c.exits, s.market.price, s.timestamp)
  }

  function Simulated(c: G.Config, a: Assumptions, rule: Rule, s: Signal, split: Split, index: nat): Result<Trade, G.Rejection>
    requires s.wallets != []
  {
    match G.Decide(c, s)
    case Some(why) => Err(why)
    case None => Ok(Booked(s, a, split, index, Outcome(s.history, TermsOf(c.exits, s.market.price, s.timestamp), rule)))
  }

  method Simulate(c: G.Config, a: Assumptions, rule: Rule, s: Signal, split: Split, index: nat) returns (r: Result<Trade, G.Rejection>)
    requires s.wallets != []
    ensures r == Simulated(c, a, rule, s, split, index)
  {
    var refused := G.Decide(c, s);
    if refused.Some? {
      return Err(refused.value);
    }
    var w := Walk(s.history, TermsOf(c.exits, s.market.price, s.timestamp), rule);
    r := Ok(Booked(s, a, split, index, w));
  }

  // ---------- theorems about whole trades ----------

  // Acceptance, and the reason of a refusal, do not depend on what happened afterwards,
  // nor on the recorded forecast.
  lemma AcceptanceIgnoresTheFuture(c: G.Config, a: Assumptions, rule: Rule, rule': Rule, s: Signal, split: Split, index: nat,
                                   history: seq<Observation>, forecast: real)
    requires s.wallets != []
    ensures var r, r' := Simulated(c, a, rule, s, split, index),
        Simulated(c, a, rule', s.(history := history, expectedGrossPct := forecast), split, index);
      (r.Ok? <==> r'.Ok?) && (r.Err? ==> r.error == r'.error)
  {
    G.DecisionIgnoresTheFuture(c, s, history, forecast);
  }

  // Once the walk ends at k, any other future after k gives the very same trade.
  lemma TradeIgnoresTheFuture(c: G.Config, a: Assumptions, rule: Rule, s: Signal, split: Split, index: nat, tail: seq<Observation>)
    requires s.wallets != [] && Simulated(c, a, rule, s, split, index).Ok?
    requires var t := TermsOf(c.exits, s.market.price, s.timestamp); ExitIndex(s.history, t, rule, 0) < |s.history|
    ensures var k := ExitIndex(s.history, TermsOf(c.exits, s.market.price, s.timestamp), rule, 0);
      Simulated(c, a, rule, s.(history := s.history[..k + 1] + tail), split, index) == Simulated(c, a, rule, s, split, index)
  {
    var t := TermsOf(c.exits, s.market.price, s.timestamp);
    var k := ExitIndex(s.history, t, rule, 0);
    var s' := s.(history := s.history[..k + 1] + tail);
    G.DecisionIgnoresTheFuture(c, s, s'.history, s.expectedGrossPct);
    assert s.(history := s'.history, expectedGrossPct := s.expectedGrossPct) == s';
    hide G.Decide, Outcome, ExitIndex, Booked;
    NoLookAhead(s.history, tail, t, rule);
    BookedIgnoresHistory(s, s'.history, a, split, index, Outcome(s.history, t, rule));
  }

  lemma BookedIgnoresHistory(s: Signal, history: seq<Observation>, a: Assumptions, split: Split, index: nat, w: Walked)
    requires s.market.price > 0.0
    ensures Booked(s.(history := history), a, split, index, w) == Booked(s, a, split, index, w)
  {
    var s' := s.(history := history);
    assert s'.position == s.position && s'.market == s.market && s'.timestamp == s.timestamp && s'.mint == s.mint;
    hide CostsOf, ExpectedFailedCost, PctOf, Minutes;
  }

  // The net PnL is proceeds less the stake, less each of the eight leg costs once, less the
  // expected cost of failed attempts; the quantity is never adjusted, the net percentage is
  // that PnL over the stake, and the costs are broken down as they were charged.
  ghost predicate BookedExactly(t: Trade, s: Signal, a: Assumptions) {
    var proceeds := t.quantity * t.exitPrice;
    && t.mint == s.mint && t.timestamp == s.timestamp && t.entryPrice == s.market.price && t.position == s.position
    && t.quantity * t.entryPrice == s.position
    && LegBooked(a.entry, s.position, t.entryCosts) && LegBooked(a.exit, proceeds, t.exitCosts)
    && t.totalCost == LegSum(a.entry, s.position) + LegSum(a.exit, proceeds) + 2.0 * a.failedRate * a.failedCost
    && t.grossPnl == proceeds - s.position && t.netPnl == t.grossPnl - t.totalCost
    && (s.position > 0.0 ==> t.netPct * s.position == 100.0 * t.netPnl && t.grossPct * s.position == 100.0 * t.grossPnl)
    && (s.position <= 0.0 ==> t.netPct == 0.0 && t.grossPct == 0.0)
    && t.holdingMinutes == Minutes(t.exitTime - s.timestamp)
  }

  lemma NetPnlIdentity(c: G.Config, a: Assumptions, rule: Rule, s: Signal, split: Split, index: nat)
    requires s.wallets != [] && Simulated(c, a, rule, s, split, index).Ok?
    ensures var t := Simulated(c, a, rule, s, split, index).value;
      && BookedExactly(t, s, a)
      && t.split == split && t.index == index
      && var w := Outcome(s.history, TermsOf(c.exits, s.market.price, s.timestamp), rule);
      t.exitPrice == w.exitPrice && t.exitTime == w.exitTime && t.reason == w.reason
      && t.mfe == w.mfe && t.mae == w.mae && t.ambiguous == w.ambiguous && t.censored == w.censored
  {
    assert s.market.price > 0.0;
    hide G.Decide, Outcome, BookedExactly;
    BookedNet(s, a, split, index, Outcome(s.history, TermsOf(c.exits, s.market.price, s.timestamp), rule));
    hide CostsOf, PctOf, Minutes, ExpectedFailedCost;
  }

  // The four costs of one leg, each once: three rates on the notional and a flat fee.
  function LegSum(r: LegRates, notional: real): real {
    notional * (r.swapFeeBps + r.slippageBps + r.impactBps) / 10000.0 + r.priorityFee
  }

  ghost predicate LegBooked(r: LegRates, notional: real, costs: LegCosts) {
    && 10000.0 * costs.swapFee == notional * r.swapFeeBps && 10000.0 * costs.slippage == notional * r.slippageBps
    && 10000.0 * costs.impact == notional * r.impactBps && costs.priorityFee == r.priorityFee
    && costs.total == costs.swapFee + costs.slippage + costs.impact + costs.priorityFee
  }

  lemma BookedNet(s: Signal, a: Assumptions, split: Split, index: nat, w: Walked)
    requires s.market.price > 0.0
    ensures BookedExactly(Booked(s, a, split, index, w), s, a)
  {
    var t := Booked(s, a, split, index, w);
    LegsBooked(a.entry, s.position);
    LegsBooked(a.exit, t.quantity * t.exitPrice);
    hide CostsOf, LegSum, LegBooked, Minutes;
    Restored(s.position, s.market.price);
    PctRestored(t.netPnl, s.position);
    PctRestored(t.grossPnl, s.position);
    hide PctOf;
  }

  lemma PctRestored(pnl: real, position: real)
    ensures position > 0.0 ==> PctOf(pnl, position) * position == 100.0 * pnl
    ensures position <= 0.0 ==> PctOf(pnl, position) == 0.0
  {
    if position > 0.0 {
      var q := pnl / position;
      assert q * position == pnl;
      assert q * 100.0 * position == 100.0 * (q * position);
    }
  }

  lemma LegsBooked(r: LegRates, notional: real)
    ensures LegBooked(r, notional, CostsOf(r, notional)) && CostsOf(r, notional).total == LegSum(r, notional)
  {
    LegTotal(r, notional);
  }

  lemma LegTotal(r: LegRates, notional: real)
    ensures CostsOf(r, notional).total == LegSum(r, notional)
  {
    assert notional * (r.swapFeeBps + r.slippageBps + r.impactBps)
      == notional * r.swapFeeBps + notional * r.slippageBps + notional * r.impactBps;
  }

  lemma Restored(x: real, y: real)
    requires y != 0.0
    ensures x / y * y == x
  {
  }

  // The booked gross percentage is the price return, whatever the stake.
  lemma GrossIsThePriceReturn(s: Signal, a: Assumptions, split: Split, index: nat, w: Walked)
    requires s.market.price > 0.0 && s.position > 0.0
    ensures Booked(s, a, split, index, w).grossPct == ReturnPct(s.market.price, w.exitPrice)
  {
    PriceReturn(s.position, s.market.price, w.exitPrice);
  }

  lemma PriceReturn(position: real, entry: real, exit: real)
    requires entry > 0.0 && position > 0.0
    ensures (position / entry * exit - position) / position == (exit - entry) / entry
  {
    var q := position / entry;
    var r := (exit - entry) / entry;
    assert q * entry == position && r * entry == exit - entry;
    assert q * (r * entry) == r * (q * entry);
    assert q * exit - position == q * (exit - entry);
    Divided(r, position);
  }

  lemma Divided(r: real, position: real)
    requires position > 0.0
    ensures r * position / position == r
  {
  }

  // Every trade the code produces: excluded for at most one reason, bracketed by its
  // excursions exactly when it is not ambiguous, and without market PnL when censored.
  lemma TradeShape(c: G.Config, a: Assumptions, s: Signal, split: Split, index: nat)
    requires s.wallets != [] && s.position > 0.0 && c.exits.stopPct > 0.0
    requires Simulated(c, a, ProductionFor(c)(s), s, split, index).Ok?
    ensures var t := Simulated(c, a, ProductionFor(c)(s), s, split, index).value;
      && !(t.ambiguous && t.censored)
      && (t.mae <= t.grossPct <= t.mfe <==> !t.ambiguous)
      && (t.ambiguous ==> t.grossPct == 0.0 - c.exits.stopPct && t.reason.StopLoss?)
      && (t.censored ==> t.grossPct == 0.0 && t.grossPnl == 0.0 && t.netPnl == 0.0 - t.totalCost)
      && (t.reason.TakeProfit? ==> t.grossPct >= c.exits.targetPct)
  {
    var terms := TermsOf(c.exits, s.market.price, s.timestamp);
    var rule := ProductionFor(c)(s);
    var w := Outcome(s.history, terms, rule);
    FlagsExclude(s.history, terms, rule);
    ExcursionsBracketTheReturn(s.history, terms, rule);
    AmbiguousTradesAlwaysUndercutTheirMae(s.history, c.exits, s.market.price, s.timestamp);
    ReasonsMatchReturns(s.history, c.exits, s.market.price, s.timestamp);
    GrossIsThePriceReturn(s, a, split, index, w);
    AmbiguousReason(s.history, terms, rule);
    StopReturn(terms);
    Restored(s.position, s.market.price);
    hide G.Decide, Outcome, CostsOf, ReturnPct, Production;
  }

  // Time runs forward in every trade whose observations follow its signal, and a trade
  // closed by the time limit was held at least that long.
  lemma HoldingTime(c: G.Config, a: Assumptions, s: Signal, split: Split, index: nat)
    requires s.wallets != [] && forall i :: 0 <= i < |s.history| ==> s.history[i].timestamp >= s.timestamp
    requires Simulated(c, a, ProductionFor(c)(s), s, split, index).Ok?
    ensures var t := Simulated(c, a, ProductionFor(c)(s), s, split, index).value;
      && t.exitTime >= t.timestamp && t.holdingMinutes >= 0
      && (t.reason.TimeLimit? ==> t.holdingMinutes >= c.exits.maxHoldingMinutes)
      && (t.exitTime != t.timestamp ==> exists i :: 0 <= i < |s.history| && s.history[i].timestamp == t.exitTime)
  {
    assert s.market.price > 0.0;
    hide G.Decide, CostsOf, PctOf, Favorable, Adverse, ExitIndex;
    var terms := TermsOf(c.exits, s.market.price, s.timestamp);
    var k := ExitIndex(s.history, terms, ProductionFor(c)(s), 0);
    assert k < |s.history| ==> s.history[k].timestamp >= s.timestamp;
    assert s.history != [] ==> s.history[|s.history| - 1].timestamp >= s.timestamp;
  }

  lemma AmbiguousReason(h: seq<Observation>, t: Terms, rule: Rule)
    requires t.entryPrice > 0.0
    ensures Outcome(h, t, rule).ambiguous ==> Outcome(h, t, rule).reason == StopLoss
  {
  }
}
