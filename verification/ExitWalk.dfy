// The exit walk of simulate_signal (src/backtest/engine.rs): a single pass over the
// price history, proved equal to a declarative least index for every exit rule.
module ExitWalk {
  import opened Wrappers
  import opened Signals

  datatype Reason = StopLoss | TakeProfit | TrailingStop | TimeLimit | LiquidityDeterioration | SignalInvalidated | Censored

  // An exit rule decides from the high water mark, the close, the liquidity and the time.
  type Rule = (real, real, real, int) -> Option<Reason>

  datatype Terms = Terms(entryPrice: real, entryTime: int, stopPct: real, targetPct: real)

  datatype Walked = Walked(
    exitPrice: real, exitTime: int, reason: Reason, mfe: real, mae: real, ambiguous: bool, censored: bool)

  function ReturnPct(entry: real, price: real): real
    requires entry > 0.0
  {
    (price - entry) / entry * 100.0
  }

  function StopPrice(t: Terms): real {
    t.entryPrice * (1.0 - t.stopPct / 100.0)
  }

  function TargetPrice(t: Terms): real {
    t.entryPrice * (1.0 + t.targetPct / 100.0)
  }

  function Max(a: real, b: real): real {
    if b > a then b else a
  }

  function Least(a: real, b: real): real {
    if b < a then b else a
  }

  // `detect_ambiguity` on two adjacent candles.
  predicate Spans(t: Terms, a: Observation, b: Observation) {
    t.entryPrice > 0.0 && Least(Low(a), Low(b)) <= StopPrice(t) && Max(High(a), High(b)) >= TargetPrice(t)
  }

  // Some low of the two candles is at or below the stop and some high at or above the target.
  lemma SpansMeans(t: Terms, a: Observation, b: Observation)
    ensures Spans(t, a, b) <==>
      && t.entryPrice > 0.0
      && (exists o :: o in [a, b] && 100.0 * Low(o) <= (100.0 - t.stopPct) * t.entryPrice)
      && (exists o :: o in [a, b] && 100.0 * High(o) >= (100.0 + t.targetPct) * t.entryPrice)
  {
    assert a in [a, b] && b in [a, b];
    assert 100.0 * StopPrice(t) == (100.0 - t.stopPct) * t.entryPrice;
    assert 100.0 * TargetPrice(t) == (100.0 + t.targetPct) * t.entryPrice;
    hide StopPrice, TargetPrice, Low, High;
  }

  predicate AmbiguousAt(h: seq<Observation>, t: Terms, i: nat)
    requires i < |h|
  {
    i > 0 && Spans(t, h[i - 1], h[i])
  }

  // The high water mark an observation is judged against: strictly earlier candles only.
  function HighWater(h: seq<Observation>, entry: real, i: nat): real
    requires i <= |h|
  {
    if i == 0 then entry else Max(HighWater(h, entry, i - 1), High(h[i - 1]))
  }

  function Fires(h: seq<Observation>, t: Terms, rule: Rule, i: nat): Option<Reason>
    requires i < |h|
  {
    rule(HighWater(h, t.entryPrice, i), Close(h[i]), h[i].liquidity, h[i].timestamp)
  }

  predicate Ends(h: seq<Observation>, t: Terms, rule: Rule, i: nat)
    requires i < |h|
  {
    AmbiguousAt(h, t, i) || Fires(h, t, rule, i).Some?
  }

  // The least index at or after i where the walk ends, or |h|.
  function ExitIndex(h: seq<Observation>, t: Terms, rule: Rule, i: nat): (k: nat)
    requires i <= |h|
    ensures i <= k <= |h|
    ensures k < |h| ==> Ends(h, t, rule, k)
    ensures forall j :: i <= j < k ==> !Ends(h, t, rule, j)
    decreases |h| - i
  {
    if i == |h| || Ends(h, t, rule, i) then i else ExitIndex(h, t, rule, i + 1)
  }

  // Best and worst close among the first n observations, against zero.
  function Favorable(h: seq<Observation>, entry: real, n: nat): real
    requires n <= |h| && entry > 0.0
  {
    if n == 0 then 0.0 else Max(Favorable(h, entry, n - 1), ReturnPct(entry, Close(h[n - 1])))
  }

  function Adverse(h: seq<Observation>, entry: real, n: nat): real
    requires n <= |h| && entry > 0.0
  {
    if n == 0 then 0.0 else Least(Adverse(h, entry, n - 1), ReturnPct(entry, Close(h[n - 1])))
  }

  // What the walk reports, given where it ends.
  function Outcome(h: seq<Observation>, t: Terms, rule: Rule): Walked
    requires t.entryPrice > 0.0
  {
    var k := ExitIndex(h, t, rule, 0);
    if k == |h| then
      Walked(t.entryPrice, if h == [] then t.entryTime else h[|h| - 1].timestamp, Censored,
             Favorable(h, t.entryPrice, k), Adverse(h, t.entryPrice, k), false, true)
    else if AmbiguousAt(h, t, k) then
      Walked(StopPrice(t), h[k].timestamp, StopLoss, Favorable(h, t.entryPrice, k), Adverse(h, t.entryPrice, k), true, false)
    else
      Walked(Close(h[k]), h[k].timestamp, Fires(h, t, rule, k).value,
             Favorable(h, t.entryPrice, k + 1), Adverse(h, t.entryPrice, k + 1), false, false)
  }

  method Walk(h: seq<Observation>, t: Terms, rule: Rule) returns (w: Walked)
    requires t.entryPrice > 0.0
    ensures w == Outcome(h, t, rule)
  {
    var highWater, mfe, mae := t.entryPrice, 0.0, 0.0;
    var exitPrice, exitTime := t.entryPrice, t.entryTime;
    var found: Option<Reason> := None;
    var ambiguous := false;
    var i := 0;
    hide ReturnPct, StopPrice, Spans, Close, High;
    while i < |h| && found.None?
      invariant i <= |h|
      invariant found.None? ==>
        && !ambiguous && exitTime == t.entryTime && ExitIndex(h, t, rule, 0) == ExitIndex(h, t, rule, i)
        && highWater == HighWater(h, t.entryPrice, i)
        && mfe == Favorable(h, t.entryPrice, i) && mae == Adverse(h, t.entryPrice, i)
      invariant found.Some? ==> Walked(exitPrice, exitTime, found.value, mfe, mae, ambiguous, false) == Outcome(h, t, rule)
      decreases |h| - i, found.None?
    {
      var obs := h[i];
      var price := Close(obs);
      if i > 0 && Spans(t, h[i - 1], obs) {
        ambiguous, found := true, Some(StopLoss);
        exitPrice := StopPrice(t);
        exitTime := obs.timestamp;
      } else {
        var returnPct := ReturnPct(t.entryPrice, price);
        if returnPct > mfe {
          mfe := returnPct;
        }
        if returnPct < mae {
          mae := returnPct;
        }
        var reason := rule(highWater, price, obs.liquidity, obs.timestamp);
        if reason.Some? {
          exitPrice, exitTime, found := price, obs.timestamp, reason;
        } else {
          if High(obs) > highWater {
            highWater := High(obs);
          }
          i := i + 1;
        }
      }
    }
    var censored := found.None?;
    if censored {
      if |h| > 0 {
        exitTime := h[|h| - 1].timestamp;
      }
      exitPrice := t.entryPrice;
    }
    w := Walked(exitPrice, exitTime, if censored then Censored else found.value, mfe, mae, ambiguous, censored);
  }

  // ---------- what the declarative form means ----------

  // HighWater is the maximum of the entry price and the highs strictly before i.
  lemma {:induction false} HighWaterIsMaximum(h: seq<Observation>, entry: real, i: nat)
    requires i <= |h|
    ensures var hw := HighWater(h, entry, i);
      && hw >= entry && (forall j :: 0 <= j < i ==> High(h[j]) <= hw)
      && (hw == entry || exists j :: 0 <= j < i && High(h[j]) == hw)
  {
    if i > 0 {
      HighWaterIsMaximum(h, entry, i - 1);
    }
  }

  // Favorable and Adverse are the extremes of zero and the first n returns.
  lemma {:induction false} ExcursionsAreExtremes(h: seq<Observation>, entry: real, n: nat)
    requires n <= |h| && entry > 0.0
    ensures Adverse(h, entry, n) <= 0.0 <= Favorable(h, entry, n)
    ensures forall j :: 0 <= j < n ==> Adverse(h, entry, n) <= ReturnPct(entry, Close(h[j])) <= Favorable(h, entry, n)
    ensures Favorable(h, entry, n) == 0.0 || exists j :: 0 <= j < n && ReturnPct(entry, Close(h[j])) == Favorable(h, entry, n)
    ensures Adverse(h, entry, n) == 0.0 || exists j :: 0 <= j < n && ReturnPct(entry, Close(h[j])) == Adverse(h, entry, n)
  {
    if n > 0 {
      ExcursionsAreExtremes(h, entry, n - 1);
    }
  }

  // Any index with the least-end property is the exit index.
  lemma ExitIndexIsLeast(h: seq<Observation>, t: Terms, rule: Rule, k: nat)
    requires k <= |h|
    ensures ExitIndex(h, t, rule, 0) == k <==>
      (k < |h| ==> Ends(h, t, rule, k)) && forall j :: 0 <= j < k ==> !Ends(h, t, rule, j)
  {
    var e := ExitIndex(h, t, rule, 0);
    if (k < |h| ==> Ends(h, t, rule, k)) && forall j :: 0 <= j < k ==> !Ends(h, t, rule, j) {
      assert e >= k;
    }
  }

  // ---------- no look-ahead ----------

  ghost predicate AgreeUpTo(g: seq<Observation>, h: seq<Observation>, n: nat) {
    n <= |g| && n <= |h| && g[..n] == h[..n]
  }

  lemma {:induction false} PrefixDecides(g: seq<Observation>, h: seq<Observation>, entry: real, n: nat)
    requires AgreeUpTo(g, h, n) && entry > 0.0
    ensures HighWater(g, entry, n) == HighWater(h, entry, n)
    ensures Favorable(g, entry, n) == Favorable(h, entry, n) && Adverse(g, entry, n) == Adverse(h, entry, n)
  {
    if n > 0 {
      assert g[..n - 1] == g[..n][..n - 1] && h[..n - 1] == h[..n][..n - 1];
      assert g[n - 1] == g[..n][n - 1] && h[n - 1] == h[..n][n - 1];
      PrefixDecides(g, h, entry, n - 1);
    }
  }

  lemma PrefixDecidesEnds(g: seq<Observation>, h: seq<Observation>, t: Terms, rule: Rule, i: nat)
    requires AgreeUpTo(g, h, i + 1) && t.entryPrice > 0.0
    ensures Ends(g, t, rule, i) <==> Ends(h, t, rule, i)
    ensures Fires(g, t, rule, i) == Fires(h, t, rule, i) && AmbiguousAt(g, t, i) == AmbiguousAt(h, t, i)
    ensures g[i] == h[i]
  {
    assert g[..i] == g[..i + 1][..i] && h[..i] == h[..i + 1][..i];
    PrefixDecides(g, h, t.entryPrice, i);
    assert forall j :: 0 <= j <= i ==> g[j] == g[..i + 1][j] && h[j] == h[..i + 1][j];
  }

  // If the walk ends at k, whatever the observations after k are, the outcome is the same.
  lemma NoLookAhead(h: seq<Observation>, tail: seq<Observation>, t: Terms, rule: Rule)
    requires t.entryPrice > 0.0
    requires ExitIndex(h, t, rule, 0) < |h|
    ensures var k := ExitIndex(h, t, rule, 0);
      Outcome(h[..k + 1] + tail, t, rule) == Outcome(h, t, rule)
  {
    var k := ExitIndex(h, t, rule, 0);
    var g := h[..k + 1] + tail;
    forall i | 0 <= i <= k
      ensures Ends(g, t, rule, i) <==> Ends(h, t, rule, i)
      ensures Fires(g, t, rule, i) == Fires(h, t, rule, i) && AmbiguousAt(g, t, i) == AmbiguousAt(h, t, i) && g[i] == h[i]
    {
      assert g[..i + 1] == h[..i + 1];
      PrefixDecidesEnds(g, h, t, rule, i);
    }
    ExitIndexIsLeast(g, t, rule, k);
    assert g[..k] == h[..k] && g[..k + 1] == h[..k + 1];
    PrefixDecides(g, h, t.entryPrice, k);
    PrefixDecides(g, h, t.entryPrice, k + 1);
  }

  // ---------- the two exclusion flags ----------

  lemma FlagsExclude(h: seq<Observation>, t: Terms, rule: Rule)
    requires t.entryPrice > 0.0
    ensures var w := Outcome(h, t, rule);
      && !(w.ambiguous && w.censored)
      && (w.censored <==> forall i :: 0 <= i < |h| ==> !Ends(h, t, rule, i))
      && (w.censored ==> w.exitPrice == t.entryPrice)
  {
    var k := ExitIndex(h, t, rule, 0);
    if k < |h| {
      assert Ends(h, t, rule, k);
    }
  }

  lemma StopReturn(t: Terms)
    requires t.entryPrice > 0.0
    ensures ReturnPct(t.entryPrice, StopPrice(t)) == 0.0 - t.stopPct
    ensures ReturnPct(t.entryPrice, t.entryPrice) == 0.0
  {
    var e, x := t.entryPrice, t.stopPct / 100.0;
    assert StopPrice(t) - e == (0.0 - x) * e;
    CancelEntry(0.0 - x, e);
  }

  lemma CancelEntry(x: real, e: real)
    requires e > 0.0
    ensures x * e / e == x
  {
  }

  // Outside ambiguous trades the booked return lies between the excursions; an
  // ambiguous one books the stop, which the adverse excursion reaches or not.
  lemma ExcursionsBracketTheReturn(h: seq<Observation>, t: Terms, rule: Rule)
    requires t.entryPrice > 0.0
    ensures var w := Outcome(h, t, rule);
      var gross := ReturnPct(t.entryPrice, w.exitPrice);
      && (!w.ambiguous ==> w.mae <= gross <= w.mfe)
      && (w.ambiguous ==> gross == 0.0 - t.stopPct)
      && (t.stopPct >= 0.0 ==> (w.mae <= gross <= w.mfe <==> !w.ambiguous || w.mae <= 0.0 - t.stopPct))
  {
    var k := ExitIndex(h, t, rule, 0);
    StopReturn(t);
    ExcursionsAreExtremes(h, t.entryPrice, k);
    if k < |h| {
      ExcursionsAreExtremes(h, t.entryPrice, k + 1);
    }
    hide Favorable, Adverse, ExitIndex;
  }

  // ---------- the production rule ----------

  datatype Strategy = Strategy(stopPct: real, targetPct: real, trailingPct: real, maxHoldingMinutes: int, minLiquidity: real)

  // `num_minutes` truncates toward zero.
  function Minutes(seconds: int): int {
    if seconds >= 0 then seconds / 60 else 0 - (0 - seconds) / 60
  }

  // `exit_reason` as the backtest calls it: never invalidated, liquidity always known.
  function Production(c: Strategy, entry: real, entryTime: int): Rule {
    (highWater: real, price: real, liquidity: real, now: int) =>
      if liquidity < c.minLiquidity then Some(LiquidityDeterioration)
      else if entry <= 0.0 then Some(StopLoss)
      else if (price - entry) / entry * 100.0 <= 0.0 - c.stopPct then Some(StopLoss)
      else if (price - entry) / entry * 100.0 >= c.targetPct then Some(TakeProfit)
      else if price <= highWater * (1.0 - c.trailingPct / 100.0) then Some(TrailingStop)
      else if Minutes(now - entryTime) >= c.maxHoldingMinutes then Some(TimeLimit)
      else None
  }

  function TermsOf(c: Strategy, entry: real, entryTime: int): Terms {
    Terms(entry, entryTime, c.stopPct, c.targetPct)
  }

  // The level of the trailing stop below a peak, times a hundred.
  function Trail(c: Strategy, peak: real): real {
    (100.0 - c.trailingPct) * peak
  }

  predicate Healthy(c: Strategy, entry: real, price: real, liquidity: real)
    requires entry > 0.0
  {
    liquidity >= c.minLiquidity && 0.0 - c.stopPct < ReturnPct(entry, price) < c.targetPct
  }

  // The exact condition of each answer: liquidity first, then the stop, then the target,
  // and only between those the trailing stop, and only above that the time limit.
  lemma RuleMeans(c: Strategy, entry: real, entryTime: int, peak: real, price: real, liquidity: real, now: int)
    requires entry > 0.0
    ensures var r := Production(c, entry, entryTime)(peak, price, liquidity, now);
      var gross := ReturnPct(entry, price);
      && (r == Some(LiquidityDeterioration) <==> liquidity < c.minLiquidity)
      && (r == Some(StopLoss) <==> liquidity >= c.minLiquidity && gross <= 0.0 - c.stopPct)
      && (r == Some(TakeProfit) <==> liquidity >= c.minLiquidity && 0.0 - c.stopPct < gross && c.targetPct <= gross)
      && (r == Some(TrailingStop) <==> Healthy(c, entry, price, liquidity) && 100.0 * price <= Trail(c, peak))
      && (r == Some(TimeLimit) <==>
            && Healthy(c, entry, price, liquidity) && 100.0 * price > Trail(c, peak)
            && Minutes(now - entryTime) >= c.maxHoldingMinutes)
      && (r.None? <==>
            && Healthy(c, entry, price, liquidity) && 100.0 * price > Trail(c, peak)
            && Minutes(now - entryTime) < c.maxHoldingMinutes)
      && r != Some(Censored) && r != Some(SignalInvalidated)
  {
    assert peak * (1.0 - c.trailingPct / 100.0) == Trail(c, peak) / 100.0;
    hide Trail;
  }

  // Whole minutes, toward zero.
  lemma MinutesMean(seconds: int)
    ensures var m := Minutes(seconds);
      if seconds >= 0 then 60 * m <= seconds < 60 * m + 60 else 60 * m - 60 < seconds <= 60 * m
  {
  }

  // A peak the trailing stop has seen by candle i: the entry, or an earlier high.
  ghost predicate SeenPeak(h: seq<Observation>, entry: real, i: nat, peak: real)
    requires i <= |h|
  {
    peak == entry || exists j :: 0 <= j < i && High(h[j]) == peak
  }

  // A price is below the trail of the high water exactly when it is below that of some peak.
  lemma {:induction false} TrailOfSomePeak(h: seq<Observation>, c: Strategy, entry: real, i: nat, price: real)
    requires i <= |h| && c.trailingPct <= 100.0
    ensures 100.0 * price <= Trail(c, HighWater(h, entry, i)) <==> exists peak :: SeenPeak(h, entry, i, peak) && 100.0 * price <= Trail(c, peak)
  {
    HighWaterIsMaximum(h, entry, i);
    var top := HighWater(h, entry, i);
    assert SeenPeak(h, entry, i, top);
    forall peak | SeenPeak(h, entry, i, peak) ensures Trail(c, peak) <= Trail(c, top) {
      TrailGrows(c, peak, top);
    }
    hide Trail, HighWater;
  }

  lemma TrailGrows(c: Strategy, low: real, high: real)
    requires c.trailingPct <= 100.0 && low <= high
    ensures Trail(c, low) <= Trail(c, high)
  {
    assert (100.0 - c.trailingPct) * (high - low) >= 0.0;
  }

  // Every close the walk went past was healthy, above the trail of every earlier peak, and in time.
  lemma HeldCloses(h: seq<Observation>, c: Strategy, entry: real, entryTime: int, i: nat)
    requires entry > 0.0 && i < |h| && !Ends(h, TermsOf(c, entry, entryTime), Production(c, entry, entryTime), i)
    ensures 0.0 - c.stopPct < ReturnPct(entry, Close(h[i])) < c.targetPct && h[i].liquidity >= c.minLiquidity
    ensures 100.0 * Close(h[i]) > Trail(c, HighWater(h, entry, i))
    ensures c.trailingPct <= 100.0 ==> forall peak :: SeenPeak(h, entry, i, peak) ==> 100.0 * Close(h[i]) > Trail(c, peak)
    ensures Minutes(h[i].timestamp - entryTime) < c.maxHoldingMinutes
  {
    RuleMeans(c, entry, entryTime, HighWater(h, entry, i), Close(h[i]), h[i].liquidity, h[i].timestamp);
    if c.trailingPct <= 100.0 {
      TrailOfSomePeak(h, c, entry, i, Close(h[i]));
    }
    hide Production, Trail;
  }

  // Under the production rule the written promise that MAE covers the exit fails for
  // every ambiguous trade, not just some: the booked stop is below every close seen.
  lemma AmbiguousTradesAlwaysUndercutTheirMae(h: seq<Observation>, c: Strategy, entry: real, entryTime: int)
    requires entry > 0.0 && c.stopPct > 0.0
    ensures var w := Outcome(h, TermsOf(c, entry, entryTime), Production(c, entry, entryTime));
      w.ambiguous <==> ReturnPct(entry, w.exitPrice) < w.mae
  {
    var t, rule := TermsOf(c, entry, entryTime), Production(c, entry, entryTime);
    var k := ExitIndex(h, t, rule, 0);
    StopReturn(t);
    ExcursionsBracketTheReturn(h, t, rule);
    ExcursionsAreExtremes(h, entry, k);
    forall i | 0 <= i < k ensures 0.0 - c.stopPct < ReturnPct(entry, Close(h[i])) {
      HeldCloses(h, c, entry, entryTime, i);
    }
    hide Favorable, Adverse, ExitIndex, Production, Ends;
  }

  // The reason a trade reports, from the candle it ended on: each has its exact condition.
  lemma ReasonsMatchReturns(h: seq<Observation>, c: Strategy, entry: real, entryTime: int)
    requires entry > 0.0
    ensures var t, rule := TermsOf(c, entry, entryTime), Production(c, entry, entryTime);
      var w, k := Outcome(h, t, rule), ExitIndex(h, t, rule, 0);
      var gross := ReturnPct(entry, w.exitPrice);
      var exited := k < |h| && !w.ambiguous;
      && (w.reason.Censored? <==> w.censored) && (w.censored <==> k == |h|) && (w.ambiguous ==> w.reason.StopLoss?)
      && (exited ==> w.exitPrice == Close(h[k]) && w.exitTime == h[k].timestamp)
      && (w.reason.LiquidityDeterioration? <==> exited && h[k].liquidity < c.minLiquidity)
      && (w.reason.StopLoss? <==> w.ambiguous || (exited && h[k].liquidity >= c.minLiquidity && gross <= 0.0 - c.stopPct))
      && (w.reason.TakeProfit? <==> exited && h[k].liquidity >= c.minLiquidity && 0.0 - c.stopPct < gross && c.targetPct <= gross)
      && (w.reason.TrailingStop? <==>
            exited && Healthy(c, entry, w.exitPrice, h[k].liquidity) && 100.0 * w.exitPrice <= Trail(c, HighWater(h, entry, k)))
      && (w.reason.TimeLimit? <==>
            && exited && Healthy(c, entry, w.exitPrice, h[k].liquidity) && 100.0 * w.exitPrice > Trail(c, HighWater(h, entry, k))
            && Minutes(w.exitTime - entryTime) >= c.maxHoldingMinutes)
      && (w.ambiguous ==> gross == 0.0 - c.stopPct)
      && !w.reason.SignalInvalidated?
  {
    var t, rule := TermsOf(c, entry, entryTime), Production(c, entry, entryTime);
    var k := ExitIndex(h, t, rule, 0);
    StopReturn(t);
    if k < |h| {
      RuleMeans(c, entry, entryTime, HighWater(h, entry, k), Close(h[k]), h[k].liquidity, h[k].timestamp);
    }
    hide Favorable, Adverse, ExitIndex, Production, Trail, Healthy;
  }

  // The walk is still running when candles k - 1 and k together span both levels.
  ghost predicate SpanReached(h: seq<Observation>, t: Terms, rule: Rule, k: nat) {
    0 < k < |h| && Spans(t, h[k - 1], h[k]) && forall j :: 0 <= j < k ==> !Ends(h, t, rule, j)
  }

  // The first candle is never judged on its own: an exit on it is never flagged, even
  // when that one candle spans both levels.
  lemma FirstCandleIsNeverAmbiguous(h: seq<Observation>, t: Terms, rule: Rule)
    requires t.entryPrice > 0.0
    ensures Outcome(h, t, rule).ambiguous <==> exists k: nat :: SpanReached(h, t, rule, k)
  {
    var k := ExitIndex(h, t, rule, 0);
    if Outcome(h, t, rule).ambiguous {
      assert SpanReached(h, t, rule, k);
    }
    forall j: nat | SpanReached(h, t, rule, j) ensures j == k {
      ExitIndexIsLeast(h, t, rule, j);
    }
    hide Favorable, Adverse, ExitIndex;
  }

  // An exit candle that alone spans both levels is flagged exactly when it is not the first.
  lemma SpanningExitIsFlaggedIff(h: seq<Observation>, t: Terms, rule: Rule)
    requires t.entryPrice > 0.0
    ensures var k := ExitIndex(h, t, rule, 0);
      k < |h| && Spans(t, h[k], h[k]) ==> (Outcome(h, t, rule).ambiguous <==> k > 0)
  {
  }

  // What becomes of a history whose first candle spans both levels: if the rule fires on
  // its close the trade ends there unflagged; if not, the second candle, whatever it is,
  // ends it flagged at the stop; a lone candle is censored.
  lemma SpanningFirstCandle(h: seq<Observation>, t: Terms, rule: Rule)
    requires t.entryPrice > 0.0 && h != [] && Spans(t, h[0], h[0])
    ensures var w := Outcome(h, t, rule);
      var fires := Fires(h, t, rule, 0);
      && (fires.Some? ==> !w.ambiguous && !w.censored && w.exitPrice == Close(h[0]) && w.reason == fires.value)
      && (fires.None? && |h| > 1 ==> w.ambiguous && w.exitPrice == StopPrice(t) && w.exitTime == h[1].timestamp)
      && (fires.None? && |h| == 1 ==> w.censored)
  {
    if Fires(h, t, rule, 0).Some? {
      ExitIndexIsLeast(h, t, rule, 0);
    } else if |h| > 1 {
      assert Spans(t, h[0], h[1]);
      ExitIndexIsLeast(h, t, rule, 1);
    } else {
      ExitIndexIsLeast(h, t, rule, 1);
    }
    hide ExitIndex, Favorable, Adverse;
  }

  // Against the claim that the favourable outcome is never chosen: under the production
  // rule such a trade books the profit exactly when the first close is at the target,
  // above the stop, with healthy liquidity.
  lemma SpanningTradeTakesProfitIff(h: seq<Observation>, c: Strategy, entry: real, entryTime: int)
    requires entry > 0.0 && h != [] && Spans(TermsOf(c, entry, entryTime), h[0], h[0])
    ensures var w := Outcome(h, TermsOf(c, entry, entryTime), Production(c, entry, entryTime));
      var first := ReturnPct(entry, Close(h[0]));
      && (w.reason.TakeProfit? <==> h[0].liquidity >= c.minLiquidity && first > 0.0 - c.stopPct && first >= c.targetPct)
      && (w.reason.TakeProfit? ==> !w.ambiguous && ReturnPct(entry, w.exitPrice) == first)
  {
    SpanningFirstCandle(h, TermsOf(c, entry, entryTime), Production(c, entry, entryTime));
    ReasonsMatchReturns(h, c, entry, entryTime);
    hide Outcome;
  }
}
