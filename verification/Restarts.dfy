// The daily trade limit over restarts.  The count lives in the process; the session
// stores it after each tick (`persist_session_state`, src/runtime.rs) and loads it back
// when it starts on the same day.
module Restarts {
  import opened Wrappers
  import Risk

  // One calendar day of session processes, one after the other.
  datatype Move = Logged(event: Risk.Event) | Persisted | Restarted(latched: bool)

  datatype Row = Row(trades: u32, dayStart: real)

  // The engine in memory, and today's row in the store if it was written already.
  datatype Day = Day(engine: Risk.State, stored: Option<Row>)

  // A new engine with the stored window; a latched switch is tripped again.
  function Loaded(c: Risk.Config, capital: real, stored: Option<Row>, latched: bool): Risk.State {
    var clear := Risk.Fresh(c, capital).(tripped := latched);
    match stored
    case None => clear
    case Some(row) => clear.(tradesToday := row.trades, dayStart := row.dayStart)
  }

  function After(c: Risk.Config, capital: real, d: Day, m: Move): Day {
    match m
    case Logged(e) => d.(engine := Risk.After(c, capital, d.engine, e))
    case Persisted => d.(stored := Some(Row(d.engine.tradesToday, d.engine.dayStart)))
    case Restarted(latched) => d.(engine := Loaded(c, capital, d.stored, latched))
  }

  // The day begins with a cleared count and yesterday's row, which is not loaded.
  predicate Dawn(d: Day) {
    d.engine.tradesToday == 0 && d.stored.None?
  }

  function Lived(c: Risk.Config, capital: real, dawn: Day, moves: seq<Move>): Day {
    if moves == [] then dawn else After(c, capital, Lived(c, capital, dawn, moves[..|moves| - 1]), moves[|moves| - 1])
  }

  // No rollover within the day, and every trade authorised by the engine that logs it.
  ghost predicate Proper(c: Risk.Config, d: Day, m: Move) {
    m.Logged? ==> !m.event.NewDay? && (m.event.Trade? ==> Risk.Authorised(c, d.engine, m.event.usd))
  }

  ghost predicate Disciplined(c: Risk.Config, capital: real, dawn: Day, moves: seq<Move>) {
    moves == [] ||
    (var front := moves[..|moves| - 1];
     Disciplined(c, capital, dawn, front) && Proper(c, Lived(c, capital, dawn, front), moves[|moves| - 1]))
  }

  function Traded(moves: seq<Move>): nat {
    if moves == [] then 0
    else
      var last := moves[|moves| - 1];
      Traded(moves[..|moves| - 1]) + (if last.Logged? && last.event.Trade? then 1 else 0)
  }

  function StoredCount(d: Day): nat {
    match d.stored
    case None => 0
    case Some(row) => row.trades
  }

  // What a restart forgets: the trades since the last write.
  function Unsaved(d: Day): int {
    d.engine.tradesToday - StoredCount(d)
  }

  function Forgotten(c: Risk.Config, capital: real, dawn: Day, moves: seq<Move>): int {
    if moves == [] then 0
    else
      var front := moves[..|moves| - 1];
      Forgotten(c, capital, dawn, front) + (if moves[|moves| - 1].Restarted? then Unsaved(Lived(c, capital, dawn, front)) else 0)
  }

  // Restarts that came between a trade and the write of its tick.
  function Losses(c: Risk.Config, capital: real, dawn: Day, moves: seq<Move>): nat {
    if moves == [] then 0
    else
      var front := moves[..|moves| - 1];
      Losses(c, capital, dawn, front)
      + (if moves[|moves| - 1].Restarted? && Unsaved(Lived(c, capital, dawn, front)) != 0 then 1 else 0)
  }

  // n whole daily limits.
  function Limits(max: nat, n: nat): nat {
    max * n
  }

  lemma LimitsGrow(max: nat, n: nat)
    ensures Limits(max, n + 1) == Limits(max, n) + max && Limits(max, 0) == 0
  {
  }

  // One move: the store never holds more than memory, nor memory more than the limit.
  lemma MoveCounts(c: Risk.Config, capital: real, d: Day, m: Move)
    requires Proper(c, d, m) && StoredCount(d) <= d.engine.tradesToday <= c.maxTradesPerDay
    ensures var next := After(c, capital, d, m);
      && StoredCount(next) <= next.engine.tradesToday <= c.maxTradesPerDay
      && next.engine.tradesToday == d.engine.tradesToday
           + (if m.Logged? && m.event.Trade? then 1 else 0) - (if m.Restarted? then Unsaved(d) else 0)
  {
  }

  // The count in memory is the day's trades less the forgotten ones, and each loss forgets
  // at most a whole limit.
  lemma {:induction false} TradesAreRememberedOrForgotten(c: Risk.Config, capital: real, dawn: Day, moves: seq<Move>)
    requires Dawn(dawn) && Disciplined(c, capital, dawn, moves)
    ensures var d, forgotten := Lived(c, capital, dawn, moves), Forgotten(c, capital, dawn, moves);
      && Traded(moves) == d.engine.tradesToday + forgotten
      && StoredCount(d) <= d.engine.tradesToday <= c.maxTradesPerDay
      && Losses(c, capital, dawn, moves) <= forgotten <= Limits(c.maxTradesPerDay, Losses(c, capital, dawn, moves))
  {
    if moves == [] {
      LimitsGrow(c.maxTradesPerDay, 0);
    } else {
      var front, last := moves[..|moves| - 1], moves[|moves| - 1];
      TradesAreRememberedOrForgotten(c, capital, dawn, front);
      MoveCounts(c, capital, Lived(c, capital, dawn, front), last);
      LimitsGrow(c.maxTradesPerDay, Losses(c, capital, dawn, front));
      hide Limits, Proper, After;
    }
  }

  // With k losses the day's trades are at most k + 1 times the limit; with none it holds.
  lemma LimitOverRestarts(c: Risk.Config, capital: real, dawn: Day, moves: seq<Move>)
    requires Dawn(dawn) && Disciplined(c, capital, dawn, moves)
    ensures Traded(moves) <= Limits(c.maxTradesPerDay, Losses(c, capital, dawn, moves) + 1)
    ensures Traded(moves) > c.maxTradesPerDay ==> Losses(c, capital, dawn, moves) > 0
  {
    TradesAreRememberedOrForgotten(c, capital, dawn, moves);
    LimitsGrow(c.maxTradesPerDay, Losses(c, capital, dawn, moves));
    LimitsGrow(c.maxTradesPerDay, 0);
    hide Limits, Losses, Lived, Traded, Forgotten, Disciplined;
  }

  // A restart right after a write forgets nothing of the window, and everything else
  // starts over; without a row of the day it starts a window of its own.
  lemma CleanRestartKeepsTheWindow(c: Risk.Config, capital: real, d: Day, latched: bool)
    ensures var again := After(c, capital, After(c, capital, d, Persisted), Restarted(latched)).engine;
      && again.tradesToday == d.engine.tradesToday && again.dayStart == d.engine.dayStart
      && again.tripped == latched && again.exposure == 0.0 && again.open == 0 && again.failures == 0
      && again.equity == capital && again.cooldownUntil.None?
    ensures d.stored.None? ==>
      var first := After(c, capital, d, Restarted(latched)).engine;
      first.tradesToday == 0 && first.dayStart == capital && first.tripped == latched
  {
  }

  // ---------- the bound is reached ----------

  // Nothing but the daily limit is in the way.
  function Generous(max: u32): Risk.Config {
    Risk.Config(max as real + 2.0, U64_MAX, 100.0, 100.0, 100.0, 100.0, 100.0, 0, 0, max, 0)
  }

  const CAPITAL := 100.0

  function FirstDay(max: u32): Day {
    Day(Risk.Fresh(Generous(max), CAPITAL), None)
  }

  // After n trades of one dollar in a process that started with nothing on record.
  function Busy(max: u32, n: u32): Day {
    Day(Risk.Fresh(Generous(max), CAPITAL).(tradesToday := n, exposure := n as real, open := n), None)
  }

  lemma OneMoreMove(c: Risk.Config, capital: real, dawn: Day, moves: seq<Move>, m: Move)
    requires Disciplined(c, capital, dawn, moves) && Proper(c, Lived(c, capital, dawn, moves), m)
    ensures var longer, d := moves + [m], Lived(c, capital, dawn, moves);
      && Disciplined(c, capital, dawn, longer) && Lived(c, capital, dawn, longer) == After(c, capital, d, m)
      && Traded(longer) == Traded(moves) + (if m.Logged? && m.event.Trade? then 1 else 0)
      && Losses(c, capital, dawn, longer) == Losses(c, capital, dawn, moves) + (if m.Restarted? && Unsaved(d) != 0 then 1 else 0)
  {
    assert (moves + [m])[..|moves|] == moves;
  }

  lemma BusyIsAuthorised(max: u32, n: u32)
    requires n < max
    ensures Risk.Authorised(Generous(max), Busy(max, n).engine, 1.0)
    ensures After(Generous(max), CAPITAL, Busy(max, n), Logged(Risk.Trade(1.0))) == Busy(max, n + 1)
  {
    assert Risk.Authorize(Generous(max), Busy(max, n).engine, 1.0, CAPITAL, 0, 0, 0).None?;
  }

  lemma {:induction false} TradeToTheLimit(max: u32, n: u32, moves: seq<Move>) returns (longer: seq<Move>)
    requires n <= max && Disciplined(Generous(max), CAPITAL, FirstDay(max), moves)
    requires Lived(Generous(max), CAPITAL, FirstDay(max), moves) == Busy(max, n)
    ensures Disciplined(Generous(max), CAPITAL, FirstDay(max), longer)
    ensures Lived(Generous(max), CAPITAL, FirstDay(max), longer) == Busy(max, max)
    ensures Traded(longer) == Traded(moves) + max - n
    ensures Losses(Generous(max), CAPITAL, FirstDay(max), longer) == Losses(Generous(max), CAPITAL, FirstDay(max), moves)
    decreases max - n
  {
    longer := moves;
    if n < max {
      BusyIsAuthorised(max, n);
      OneMoreMove(Generous(max), CAPITAL, FirstDay(max), moves, Logged(Risk.Trade(1.0)));
      longer := TradeToTheLimit(max, n + 1, moves + [Logged(Risk.Trade(1.0))]);
    }
  }

  // For every limit and every number of losses there is a day that trades k + 1 limits.
  lemma {:induction false} EveryLossAllowsAnotherLimit(max: u32, k: nat) returns (moves: seq<Move>)
    requires max > 0
    ensures var c := Generous(max);
      && Dawn(FirstDay(max)) && c.maxTradesPerDay == max && Disciplined(c, CAPITAL, FirstDay(max), moves)
      && Losses(c, CAPITAL, FirstDay(max), moves) == k && Traded(moves) == Limits(max, k + 1)
      && Lived(c, CAPITAL, FirstDay(max), moves) == Busy(max, max)
  {
    LimitsGrow(max, k);
    hide Limits;
    if k == 0 {
      LimitsGrow(max, 0);
      moves := TradeToTheLimit(max, 0, []);
    } else {
      var before := EveryLossAllowsAnotherLimit(max, k - 1);
      OneMoreMove(Generous(max), CAPITAL, FirstDay(max), before, Restarted(false));
      moves := TradeToTheLimit(max, 0, before + [Restarted(false)]);
    }
  }
}
