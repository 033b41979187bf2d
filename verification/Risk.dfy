// src/risk.rs: the latching kill switch and the entry gate, as objects updated in
// place.  Every update is also logged in a ghost trace, and the theorems below say
// what the fields mean in terms of that trace alone.
module Risk {
  import opened Wrappers

  datatype Config = Config(
    maxLiveCapital: real,
    maxConcurrent: u64,
    maxPctOfEquity: real,
    maxPctOfLiquidity: real,
    riskPerTradePct: real,
    maxDailyLossPct: real,
    maxDrawdownPct: real,
    cooldownMinutes: int,
    maxSlippageBps: u32,
    maxTradesPerDay: u32,
    maxFailures: u32)

  datatype State = State(
    equity: real,
    dayStart: real,
    exposure: real,
    open: u64,
    tradesToday: u32,
    cooldownUntil: Option<int>,
    failures: u32,
    tripped: bool)

  datatype Event =
    | Equity(usd: real)
    | ForceTrip
    | Failure
    | Success
    | Trade(usd: real)
    | Exit(usd: real)
    | SetExposure(usd: real)
    | SetOpen(count: u64)
    | NewDay
    | Cooldown(now: int)

  datatype Refusal =
    | KillSwitchLatched | NonPositiveSize | LiquidityUnknown | ConcurrentLimit | DailyTradeLimit
    | SizeLimit | ExposureLimit | SlippageLimit | ImpactLimit | CooldownActive | DailyLossLimit

  function Fresh(c: Config, equity: real): State {
    State(equity, equity, 0.0, 0, 0, None, 0, false)
  }

  function Threshold(start: real, maxDrawdownPct: real): real {
    start * (1.0 - maxDrawdownPct / 100.0)
  }

  // One call on the engine; `start` is the equity it was built with.
  function After(c: Config, start: real, s: State, e: Event): State {
    match e
    case Equity(usd) => s.(equity := usd, tripped := s.tripped || usd <= Threshold(start, c.maxDrawdownPct))
    case ForceTrip => s.(tripped := true)
    case Failure =>
      var n := if s.failures < U32_MAX then s.failures + 1 else U32_MAX;
      s.(failures := n, tripped := s.tripped || n >= c.maxFailures)
    case Success => s.(failures := 0)
    case Trade(usd) =>
      s.(tradesToday := if s.tradesToday < U32_MAX then s.tradesToday + 1 else U32_MAX,
         exposure := s.exposure + usd,
         open := if s.open < U64_MAX then s.open + 1 else U64_MAX)
    case Exit(usd) =>
      s.(open := if s.open > 0 then s.open - 1 else 0,
         exposure := if s.exposure - usd >= 0.0 then s.exposure - usd else 0.0)
    case SetExposure(usd) => s.(exposure := usd)
    case SetOpen(count) => s.(open := count)
    case NewDay => s.(dayStart := s.equity, tradesToday := 0)
    case Cooldown(now) => s.(cooldownUntil := Some(now + c.cooldownMinutes))
  }

  function Replay(c: Config, start: real, trace: seq<Event>): State {
    if trace == [] then Fresh(c, start)
    else After(c, start, Replay(c, start, trace[..|trace| - 1]), trace[|trace| - 1])
  }

  // `authorize`: the first failing check, in the order of the source.
  function Authorize(c: Config, s: State, position: real, liquidity: real, slippageBps: u32, impactBps: u32, now: int)
      : Option<Refusal>
  {
    if s.tripped then Some(KillSwitchLatched)
    else if position <= 0.0 then Some(NonPositiveSize)
    else if liquidity <= 0.0 then Some(LiquidityUnknown)
    else if s.open >= c.maxConcurrent then Some(ConcurrentLimit)
    else if s.tradesToday >= c.maxTradesPerDay then Some(DailyTradeLimit)
    else if position > s.equity * c.maxPctOfEquity / 100.0 || position > liquidity * c.maxPctOfLiquidity / 100.0 then Some(SizeLimit)
    else if s.exposure + position >= c.maxLiveCapital then Some(ExposureLimit)
    else if slippageBps > c.maxSlippageBps then Some(SlippageLimit)
    else if impactBps > c.maxSlippageBps then Some(ImpactLimit)
    else if s.cooldownUntil.Some? && now < s.cooldownUntil.value then Some(CooldownActive)
    else if s.dayStart > 0.0 && (s.dayStart - s.equity) / s.dayStart * 100.0 >= c.maxDailyLossPct then Some(DailyLossLimit)
    else None
  }

  // `max_position_usd` and `validate_position_size`.
  function MaxPosition(c: Config, s: State, stopLossPct: real): Option<real> {
    if stopLossPct <= 0.0 then None else Some(s.equity * c.riskPerTradePct / stopLossPct)
  }

  predicate SizeIsValid(c: Config, s: State, position: real, stopLossPct: real) {
    MaxPosition(c, s, stopLossPct).Some? && position <= MaxPosition(c, s, stopLossPct).value
  }

  // What a position must meet to be let in, each limit on its own and without divisions.
  predicate Admissible(c: Config, s: State, usd: real, liquidity: real, slippageBps: u32, impactBps: u32, now: int, stopLossPct: real) {
    && !s.tripped && usd > 0.0 && liquidity > 0.0
    && s.open < c.maxConcurrent && s.tradesToday < c.maxTradesPerDay
    && 100.0 * usd <= s.equity * c.maxPctOfEquity && 100.0 * usd <= liquidity * c.maxPctOfLiquidity
    && s.exposure + usd < c.maxLiveCapital
    && slippageBps <= c.maxSlippageBps && impactBps <= c.maxSlippageBps
    && (s.cooldownUntil.Some? ==> s.cooldownUntil.value <= now)
    && (s.dayStart > 0.0 ==> 100.0 * (s.dayStart - s.equity) < c.maxDailyLossPct * s.dayStart)
    && stopLossPct > 0.0 && usd * stopLossPct <= s.equity * c.riskPerTradePct
  }

  lemma LossBelow(start: real, equity: real, limit: real)
    requires start > 0.0
    ensures (start - equity) / start * 100.0 < limit <==> 100.0 * (start - equity) < limit * start
  {
    var q := (start - equity) / start;
    assert q * start == start - equity;
    assert (limit - q * 100.0) * start == limit * start - 100.0 * (q * start);
    SignOfProduct(limit - q * 100.0, start);
  }

  // The checks in their order let in exactly the admissible positions.
  lemma AdmittedIff(c: Config, s: State, usd: real, liquidity: real, slippageBps: u32, impactBps: u32, now: int, stopLossPct: real)
    ensures Authorize(c, s, usd, liquidity, slippageBps, impactBps, now).None? && SizeIsValid(c, s, usd, stopLossPct)
      <==> Admissible(c, s, usd, liquidity, slippageBps, impactBps, now, stopLossPct)
  {
    if s.dayStart > 0.0 {
      LossBelow(s.dayStart, s.equity, c.maxDailyLossPct);
    }
    if stopLossPct > 0.0 {
      TimesMonotone(usd, s.equity * c.riskPerTradePct, stopLossPct);
    }
  }

  class KillSwitch {
    const start: real
    const maxDrawdownPct: real
    var tripped: bool

    constructor (start: real, maxDrawdownPct: real)
      ensures this.start == start && this.maxDrawdownPct == maxDrawdownPct && !tripped
    {
      this.start, this.maxDrawdownPct, this.tripped := start, maxDrawdownPct, false;
    }

    method ObserveEquity(equity: real)
      modifies this
      ensures tripped <==> old(tripped) || equity <= Threshold(start, maxDrawdownPct)
    {
      if equity <= start * (1.0 - maxDrawdownPct / 100.0) {
        tripped := true;
      }
    }

    method Trip()
      modifies this
      ensures tripped
    {
      tripped := true;
    }
  }

  class RiskEngine {
    const config: Config
    const killSwitch: KillSwitch
    var equity: real
    var dayStart: real
    var exposure: real
    var open: u64
    var tradesToday: u32
    var cooldownUntil: Option<int>
    var failures: u32
    ghost var trace: seq<Event>

    ghost function Snapshot(): State
      reads this, killSwitch
    {
      State(equity, dayStart, exposure, open, tradesToday, cooldownUntil, failures, killSwitch.tripped)
    }

    ghost predicate Valid()
      reads this, killSwitch
    {
      && killSwitch.maxDrawdownPct == config.maxDrawdownPct
      && Snapshot() == Replay(config, killSwitch.start, trace)
    }

    constructor (config: Config, equity: real)
      ensures Valid() && fresh(killSwitch) && trace == []
      ensures this.config == config && killSwitch.start == equity
    {
      this.config := config;
      this.killSwitch := new KillSwitch(equity, config.maxDrawdownPct);
      this.equity, this.dayStart, this.exposure := equity, equity, 0.0;
      this.open, this.tradesToday, this.cooldownUntil, this.failures := 0, 0, None, 0;
      this.trace := [];
    }

    // `authorize` and `validate_position_size` only read.
    method Refuses(position: real, liquidity: real, slippageBps: u32, impactBps: u32, now: int, stopLossPct: real)
      returns (refused: bool)
      requires Valid()
      ensures !refused <==> Admissible(config, Snapshot(), position, liquidity, slippageBps, impactBps, now, stopLossPct)
      ensures !refused ==> Authorised(config, Snapshot(), position)
    {
      var s := State(equity, dayStart, exposure, open, tradesToday, cooldownUntil, failures, killSwitch.tripped);
      AdmittedIff(config, s, position, liquidity, slippageBps, impactBps, now, stopLossPct);
      hide Admissible, Replay;
      refused := Authorize(config, s, position, liquidity, slippageBps, impactBps, now).Some?
        || !SizeIsValid(config, s, position, stopLossPct);
    }

    // What every update promises: the log grows by its event and still explains the fields.
    twostate predicate Logged(e: Event)
      reads this, killSwitch
    {
      trace == old(trace) + [e] && Valid()
    }

    method ObserveEquity(usd: real)
      requires Valid()
      modifies this, killSwitch
      ensures Logged(Equity(usd))
      ensures equity == usd
      ensures killSwitch.tripped <==> old(killSwitch.tripped) || usd <= Threshold(killSwitch.start, config.maxDrawdownPct)
    {
      AppendEvent(config, killSwitch.start, trace, Equity(usd));
      hide Replay;
      equity := usd;
      killSwitch.ObserveEquity(usd);
      trace := trace + [Equity(usd)];
    }

    method Trip()
      requires Valid()
      modifies this, killSwitch
      ensures Logged(ForceTrip) && killSwitch.tripped && equity == old(equity)
    {
      AppendEvent(config, killSwitch.start, trace, ForceTrip);
      hide Replay;
      killSwitch.Trip();
      trace := trace + [ForceTrip];
    }

    method SetTotalExposure(usd: real)
      requires Valid()
      modifies this`exposure, this`trace
      ensures Logged(SetExposure(usd)) && exposure == usd
    {
      AppendEvent(config, killSwitch.start, trace, SetExposure(usd));
      hide Replay;
      exposure := usd;
      trace := trace + [SetExposure(usd)];
    }

    method SetOpenPositions(count: u64)
      requires Valid()
      modifies this`open, this`trace
      ensures Logged(SetOpen(count)) && open == count
    {
      AppendEvent(config, killSwitch.start, trace, SetOpen(count));
      hide Replay;
      open := count;
      trace := trace + [SetOpen(count)];
    }

    method RegisterTrade(usd: real)
      requires Valid()
      modifies this
      ensures Logged(Trade(usd)) && exposure == old(exposure) + usd
    {
      AppendEvent(config, killSwitch.start, trace, Trade(usd));
      hide Replay;
      if tradesToday < U32_MAX {
        tradesToday := tradesToday + 1;
      }
      exposure := exposure + usd;
      if open < U64_MAX {
        open := open + 1;
      }
      trace := trace + [Trade(usd)];
    }

    method RegisterExit(usd: real)
      requires Valid()
      modifies this
      ensures Logged(Exit(usd)) && exposure >= 0.0
    {
      AppendEvent(config, killSwitch.start, trace, Exit(usd));
      hide Replay;
      if open > 0 {
        open := open - 1;
      }
      exposure := exposure - usd;
      if exposure < 0.0 {
        exposure := 0.0;
      }
      trace := trace + [Exit(usd)];
    }

    method RecordSuccess()
      requires Valid()
      modifies this
      ensures Logged(Success) && failures == 0 && killSwitch.tripped == old(killSwitch.tripped)
    {
      AppendEvent(config, killSwitch.start, trace, Success);
      hide Replay;
      failures := 0;
      trace := trace + [Success];
    }

    // Answers whether this failure is one the latch trips on.
    method RecordFailure() returns (trips: bool)
      requires Valid()
      modifies this, killSwitch
      ensures Logged(Failure)
      ensures trips <==> Streak(trace) >= config.maxFailures
      ensures trips ==> killSwitch.tripped
    {
      AppendEvent(config, killSwitch.start, trace, Failure);
      hide Replay;
      StreakIsCounted(config, killSwitch.start, trace + [Failure]);
      if failures < U32_MAX {
        failures := failures + 1;
      }
      trips := failures >= config.maxFailures;
      if trips {
        killSwitch.Trip();
      }
      trace := trace + [Failure];
    }

    // The daily window reset at the top of the session tick.
    method StartDay()
      requires Valid()
      modifies this
      ensures Logged(NewDay) && tradesToday == 0 && dayStart == equity
    {
      AppendEvent(config, killSwitch.start, trace, NewDay);
      hide Replay;
      dayStart, tradesToday := equity, 0;
      trace := trace + [NewDay];
    }

    method ApplyLossCooldown(now: int)
      requires Valid()
      modifies this
      ensures Logged(Cooldown(now))
    {
      AppendEvent(config, killSwitch.start, trace, Cooldown(now));
      hide Replay;
      cooldownUntil := Some(now + config.cooldownMinutes);
      trace := trace + [Cooldown(now)];
    }
  }

  lemma AppendEvent(c: Config, start: real, trace: seq<Event>, e: Event)
    ensures Replay(c, start, trace + [e]) == After(c, start, Replay(c, start, trace), e)
  {
    assert (trace + [e])[..|trace|] == trace;
  }

  // ---------- what the latch means ----------

  // Failures since the last success.
  function Streak(trace: seq<Event>): nat {
    if trace == [] then 0
    else
      var last := trace[|trace| - 1];
      if last.Success? then 0
      else Streak(trace[..|trace| - 1]) + (if last.Failure? then 1 else 0)
  }

  function CountFailures(trace: seq<Event>): nat {
    if trace == [] then 0
    else CountFailures(trace[..|trace| - 1]) + (if trace[|trace| - 1].Failure? then 1 else 0)
  }

  // A stretch of the trace without a success that holds at least n failures.
  ghost predicate FailingStretch(trace: seq<Event>, i: nat, j: nat, n: nat) {
    i <= j <= |trace| && Success !in trace[i..j] && CountFailures(trace[i..j]) >= n
  }

  lemma {:induction false} StreakIsCounted(c: Config, start: real, trace: seq<Event>)
    ensures Replay(c, start, trace).failures == Min(Streak(trace), U32_MAX)
  {
    if trace != [] {
      StreakIsCounted(c, start, trace[..|trace| - 1]);
    }
  }

  // A suffix of the longer log is the suffix of the shorter one and the new event.
  lemma SuffixGrows(front: seq<Event>, e: Event, i: nat)
    requires i <= |front|
    ensures (front + [e])[i..] == front[i..] + [e]
    ensures CountFailures((front + [e])[i..]) == CountFailures(front[i..]) + (if e.Failure? then 1 else 0)
    ensures Success !in (front + [e])[i..] <==> Success !in front[i..] && !e.Success?
  {
    var suffix := front[i..];
    assert (front + [e])[i..] == suffix + [e];
    assert (suffix + [e])[..|suffix|] == suffix;
  }

  // The streak is realised by a stretch ending at the end, and bounds every such stretch.
  lemma {:induction false} StreakStretch(trace: seq<Event>) returns (i: nat)
    ensures FailingStretch(trace, i, |trace|, Streak(trace))
  {
    if trace == [] || trace[|trace| - 1].Success? {
      i := |trace|;
      assert trace[i..] == [];
    } else {
      var front, e := trace[..|trace| - 1], trace[|trace| - 1];
      assert trace == front + [e];
      i := StreakStretch(front);
      assert front[i..|front|] == front[i..] && trace[i..|trace|] == trace[i..];
      SuffixGrows(front, e, i);
    }
  }

  lemma {:induction false} StretchWithinStreak(trace: seq<Event>, i: nat)
    requires i <= |trace| && Success !in trace[i..]
    ensures CountFailures(trace[i..]) <= Streak(trace)
  {
    if i < |trace| {
      var front, e := trace[..|trace| - 1], trace[|trace| - 1];
      assert trace == front + [e];
      SuffixGrows(front, e, i);
      StretchWithinStreak(front, i);
    } else {
      assert trace[i..] == [];
    }
  }

  // Zero allowed failures still needs one failure to trip.
  function TripCount(c: Config): nat {
    if c.maxFailures == 0 then 1 else c.maxFailures
  }

  ghost predicate TripCause(c: Config, start: real, trace: seq<Event>) {
    || ForceTrip in trace
    || (exists k :: 0 <= k < |trace| && trace[k].Equity? && trace[k].usd <= Threshold(start, c.maxDrawdownPct))
    || (exists i: nat, j: nat :: FailingStretch(trace, i, j, TripCount(c)))
  }

  lemma {:induction false} CauseGrows(c: Config, start: real, trace: seq<Event>, e: Event)
    requires TripCause(c, start, trace)
    ensures TripCause(c, start, trace + [e])
  {
    var longer := trace + [e];
    var n := TripCount(c);
    if k :| 0 <= k < |trace| && trace[k].Equity? && trace[k].usd <= Threshold(start, c.maxDrawdownPct) {
      assert longer[k] == trace[k];
    } else if i: nat, j: nat :| FailingStretch(trace, i, j, n) {
      assert longer[i..j] == trace[i..j];
      assert FailingStretch(longer, i, j, n);
    }
  }

  // The latch is set exactly when the log shows a forced trip, an equity at or below
  // the drawdown threshold, or enough failures with no success between them.
  lemma {:induction false} TrippedIff(c: Config, start: real, trace: seq<Event>)
    ensures Replay(c, start, trace).tripped <==> TripCause(c, start, trace)
  {
    if trace != [] {
      var front, e := trace[..|trace| - 1], trace[|trace| - 1];
      assert trace == front + [e];
      TrippedIff(c, start, front);
      StreakIsCounted(c, start, trace);
      if TripCause(c, start, front) {
        CauseGrows(c, start, front, e);
      }
      NewCause(c, start, front, e);
    }
  }

  // The last event is the cause, or the cause was there before it.
  lemma NewCause(c: Config, start: real, front: seq<Event>, e: Event)
    ensures TripCause(c, start, front + [e]) <==>
      || TripCause(c, start, front) || e.ForceTrip? || (e.Equity? && e.usd <= Threshold(start, c.maxDrawdownPct))
      || (e.Failure? && Streak(front + [e]) >= c.maxFailures)
  {
    var trace := front + [e];
    var n := TripCount(c);
    if TripCause(c, start, front) {
      CauseGrows(c, start, front, e);
    }
    assert trace[|front|] == e && trace[..|front|] == front;
    if e.Failure? && Streak(trace) >= c.maxFailures {
      var i := StreakStretch(trace);
      assert FailingStretch(trace, i, |trace|, n);
    }
    forall i: nat, j: nat | FailingStretch(trace, i, j, n)
      ensures TripCause(c, start, front) || (e.Failure? && Streak(trace) >= c.maxFailures)
    {
      StretchIsOldOrEndsHere(front, e, i, j, n);
    }
  }

  // A failing stretch lay in the shorter log already, or ends with a failure now.
  lemma StretchIsOldOrEndsHere(front: seq<Event>, e: Event, i: nat, j: nat, n: nat)
    requires FailingStretch(front + [e], i, j, n) && n > 0
    ensures (exists k: nat, l: nat :: FailingStretch(front, k, l, n)) || (e.Failure? && Streak(front + [e]) >= n)
  {
    var trace := front + [e];
    if j <= |front| {
      assert trace[i..j] == front[i..j];
      assert FailingStretch(front, i, j, n);
    } else {
      assert trace[i..j] == trace[i..];
      if e.Failure? {
        StretchWithinStreak(trace, i);
      } else if i <= |front| {
        SuffixGrows(front, e, i);
        assert front[i..|front|] == front[i..];
        assert FailingStretch(front, i, |front|, n);
      }
    }
  }

  // ---------- the loss cooldown ----------

  predicate Uncooled(trace: seq<Event>) {
    forall k :: 0 <= k < |trace| ==> !trace[k].Cooldown?
  }

  // The last cooldown asked for is at k.
  predicate LastCooldown(trace: seq<Event>, k: nat) {
    k < |trace| && trace[k].Cooldown? && Uncooled(trace[k + 1..])
  }

  // The deadline is set exactly when somebody asked for a cooldown, and is the last one asked for.
  lemma {:induction false} CooldownIsTheLastAskedFor(c: Config, start: real, trace: seq<Event>)
    ensures var until := Replay(c, start, trace).cooldownUntil;
      && (until.None? <==> Uncooled(trace))
      && (until.Some? ==> exists k: nat :: LastCooldown(trace, k) && until.value == trace[k].now + c.cooldownMinutes)
  {
    if trace != [] {
      var n := |trace| - 1;
      var front := trace[..n];
      CooldownIsTheLastAskedFor(c, start, front);
      var until := Replay(c, start, trace).cooldownUntil;
      if trace[n].Cooldown? {
        assert LastCooldown(trace, n);
      } else if until.Some? {
        var k: nat :| LastCooldown(front, k) && until.value == front[k].now + c.cooldownMinutes;
        assert trace[k + 1..] == front[k + 1..] + [trace[n]];
        assert LastCooldown(trace, k);
      }
    }
  }

  // ---------- what authorisation buys ----------

  ghost predicate Authorised(c: Config, s: State, usd: real) {
    exists liquidity, slippage, impact, now :: Authorize(c, s, usd, liquidity, slippage, impact, now).None?
  }

  // Every registered trade was authorised, at its size, in the state it was registered in.
  ghost predicate Disciplined(c: Config, start: real, trace: seq<Event>) {
    forall k :: 0 <= k < |trace| && trace[k].Trade? ==> Authorised(c, Replay(c, start, trace[..k]), trace[k].usd)
  }

  lemma DisciplineGrows(c: Config, start: real, trace: seq<Event>, e: Event)
    requires Disciplined(c, start, trace)
    requires e.Trade? ==> Authorised(c, Replay(c, start, trace), e.usd)
    ensures Disciplined(c, start, trace + [e])
  {
    var longer := trace + [e];
    forall k | 0 <= k < |longer| && longer[k].Trade? ensures Authorised(c, Replay(c, start, longer[..k]), longer[k].usd) {
      if k < |trace| {
        assert longer[..k] == trace[..k];
      } else {
        assert longer[..k] == trace;
      }
    }
  }

  // Limits over a day: the count never passes its limit, and no trade follows a trip.
  lemma {:induction false} TradesStayWithinTheDay(c: Config, start: real, trace: seq<Event>)
    requires Disciplined(c, start, trace)
    ensures Replay(c, start, trace).tradesToday <= c.maxTradesPerDay
    ensures forall k :: 0 <= k < |trace| && trace[k].Trade? ==> !TripCause(c, start, trace[..k])
  {
    if trace != [] {
      var n := |trace| - 1;
      var front := trace[..n];
      assert forall k :: 0 <= k <= n ==> front[..k] == trace[..k];
      TradesStayWithinTheDay(c, start, front);
      TrippedIff(c, start, front);
      if trace[n].Trade? {
        assert Authorised(c, Replay(c, start, trace[..n]), trace[n].usd);
      }
    }
  }

  // A marking of the portfolio that alone explains an amount: nothing traded since.
  ghost predicate MarkedAt(trace: seq<Event>, k: nat, usd: real) {
    && k < |trace| && trace[k].SetExposure? && trace[k].usd >= usd
    && forall i :: k < i < |trace| ==> !trace[i].Trade?
  }

  ghost predicate OpenSetAt(trace: seq<Event>, k: nat, open: nat) {
    && k < |trace| && trace[k].SetOpen? && trace[k].count >= open
    && forall i :: k < i < |trace| ==> !trace[i].Trade?
  }

  // Exposure reaches the cap, and open positions pass their limit, only when the
  // portfolio itself was marked there; trading never takes them there.
  lemma {:induction false} LimitsPassedOnlyByMarking(c: Config, start: real, trace: seq<Event>)
    requires Disciplined(c, start, trace) && c.maxLiveCapital > 0.0
    requires forall k :: 0 <= k < |trace| && trace[k].Exit? ==> trace[k].usd >= 0.0
    ensures var s := Replay(c, start, trace);
      && (s.exposure >= c.maxLiveCapital ==> exists k: nat :: MarkedAt(trace, k, s.exposure))
      && (s.open > c.maxConcurrent ==> exists k: nat :: OpenSetAt(trace, k, s.open))
  {
    if trace != [] {
      var n := |trace| - 1;
      var front := trace[..n];
      var s, t := Replay(c, start, front), Replay(c, start, trace);
      assert forall k :: 0 <= k <= n ==> front[..k] == trace[..k];
      LimitsPassedOnlyByMarking(c, start, front);
      if trace[n].Trade? {
        assert Authorised(c, Replay(c, start, trace[..n]), trace[n].usd);
      }
      if trace[n].SetExposure? {
        assert MarkedAt(trace, n, t.exposure);
      } else if t.exposure >= c.maxLiveCapital {
        var k: nat :| MarkedAt(front, k, s.exposure);
        assert trace[k] == front[k];
        assert MarkedAt(trace, k, t.exposure);
      }
      if trace[n].SetOpen? {
        assert OpenSetAt(trace, n, t.open);
      } else if t.open > c.maxConcurrent {
        var k: nat :| OpenSetAt(front, k, s.open);
        assert trace[k] == front[k];
        assert OpenSetAt(trace, k, t.open);
      }
    }
  }

  // Right after any authorised trade all the limits hold at once, and the trade itself was
  // within its share of the equity.
  lemma AuthorisedTradeFits(c: Config, start: real, trace: seq<Event>, usd: real)
    requires Authorised(c, Replay(c, start, trace), usd)
    ensures var s := Replay(c, start, trace + [Trade(usd)]);
      && s.exposure < c.maxLiveCapital && s.open <= c.maxConcurrent && s.tradesToday <= c.maxTradesPerDay && !s.tripped
      && 0.0 < usd && 100.0 * usd <= s.equity * c.maxPctOfEquity
      && s.tradesToday == Replay(c, start, trace).tradesToday + 1 && s.open == Replay(c, start, trace).open + 1
      && s.exposure == Replay(c, start, trace).exposure + usd
      && (s.dayStart > 0.0 ==> (s.dayStart - s.equity) / s.dayStart * 100.0 < c.maxDailyLossPct)
  {
    AppendEvent(c, start, trace, Trade(usd));
  }

  // The sizing rule is the planned-loss rule its documentation gives.
  lemma SizeIsValidIff(c: Config, s: State, position: real, stopLossPct: real)
    ensures SizeIsValid(c, s, position, stopLossPct) <==>
      stopLossPct > 0.0 && position * stopLossPct / 100.0 <= s.equity * c.riskPerTradePct / 100.0
  {
    if stopLossPct > 0.0 {
      TimesMonotone(position, s.equity * c.riskPerTradePct, stopLossPct);
    }
  }

  lemma TimesMonotone(x: real, n: real, d: real)
    requires d > 0.0
    ensures x <= n / d <==> x * d <= n
  {
    var q := n / d;
    assert q * d == n;
    if x <= q {
      assert (q - x) * d >= 0.0;
    } else {
      assert (x - q) * d > 0.0;
    }
  }
}
