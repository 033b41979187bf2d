// The interlocks of the session tick and the entry loop of process_entries
// (src/runtime.rs), over the store and the risk engine together.
module Tick {
  import opened Wrappers
  import opened Orders
  import opened ExitKeys
  import opened Portfolio
  import opened Lifecycle
  import opened Invariants
  import opened Runs
  import opened StepEffects
  import opened Runtime
  import Risk

  // A candidate with everything decided outside: whether the signal was accepted and
  // quoted, the size, the market inputs of the risk check, and the ids made for it.
  datatype Candidate = Candidate(
    mint: Mint,
    openHere: bool,
    accepted: bool,
    quoted: bool,
    openCount: u64,
    usd: real,
    amount: u64,
    liquidity: real,
    slippageBps: u32,
    impactBps: u32,
    now: int,
    signalId: Bytes,
    positionId: Bytes,
    terms: EntryTerms,
    minOutput: u64,
    world: EntryWorld)

  ghost predicate FreshIds(ids: set<Bytes>, c: Candidate) {
    && |c.signalId| == |c.positionId| == UUID_LENGTH && c.signalId != c.positionId
    && c.signalId !in ids && c.positionId !in ids
  }

  ghost predicate AllFresh(ids: set<Bytes>, cs: seq<Candidate>) {
    && (forall i :: 0 <= i < |cs| ==> FreshIds(ids, cs[i]))
    && forall i, j :: 0 <= i < j < |cs| ==> {cs[i].signalId, cs[i].positionId} !! {cs[j].signalId, cs[j].positionId}
  }

  function CountTrades(trace: seq<Risk.Event>): nat {
    if trace == [] then 0 else CountTrades(trace[..|trace| - 1]) + (if trace[|trace| - 1].Trade? then 1 else 0)
  }

  lemma CountOneMore(trace: seq<Risk.Event>, e: Risk.Event)
    ensures CountTrades(trace + [e]) == CountTrades(trace) + (if e.Trade? then 1 else 0)
  {
    assert (trace + [e])[..|trace|] == trace;
  }

  // Both objects consistent, every registered trade authorised, and as many trades
  // registered as fills posted beyond a fixed starting point.
  ghost predicate Sound(session: Session, risk: Risk.RiskEngine, base: int)
    reads session, risk, risk.killSwitch
  {
    && session.Valid() && risk.Valid()
    && Risk.Disciplined(risk.config, risk.killSwitch.start, risk.trace)
    && |session.fills| - CountTrades(risk.trace) == base
  }

  // Logging an event that is no trade, or an authorised one.
  lemma Logged(c: Risk.Config, start: real, trace: seq<Risk.Event>, e: Risk.Event)
    requires Risk.Disciplined(c, start, trace) && (e.Trade? ==> Risk.Authorised(c, Risk.Replay(c, start, trace), e.usd))
    ensures Risk.Disciplined(c, start, trace + [e]) && CountTrades(trace + [e]) == CountTrades(trace) + (if e.Trade? then 1 else 0)
    ensures Risk.Uncooled(trace) && !e.Cooldown? ==> Risk.Uncooled(trace + [e])
  {
    Risk.DisciplineGrows(c, start, trace, e);
    CountOneMore(trace, e);
  }

  lemma FreshRow(s: Sys)
    requires Inv(s)
    ensures |s.db.orders| !in s.db.fills
  {
    assert Times(s.ledger, |s.db.orders|) == 0;
  }

  // ---------- what one candidate must lead to ----------

  predicate Considered(c: Candidate) {
    c.accepted && !c.openHere
  }

  // Judged in the state in which the open positions were just marked.
  predicate Admitted(cfg: Risk.Config, start: real, trace: seq<Risk.Event>, c: Candidate, stopLossPct: real) {
    var marked := Risk.Replay(cfg, start, trace + [Risk.SetOpen(c.openCount)]);
    && Considered(c) && c.quoted && 0.0 < c.usd <= cfg.maxLiveCapital
    && Risk.Admissible(cfg, marked, c.usd, c.liquidity, c.slippageBps, c.impactBps, c.now, stopLossPct)
  }

  // What the risk engine is told about an entry: a trade and a success when it was posted,
  // a failure on top when it brought less than the minimum, a failure when it was refused.
  function LogOf(c: Candidate, result: EntryResult): seq<Risk.Event> {
    match result
    case Entered(fill) =>
      [Risk.Trade(c.usd), Risk.Success] + (if fill.output < c.minOutput then [Risk.Failure] else [])
    case EntryFailed => [Risk.Failure]
    case _ => []
  }

  function AccountOf(db: Db, c: Candidate): Result<Position, string> {
    AccountEntry(db, c.mint, c.positionId, c.terms, c.world.result)
  }

  function OrderOf(c: Candidate): Order {
    NewEntryOrder(c.mint, c.signalId, c.positionId, c.amount, c.usd)
  }

  // An admitted candidate is entered, with the effect of its own world on the tables and
  // its own log; any other leaves the tables alone.
  ghost predicate Processed(cfg: Risk.Config, start: real, stopLossPct: real, c: Candidate,
                            db: Db, trace: seq<Risk.Event>, db': Db, trace': seq<Risk.Event>, aborted: bool) {
    var marked := trace + [Risk.SetOpen(c.openCount)];
    if Admitted(cfg, start, trace, c, stopLossPct) then
      exists result ::
        && EntryEffect(db, db', c.mint, OrderOf(c), AccountOf(db, c), c.world, result)
        && trace' == marked + LogOf(c, result) && (aborted <==> result.StoreDown?)
    else db' == db && trace' == (if Considered(c) then marked else trace) && !aborted
  }

  // The candidates one after the other, until a store error.
  ghost predicate Looped(cfg: Risk.Config, start: real, stopLossPct: real, cs: seq<Candidate>,
                         db: Db, trace: seq<Risk.Event>, db': Db, trace': seq<Risk.Event>)
    decreases |cs|
  {
    if cs == [] then db' == db && trace' == trace
    else
      exists next: Db, log: seq<Risk.Event>, aborted: bool ::
        && Processed(cfg, start, stopLossPct, cs[0], db, trace, next, log, aborted)
        && (if aborted then db' == next && trace' == log else Looped(cfg, start, stopLossPct, cs[1..], next, log, db', trace'))
  }

  // One order more exactly for an admitted candidate, and a trade exactly when its fill is posted.
  lemma OneOrderIff(cfg: Risk.Config, start: real, stopLossPct: real, c: Candidate,
                    db: Db, trace: seq<Risk.Event>, db': Db, trace': seq<Risk.Event>, aborted: bool)
    requires Processed(cfg, start, stopLossPct, c, db, trace, db', trace', aborted) && |db.orders| !in db.fills
    ensures |db'.orders| == |db.orders| + (if Admitted(cfg, start, trace, c, stopLossPct) then 1 else 0)
    ensures CountTrades(trace') - CountTrades(trace) == |db'.fills| - |db.fills|
    ensures db'.fills != db.fills <==>
      && Admitted(cfg, start, trace, c, stopLossPct)
      && c.world.saveSubmit && c.world.result.Done? && AccountOf(db, c).Ok? && c.world.fault.NoFault?
  {
    hide Admitted, AccountEntry, EntryRow;
    var marked := trace + [Risk.SetOpen(c.openCount)];
    CountOneMore(trace, Risk.SetOpen(c.openCount));
    if Admitted(cfg, start, trace, c, stopLossPct) {
      var result :| EntryEffect(db, db', c.mint, OrderOf(c), AccountOf(db, c), c.world, result)
        && trace' == marked + LogOf(c, result) && (aborted <==> result.StoreDown?);
      CountLog(marked, c, result);
    }
  }

  lemma CountLog(trace: seq<Risk.Event>, c: Candidate, result: EntryResult)
    ensures CountTrades(trace + LogOf(c, result)) == CountTrades(trace) + (if result.Entered? then 1 else 0)
  {
    match result
    case Entered(fill) =>
      CountOneMore(trace, Risk.Trade(c.usd));
      CountOneMore(trace + [Risk.Trade(c.usd)], Risk.Success);
      CountOneMore(trace + [Risk.Trade(c.usd)] + [Risk.Success], Risk.Failure);
      assert trace + [Risk.Trade(c.usd), Risk.Success] == trace + [Risk.Trade(c.usd)] + [Risk.Success];
      assert trace + ([Risk.Trade(c.usd), Risk.Success] + [Risk.Failure]) == trace + [Risk.Trade(c.usd)] + [Risk.Success] + [Risk.Failure];
      assert [Risk.Trade(c.usd), Risk.Success] + [] == [Risk.Trade(c.usd), Risk.Success];
    case EntryFailed => CountOneMore(trace, Risk.Failure);
    case _ => assert trace + [] == trace;
  }

  // An open gate lets the first admitted candidate in: the loop adds an order exactly
  // when some candidate it came to was admitted on its turn.
  lemma {:induction false} LoopGrows(cfg: Risk.Config, start: real, stopLossPct: real, cs: seq<Candidate>,
                                     db: Db, trace: seq<Risk.Event>, db': Db, trace': seq<Risk.Event>)
    requires Looped(cfg, start, stopLossPct, cs, db, trace, db', trace')
    ensures |db'.orders| >= |db.orders|
    ensures cs != [] && Admitted(cfg, start, trace, cs[0], stopLossPct) ==> |db'.orders| > |db.orders|
    ensures (forall c, log :: c in cs ==> !Admitted(cfg, start, log, c, stopLossPct)) ==> db' == db
    decreases |cs|
  {
    hide Admitted, AccountEntry, EntryRow;
    if cs != [] {
      var next: Db, log: seq<Risk.Event>, aborted: bool :|
        && Processed(cfg, start, stopLossPct, cs[0], db, trace, next, log, aborted)
        && (if aborted then db' == next && trace' == log else Looped(cfg, start, stopLossPct, cs[1..], next, log, db', trace'));
      if !aborted {
        LoopGrows(cfg, start, stopLossPct, cs[1..], next, log, db', trace');
      }
    }
  }

  // ---------- the entry loop ----------

  // The store side of one entry.
  method Enter(session: Session, c: Candidate) returns (result: EntryResult)
    requires session.Valid() && session.sys.window && c.mint !in session.sys.tasks && FreshIds(session.sys.ids, c)
    modifies session
    ensures session.Valid() && session.sys.window && session.sys.tasks == old(session.sys.tasks)
    ensures session.sys.ids == old(session.sys.ids) + {c.signalId, c.positionId}
    ensures |session.fills| == |old(session.fills)| + (if result.Entered? then 1 else 0)
    ensures var db := old(session.Database());
      EntryEffect(db, session.Database(), c.mint, OrderOf(c), AccountOf(db, c), c.world, result)
  {
    FreshRow(session.sys);
    assert session.sys.db == session.Database();
    hide Inv, Leads, ApplyEntry;
    ghost var acts;
    result, acts := session.EnterPosition(c.mint, c.signalId, c.positionId, c.amount, c.usd, c.terms, c.world);
  }

  // The risk side: a trade is registered exactly when a fill was posted.
  method Register(risk: Risk.RiskEngine, c: Candidate, result: EntryResult)
    requires risk.Valid() && Risk.Disciplined(risk.config, risk.killSwitch.start, risk.trace)
    requires Risk.Authorised(risk.config, Risk.Replay(risk.config, risk.killSwitch.start, risk.trace), c.usd)
    modifies risk, risk.killSwitch
    ensures risk.Valid() && Risk.Disciplined(risk.config, risk.killSwitch.start, risk.trace)
    ensures CountTrades(risk.trace) == CountTrades(old(risk.trace)) + (if result.Entered? then 1 else 0)
    ensures Risk.Uncooled(old(risk.trace)) ==> Risk.Uncooled(risk.trace)
    ensures risk.trace == old(risk.trace) + LogOf(c, result)
  {
    hide Risk.Replay, Risk.Disciplined, Risk.Uncooled, Risk.Authorised, CountTrades;
    match result {
      case Entered(fill) =>
        Logged(risk.config, risk.killSwitch.start, risk.trace, Risk.Trade(c.usd));
        risk.RegisterTrade(c.usd);
        Logged(risk.config, risk.killSwitch.start, risk.trace, Risk.Success);
        risk.RecordSuccess();
        if fill.output < c.minOutput {
          Logged(risk.config, risk.killSwitch.start, risk.trace, Risk.Failure);
          var trips := risk.RecordFailure();
        }
      case EntryFailed =>
        Logged(risk.config, risk.killSwitch.start, risk.trace, Risk.Failure);
        var trips := risk.RecordFailure();
      case _ =>
    }
  }

  // One candidate of the entry loop: entered exactly when it is admitted.  A trade is
  // registered exactly when a fill was posted, in the very state it was authorised in.
  method ProcessCandidate(session: Session, risk: Risk.RiskEngine, c: Candidate, stopLossPct: real, ghost base: int)
    returns (aborted: bool)
    requires Sound(session, risk, base) && session.sys.window && c.mint !in session.sys.tasks
    requires FreshIds(session.sys.ids, c)
    modifies session, risk, risk.killSwitch
    ensures Sound(session, risk, base) && session.sys.window && session.sys.tasks == old(session.sys.tasks)
    ensures old(session.sys.ids) <= session.sys.ids <= old(session.sys.ids) + {c.signalId, c.positionId}
    ensures Risk.Uncooled(old(risk.trace)) ==> Risk.Uncooled(risk.trace)
    ensures Processed(risk.config, risk.killSwitch.start, stopLossPct, c, old(session.Database()), old(risk.trace),
                      session.Database(), risk.trace, aborted)
    ensures session.orders != old(session.orders) ==>
      c.accepted && !c.openHere && !old(risk.killSwitch.tripped) && 0.0 < c.usd <= risk.config.maxLiveCapital
  {
    hide Risk.Replay, Risk.Disciplined, Risk.Uncooled, CountTrades, Inv, Risk.Admissible, AccountOf, OrderOf, LogOf, EntryEffect;
    aborted := false;
    if c.openHere || !c.accepted {
      return;
    }
    Logged(risk.config, risk.killSwitch.start, risk.trace, Risk.SetOpen(c.openCount));
    risk.SetOpenPositions(c.openCount);
    if c.usd <= 0.0 || c.usd > risk.config.maxLiveCapital || !c.quoted {
      return;
    }
    var refused := risk.Refuses(c.usd, c.liquidity, c.slippageBps, c.impactBps, c.now, stopLossPct);
    if refused {
      return;
    }
    hide Risk.Authorised;
    var result := Enter(session, c);
    Register(risk, c, result);
    aborted := result.StoreDown?;
  }

  // Whatever the rest of the loop leads to from here, the whole loop leads to.
  ghost predicate Continues(cfg: Risk.Config, start: real, stopLossPct: real, cs: seq<Candidate>, rest: seq<Candidate>,
                            db: Db, trace: seq<Risk.Event>, now: Db, log: seq<Risk.Event>) {
    forall db', trace' :: Looped(cfg, start, stopLossPct, rest, now, log, db', trace') ==> Looped(cfg, start, stopLossPct, cs, db, trace, db', trace')
  }

  lemma ContinueOn(cfg: Risk.Config, start: real, stopLossPct: real, cs: seq<Candidate>, rest: seq<Candidate>,
                   db: Db, trace: seq<Risk.Event>, now: Db, log: seq<Risk.Event>, next: Db, log': seq<Risk.Event>, aborted: bool)
    requires Continues(cfg, start, stopLossPct, cs, rest, db, trace, now, log) && rest != []
    requires Processed(cfg, start, stopLossPct, rest[0], now, log, next, log', aborted)
    ensures aborted ==> Looped(cfg, start, stopLossPct, cs, db, trace, next, log')
    ensures !aborted ==> Continues(cfg, start, stopLossPct, cs, rest[1..], db, trace, next, log')
  {
    hide Processed;
    if aborted {
      assert Looped(cfg, start, stopLossPct, rest, now, log, next, log');
    } else {
      forall db', trace' | Looped(cfg, start, stopLossPct, rest[1..], next, log', db', trace')
        ensures Looped(cfg, start, stopLossPct, cs, db, trace, db', trace') {
        assert Looped(cfg, start, stopLossPct, rest, now, log, db', trace');
      }
    }
  }

  // The loop over candidates; a store error abandons the rest.
  method ProcessEntries(session: Session, risk: Risk.RiskEngine, cs: seq<Candidate>, stopLossPct: real, ghost base: int)
    requires Sound(session, risk, base) && session.sys.window && AllFresh(session.sys.ids, cs)
    requires forall i :: 0 <= i < |cs| ==> cs[i].mint !in session.sys.tasks
    modifies session, risk, risk.killSwitch
    ensures Sound(session, risk, base) && session.sys.window && session.sys.tasks == old(session.sys.tasks)
    ensures Risk.Uncooled(old(risk.trace)) ==> Risk.Uncooled(risk.trace)
    ensures Looped(risk.config, risk.killSwitch.start, stopLossPct, cs, old(session.Database()), old(risk.trace),
                   session.Database(), risk.trace)
  {
    hide Risk.Replay, Risk.Disciplined, Risk.Uncooled, CountTrades, Inv, Processed, Looped, Continues;
    ghost var before, trace, cfg, start := session.Database(), risk.trace, risk.config, risk.killSwitch.start;
    LoopBegins(cfg, start, stopLossPct, cs, before, trace);
    assert cs[0..] == cs;
    for i := 0 to |cs|
      invariant Sound(session, risk, base) && session.sys.window && session.sys.tasks == old(session.sys.tasks)
      invariant AllFresh(session.sys.ids, cs[i..])
      invariant Risk.Uncooled(old(risk.trace)) ==> Risk.Uncooled(risk.trace)
      invariant Continues(cfg, start, stopLossPct, cs, cs[i..], before, trace, session.Database(), risk.trace)
    {
      assert cs[i..][0] == cs[i] && cs[i..][1..] == cs[i + 1..];
      ghost var ids, now, log := session.sys.ids, session.Database(), risk.trace;
      var aborted := ProcessCandidate(session, risk, cs[i], stopLossPct, base);
      FreshTail(ids, session.sys.ids, cs[i..]);
      ContinueOn(cfg, start, stopLossPct, cs, cs[i..], before, trace, now, log, session.Database(), risk.trace, aborted);
      if aborted {
        return;
      }
    }
    LoopEnds(cfg, start, stopLossPct, cs, cs[|cs|..], before, trace, session.Database(), risk.trace);
  }

  lemma LoopBegins(cfg: Risk.Config, start: real, stopLossPct: real, cs: seq<Candidate>, db: Db, trace: seq<Risk.Event>)
    ensures Continues(cfg, start, stopLossPct, cs, cs, db, trace, db, trace)
  {
  }

  lemma LoopEnds(cfg: Risk.Config, start: real, stopLossPct: real, cs: seq<Candidate>, rest: seq<Candidate>,
                 db: Db, trace: seq<Risk.Event>, now: Db, log: seq<Risk.Event>)
    requires Continues(cfg, start, stopLossPct, cs, rest, db, trace, now, log) && rest == []
    ensures Looped(cfg, start, stopLossPct, cs, db, trace, now, log)
  {
    assert Looped(cfg, start, stopLossPct, rest, now, log, now, log);
  }

  lemma FreshTail(ids: set<Bytes>, ids': set<Bytes>, cs: seq<Candidate>)
    requires cs != [] && AllFresh(ids, cs) && ids' <= ids + {cs[0].signalId, cs[0].positionId}
    ensures AllFresh(ids', cs[1..])
  {
    forall i | 0 <= i < |cs| - 1 ensures FreshIds(ids', cs[1..][i]) {
      assert cs[1..][i] == cs[i + 1];
      assert FreshIds(ids, cs[i + 1]);
      assert {cs[0].signalId, cs[0].positionId} !! {cs[i + 1].signalId, cs[i + 1].positionId};
    }
  }

  // The end of the tick: the entry loop runs exactly with no emergency stop, an untripped
  // kill switch and no unfinished order anywhere in the store.
  method EntriesOfTick(session: Session, risk: Risk.RiskEngine, emergency: bool, cs: seq<Candidate>, stopLossPct: real, ghost base: int)
    requires Sound(session, risk, base) && AllFresh(session.sys.ids, cs)
    modifies session, risk, risk.killSwitch
    ensures Sound(session, risk, base) && session.sys.tasks == old(session.sys.tasks) && !session.sys.window
    ensures Risk.Uncooled(old(risk.trace)) ==> Risk.Uncooled(risk.trace)
    ensures
      if !emergency && !old(risk.killSwitch.tripped) && NothingIncomplete(old(session.Database())) then
        Looped(risk.config, risk.killSwitch.start, stopLossPct, cs, old(session.Database()), old(risk.trace),
               session.Database(), risk.trace)
      else session.Database() == old(session.Database()) && risk.trace == old(risk.trace)
  {
    hide Risk.Replay, Risk.Disciplined, Risk.Uncooled, CountTrades, Inv, Looped;
    session.SetWindow(false);
    if emergency || risk.killSwitch.tripped {
      return;
    }
    var pending := session.IncompleteOrders();
    if pending != [] {
      assert Incomplete(old(session.Database()).orders[pending[0]]);
      return;
    }
    NoneIncomplete(session.orders);
    NoTasks(session.sys);
    session.SetWindow(true);
    ProcessEntries(session, risk, cs, stopLossPct, base);
    session.SetWindow(false);
  }

  // A task always holds an unfinished order, so an open gate means that nobody is at work.
  lemma NoTasks(s: Sys)
    requires Inv(s)
    ensures NothingIncomplete(s.db) ==> s.tasks == map[]
  {
    if s.tasks != map[] {
      var m :| m in s.tasks;
      assert TaskOk(s, m);
      assert Incomplete(s.db.orders[s.tasks[m].order]);
    }
  }

  lemma {:induction false} NoneIncomplete(orders: seq<Order>)
    requires CountIncomplete(orders) == 0
    ensures forall i :: 0 <= i < |orders| ==> !Incomplete(orders[i])
  {
    if orders != [] {
      NoneIncomplete(orders[..|orders| - 1]);
    }
  }

  // What the tick reads before it decides: rollover, persisted trip, equity, the
  // portfolio's open count and exposure.
  datatype Reading = Reading(newDay: bool, latched: bool, equity: real, openCount: u64, exposure: real, emergency: bool)

  // The rollover only on a new day, the trip only when latched, then the three figures.
  function ReadLog(r: Reading): seq<Risk.Event> {
    (if r.newDay then [Risk.NewDay] else []) + (if r.latched then [Risk.ForceTrip] else [])
    + [Risk.Equity(r.equity), Risk.SetOpen(r.openCount), Risk.SetExposure(r.exposure)]
  }

  method Observe(risk: Risk.RiskEngine, r: Reading)
    requires risk.Valid() && Risk.Disciplined(risk.config, risk.killSwitch.start, risk.trace)
    modifies risk, risk.killSwitch
    ensures risk.Valid() && Risk.Disciplined(risk.config, risk.killSwitch.start, risk.trace)
    ensures CountTrades(risk.trace) == CountTrades(old(risk.trace))
    ensures Risk.Uncooled(old(risk.trace)) ==> Risk.Uncooled(risk.trace)
    ensures risk.trace == old(risk.trace) + ReadLog(r)
    ensures risk.exposure == r.exposure && risk.open == r.openCount && risk.equity == r.equity
    ensures risk.killSwitch.tripped <==>
      old(risk.killSwitch.tripped) || r.latched || r.equity <= Risk.Threshold(risk.killSwitch.start, risk.config.maxDrawdownPct)
  {
    hide Risk.Replay, Risk.Disciplined, Risk.Uncooled, CountTrades;
    if r.newDay {
      Logged(risk.config, risk.killSwitch.start, risk.trace, Risk.NewDay);
      risk.StartDay();
    }
    if r.latched {
      Logged(risk.config, risk.killSwitch.start, risk.trace, Risk.ForceTrip);
      risk.Trip();
    }
    Logged(risk.config, risk.killSwitch.start, risk.trace, Risk.Equity(r.equity));
    risk.ObserveEquity(r.equity);
    Logged(risk.config, risk.killSwitch.start, risk.trace, Risk.SetOpen(r.openCount));
    risk.SetOpenPositions(r.openCount);
    Logged(risk.config, risk.killSwitch.start, risk.trace, Risk.SetExposure(r.exposure));
    risk.SetTotalExposure(r.exposure);
  }

  // The tick without its exits: the entry loop runs exactly if this very reading allows it.
  method SessionTick(session: Session, risk: Risk.RiskEngine, r: Reading, cs: seq<Candidate>, stopLossPct: real, ghost base: int)
    requires Sound(session, risk, base) && AllFresh(session.sys.ids, cs)
    modifies session, risk, risk.killSwitch
    ensures Sound(session, risk, base) && session.sys.tasks == old(session.sys.tasks) && !session.sys.window
    ensures Risk.Uncooled(old(risk.trace)) ==> Risk.Uncooled(risk.trace)
    ensures
      if && !r.emergency && !r.latched && !old(risk.killSwitch.tripped) && NothingIncomplete(old(session.Database()))
         && r.equity > Risk.Threshold(risk.killSwitch.start, risk.config.maxDrawdownPct) then
        Looped(risk.config, risk.killSwitch.start, stopLossPct, cs, old(session.Database()), old(risk.trace) + ReadLog(r),
               session.Database(), risk.trace)
      else session.Database() == old(session.Database()) && risk.trace == old(risk.trace) + ReadLog(r)
  {
    hide Risk.Replay, Risk.Disciplined, Risk.Uncooled, CountTrades, Inv, Looped, ReadLog;
    Observe(risk, r);
    EntriesOfTick(session, risk, r.emergency, cs, stopLossPct, base);
  }

  // No step of the tick asks for a cooldown, so none ever refuses an entry.
  lemma CooldownNeverRefuses(session: Session, risk: Risk.RiskEngine, base: int, usd: real, liquidity: real,
                             slippageBps: u32, impactBps: u32, now: int)
    requires Sound(session, risk, base) && Risk.Uncooled(risk.trace)
    ensures Risk.Authorize(risk.config, risk.Snapshot(), usd, liquidity, slippageBps, impactBps, now) != Some(Risk.CooldownActive)
  {
    Risk.CooldownIsTheLastAskedFor(risk.config, risk.killSwitch.start, risk.trace);
  }

  // Over any number of ticks: the limits the discipline buys, together with the store.
  lemma SoundMeansLimited(session: Session, risk: Risk.RiskEngine, base: int)
    requires Sound(session, risk, base)
    ensures risk.tradesToday <= risk.config.maxTradesPerDay
    ensures risk.killSwitch.tripped <==> Risk.TripCause(risk.config, risk.killSwitch.start, risk.trace)
    ensures forall i: nat :: Times(session.sys.ledger, i) <= 1
  {
    Risk.TradesStayWithinTheDay(risk.config, risk.killSwitch.start, risk.trace);
    Risk.TrippedIff(risk.config, risk.killSwitch.start, risk.trace);
  }
}
