// What a restart can and cannot recover.  The stated intent (src/runtime.rs:4-6) is
// that a crash at any point is recovered without duplicate trades; these theorems
// give the exact part of that which the code delivers.
module Recovery {
  import opened Wrappers
  import opened Orders
  import opened ExitKeys
  import opened Portfolio
  import opened Lifecycle
  import opened Invariants
  import opened Runs

  // ---------- idempotency keys ----------

  lemma {:induction false} CountExitsMonotone(orders: seq<Order>, i: nat, id: Bytes)
    requires i < |orders|
    ensures CountExits(orders[..i], id) + (if IsExitOf(orders[i], Some(id)) then 1 else 0) <= CountExits(orders, id)
    ensures CountExits(orders, id) <= |orders|
  {
    var front := orders[..|orders| - 1];
    if i < |orders| - 1 {
      CountExitsMonotone(front, i, id);
      assert front[..i] == orders[..i];
    } else {
      CountsFit(front, id);
    }
  }

  lemma {:induction false} CountsFit(orders: seq<Order>, id: Bytes)
    ensures CountExits(orders, id) <= |orders|
  {
    if orders != [] {
      CountsFit(orders[..|orders| - 1], id);
    }
  }

  // The reservation of an exit that passed its guards is never refused as a duplicate:
  // a retry after a terminal failure always gets a fresh key.
  lemma ExitKeyIsFresh(s: Sys, m: Mint, reason: Bytes)
    requires Inv(s) && ExitReady(s.db, m) && |s.db.orders| < Pow256(4)
    ensures !KeyTaken(s.db, NewExitOrder(s.db, m, reason).key)
  {
    assert PositionIdOk(s.db.positions[m]);
    assert OrdersOk(s.db.orders, s.ids) && IdsOk(s.db.orders, s.db.positions);
    hide ExitReady, Inv, OrdersOk, IdsOk;
    FreshInTable(s.db, s.ids, m, reason);
  }

  predicate PositionIdOk(p: Position) {
    p.positionId.Some? ==> |p.positionId.value| == UUID_LENGTH
  }

  // All it takes is a well-formed order table and ids of one length.
  lemma FreshInTable(db: Db, ids: set<Bytes>, m: Mint, reason: Bytes)
    requires OrdersOk(db.orders, ids) && IdsOk(db.orders, db.positions)
    requires ExitReady(db, m) && PositionIdOk(db.positions[m]) && |db.orders| < Pow256(4)
    ensures !KeyTaken(db, NewExitOrder(db, m, reason).key)
  {
    var o := NewExitOrder(db, m, reason);
    var id := o.positionId.value;
    Pow256Values();
    CountsFit(db.orders, id);
    forall i | 0 <= i < |db.orders| ensures db.orders[i].key != o.key {
      var prior := db.orders[i];
      assert OrderOk(db.orders, i, ids);
      if prior.kind == Exit {
        CountExitsMonotone(db.orders, i, id);
        CountsFit(db.orders[..i], prior.positionId.value);
        ExitKeyInjective(prior.positionId.value, prior.inputAmount, prior.reason, CountExits(db.orders[..i], prior.positionId.value),
                         id, o.inputAmount, reason, CountExits(db.orders, id));
      } else {
        assert prior.signalId != id;
        var tail, tail' := prior.mint + LittleEndian(prior.inputAmount, 8),
          LittleEndian(o.inputAmount, 8) + reason + LittleEndian(CountExits(db.orders, id), 4);
        assert prior.key == prior.signalId + tail && o.key == id + tail';
        DifferentHeads(prior.signalId, tail, id, tail');
      }
    }
  }

  // What a reservation asks for: the whole trusted quantity at the position's base price,
  // on the position's own id; nothing is sent or signed yet.
  lemma ExitOrderMeans(db: Db, m: Mint, reason: Bytes)
    requires ExitReady(db, m)
    ensures var o, p := NewExitOrder(db, m, reason), db.positions[m];
      && o.kind == Exit && o.mint == m && o.positionId == p.positionId && o.reason == reason
      && TrustedRemaining(p) == Some(o.inputAmount) && o.state == Pending && !o.signed
      && o.inputValue.Some? && Comes(p.basePrice.value, o.inputAmount, o.inputValue.value, p.tokenDecimals.value)
  {
    var o, p := NewExitOrder(db, m, reason), db.positions[m];
    var units := Units(o.inputAmount, p.tokenDecimals.value).value;
    UnitsMean(o.inputAmount, p.tokenDecimals.value);
    ValueOfUnits(units, p.basePrice.value, o.inputAmount, p.tokenDecimals.value);
    assert o.inputValue.value == ValueAt(p.basePrice.value, units);
    hide Comes, Units, AreUnits;
  }

  lemma EntryOrderMeans(m: Mint, signalId: Bytes, positionId: Bytes, amount: u64, value: real)
    ensures var o := NewEntryOrder(m, signalId, positionId, amount, value);
      && o.kind == Entry && o.mint == m && o.signalId == signalId && o.positionId == Some(positionId)
      && o.inputAmount == amount && o.inputValue == Some(value) && o.state == Pending && !o.signed
  {
  }

  // An entry key starts with a signal id made for this very evaluation, so the
  // duplicate-entry branch of process_entries can never be taken.
  lemma EntryIdempotencyNeverRefuses(s: Sys, m: Mint, signalId: Bytes, amount: u64)
    requires Inv(s) && |signalId| == UUID_LENGTH && signalId !in s.ids
    ensures !KeyTaken(s.db, EntryKey(signalId, m, amount))
  {
    forall i | 0 <= i < |s.db.orders| ensures s.db.orders[i].key != EntryKey(signalId, m, amount) {
      var prior := s.db.orders[i];
      assert OrderOk(s.db.orders, i, s.ids);
      var tail := m + LittleEndian(amount, 8);
      assert EntryKey(signalId, m, amount) == signalId + tail;
      if prior.kind == Exit {
        var tail' := LittleEndian(prior.inputAmount, 8) + prior.reason
          + LittleEndian(CountExits(s.db.orders[..i], prior.positionId.value), 4);
        assert prior.key == prior.positionId.value + tail';
        DifferentHeads(prior.positionId.value, tail', signalId, tail);
      } else {
        var tail' := prior.mint + LittleEndian(prior.inputAmount, 8);
        assert prior.key == prior.signalId + tail';
        DifferentHeads(prior.signalId, tail', signalId, tail);
      }
    }
  }

  // In every run, a position has at most one unfinished exit order, and its n-th exit
  // order was reserved under attempt number n.
  lemma ExitsAreSerialAndNumbered(start: Sys, acts: seq<Act>, i: nat, j: nat)
    requires Init(start) && Runnable(start, acts)
    requires var orders := Run(start, acts).db.orders;
      i < j < |orders| && orders[i].kind == Exit && orders[j].kind == Exit && orders[i].positionId == orders[j].positionId
    ensures var orders := Run(start, acts).db.orders;
      && orders[i].positionId.Some?
      && var id := orders[i].positionId.value;
      && !(Incomplete(orders[i]) && Incomplete(orders[j]))
      && orders[j].key == ExitKey(id, orders[j].inputAmount, orders[j].reason, CountExits(orders[..j], id))
      && CountExits(orders[..i], id) < CountExits(orders[..j], id)
  {
    InitInv(start);
    RunKeepsInv(start, acts);
    var s := Run(start, acts);
    assert OrderOk(s.db.orders, i, s.ids) && OrderOk(s.db.orders, j, s.ids);
    CountExitsMonotone(s.db.orders[..j], i, s.db.orders[i].positionId.value);
    assert s.db.orders[..j][..i] == s.db.orders[..i];
  }

  // ---------- swaps that can no longer be accounted ----------

  // Unapplied, worked on by nobody, and either without a stored signature or already terminal.
  ghost predicate Abandoned(s: Sys, i: nat) {
    && i < |s.db.orders| && Times(s.ledger, i) == 0 && !Held(s, i)
    && (!s.db.orders[i].signed || !Incomplete(s.db.orders[i]))
  }

  lemma StepSparesAbandoned(s: Sys, a: Act, i: nat)
    requires Inv(s) && TaskOrdersExist(s) && Enabled(s, a) && Abandoned(s, i)
    ensures Abandoned(Step(s, a), i)
  {
    var t := Step(s, a);
    var c := StepChanges(s, a);
    hide Inv, Step, Enabled;
    ChangeSparesAbandoned(s, t, a, c, i);
  }

  lemma ChangeSparesAbandoned(s: Sys, t: Sys, a: Act, c: Change, i: nat)
    requires ChangedBy(s, t, c) && Authorised(s, a, c) && Abandoned(s, i)
    ensures Abandoned(t, i)
  {
    if c.FillAdded? || c.BalanceSet? {
      AppendPosting(0, s.ledger, t.ledger[|s.ledger|], t.ledger[|s.ledger|].mint, i);
    }
    forall n | n in t.tasks ensures t.tasks[n].order != i {
      assert n in s.tasks ==> s.tasks[n].order != i;
    }
  }

  // Whatever happens afterwards, the fill of an abandoned order is never applied.
  lemma {:induction false} AbandonedForever(s: Sys, acts: seq<Act>, i: nat)
    requires Inv(s) && Runnable(s, acts) && Abandoned(s, i)
    ensures var t := Run(s, acts); Times(t.ledger, i) == 0 && i !in t.db.fills
    decreases |acts|
  {
    if acts == [] {
      assert Times(s.ledger, i) == 0;
    } else {
      StepSparesAbandoned(s, acts[0], i);
      StepKeepsInv(s, acts[0]);
      hide Inv, Enabled, Step, Abandoned;
      AbandonedForever(Step(s, acts[0]), acts[1..], i);
    }
  }

  // A crash at any moment between the reservation and the transaction loses the
  // order's fill for good, although the swap may already be on chain.
  lemma CrashBeforeCommitLosesTheFill(s: Sys, m: Mint, acts: seq<Act>)
    requires Inv(s) && m in s.tasks && Runnable(s, [Crash] + acts)
    ensures var i := s.tasks[m].order;
      && (s.tasks[m].phase.Filled? ==> i in s.chain)
      && i !in Run(s, [Crash] + acts).db.fills
  {
    var i := s.tasks[m].order;
    assert TaskOk(s, m);
    UnappliedHasNoFill(s, i);
    var t := Step(s, Crash);
    assert Abandoned(t, i);
    StepKeepsInv(s, Crash);
    assert ([Crash] + acts)[1..] == acts;
    AbandonedForever(t, acts, i);
  }

  // If the order update or the commit fails after the record in memory moved on, the
  // row is saved as Confirmed, there is no fill, and there never will be one.
  lemma ConfirmedWithoutFill(s: Sys, m: Mint)
    requires Inv(s) && Enabled(s, Commit(m, AfterTransition, true))
    requires TaskOrdersExist(s) && Accounted(s, s.tasks[m], s.tasks[m].phase.fill).Ok?
    ensures var i := s.tasks[m].order;
      var t := Step(s, Commit(m, AfterTransition, true));
      t.db.orders[i].state == Confirmed && i !in t.db.fills && Abandoned(t, i)
  {
    var i := s.tasks[m].order;
    assert TaskOk(s, m);
    UnappliedHasNoFill(s, i);
    hide Accounted;
    var t := Step(s, Commit(m, AfterTransition, true));
    assert t == Finish(s, m, i, s.db.orders[i].(state := Confirmed, signed := true), true);
    forall n | n in t.tasks ensures t.tasks[n].order != i {
      assert TaskOk(s, n);
    }
  }

  // record_reconciled_fill answers true for exactly the signed exits whose stored
  // position can price and absorb the verified amounts.
  ghost predicate CanAbsorb(o: Order, p: Position, outcome: Outcome) {
    && o.inputValue.Some? && p.basePrice.Some?
    && p.tokenDecimals.Some? && Pow10(p.tokenDecimals.value) <= U64_MAX
    && p.baseDecimals.Some? && Pow10(p.baseDecimals.value) <= U64_MAX
    && 0 < outcome.input && p.remaining.Some? && outcome.input <= p.remaining.value
    && p.entryCost.Some? && p.quantity != 0.0
  }

  lemma ReconcilePostsIff(s: Sys, a: Act)
    requires Inv(s) && a.Resolve? && Enabled(s, a) && a.answer.SwapExecuted? && a.write && s.live
    ensures var o := s.db.orders[a.order];
      ResolvePosts(s, a) <==> o.kind == Exit && CanAbsorb(o, s.db.positions[o.mint], s.chain[a.order])
  {
    var i := a.order;
    var o := s.db.orders[i];
    assert OrderOk(s.db.orders, i, s.ids);
    RecordedAccounts(s, i, a.holder, s.chain[i]);
    if o.kind == Exit {
      assert Holds(s.db, o.positionId, o.mint);
      assert a.holder == Some(o.mint);
    }
    hide Inv;
  }

  // What a reconciled sale books: the amounts and fees of the chain, priced by the
  // position's base price, and that sale on the position.
  ghost predicate SaleOf(p: Position, outcome: Outcome, f: Fill, q: Position) {
    && f.input == outcome.input && f.output == outcome.output && f.fees == outcome.fees
    && f.value.Some? && p.basePrice.Some? && p.baseDecimals.Some? && p.tokenDecimals.Some?
    && Comes(p.basePrice.value, outcome.output, f.value.value, p.baseDecimals.value)
    && Comes(f.price, outcome.input, f.value.value, p.tokenDecimals.value)
    && SaleBooked(p, f, q)
  }

  lemma ReconciledSale(db: Db, o: Order, outcome: Outcome)
    requires o.kind == Exit && o.mint in db.positions
    ensures var r := RecordReconciledFill(db, o, Some(o.mint), outcome);
      r.Posted? ==> SaleOf(db.positions[o.mint], outcome, r.fill, r.position)
  {
    var r, p := RecordReconciledFill(db, o, Some(o.mint), outcome), db.positions[o.mint];
    if r.Posted? {
      PriceFillMeans(OutputUnitPriceUsd(p.basePrice.value), outcome.input, p.tokenDecimals.value, outcome.output, p.baseDecimals.value);
      ExitMeans(p, r.fill);
    }
    hide PriceFill, ApplyExit, Comes, SaleBooked;
  }

  // When it answers true the fill was not applied before and is applied now, once.
  lemma ReconciledOnce(s: Sys, a: Act)
    requires Inv(s) && a.Resolve? && Enabled(s, a) && ResolvePosts(s, a)
    ensures var i := a.order;
      var t := ResolveStep(s, i, a.holder, a.answer, a.monitor, a.write);
      && Times(s.ledger, i) == 0 && Times(t.ledger, i) == 1
      && i in t.db.fills && t.db.fills[i].input == s.chain[i].input && t.db.fills[i].output == s.chain[i].output
      && t.db.orders[i].state == Confirmed
  {
    var i := a.order;
    UnappliedHasNoFill(s, i);
    ResolveShape(s, a);
    var r := RecordReconciledFill(s.db, s.db.orders[i], a.holder, s.chain[i]);
    PostKeepsLedger(s, i, r.fill, r.position);
    RecordedOutcome(s.db, s.db.orders[i], a.holder, s.chain[i]);
    hide RecordReconciledFill, Inv, ResolveStep, Accounts;
  }

  // A recorded fill stays recorded, unchanged and applied exactly once, in every continuation.
  lemma AppliedStaysApplied(s: Sys, acts: seq<Act>, i: nat)
    requires Inv(s) && Runnable(s, acts) && i in s.db.fills
    ensures var t := Run(s, acts);
      i in t.db.fills && t.db.fills[i] == s.db.fills[i] && Times(t.ledger, i) == 1
      && i < |t.db.orders| && t.db.orders[i].state == Confirmed
  {
    assert Times(s.ledger, i) == 1;
    TerminalRowsAreFinal(s, acts, i);
  }

  lemma RecordedOutcome(db: Db, o: Order, holder: Option<Mint>, outcome: Outcome)
    requires holder.Some? ==> holder.value in db.positions
    ensures var r := RecordReconciledFill(db, o, holder, outcome);
      r.Posted? ==> r.fill.input == outcome.input && r.fill.output == outcome.output
  {
  }

  // ---------- the second sale ----------

  // Between the crash and the next decision a live session reads the token's balance
  // any number of times, before and after the order expires.
  datatype Reading = Reading(amount: u64, decimals: nat)

  // A reading that contradicts the recorded decimals is refused and changes nothing.
  function ReadPosition(p: Position, r: Reading): Position {
    var q := ReconcileWithChain(p, r.amount, r.decimals);
    if q.Ok? then q.value else p
  }

  function ReadAll(p: Position, readings: seq<Reading>): Position
    decreases |readings|
  {
    if readings == [] then p else ReadAll(ReadPosition(p, readings[0]), readings[1..])
  }

  // The quantity on record after one reading, as long as the position stays open.
  function Shown(quantity: u64, decimals: nat, r: Reading): u64 {
    if r.amount != 0 && r.decimals == decimals then r.amount else quantity
  }

  function LastShown(quantity: u64, decimals: nat, readings: seq<Reading>): u64
    decreases |readings|
  {
    if readings == [] then quantity else LastShown(Shown(quantity, decimals, readings[0]), decimals, readings[1..])
  }

  // Some reading shows nothing while something is on record: the position is closed for good.
  predicate Vanishes(quantity: u64, decimals: nat, readings: seq<Reading>)
    decreases |readings|
  {
    readings != [] && ((readings[0].amount == 0 && quantity != 0) || Vanishes(Shown(quantity, decimals, readings[0]), decimals, readings[1..]))
  }

  lemma {:induction false} ClosedStaysClosed(p: Position, readings: seq<Reading>)
    requires !p.open
    ensures ReadAll(p, readings) == p
    decreases |readings|
  {
    if readings != [] {
      ClosedStaysClosed(p, readings[1..]);
    }
  }

  // What readings do to what can be sold: the record closes, or follows the last reading
  // with the recorded decimals.
  lemma {:induction false} ReadingsMove(p: Position, readings: seq<Reading>)
    requires Sellable(p)
    ensures var q, r, d := ReadAll(p, readings), p.remaining.value, p.tokenDecimals.value;
      && q.positionId == p.positionId
      && (Sellable(q) <==> !Vanishes(r, d, readings))
      && (Sellable(q) ==> TrustedRemaining(q) == Some(LastShown(r, d, readings)))
    decreases |readings|
  {
    if readings != [] {
      var q, r := ReadPosition(p, readings[0]), readings[0];
      if q.open {
        assert Sellable(q) && q.tokenDecimals == p.tokenDecimals;
        assert q.remaining == Some(Shown(p.remaining.value, p.tokenDecimals.value, r));
        hide Sellable, ReadPosition, Shown;
        ReadingsMove(q, readings[1..]);
      } else {
        ClosedStaysClosed(q, readings[1..]);
      }
    }
  }

  lemma {:induction false} ReadAppend(p: Position, before: seq<Reading>, after: seq<Reading>)
    ensures ReadAll(p, before + after) == ReadAll(ReadAll(p, before), after)
    decreases |before|
  {
    if before == [] {
      assert before + after == after;
    } else {
      assert (before + after)[1..] == before[1..] + after;
      ReadAppend(ReadPosition(p, before[0]), before[1..], after);
    }
  }

  ghost function AfterReadings(t: Sys, m: Mint, readings: seq<Reading>): (u: Sys)
    requires m in t.db.positions
    ensures u.db.orders == t.db.orders && m in u.db.positions
    decreases |readings|
  {
    if readings == [] then t else AfterReadings(AfterReading(t, m, readings[0]), m, readings[1..])
  }

  // Readings touch the one position and the history of adjustments, and nothing else.
  ghost predicate OnlyRead(t: Sys, u: Sys, m: Mint, readings: seq<Reading>)
    requires m in t.db.positions
  {
    && u.db.orders == t.db.orders && u.db.fills == t.db.fills
    && u.db.positions == t.db.positions[m := ReadAll(t.db.positions[m], readings)]
    && (forall i: nat :: Times(u.ledger, i) == Times(t.ledger, i))
    && u == t.(db := u.db, ledger := u.ledger)
  }

  lemma AdjustOnlyReads(t: Sys, m: Mint, r: Reading)
    requires Inv(t) && m in t.db.positions && m !in t.tasks && ReconcileWithChain(t.db.positions[m], r.amount, r.decimals).Ok?
    ensures var u := AdjustStep(t, m, r.amount, r.decimals); Inv(u) && OnlyRead(t, u, m, [r])
    ensures t.live ==> Enabled(t, Adjust(m, r.amount, r.decimals))
  {
    AdjustKeepsInv(t, m, r.amount, r.decimals);
    assert ReadAll(t.db.positions[m], [r]) == ReadPosition(t.db.positions[m], r) by {
      assert [r][1..] == [];
    }
    hide Inv, ReconcileWithChain, ReadAll;
    var u := AdjustStep(t, m, r.amount, r.decimals);
    forall i: nat ensures Times(u.ledger, i) == Times(t.ledger, i) {
      AppendPosting(0, t.ledger, u.ledger[|t.ledger|], m, i);
    }
  }

  lemma OnlyReadOn(t: Sys, u: Sys, v: Sys, m: Mint, r: Reading, rest: seq<Reading>)
    requires m in t.db.positions && OnlyRead(t, u, m, [r]) && OnlyRead(u, v, m, rest)
    ensures OnlyRead(t, v, m, [r] + rest)
  {
    ReadAppend(t.db.positions[m], [r], rest);
    hide ReadAll, Times;
  }

  lemma OnlyReadKeeps(t: Sys, u: Sys, m: Mint, readings: seq<Reading>)
    requires m in t.db.positions && OnlyRead(t, u, m, readings)
    ensures u.live == t.live && u.tasks == t.tasks && m in u.db.positions
  {
  }

  // One reading, heeded or refused.
  ghost function AfterReading(t: Sys, m: Mint, r: Reading): Sys
    requires m in t.db.positions
  {
    if ReconcileWithChain(t.db.positions[m], r.amount, r.decimals).Ok? then AdjustStep(t, m, r.amount, r.decimals) else t
  }

  lemma OneReading(t: Sys, m: Mint, r: Reading) returns (acts: seq<Act>)
    requires Inv(t) && TaskOrdersExist(t) && m in t.db.positions && m !in t.tasks
    ensures var u := AfterReading(t, m, r); Inv(u) && TaskOrdersExist(u) && OnlyRead(t, u, m, [r]) && (t.live ==> Runnable(t, acts) && Run(t, acts) == u)
  {
    if ReconcileWithChain(t.db.positions[m], r.amount, r.decimals).Ok? {
      var a := Adjust(m, r.amount, r.decimals);
      AdjustOnlyReads(t, m, r);
      if t.live {
        OneStepRun(t, a);
        assert Step(t, a) == AdjustStep(t, m, r.amount, r.decimals);
      }
      acts := [a];
    } else {
      acts := [];
      assert Runnable(t, acts) && Run(t, acts) == t;
      assert [r][1..] == [] && ReadAll(t.db.positions[m], [r]) == t.db.positions[m];
    }
    hide Inv, Enabled, ReconcileWithChain, Runnable, Run;
  }

  // In a live session the readings are a run; a paper session makes none.
  lemma {:induction false} ReadingsRun(t: Sys, m: Mint, readings: seq<Reading>) returns (acts: seq<Act>)
    requires Inv(t) && TaskOrdersExist(t) && m in t.db.positions && m !in t.tasks
    ensures var u := AfterReadings(t, m, readings);
      Inv(u) && TaskOrdersExist(u) && OnlyRead(t, u, m, readings) && (t.live || readings == [] ==> Runnable(t, acts) && Run(t, acts) == u)
    decreases |readings|
  {
    if readings == [] {
      acts := [];
      assert OnlyRead(t, t, m, []) && Runnable(t, acts) && Run(t, acts) == t;
      hide Inv, OnlyRead;
    } else {
      var u := AfterReading(t, m, readings[0]);
      hide Inv, AfterReading, OnlyRead, TaskOrdersExist, Runnable, Run;
      var first := OneReading(t, m, readings[0]);
      OnlyReadKeeps(t, u, m, [readings[0]]);
      var rest := ReadingsRun(u, m, readings[1..]);
      OnlyReadOn(t, u, AfterReadings(u, m, readings[1..]), m, readings[0], readings[1..]);
      assert [readings[0]] + readings[1..] == readings;
      acts := first + rest;
      if t.live {
        RunsJoin(t, first, rest);
      }
    }
  }

  ghost predicate SellsAgain(t: Sys, m: Mint, reason: Bytes, quantity: u64) {
    Enabled(t, ReserveExit(m, reason)) && NewExitOrder(t.db, m, reason).inputAmount == quantity
  }

  // The crash, readings while the order is young, its expiry, and readings after that.
  ghost function Restarted(s: Sys, m: Mint, before: seq<Reading>, after: seq<Reading>): Sys
    requires m in s.db.positions && m in s.tasks && s.tasks[m].order < |s.db.orders|
  {
    AfterReadings(Restate(AfterReadings(s.(tasks := map[], window := false), m, before), s.tasks[m].order, Failed), m, after)
  }

  lemma RunFirst(s: Sys, acts: seq<Act>)
    requires acts != []
    ensures Runnable(s, acts) <==> TaskOrdersExist(s) && Enabled(s, acts[0]) && Runnable(Step(s, acts[0]), acts[1..])
    ensures Runnable(s, acts) ==> Run(s, acts) == Run(Step(s, acts[0]), acts[1..])
  {
  }

  lemma {:induction false} RunsJoin(s: Sys, first: seq<Act>, second: seq<Act>)
    requires Runnable(s, first) && Runnable(Run(s, first), second)
    ensures Runnable(s, first + second) && Run(s, first + second) == Run(Run(s, first), second)
    decreases |first|
  {
    if first == [] {
      assert first + second == second;
    } else {
      var all := first + second;
      assert all[0] == first[0] && all[1..] == first[1..] + second;
      RunFirst(s, first);
      RunFirst(s, all);
      hide Step, Enabled, TaskOrdersExist, Runnable, Run;
      RunsJoin(Step(s, first[0]), first[1..], second);
    }
  }

  lemma ExpiryEnabled(s: Sys, i: nat, m: Mint)
    requires Inv(s) && s.tasks == map[] && i < |s.db.orders| && s.db.orders[i].kind == Exit && s.db.orders[i].mint == m
    requires Incomplete(s.db.orders[i]) && !s.db.orders[i].signed
    ensures var a := Resolve(i, Some(m), NeverSubmitted(true), false, true);
      Enabled(s, a) && TaskOrdersExist(s) && Step(s, a) == Restate(s, i, Failed)
  {
    assert OrderOk(s.db.orders, i, s.ids);
    hide OrdersOk, IdsOk, PositionsOk, LedgerOk, PostingsOk, Conserved, OneExitInFlight, TasksOk;
  }

  lemma OneStepRun(s: Sys, a: Act)
    requires TaskOrdersExist(s) && Enabled(s, a)
    ensures Runnable(s, [a]) && Run(s, [a]) == Step(s, a)
  {
    assert [a][1..] == [] && Runnable(Step(s, a), []);
    hide Step, Enabled, TaskOrdersExist;
  }

  lemma CrashThenRead(s: Sys, m: Mint, readings: seq<Reading>) returns (acts: seq<Act>)
    requires Inv(s) && m in s.db.positions
    ensures var crashed := s.(tasks := map[], window := false);
      var u := AfterReadings(crashed, m, readings);
      && Inv(u) && OnlyRead(crashed, u, m, readings) && (s.live || readings == [] ==> Runnable(s, acts) && Run(s, acts) == u)
  {
    TasksHaveOrders(s);
    var crashed := s.(tasks := map[], window := false);
    assert Enabled(s, Crash) && Step(s, Crash) == crashed;
    OneStepRun(s, Crash);
    DropKeepsInv(s, map[], false);
    hide Inv, Step, Enabled, Runnable, Run, AfterReadings, OnlyRead;
    var rest := ReadingsRun(crashed, m, readings);
    acts := [Crash] + rest;
    if s.live || readings == [] {
      RunsJoin(s, [Crash], rest);
    }
  }

  lemma ExpireThenRead(s: Sys, i: nat, m: Mint, readings: seq<Reading>) returns (acts: seq<Act>)
    requires Inv(s) && s.tasks == map[] && i < |s.db.orders| && s.db.orders[i].kind == Exit && s.db.orders[i].mint == m
    requires Incomplete(s.db.orders[i]) && !s.db.orders[i].signed && m in s.db.positions
    ensures var expired := Restate(s, i, Failed);
      var u := AfterReadings(expired, m, readings);
      && Inv(u) && OnlyRead(expired, u, m, readings) && (s.live || readings == [] ==> Runnable(s, acts) && Run(s, acts) == u)
  {
    var a := Resolve(i, Some(m), NeverSubmitted(true), false, true);
    ExpiryEnabled(s, i, m);
    OneStepRun(s, a);
    RestateKeepsInv(s, i, Failed);
    var expired := Restate(s, i, Failed);
    hide Inv, Step, Enabled, Runnable, Run, AfterReadings, OnlyRead;
    var rest := ReadingsRun(expired, m, readings);
    acts := [a] + rest;
    if s.live || readings == [] {
      RunsJoin(s, [a], rest);
    }
  }

  // A running exit's order: unfinished, unsigned, unapplied, with its position stored.
  lemma RunningExit(s: Sys, m: Mint)
    requires Inv(s) && m in s.tasks && s.tasks[m].Exiting?
    ensures m in s.db.positions && s.tasks[m].order < |s.db.orders|
    ensures var i := s.tasks[m].order;
      && s.db.orders[i].kind == Exit && s.db.orders[i].mint == m && Incomplete(s.db.orders[i]) && !s.db.orders[i].signed
      && s.db.positions[m].positionId == s.db.orders[i].positionId && Times(s.ledger, i) == 0
  {
    assert TaskOk(s, m);
    UnappliedHasNoFill(s, s.tasks[m].order);
  }

  lemma RestartIsARun(s: Sys, m: Mint, before: seq<Reading>, after: seq<Reading>) returns (acts: seq<Act>)
    requires Inv(s) && m in s.tasks && s.tasks[m].Exiting?
    ensures m in s.db.positions && s.tasks[m].order < |s.db.orders|
    ensures var crashed := s.(tasks := map[], window := false);
      var read := AfterReadings(crashed, m, before);
      var u := Restarted(s, m, before, after);
      && Inv(u) && OnlyRead(crashed, read, m, before) && OnlyRead(Restate(read, s.tasks[m].order, Failed), u, m, after)
      && (s.live || (before == [] && after == []) ==> Runnable(s, acts) && Run(s, acts) == u)
  {
    RunningExit(s, m);
    var i := s.tasks[m].order;
    hide Inv, Runnable, Run, AfterReadings, OnlyRead;
    var first := CrashThenRead(s, m, before);
    var crashed := s.(tasks := map[], window := false);
    var read := AfterReadings(crashed, m, before);
    OnlyReadKeeps(crashed, read, m, before);
    var second := ExpireThenRead(read, i, m, after);
    acts := first + second;
    if s.live || (before == [] && after == []) {
      RunsJoin(s, first, second);
    }
  }

  // What the whole schedule leaves.
  lemma RestartedShape(s: Sys, m: Mint, before: seq<Reading>, after: seq<Reading>)
    requires Inv(s) && m in s.tasks && s.tasks[m].Exiting?
    ensures m in s.db.positions && s.tasks[m].order < |s.db.orders|
    ensures var i, u := s.tasks[m].order, Restarted(s, m, before, after);
      && Inv(u) && u.tasks == map[] && u.chain == s.chain && Abandoned(u, i)
      && u.db.orders == s.db.orders[i := s.db.orders[i].(state := Failed)]
      && u.db.positions == s.db.positions[m := ReadAll(s.db.positions[m], before + after)]
  {
    RunningExit(s, m);
    var acts := RestartIsARun(s, m, before, after);
    hide Inv, AfterReadings, ReadAll, Runnable, Times, Abandoned, OnlyRead, Restarted;
    var i, crashed, u := s.tasks[m].order, s.(tasks := map[], window := false), Restarted(s, m, before, after);
    TwoReads(crashed, AfterReadings(crashed, m, before), u, i, m, before, after);
    IdleIsAbandoned(u, i);
  }

  lemma TwoReads(t: Sys, read: Sys, u: Sys, i: nat, m: Mint, before: seq<Reading>, after: seq<Reading>)
    requires m in t.db.positions && i < |t.db.orders| == |read.db.orders| && m in read.db.positions
    requires OnlyRead(t, read, m, before) && OnlyRead(Restate(read, i, Failed), u, m, after)
    ensures u.db.orders == t.db.orders[i := t.db.orders[i].(state := Failed)] && u.tasks == t.tasks && u.chain == t.chain
    ensures u.db.positions == t.db.positions[m := ReadAll(t.db.positions[m], before + after)] && Times(u.ledger, i) == Times(t.ledger, i)
  {
    ReadAppend(t.db.positions[m], before, after);
    hide ReadAll, Times;
  }

  lemma IdleIsAbandoned(s: Sys, i: nat)
    requires i < |s.db.orders| && Times(s.ledger, i) == 0 && s.tasks == map[] && !Incomplete(s.db.orders[i])
    ensures Abandoned(s, i)
  {
  }

  // After a crash in mid-exit and the expiry of its order, the same quantity can be sold
  // again, although the first swap may be on chain, exactly when no balance reading showed
  // the token gone, and the last one with its recorded decimals, if any, showed the old quantity.
  lemma SameQuantitySellsAgainIff(s: Sys, m: Mint, reason: Bytes, before: seq<Reading>, after: seq<Reading>)
    requires Inv(s) && m in s.tasks && s.tasks[m].Exiting? && Sellable(s.db.positions[m]) && |s.db.orders| < Pow256(4)
    ensures var i, p := s.tasks[m].order, s.db.positions[m];
      && i < |s.db.orders|
      && var u, quantity, decimals := Restarted(s, m, before, after), TrustedRemaining(p).value, p.tokenDecimals.value;
      && u.chain == s.chain && Abandoned(u, i)
      && (SellsAgain(u, m, reason, quantity) <==>
            !Vanishes(quantity, decimals, before + after) && LastShown(quantity, decimals, before + after) == quantity)
  {
    var i, p := s.tasks[m].order, s.db.positions[m];
    RestartedShape(s, m, before, after);
    var u := Restarted(s, m, before, after);
    assert TaskOk(s, m) && p.positionId == s.db.orders[i].positionId;
    NoOtherExitInFlight(s, i, s.db.orders[i].(state := Failed));
    ReadingsMove(p, before + after);
    hide Inv, Sellable, Restarted, Abandoned, ReadAll, Vanishes, LastShown, TaskOk;
    assert !InFlightExit(u.db, p.positionId) && u.db.positions[m].positionId == p.positionId;
    assert ExitReady(u.db, m) <==> Sellable(u.db.positions[m]);
    if ExitReady(u.db, m) {
      ExitKeyIsFresh(u, m, reason);
    }
  }

  lemma NoOtherExitInFlight(s: Sys, i: nat, row: Order)
    requires Inv(s) && i < |s.db.orders| && s.db.orders[i].kind == Exit && Incomplete(s.db.orders[i])
    requires SameIdentity(s.db.orders[i], row) && !Incomplete(row)
    ensures forall db: Db :: db.orders == s.db.orders[i := row] ==> !InFlightExit(db, s.db.orders[i].positionId)
  {
    var id, orders := s.db.orders[i].positionId, s.db.orders[i := row];
    forall j | 0 <= j < |orders| ensures !(Incomplete(orders[j]) && IsExitOf(orders[j], id)) {
      if j != i {
        assert IsExitOf(s.db.orders[j], id) ==> !Incomplete(s.db.orders[j]);
      }
    }
  }

  // ---------- entries that can never be reconciled ----------

  // A live entry that executed but was not applied, with its signature on record.
  ghost predicate StuckEntry(s: Sys, i: nat) {
    && s.live && i < |s.db.orders| && !Held(s, i) && i in s.chain
    && s.db.orders[i].kind == Entry && s.db.orders[i].signed && Incomplete(s.db.orders[i])
  }

  // Its position id was made for it and is stored nowhere, so reconciliation finds no
  // position; the swap did execute, so it is neither failed nor expired.
  lemma StuckEntryResolvesToNothing(s: Sys, a: Act)
    requires Inv(s) && a.Resolve? && Enabled(s, a) && StuckEntry(s, a.order)
    ensures ResolveStep(s, a.order, a.holder, a.answer, a.monitor, a.write) == s
  {
    UnappliedHasNoFill(s, a.order);
    assert a.holder.None?;
    hide Inv;
  }

  lemma ChangeKeepsStuckEntry(s: Sys, t: Sys, a: Act, c: Change, i: nat)
    requires ChangedBy(s, t, c) && Authorised(s, a, c) && StuckEntry(s, i) && !(a.Resolve? && a.order == i)
    ensures StuckEntry(t, i)
  {
    forall n | n in t.tasks ensures t.tasks[n].order != i {
      assert n in s.tasks ==> s.tasks[n].order != i;
    }
  }

  lemma StepKeepsStuckEntry(s: Sys, a: Act, i: nat)
    requires Inv(s) && TaskOrdersExist(s) && Enabled(s, a) && StuckEntry(s, i)
    ensures StuckEntry(Step(s, a), i) && !a.OpenWindow?
    ensures !s.window ==> !Step(s, a).window && !a.ReserveEntry?
  {
    var c := StepChanges(s, a);
    hide Inv, ResolveStep, CommitStep, SubmitStep, ExecuteStep, Finish, AdjustStep;
    if a.Resolve? && a.order == i {
      StuckEntryResolvesToNothing(s, a);
    } else {
      ChangeKeepsStuckEntry(s, Step(s, a), a, c, i);
    }
  }

  // From then on no run ever opens the entry gate again.
  lemma {:induction false} StuckEntryBlocksAllEntries(s: Sys, acts: seq<Act>, i: nat)
    requires Inv(s) && Runnable(s, acts) && StuckEntry(s, i)
    ensures StuckEntry(Run(s, acts), i)
    ensures forall k :: 0 <= k < |acts| ==> !acts[k].OpenWindow?
    ensures !s.window ==> forall k :: 0 <= k < |acts| ==> !acts[k].ReserveEntry?
    decreases |acts|
  {
    if acts != [] {
      StepKeepsStuckEntry(s, acts[0], i);
      StepKeepsInv(s, acts[0]);
      hide Inv, Enabled, Step, StuckEntry;
      StuckEntryBlocksAllEntries(Step(s, acts[0]), acts[1..], i);
    }
  }

  // One failed transaction after a live entry's swap is enough to get there.
  lemma FailedEntryTransactionSticks(s: Sys, m: Mint)
    requires Inv(s) && TaskOrdersExist(s) && s.live && m in s.tasks && s.tasks[m].Entering?
    requires Enabled(s, Commit(m, BeforeTransition, true))
    ensures StuckEntry(Step(s, Commit(m, BeforeTransition, true)), s.tasks[m].order)
  {
    var i := s.tasks[m].order;
    assert TaskOk(s, m);
    hide Accounted;
    var t := Step(s, Commit(m, BeforeTransition, true));
    assert t == Finish(s, m, i, s.db.orders[i].(state := Unknown, signed := true), true);
    forall n | n in t.tasks ensures t.tasks[n].order != i {
      assert TaskOk(s, n);
    }
  }

  // An entry whose position is found, in any store: without a cost model its fill is only
  // kept for audit and the order fails; with one it is posted as a purchase on the token's
  // position.  Both need a price and a state that allows the move.
  lemma RecordedEntryMeans(db: Db, o: Order, holder: Mint, outcome: Outcome)
    requires holder in db.positions && o.kind == Entry
    ensures var p, r := db.positions[holder], RecordReconciledFill(db, o, Some(holder), outcome);
      var priced := PriceOutcome(o, p, outcome);
      && (priced.Some? <==>
            && o.inputValue.Some? && p.tokenDecimals.Some? && p.baseDecimals.Some?
            && Pow10(p.tokenDecimals.value) <= U64_MAX && Pow10(p.baseDecimals.value) <= U64_MAX && outcome.output > 0)
      && (r.AuditOnly? <==> priced.Some? && !p.hasCostModel && (o.state == Failed || CanTransition(o.state, Failed)))
      && (r.Posted? <==>
            && priced.Some? && p.hasCostModel && p.baseMint.Some? && o.positionId.Some?
            && (o.state == Confirmed || CanTransition(o.state, Confirmed)))
      && (r.AuditOnly? || r.Posted? ==>
            && r.fill.input == outcome.input && r.fill.output == outcome.output && r.fill.fees == outcome.fees
            && r.fill.value == o.inputValue && r.fill.price == priced.value.price)
      && (r.Posted? ==>
            Ok(r.position) == ApplyEntry(if o.mint in db.positions then Some(db.positions[o.mint]) else None, o.positionId.value,
                                         p.baseMint.value, p.tokenDecimals.value, p.baseDecimals.value, r.fill))
  {
    var p := db.positions[holder];
    if o.inputValue.Some? && p.tokenDecimals.Some? && p.baseDecimals.Some? {
      PriceFillMeans(InputValueUsd(o.inputValue.value), outcome.input, p.baseDecimals.value, outcome.output, p.tokenDecimals.value);
      var r := PriceOutcome(o, p, outcome);
      if r.Some? && p.baseMint.Some? && o.positionId.Some? {
        EntryMeans(if o.mint in db.positions then Some(db.positions[o.mint]) else None, o.positionId.value, p.baseMint.value,
                   p.tokenDecimals.value, p.baseDecimals.value, OutcomeFill(outcome, r.value));
      }
    }
    hide PriceFill, ApplyEntry, Comes, Pow10;
  }
}
