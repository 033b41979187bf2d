// What the serialisation of Lifecycle.dfy is needed for: the session loop and the
// exit monitor are two tasks over one store, and these are the exact conditions
// under which their unserialised meetings stay harmless.
module Races {
  import opened Wrappers
  import opened Orders
  import opened ExitKeys
  import opened Portfolio
  import opened Lifecycle
  import opened Invariants
  import opened Recovery

  // ---------- two reservations past one check ----------

  // The order an exit makes of a position and of the history it read.  The in-flight
  // check and the history are two separate reads of the store.
  function ExitOrderFrom(p: Position, m: Mint, reason: Bytes, history: seq<Order>): Order
    requires Sellable(p)
  {
    var remaining, id := TrustedRemaining(p).value, p.positionId.value;
    Order(Exit, m, [], Some(id), ExitKey(id, remaining, reason, CountExits(history, id)),
          remaining, Some(MarkValue(Units(remaining, p.tokenDecimals.value).value, p.basePrice.value)), reason, Pending, false)
  }

  // Row n was reserved after another task passed its in-flight check.  That task, with
  // the position it read and a history of the first k rows, is refused exactly when it
  // read the history before row n was there and sells the same quantity for the same
  // reason; in every other case a second exit of the position is in flight.
  lemma LateReservationIsRefusedIff(s: Sys, n: nat, k: nat, p: Position, reason: Bytes)
    requires Inv(s) && n < |s.db.orders| < Pow256(4) && n <= k <= |s.db.orders|
    requires s.db.orders[n].kind == Exit && Incomplete(s.db.orders[n])
    requires forall j :: n < j < |s.db.orders| ==> !IsExitOf(s.db.orders[j], s.db.orders[n].positionId)
    requires Sellable(p) && p.positionId == s.db.orders[n].positionId
    ensures var o := s.db.orders[n];
      var late := ExitOrderFrom(p, o.mint, reason, s.db.orders[..k]);
      && (KeyTaken(s.db, late.key) <==> k == n && late.inputAmount == o.inputAmount && reason == o.reason)
      && !OneExitInFlight(s.db.orders + [late])
  {
    var orders, o, id := s.db.orders, s.db.orders[n], p.positionId.value;
    var late := ExitOrderFrom(p, o.mint, reason, orders[..k]);
    assert OrdersOk(orders, s.ids) && IdsOk(orders, s.db.positions);
    assert OrderOk(orders, n, s.ids);
    hide Inv, OrdersOk, OneExitInFlight;
    NoExitBetween(orders, n, k, id);
    forall i | 0 <= i < |orders|
      ensures orders[i].key == late.key <==> i == n && k == n && late.inputAmount == o.inputAmount && reason == o.reason
    {
      KeyMeetsRow(s, i, n, late, orders[..k]);
      LaterExitsCount(orders, n, i, id);
    }
    assert KeyTaken(s.db, late.key) <==> orders[n].key == late.key;
    TwoInFlight(orders, n, late);
  }

  lemma TwoInFlight(orders: seq<Order>, n: nat, late: Order)
    requires n < |orders| && orders[n].kind == Exit && Incomplete(orders[n])
    requires Incomplete(late) && IsExitOf(late, orders[n].positionId)
    ensures !OneExitInFlight(orders + [late])
  {
    var both := orders + [late];
    assert both[n] == orders[n] && both[|orders|] == late;
  }

  // Which rows carry the key of an exit that read a given history.
  lemma KeyMeetsRow(s: Sys, i: nat, n: nat, late: Order, history: seq<Order>)
    requires OrdersOk(s.db.orders, s.ids) && IdsOk(s.db.orders, s.db.positions) && i < |s.db.orders| < Pow256(4)
    requires late.kind == Exit && late.positionId.Some? && |history| <= |s.db.orders|
    requires n < |s.db.orders| && IsExitOf(s.db.orders[n], late.positionId)
    requires late.key == ExitKey(late.positionId.value, late.inputAmount, late.reason, CountExits(history, late.positionId.value))
    ensures var row, id := s.db.orders[i], late.positionId.value;
      row.key == late.key <==>
        && IsExitOf(row, late.positionId) && row.inputAmount == late.inputAmount && row.reason == late.reason
        && CountExits(s.db.orders[..i], id) == CountExits(history, id)
  {
    var row, id := s.db.orders[i], late.positionId.value;
    assert OrderOk(s.db.orders, i, s.ids) && OrderOk(s.db.orders, n, s.ids);
    assert row.kind == Entry ==> row.signalId != id;
    hide OrdersOk, IdsOk, ExitKey, EntryKey, Pow256;
    CountsFit(history, id);
    if row.kind == Exit {
      CountsFit(s.db.orders[..i], row.positionId.value);
      KeyMeetsExit(row, CountExits(s.db.orders[..i], row.positionId.value), late, CountExits(history, id));
    } else {
      KeyMissesEntry(row, late, CountExits(history, id));
    }
    hide CountExits;
  }

  lemma KeyMeetsExit(row: Order, before: nat, late: Order, seen: nat)
    requires row.positionId.Some? && late.positionId.Some? && |row.positionId.value| == |late.positionId.value|
    requires row.key == ExitKey(row.positionId.value, row.inputAmount, row.reason, before) && before < Pow256(4)
    requires late.key == ExitKey(late.positionId.value, late.inputAmount, late.reason, seen) && seen < Pow256(4)
    ensures row.key == late.key <==>
      row.positionId == late.positionId && row.inputAmount == late.inputAmount && row.reason == late.reason && before == seen
  {
    Pow256Values();
    ExitKeyInjective(row.positionId.value, row.inputAmount, row.reason, before, late.positionId.value, late.inputAmount, late.reason, seen);
    hide ExitKey, Pow256;
  }

  lemma KeyMissesEntry(row: Order, late: Order, seen: nat)
    requires late.positionId.Some? && |row.signalId| == |late.positionId.value| && row.signalId != late.positionId.value
    requires row.key == EntryKey(row.signalId, row.mint, row.inputAmount)
    requires late.key == ExitKey(late.positionId.value, late.inputAmount, late.reason, seen)
    ensures row.key != late.key
  {
    var tail, tail' := row.mint + LittleEndian(row.inputAmount, 8),
      LittleEndian(late.inputAmount, 8) + late.reason + LittleEndian(seen, 4);
    assert row.key == row.signalId + tail && late.key == late.positionId.value + tail';
    DifferentHeads(row.signalId, tail, late.positionId.value, tail');
  }

  lemma {:induction false} NoExitBetween(orders: seq<Order>, n: nat, k: nat, id: Bytes)
    requires n < |orders| && n <= k <= |orders| && IsExitOf(orders[n], Some(id))
    requires forall j :: n < j < |orders| ==> !IsExitOf(orders[j], Some(id))
    ensures CountExits(orders[..k], id) == CountExits(orders[..n], id) + (if k > n then 1 else 0)
    decreases k
  {
    if k > n {
      assert orders[..k][..k - 1] == orders[..k - 1];
      NoExitBetween(orders, n, k - 1, id);
    }
  }

  // Row n is the last exit of its position: no row has as many before it.
  lemma LaterExitsCount(orders: seq<Order>, n: nat, i: nat, id: Bytes)
    requires n < |orders| && i < |orders| && IsExitOf(orders[n], Some(id))
    requires forall j :: n < j < |orders| ==> !IsExitOf(orders[j], Some(id))
    ensures IsExitOf(orders[i], Some(id)) && i != n ==> CountExits(orders[..i], id) < CountExits(orders[..n], id)
  {
    if i < n {
      assert orders[..n][..i] == orders[..i] && orders[..n][i] == orders[i];
      CountExitsMonotone(orders[..n], i, id);
    }
  }

  // Both tasks passed the check and read the position before either reserved.  Whoever
  // comes second is refused exactly when both exit for the same reason and the second
  // had read the history before the first reservation; otherwise two exits are in flight.
  lemma SecondReservationSucceedsIff(s: Sys, m: Mint, first: Bytes, second: Bytes, early: bool)
    requires Inv(s) && m !in s.tasks && ExitReady(s.db, m) && |s.db.orders| + 1 < Pow256(4)
    ensures var after := ReserveExitStep(s, m, first).db;
      var o := ExitOrderFrom(s.db.positions[m], m, second, if early then s.db.orders else after.orders);
      && Enabled(s, ReserveExit(m, first))
      && (!KeyTaken(after, o.key) <==> first != second || !early)
      && !OneExitInFlight(after.orders + [o])
  {
    var t := ReserveExitStep(s, m, first);
    var n := |s.db.orders|;
    ReserveExitKeepsInv(s, m, first);
    ExitKeyIsFresh(s, m, first);
    hide Inv, OneExitInFlight;
    assert t.db.orders[..n] == s.db.orders && t.db.orders[..n + 1] == t.db.orders;
    LateReservationIsRefusedIff(t, n, if early then n else n + 1, s.db.positions[m], second);
  }

  // ---------- whole-position saves ----------

  // `save_position`: the row is overwritten whatever it holds now.
  function SavePosition(s: Sys, m: Mint, p: Position): Sys {
    s.(db := s.db.(positions := s.db.positions[m := p]))
  }

  ghost predicate ConservedIn(s: Sys, m: Mint) {
    ConservedAt(s.db.positions, Opening(s.opening, m), s.ledger, m)
  }

  // The exit monitor marks the position it loaded and saves it after another task's
  // exit was committed.
  function MarkedOver(s: Sys, i: nat, fill: Fill, p: Position, price: real): Sys
    requires i < |s.db.orders| && s.db.orders[i].mint in s.db.positions
    requires MarkToMarket(s.db.positions[s.db.orders[i].mint], price).Ok?
  {
    var m := s.db.orders[i].mint;
    SavePosition(Post(s, i, fill, p), m, MarkToMarket(s.db.positions[m], price).value)
  }

  // The token's quantity is still what the recorded fills say exactly when nothing was
  // sold; other tokens are not touched.
  lemma StaleMarkConservesIff(s: Sys, i: nat, fill: Fill, p: Position, price: real)
    requires Inv(s) && i < |s.db.orders| && Incomplete(s.db.orders[i]) && s.db.orders[i].kind == Exit && Accounts(s, i, fill, p)
    requires MarkToMarket(s.db.positions[s.db.orders[i].mint], price).Ok?
    requires Fits(Opening(s.opening, s.db.orders[i].mint), s.ledger, s.db.orders[i].mint)
    ensures var m := s.db.orders[i].mint;
      var after := MarkedOver(s, i, fill, p, price);
      && (ConservedIn(after, m) <==> fill.input == 0)
      && forall n :: n != m ==> ConservedIn(after, n)
  {
    var m := s.db.orders[i].mint;
    var posted, after := Post(s, i, fill, p), MarkedOver(s, i, fill, p, price);
    assert ConservedIn(s, m);
    PostConserves(s, i, fill, p);
    AppendPosting(Opening(s.opening, m), s.ledger, posted.ledger[|s.ledger|], m, i);
    hide Inv, Accounts;
    forall n | n != m ensures ConservedIn(after, n) {
      assert ConservedIn(posted, n);
    }
  }

  // And when it was sellable before, the quantity already sold is offered once more.
  lemma StaleMarkSellsAgain(s: Sys, i: nat, fill: Fill, p: Position, price: real, reason: Bytes)
    requires Inv(s) && i < |s.db.orders| && Incomplete(s.db.orders[i]) && s.db.orders[i].kind == Exit && Accounts(s, i, fill, p)
    requires Sellable(s.db.positions[s.db.orders[i].mint]) && |s.db.orders| < Pow256(4)
    requires MarkToMarket(s.db.positions[s.db.orders[i].mint], price).Ok?
    ensures var m := s.db.orders[i].mint;
      var db := MarkedOver(s, i, fill, p, price).db;
      && ExitReady(db, m)
      && NewExitOrder(db, m, reason).inputAmount == TrustedRemaining(s.db.positions[m]).value
      && !KeyTaken(db, NewExitOrder(db, m, reason).key)
  {
    var m := s.db.orders[i].mint;
    var row := s.db.orders[i].(state := Confirmed, signed := true);
    var db := MarkedOver(s, i, fill, p, price).db;
    NoOtherExitInFlight(s, i, row);
    assert db.positions[m].positionId == s.db.orders[i].positionId;
    assert ExitReady(db, m);
    FreshAfterRewrite(s, i, row, db, m, reason);
  }

  lemma FreshAfterRewrite(s: Sys, i: nat, row: Order, db: Db, m: Mint, reason: Bytes)
    requires Inv(s) && i < |s.db.orders| && Incomplete(s.db.orders[i]) && SameIdentity(s.db.orders[i], row)
    requires (row.state == Pending ==> !row.signed) && db.orders == s.db.orders[i := row] && |s.db.orders| < Pow256(4)
    requires m in s.db.positions && ExitReady(db, m) && db.positions[m].positionId == s.db.positions[m].positionId
    ensures !KeyTaken(db, NewExitOrder(db, m, reason).key)
  {
    RewriteKeepsOrders(s.db.orders, s.ids, i, row);
    RewriteKeepsTheRest(s, i, row);
    assert PositionIdOk(db.positions[m]);
    var same := db.(positions := s.db.positions[m := db.positions[m]]);
    assert IdsOk(same.orders, same.positions);
    hide Inv, ExitReady, OrdersOk;
    KeyIgnoresOtherTokens(db, same, m, reason);
    FreshInTable(same, s.ids, m, reason);
  }

  lemma KeyIgnoresOtherTokens(db: Db, same: Db, m: Mint, reason: Bytes)
    requires ExitReady(db, m) && same.orders == db.orders && m in same.positions && same.positions[m] == db.positions[m]
    ensures ExitReady(same, m) && NewExitOrder(same, m, reason) == NewExitOrder(db, m, reason)
    ensures forall key :: KeyTaken(same, key) <==> KeyTaken(db, key)
  {
  }

  // ---------- two exits from one snapshot ----------

  // Both tasks reserved, then both committed what they made of the position they read
  // before either sold: `sync_position` puts that position back first.
  ghost function BothReserved(s: Sys, m: Mint, first: Bytes, second: Bytes): Sys
    requires ExitReady(s.db, m)
  {
    s.(db := s.db.(orders := s.db.orders + [NewExitOrder(s.db, m, first), NewExitOrder(s.db, m, second)]))
  }

  ghost function BothCommitted(s: Sys, m: Mint, first: Bytes, second: Bytes, sold: Fill, again: Fill): Sys
    requires ExitReady(s.db, m) && ApplyExit(s.db.positions[m], sold).Ok? && ApplyExit(s.db.positions[m], again).Ok?
  {
    var n := |s.db.orders|;
    Post(Post(BothReserved(s, m, first, second), n, sold, ApplyExit(s.db.positions[m], sold).value),
         n + 1, again, ApplyExit(s.db.positions[m], again).value)
  }

  lemma BothCommittedShape(s: Sys, m: Mint, first: Bytes, second: Bytes, sold: Fill, again: Fill)
    requires ExitReady(s.db, m) && ApplyExit(s.db.positions[m], sold).Ok? && ApplyExit(s.db.positions[m], again).Ok?
    ensures var n := |s.db.orders|;
      var t := BothCommitted(s, m, first, second, sold, again);
      && t.opening == s.opening
      && t.ledger == s.ledger + [Applied(n, m, 0 - sold.input)] + [Applied(n + 1, m, 0 - again.input)]
      && |t.db.orders| == n + 2 && t.db.orders[n].state == Confirmed && t.db.orders[n + 1].state == Confirmed
      && n in t.db.fills && n + 1 in t.db.fills
      && m in t.db.positions && t.db.positions[m] == ApplyExit(s.db.positions[m], again).value
  {
    hide ExitReady, ApplyExit;
  }

  // Both fills are recorded, each applied once, to a Confirmed order.
  lemma BothAreRecorded(s: Sys, m: Mint, first: Bytes, second: Bytes, sold: Fill, again: Fill)
    requires Inv(s) && ExitReady(s.db, m)
    requires ApplyExit(s.db.positions[m], sold).Ok? && ApplyExit(s.db.positions[m], again).Ok?
    ensures var n := |s.db.orders|;
      var t := BothCommitted(s, m, first, second, sold, again);
      && |t.db.orders| == n + 2 && t.db.orders[n].state == Confirmed && t.db.orders[n + 1].state == Confirmed
      && n in t.db.fills && n + 1 in t.db.fills && Times(t.ledger, n) == 1 && Times(t.ledger, n + 1) == 1
  {
    BothCommittedShape(s, m, first, second, sold, again);
    hide Inv, ExitReady, BothCommitted, Times, ApplyExit;
    var n := |s.db.orders|;
    FreshIndices(s, m);
    var a, b := Applied(n, m, 0 - sold.input), Applied(n + 1, m, 0 - again.input);
    TwoPostings(0, s.ledger, a, b, m, n);
    TwoPostings(0, s.ledger, a, b, m, n + 1);
  }

  // And yet the quantity agrees with the fills exactly when the first sold nothing.
  lemma TwoExitsFromOneSnapshotConserveIff(s: Sys, m: Mint, first: Bytes, second: Bytes, sold: Fill, again: Fill)
    requires Inv(s) && ExitReady(s.db, m) && Fits(Opening(s.opening, m), s.ledger, m)
    requires ApplyExit(s.db.positions[m], sold).Ok? && ApplyExit(s.db.positions[m], again).Ok?
    ensures ConservedIn(BothCommitted(s, m, first, second, sold, again), m) <==> sold.input == 0
  {
    BothCommittedShape(s, m, first, second, sold, again);
    assert m in s.db.positions;
    hide Inv, ExitReady, BothCommitted, Balance, Fits, ApplyExit;
    var n, start := |s.db.orders|, Opening(s.opening, m);
    FreshIndices(s, m);
    ExitSubtracts(s.db.positions[m], sold);
    ExitSubtracts(s.db.positions[m], again);
    TwoPostings(start, s.ledger, Applied(n, m, 0 - sold.input), Applied(n + 1, m, 0 - again.input), m, n);
  }

  lemma ExitSubtracts(p: Position, fill: Fill)
    requires ApplyExit(p, fill).Ok?
    ensures p.remaining.Some? && fill.input <= p.remaining.value
    ensures ApplyExit(p, fill).value.remaining == Some(p.remaining.value - fill.input)
  {
  }

  lemma FreshIndices(s: Sys, m: Mint)
    requires Inv(s)
    ensures ConservedIn(s, m) && forall i: nat :: i >= |s.db.orders| ==> Times(s.ledger, i) == 0
  {
  }

  lemma TwoPostings(start: int, ledger: seq<Posting>, a: Posting, b: Posting, m: Mint, k: nat)
    requires a.Applied? && b.Applied? && a.order != b.order
    ensures Times(ledger + [a] + [b], k) == Times(ledger, k) + (if k == a.order || k == b.order then 1 else 0)
    ensures Balance(start, ledger + [a] + [b], m) == Balance(start, ledger, m) + DeltaFor(a, m) + DeltaFor(b, m)
    ensures a.delta <= 0 && b.delta <= 0 && Fits(start, ledger, m) ==> Fits(start, ledger + [a] + [b], m)
  {
    AppendPosting(start, ledger, a, m, k);
    AppendPosting(start, ledger + [a], b, m, k);
  }

  // ---------- rows overwritten under a running task ----------

  // Two reconcilers holding the same unfinished row: the second applies the fill a
  // second time exactly when the position still holds that much.
  lemma SecondReconcilerPostsAgainIff(s: Sys, i: nat, outcome: Outcome)
    requires Inv(s) && i < |s.db.orders| && Incomplete(s.db.orders[i])
    requires s.db.orders[i].mint in s.db.positions
    requires var o := s.db.orders[i]; RecordReconciledFill(s.db, o, Some(o.mint), outcome).Posted? && o.kind == Exit
    ensures var o := s.db.orders[i];
      var r := RecordReconciledFill(s.db, o, Some(o.mint), outcome);
      var after := Post(s, i, r.fill, r.position).db;
      && o.mint in after.positions
      && (RecordReconciledFill(after, o, Some(o.mint), outcome).Posted?
          <==> 2 * outcome.input <= s.db.positions[o.mint].remaining.value)
  {
    hide Inv;
  }

  // A reconciler meets the row of an exit that another task is still working on.  The
  // guards then admit a second exit exactly when its rule fails unsigned rows of that
  // age and mode; paper mode does so at once, the monitor never before expiry.
  lemma SecondExitWhileFirstRunsIff(s: Sys, m: Mint, aged: bool, monitor: bool)
    requires Inv(s) && m in s.tasks && s.tasks[m].Exiting? && Sellable(s.db.positions[m])
    ensures var i := s.tasks[m].order;
      && i < |s.db.orders|
      && (ExitReady(ResolveStep(s, i, None, NeverSubmitted(aged), monitor, true).db, m) <==> (!s.live && !monitor) || aged)
  {
    var i := s.tasks[m].order;
    assert TaskOk(s, m);
    var failed := s.db.orders[i].(state := Failed);
    NoOtherExitInFlight(s, i, failed);
    UnsignedRule(s, i, aged, monitor);
    assert s.db.positions[m].positionId == s.db.orders[i].positionId;
    assert IsExitOf(s.db.orders[i], s.db.positions[m].positionId);
    assert InFlightExit(s.db, s.db.positions[m].positionId);
    hide Inv, Sellable, TaskOk, ResolveStep, InFlightExit;
  }

  lemma UnsignedRule(s: Sys, i: nat, aged: bool, monitor: bool)
    requires i < |s.db.orders| && (s.db.orders[i].state == Pending || s.db.orders[i].state == Submitted)
    ensures ResolveStep(s, i, None, NeverSubmitted(aged), monitor, true)
      == if (!s.live && !monitor) || aged then WithOrder(s, i, s.db.orders[i].(state := Failed)) else s
  {
  }

  // The store after such a pass, and after the second reservation it lets through; the
  // first task goes on in both.
  ghost function FailedUnder(s: Sys, m: Mint): Sys
    requires m in s.tasks && s.tasks[m].order < |s.db.orders|
  {
    var i := s.tasks[m].order;
    WithOrder(s, i, s.db.orders[i].(state := Failed))
  }

  ghost function Overtaken(s: Sys, m: Mint, reason: Bytes): Sys
    requires m in s.tasks && s.tasks[m].order < |s.db.orders| && ExitReady(FailedUnder(s, m).db, m)
  {
    var t := FailedUnder(s, m);
    t.(db := t.db.(orders := t.db.orders + [NewExitOrder(t.db, m, reason)]))
  }

  // The whole quantity is reserved again under a fresh key while the first task runs.
  lemma FailedRowSellsAgain(s: Sys, m: Mint, aged: bool, monitor: bool, reason: Bytes)
    requires Inv(s) && m in s.tasks && s.tasks[m].Exiting? && Sellable(s.db.positions[m]) && |s.db.orders| < Pow256(4)
    ensures var i := s.tasks[m].order;
      && i < |s.db.orders|
      && var t := FailedUnder(s, m);
      && ((!s.live && !monitor) || aged ==> ResolveStep(s, i, None, NeverSubmitted(aged), monitor, true) == t)
      && ExitReady(t.db, m)
      && NewExitOrder(t.db, m, reason).inputAmount == TrustedRemaining(s.db.positions[m]).value
      && !KeyTaken(t.db, NewExitOrder(t.db, m, reason).key)
  {
    var i := s.tasks[m].order;
    assert TaskOk(s, m);
    var row := s.db.orders[i].(state := Failed);
    UnsignedRule(s, i, aged, monitor);
    NoOtherExitInFlight(s, i, row);
    var t := FailedUnder(s, m);
    hide Inv, Sellable, ResolveStep, TaskOk;
    assert s.db.positions[m].positionId == s.db.orders[i].positionId;
    assert ExitReady(t.db, m);
    FreshAfterRewrite(s, i, row, t.db, m, reason);
  }

  // An act by which the task on a token goes on.
  predicate OwnAct(a: Act, m: Mint) {
    match a
    case QuoteRefused(n, _) => n == m
    case Submit(n, _) => n == m
    case Execute(n, _) => n == m
    case Commit(n, _, _) => n == m
    case SaveUnknown(n, _) => n == m
    case SaveFailed(n, _) => n == m
    case _ => false
  }

  // Saving the row as Submitted or Unknown: the submission, the uncertain outcome, and
  // the failed transaction whose record had not moved on.
  ghost predicate SavesUnfinished(s: Sys, m: Mint, a: Act)
    requires m in s.tasks && s.tasks[m].order < |s.db.orders|
  {
    match a
    case Submit(_, write) => write
    case SaveUnknown(_, write) => write
    case Commit(_, fault, write) =>
      s.tasks[m].phase.Filled? && write && (fault.BeforeTransition? || Accounted(s, s.tasks[m], s.tasks[m].phase.fill).Err?)
    case _ => false
  }

  // After that the first task's next act, whatever its phase, leaves two exits in flight
  // exactly when it saves Submitted or Unknown over the terminal row, against the
  // transition table.
  lemma RevivedRowLeavesTwoExitsIff(s: Sys, m: Mint, reason: Bytes, a: Act)
    requires Inv(s) && m in s.tasks && s.tasks[m].Exiting? && Sellable(s.db.positions[m]) && |s.db.orders| < Pow256(4)
    requires OwnAct(a, m)
    ensures s.tasks[m].order < |s.db.orders| && ExitReady(FailedUnder(s, m).db, m)
    ensures var i, t := s.tasks[m].order, Overtaken(s, m, reason);
      && TaskOrdersExist(t)
      && (Enabled(t, a) ==>
            && (!OneExitInFlight(Step(t, a).db.orders) <==> SavesUnfinished(t, m, a))
            && |Step(t, a).db.orders| == |t.db.orders|
            && (SavesUnfinished(t, m, a) ==> Transition(Failed, Step(t, a).db.orders[i].state).None?))
  {
    OvertakenShape(s, m, reason);
    var i, o, t := s.tasks[m].order, NewExitOrder(FailedUnder(s, m).db, m, reason), Overtaken(s, m, reason);
    hide Inv, Sellable, OneExitInFlight, TaskOrdersExist, Enabled, Step, SavesUnfinished, ExitReady, NewExitOrder, FailedUnder, Overtaken;
    if Enabled(t, a) {
      OwnActRewrites(t, m, a);
      var row := Step(t, a).db.orders[i];
      assert Step(t, a).db.orders == s.db.orders[i := row] + [o];
      TwoExitsIff(s.db.orders, i, row, o);
    }
  }

  lemma OvertakenShape(s: Sys, m: Mint, reason: Bytes)
    requires Inv(s) && m in s.tasks && s.tasks[m].Exiting? && Sellable(s.db.positions[m]) && |s.db.orders| < Pow256(4)
    ensures s.tasks[m].order < |s.db.orders| && ExitReady(FailedUnder(s, m).db, m)
    ensures var i, t, o := s.tasks[m].order, Overtaken(s, m, reason), NewExitOrder(FailedUnder(s, m).db, m, reason);
      && t.tasks == s.tasks && TaskOrdersExist(t) && t.db.orders == s.db.orders[i := s.db.orders[i].(state := Failed)] + [o]
      && OneExitInFlight(s.db.orders) && s.db.orders[i].kind == Exit && Incomplete(s.db.orders[i])
      && IsExitOf(o, s.db.orders[i].positionId) && Incomplete(o)
  {
    FailedRowSellsAgain(s, m, true, false, reason);
    TasksHaveOrders(s);
    assert TaskOk(s, m) && OneExitInFlight(s.db.orders);
    assert s.db.positions[m].positionId == s.db.orders[s.tasks[m].order].positionId;
    hide Inv, Sellable, OneExitInFlight, TaskOk, ExitReady, KeyTaken;
  }

  // The row the task leaves when it acts on a row that was failed under it.
  ghost predicate LeavesRow(t: Sys, m: Mint, u: Sys, unfinished: bool)
    requires m in t.tasks && t.tasks[m].order < |t.db.orders|
  {
    var i := t.tasks[m].order;
    && |u.db.orders| == |t.db.orders| && u.db.orders == t.db.orders[i := u.db.orders[i]]
    && SameIdentity(t.db.orders[i], u.db.orders[i])
    && (Incomplete(u.db.orders[i]) <==> unfinished)
    && (unfinished ==> Transition(Failed, u.db.orders[i].state).None?)
  }

  lemma RewriteLeavesRow(t: Sys, m: Mint, u: Sys, row: Order)
    requires m in t.tasks && t.tasks[m].order < |t.db.orders| && t.db.orders[t.tasks[m].order].state == Failed
    requires u.db.orders == t.db.orders[t.tasks[m].order := row] && SameIdentity(t.db.orders[t.tasks[m].order], row)
    ensures LeavesRow(t, m, u, Incomplete(row))
  {
  }

  lemma FinishLeavesRow(t: Sys, m: Mint, row: Order, write: bool)
    requires m in t.tasks && t.tasks[m].order < |t.db.orders| && t.db.orders[t.tasks[m].order].state == Failed
    requires SameIdentity(t.db.orders[t.tasks[m].order], row)
    ensures LeavesRow(t, m, Finish(t, m, t.tasks[m].order, row, write), write && Incomplete(row))
  {
    var i := t.tasks[m].order;
    RewriteLeavesRow(t, m, Finish(t, m, i, row, write), if write then row else t.db.orders[i]);
    hide LeavesRow;
  }

  lemma OwnActRewrites(t: Sys, m: Mint, a: Act)
    requires m in t.tasks && t.tasks[m].Exiting? && TaskOrdersExist(t) && Enabled(t, a) && OwnAct(a, m)
    requires t.db.orders[t.tasks[m].order].state == Failed
    ensures LeavesRow(t, m, Step(t, a), SavesUnfinished(t, m, a))
  {
    assert t.tasks[m].order < |t.db.orders|;
    hide LeavesRow, ResolveStep, AdjustStep, ReserveExitStep, ReserveEntryStep, ReconcileWithChain, ExitReady, KeyTaken, NewExitOrder,
      ApplyExit, ApplyEntry, Holds, Held, CommitStep, SubmitStep, ExecuteStep, Finish, Accounted, TaskOrdersExist;
    match a {
      case Commit(_, fault, write) => CommitLeavesRow(t, m, fault, write);
      case Submit(_, write) => SubmitLeavesRow(t, m, write);
      case Execute(_, result) => ExecuteLeavesRow(t, m, result);
      case QuoteRefused(_, write) => FinishLeavesRow(t, m, SavedRow(t, m), write);
      case SaveUnknown(_, write) => FinishLeavesRow(t, m, SavedRow(t, m), write);
      case SaveFailed(_, write) => FinishLeavesRow(t, m, SavedRow(t, m), write);
    }
  }

  lemma SubmitLeavesRow(t: Sys, m: Mint, write: bool)
    requires m in t.tasks && t.tasks[m].Exiting? && t.tasks[m].order < |t.db.orders|
    requires t.db.orders[t.tasks[m].order].state == Failed
    ensures LeavesRow(t, m, SubmitStep(t, m, write), write)
  {
    var o := t.db.orders[t.tasks[m].order];
    RewriteLeavesRow(t, m, SubmitStep(t, m, write), if write then o.(state := Submitted) else o);
    hide LeavesRow;
  }

  lemma ExecuteLeavesRow(t: Sys, m: Mint, result: Executed)
    requires m in t.tasks && t.tasks[m].order < |t.db.orders| && t.db.orders[t.tasks[m].order].state == Failed
    ensures LeavesRow(t, m, ExecuteStep(t, m, result), false)
  {
    RewriteLeavesRow(t, m, ExecuteStep(t, m, result), t.db.orders[t.tasks[m].order]);
    hide LeavesRow;
  }

  lemma CommitLeavesRow(t: Sys, m: Mint, fault: Fault, write: bool)
    requires m in t.tasks && t.tasks[m].phase.Filled? && t.tasks[m].order < |t.db.orders|
    requires t.db.orders[t.tasks[m].order].state == Failed
    ensures LeavesRow(t, m, CommitStep(t, m, fault, write),
      write && (fault.BeforeTransition? || Accounted(t, t.tasks[m], t.tasks[m].phase.fill).Err?))
  {
    var i := t.tasks[m].order;
    var o, accounted := t.db.orders[i], Accounted(t, t.tasks[m], t.tasks[m].phase.fill);
    hide Accounted, LeavesRow;
    if accounted.Ok? && fault.NoFault? {
      RewriteLeavesRow(t, m, CommitStep(t, m, fault, write), o.(state := OrderState.Confirmed, signed := true));
    } else {
      var kept := if accounted.Ok? && fault.AfterTransition? then OrderState.Confirmed else OrderState.Unknown;
      FinishLeavesRow(t, m, o.(state := kept, signed := true), write);
      hide Finish, Post, DropTask;
    }
  }

  lemma TwoExitsIff(before: seq<Order>, i: nat, row: Order, o: Order)
    requires OneExitInFlight(before) && i < |before| && before[i].kind == Exit && Incomplete(before[i]) && SameIdentity(before[i], row)
    requires IsExitOf(o, before[i].positionId) && Incomplete(o)
    ensures OneExitInFlight(before[i := row] + [o]) <==> !Incomplete(row)
  {
    var after := before[i := row] + [o];
    if Incomplete(row) {
      assert after[i] == row && after[|before|] == o;
    } else {
      forall j, k | 0 <= j < k < |after| && after[j].kind == Exit && after[k].kind == Exit && after[j].positionId == after[k].positionId
        ensures !(Incomplete(after[j]) && Incomplete(after[k]))
      {
        if k == |before| && j != i {
          NoTwoExits(before, i, j);
        }
      }
    }
  }

  // ---------- a stale verdict over a posted fill ----------

  // The rules under which a reconciler rewrites a row without posting a fill.
  predicate RuleRewrites(live: bool, answer: Answer, monitor: bool) {
    match answer
    case NeverSubmitted(aged) => (!live && !monitor) || aged
    case FailedOnChain => true
    case NotFound(aged) => !live || aged
    case NoNews => !live
    case SwapExecuted => !live
  }

  // A reconciler reads the row at s and saves its verdict by a blind update after the
  // fill was posted by the task or by another reconciler.
  ghost function VerdictOver(s: Sys, posted: Sys, i: nat, holder: Option<Mint>, answer: Answer, monitor: bool): Sys
    requires i < |s.db.orders| == |posted.db.orders| && (holder.Some? ==> holder.value in s.db.positions)
    requires !answer.SwapExecuted?
  {
    if RuleRewrites(s.live, answer, monitor) then WithOrder(posted, i, ResolveStep(s, i, holder, answer, monitor, true).db.orders[i]) else posted
  }

  // The quantity stays right and the fill is applied once, but the row says Failed or
  // Expired exactly when one of those rules applied; a row left alone stays Confirmed.
  lemma StaleVerdictContradictsTheFillIff(s: Sys, i: nat, fill: Fill, p: Position, holder: Option<Mint>, answer: Answer, monitor: bool)
    requires Inv(s) && i < |s.db.orders| && Incomplete(s.db.orders[i]) && Accounts(s, i, fill, p)
    requires (holder.Some? ==> holder.value in s.db.positions) && !answer.SwapExecuted?
    requires s.db.orders[i].signed <==> !answer.NeverSubmitted?
    ensures var posted := Post(s, i, fill, p);
      var after := VerdictOver(s, posted, i, holder, answer, monitor);
      && i in after.db.fills && Times(after.ledger, i) == 1 && (forall m :: ConservedIn(after, m))
      && (ResolveStep(s, i, holder, answer, monitor, true) == s <==> !RuleRewrites(s.live, answer, monitor))
      && (LedgerOk(after.db.orders, after.db.fills, after.ledger) <==> !RuleRewrites(s.live, answer, monitor))
      && IsTerminal(after.db.orders[i].state)
      && (RuleRewrites(s.live, answer, monitor) ==> after.db.orders[i].state == Failed || after.db.orders[i].state == Expired)
  {
    var posted := Post(s, i, fill, p);
    assert OrderOk(s.db.orders, i, s.ids);
    PostKeepsLedger(s, i, fill, p);
    PostConserves(s, i, fill, p);
    VerdictMoves(s, i, holder, answer, monitor);
    hide Inv, Accounts, ResolveStep, LedgerOk;
    forall m ensures ConservedIn(posted, m) {
    }
    LedgerNeedsConfirmed(posted, i, VerdictOver(s, posted, i, holder, answer, monitor));
  }

  lemma LedgerNeedsConfirmed(posted: Sys, i: nat, after: Sys)
    requires i < |posted.db.orders| == |after.db.orders| && LedgerOk(posted.db.orders, posted.db.fills, posted.ledger)
    requires Times(posted.ledger, i) == 1 && after.ledger == posted.ledger
    ensures posted.db.orders[i].state == Confirmed && i in posted.db.fills
    ensures after.db.orders[i].state != Confirmed ==> !LedgerOk(after.db.orders, after.db.fills, after.ledger)
  {
  }

  lemma VerdictMoves(s: Sys, i: nat, holder: Option<Mint>, answer: Answer, monitor: bool)
    requires i < |s.db.orders| && Incomplete(s.db.orders[i]) && (holder.Some? ==> holder.value in s.db.positions)
    requires !answer.SwapExecuted?
    requires (s.db.orders[i].state == Pending ==> !s.db.orders[i].signed) && (s.db.orders[i].signed <==> !answer.NeverSubmitted?)
    ensures var t := ResolveStep(s, i, holder, answer, monitor, true);
      && (t == s <==> !RuleRewrites(s.live, answer, monitor))
      && (RuleRewrites(s.live, answer, monitor) ==> t.db.orders[i].state == Failed || t.db.orders[i].state == Expired)
  {
    if RuleRewrites(s.live, answer, monitor) {
      assert ResolveStep(s, i, holder, answer, monitor, true).db.orders[i].state != s.db.orders[i].state;
    }
  }
}
