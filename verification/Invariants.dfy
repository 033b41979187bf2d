// What every reachable state of the order life cycle keeps, and the safety
// theorems over whole runs.
module Invariants {
  import opened Wrappers
  import opened Orders
  import opened ExitKeys
  import opened Portfolio
  import opened Lifecycle

  // ---------- the ledger ----------

  function Times(ledger: seq<Posting>, i: nat): nat {
    if ledger == [] then 0
    else
      var last := ledger[|ledger| - 1];
      Times(ledger[..|ledger| - 1], i) + (if last.Applied? && last.order == i then 1 else 0)
  }

  function DeltaFor(p: Posting, m: Mint): int {
    if p.mint == m then p.delta else 0
  }

  function Opening(opening: map<Mint, Position>, m: Mint): nat {
    if m in opening then RemainingOrZero(opening[m]) else 0
  }

  function Balance(start: int, ledger: seq<Posting>, m: Mint): int {
    if ledger == [] then start
    else Balance(start, ledger[..|ledger| - 1], m) + DeltaFor(ledger[|ledger| - 1], m)
  }

  // The exact balance never leaves u64, so `saturating_add` never saturates.
  predicate Fits(start: int, ledger: seq<Posting>, m: Mint) {
    Balance(start, ledger, m) <= U64_MAX && (ledger == [] || Fits(start, ledger[..|ledger| - 1], m))
  }

  lemma AppendPosting(start: int, ledger: seq<Posting>, p: Posting, m: Mint, i: nat)
    ensures Times(ledger + [p], i) == Times(ledger, i) + (if p.Applied? && p.order == i then 1 else 0)
    ensures Balance(start, ledger + [p], m) == Balance(start, ledger, m) + DeltaFor(p, m)
    ensures Fits(start, ledger + [p], m) <==> Fits(start, ledger, m) && Balance(start, ledger + [p], m) <= U64_MAX
  {
    assert (ledger + [p])[..|ledger|] == ledger;
  }

  // ---------- the invariant, piece by piece ----------

  ghost predicate OrderOk(orders: seq<Order>, i: nat, ids: set<Bytes>)
    requires i < |orders|
  {
    var o := orders[i];
    && (o.kind == Entry || o.kind == Exit)
    && o.positionId.Some? && |o.positionId.value| == UUID_LENGTH && o.positionId.value in ids
    && (o.state == Pending ==> !o.signed)
    && (o.kind == Exit ==>
          o.key == ExitKey(o.positionId.value, o.inputAmount, o.reason, CountExits(orders[..i], o.positionId.value)))
    && (o.kind == Entry ==>
          && |o.signalId| == UUID_LENGTH && o.signalId in ids
          && o.key == EntryKey(o.signalId, o.mint, o.inputAmount))
  }

  ghost predicate OrdersOk(orders: seq<Order>, ids: set<Bytes>) {
    forall i :: 0 <= i < |orders| ==> OrderOk(orders, i, ids)
  }

  // Signal ids never serve as position ids, and each entry has its own position id.
  ghost predicate IdsOk(orders: seq<Order>, positions: map<Mint, Position>) {
    && (forall i, j :: 0 <= i < |orders| && 0 <= j < |orders| && orders[i].kind == Entry ==>
          && orders[j].positionId != Some(orders[i].signalId)
          && (j != i && orders[j].kind == Entry ==> orders[j].positionId != orders[i].positionId))
    && (forall m, i :: m in positions && 0 <= i < |orders| && orders[i].kind == Entry ==>
          positions[m].positionId != Some(orders[i].signalId))
  }

  ghost predicate PositionsOk(positions: map<Mint, Position>, ids: set<Bytes>) {
    && (forall m :: m in positions ==>
          var p := positions[m];
          p.positionId.Some? ==> |p.positionId.value| == UUID_LENGTH && p.positionId.value in ids)
    && (forall m, n :: m in positions && n in positions && m != n && positions[m].positionId.Some? ==>
          positions[n].positionId != positions[m].positionId)
  }

  // An exit order belongs to the position stored for its token; an entry that was
  // never applied belongs to no stored position at all.
  ghost predicate LinksOk(orders: seq<Order>, positions: map<Mint, Position>, ledger: seq<Posting>) {
    && (forall i :: 0 <= i < |orders| && orders[i].kind == Exit ==>
          orders[i].mint in positions && positions[orders[i].mint].positionId == orders[i].positionId)
    && (forall i, m :: 0 <= i < |orders| && orders[i].kind == Entry && Times(ledger, i) == 0 && m in positions ==>
          positions[m].positionId != orders[i].positionId)
  }

  ghost predicate OneExitInFlight(orders: seq<Order>) {
    forall i, j ::
      0 <= i < j < |orders| && orders[i].kind == Exit && orders[j].kind == Exit
      && orders[i].positionId == orders[j].positionId ==>
        !(Incomplete(orders[i]) && Incomplete(orders[j]))
  }

  // Applied at most once, only to a Confirmed order, and exactly when a fill row exists.
  ghost predicate LedgerOk(orders: seq<Order>, fills: map<nat, Fill>, ledger: seq<Posting>) {
    && (forall i: nat :: Times(ledger, i) <= 1)
    && (forall i: nat :: Times(ledger, i) == 1 ==> i < |orders| && orders[i].state == Confirmed && orders[i].signed)
    && (forall i: nat :: Times(ledger, i) == 1 <==> i in fills)
  }

  ghost predicate PostingsOk(orders: seq<Order>, fills: map<nat, Fill>, ledger: seq<Posting>) {
    forall k :: 0 <= k < |ledger| && ledger[k].Applied? ==>
      var i := ledger[k].order;
      && i < |orders| && i in fills
      && ledger[k].mint == orders[i].mint
      && ledger[k].delta == PostedDelta(orders[i], fills[i])
  }

  ghost predicate ConservedAt(positions: map<Mint, Position>, start: int, ledger: seq<Posting>, m: Mint) {
    if m in positions then
      Fits(start, ledger, m) ==> RemainingOrZero(positions[m]) == Balance(start, ledger, m)
    else
      Balance(start, ledger, m) == 0 && Fits(start, ledger, m)
  }

  ghost predicate Conserved(positions: map<Mint, Position>, opening: map<Mint, Position>, ledger: seq<Posting>) {
    forall m :: ConservedAt(positions, Opening(opening, m), ledger, m)
  }

  ghost predicate TaskOk(s: Sys, m: Mint)
    requires m in s.tasks
  {
    var t := s.tasks[m];
    && t.order < |s.db.orders|
    && var o := s.db.orders[t.order];
    && o.mint == m && (o.state == Pending || o.state == Submitted) && !o.signed
    && (t.phase.Reserved? ==> o.state == Pending)
    && (t.phase.Filled? ==> t.order in s.chain && s.chain[t.order] == Outcome(t.phase.fill.input, t.phase.fill.output, t.phase.fill.fees))
    && (t.Exiting? ==> o.kind == Exit && m in s.db.positions && t.stored == s.db.positions[m])
    && (t.Entering? ==> o.kind == Entry)
  }

  ghost predicate TasksOk(s: Sys) {
    forall m :: m in s.tasks ==> TaskOk(s, m)
  }

  ghost predicate Inv(s: Sys) {
    && OrdersOk(s.db.orders, s.ids)
    && IdsOk(s.db.orders, s.db.positions)
    && PositionsOk(s.db.positions, s.ids)
    && LinksOk(s.db.orders, s.db.positions, s.ledger)
    && OneExitInFlight(s.db.orders)
    && LedgerOk(s.db.orders, s.db.fills, s.ledger)
    && PostingsOk(s.db.orders, s.db.fills, s.ledger)
    && Conserved(s.db.positions, s.opening, s.ledger)
    && TasksOk(s)
  }

  // A first start: no orders yet, any inherited positions with distinct UUIDs.
  ghost predicate Init(s: Sys) {
    && s.db.orders == [] && s.db.fills == map[] && s.ledger == [] && s.chain == map[] && s.sent == {}
    && s.tasks == map[] && !s.window && s.opening == s.db.positions
    && PositionsOk(s.db.positions, s.ids)
  }

  lemma InitInv(s: Sys)
    requires Init(s)
    ensures Inv(s)
  {
    forall m ensures ConservedAt(s.db.positions, Opening(s.opening, m), s.ledger, m) {
      assert Balance(Opening(s.opening, m), [], m) == Opening(s.opening, m);
    }
  }

  // ---------- rewriting the state of an unfinished order ----------

  // Rewriting an order without touching kind or position id keeps every count.
  lemma {:induction false} CountExitsUpdate(orders: seq<Order>, i: nat, o: Order, id: Bytes, k: nat)
    requires i < |orders| && k <= |orders| && o.kind == orders[i].kind && o.positionId == orders[i].positionId
    ensures CountExits(orders[i := o][..k], id) == CountExits(orders[..k], id)
  {
    if k > 0 {
      CountExitsUpdate(orders, i, o, id, k - 1);
      assert orders[i := o][..k][..k - 1] == orders[i := o][..k - 1];
      assert orders[..k][..k - 1] == orders[..k - 1];
    }
  }

  predicate SameIdentity(a: Order, b: Order) {
    b == a.(state := b.state, signed := b.signed)
  }

  lemma RewriteKeepsOrders(orders: seq<Order>, ids: set<Bytes>, i: nat, o: Order)
    requires OrdersOk(orders, ids) && i < |orders| && SameIdentity(orders[i], o) && (o.state == Pending ==> !o.signed)
    ensures OrdersOk(orders[i := o], ids)
  {
    var rewritten := orders[i := o];
    forall k | 0 <= k < |rewritten| ensures OrderOk(rewritten, k, ids) {
      assert OrderOk(orders, k, ids);
      CountExitsUpdate(orders, i, o, orders[k].positionId.value, k);
    }
  }

  lemma RewriteKeepsTheRest(s: Sys, i: nat, o: Order)
    requires Inv(s) && i < |s.db.orders| && Incomplete(s.db.orders[i]) && SameIdentity(s.db.orders[i], o)
    ensures var orders := s.db.orders[i := o];
      && IdsOk(orders, s.db.positions)
      && LinksOk(orders, s.db.positions, s.ledger)
      && OneExitInFlight(orders)
      && LedgerOk(orders, s.db.fills, s.ledger)
      && PostingsOk(orders, s.db.fills, s.ledger)
  {
  }

  // Tasks on other orders do not notice, and the order's own task is gone or still valid.
  lemma RewriteKeepsInv(s: Sys, i: nat, o: Order, t: Sys)
    requires Inv(s) && i < |s.db.orders|
    requires Incomplete(s.db.orders[i]) && SameIdentity(s.db.orders[i], o) && (o.state == Pending ==> !o.signed)
    requires t == WithOrder(s, i, o).(tasks := t.tasks)
    requires forall m :: m in t.tasks ==> m in s.tasks && (if s.tasks[m].order == i then TaskOk(t, m) else t.tasks[m] == s.tasks[m])
    ensures Inv(t)
  {
    RewriteKeepsOrders(s.db.orders, s.ids, i, o);
    RewriteKeepsTheRest(s, i, o);
    forall m | m in t.tasks ensures TaskOk(t, m) {
      assert TaskOk(s, m);
    }
  }

  // ---------- reserving a new order ----------

  lemma AppendKeepsOrders(orders: seq<Order>, ids: set<Bytes>, o: Order, ids': set<Bytes>)
    requires OrdersOk(orders, ids) && ids <= ids'
    requires OrderOk(orders + [o], |orders|, ids')
    ensures OrdersOk(orders + [o], ids')
  {
    var longer := orders + [o];
    forall k | 0 <= k < |longer| ensures OrderOk(longer, k, ids') {
      if k < |orders| {
        assert OrderOk(orders, k, ids);
        assert longer[..k] == orders[..k];
      }
    }
  }

  lemma AppendKeepsLedger(orders: seq<Order>, fills: map<nat, Fill>, ledger: seq<Posting>, o: Order)
    requires LedgerOk(orders, fills, ledger) && PostingsOk(orders, fills, ledger)
    ensures LedgerOk(orders + [o], fills, ledger) && PostingsOk(orders + [o], fills, ledger)
    ensures Times(ledger, |orders|) == 0
  {
  }

  lemma ReserveKeepsTasks(s: Sys, t: Sys, m: Mint)
    requires TasksOk(s) && m !in s.tasks && |t.db.orders| > |s.db.orders| && t.db.orders[..|s.db.orders|] == s.db.orders
    requires t.chain == s.chain && t.db.positions == s.db.positions
    requires m in t.tasks && TaskOk(t, m) && t.tasks == s.tasks[m := t.tasks[m]]
    ensures TasksOk(t)
  {
    forall n | n in t.tasks ensures TaskOk(t, n) {
      if n != m {
        assert TaskOk(s, n);
        assert t.db.orders[s.tasks[n].order] == t.db.orders[..|s.db.orders|][s.tasks[n].order];
      }
    }
  }

  lemma ReserveExitKeepsInv(s: Sys, m: Mint, reason: Bytes)
    requires Inv(s) && m !in s.tasks && ExitReady(s.db, m)
    ensures Inv(ReserveExitStep(s, m, reason))
  {
    var o := NewExitOrder(s.db, m, reason);
    var n := |s.db.orders|;
    var t := ReserveExitStep(s, m, reason);
    assert t.db.orders[..n] == s.db.orders;
    AppendKeepsOrders(s.db.orders, s.ids, o, s.ids);
    AppendKeepsLedger(s.db.orders, s.db.fills, s.ledger, o);
    forall i, j | 0 <= i < j < |t.db.orders| && t.db.orders[i].kind == Exit && t.db.orders[j].kind == Exit
      && t.db.orders[i].positionId == t.db.orders[j].positionId
      ensures !(Incomplete(t.db.orders[i]) && Incomplete(t.db.orders[j]))
    {
      assert t.db.orders[i] == s.db.orders[i];
      if j == n {
        assert !InFlightExit(s.db, o.positionId);
        assert !(Incomplete(s.db.orders[i]) && IsExitOf(s.db.orders[i], o.positionId));
      }
    }
    ReserveKeepsTasks(s, t, m);
  }

  lemma ReserveEntryKeepsInv(s: Sys, m: Mint, sid: Bytes, pid: Bytes, amount: u64, value: real, terms: EntryTerms)
    requires Inv(s) && m !in s.tasks && |sid| == |pid| == UUID_LENGTH && sid !in s.ids && pid !in s.ids && sid != pid
    ensures Inv(ReserveEntryStep(s, m, sid, pid, amount, value, terms))
  {
    var o := NewEntryOrder(m, sid, pid, amount, value);
    var n := |s.db.orders|;
    var t := ReserveEntryStep(s, m, sid, pid, amount, value, terms);
    assert t.db.orders[..n] == s.db.orders;
    AppendKeepsOrders(s.db.orders, s.ids, o, t.ids);
    AppendKeepsLedger(s.db.orders, s.db.fills, s.ledger, o);
    forall i | 0 <= i < n ensures s.db.orders[i].positionId.Some? && s.db.orders[i].positionId.value in s.ids
      && (s.db.orders[i].kind == Entry ==> s.db.orders[i].signalId in s.ids)
    {
      assert OrderOk(s.db.orders, i, s.ids);
    }
    hide OrdersOk, OrderOk, LedgerOk, PostingsOk, TasksOk, Times, Balance;
    ReserveKeepsTasks(s, t, m);
  }

  // ---------- the atomic transaction ----------

  // The stored position the fill may be applied to, and what accounting makes of it.
  ghost predicate Accounts(s: Sys, i: nat, fill: Fill, p: Position)
    requires i < |s.db.orders|
  {
    var o := s.db.orders[i];
    if o.kind == Entry then
      && o.positionId.Some?
      && exists terms: EntryTerms ::
           ApplyEntry(if o.mint in s.db.positions then Some(s.db.positions[o.mint]) else None,
                      o.positionId.value, terms.baseMint, terms.tokenDecimals, terms.baseDecimals, fill) == Ok(p)
    else
      o.mint in s.db.positions && ApplyExit(s.db.positions[o.mint], fill) == Ok(p)
  }

  lemma PostShape(s: Sys, i: nat, fill: Fill, p: Position)
    requires i < |s.db.orders| && Accounts(s, i, fill, p)
    ensures var o := s.db.orders[i];
      && var before := if o.mint in s.db.positions then RemainingOrZero(s.db.positions[o.mint]) else 0;
      && p.remaining.Some?
      && (o.kind == Entry ==>
            || p.remaining.value == SaturatingAdd(before, fill.output)
            || (o.mint !in s.db.positions && p.remaining.value == fill.output))
      && (o.kind != Entry ==> p.remaining.value == before - fill.input)
      && p.positionId == (if o.mint in s.db.positions then s.db.positions[o.mint].positionId else o.positionId)
  {
  }

  lemma PostKeepsIds(s: Sys, i: nat, fill: Fill, p: Position)
    requires Inv(s) && i < |s.db.orders| && Accounts(s, i, fill, p) && Times(s.ledger, i) == 0
    ensures var t := Post(s, i, fill, p); IdsOk(t.db.orders, t.db.positions) && PositionsOk(t.db.positions, t.ids)
  {
    PostShape(s, i, fill, p);
    assert OrderOk(s.db.orders, i, s.ids);
    hide Accounts, LedgerOk, PostingsOk, Conserved, TasksOk, OrdersOk, OneExitInFlight;
  }

  lemma PostKeepsLinks(s: Sys, i: nat, fill: Fill, p: Position)
    requires Inv(s) && i < |s.db.orders| && Accounts(s, i, fill, p) && Times(s.ledger, i) == 0
    ensures var t := Post(s, i, fill, p); LinksOk(t.db.orders, t.db.positions, t.ledger)
  {
    PostShape(s, i, fill, p);
    hide Accounts, LedgerOk, PostingsOk, Conserved, TasksOk, OrdersOk, OneExitInFlight;
    var t := Post(s, i, fill, p);
    forall k: nat ensures Times(t.ledger, k) == Times(s.ledger, k) + (if k == i then 1 else 0) {
      AppendPosting(0, s.ledger, t.ledger[|s.ledger|], s.db.orders[i].mint, k);
    }
    forall k, m | 0 <= k < |t.db.orders| && t.db.orders[k].kind == Entry && Times(t.ledger, k) == 0 && m in t.db.positions
      ensures t.db.positions[m].positionId != t.db.orders[k].positionId
    {
      assert Times(s.ledger, k) == 0 && s.db.orders[k].positionId == t.db.orders[k].positionId;
    }
  }

  lemma PostKeepsLedger(s: Sys, i: nat, fill: Fill, p: Position)
    requires Inv(s) && i < |s.db.orders| && Incomplete(s.db.orders[i])
    ensures var t := Post(s, i, fill, p);
      && LedgerOk(t.db.orders, t.db.fills, t.ledger) && PostingsOk(t.db.orders, t.db.fills, t.ledger)
      && Times(s.ledger, i) == 0 && Times(t.ledger, i) == 1
  {
    var t := Post(s, i, fill, p);
    forall k: nat ensures Times(t.ledger, k) == Times(s.ledger, k) + (if k == i then 1 else 0) {
      AppendPosting(0, s.ledger, t.ledger[|s.ledger|], s.db.orders[i].mint, k);
    }
    assert Times(s.ledger, i) == 0;
    forall k | 0 <= k < |t.ledger| && t.ledger[k].Applied?
      ensures var j := t.ledger[k].order;
        && j < |t.db.orders| && j in t.db.fills && t.ledger[k].mint == t.db.orders[j].mint
        && t.ledger[k].delta == PostedDelta(t.db.orders[j], t.db.fills[j])
    {
      if k < |s.ledger| {
        assert t.ledger[k] == s.ledger[k];
        PostedOnce(s.ledger, k);
      }
    }
  }

  lemma {:induction false} PostedOnce(ledger: seq<Posting>, k: nat)
    requires k < |ledger| && ledger[k].Applied?
    ensures Times(ledger, ledger[k].order) >= 1
  {
    if k < |ledger| - 1 {
      PostedOnce(ledger[..|ledger| - 1], k);
    }
  }

  lemma PostConserves(s: Sys, i: nat, fill: Fill, p: Position)
    requires Inv(s) && i < |s.db.orders| && Accounts(s, i, fill, p)
    ensures var t := Post(s, i, fill, p); Conserved(t.db.positions, t.opening, t.ledger)
  {
    PostShape(s, i, fill, p);
    var t := Post(s, i, fill, p);
    forall m ensures ConservedAt(t.db.positions, Opening(t.opening, m), t.ledger, m) {
      assert ConservedAt(s.db.positions, Opening(s.opening, m), s.ledger, m);
      AppendPosting(Opening(s.opening, m), s.ledger, t.ledger[|s.ledger|], m, i);
    }
  }

  // A fill posted for a token disturbs no task: an exit task there would hold a second
  // unfinished exit of the same position.
  lemma PostKeepsTasks(s: Sys, i: nat, fill: Fill, p: Position)
    requires Inv(s) && i < |s.db.orders| && Incomplete(s.db.orders[i]) && !Held(s, i)
    requires s.db.orders[i].kind == Exit || s.db.orders[i].mint !in s.tasks
    ensures TasksOk(Post(s, i, fill, p))
  {
    var t := Post(s, i, fill, p);
    hide OrdersOk, IdsOk, PositionsOk, LedgerOk, PostingsOk, Conserved;
    forall m | m in t.tasks ensures TaskOk(t, m) {
      assert TaskOk(s, m);
      assert s.tasks[m].order != i;
      NoTwoExits(s.db.orders, i, s.tasks[m].order);
    }
  }

  lemma NoTwoExits(orders: seq<Order>, i: nat, j: nat)
    requires OneExitInFlight(orders) && i < |orders| && j < |orders| && i != j
    ensures orders[i].kind == Exit && orders[j].kind == Exit && orders[i].positionId == orders[j].positionId ==>
      !(Incomplete(orders[i]) && Incomplete(orders[j]))
  {
  }

  lemma PostKeepsInv(s: Sys, i: nat, fill: Fill, p: Position)
    requires Inv(s) && i < |s.db.orders| && Incomplete(s.db.orders[i]) && Accounts(s, i, fill, p) && !Held(s, i)
    requires s.db.orders[i].kind == Exit || s.db.orders[i].mint !in s.tasks
    ensures Inv(Post(s, i, fill, p))
  {
    hide OrdersOk, IdsOk, PositionsOk, LinksOk, OneExitInFlight, LedgerOk, PostingsOk, Conserved, TasksOk, Accounts;
    var o := s.db.orders[i].(state := Confirmed, signed := true);
    RewriteKeepsOrders(s.db.orders, s.ids, i, o);
    RewriteKeepsTheRest(s, i, o);
    PostKeepsLedger(s, i, fill, p);
    PostKeepsIds(s, i, fill, p);
    PostKeepsLinks(s, i, fill, p);
    PostConserves(s, i, fill, p);
    PostKeepsTasks(s, i, fill, p);
  }

  // ---------- the remaining steps ----------

  lemma AdjustConserves(s: Sys, m: Mint, amount: u64, decimals: nat)
    requires Conserved(s.db.positions, s.opening, s.ledger)
    requires m in s.db.positions && ReconcileWithChain(s.db.positions[m], amount, decimals).Ok?
    ensures var t := AdjustStep(s, m, amount, decimals); Conserved(t.db.positions, t.opening, t.ledger)
  {
    var t := AdjustStep(s, m, amount, decimals);
    forall n ensures ConservedAt(t.db.positions, Opening(t.opening, n), t.ledger, n) {
      assert ConservedAt(s.db.positions, Opening(s.opening, n), s.ledger, n);
      AppendPosting(Opening(s.opening, n), s.ledger, t.ledger[|s.ledger|], n, 0);
    }
  }

  lemma AdjustKeepsLinks(s: Sys, m: Mint, amount: u64, decimals: nat)
    requires IdsOk(s.db.orders, s.db.positions) && PositionsOk(s.db.positions, s.ids) && LinksOk(s.db.orders, s.db.positions, s.ledger)
    requires LedgerOk(s.db.orders, s.db.fills, s.ledger) && PostingsOk(s.db.orders, s.db.fills, s.ledger)
    requires m in s.db.positions && ReconcileWithChain(s.db.positions[m], amount, decimals).Ok?
    ensures var t := AdjustStep(s, m, amount, decimals);
      && IdsOk(t.db.orders, t.db.positions) && PositionsOk(t.db.positions, t.ids) && LinksOk(t.db.orders, t.db.positions, t.ledger)
      && LedgerOk(t.db.orders, t.db.fills, t.ledger) && PostingsOk(t.db.orders, t.db.fills, t.ledger)
  {
    var t := AdjustStep(s, m, amount, decimals);
    assert t.db.positions[m].positionId == s.db.positions[m].positionId;
    forall k: nat ensures Times(t.ledger, k) == Times(s.ledger, k) {
      AppendPosting(0, s.ledger, t.ledger[|s.ledger|], m, k);
    }
  }

  lemma AdjustKeepsInv(s: Sys, m: Mint, amount: u64, decimals: nat)
    requires Inv(s) && m in s.db.positions && ReconcileWithChain(s.db.positions[m], amount, decimals).Ok? && m !in s.tasks
    ensures Inv(AdjustStep(s, m, amount, decimals))
  {
    AdjustConserves(s, m, amount, decimals);
    AdjustKeepsLinks(s, m, amount, decimals);
    var t := AdjustStep(s, m, amount, decimals);
    forall n | n in t.tasks ensures TaskOk(t, n) {
      assert TaskOk(s, n);
    }
    hide Conserved, LedgerOk, PostingsOk, LinksOk, IdsOk, PositionsOk;
  }

  // Moving a task to its next phase, with whatever the execution put on chain.
  lemma PhaseKeepsInv(s: Sys, m: Mint, chain: map<nat, Outcome>, sent: set<nat>, phase: Phase)
    requires Inv(s) && m in s.tasks && !phase.Reserved?
    requires forall i :: i in s.chain ==> i in chain
    requires forall i :: i in s.chain && i != s.tasks[m].order ==> chain[i] == s.chain[i]
    requires phase.Filled? ==> s.tasks[m].order in chain && chain[s.tasks[m].order] == Outcome(phase.fill.input, phase.fill.output, phase.fill.fees)
    ensures Inv(SetPhase(s.(chain := chain, sent := sent), m, phase))
  {
    var t := SetPhase(s.(chain := chain, sent := sent), m, phase);
    assert TaskOk(s, m);
    forall n | n in t.tasks ensures TaskOk(t, n) {
      assert TaskOk(s, n);
    }
  }

  lemma LandKeepsInv(s: Sys, i: nat, outcome: Outcome)
    requires Inv(s) && i !in s.chain
    ensures Inv(s.(chain := s.chain[i := outcome]))
  {
    var t := s.(chain := s.chain[i := outcome]);
    forall n | n in t.tasks ensures TaskOk(t, n) {
      assert TaskOk(s, n);
    }
  }

  lemma DropKeepsInv(s: Sys, tasks: map<Mint, Task>, window: bool)
    requires Inv(s)
    requires forall m :: m in tasks ==> m in s.tasks && tasks[m] == s.tasks[m]
    ensures Inv(s.(tasks := tasks, window := window))
  {
    var t := s.(tasks := tasks, window := window);
    forall n | n in t.tasks ensures TaskOk(t, n) {
      assert TaskOk(s, n);
    }
  }

  lemma FinishKeepsInv(s: Sys, m: Mint, o: Order, write: bool)
    requires Inv(s) && m in s.tasks && SameIdentity(s.db.orders[s.tasks[m].order], o) && (o.state == Pending ==> !o.signed)
    ensures Inv(Finish(s, m, s.tasks[m].order, o, write))
  {
    var i := s.tasks[m].order;
    assert TaskOk(s, m);
    if write {
      RewriteKeepsInv(s, i, o, Finish(s, m, i, o, write));
    } else {
      DropKeepsInv(s, s.tasks - {m}, s.window);
    }
  }

  ghost predicate CommitPosts(s: Sys, m: Mint, fault: Fault)
    requires m in s.tasks && s.tasks[m].phase.Filled? && s.tasks[m].order < |s.db.orders|
  {
    Accounted(s, s.tasks[m], s.tasks[m].phase.fill).Ok? && fault.NoFault?
  }

  // The transaction posts the fill, or its failure saves the order as Unknown, or as
  // Confirmed when the record in memory had already moved on.
  lemma CommitShape(s: Sys, m: Mint, fault: Fault, write: bool)
    requires m in s.tasks && s.tasks[m].phase.Filled? && TaskOk(s, m)
    ensures var t := s.tasks[m];
      var o := s.db.orders[t.order];
      var next := CommitStep(s, m, fault, write);
      if CommitPosts(s, m, fault) then
        var p := Accounted(s, t, t.phase.fill).value;
        && Accounts(s, t.order, t.phase.fill, p)
        && next == DropTask(Post(s, t.order, t.phase.fill, p), m)
      else
        || next == Finish(s, m, t.order, o.(state := Unknown, signed := true), write)
        || (fault.AfterTransition? && next == Finish(s, m, t.order, o.(state := Confirmed, signed := true), write))
  {
    hide Post, Finish, DropTask;
  }

  lemma DropThenPost(s: Sys, m: Mint, i: nat, fill: Fill, p: Position)
    requires i < |s.db.orders|
    ensures DropTask(Post(s, i, fill, p), m) == Post(DropTask(s, m), i, fill, p)
  {
  }

  lemma CommitKeepsInv(s: Sys, m: Mint, fault: Fault, write: bool)
    requires Inv(s) && Enabled(s, Commit(m, fault, write))
    ensures s.tasks[m].order < |s.db.orders| && Inv(CommitStep(s, m, fault, write))
  {
    var t := s.tasks[m];
    assert TaskOk(s, m);
    hide Inv, CommitStep, Accounted, Post, Finish, Accounts;
    CommitShape(s, m, fault, write);
    var o := s.db.orders[t.order];
    if CommitPosts(s, m, fault) {
      var p := Accounted(s, t, t.phase.fill).value;
      DropKeepsInv(s, s.tasks - {m}, s.window);
      AccountsIgnoresTasks(s, t.order, t.phase.fill, p, s.tasks - {m});
      DropThenPost(s, m, t.order, t.phase.fill, p);
      PostKeepsInv(DropTask(s, m), t.order, t.phase.fill, p);
    } else {
      FinishKeepsInv(s, m, o.(state := Unknown, signed := true), write);
      FinishKeepsInv(s, m, o.(state := Confirmed, signed := true), write);
    }
  }

  lemma AccountsIgnoresTasks(s: Sys, i: nat, fill: Fill, p: Position, tasks: map<Mint, Task>)
    requires i < |s.db.orders| && Accounts(s, i, fill, p)
    ensures Accounts(s.(tasks := tasks), i, fill, p)
  {
  }

  lemma RecordedAccounts(s: Sys, i: nat, holder: Option<Mint>, outcome: Outcome)
    requires Inv(s) && i < |s.db.orders| && Incomplete(s.db.orders[i])
    requires holder.Some? ==> Holds(s.db, s.db.orders[i].positionId, holder.value)
    ensures var r := RecordReconciledFill(s.db, s.db.orders[i], holder, outcome);
      && !r.AuditOnly?
      && (r.Posted? ==> s.db.orders[i].kind == Exit && Accounts(s, i, r.fill, r.position))
  {
    assert OrderOk(s.db.orders, i, s.ids);
    assert Times(s.ledger, i) == 0;
  }

  ghost function Restate(s: Sys, i: nat, next: OrderState): Sys
    requires i < |s.db.orders|
  {
    WithOrder(s, i, s.db.orders[i].(state := next))
  }

  lemma RestateKeepsInv(s: Sys, i: nat, next: OrderState)
    requires Inv(s) && i < |s.db.orders| && Incomplete(s.db.orders[i]) && !Held(s, i) && next != Pending
    ensures Inv(Restate(s, i, next))
  {
    var o := s.db.orders[i].(state := next);
    RewriteKeepsInv(s, i, o, WithOrder(s, i, o));
  }

  ghost predicate ResolvePosts(s: Sys, a: Act)
    requires a.Resolve? && Enabled(s, a)
  {
    && a.write && s.live && a.answer.SwapExecuted?
    && RecordReconciledFill(s.db, s.db.orders[a.order], a.holder, s.chain[a.order]).Posted?
  }

  // Reconciliation leaves an order alone, fails it, expires it, or posts its fill: nothing else.
  lemma ResolveShape(s: Sys, a: Act)
    requires Inv(s) && a.Resolve? && Enabled(s, a)
    ensures var t := ResolveStep(s, a.order, a.holder, a.answer, a.monitor, a.write);
      if ResolvePosts(s, a) then
        var r := RecordReconciledFill(s.db, s.db.orders[a.order], a.holder, s.chain[a.order]);
        && t == Post(s, a.order, r.fill, r.position)
        && s.db.orders[a.order].kind == Exit && Accounts(s, a.order, r.fill, r.position)
      else
        t == s || t == Restate(s, a.order, Failed) || t == Restate(s, a.order, Expired)
  {
    hide Inv, RecordReconciledFill, Post, WithOrder, Accounts;
    if a.answer.SwapExecuted? {
      RecordedAccounts(s, a.order, a.holder, s.chain[a.order]);
    }
  }

  lemma ResolveKeepsInv(s: Sys, a: Act)
    requires Inv(s) && a.Resolve? && Enabled(s, a)
    ensures Inv(ResolveStep(s, a.order, a.holder, a.answer, a.monitor, a.write))
  {
    hide Inv, ResolveStep, RecordReconciledFill, Post, Accounts, Restate;
    ResolveShape(s, a);
    if ResolvePosts(s, a) {
      var r := RecordReconciledFill(s.db, s.db.orders[a.order], a.holder, s.chain[a.order]);
      PostKeepsInv(s, a.order, r.fill, r.position);
    } else {
      RestateKeepsInv(s, a.order, Failed);
      RestateKeepsInv(s, a.order, Expired);
    }
  }

  lemma TasksHaveOrders(s: Sys)
    requires TasksOk(s)
    ensures TaskOrdersExist(s)
  {
    forall m | m in s.tasks ensures s.tasks[m].order < |s.db.orders| {
      assert TaskOk(s, m);
    }
  }

  lemma StepKeepsInv(s: Sys, a: Act)
    requires Inv(s) && TaskOrdersExist(s) && Enabled(s, a)
    ensures Inv(Step(s, a))
  {
    hide Inv, ReserveExitStep, ReserveEntryStep, SubmitStep, ExecuteStep, CommitStep, ResolveStep, AdjustStep, Finish;
    match a
    case ReserveExit(m, reason) => ReserveExitKeepsInv(s, m, reason);
    case ReserveEntry(m, sid, pid, amount, value, terms) => ReserveEntryKeepsInv(s, m, sid, pid, amount, value, terms);
    case QuoteRefused(m, write) => FinishKeepsInv(s, m, SavedRow(s, m), write);
    case Submit(m, write) => SubmitKeepsInv(s, m, write);
    case Execute(m, result) => ExecuteKeepsInv(s, m, result);
    case Commit(m, fault, write) => CommitKeepsInv(s, m, fault, write);
    case SaveUnknown(m, write) => FinishKeepsInv(s, m, SavedRow(s, m), write);
    case SaveFailed(m, write) => FinishKeepsInv(s, m, SavedRow(s, m), write);
    case Land(i, outcome) => LandKeepsInv(s, i, outcome);
    case Resolve(_, _, _, _, _) => ResolveKeepsInv(s, a);
    case Adjust(m, amount, decimals) => AdjustKeepsInv(s, m, amount, decimals);
    case OpenWindow => DropKeepsInv(s, s.tasks, true);
    case CloseWindow => DropKeepsInv(s, s.tasks, false);
    case Crash => DropKeepsInv(s, map[], false);
  }

  lemma SubmittedTaskOk(s: Sys, m: Mint)
    requires m in s.tasks && s.tasks[m].phase.Reserved? && TaskOk(s, m)
    ensures TaskOk(SubmitStep(s, m, true), m)
  {
  }

  lemma SubmitKeepsInv(s: Sys, m: Mint, write: bool)
    requires Inv(s) && m in s.tasks && s.tasks[m].phase.Reserved?
    ensures s.tasks[m].order < |s.db.orders| && Inv(SubmitStep(s, m, write))
  {
    var i := s.tasks[m].order;
    assert TaskOk(s, m);
    hide Inv;
    if write {
      SubmittedTaskOk(s, m);
      hide TaskOk;
      RewriteKeepsInv(s, i, s.db.orders[i].(state := Submitted), SubmitStep(s, m, write));
    } else if s.tasks[m].Exiting? {
      PhaseKeepsInv(s, m, s.chain, s.sent, Placed);
    } else {
      DropKeepsInv(s, s.tasks - {m}, s.window);
    }
  }

  lemma ExecuteKeepsInv(s: Sys, m: Mint, result: Executed)
    requires Inv(s) && m in s.tasks
    ensures Inv(ExecuteStep(s, m, result))
  {
    hide Inv;
    var i := s.tasks[m].order;
    match result
    case Done(fill) => PhaseKeepsInv(s, m, s.chain[i := Outcome(fill.input, fill.output, fill.fees)], s.sent, Filled(fill));
    case Uncertain(landed, hasSig) => PhaseKeepsInv(s, m, Landed(s, i, landed).chain, s.sent + {i}, Unsure(hasSig));
    case HardError(landed) => PhaseKeepsInv(s, m, Landed(s, i, landed).chain, s.sent, Refused);
  }
}
