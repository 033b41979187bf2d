// Theorems over whole runs of the order life cycle, crashes included.
module Runs {
  import opened Wrappers
  import opened Orders
  import opened ExitKeys
  import opened Portfolio
  import opened Lifecycle
  import opened Invariants

  ghost predicate Runnable(s: Sys, acts: seq<Act>)
    decreases |acts|
  {
    acts == [] || (TaskOrdersExist(s) && Enabled(s, acts[0]) && Runnable(Step(s, acts[0]), acts[1..]))
  }

  ghost function Run(s: Sys, acts: seq<Act>): Sys
    requires Runnable(s, acts)
    decreases |acts|
  {
    if acts == [] then s else Run(Step(s, acts[0]), acts[1..])
  }

  lemma {:induction false} RunKeepsInv(s: Sys, acts: seq<Act>)
    requires Inv(s) && Runnable(s, acts)
    ensures Inv(Run(s, acts))
    decreases |acts|
  {
    hide Inv, Enabled, Step;
    if acts != [] {
      StepKeepsInv(s, acts[0]);
      RunKeepsInv(Step(s, acts[0]), acts[1..]);
    }
  }

  // In every reachable state a fill is applied at most once, exactly when its row
  // exists, and only to an order stored as Confirmed with a signature.
  lemma AppliedAtMostOnce(start: Sys, acts: seq<Act>, i: nat)
    requires Init(start) && Runnable(start, acts)
    ensures var s := Run(start, acts);
      && Times(s.ledger, i) <= 1
      && (Times(s.ledger, i) == 1 <==> i in s.db.fills)
      && (i in s.db.fills ==> i < |s.db.orders| && s.db.orders[i].state == Confirmed && s.db.orders[i].signed)
  {
    InitInv(start);
    RunKeepsInv(start, acts);
  }

  // ---------- conservation, read off the persisted tables ----------

  // Tokens the fill table credits to a token's position: entry outputs minus exit inputs.
  function TableDelta(orders: seq<Order>, fills: map<nat, Fill>, m: Mint): int {
    if orders == [] then 0
    else
      var i := |orders| - 1;
      TableDelta(orders[..i], fills, m) + (if i in fills && orders[i].mint == m then PostedDelta(orders[i], fills[i]) else 0)
  }

  function AdjustedBy(ledger: seq<Posting>, m: Mint): int {
    if ledger == [] then 0
    else
      var last := ledger[|ledger| - 1];
      AdjustedBy(ledger[..|ledger| - 1], m) + (if last.Adjusted? then DeltaFor(last, m) else 0)
  }

  ghost predicate TablesAgree(s: Sys) {
    forall m :: TablesAgreeAt(s, m)
  }

  lemma {:induction false} TableDeltaSame(a: seq<Order>, b: seq<Order>, fills: map<nat, Fill>, m: Mint)
    requires |a| == |b| && forall i :: 0 <= i < |a| ==> SameIdentity(a[i], b[i])
    ensures TableDelta(a, fills, m) == TableDelta(b, fills, m)
  {
    if a != [] {
      TableDeltaSame(a[..|a| - 1], b[..|b| - 1], fills, m);
    }
  }

  lemma {:induction false} TableDeltaPost(orders: seq<Order>, fills: map<nat, Fill>, i: nat, fill: Fill, m: Mint)
    requires i !in fills
    ensures TableDelta(orders, fills[i := fill], m)
      == TableDelta(orders, fills, m) + (if i < |orders| && orders[i].mint == m then PostedDelta(orders[i], fill) else 0)
  {
    if orders != [] {
      TableDeltaPost(orders[..|orders| - 1], fills, i, fill, m);
    }
  }

  lemma AppendAdjusted(ledger: seq<Posting>, p: Posting, m: Mint)
    ensures AdjustedBy(ledger + [p], m) == AdjustedBy(ledger, m) + (if p.Adjusted? then DeltaFor(p, m) else 0)
  {
    assert (ledger + [p])[..|ledger|] == ledger;
  }

  // A step leaves the tables alone, rewrites one unfinished row, appends an order,
  // posts a fill, or adjusts a balance.
  datatype Change = Unmoved | Rewrote(i: nat, row: Order) | OrderAdded(o: Order) | FillAdded(i: nat, fill: Fill) | BalanceSet(p: Posting)

  ghost predicate TaskFrame(s: Sys, t: Sys, c: Change) {
    forall n :: n in t.tasks ==>
      || (n in s.tasks && t.tasks[n].order == s.tasks[n].order)
      || (c.OrderAdded? && t.tasks[n].order == |s.db.orders|)
  }

  ghost predicate ChangedBy(s: Sys, t: Sys, c: Change) {
    && t.opening == s.opening && t.live == s.live && TaskFrame(s, t, c)
    && (forall i :: i in s.chain ==> i in t.chain)
    && match c
       case Unmoved =>
         t.ledger == s.ledger && t.db.fills == s.db.fills && t.db.orders == s.db.orders
       case Rewrote(i, row) =>
         && i < |s.db.orders| && Incomplete(s.db.orders[i]) && SameIdentity(s.db.orders[i], row)
         && t.ledger == s.ledger && t.db.fills == s.db.fills && t.db.orders == s.db.orders[i := row]
       case OrderAdded(o) =>
         t.ledger == s.ledger && t.db.fills == s.db.fills && t.db.orders == s.db.orders + [o]
       case FillAdded(i, fill) =>
         && i < |s.db.orders| && Incomplete(s.db.orders[i]) && i !in s.db.fills
         && t.db.orders == s.db.orders[i := s.db.orders[i].(state := Confirmed, signed := true)]
         && t.db.fills == s.db.fills[i := fill]
         && t.ledger == s.ledger + [Applied(i, s.db.orders[i].mint, PostedDelta(s.db.orders[i], fill))]
       case BalanceSet(p) =>
         t.db.orders == s.db.orders && t.db.fills == s.db.fills && p.Adjusted? && t.ledger == s.ledger + [p]
  }

  // Who may touch a row: the task holding the order, or a reconciler, which fails it,
  // expires it, or posts the fill of a signed exit.
  ghost predicate Authorised(s: Sys, a: Act, c: Change) {
    match c
    case Rewrote(i, row) =>
      || Held(s, i)
      || (a.Resolve? && a.order == i && i < |s.db.orders|
          && (row == s.db.orders[i].(state := Failed) || row == s.db.orders[i].(state := Expired)))
    case FillAdded(i, _) =>
      || Held(s, i)
      || (a.Resolve? && a.order == i && i < |s.db.orders| && s.db.orders[i].signed && s.db.orders[i].kind == Exit)
    case BalanceSet(_) => a.Adjust?
    case OrderAdded(o) => o.kind == Entry ==> s.window
    case Unmoved => true
  }

  lemma UnappliedHasNoFill(s: Sys, i: nat)
    requires Inv(s) && i < |s.db.orders| && Incomplete(s.db.orders[i])
    ensures i !in s.db.fills && Times(s.ledger, i) == 0
  {
    assert Times(s.ledger, i) == 0;
  }

  lemma PostChanges(s: Sys, i: nat, fill: Fill, p: Position, m: Mint)
    requires i < |s.db.orders| && Incomplete(s.db.orders[i]) && i !in s.db.fills
    ensures ChangedBy(s, Post(s, i, fill, p), FillAdded(i, fill))
    ensures ChangedBy(s, DropTask(Post(s, i, fill, p), m), FillAdded(i, fill))
  {
  }

  lemma RewriteChanges(s: Sys, i: nat, o: Order)
    requires i < |s.db.orders| && Incomplete(s.db.orders[i]) && SameIdentity(s.db.orders[i], o)
    ensures ChangedBy(s, WithOrder(s, i, o), Rewrote(i, o)) && ChangedBy(s, s, Unmoved)
  {
  }

  lemma FinishChanges(s: Sys, m: Mint, i: nat, o: Order, write: bool)
    requires i < |s.db.orders| && Incomplete(s.db.orders[i]) && SameIdentity(s.db.orders[i], o)
    ensures ChangedBy(s, Finish(s, m, i, o, write), if write then Rewrote(i, o) else Unmoved)
    ensures Finish(s, m, i, o, write).window == s.window
  {
  }

  lemma CommitChanges(s: Sys, m: Mint, fault: Fault, write: bool) returns (c: Change)
    requires Inv(s) && Enabled(s, Commit(m, fault, write))
    ensures s.tasks[m].order < |s.db.orders| && ChangedBy(s, CommitStep(s, m, fault, write), c)
    ensures Authorised(s, Commit(m, fault, write), c)
    ensures CommitStep(s, m, fault, write).window == s.window
  {
    var t := s.tasks[m];
    assert TaskOk(s, m);
    UnappliedHasNoFill(s, t.order);
    hide Inv, Accounted, ChangedBy, CommitStep, Post, Accounts, Finish;
    CommitShape(s, m, fault, write);
    var o := s.db.orders[t.order];
    if CommitPosts(s, m, fault) {
      c := FillAdded(t.order, t.phase.fill);
      PostChanges(s, t.order, t.phase.fill, Accounted(s, t, t.phase.fill).value, m);
    } else {
      var unknown, confirmed := o.(state := Unknown, signed := true), o.(state := Confirmed, signed := true);
      FinishChanges(s, m, t.order, unknown, write);
      FinishChanges(s, m, t.order, confirmed, write);
      c := if !write then Unmoved
           else if CommitStep(s, m, fault, write) == Finish(s, m, t.order, unknown, write) then Rewrote(t.order, unknown)
           else Rewrote(t.order, confirmed);
    }
  }

  lemma ResolveChanges(s: Sys, a: Act) returns (c: Change)
    requires Inv(s) && a.Resolve? && Enabled(s, a)
    ensures ChangedBy(s, ResolveStep(s, a.order, a.holder, a.answer, a.monitor, a.write), c) && Authorised(s, a, c)
    ensures c.FillAdded? <==> ResolvePosts(s, a)
    ensures ResolveStep(s, a.order, a.holder, a.answer, a.monitor, a.write).window == s.window
  {
    var i := a.order;
    var t := ResolveStep(s, a.order, a.holder, a.answer, a.monitor, a.write);
    UnappliedHasNoFill(s, i);
    hide Inv, ResolveStep, RecordReconciledFill, ChangedBy, Post, Accounts;
    ResolveShape(s, a);
    var failed, expired := s.db.orders[i].(state := Failed), s.db.orders[i].(state := Expired);
    if ResolvePosts(s, a) {
      var r := RecordReconciledFill(s.db, s.db.orders[i], a.holder, s.chain[i]);
      c := FillAdded(i, r.fill);
      PostChanges(s, i, r.fill, r.position, []);
    } else {
      RewriteChanges(s, i, failed);
      RewriteChanges(s, i, expired);
      c := if t == s then Unmoved else if t == Restate(s, i, Failed) then Rewrote(i, failed) else Rewrote(i, expired);
    }
  }

  lemma AppendingChanges(s: Sys, a: Act) returns (c: Change)
    requires TaskOrdersExist(s) && Enabled(s, a) && (a.ReserveExit? || a.ReserveEntry? || a.Adjust?)
    ensures ChangedBy(s, Step(s, a), c) && Authorised(s, a, c) && Step(s, a).window == s.window
  {
    hide ReconcileWithChain, ExitReady, KeyTaken;
    match a
    case ReserveExit(m, reason) => c := OrderAdded(NewExitOrder(s.db, m, reason));
    case ReserveEntry(m, sid, pid, amount, value, _) => c := OrderAdded(NewEntryOrder(m, sid, pid, amount, value));
    case Adjust(_, _, _) => c := BalanceSet(Step(s, a).ledger[|s.ledger|]);
  }

  lemma SavingChanges(s: Sys, a: Act, m: Mint, write: bool) returns (c: Change)
    requires m in s.tasks && TaskOk(s, m)
    ensures ChangedBy(s, Finish(s, m, s.tasks[m].order, SavedRow(s, m), write), c) && Authorised(s, a, c)
    ensures Finish(s, m, s.tasks[m].order, SavedRow(s, m), write).window == s.window
  {
    hide ChangedBy, Finish;
    FinishChanges(s, m, s.tasks[m].order, SavedRow(s, m), write);
    c := if write then Rewrote(s.tasks[m].order, SavedRow(s, m)) else Unmoved;
  }

  lemma SubmitChanges(s: Sys, m: Mint, write: bool) returns (c: Change)
    requires m in s.tasks && TaskOk(s, m)
    ensures ChangedBy(s, SubmitStep(s, m, write), c) && Authorised(s, Submit(m, write), c)
    ensures SubmitStep(s, m, write).window == s.window
  {
    var i := s.tasks[m].order;
    c := if write then Rewrote(i, s.db.orders[i].(state := Submitted)) else Unmoved;
  }

  lemma ExecuteChanges(s: Sys, m: Mint, result: Executed)
    requires m in s.tasks
    ensures ChangedBy(s, ExecuteStep(s, m, result), Unmoved) && ExecuteStep(s, m, result).window == s.window
  {
    hide ChangedBy, Landed;
    var i := s.tasks[m].order;
    match result
    case Done(fill) =>
      PhaseChanges(s, m, Landed(s, i, Some(Outcome(fill.input, fill.output, fill.fees))), Filled(fill));
    case Uncertain(landed, hasSig) => PhaseChanges(s, m, Landed(s, i, landed).(sent := s.sent + {i}), Unsure(hasSig));
    case HardError(landed) => PhaseChanges(s, m, Landed(s, i, landed), Refused);
  }

  lemma PhaseChanges(s: Sys, m: Mint, u: Sys, phase: Phase)
    requires m in s.tasks && (exists i, landed :: u == Landed(s, i, landed).(sent := u.sent))
    ensures m in u.tasks && ChangedBy(s, SetPhase(u, m, phase), Unmoved) && SetPhase(u, m, phase).window == s.window
  {
  }

  lemma PlainChanges(s: Sys, t: Sys)
    requires t == s.(chain := t.chain, tasks := t.tasks, window := t.window)
    requires (forall m :: m in t.tasks ==> m in s.tasks && t.tasks[m] == s.tasks[m]) && forall i :: i in s.chain ==> i in t.chain
    ensures ChangedBy(s, t, Unmoved)
  {
  }

  lemma StepChanges(s: Sys, a: Act) returns (c: Change)
    requires Inv(s) && TaskOrdersExist(s) && Enabled(s, a)
    ensures ChangedBy(s, Step(s, a), c) && Authorised(s, a, c)
    ensures Step(s, a).window ==> s.window || a.OpenWindow?
  {
    if a.QuoteRefused? || a.SaveUnknown? || a.SaveFailed? || a.Submit? {
      assert TaskOk(s, a.mint);
    }
    hide Inv, ChangedBy, CommitStep, ResolveStep, SubmitStep, ExecuteStep, Finish, TaskOk, Authorised;
    if a.Commit? {
      c := CommitChanges(s, a.mint, a.fault, a.write);
    } else if a.Resolve? {
      c := ResolveChanges(s, a);
    } else if a.ReserveExit? || a.ReserveEntry? || a.Adjust? {
      c := AppendingChanges(s, a);
    } else if a.QuoteRefused? || a.SaveUnknown? || a.SaveFailed? {
      c := SavingChanges(s, a, a.mint, a.write);
    } else if a.Submit? {
      c := SubmitChanges(s, a.mint, a.write);
    } else {
      c := Unmoved;
      UnmovedIsAuthorised(s, a);
      if a.Execute? {
        ExecuteChanges(s, a.mint, a.result);
      } else {
        PlainChanges(s, Step(s, a));
      }
    }
  }

  lemma UnmovedIsAuthorised(s: Sys, a: Act)
    ensures Authorised(s, a, Unmoved)
  {
  }

  ghost predicate TablesAgreeAt(s: Sys, m: Mint) {
    Balance(Opening(s.opening, m), s.ledger, m)
    == Opening(s.opening, m) + TableDelta(s.db.orders, s.db.fills, m) + AdjustedBy(s.ledger, m)
  }

  lemma ChangeKeepsTables(s: Sys, t: Sys, c: Change, m: Mint)
    requires Inv(s) && ChangedBy(s, t, c) && TablesAgreeAt(s, m)
    ensures TablesAgreeAt(t, m) && (c.BalanceSet? || AdjustedBy(t.ledger, m) == AdjustedBy(s.ledger, m))
  {
    hide Inv, TaskFrame;
    if c.OrderAdded? {
      TableDeltaNew(s, c.o, m);
    }
    match c
    case Unmoved =>
    case Rewrote(i, row) => TableDeltaSame(s.db.orders, t.db.orders, s.db.fills, m);
    case OrderAdded(o) =>
    case FillAdded(i, fill) =>
      TableDeltaPost(t.db.orders, s.db.fills, i, fill, m);
      TableDeltaSame(s.db.orders, t.db.orders, s.db.fills, m);
      AppendPosting(Opening(s.opening, m), s.ledger, t.ledger[|s.ledger|], m, i);
      AppendAdjusted(s.ledger, t.ledger[|s.ledger|], m);
    case BalanceSet(p) =>
      AppendPosting(Opening(s.opening, m), s.ledger, p, m, 0);
      AppendAdjusted(s.ledger, p, m);
  }

  lemma StepKeepsTables(s: Sys, a: Act)
    requires Inv(s) && TaskOrdersExist(s) && Enabled(s, a) && TablesAgree(s)
    ensures TablesAgree(Step(s, a))
    ensures a.Adjust? || forall m :: AdjustedBy(Step(s, a).ledger, m) == AdjustedBy(s.ledger, m)
  {
    var c := StepChanges(s, a);
    var t := Step(s, a);
    hide Inv, Step, Enabled, ChangedBy;
    forall m ensures TablesAgreeAt(t, m) && (c.BalanceSet? || AdjustedBy(t.ledger, m) == AdjustedBy(s.ledger, m)) {
      ChangeKeepsTables(s, t, c, m);
    }
  }

  lemma TableDeltaNew(s: Sys, o: Order, m: Mint)
    requires Inv(s)
    ensures TableDelta(s.db.orders + [o], s.db.fills, m) == TableDelta(s.db.orders, s.db.fills, m)
  {
    assert (s.db.orders + [o])[..|s.db.orders|] == s.db.orders;
    assert Times(s.ledger, |s.db.orders|) == 0;
  }

  lemma {:induction false} RunKeepsTables(s: Sys, acts: seq<Act>)
    requires Inv(s) && Runnable(s, acts) && TablesAgree(s)
    ensures TablesAgree(Run(s, acts)) && Run(s, acts).opening == s.opening
    ensures (forall a :: a in acts ==> !a.Adjust?) ==> forall m :: AdjustedBy(Run(s, acts).ledger, m) == AdjustedBy(s.ledger, m)
    decreases |acts|
  {
    hide Inv, Enabled, Step, TablesAgree;
    if acts != [] {
      StepKeepsInv(s, acts[0]);
      StepKeepsTables(s, acts[0]);
      var c := StepChanges(s, acts[0]);
      RunKeepsTables(Step(s, acts[0]), acts[1..]);
    }
  }

  // Conservation over every run: unless a balance ever left u64, what is stored for a
  // token is what it opened with, plus the outputs of its recorded entry fills, minus
  // the inputs of its recorded exit fills, plus adjustments to the chain balance.
  lemma QuantityConserved(start: Sys, acts: seq<Act>, m: Mint)
    requires Init(start) && Runnable(start, acts)
    ensures var s := Run(start, acts);
      m in s.db.positions && Fits(Opening(s.opening, m), s.ledger, m) ==>
        RemainingOrZero(s.db.positions[m])
        == Opening(start.opening, m) + TableDelta(s.db.orders, s.db.fills, m) + AdjustedBy(s.ledger, m)
    ensures (forall a :: a in acts ==> !a.Adjust?) ==> AdjustedBy(Run(start, acts).ledger, m) == 0
  {
    InitInv(start);
    RunKeepsInv(start, acts);
    forall n ensures TablesAgreeAt(start, n) {}
    RunKeepsTables(start, acts);
    var s := Run(start, acts);
    assert ConservedAt(s.db.positions, Opening(s.opening, m), s.ledger, m) && TablesAgreeAt(s, m);
  }

  // ---------- terminal rows ----------

  // Once an order is stored in a terminal state, neither its row nor its fill row ever changes again.
  lemma {:induction false} TerminalRowsAreFinal(s: Sys, acts: seq<Act>, i: nat)
    requires Inv(s) && Runnable(s, acts) && i < |s.db.orders| && !Incomplete(s.db.orders[i])
    ensures var t := Run(s, acts);
      && i < |t.db.orders| && t.db.orders[i] == s.db.orders[i]
      && (i in t.db.fills <==> i in s.db.fills)
      && (i in s.db.fills ==> t.db.fills[i] == s.db.fills[i])
      && Times(t.ledger, i) == Times(s.ledger, i)
    decreases |acts|
  {
    if acts != [] {
      var t := Step(s, acts[0]);
      var c := StepChanges(s, acts[0]);
      StepKeepsInv(s, acts[0]);
      hide Inv, Enabled, Step;
      ChangeSparesTerminal(s, t, c, i);
      TerminalRowsAreFinal(t, acts[1..], i);
    }
  }

  lemma ChangeSparesTerminal(s: Sys, t: Sys, c: Change, i: nat)
    requires ChangedBy(s, t, c) && i < |s.db.orders| && !Incomplete(s.db.orders[i])
    ensures i < |t.db.orders| && t.db.orders[i] == s.db.orders[i]
    ensures i in t.db.fills <==> i in s.db.fills
    ensures i in s.db.fills ==> t.db.fills[i] == s.db.fills[i]
    ensures Times(t.ledger, i) == Times(s.ledger, i)
  {
    match c
    case FillAdded(j, fill) => AppendPosting(0, s.ledger, t.ledger[|s.ledger|], s.db.orders[j].mint, i);
    case BalanceSet(p) => AppendPosting(0, s.ledger, p, p.mint, i);
    case _ =>
  }
}
