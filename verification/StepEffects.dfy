// What the acts of one task do to the tables, packaged for the procedures of
// Runtime.dfy: each lemma extends a run that leads to the present state.
module StepEffects {
  import opened Wrappers
  import opened Orders
  import opened ExitKeys
  import opened Portfolio
  import opened Lifecycle
  import opened Invariants
  import opened Runs

  lemma RunOneMore(s: Sys, acts: seq<Act>, a: Act)
    requires Runnable(s, acts) && TaskOrdersExist(Run(s, acts)) && Enabled(Run(s, acts), a)
    ensures Runnable(s, acts + [a]) && Run(s, acts + [a]) == Step(Run(s, acts), a)
    decreases |acts|
  {
    hide Enabled, Step, TaskOrdersExist;
    if acts == [] {
      assert acts + [a] == [a] && [a][1..] == [];
      assert Runnable(Step(s, a), []);
    } else {
      RunOneMore(Step(s, acts[0]), acts[1..], a);
      assert (acts + [a])[1..] == acts[1..] + [a];
    }
  }

  // The acts lead from one state to the other.
  ghost predicate Leads(s: Sys, acts: seq<Act>, t: Sys) {
    Runnable(s, acts) && Run(s, acts) == t
  }

  lemma LeadsOn(s: Sys, acts: seq<Act>, t: Sys, a: Act)
    requires Leads(s, acts, t) && TaskOrdersExist(t) && Enabled(t, a)
    ensures Leads(s, acts + [a], Step(t, a))
  {
    hide Enabled, Step, TaskOrdersExist;
    RunOneMore(s, acts, a);
  }

  lemma LeadsNowhere(s: Sys)
    ensures Leads(s, [], s)
  {
  }

  lemma InvHasOrders(s: Sys)
    requires Inv(s)
    ensures TaskOrdersExist(s)
  {
    TasksHaveOrders(s);
  }

  // Nothing moved outside the tables, the chain and the task list.
  predicate SameSetting(s: Sys, t: Sys) {
    t.live == s.live && t.window == s.window && t.ids == s.ids
  }

  // ---------- reserving ----------

  lemma ReservedShape(s: Sys, m: Mint, reason: Bytes)
    requires TaskOrdersExist(s) && Enabled(s, ReserveExit(m, reason))
    ensures ExitReady(s.db, m) && m in s.db.positions
    ensures var t := ReserveExitStep(s, m, reason);
      var n := |s.db.orders|;
      && t == Step(s, ReserveExit(m, reason))
      && t.tasks == s.tasks[m := Exiting(n, Reserved, s.db.positions[m])] && m !in s.tasks
      && t.db == s.db.(orders := s.db.orders + [NewExitOrder(s.db, m, reason)])
      && NewExitOrder(s.db, m, reason).state == Pending && !NewExitOrder(s.db, m, reason).signed
  {
    assert m in s.db.positions;
    hide ExitReady;
  }

  // ---------- submitting and executing ----------

  function PhaseAfter(result: Executed): Phase {
    match result
    case Done(fill) => Filled(fill)
    case Uncertain(_, hasSignature) => Unsure(hasSignature)
    case HardError(_) => Refused
  }

  function PlacedDb(db: Db, i: nat, write: bool): Db
    requires i < |db.orders|
  {
    if write then db.(orders := db.orders[i := db.orders[i].(state := Submitted)]) else db
  }

  // An exit goes on even if Submitted could not be saved.
  predicate CanPlace(s: Sys, m: Mint, write: bool) {
    m in s.tasks && s.tasks[m].phase.Reserved? && (write || s.tasks[m].Exiting?)
  }

  lemma SubmitDb(s: Sys, m: Mint, write: bool)
    requires CanPlace(s, m, write) && s.tasks[m].order < |s.db.orders|
    ensures var mid := SubmitStep(s, m, write);
      && SameSetting(s, mid) && mid.db == PlacedDb(s.db, s.tasks[m].order, write)
      && mid.tasks == s.tasks[m := s.tasks[m].(phase := Placed)]
  {
  }

  lemma ExecuteDb(s: Sys, m: Mint, result: Executed)
    requires m in s.tasks
    ensures var t := ExecuteStep(s, m, result);
      SameSetting(s, t) && t.db == s.db && t.tasks == s.tasks[m := s.tasks[m].(phase := PhaseAfter(result))]
  {
  }

  lemma PlaceDb(s: Sys, m: Mint, write: bool, result: Executed)
    requires CanPlace(s, m, write) && s.tasks[m].order < |s.db.orders|
    ensures var mid := SubmitStep(s, m, write);
      && m in mid.tasks && mid.tasks[m].phase.Placed?
      && var t := ExecuteStep(mid, m, result);
      && SameSetting(s, t) && t.tasks == s.tasks[m := s.tasks[m].(phase := PhaseAfter(result))]
      && t.db == PlacedDb(s.db, s.tasks[m].order, write)
  {
    SubmitDb(s, m, write);
    hide SubmitStep, ExecuteStep, PhaseAfter, PlacedDb;
    ExecuteDb(SubmitStep(s, m, write), m, result);
  }

  lemma StepIsSubmit(s: Sys, m: Mint, write: bool)
    requires TaskOrdersExist(s) && m in s.tasks && s.tasks[m].phase.Reserved?
    ensures Enabled(s, Submit(m, write)) && Step(s, Submit(m, write)) == SubmitStep(s, m, write)
  {
  }

  lemma StepIsExecute(s: Sys, m: Mint, result: Executed)
    requires TaskOrdersExist(s) && m in s.tasks && s.tasks[m].phase.Placed?
    ensures Enabled(s, Execute(m, result)) && Step(s, Execute(m, result)) == ExecuteStep(s, m, result)
  {
  }

  lemma PlaceLeads(start: Sys, acts: seq<Act>, s: Sys, m: Mint, write: bool, result: Executed) returns (t: Sys)
    requires Leads(start, acts, s) && Inv(s) && CanPlace(s, m, write)
    ensures s.tasks[m].order < |s.db.orders| && t.db == PlacedDb(s.db, s.tasks[m].order, write)
    ensures Leads(start, acts + [Submit(m, write)] + [Execute(m, result)], t) && Inv(t) && SameSetting(s, t)
    ensures t.tasks == s.tasks[m := s.tasks[m].(phase := PhaseAfter(result))]
  {
    assert TaskOk(s, m);
    InvHasOrders(s);
    assert s.tasks[m].order < |s.db.orders|;
    hide Inv, TaskOk, TaskOrdersExist, SubmitStep, ExecuteStep, PhaseAfter, PlacedDb, Enabled, Step, Leads, SameSetting;
    StepIsSubmit(s, m, write);
    PlaceDb(s, m, write, result);
    SubmitKeepsInv(s, m, write);
    var mid := SubmitStep(s, m, write);
    InvHasOrders(mid);
    StepIsExecute(mid, m, result);
    ExecuteKeepsInv(mid, m, result);
    LeadsOn(start, acts, s, Submit(m, write));
    LeadsOn(start, acts + [Submit(m, write)], mid, Execute(m, result));
    t := ExecuteStep(mid, m, result);
  }

  // An entry gives up when Submitted cannot be saved.
  lemma GiveUpLeads(start: Sys, acts: seq<Act>, s: Sys, m: Mint)
    requires Leads(start, acts, s) && Inv(s) && m in s.tasks && s.tasks[m].Entering? && s.tasks[m].phase.Reserved?
    ensures Leads(start, acts + [Submit(m, false)], DropTask(s, m)) && Inv(DropTask(s, m)) && SameSetting(s, DropTask(s, m))
  {
    assert TaskOk(s, m);
    InvHasOrders(s);
    hide Inv, TaskOk, TaskOrdersExist, Enabled, Step, Leads;
    StepIsSubmit(s, m, false);
    SubmitKeepsInv(s, m, false);
    LeadsOn(start, acts, s, Submit(m, false));
  }

  // ---------- saving a row and stopping ----------

  // The save that ends a task in its present phase.
  function SavingAct(phase: Phase, m: Mint, write: bool): Act {
    match phase
    case Unsure(_) => SaveUnknown(m, write)
    case Refused => SaveFailed(m, write)
    case _ => QuoteRefused(m, write)
  }

  predicate CanSave(s: Sys, m: Mint) {
    && m in s.tasks
    && (s.tasks[m].phase.Unsure? || s.tasks[m].phase.Refused? || (s.tasks[m].phase.Reserved? && s.tasks[m].Exiting?))
  }

  lemma StepIsSaving(s: Sys, m: Mint, write: bool)
    requires TaskOrdersExist(s) && CanSave(s, m)
    ensures var a := SavingAct(s.tasks[m].phase, m, write);
      Enabled(s, a) && Step(s, a) == Finish(s, m, s.tasks[m].order, SavedRow(s, m), write)
  {
  }

  lemma SavingLeads(start: Sys, acts: seq<Act>, s: Sys, m: Mint, write: bool) returns (a: Act)
    requires Leads(start, acts, s) && Inv(s) && CanSave(s, m)
    ensures s.tasks[m].order < |s.db.orders|
    ensures var t := Finish(s, m, s.tasks[m].order, SavedRow(s, m), write); Leads(start, acts + [a], t) && Inv(t)
  {
    InvHasOrders(s);
    assert TaskOk(s, m);
    a := SavingAct(s.tasks[m].phase, m, write);
    StepIsSaving(s, m, write);
    hide Inv, Enabled, TaskOrdersExist, Step, Leads, Finish;
    FinishKeepsInv(s, m, SavedRow(s, m), write);
    LeadsOn(start, acts, s, a);
  }

  // ---------- the transaction ----------

  // The tables after the transaction of a task, or after its failure.
  function CommittedDb(db: Db, m: Mint, i: nat, accounted: Result<Position, string>, fill: Fill, fault: Fault, write: bool): Db
    requires i < |db.orders|
  {
    var o := db.orders[i];
    if accounted.Ok? && fault.NoFault? then
      Db(db.orders[i := o.(state := Confirmed, signed := true)], db.fills[i := fill], db.positions[m := accounted.value])
    else if !write then db
    else
      var left := if accounted.Ok? && fault.AfterTransition? then Confirmed else Unknown;
      db.(orders := db.orders[i := o.(state := left, signed := true)])
  }

  lemma CommitDb(s: Sys, m: Mint, fault: Fault, write: bool)
    requires m in s.tasks && s.tasks[m].phase.Filled?
    requires var i := s.tasks[m].order; i < |s.db.orders| && s.db.orders[i].mint == m
    ensures var task := s.tasks[m];
      var fill := task.phase.fill;
      var t := CommitStep(s, m, fault, write);
      && t.db == CommittedDb(s.db, m, task.order, Accounted(s, task, fill), fill, fault, write)
      && t.tasks == s.tasks - {m} && SameSetting(s, t)
  {
    hide Accounted, Finish, Post, DropTask, SameSetting, CommittedDb;
    var task := s.tasks[m];
    var o := s.db.orders[task.order];
    var left := if fault.AfterTransition? then Confirmed else Unknown;
    FinishDb(s, m, task.order, o.(state := Unknown, signed := true), write);
    FinishDb(s, m, task.order, o.(state := left, signed := true), write);
    match Accounted(s, task, task.phase.fill)
    case Ok(p) =>
      PostDb(s, m, task.order, task.phase.fill, p);
      CommittedShape(s.db, m, task.order, Ok(p), task.phase.fill, fault, write);
    case Err(e) =>
      CommittedShape(s.db, m, task.order, Err(e), task.phase.fill, fault, write);
  }

  lemma CommittedShape(db: Db, m: Mint, i: nat, accounted: Result<Position, string>, fill: Fill, fault: Fault, write: bool)
    requires i < |db.orders|
    ensures var o := db.orders[i];
      CommittedDb(db, m, i, accounted, fill, fault, write) ==
      match accounted
      case Ok(p) =>
        (match fault
         case NoFault => Db(db.orders[i := o.(state := Confirmed, signed := true)], db.fills[i := fill], db.positions[m := p])
         case BeforeTransition => if write then db.(orders := db.orders[i := o.(state := Unknown, signed := true)]) else db
         case AfterTransition => if write then db.(orders := db.orders[i := o.(state := Confirmed, signed := true)]) else db)
      case Err(_) => if write then db.(orders := db.orders[i := o.(state := Unknown, signed := true)]) else db
  {
  }

  lemma FinishDb(s: Sys, m: Mint, i: nat, o: Order, write: bool)
    requires i < |s.db.orders|
    ensures var t := Finish(s, m, i, o, write);
      && t.db == (if write then s.db.(orders := s.db.orders[i := o]) else s.db)
      && t.tasks == s.tasks - {m} && SameSetting(s, t)
  {
  }

  lemma PostDb(s: Sys, m: Mint, i: nat, fill: Fill, p: Position)
    requires i < |s.db.orders| && s.db.orders[i].mint == m
    ensures var t := DropTask(Post(s, i, fill, p), m);
      && t.db == Db(s.db.orders[i := s.db.orders[i].(state := Confirmed, signed := true)], s.db.fills[i := fill], s.db.positions[m := p])
      && t.tasks == s.tasks - {m} && SameSetting(s, t)
  {
  }

  lemma StepIsCommit(s: Sys, m: Mint, fault: Fault, write: bool)
    requires TaskOrdersExist(s) && m in s.tasks && s.tasks[m].phase.Filled?
    ensures Enabled(s, Commit(m, fault, write)) && Step(s, Commit(m, fault, write)) == CommitStep(s, m, fault, write)
  {
  }

  lemma CommitLeads(start: Sys, acts: seq<Act>, s: Sys, m: Mint, fault: Fault, write: bool) returns (t: Sys)
    requires Leads(start, acts, s) && Inv(s) && m in s.tasks && s.tasks[m].phase.Filled?
    ensures var task := s.tasks[m];
      && task.order < |s.db.orders|
      && t.db == CommittedDb(s.db, m, task.order, Accounted(s, task, task.phase.fill), task.phase.fill, fault, write)
    ensures Leads(start, acts + [Commit(m, fault, write)], t) && Inv(t) && t.tasks == s.tasks - {m} && SameSetting(s, t)
  {
    assert TaskOk(s, m);
    InvHasOrders(s);
    hide Inv, Accounted, TaskOk, CommittedDb, CommitStep, Enabled, Step, Leads, TaskOrdersExist, SameSetting;
    CommitDb(s, m, fault, write);
    StepIsCommit(s, m, fault, write);
    CommitKeepsInv(s, m, fault, write);
    LeadsOn(start, acts, s, Commit(m, fault, write));
    t := CommitStep(s, m, fault, write);
  }
}
