// Runs from a first start that reach the losses of Recovery.dfy: none of its
// hypotheses is about states that cannot occur.
module Witnesses {
  import opened Wrappers
  import opened Orders
  import opened ExitKeys
  import opened Portfolio
  import opened Lifecycle
  import opened Invariants
  import opened Runs
  import opened StepEffects
  import opened Recovery
  import opened Runtime

  datatype EntryPlan = EntryPlan(mint: Mint, sid: Bytes, pid: Bytes, amount: u64, value: real, terms: EntryTerms, fill: Fill)

  ghost predicate CanPlan(start: Sys, e: EntryPlan) {
    && Init(start) && |e.sid| == |e.pid| == UUID_LENGTH && e.sid != e.pid
    && e.sid !in start.ids && e.pid !in start.ids
  }

  // Opening the gate on an empty store, reserving, submitting, executing.
  lemma EntryExecutes(start: Sys, e: EntryPlan) returns (acts: seq<Act>, t: Sys)
    requires CanPlan(start, e)
    ensures Leads(start, acts, t) && Inv(t) && TaskOrdersExist(t) && t.live == start.live
    ensures e.mint in t.tasks && t.tasks[e.mint] == Entering(0, Filled(e.fill), e.terms)
  {
    InitInv(start);
    InvHasOrders(start);
    LeadsNowhere(start);
    assert Enabled(start, OpenWindow) && Step(start, OpenWindow) == start.(window := true);
    DropKeepsInv(start, start.tasks, true);
    hide Inv, Leads, Enabled, Step, TaskOrdersExist;
    var ready := start.(window := true);
    LeadsOn(start, [], start, OpenWindow);
    acts := [] + [OpenWindow];
    ReservedEntryShape(start, acts, ready, e.mint, e.sid, e.pid, e.amount, e.value, e.terms);
    acts := acts + [ReserveEntry(e.mint, e.sid, e.pid, e.amount, e.value, e.terms)];
    var reserved := ReserveEntryStep(ready, e.mint, e.sid, e.pid, e.amount, e.value, e.terms);
    t := PlaceLeads(start, acts, reserved, e.mint, true, Done(e.fill));
    acts := acts + [Submit(e.mint, true)] + [Execute(e.mint, Done(e.fill))];
    InvHasOrders(t);
  }

  // A live session whose first entry's transaction fails is stuck from then on.
  lemma StuckEntryIsReachable(start: Sys, e: EntryPlan) returns (acts: seq<Act>, t: Sys)
    requires CanPlan(start, e) && start.live
    ensures Leads(start, acts, t) && StuckEntry(t, 0)
  {
    var s;
    acts, s := EntryExecutes(start, e);
    StepIsCommit(s, e.mint, BeforeTransition, true);
    var a := Commit(e.mint, BeforeTransition, true);
    hide Inv, Leads, Enabled, Step, TaskOrdersExist, StuckEntry;
    FailedEntryTransactionSticks(s, e.mint);
    LeadsOn(start, acts, s, a);
    acts, t := acts + [a], Step(s, a);
  }

  // A transaction that fails late leaves a Confirmed row that will never have a fill.
  lemma ConfirmedWithoutFillIsReachable(start: Sys, e: EntryPlan) returns (acts: seq<Act>, t: Sys)
    requires CanPlan(start, e) && e.fill.output > 0 && e.fill.value.Some?
    ensures Leads(start, acts, t)
    ensures Abandoned(t, 0) && t.db.orders[0].state == OrderState.Confirmed && 0 !in t.db.fills
  {
    var s;
    acts, s := EntryExecutes(start, e);
    EntryIsAccounted(s, e);
    StepIsCommit(s, e.mint, AfterTransition, true);
    var a := Commit(e.mint, AfterTransition, true);
    hide Inv, Leads, Enabled, Step, TaskOrdersExist, Abandoned, Accounted;
    ConfirmedWithoutFill(s, e.mint);
    LeadsOn(start, acts, s, a);
    acts, t := acts + [a], Step(s, a);
  }

  lemma EntryIsAccounted(s: Sys, e: EntryPlan)
    requires Inv(s) && e.mint in s.tasks && s.tasks[e.mint] == Entering(0, Filled(e.fill), e.terms)
    requires e.fill.output > 0 && e.fill.value.Some?
    ensures 0 < |s.db.orders| && Accounted(s, s.tasks[e.mint], e.fill).Ok?
  {
    assert TaskOk(s, e.mint);
    assert OrderOk(s.db.orders, 0, s.ids);
  }

  // A crash after the swap and before the transaction: executed, and lost for good.
  lemma LostSwapIsReachable(start: Sys, e: EntryPlan) returns (acts: seq<Act>, t: Sys)
    requires CanPlan(start, e)
    ensures Leads(start, acts, t) && Abandoned(t, 0) && 0 in t.chain
  {
    var s;
    acts, s := EntryExecutes(start, e);
    assert TaskOk(s, e.mint);
    UnappliedHasNoFill(s, 0);
    assert Enabled(s, Crash);
    t := Step(s, Crash);
    assert Abandoned(t, 0);
    hide Inv, Leads, Enabled, Step, TaskOrdersExist;
    LeadsOn(start, acts, s, Crash);
    acts := acts + [Crash];
  }

  // And one for a sale: sold on chain, lost by a crash, expired, and reserved again whole.
  lemma SecondSaleIsReachable(start: Sys, m: Mint, why: Bytes, fill: Fill) returns (acts: seq<Act>, t: Sys)
    requires Init(start) && ExitReady(start.db, m)
    ensures Leads(start, acts, t)
    ensures Abandoned(t, 0) && 0 in t.chain && |t.db.orders| == 2 && m in t.tasks && t.tasks[m].order == 1
    ensures t.db.orders[1].inputAmount == t.db.orders[0].inputAmount == TrustedRemaining(start.db.positions[m]).value
  {
    InitInv(start);
    InvHasOrders(start);
    LeadsNowhere(start);
    Pow256Values();
    ExitKeyIsFresh(start, m, why);
    ReservedShape(start, m, why);
    ReserveExitKeepsInv(start, m, why);
    var first := ReserveExit(m, why);
    assert Enabled(start, first);
    assert Sellable(start.db.positions[m]);
    hide Inv, Leads, Enabled, Step, TaskOrdersExist, Sellable, ExitReady;
    LeadsOn(start, [], start, first);
    acts := [] + [first];
    var s := PlaceLeads(start, acts, ReserveExitStep(start, m, why), m, true, Done(fill));
    acts := acts + [Submit(m, true)] + [Execute(m, Done(fill))];
    ExecutedIsOnChain(s, m);
    SameQuantitySellsAgainIff(s, m, why, [], []);
    RestartedShape(s, m, [], []);
    var schedule := RestartIsARun(s, m, [], []);
    var expired, again := Restarted(s, m, [], []), ReserveExit(m, why);
    acts := JoinRuns(start, acts, s, schedule, expired);
    InvHasOrders(expired);
    ReservedShape(expired, m, why);
    LeadsOn(start, acts, expired, again);
    StepSparesAbandoned(expired, again, 0);
    acts, t := acts + [again], Step(expired, again);
  }

  lemma ExecutedIsOnChain(s: Sys, m: Mint)
    requires Inv(s) && m in s.tasks && s.tasks[m].phase.Filled?
    ensures s.tasks[m].order in s.chain
  {
    assert TaskOk(s, m);
  }

  lemma {:induction false} JoinRuns(start: Sys, acts: seq<Act>, s: Sys, more: seq<Act>, t: Sys) returns (all: seq<Act>)
    requires Leads(start, acts, s) && Runnable(s, more) && Run(s, more) == t
    ensures Leads(start, all, t)
    decreases |more|
  {
    all := acts;
    if more != [] {
      hide Enabled, Step, TaskOrdersExist;
      LeadsOn(start, acts, s, more[0]);
      all := JoinRuns(start, acts + [more[0]], Step(s, more[0]), more[1..], t);
    }
  }

  // ---------- one start for all of them ----------

  function Id(first: byte): (id: Bytes)
    ensures |id| == UUID_LENGTH && id[0] == first
  {
    [first] + seq(UUID_LENGTH - 1, _ => 0)
  }

  // A live session that inherits one open position of a million units.
  function SampleStart(): Sys {
    var p := Position(Some(Id(1)), Some([2]), Some(6), Some(9), true, 1000000.0, Some(1000000), Some(10.0), Some(150.0),
                      true, Matched, 0.0, 0.0, 0.00001, 10.0);
    Sys(Db([], map[], map[[1] := p]), map[[1] := p], [], map[], {}, map[], {Id(1)}, true, false)
  }

  lemma SampleIsReady()
    ensures Init(SampleStart()) && SampleStart().live && ExitReady(SampleStart().db, [1])
    ensures TrustedRemaining(SampleStart().db.positions[[1]]) == Some(1000000)
  {
    assert Pow10(6) == 1000000 by {
      assert Pow10(3) == 1000;
      assert Pow10(6) == 10 * (10 * (10 * Pow10(3)));
    }
  }

  // From that start all four are reached.
  lemma LossesAreReachable() returns (stuck: Sys, confirmed: Sys, lost: Sys, resold: Sys)
    ensures exists acts :: Leads(SampleStart(), acts, stuck)
    ensures StuckEntry(stuck, 0)
    ensures exists acts :: Leads(SampleStart(), acts, confirmed)
    ensures Abandoned(confirmed, 0) && confirmed.db.orders[0].state == OrderState.Confirmed && 0 !in confirmed.db.fills
    ensures exists acts :: Leads(SampleStart(), acts, lost)
    ensures Abandoned(lost, 0) && 0 in lost.chain
    ensures exists acts :: Leads(SampleStart(), acts, resold)
    ensures Abandoned(resold, 0) && 0 in resold.chain && |resold.db.orders| == 2
    ensures resold.db.orders[1].inputAmount == resold.db.orders[0].inputAmount == 1000000
  {
    SampleIsReady();
    var start := SampleStart();
    var bought := Fill(1000, 5000, 0.01, 0.0, Some(50.0));
    var e := EntryPlan([7], Id(2), Id(3), 1000, 50.0, EntryTerms([2], 6, 9), bought);
    assert Id(1) != Id(2) && Id(1) != Id(3) && Id(2) != Id(3);
    assert CanPlan(start, e);
    hide Leads, Inv, Init, CanPlan, ExitReady, StuckEntry, Abandoned;
    var acts;
    acts, stuck := StuckEntryIsReachable(start, e);
    acts, confirmed := ConfirmedWithoutFillIsReachable(start, e);
    acts, lost := LostSwapIsReachable(start, e);
    acts, resold := SecondSaleIsReachable(start, [1], [9], Fill(1000000, 70000000, 0.00001, 0.0, Some(10.5)));
  }
}
