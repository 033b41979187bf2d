// The store and the procedures of src/runtime.rs that rewrite it step by step.
// Each procedure is proved to be a run of the step relation, so everything proved
// about runs holds for it; external answers arrive as parameters.
module Runtime {
  import opened Wrappers
  import opened Orders
  import opened ExitKeys
  import opened Portfolio
  import opened Lifecycle
  import opened Invariants
  import opened Runs
  import opened StepEffects
  import opened Recovery

  // What the chain answers about a signature, and whether the order outlived the expiry window.
  datatype ChainReply = Executed(outcome: Outcome) | Absent | FailedTx | Unavailable
  datatype Reply = Reply(aged: bool, chain: ChainReply, storeOk: bool)

  datatype Tally = TallyConfirmed | TallyFailed | TallyExpired | TallyUnresolved | StoreError

  datatype Summary = Summary(confirmed: nat, failed: nat, expired: nat, unresolved: nat)

  // Unreserved is the failure of a reservation the store rejects as malformed.
  datatype ExitResult = Confirmed(fill: Fill) | UnknownOutcome | FailedExit | Skipped | Unreserved

  // Everything the outside world decides during one exit.
  datatype ExitWorld = ExitWorld(quoteOk: bool, result: Executed, fault: Fault, saveFailure: bool, saveSubmit: bool, saveResult: bool)

  ghost predicate Truthful(chain: map<nat, Outcome>, replies: nat -> Reply) {
    forall i: nat :: Tells(chain, i, replies(i))
  }

  function CountState(orders: seq<Order>, st: OrderState): nat {
    if orders == [] then 0
    else CountState(orders[..|orders| - 1], st) + (if orders[|orders| - 1].state == st then 1 else 0)
  }

  function CountIncomplete(orders: seq<Order>): nat {
    CountState(orders, Pending) + CountState(orders, Submitted) + CountState(orders, Unknown)
  }

  lemma {:induction false} CountStateUpdate(orders: seq<Order>, i: nat, o: Order, st: OrderState)
    requires i < |orders|
    ensures CountState(orders[i := o], st)
      == CountState(orders, st) - (if orders[i].state == st then 1 else 0) + (if o.state == st then 1 else 0)
  {
    var front := orders[..|orders| - 1];
    if i == |orders| - 1 {
      assert orders[i := o][..|orders| - 1] == front;
    } else {
      assert orders[i := o][..|orders| - 1] == front[i := o];
      CountStateUpdate(front, i, o, st);
    }
  }

  lemma CountRewrite(orders: seq<Order>, i: nat, o: Order)
    requires i < |orders| && Incomplete(orders[i])
    ensures CountIncomplete(orders[i := o]) == CountIncomplete(orders) - (if Incomplete(o) then 0 else 1)
    ensures forall st: OrderState :: !(st.Pending? || st.Submitted? || st.Unknown?) ==>
      CountState(orders[i := o], st) == CountState(orders, st) + (if o.state == st then 1 else 0)
  {
    forall st ensures CountState(orders[i := o], st)
      == CountState(orders, st) - (if orders[i].state == st then 1 else 0) + (if o.state == st then 1 else 0) {
      CountStateUpdate(orders, i, o, st);
    }
  }

  // What one reply says is true of the chain.
  ghost predicate Tells(chain: map<nat, Outcome>, i: nat, reply: Reply) {
    match reply.chain
    case Executed(outcome) => i in chain && chain[i] == outcome
    case Absent => i !in chain
    case FailedTx => i !in chain
    case Unavailable => true
  }

  // The state an order that shows no execution is moved to, if any.
  function VerdictOn(signed: bool, live: bool, monitor: bool, reply: Reply): Option<OrderState> {
    if !signed then (if (!live && !monitor) || reply.aged then Some(Failed) else None)
    else if !live then Some(Failed)
    else match reply.chain
      case FailedTx => Some(Failed)
      case Absent => if reply.aged then Some(Expired) else None
      case _ => None
  }

  function AnswerOf(signed: bool, reply: Reply): Answer {
    if !signed then NeverSubmitted(reply.aged)
    else match reply.chain
      case FailedTx => FailedOnChain
      case Absent => NotFound(reply.aged)
      case _ => NoNews
  }

  lemma QuietResolve(s: Sys, a: Act, monitor: bool, reply: Reply)
    requires Inv(s) && TaskOrdersExist(s) && a.Resolve? && !Held(s, a.order)
    requires a.order < |s.db.orders| && Incomplete(s.db.orders[a.order]) && Tells(s.chain, a.order, reply)
    requires var o := s.db.orders[a.order];
      && a == Resolve(a.order, HolderOf(s.db, o.positionId), AnswerOf(o.signed, reply), monitor, reply.storeOk)
      && !(o.signed && s.live && reply.chain.Executed?)
    ensures Enabled(s, a)
    ensures var verdict := VerdictOn(s.db.orders[a.order].signed, s.live, monitor, reply);
      Step(s, a) == if verdict.Some? && reply.storeOk then Restate(s, a.order, verdict.value) else s
    ensures Inv(Step(s, a))
  {
    hide Inv, RecordReconciledFill;
    assert Enabled(s, a);
    StepKeepsInv(s, a);
  }

  // A pass touches no order that a task is working on: those carry no signature, and
  // the rule for unsigned orders spares them all.
  ghost predicate SparesHeld(s: Sys, monitor: bool, replies: nat -> Reply) {
    forall m :: m in s.tasks ==> VerdictOn(false, s.live, monitor, replies(s.tasks[m].order)).None?
  }

  lemma SignedIsFree(s: Sys, i: nat)
    requires Inv(s) && i < |s.db.orders| && s.db.orders[i].signed
    ensures !Held(s, i)
  {
    forall m | m in s.tasks ensures s.tasks[m].order != i {
      assert TaskOk(s, m);
    }
  }

  lemma QuietLeads(start: Sys, acts: seq<Act>, s: Sys, i: nat, monitor: bool, reply: Reply) returns (t: Sys, acts': seq<Act>)
    requires Leads(start, acts, s) && Inv(s) && !Held(s, i)
    requires i < |s.db.orders| && Incomplete(s.db.orders[i]) && Tells(s.chain, i, reply)
    requires !(s.db.orders[i].signed && s.live && reply.chain.Executed?)
    ensures var verdict := VerdictOn(s.db.orders[i].signed, s.live, monitor, reply);
      t == if verdict.Some? && reply.storeOk then Restate(s, i, verdict.value) else s
    ensures Inv(t) && Leads(start, acts', t)
  {
    var o := s.db.orders[i];
    var a := Resolve(i, HolderOf(s.db, o.positionId), AnswerOf(o.signed, reply), monitor, reply.storeOk);
    InvHasOrders(s);
    hide Inv, Enabled, Step, TaskOrdersExist, Leads, Restate, Held;
    QuietResolve(s, a, monitor, reply);
    LeadsOn(start, acts, s, a);
    t, acts' := Step(s, a), acts + [a];
  }

  // The order is an exit whose stored position can price and absorb the outcome.
  ghost predicate Absorbs(db: Db, i: nat, outcome: Outcome)
    requires i < |db.orders|
  {
    var o := db.orders[i];
    o.kind == Exit && o.mint in db.positions && CanAbsorb(o, db.positions[o.mint], outcome)
  }

  lemma RecordedLeads(start: Sys, acts: seq<Act>, s: Sys, i: nat, holder: Option<Mint>, storeOk: bool, monitor: bool)
    returns (t: Sys, acts': seq<Act>)
    requires Leads(start, acts, s) && Inv(s) && s.live && i < |s.db.orders| && Incomplete(s.db.orders[i]) && s.db.orders[i].signed
    requires i in s.chain
    requires holder.Some? ==> Holds(s.db, s.db.orders[i].positionId, holder.value)
    requires holder.None? ==> forall m :: !Holds(s.db, s.db.orders[i].positionId, m)
    ensures Inv(t) && Leads(start, acts', t) && t.tasks == s.tasks && t.chain == s.chain && t.live == s.live
    ensures var o := s.db.orders[i];
      var r := RecordReconciledFill(s.db, o, holder, s.chain[i]);
      && (r.Posted? <==> Absorbs(s.db, i, s.chain[i])) && i !in s.db.fills
      && t.db == if storeOk && r.Posted? then
           Db(s.db.orders[i := o.(state := OrderState.Confirmed, signed := true)], s.db.fills[i := r.fill], s.db.positions[o.mint := r.position])
         else s.db
  {
    var a := Resolve(i, holder, SwapExecuted, monitor, true);
    var write := Resolve(i, holder, SwapExecuted, monitor, storeOk);
    SignedIsFree(s, i);
    assert Enabled(s, a) && Enabled(s, write);
    UnappliedHasNoFill(s, i);
    if s.db.orders[i].kind == Exit {
      ExitHasPosition(s, i);
    }
    ReconcilePostsIff(s, a);
    RecordedAccounts(s, i, holder, s.chain[i]);
    InvHasOrders(s);
    hide Inv, Leads, TaskOrdersExist, RecordReconciledFill, Held, CanAbsorb, Accounts;
    ResolveKeepsInv(s, write);
    assert Step(s, write) == ResolveStep(s, i, holder, SwapExecuted, monitor, storeOk);
    hide Enabled, Step;
    LeadsOn(start, acts, s, write);
    t, acts' := ResolveStep(s, i, holder, SwapExecuted, monitor, storeOk), acts + [write];
  }

  // An exit that is absorbed is found under its own token.
  lemma ExitHolder(s: Sys, i: nat, holder: Option<Mint>, outcome: Outcome)
    requires Inv(s) && i < |s.db.orders| && Absorbs(s.db, i, outcome)
    requires holder.Some? ==> Holds(s.db, s.db.orders[i].positionId, holder.value)
    requires holder.None? ==> forall m :: !Holds(s.db, s.db.orders[i].positionId, m)
    ensures s.db.orders[i].kind == Exit && s.db.orders[i].mint in s.db.positions && holder == Some(s.db.orders[i].mint)
  {
    assert OrderOk(s.db.orders, i, s.ids);
    assert Holds(s.db, s.db.orders[i].positionId, s.db.orders[i].mint);
  }

  lemma ExitHasPosition(s: Sys, i: nat)
    requires Inv(s) && i < |s.db.orders| && s.db.orders[i].kind == Exit
    ensures s.db.orders[i].mint in s.db.positions
  {
  }

  // ---------- how a reply ends an order ----------

  // An order is failed when it never reached the chain and is old, or could not in paper
  // mode, unless the monitor waits; when paper mode signed it; and when its swap failed.
  predicate ShouldFail(o: Order, live: bool, monitor: bool, reply: Reply) {
    || (!o.signed && (reply.aged || !(live || monitor)))
    || (o.signed && !live)
    || (o.signed && live && reply.chain.FailedTx?)
  }

  predicate ShouldExpire(o: Order, live: bool, reply: Reply) {
    o.signed && live && reply.chain.Absent? && reply.aged
  }

  ghost predicate ShouldPost(db: Db, i: nat, live: bool, reply: Reply)
    requires i < |db.orders|
  {
    db.orders[i].signed && live && reply.chain.Executed? && Absorbs(db, i, reply.chain.outcome)
  }

  // The order ends as the reply says, if the store works; posted means with its fill, and
  // for everything else the fill table and the exit's position say nothing new.
  ghost predicate EndsAs(db: Db, now: Db, i: nat, live: bool, monitor: bool, reply: Reply)
    requires i < |db.orders| == |now.orders|
  {
    var o, o' := db.orders[i], now.orders[i];
    && (o'.state == OrderState.Confirmed <==> reply.storeOk && ShouldPost(db, i, live, reply))
    && (o'.state == Failed <==> reply.storeOk && ShouldFail(o, live, monitor, reply))
    && (o'.state == Expired <==> reply.storeOk && ShouldExpire(o, live, reply))
    && (o'.state == Failed || o'.state == Expired ==> o' == o.(state := o'.state))
    && (Incomplete(o') ==> o' == o)
    && (if o'.state == OrderState.Confirmed then
          && o' == o.(state := OrderState.Confirmed, signed := true)
          && o.kind == Exit && i !in db.fills && i in now.fills && o.mint in db.positions && o.mint in now.positions
          && SaleOf(db.positions[o.mint], reply.chain.outcome, now.fills[i], now.positions[o.mint])
        else SameFill(db, now, i) && (o.kind == Exit ==> SamePosition(db, now, o.mint)))
    && IsEnd(o'.state)
  }

  predicate IsEnd(st: OrderState) {
    st.Confirmed? || st.Failed? || st.Expired? || st.Pending? || st.Submitted? || st.Unknown?
  }

  predicate SameFill(db: Db, now: Db, i: nat) {
    (i in now.fills <==> i in db.fills) && (i in db.fills ==> now.fills[i] == db.fills[i])
  }

  predicate SamePosition(db: Db, now: Db, m: Mint) {
    (m in now.positions <==> m in db.positions) && (m in db.positions ==> now.positions[m] == db.positions[m])
  }

  // One iteration touches its row, its fill and, for an exit, its token's position.
  ghost predicate TouchesOnly(db: Db, now: Db, i: nat)
    requires i < |db.orders|
  {
    && |now.orders| == |db.orders| && (forall j :: 0 <= j < |db.orders| && j != i ==> now.orders[j] == db.orders[j])
    && (forall j :: j != i ==> SameFill(db, now, j))
    && (forall m :: db.orders[i].kind != Exit || m != db.orders[i].mint ==> SamePosition(db, now, m))
  }

  // Nothing that concerns the order has moved.
  ghost predicate Stands(db: Db, now: Db, i: nat)
    requires i < |db.orders| == |now.orders|
  {
    now.orders[i] == db.orders[i] && SameFill(db, now, i) && (db.orders[i].kind == Exit ==> SamePosition(db, now, db.orders[i].mint))
  }

  // Unfinished exits are on different tokens, so one iteration leaves the others' tokens alone.
  ghost predicate ExitsApart(orders: seq<Order>) {
    forall i, j ::
      0 <= i < |orders| && 0 <= j < |orders| && i != j && Incomplete(orders[i]) && Incomplete(orders[j])
      && orders[i].kind == Exit && orders[j].kind == Exit ==>
        orders[i].mint != orders[j].mint
  }

  lemma InvKeepsExitsApart(s: Sys)
    requires Inv(s)
    ensures ExitsApart(s.db.orders)
  {
    forall i, j | 0 <= i < |s.db.orders| && 0 <= j < |s.db.orders| && i != j && Incomplete(s.db.orders[i]) && Incomplete(s.db.orders[j])
        && s.db.orders[i].kind == Exit && s.db.orders[j].kind == Exit
      ensures s.db.orders[i].mint != s.db.orders[j].mint
    {
      NoTwoExits(s.db.orders, i, j);
    }
  }

  // An order that ended keeps its end, and one not come to stays unmoved, when another
  // unfinished order is resolved; the reply then decides from the tables as they were at first.
  lemma OthersStand(db: Db, now: Db, next: Db, i: nat, j: nat, live: bool, monitor: bool, reply: Reply)
    requires i < |db.orders| == |now.orders| && j < |db.orders| && i != j && ExitsApart(db.orders)
    requires Incomplete(db.orders[i]) && Incomplete(db.orders[j]) && SameIdentity(db.orders[i], now.orders[i])
    requires TouchesOnly(now, next, i)
    ensures |next.orders| == |db.orders|
    ensures EndsAs(db, now, j, live, monitor, reply) ==> EndsAs(db, next, j, live, monitor, reply)
    ensures Stands(db, now, j) ==> Stands(db, next, j)
  {
    hide ShouldPost, ShouldFail, ShouldExpire, SaleOf;
    if db.orders[j].kind == Exit {
      assert now.orders[i].kind != Exit || db.orders[j].mint != now.orders[i].mint;
      assert SamePosition(now, next, db.orders[j].mint);
    }
    assert SameFill(now, next, j) && next.orders[j] == now.orders[j];
  }

  lemma StandingEnds(db: Db, now: Db, next: Db, i: nat, live: bool, monitor: bool, reply: Reply)
    requires i < |db.orders| == |now.orders| == |next.orders| && Stands(db, now, i) && EndsAs(now, next, i, live, monitor, reply)
    ensures EndsAs(db, next, i, live, monitor, reply)
  {
    hide SaleOf, CanAbsorb;
  }

  lemma ExecutedEnds(db: Db, now: Db, i: nat, live: bool, monitor: bool, reply: Reply, applied: bool)
    requires i < |db.orders| && Incomplete(db.orders[i]) && db.orders[i].signed && live && reply.chain.Executed?
    requires applied <==> reply.storeOk && Absorbs(db, i, reply.chain.outcome)
    requires
      if applied then
        var o := db.orders[i];
        && o.kind == Exit && o.mint in db.positions && o.mint in now.positions && i !in db.fills && i in now.fills
        && now == Db(db.orders[i := o.(state := OrderState.Confirmed, signed := true)], db.fills[i := now.fills[i]],
                     db.positions[o.mint := now.positions[o.mint]])
        && SaleOf(db.positions[o.mint], reply.chain.outcome, now.fills[i], now.positions[o.mint])
      else now == db
    ensures EndsAs(db, now, i, live, monitor, reply) && TouchesOnly(db, now, i)
  {
    hide Absorbs, SaleOf;
  }

  lemma QuietEnds(db: Db, i: nat, live: bool, monitor: bool, reply: Reply, now: Db)
    requires i < |db.orders| && Incomplete(db.orders[i]) && !(db.orders[i].signed && live && reply.chain.Executed?)
    requires var o := db.orders[i];
      var verdict := VerdictOn(o.signed, live, monitor, reply);
      now == if verdict.Some? && reply.storeOk then db.(orders := db.orders[i := o.(state := verdict.value)]) else db
    ensures EndsAs(db, now, i, live, monitor, reply) && TouchesOnly(db, now, i)
  {
    hide Absorbs, SaleOf;
  }

  lemma VerdictIsDue(o: Order, live: bool, monitor: bool, reply: Reply)
    requires !(o.signed && live && reply.chain.Executed?)
    ensures VerdictOn(o.signed, live, monitor, reply).Some? <==> ShouldFail(o, live, monitor, reply) || ShouldExpire(o, live, reply)
  {
  }

  // ---------- a pass ----------

  predicate SaveWorks(o: Order, live: bool, monitor: bool, reply: Reply) {
    reply.storeOk || !(ShouldFail(o, live, monitor, reply) || ShouldExpire(o, live, reply))
  }

  ghost predicate NoSaveFails(orders: seq<Order>, live: bool, monitor: bool, replies: nat -> Reply) {
    forall i :: 0 <= i < |orders| && Incomplete(orders[i]) ==> SaveWorks(orders[i], live, monitor, replies(i))
  }

  // Every unfinished order ends as its own reply says, and finished ones are not touched.
  ghost predicate AllEnd(db: Db, now: Db, live: bool, monitor: bool, replies: nat -> Reply) {
    && |now.orders| == |db.orders|
    && (forall i :: 0 <= i < |db.orders| ==>
          if Incomplete(db.orders[i]) then EndsAs(db, now, i, live, monitor, replies(i))
          else now.orders[i] == db.orders[i] && SameFill(db, now, i))
    && OnlyTheirTokens(db, now)
  }

  // No position moves but those of unfinished exits.
  ghost predicate OnlyTheirTokens(db: Db, now: Db) {
    forall m ::
      (forall i :: 0 <= i < |db.orders| && Incomplete(db.orders[i]) && db.orders[i].kind == Exit ==> db.orders[i].mint != m) ==>
        SamePosition(db, now, m)
  }

  ghost predicate EachEndsOrStands(db: Db, now: Db, live: bool, monitor: bool, replies: nat -> Reply) {
    && |now.orders| == |db.orders|
    && (forall i :: 0 <= i < |db.orders| ==>
          if Incomplete(db.orders[i]) then EndsAs(db, now, i, live, monitor, replies(i)) || Stands(db, now, i)
          else now.orders[i] == db.orders[i] && SameFill(db, now, i))
    && OnlyTheirTokens(db, now)
  }

  // The first k pending orders have ended and the others are as they were.
  ghost predicate Progress(db: Db, now: Db, pending: seq<nat>, k: nat, live: bool, monitor: bool, replies: nat -> Reply) {
    && |now.orders| == |db.orders| && k <= |pending| && ExitsApart(db.orders)
    && (forall j :: 0 <= j < |pending| ==> pending[j] < |db.orders| && Incomplete(db.orders[pending[j]]))
    && (forall j, l :: 0 <= j < l < |pending| ==> pending[j] < pending[l])
    && (forall i :: 0 <= i < |db.orders| && Incomplete(db.orders[i]) ==> i in pending)
    && (forall j :: 0 <= j < k ==> EndsAs(db, now, pending[j], live, monitor, replies(pending[j])))
    && (forall j :: k <= j < |pending| ==> Stands(db, now, pending[j]))
    && (forall i :: 0 <= i < |db.orders| && !Incomplete(db.orders[i]) ==> now.orders[i] == db.orders[i] && SameFill(db, now, i))
    && OnlyTheirTokens(db, now)
  }

  lemma NothingDone(db: Db, pending: seq<nat>, live: bool, monitor: bool, replies: nat -> Reply)
    requires ExitsApart(db.orders)
    requires forall j :: 0 <= j < |pending| ==> pending[j] < |db.orders| && Incomplete(db.orders[pending[j]])
    requires forall j, l :: 0 <= j < l < |pending| ==> pending[j] < pending[l]
    requires forall i :: 0 <= i < |db.orders| && Incomplete(db.orders[i]) ==> i in pending
    ensures Progress(db, db, pending, 0, live, monitor, replies)
  {
    hide EndsAs, ExitsApart;
  }

  lemma ProgressGives(db: Db, now: Db, pending: seq<nat>, k: nat, live: bool, monitor: bool, replies: nat -> Reply)
    requires Progress(db, now, pending, k, live, monitor, replies) && k < |pending|
    ensures pending[k] < |now.orders| == |db.orders| && now.orders[pending[k]] == db.orders[pending[k]] && Incomplete(db.orders[pending[k]])
  {
    hide EndsAs, ExitsApart;
  }

  lemma ProgressOn(db: Db, now: Db, next: Db, pending: seq<nat>, k: nat, live: bool, monitor: bool, replies: nat -> Reply)
    requires Progress(db, now, pending, k, live, monitor, replies) && k < |pending|
    requires pending[k] < |now.orders| == |next.orders| && EndsAs(now, next, pending[k], live, monitor, replies(pending[k]))
    requires TouchesOnly(now, next, pending[k])
    ensures Progress(db, next, pending, k + 1, live, monitor, replies)
  {
    var i := pending[k];
    assert now.orders[i] == db.orders[i];
    hide EndsAs, Stands, ExitsApart;
    StandingEnds(db, now, next, i, live, monitor, replies(i));
    forall j | 0 <= j < |pending| && j != k
      ensures EndsAs(db, now, pending[j], live, monitor, replies(pending[j])) ==> EndsAs(db, next, pending[j], live, monitor, replies(pending[j]))
      ensures Stands(db, now, pending[j]) ==> Stands(db, next, pending[j])
    {
      OthersStand(db, now, next, i, pending[j], live, monitor, replies(pending[j]));
    }
    forall j | 0 <= j < |db.orders| && !Incomplete(db.orders[j]) ensures next.orders[j] == db.orders[j] && SameFill(db, next, j) {
      assert SameFill(now, next, j);
    }
    TokensOn(db, now, next, i);
  }

  lemma TokensOn(db: Db, now: Db, next: Db, i: nat)
    requires OnlyTheirTokens(db, now) && i < |db.orders| == |now.orders| && now.orders[i] == db.orders[i] && Incomplete(db.orders[i])
    requires TouchesOnly(now, next, i)
    ensures OnlyTheirTokens(db, next)
  {
    forall m | forall j :: 0 <= j < |db.orders| && Incomplete(db.orders[j]) && db.orders[j].kind == Exit ==> db.orders[j].mint != m
      ensures SamePosition(db, next, m)
    {
      assert SamePosition(db, now, m) && SamePosition(now, next, m);
    }
  }

  ghost predicate SavesWork(db: Db, pending: seq<nat>, k: nat, live: bool, monitor: bool, replies: nat -> Reply) {
    && k <= |pending|
    && forall j :: 0 <= j < k ==> pending[j] < |db.orders| && SaveWorks(db.orders[pending[j]], live, monitor, replies(pending[j]))
  }

  lemma SavesOn(db: Db, pending: seq<nat>, k: nat, completed: bool, live: bool, monitor: bool, replies: nat -> Reply)
    requires SavesWork(db, pending, k, live, monitor, replies) && k < |pending| && pending[k] < |db.orders|
    requires Incomplete(db.orders[pending[k]]) && (completed <==> SaveWorks(db.orders[pending[k]], live, monitor, replies(pending[k])))
    ensures completed ==> SavesWork(db, pending, k + 1, live, monitor, replies)
    ensures !completed ==> !NoSaveFails(db.orders, live, monitor, replies)
  {
    hide SaveWorks;
  }

  lemma SavesAll(db: Db, now: Db, pending: seq<nat>, live: bool, monitor: bool, replies: nat -> Reply)
    requires SavesWork(db, pending, |pending|, live, monitor, replies) && Progress(db, now, pending, |pending|, live, monitor, replies)
    ensures NoSaveFails(db.orders, live, monitor, replies)
  {
    hide SaveWorks, EndsAs, Stands, ExitsApart;
    forall i | 0 <= i < |db.orders| && Incomplete(db.orders[i]) ensures SaveWorks(db.orders[i], live, monitor, replies(i)) {
      var j :| 0 <= j < |pending| && pending[j] == i;
    }
  }

  lemma PassStarts(db: Db, pending: seq<nat>, live: bool, monitor: bool, replies: nat -> Reply)
    ensures Books(db.orders, db.fills, db.orders, db.fills, Summary(0, 0, 0, 0)) && Total(Summary(0, 0, 0, 0)) == 0
    ensures SavesWork(db, pending, 0, live, monitor, replies)
  {
  }

  lemma PassEnds(db: Db, now: Db, pending: seq<nat>, summary: Summary, live: bool, monitor: bool, replies: nat -> Reply)
    requires SavesWork(db, pending, |pending|, live, monitor, replies) && Progress(db, now, pending, |pending|, live, monitor, replies)
    requires Books(db.orders, db.fills, now.orders, now.fills, summary) && Total(summary) == |pending| == CountIncomplete(db.orders)
    ensures NoSaveFails(db.orders, live, monitor, replies)
    ensures AllEnd(db, now, live, monitor, replies) && EachEndsOrStands(db, now, live, monitor, replies)
    ensures summary.unresolved == CountIncomplete(now.orders)
  {
    BooksClose(db.orders, db.fills, now.orders, now.fills, summary);
    hide Books, CountIncomplete, SavesWork, Progress;
    ProgressMeans(db, now, pending, |pending|, live, monitor, replies);
    SavesAll(db, now, pending, live, monitor, replies);
  }

  // What was known of the replies and the tasks at the start still holds of an order.
  lemma RepliesHold(start: Sys, s: Sys, monitor: bool, replies: nat -> Reply, i: nat)
    requires Truthful(start.chain, replies) && SparesHeld(start, monitor, replies)
    requires s.tasks == start.tasks && s.chain == start.chain && s.live == start.live
    ensures Tells(s.chain, i, replies(i)) && (Held(s, i) ==> VerdictOn(false, s.live, monitor, replies(i)).None?)
  {
    hide VerdictOn, Tells;
  }

  lemma ProgressMeans(db: Db, now: Db, pending: seq<nat>, k: nat, live: bool, monitor: bool, replies: nat -> Reply)
    requires Progress(db, now, pending, k, live, monitor, replies)
    ensures EachEndsOrStands(db, now, live, monitor, replies)
    ensures k == |pending| ==> AllEnd(db, now, live, monitor, replies)
  {
    hide EndsAs, Stands, ExitsApart;
    forall i | 0 <= i < |db.orders| && Incomplete(db.orders[i])
      ensures EndsAs(db, now, i, live, monitor, replies(i)) || (k < |pending| && Stands(db, now, i))
    {
      var j :| 0 <= j < |pending| && pending[j] == i;
    }
  }

  // What one iteration did to the tables, by the counter it bumped.
  ghost predicate Tallied(tally: Tally, i: nat, orders: seq<Order>, fills: map<nat, Fill>, orders': seq<Order>, fills': map<nat, Fill>)
    requires i < |orders|
  {
    match tally
    case TallyConfirmed =>
      && orders' == orders[i := orders[i].(state := OrderState.Confirmed, signed := true)]
      && i !in fills && i in fills' && fills' == fills[i := fills'[i]]
    case TallyFailed => orders' == orders[i := orders[i].(state := Failed)] && fills' == fills
    case TallyExpired => orders' == orders[i := orders[i].(state := Expired)] && fills' == fills
    case _ => orders' == orders && fills' == fills
  }

  function Bump(summary: Summary, tally: Tally): Summary {
    match tally
    case TallyConfirmed => summary.(confirmed := summary.confirmed + 1)
    case TallyFailed => summary.(failed := summary.failed + 1)
    case TallyExpired => summary.(expired := summary.expired + 1)
    case TallyUnresolved => summary.(unresolved := summary.unresolved + 1)
    case StoreError => summary
  }

  function Total(summary: Summary): nat {
    summary.confirmed + summary.failed + summary.expired + summary.unresolved
  }

  // The counters agree with how the two tables differ from what they were.
  ghost predicate Books(orders: seq<Order>, fills: map<nat, Fill>, orders': seq<Order>, fills': map<nat, Fill>, summary: Summary) {
    && |orders'| == |orders|
    && CountState(orders', OrderState.Confirmed) == CountState(orders, OrderState.Confirmed) + summary.confirmed
    && CountState(orders', Failed) == CountState(orders, Failed) + summary.failed
    && CountState(orders', Expired) == CountState(orders, Expired) + summary.expired
    && CountIncomplete(orders') + summary.confirmed + summary.failed + summary.expired == CountIncomplete(orders)
    && |fills'| == |fills| + summary.confirmed
  }

  lemma BumpKeepsBooks(orders: seq<Order>, fills: map<nat, Fill>, orders': seq<Order>, fills': map<nat, Fill>, summary: Summary,
                       tally: Tally, i: nat, orders'': seq<Order>, fills'': map<nat, Fill>)
    requires Books(orders, fills, orders', fills', summary)
    requires i < |orders'| && Incomplete(orders'[i]) && Tallied(tally, i, orders', fills', orders'', fills'')
    ensures Books(orders, fills, orders'', fills'', Bump(summary, tally)) && |orders''| == |orders'|
  {
    hide CountState;
    if orders'' != orders' {
      CountRewrite(orders', i, orders''[i]);
    }
    hide CountIncomplete;
  }

  lemma BooksClose(orders: seq<Order>, fills: map<nat, Fill>, orders': seq<Order>, fills': map<nat, Fill>, summary: Summary)
    requires Books(orders, fills, orders', fills', summary)
    requires Total(summary) == CountIncomplete(orders)
    ensures summary.unresolved == CountIncomplete(orders')
  {
  }

  // Everything about the position allows an exit but its missing id: the store rejects the order.
  predicate Nameless(db: Db, m: Mint) {
    && m in db.positions
    && var p := db.positions[m];
    && p.positionId.None? && TrustedRemaining(p).Some? && !InFlightExit(db, None)
    && p.basePrice.Some? && p.baseDecimals.Some? && p.tokenDecimals.Some? && p.baseMint.Some?
    && Units(TrustedRemaining(p).value, p.tokenDecimals.value).Some?
  }

  lemma ReadyIsNotNameless(db: Db, m: Mint)
    ensures ExitReady(db, m) ==> !Nameless(db, m)
  {
  }

  lemma ReserveExitEnabledIff(s: Sys, m: Mint, reason: Bytes)
    ensures Enabled(s, ReserveExit(m, reason)) <==>
      m !in s.tasks && ExitReady(s.db, m) && !KeyTaken(s.db, NewExitOrder(s.db, m, reason).key)
  {
  }

  // The row an exit leaves behind, given how the world answered.
  function RowAfter(o: Order, world: ExitWorld, applied: bool): Order {
    if !world.quoteOk then (if world.saveFailure then o.(state := Failed) else o)
    else if world.result.Done? && applied && world.fault.NoFault? then o.(state := OrderState.Confirmed, signed := true)
    else if !world.saveResult then (if world.saveSubmit then o.(state := Submitted) else o)
    else match world.result
      case Done(_) =>
        o.(state := if applied && world.fault.AfterTransition? then OrderState.Confirmed else OrderState.Unknown, signed := true)
      case Uncertain(_, hasSignature) => o.(state := OrderState.Unknown, signed := hasSignature)
      case HardError(_) => o.(state := Failed)
  }

  // The fill is posted exactly when the answer is Confirmed; the row says the rest.
  ghost predicate Settled(db: Db, db': Db, m: Mint, i: nat, o: Order, world: ExitWorld, stored: Position, result: ExitResult)
    requires i < |db.orders|
  {
    var applied := world.result.Done? && ApplyExit(stored, world.result.fill).Ok?;
    && db'.orders == db.orders[i := RowAfter(o, world, applied)]
    && !result.Skipped? && !result.Unreserved?
    && (result.Confirmed? <==> world.quoteOk && applied && world.fault.NoFault?)
    && (result.UnknownOutcome? <==> world.quoteOk && world.result.Uncertain?)
    && (result.Confirmed? ==>
          && result.fill == world.result.fill
          && db'.fills == db.fills[i := result.fill]
          && db'.positions == db.positions[m := ApplyExit(stored, result.fill).value])
    && (!result.Confirmed? ==> db'.fills == db.fills && db'.positions == db.positions)
  }

  // An exit that is neither skipped nor malformed appends one order and settles it.
  ghost predicate ExitEffect(db: Db, db': Db, m: Mint, reason: Bytes, world: ExitWorld, result: ExitResult) {
    if result.Skipped? || result.Unreserved? then db' == db
    else
      && ExitReady(db, m)
      && var o := NewExitOrder(db, m, reason);
      Settled(db.(orders := db.orders + [o]), db', m, |db.orders|, o, world, db.positions[m], result)
  }

  // Everything the outside world decides during one entry, once it was authorised.
  datatype EntryWorld = EntryWorld(saveSubmit: bool, result: Executed, fault: Fault, saveResult: bool)

  datatype EntryResult = Entered(fill: Fill) | NotPersisted | EntryUnknown | EntryFailed | StoreDown

  function EntryRow(o: Order, world: EntryWorld, applied: bool): Order {
    if !world.saveSubmit then o
    else if world.result.Done? && applied && world.fault.NoFault? then o.(state := OrderState.Confirmed, signed := true)
    else if !world.saveResult then o.(state := Submitted)
    else match world.result
      case Done(_) =>
        o.(state := if applied && world.fault.AfterTransition? then OrderState.Confirmed else OrderState.Unknown, signed := true)
      case Uncertain(_, hasSignature) => o.(state := OrderState.Unknown, signed := hasSignature)
      case HardError(_) => o.(state := Failed)
  }

  function AccountEntry(db: Db, m: Mint, pid: Bytes, terms: EntryTerms, result: Executed): Result<Position, string> {
    if result.Done? then
      ApplyEntry(if m in db.positions then Some(db.positions[m]) else None, pid, terms.baseMint, terms.tokenDecimals,
                 terms.baseDecimals, result.fill)
    else Err("no fill")
  }

  // An entry appends one order, and posts its fill exactly when it answers Entered.
  ghost predicate EntryEffect(db: Db, db': Db, m: Mint, o: Order, accounted: Result<Position, string>,
                              world: EntryWorld, result: EntryResult) {
    var n := |db.orders|;
    && db'.orders == db.orders + [EntryRow(o, world, accounted.Ok?)]
    && (result.Entered? <==> world.saveSubmit && world.result.Done? && accounted.Ok? && world.fault.NoFault?)
    && (result.EntryFailed? <==> world.saveSubmit && world.result.HardError? && world.saveResult)
    && (result.EntryUnknown? <==> world.saveSubmit && world.result.Uncertain? && world.saveResult)
    && (result.StoreDown? <==> !world.saveSubmit || (!world.saveResult && !result.Entered?))
    && (if result.Entered? then
          && result.fill == world.result.fill
          && db'.fills == db.fills[n := result.fill] && db'.positions == db.positions[m := accounted.value]
        else db'.fills == db.fills && db'.positions == db.positions)
  }

  lemma EntryAccounts(s: Sys, m: Mint, i: nat, terms: EntryTerms, fill: Fill)
    requires i < |s.db.orders| && m in s.tasks && s.tasks[m] == Entering(i, Filled(fill), terms)
    requires s.db.orders[i].mint == m && s.db.orders[i].positionId.Some?
    ensures Accounted(s, s.tasks[m], fill) == AccountEntry(s.db, m, s.db.orders[i].positionId.value, terms, Done(fill))
  {
  }

  lemma ReservedEntryShape(start: Sys, acts: seq<Act>, s: Sys, m: Mint, sid: Bytes, pid: Bytes, amount: u64, value: real, terms: EntryTerms)
    requires Leads(start, acts, s) && Inv(s) && s.window && m !in s.tasks
    requires |sid| == |pid| == UUID_LENGTH && sid !in s.ids && pid !in s.ids && sid != pid
    ensures var o := NewEntryOrder(m, sid, pid, amount, value);
      var t := ReserveEntryStep(s, m, sid, pid, amount, value, terms);
      && !KeyTaken(s.db, o.key) && Inv(t)
      && Leads(start, acts + [ReserveEntry(m, sid, pid, amount, value, terms)], t)
      && t.tasks == s.tasks[m := Entering(|s.db.orders|, Reserved, terms)]
      && t.db == s.db.(orders := s.db.orders + [o])
  {
    InvHasOrders(s);
    EntryIdempotencyNeverRefuses(s, m, sid, amount);
    var a := ReserveEntry(m, sid, pid, amount, value, terms);
    assert Enabled(s, a) && Step(s, a) == ReserveEntryStep(s, m, sid, pid, amount, value, terms);
    hide Inv, Enabled, Step, Leads, TaskOrdersExist;
    ReserveEntryKeepsInv(s, m, sid, pid, amount, value, terms);
    LeadsOn(start, acts, s, a);
  }

  lemma ExitAccounts(s: Sys, m: Mint, i: nat, stored: Position, fill: Fill)
    requires i < |s.db.orders| && m in s.tasks && s.tasks[m] == Exiting(i, Filled(fill), stored)
    ensures Accounted(s, s.tasks[m], fill) == ApplyExit(stored, fill)
  {
  }

  class Session {
    var orders: seq<Order>
    var fills: map<nat, Fill>
    var positions: map<Mint, Position>
    const live: bool
    // The full state this store is part of: history, chain, running tasks.
    ghost var sys: Sys

    ghost function Database(): Db
      reads this
    {
      Db(orders, fills, positions)
    }

    ghost predicate Valid()
      reads this
    {
      sys.db == Database() && sys.live == live && Inv(sys)
    }

    constructor (positions: map<Mint, Position>, live: bool, ghost ids: set<Bytes>)
      requires PositionsOk(positions, ids)
      ensures Valid() && Init(sys) && this.positions == positions && this.live == live
    {
      this.orders, this.fills, this.positions, this.live := [], map[], positions, live;
      this.sys := Sys(Db([], map[], positions), positions, [], map[], {}, map[], ids, live, false);
      new;
      InitInv(sys);
    }

    // The entry gate of the tick: opening it is the act OpenWindow, closing it CloseWindow.
    ghost method SetWindow(gate: bool)
      requires Valid() && (gate ==> NothingIncomplete(Database()))
      modifies this`sys
      ensures Valid() && sys == old(sys).(window := gate)
    {
      DropKeepsInv(sys, sys.tasks, gate);
      hide Inv;
      sys := sys.(window := gate);
    }

    // `INSERT OR IGNORE` under the unique idempotency key.
    method ReserveOrder(o: Order) returns (reserved: bool)
      modifies this`orders
      ensures reserved <==> !KeyTaken(old(Database()), o.key)
      ensures orders == if reserved then old(orders) + [o] else old(orders)
    {
      for i := 0 to |orders|
        invariant forall j :: 0 <= j < i ==> orders[j].key != o.key
        invariant orders == old(orders)
      {
        if orders[i].key == o.key {
          return false;
        }
      }
      orders := orders + [o];
      return true;
    }

    method HasInFlightExit(positionId: Option<Bytes>) returns (found: bool)
      ensures found <==> InFlightExit(Database(), positionId)
    {
      for i := 0 to |orders|
        invariant forall j :: 0 <= j < i ==> !(Lifecycle.Incomplete(orders[j]) && IsExitOf(orders[j], positionId))
      {
        if Lifecycle.Incomplete(orders[i]) && IsExitOf(orders[i], positionId) {
          return true;
        }
      }
      return false;
    }

    method CountExitAttempts(positionId: Bytes) returns (n: nat)
      ensures n == CountExits(orders, positionId)
    {
      n := 0;
      for i := 0 to |orders|
        invariant n == CountExits(orders[..i], positionId)
      {
        assert orders[..i + 1][..i] == orders[..i];
        if IsExitOf(orders[i], Some(positionId)) {
          n := n + 1;
        }
      }
      assert orders[..|orders|] == orders;
    }

    // `positions().find(..)` by position id.
    method FindHolder(positionId: Option<Bytes>) returns (holder: Option<Mint>)
      ensures holder.Some? ==> Holds(Database(), positionId, holder.value)
      ensures holder.None? ==> forall m :: !Holds(Database(), positionId, m)
    {
      if positionId.None? {
        return None;
      }
      var rest := positions.Keys;
      while rest != {}
        invariant rest <= positions.Keys
        invariant forall m :: m in positions && m !in rest ==> positions[m].positionId != positionId
        decreases |rest|
      {
        var m :| m in rest;
        if positions[m].positionId == positionId {
          return Some(m);
        }
        rest := rest - {m};
      }
      return None;
    }

    method IncompleteOrders() returns (pending: seq<nat>)
      ensures forall k :: 0 <= k < |pending| ==> pending[k] < |orders| && Lifecycle.Incomplete(orders[pending[k]])
      ensures forall j, k :: 0 <= j < k < |pending| ==> pending[j] < pending[k]
      ensures |pending| == CountIncomplete(orders)
      ensures forall i :: 0 <= i < |orders| && Lifecycle.Incomplete(orders[i]) ==> i in pending
    {
      pending := [];
      for i := 0 to |orders|
        invariant forall j :: 0 <= j < i && Lifecycle.Incomplete(orders[j]) ==> j in pending
        invariant forall k :: 0 <= k < |pending| ==> pending[k] < i && Lifecycle.Incomplete(orders[pending[k]])
        invariant forall j, k :: 0 <= j < k < |pending| ==> pending[j] < pending[k]
        invariant |pending| == CountIncomplete(orders[..i])
      {
        assert orders[..i + 1][..i] == orders[..i];
        if Lifecycle.Incomplete(orders[i]) {
          pending := pending + [i];
        }
      }
      assert orders[..|orders|] == orders;
    }

    // `record_reconciled_fill`: true exactly when the store worked and the order is an
    // exit whose position can absorb the outcome; then the fill was not there before.
    method RecordReconciled(i: nat, outcome: Outcome, storeOk: bool, ghost monitor: bool, ghost start: Sys, ghost acts: seq<Act>)
      returns (applied: bool, ghost acts': seq<Act>)
      requires Valid() && live && i < |orders| && Lifecycle.Incomplete(orders[i]) && orders[i].signed
      requires i in sys.chain && sys.chain[i] == outcome && Leads(start, acts, sys)
      modifies this
      ensures Valid() && Leads(start, acts', sys) && sys.tasks == old(sys.tasks) && sys.chain == old(sys.chain)
      ensures applied <==> storeOk && Absorbs(old(Database()), i, outcome)
      ensures if applied then
          && orders == old(orders)[i := old(orders)[i].(state := OrderState.Confirmed, signed := true)]
          && i !in old(fills) && i in fills && fills == old(fills)[i := fills[i]]
        else orders == old(orders) && fills == old(fills) && positions == old(positions)
      ensures applied ==>
        var m := old(orders)[i].mint;
        && old(orders)[i].kind == Exit && m in old(positions) && m in positions && positions == old(positions)[m := positions[m]]
        && SaleOf(old(positions)[m], outcome, fills[i], positions[m])
    {
      hide Inv, Leads, RecordReconciledFill, Absorbs, SaleOf;
      var o := orders[i];
      var holder := FindHolder(o.positionId);
      assert Database() == sys.db;
      forall m | holder.None? ensures !Holds(sys.db, o.positionId, m) {
        assert !Holds(Database(), o.positionId, m);
      }
      var recorded := RecordReconciledFill(Db(orders, fills, positions), o, holder, outcome);
      ghost var next;
      next, acts' := RecordedLeads(start, acts, sys, i, holder, storeOk, monitor);
      if storeOk && recorded.Posted? {
        ExitHolder(sys, i, holder, outcome);
        ReconciledSale(Database(), o, outcome);
      }
      sys := next;
      applied := storeOk && recorded.Posted?;
      if applied {
        orders := orders[i := o.(state := OrderState.Confirmed, signed := true)];
        fills := fills[i := recorded.fill];
        positions := positions[o.mint := recorded.position];
      }
    }

    // The branches without an execution: save the verdict on the order, if there is one.
    method SaveVerdict(i: nat, reply: Reply, monitor: bool, ghost start: Sys, ghost acts: seq<Act>)
      returns (tally: Tally, ghost acts': seq<Act>)
      requires Valid() && i < |orders| && Lifecycle.Incomplete(orders[i]) && Tells(sys.chain, i, reply)
      requires Held(sys, i) ==> VerdictOn(false, live, monitor, reply).None?
      requires Leads(start, acts, sys) && !(orders[i].signed && live && reply.chain.Executed?)
      modifies this
      ensures Valid() && Leads(start, acts', sys) && sys.tasks == old(sys.tasks) && sys.chain == old(sys.chain)
      ensures Tallied(tally, i, old(orders), old(fills), orders, fills)
      ensures EndsAs(old(Database()), Database(), i, live, monitor, reply) && TouchesOnly(old(Database()), Database(), i)
      ensures tally.StoreError? <==> !reply.storeOk && VerdictOn(old(orders)[i].signed, live, monitor, reply).Some?
      ensures VerdictOn(old(orders)[i].signed, live, monitor, reply).None? ==> tally.TallyUnresolved?
    {
      hide Inv, Leads, Held, EndsAs, TouchesOnly;
      ghost var before := Database();
      var o := orders[i];
      if o.signed {
        SignedIsFree(sys, i);
      }
      var verdict := VerdictOn(o.signed, live, monitor, reply);
      if verdict.None? {
        tally, acts' := TallyUnresolved, acts;
      } else {
        ghost var next;
        next, acts' := QuietLeads(start, acts, sys, i, monitor, reply);
        sys := next;
        if !reply.storeOk {
          tally := StoreError;
        } else {
          orders := orders[i := o.(state := verdict.value)];
          tally := if verdict.value == Failed then TallyFailed else TallyExpired;
        }
      }
      QuietEnds(before, i, live, monitor, reply, Database());
    }

    // One iteration of `reconcile_pending_orders`, or of the exit monitor's `reconcile_stale_orders`:
    // the order ends as the reply says.  One that a task holds must be one the unsigned rule spares.
    method ResolveOne(i: nat, reply: Reply, monitor: bool, ghost start: Sys, ghost acts: seq<Act>)
      returns (tally: Tally, ghost acts': seq<Act>)
      requires Valid() && i < |orders| && Lifecycle.Incomplete(orders[i]) && Tells(sys.chain, i, reply)
      requires Held(sys, i) ==> VerdictOn(false, live, monitor, reply).None?
      requires Leads(start, acts, sys)
      modifies this
      ensures Valid() && Leads(start, acts', sys) && sys.tasks == old(sys.tasks) && sys.chain == old(sys.chain)
      ensures Tallied(tally, i, old(orders), old(fills), orders, fills)
      ensures EndsAs(old(Database()), Database(), i, live, monitor, reply) && TouchesOnly(old(Database()), Database(), i)
      ensures tally.StoreError? <==>
        !reply.storeOk && (ShouldFail(old(orders)[i], live, monitor, reply) || ShouldExpire(old(orders)[i], live, reply))
    {
      hide Inv, Leads, Held, Absorbs, SaleOf, EndsAs, TouchesOnly;
      ghost var before := Database();
      if orders[i].signed && live && reply.chain.Executed? {
        var applied;
        applied, acts' := RecordReconciled(i, reply.chain.outcome, reply.storeOk, monitor, start, acts);
        tally := if applied then TallyConfirmed else TallyUnresolved;
        ExecutedEnds(before, Database(), i, live, monitor, reply, applied);
      } else {
        VerdictIsDue(orders[i], live, monitor, reply);
        tally, acts' := SaveVerdict(i, reply, monitor, start, acts);
      }
    }

    // The same iteration with the counters of the session's pass.
    method ResolveNext(i: nat, reply: Reply, summary: Summary, ghost before: Db, ghost start: Sys, ghost acts: seq<Act>)
      returns (summary': Summary, completed: bool, ghost acts': seq<Act>)
      requires Valid() && i < |orders| && Lifecycle.Incomplete(orders[i])
      requires Tells(sys.chain, i, reply) && Leads(start, acts, sys)
      requires Held(sys, i) ==> VerdictOn(false, live, false, reply).None?
      requires Books(before.orders, before.fills, orders, fills, summary)
      modifies this
      ensures Valid() && sys.tasks == old(sys.tasks) && sys.chain == old(sys.chain) && Leads(start, acts', sys)
      ensures Books(before.orders, before.fills, orders, fills, summary')
      ensures completed ==> Total(summary') == Total(summary) + 1
      ensures completed <==> SaveWorks(old(orders)[i], live, false, reply)
      ensures |orders| == |old(orders)|
      ensures EndsAs(old(Database()), Database(), i, live, false, reply) && TouchesOnly(old(Database()), Database(), i)
    {
      ghost var now, fillsBefore := orders, fills;
      hide Inv, Leads, Books, Held, EndsAs, TouchesOnly, ShouldFail, ShouldExpire;
      var tally;
      tally, acts' := ResolveOne(i, reply, false, start, acts);
      summary' := Bump(summary, tally);
      completed := !tally.StoreError?;
      BumpKeepsBooks(before.orders, before.fills, now, fillsBefore, summary, tally, i, orders, fills);
    }

    // The orders a pass will go through.
    method PendingOrders(monitor: bool, ghost replies: nat -> Reply) returns (pending: seq<nat>)
      requires Valid()
      ensures Progress(Database(), Database(), pending, 0, live, monitor, replies) && |pending| == CountIncomplete(orders)
    {
      pending := IncompleteOrders();
      InvKeepsExitsApart(sys);
      hide Inv, ExitsApart, CountIncomplete;
      NothingDone(Database(), pending, live, monitor, replies);
    }

    // The k-th pending order, in the pass that counts.
    method CountNext(pending: seq<nat>, k: nat, reply: Reply, summary: Summary, ghost before: Db, ghost replies: nat -> Reply,
                     ghost start: Sys, ghost acts: seq<Act>)
      returns (summary': Summary, completed: bool, ghost acts': seq<Act>)
      requires Valid() && Leads(start, acts, sys) && k < |pending| && reply == replies(pending[k])
      requires sys.tasks == start.tasks && sys.chain == start.chain && sys.live == start.live
      requires Truthful(start.chain, replies) && SparesHeld(start, false, replies)
      requires Progress(before, Database(), pending, k, live, false, replies) && SavesWork(before, pending, k, live, false, replies)
      requires Books(before.orders, before.fills, orders, fills, summary) && Total(summary) == k
      modifies this
      ensures Valid() && Leads(start, acts', sys) && sys.tasks == start.tasks && sys.chain == start.chain
      ensures Progress(before, Database(), pending, k + 1, live, false, replies)
      ensures Books(before.orders, before.fills, orders, fills, summary')
      ensures completed ==> SavesWork(before, pending, k + 1, live, false, replies) && Total(summary') == k + 1
      ensures !completed ==> !NoSaveFails(before.orders, live, false, replies)
    {
      hide Leads, Inv, Books, EndsAs, TouchesOnly, SaveWorks, NoSaveFails, SavesWork, Progress, Truthful, SparesHeld, Held, Tells, VerdictOn;
      ghost var now := Database();
      ProgressGives(before, now, pending, k, live, false, replies);
      RepliesHold(start, sys, false, replies, pending[k]);
      summary', completed, acts' := ResolveNext(pending[k], reply, summary, before, start, acts);
      ProgressOn(before, now, Database(), pending, k, live, false, replies);
      SavesOn(before, pending, k, completed, live, false, replies);
    }

    // A pass over the orders that were incomplete when it started.  Each of them ends as its
    // own reply says, from the tables as they were, unless a store error ended the pass
    // before it came to that order; the counters agree with the tables.
    method ReconcilePendingOrders(replies: nat -> Reply) returns (summary: Summary, completed: bool, ghost acts: seq<Act>)
      requires Valid() && Truthful(sys.chain, replies) && SparesHeld(sys, false, replies)
      modifies this
      ensures Valid() && Leads(old(sys), acts, sys) && sys.tasks == old(sys.tasks)
      ensures Books(old(orders), old(fills), orders, fills, summary)
      ensures completed ==> Total(summary) == CountIncomplete(old(orders)) && summary.unresolved == CountIncomplete(orders)
      ensures completed <==> NoSaveFails(old(orders), live, false, replies)
      ensures completed ==> AllEnd(old(Database()), Database(), live, false, replies)
      ensures EachEndsOrStands(old(Database()), Database(), live, false, replies)
    {
      hide Leads, Inv, CountIncomplete, CountState, Total, Truthful, SparesHeld, Progress, NoSaveFails, AllEnd, EachEndsOrStands, Books, SavesWork;
      var pending := PendingOrders(false, replies);
      summary, completed, acts := Summary(0, 0, 0, 0), true, [];
      ghost var before, start := Database(), sys;
      LeadsNowhere(sys);
      PassStarts(before, pending, live, false, replies);
      for k := 0 to |pending|
        invariant Valid() && sys.tasks == start.tasks && sys.chain == start.chain && Leads(start, acts, sys)
        invariant Books(before.orders, before.fills, orders, fills, summary) && completed && Total(summary) == k
        invariant Progress(before, Database(), pending, k, live, false, replies) && SavesWork(before, pending, k, live, false, replies)
      {
        summary, completed, acts := CountNext(pending, k, replies(pending[k]), summary, before, replies, start, acts);
        if !completed {
          ProgressMeans(before, Database(), pending, k + 1, live, false, replies);
          return;
        }
      }
      PassEnds(before, Database(), pending, summary, live, false, replies);
    }

    // The exit monitor's pass over the same store.  It logs store errors and goes on, so
    // every order that was incomplete ends as its own reply says.
    method ReconcileStaleOrders(replies: nat -> Reply) returns (ghost acts: seq<Act>)
      requires Valid() && Truthful(sys.chain, replies) && SparesHeld(sys, true, replies)
      modifies this
      ensures Valid() && Leads(old(sys), acts, sys) && sys.tasks == old(sys.tasks)
      ensures AllEnd(old(Database()), Database(), live, true, replies)
    {
      var pending := PendingOrders(true, replies);
      acts := [];
      ghost var before := Database();
      LeadsNowhere(sys);
      hide Leads, Inv, CountIncomplete, Books, EndsAs, Stands, TouchesOnly, ExitsApart, SaveWorks, NoSaveFails, SavesWork, Progress, AllEnd,
        EachEndsOrStands, Truthful, SparesHeld, Held, Tells, VerdictOn;
      for k := 0 to |pending|
        invariant Valid() && sys.tasks == old(sys.tasks) && sys.chain == old(sys.chain)
        invariant Leads(old(sys), acts, sys)
        invariant Progress(before, Database(), pending, k, live, true, replies)
      {
        var i := pending[k];
        ghost var now := Database();
        ProgressGives(before, now, pending, k, live, true, replies);
        RepliesHold(old(sys), sys, true, replies, i);
        var tally;
        tally, acts := ResolveOne(i, replies(i), true, old(sys), acts);
        ProgressOn(before, now, Database(), pending, k, live, true, replies);
      }
      ProgressMeans(before, Database(), pending, |pending|, live, true, replies);
    }

    // ---------- execute_exit_order ----------

    // The guards, in the order of the source.
    method CheckExit(m: Mint) returns (ready: bool, malformed: bool)
      ensures ready <==> ExitReady(Database(), m)
      ensures malformed <==> Nameless(Database(), m)
    {
      hide Units, InFlightExit;
      if m !in positions {
        return false, false;
      }
      var p := positions[m];
      if TrustedRemaining(p).None? {
        return false, false;
      }
      var inFlight := HasInFlightExit(p.positionId);
      if inFlight || p.basePrice.None? || p.baseDecimals.None? || p.tokenDecimals.None? || p.baseMint.None? {
        return false, false;
      }
      if Units(TrustedRemaining(p).value, p.tokenDecimals.value).None? {
        return false, false;
      }
      ready, malformed := p.positionId.Some?, p.positionId.None?;
    }

    // The guards and the reservation.
    method BeginExit(m: Mint, reason: Bytes) returns (reserved: bool, malformed: bool)
      requires Valid() && m !in sys.tasks
      modifies this
      ensures Valid() && TaskOrdersExist(old(sys))
      ensures reserved <==> Enabled(old(sys), ReserveExit(m, reason))
      ensures malformed <==> Nameless(old(Database()), m)
      ensures reserved ==> !malformed
      ensures sys == if reserved then ReserveExitStep(old(sys), m, reason) else old(sys)
    {
      assert sys.db == Database();
      InvHasOrders(sys);
      ReserveExitEnabledIff(sys, m, reason);
      hide Inv, Enabled, TaskOrdersExist, Nameless;
      var ready;
      ready, malformed := CheckExit(m);
      if !ready {
        return false, malformed;
      }
      ReadyIsNotNameless(sys.db, m);
      var p := positions[m];
      var id, remaining := p.positionId.value, TrustedRemaining(p).value;
      var attempt := CountExitAttempts(id);
      var key := ExitKey(id, remaining, reason, attempt);
      var value := MarkValue(Units(remaining, p.tokenDecimals.value).value, p.basePrice.value);
      var order := Order(Exit, m, [], p.positionId, key, remaining, Some(value), reason, Pending, false);
      assert order == NewExitOrder(sys.db, m, reason);
      ghost var was := sys;
      ReserveExitKeepsInv(sys, m, reason);
      hide ExitReady, KeyTaken, NewExitOrder;
      reserved := ReserveOrder(order);
      if reserved {
        sys := ReserveExitStep(was, m, reason);
      }
    }

    // Saving a row and giving the task up; a failed write is only logged.
    method SaveAndStop(m: Mint, i: nat, row: Order, write: bool, ghost start: Sys, ghost acts: seq<Act>) returns (ghost acts': seq<Act>)
      requires Valid() && CanSave(sys, m) && i == sys.tasks[m].order && i < |orders| && row == SavedRow(sys, m)
      requires Leads(start, acts, sys)
      modifies this
      ensures Valid() && Leads(start, acts', sys) && sys.tasks == old(sys.tasks) - {m} && SameSetting(old(sys), sys)
      ensures orders == if write then old(orders)[i := row] else old(orders)
      ensures fills == old(fills) && positions == old(positions)
    {
      hide Inv, SavedRow, Leads;
      ghost var a := SavingLeads(start, acts, sys, m, write);
      acts' := acts + [a];
      sys := Finish(sys, m, i, row, write);
      if write {
        orders := orders[i := row];
      }
    }

    // The atomic transaction {fill, position, order} and what its failure leaves behind;
    // `applied` is what accounting makes of the fill.
    method CommitTask(m: Mint, i: nat, placed: Order, applied: Result<Position, string>, fill: Fill, fault: Fault, write: bool,
                      ghost start: Sys, ghost acts: seq<Act>)
      returns (committed: bool, ghost acts': seq<Act>)
      requires Valid() && m in sys.tasks && sys.tasks[m].order == i && sys.tasks[m].phase == Filled(fill)
      requires i < |orders| && placed == orders[i].(state := Submitted)
      requires applied == Accounted(sys, sys.tasks[m], fill)
      requires Leads(start, acts, sys)
      modifies this
      ensures Valid() && Leads(start, acts', sys) && sys.tasks == old(sys.tasks) - {m} && SameSetting(old(sys), sys)
      ensures committed <==> applied.Ok? && fault.NoFault?
      ensures Database() == CommittedDb(old(Database()), m, i, applied, fill, fault, write)
    {
      hide Inv, Leads, Accounted;
      acts' := acts + [Commit(m, fault, write)];
      sys := CommitLeads(start, acts, sys, m, fault, write);
      var row := placed;
      committed := applied.Ok? && fault.NoFault?;
      if applied.Ok? && !fault.BeforeTransition? {
        row := row.(state := TransitionOrKeep(row.state, OrderState.Confirmed), signed := true);
      }
      if committed {
        orders, fills, positions := orders[i := row], fills[i := fill], positions[m := applied.value];
      } else {
        row := row.(state := TransitionOrKeep(row.state, OrderState.Unknown), signed := true);
        if write {
          orders := orders[i := row];
        }
      }
    }

    // Submitted is saved before the swap is sent; for an exit a failed save does not stop it.
    method PlaceTask(m: Mint, i: nat, write: bool, result: Executed, ghost start: Sys, ghost acts: seq<Act>)
      returns (placed: Order, ghost acts': seq<Act>)
      requires Valid() && CanPlace(sys, m, write) && sys.tasks[m].order == i
      requires i < |orders| && orders[i].state == Pending && Leads(start, acts, sys)
      modifies this
      ensures Valid() && Leads(start, acts', sys) && SameSetting(old(sys), sys)
      ensures placed == old(orders)[i].(state := Submitted)
      ensures orders == if write then old(orders)[i := placed] else old(orders)
      ensures fills == old(fills) && positions == old(positions)
      ensures sys.tasks == old(sys.tasks)[m := old(sys.tasks)[m].(phase := PhaseAfter(result))]
    {
      hide Inv, Leads;
      acts' := acts + [Submit(m, write)] + [Execute(m, result)];
      sys := PlaceLeads(start, acts, sys, m, write, result);
      placed := orders[i].(state := TransitionOrKeep(orders[i].state, Submitted));
      if write {
        orders := orders[i := placed];
      }
    }

    // What happens after the order was placed and the executor answered.
    method SettleExit(m: Mint, i: nat, placed: Order, stored: Position, world: ExitWorld, ghost start: Sys, ghost acts: seq<Act>)
      returns (result: ExitResult, ghost acts': seq<Act>)
      requires Valid() && m in sys.tasks && sys.tasks[m] == Exiting(i, PhaseAfter(world.result), stored)
      requires i < |orders| && placed == orders[i].(state := Submitted) && !placed.signed && world.quoteOk
      requires Leads(start, acts, sys)
      modifies this
      ensures Valid() && Leads(start, acts', sys) && sys.tasks == old(sys.tasks) - {m}
      ensures Settled(old(Database()), Database(), m, i, old(orders)[i], world.(saveSubmit := false), stored, result)
    {
      hide Inv, Enabled, TaskOrdersExist, ApplyExit, Step, Leads, Accounted;
      match world.result {
        case Done(fill) =>
          var applied := ApplyExit(stored, fill);
          ExitAccounts(sys, m, i, stored, fill);
          var committed;
          committed, acts' := CommitTask(m, i, placed, applied, fill, world.fault, world.saveResult, start, acts);
          result := if committed then ExitResult.Confirmed(fill) else FailedExit;
        case Uncertain(_, hasSignature) =>
          assert sys.db.orders[i] == orders[i];
          var row := placed.(state := TransitionOrKeep(placed.state, OrderState.Unknown), signed := hasSignature);
          acts' := SaveAndStop(m, i, row, world.saveResult, start, acts);
          result := UnknownOutcome;
        case HardError(_) =>
          assert sys.db.orders[i] == orders[i];
          var row := placed.(state := TransitionOrKeep(placed.state, Failed));
          acts' := SaveAndStop(m, i, row, world.saveResult, start, acts);
          result := FailedExit;
      }
    }

    // The shared exit path.  Whatever the world answers it is a run of the step
    // relation, it leaves no task behind, and its effect on the tables is ExitEffect.
    method ExecuteExitOrder(m: Mint, reason: Bytes, world: ExitWorld) returns (result: ExitResult, ghost acts: seq<Act>)
      requires Valid() && m !in sys.tasks
      modifies this
      ensures Valid() && Leads(old(sys), acts, sys) && sys.tasks == old(sys.tasks)
      ensures result.Skipped? || result.Unreserved? <==> !Enabled(old(sys), ReserveExit(m, reason))
      ensures result.Unreserved? <==> Nameless(old(Database()), m)
      ensures ExitEffect(old(Database()), Database(), m, reason, world, result)
    {
      acts := [];
      LeadsNowhere(sys);
      ghost var start := sys;
      hide Inv, Enabled, TaskOrdersExist, Leads, Step, ExitReady, NewExitOrder, ApplyExit, Nameless;
      var reserved, malformed := BeginExit(m, reason);
      if !reserved {
        return if malformed then Unreserved else Skipped, [];
      }
      ReservedShape(start, m, reason);
      LeadsOn(start, [], start, ReserveExit(m, reason));
      acts := [] + [ReserveExit(m, reason)];
      assert Database() == sys.db;
      var i, stored := |orders| - 1, positions[m];
      if !world.quoteOk {
        var row := orders[i].(state := TransitionOrKeep(orders[i].state, Failed));
        acts := SaveAndStop(m, i, row, world.saveFailure, start, acts);
        result := FailedExit;
      } else {
        var placed;
        placed, acts := PlaceTask(m, i, world.saveSubmit, world.result, start, acts);
        result, acts := SettleExit(m, i, placed, stored, world, start, acts);
      }
    }

    // ---------- the store side of process_entries ----------

    // From the executor's answer to the saved outcome.
    method SettleEntry(m: Mint, i: nat, placed: Order, pid: Bytes, terms: EntryTerms, world: EntryWorld,
                       ghost start: Sys, ghost acts: seq<Act>)
      returns (result: EntryResult, ghost acts': seq<Act>)
      requires Valid() && m in sys.tasks && sys.tasks[m] == Entering(i, PhaseAfter(world.result), terms)
      requires i < |orders| && orders[i] == placed && placed.state == Submitted && !placed.signed
      requires placed.mint == m && placed.positionId == Some(pid) && world.saveSubmit && Leads(start, acts, sys)
      modifies this
      ensures Valid() && Leads(start, acts', sys) && sys.tasks == old(sys.tasks) - {m} && SameSetting(old(sys), sys)
      ensures var accounted := AccountEntry(old(Database()), m, pid, terms, world.result);
        && orders == old(orders)[i := EntryRow(placed, world, accounted.Ok?)]
        && (result.Entered? <==> world.result.Done? && accounted.Ok? && world.fault.NoFault?)
        && (result.EntryFailed? <==> world.result.HardError? && world.saveResult)
        && (result.EntryUnknown? <==> world.result.Uncertain? && world.saveResult)
        && (result.StoreDown? <==> !world.saveResult && !result.Entered?)
        && (if result.Entered? then
              && result.fill == world.result.fill
              && fills == old(fills)[i := result.fill] && positions == old(positions)[m := accounted.value]
            else fills == old(fills) && positions == old(positions))
    {
      hide Inv, ApplyEntry, Leads, Accounted;
      match world.result {
        case Done(fill) =>
          var applied := AccountEntry(Db(orders, fills, positions), m, pid, terms, world.result);
          EntryAccounts(sys, m, i, terms, fill);
          var committed;
          committed, acts' := CommitTask(m, i, placed, applied, fill, world.fault, world.saveResult, start, acts);
          result := if committed then Entered(fill) else if world.saveResult then NotPersisted else StoreDown;
        case Uncertain(_, hasSignature) =>
          assert sys.db.orders[i] == orders[i];
          var row := placed.(state := TransitionOrKeep(placed.state, OrderState.Unknown), signed := hasSignature);
          acts' := SaveAndStop(m, i, row, world.saveResult, start, acts);
          result := if world.saveResult then EntryUnknown else StoreDown;
        case HardError(_) =>
          assert sys.db.orders[i] == orders[i];
          var row := placed.(state := TransitionOrKeep(placed.state, Failed));
          acts' := SaveAndStop(m, i, row, world.saveResult, start, acts);
          result := if world.saveResult then EntryFailed else StoreDown;
      }
    }

    // The reservation of an entry.  Its duplicate branch is dead: the key holds a signal
    // id made for this very evaluation.
    method BeginEntry(m: Mint, sid: Bytes, pid: Bytes, amount: u64, value: real, terms: EntryTerms)
      returns (reserved: bool, ghost acts: seq<Act>)
      requires Valid() && sys.window && m !in sys.tasks
      requires |sid| == |pid| == UUID_LENGTH && sid !in sys.ids && pid !in sys.ids && sid != pid
      modifies this
      ensures reserved
      ensures Valid() && Leads(old(sys), acts, sys) && sys == ReserveEntryStep(old(sys), m, sid, pid, amount, value, terms)
      ensures orders == old(orders) + [NewEntryOrder(m, sid, pid, amount, value)]
      ensures fills == old(fills) && positions == old(positions)
      ensures sys.tasks == old(sys.tasks)[m := Entering(|old(orders)|, Reserved, terms)]
    {
      LeadsNowhere(sys);
      ReservedEntryShape(sys, [], sys, m, sid, pid, amount, value, terms);
      hide Inv, Leads;
      assert sys.db == Database();
      acts := [] + [ReserveEntry(m, sid, pid, amount, value, terms)];
      ghost var next := ReserveEntryStep(sys, m, sid, pid, amount, value, terms);
      hide ReserveEntryStep;
      reserved := ReserveOrder(NewEntryOrder(m, sid, pid, amount, value));
      sys := next;
    }

    // Reserve, submit, execute, settle.
    method EnterPosition(m: Mint, sid: Bytes, pid: Bytes, amount: u64, value: real, terms: EntryTerms, world: EntryWorld)
      returns (result: EntryResult, ghost acts: seq<Act>)
      requires Valid() && sys.window && m !in sys.tasks
      requires |sid| == |pid| == UUID_LENGTH && sid !in sys.ids && pid !in sys.ids && sid != pid
      modifies this
      ensures Valid() && Leads(old(sys), acts, sys) && sys.tasks == old(sys.tasks)
      ensures sys.window && sys.ids == old(sys.ids) + {sid, pid}
      ensures EntryEffect(old(Database()), Database(), m, NewEntryOrder(m, sid, pid, amount, value),
                          AccountEntry(old(Database()), m, pid, terms, world.result), world, result)
    {
      ghost var start := sys;
      hide Inv, Leads, ApplyEntry;
      var reserved;
      reserved, acts := BeginEntry(m, sid, pid, amount, value, terms);
      assert sys.window && sys.ids == old(sys.ids) + {sid, pid};
      hide ReserveEntryStep;
      var i := |orders| - 1;
      if !world.saveSubmit {
        GiveUpLeads(start, acts, sys, m);
        acts := acts + [Submit(m, false)];
        sys := DropTask(sys, m);
        result := StoreDown;
      } else {
        var placed;
        placed, acts := PlaceTask(m, i, true, world.result, start, acts);
        result, acts := SettleEntry(m, i, placed, pid, terms, world, start, acts);
      }
    }
  }
}
