// The order life cycle of src/runtime.rs and src/exit_monitor.rs as a step
// relation: a persisted store, the chain, and the volatile tasks that a crash
// wipes out.  At most one task works on a token at a time (the serialisation the
// design relies on); tasks on different tokens interleave freely.
module Lifecycle {
  import opened Wrappers
  import opened Orders
  import opened ExitKeys
  import opened Portfolio

  const UUID_LENGTH := 36

  // An order's id is its index in the append-only order table.  `reason` is the
  // error text an exit is reserved with, `signalId` the signal of an entry.
  datatype Order = Order(
    kind: OrderKind,
    mint: Mint,
    signalId: Bytes,
    positionId: Option<Bytes>,
    key: Bytes,
    inputAmount: u64,
    inputValue: Option<real>,
    reason: Bytes,
    state: OrderState,
    signed: bool)

  datatype Db = Db(orders: seq<Order>, fills: map<nat, Fill>, positions: map<Mint, Position>)

  datatype Outcome = Outcome(input: u64, output: u64, fees: real)

  datatype EntryTerms = EntryTerms(baseMint: Mint, tokenDecimals: nat, baseDecimals: nat)

  datatype Phase = Reserved | Placed | Filled(fill: Fill) | Unsure(hasSignature: bool) | Refused

  datatype Task =
    | Exiting(order: nat, phase: Phase, stored: Position)
    | Entering(order: nat, phase: Phase, terms: EntryTerms)

  // History of what reached the positions: fills applied and chain adjustments.
  datatype Posting = Applied(order: nat, mint: Mint, delta: int) | Adjusted(mint: Mint, delta: int)

  datatype Sys = Sys(
    db: Db,
    opening: map<Mint, Position>,
    ledger: seq<Posting>,
    chain: map<nat, Outcome>,
    sent: set<nat>,
    tasks: map<Mint, Task>,
    ids: set<Bytes>,
    live: bool,
    window: bool)

  // ---------- store queries ----------

  predicate Incomplete(o: Order) {
    o.state.Pending? || o.state.Submitted? || o.state.Unknown?
  }

  predicate IsExitOf(o: Order, positionId: Option<Bytes>) {
    o.kind == Exit && o.positionId == positionId
  }

  predicate InFlightExit(db: Db, positionId: Option<Bytes>) {
    exists i :: 0 <= i < |db.orders| && Incomplete(db.orders[i]) && IsExitOf(db.orders[i], positionId)
  }

  predicate KeyTaken(db: Db, key: Bytes) {
    exists i :: 0 <= i < |db.orders| && db.orders[i].key == key
  }

  predicate NothingIncomplete(db: Db) {
    forall i :: 0 <= i < |db.orders| ==> !Incomplete(db.orders[i])
  }

  function CountExits(orders: seq<Order>, positionId: Bytes): nat {
    if orders == [] then 0
    else
      var last := if IsExitOf(orders[|orders| - 1], Some(positionId)) then 1 else 0;
      CountExits(orders[..|orders| - 1], positionId) + last
  }

  // ---------- the guards of execute_exit_order up to the reservation ----------

  // What the position itself must offer: a trusted quantity and a complete basis.
  predicate Sellable(p: Position) {
    && TrustedRemaining(p).Some?
    && p.basePrice.Some? && p.baseDecimals.Some? && p.tokenDecimals.Some? && p.baseMint.Some?
    && Units(TrustedRemaining(p).value, p.tokenDecimals.value).Some?
    && p.positionId.Some?
  }

  predicate ExitReady(db: Db, mint: Mint) {
    mint in db.positions && Sellable(db.positions[mint]) && !InFlightExit(db, db.positions[mint].positionId)
  }

  // What the quantity is worth at the position's entry price: the order's value basis.
  function MarkValue(quantity: real, basePrice: real): real {
    quantity * basePrice
  }

  function NewExitOrder(db: Db, mint: Mint, reason: Bytes): Order
    requires ExitReady(db, mint)
  {
    var p := db.positions[mint];
    var remaining := TrustedRemaining(p).value;
    var id := p.positionId.value;
    Order(Exit, mint, [], Some(id), ExitKey(id, remaining, reason, CountExits(db.orders, id)),
          remaining, Some(MarkValue(Units(remaining, p.tokenDecimals.value).value, p.basePrice.value)), reason, Pending, false)
  }

  function NewEntryOrder(mint: Mint, signalId: Bytes, positionId: Bytes, amount: u64, value: real): Order {
    Order(Entry, mint, signalId, Some(positionId), EntryKey(signalId, mint, amount), amount, Some(value), [], Pending, false)
  }

  // ---------- record_reconciled_fill ----------

  ghost predicate Holds(db: Db, positionId: Option<Bytes>, mint: Mint) {
    mint in db.positions && positionId.Some? && db.positions[mint].positionId == positionId
  }

  ghost function HolderOf(db: Db, positionId: Option<Bytes>): (holder: Option<Mint>)
    ensures holder.Some? ==> Holds(db, positionId, holder.value)
    ensures holder.None? ==> forall m :: !Holds(db, positionId, m)
  {
    if exists m :: Holds(db, positionId, m) then var m :| Holds(db, positionId, m); Some(m) else None
  }

  // What a verified outcome is worth under the order's value basis, or None when
  // a basis, a decimals field or a leg is missing.
  function PriceOutcome(o: Order, p: Position, outcome: Outcome): Option<Priced> {
    match (o.inputValue, p.tokenDecimals, p.baseDecimals)
    case (Some(v), Some(td), Some(bd)) =>
      if o.kind == Entry then PriceFill(InputValueUsd(v), outcome.input, bd, outcome.output, td)
      else if p.basePrice.None? then None
      else PriceFill(OutputUnitPriceUsd(p.basePrice.value), outcome.input, td, outcome.output, bd)
    case _ => None
  }

  function OutcomeFill(outcome: Outcome, priced: Priced): Fill {
    Fill(outcome.input, outcome.output, priced.price, outcome.fees, Some(priced.value))
  }

  // The accounting transaction on the position stored for the order's token.
  function ApplyReconciled(db: Db, o: Order, p: Position, fill: Fill): Result<Position, string> {
    if o.kind == Entry then
      if p.baseMint.None? || p.tokenDecimals.None? || p.baseDecimals.None? || o.positionId.None? then Err("missing")
      else
        ApplyEntry(if o.mint in db.positions then Some(db.positions[o.mint]) else None,
                   o.positionId.value, p.baseMint.value, p.tokenDecimals.value, p.baseDecimals.value, fill)
    else if o.mint !in db.positions then Err("no position for mint")
    else ApplyExit(db.positions[o.mint], fill)
  }

  datatype Recorded = NotRecorded | AuditOnly(fill: Fill) | Posted(fill: Fill, position: Position)

  // `holder` is the token whose stored position carries the order's position id.
  function RecordReconciledFill(db: Db, o: Order, holder: Option<Mint>, outcome: Outcome): Recorded
    requires holder.Some? ==> holder.value in db.positions
  {
    if holder.None? then NotRecorded
    else
      var p := db.positions[holder.value];
      match PriceOutcome(o, p, outcome)
      case None => NotRecorded
      case Some(priced) =>
        var fill := OutcomeFill(outcome, priced);
        if o.kind == Entry && !p.hasCostModel then
          if Transition(o.state, Failed).Some? then AuditOnly(fill) else NotRecorded
        else match ApplyReconciled(db, o, p, fill)
          case Err(_) => NotRecorded
          case Ok(q) => if Transition(o.state, Confirmed).Some? then Posted(fill, q) else NotRecorded
  }

  // ---------- steps ----------

  datatype Executed = Done(fill: Fill) | Uncertain(landed: Option<Outcome>, hasSignature: bool) | HardError(landed: Option<Outcome>)

  datatype Fault = NoFault | BeforeTransition | AfterTransition

  datatype Answer = SwapExecuted | NotFound(aged: bool) | FailedOnChain | NoNews | NeverSubmitted(aged: bool)

  datatype Act =
    | ReserveExit(mint: Mint, reason: Bytes)
    | ReserveEntry(mint: Mint, signalId: Bytes, positionId: Bytes, amount: u64, value: real, terms: EntryTerms)
    | QuoteRefused(mint: Mint, write: bool)
    | Submit(mint: Mint, write: bool)
    | Execute(mint: Mint, result: Executed)
    | Commit(mint: Mint, fault: Fault, write: bool)
    | SaveUnknown(mint: Mint, write: bool)
    | SaveFailed(mint: Mint, write: bool)
    | Land(order: nat, outcome: Outcome)
    | Resolve(order: nat, holder: Option<Mint>, answer: Answer, monitor: bool, write: bool)
    | Adjust(mint: Mint, amount: u64, decimals: nat)
    | OpenWindow
    | CloseWindow
    | Crash

  // Some running task is working on the order.
  ghost predicate Held(s: Sys, i: nat) {
    exists m :: m in s.tasks && s.tasks[m].order == i
  }

  ghost predicate Enabled(s: Sys, a: Act) {
    match a
    case ReserveExit(m, reason) =>
      m !in s.tasks && ExitReady(s.db, m) && !KeyTaken(s.db, NewExitOrder(s.db, m, reason).key)
    case ReserveEntry(m, sid, pid, amount, value, terms) =>
      && s.window && m !in s.tasks
      && |sid| == |pid| == UUID_LENGTH && sid !in s.ids && pid !in s.ids && sid != pid
      && !KeyTaken(s.db, EntryKey(sid, m, amount))
    case QuoteRefused(m, _) => m in s.tasks && s.tasks[m].Exiting? && s.tasks[m].phase.Reserved?
    case Submit(m, _) => m in s.tasks && s.tasks[m].phase.Reserved?
    case Execute(m, _) => m in s.tasks && s.tasks[m].phase.Placed?
    case Commit(m, _, _) => m in s.tasks && s.tasks[m].phase.Filled?
    case SaveUnknown(m, _) => m in s.tasks && s.tasks[m].phase.Unsure?
    case SaveFailed(m, _) => m in s.tasks && s.tasks[m].phase.Refused?
    case Land(i, _) => i in s.sent && i !in s.chain
    case Resolve(i, holder, answer, _, _) =>
      && i < |s.db.orders| && Incomplete(s.db.orders[i]) && !Held(s, i)
      && (holder.Some? ==> Holds(s.db, s.db.orders[i].positionId, holder.value))
      && (holder.None? ==> forall m :: !Holds(s.db, s.db.orders[i].positionId, m))
      && (s.db.orders[i].signed <==> !answer.NeverSubmitted?)
      && (answer.SwapExecuted? ==> i in s.chain)
      && (answer.NotFound? || answer.FailedOnChain? ==> i !in s.chain)
    case Adjust(m, amount, decimals) =>
      s.live && m !in s.tasks && m in s.db.positions && ReconcileWithChain(s.db.positions[m], amount, decimals).Ok?
    case OpenWindow => NothingIncomplete(s.db)
    case CloseWindow => true
    case Crash => true
  }

  function WithOrder(s: Sys, i: nat, o: Order): Sys
    requires i < |s.db.orders|
  {
    s.(db := s.db.(orders := s.db.orders[i := o]))
  }

  function DropTask(s: Sys, m: Mint): Sys {
    s.(tasks := s.tasks - {m})
  }

  function SetPhase(s: Sys, m: Mint, phase: Phase): Sys
    requires m in s.tasks
  {
    s.(tasks := s.tasks[m := s.tasks[m].(phase := phase)])
  }

  // An order rewrite that may fail in the store; the task ends either way.
  function Finish(s: Sys, m: Mint, i: nat, o: Order, write: bool): Sys
    requires i < |s.db.orders|
  {
    DropTask(if write then WithOrder(s, i, o) else s, m)
  }

  function PostedDelta(o: Order, fill: Fill): int {
    if o.kind == Entry then fill.output else 0 - fill.input
  }

  // The atomic {fill, position, order} transaction.
  function Post(s: Sys, i: nat, fill: Fill, p: Position): Sys
    requires i < |s.db.orders|
  {
    var o := s.db.orders[i];
    s.(db := Db(s.db.orders[i := o.(state := Confirmed, signed := true)],
                s.db.fills[i := fill],
                s.db.positions[o.mint := p]),
       ledger := s.ledger + [Applied(i, o.mint, PostedDelta(o, fill))])
  }

  // Position the transaction would store, for either kind of task.
  function Accounted(s: Sys, t: Task, fill: Fill): Result<Position, string>
    requires t.order < |s.db.orders|
  {
    var o := s.db.orders[t.order];
    match t
    case Exiting(_, _, stored) => ApplyExit(stored, fill)
    case Entering(_, _, terms) =>
      if o.positionId.None? then Err("missing")
      else
        ApplyEntry(if o.mint in s.db.positions then Some(s.db.positions[o.mint]) else None,
                   o.positionId.value, terms.baseMint, terms.tokenDecimals, terms.baseDecimals, fill)
  }

  function Landed(s: Sys, i: nat, outcome: Option<Outcome>): Sys {
    if outcome.Some? then s.(chain := s.chain[i := outcome.value]) else s
  }

  function CommitStep(s: Sys, m: Mint, fault: Fault, write: bool): Sys
    requires m in s.tasks && s.tasks[m].phase.Filled? && s.tasks[m].order < |s.db.orders|
  {
    var t := s.tasks[m];
    var fill := t.phase.fill;
    var o := s.db.orders[t.order];
    match Accounted(s, t, fill)
    case Ok(p) =>
      (match fault
       case NoFault => DropTask(Post(s, t.order, fill, p), m)
       case BeforeTransition => Finish(s, m, t.order, o.(state := Unknown, signed := true), write)
       // The record in memory is Confirmed already and refuses Unknown, so Confirmed is what gets saved.
       case AfterTransition => Finish(s, m, t.order, o.(state := TransitionOrKeep(Confirmed, Unknown), signed := true), write))
    case Err(_) => Finish(s, m, t.order, o.(state := Unknown, signed := true), write)
  }

  function ResolveStep(s: Sys, i: nat, holder: Option<Mint>, answer: Answer, monitor: bool, write: bool): Sys
    requires i < |s.db.orders|
    requires holder.Some? ==> holder.value in s.db.positions
    requires answer.SwapExecuted? ==> i in s.chain
  {
    var o := s.db.orders[i];
    if !write then s
    else if answer.NeverSubmitted? then
      if (!s.live && !monitor) || answer.aged then WithOrder(s, i, o.(state := TransitionOrKeep(o.state, Failed))) else s
    else if !s.live then WithOrder(s, i, o.(state := TransitionOrKeep(o.state, Failed)))
    else if answer.SwapExecuted? then
      match RecordReconciledFill(s.db, o, holder, s.chain[i])
      case NotRecorded => s
      case AuditOnly(fill) =>
        s.(db := s.db.(orders := s.db.orders[i := o.(state := Failed, signed := true)], fills := s.db.fills[i := fill]))
      case Posted(fill, p) => Post(s, i, fill, p)
    else if answer.FailedOnChain? then WithOrder(s, i, o.(state := TransitionOrKeep(o.state, Failed)))
    else if answer.NotFound? && answer.aged then WithOrder(s, i, o.(state := TransitionOrKeep(o.state, Expired)))
    else s
  }

  function AdjustStep(s: Sys, m: Mint, amount: u64, decimals: nat): Sys
    requires m in s.db.positions && ReconcileWithChain(s.db.positions[m], amount, decimals).Ok?
  {
    var p := s.db.positions[m];
    var q := ReconcileWithChain(p, amount, decimals).value;
    s.(db := s.db.(positions := s.db.positions[m := q]),
       ledger := s.ledger + [Adjusted(m, RemainingOrZero(q) - RemainingOrZero(p))])
  }

  function ReserveExitStep(s: Sys, m: Mint, reason: Bytes): Sys
    requires ExitReady(s.db, m)
  {
    s.(db := s.db.(orders := s.db.orders + [NewExitOrder(s.db, m, reason)]),
       tasks := s.tasks[m := Exiting(|s.db.orders|, Reserved, s.db.positions[m])])
  }

  function ReserveEntryStep(s: Sys, m: Mint, sid: Bytes, pid: Bytes, amount: u64, value: real, terms: EntryTerms): Sys {
    s.(db := s.db.(orders := s.db.orders + [NewEntryOrder(m, sid, pid, amount, value)]),
       tasks := s.tasks[m := Entering(|s.db.orders|, Reserved, terms)],
       ids := s.ids + {sid, pid})
  }

  function SubmitStep(s: Sys, m: Mint, write: bool): Sys
    requires m in s.tasks && s.tasks[m].order < |s.db.orders|
  {
    var i := s.tasks[m].order;
    if write then SetPhase(WithOrder(s, i, s.db.orders[i].(state := Submitted)), m, Placed)
    // A failed write is only logged on the exit path; the entry path gives up.
    else if s.tasks[m].Exiting? then SetPhase(s, m, Placed)
    else DropTask(s, m)
  }

  function ExecuteStep(s: Sys, m: Mint, result: Executed): Sys
    requires m in s.tasks
  {
    var i := s.tasks[m].order;
    match result
    case Done(fill) => SetPhase(Landed(s, i, Some(Outcome(fill.input, fill.output, fill.fees))), m, Filled(fill))
    case Uncertain(landed, hasSig) => SetPhase(Landed(s, i, landed).(sent := s.sent + {i}), m, Unsure(hasSig))
    case HardError(landed) => SetPhase(Landed(s, i, landed), m, Refused)
  }

  // The row a task saves when its quote is refused, its outcome is unknown, or it failed hard.
  function SavedRow(s: Sys, m: Mint): Order
    requires m in s.tasks && s.tasks[m].order < |s.db.orders|
  {
    var o := s.db.orders[s.tasks[m].order];
    if s.tasks[m].phase.Unsure? then o.(state := Unknown, signed := s.tasks[m].phase.hasSignature) else o.(state := Failed)
  }

  ghost function Step(s: Sys, a: Act): Sys
    requires Enabled(s, a) && TaskOrdersExist(s)
  {
    match a
    case ReserveExit(m, reason) => ReserveExitStep(s, m, reason)
    case ReserveEntry(m, sid, pid, amount, value, terms) => ReserveEntryStep(s, m, sid, pid, amount, value, terms)
    case QuoteRefused(m, write) => Finish(s, m, s.tasks[m].order, SavedRow(s, m), write)
    case Submit(m, write) => SubmitStep(s, m, write)
    case Execute(m, result) => ExecuteStep(s, m, result)
    case Commit(m, fault, write) => CommitStep(s, m, fault, write)
    case SaveUnknown(m, write) => Finish(s, m, s.tasks[m].order, SavedRow(s, m), write)
    case SaveFailed(m, write) => Finish(s, m, s.tasks[m].order, SavedRow(s, m), write)
    case Land(i, outcome) => s.(chain := s.chain[i := outcome])
    case Resolve(i, holder, answer, monitor, write) => ResolveStep(s, i, holder, answer, monitor, write)
    case Adjust(m, amount, decimals) => AdjustStep(s, m, amount, decimals)
    case OpenWindow => s.(window := true)
    case CloseWindow => s.(window := false)
    case Crash => s.(tasks := map[], window := false)
  }

  ghost predicate TaskOrdersExist(s: Sys) {
    forall m :: m in s.tasks ==> s.tasks[m].order < |s.db.orders|
  }
}
