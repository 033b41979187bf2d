// `exit_all_positions` (src/runtime.rs): the operator's exit of every open position.
module Emergency {
  import opened Wrappers
  import opened Orders
  import opened ExitKeys
  import opened Portfolio
  import opened Lifecycle
  import opened Invariants
  import opened Recovery
  import opened StepEffects
  import opened Runtime
  import opened Sorting

  // The quantity the pass means to sell: the trusted one, else the balance on chain.
  function Quantity(p: Position, balances: map<Mint, u64>, m: Mint): Option<u64> {
    if TrustedRemaining(p).Some? then TrustedRemaining(p)
    else if m in balances && balances[m] != 0 then Some(balances[m])
    else None
  }

  predicate HasBasis(p: Position) {
    p.basePrice.Some? && p.baseDecimals.Some? && p.tokenDecimals.Some? && p.baseMint.Some?
  }

  // What the pass reports as exited.
  predicate Counted(db: Db, balances: map<Mint, u64>, m: Mint) {
    && m in db.positions && Quantity(db.positions[m], balances, m).Some? && HasBasis(db.positions[m])
    && !InFlightExit(db, db.positions[m].positionId)
  }

  // What the shared exit path sells.
  predicate Sold(db: Db, m: Mint) {
    ExitReady(db, m) && TrustedRemaining(db.positions[m]) != Some(0)
  }

  function CountedIn(db: Db, balances: map<Mint, u64>): Mint -> bool {
    (m: Mint) => Counted(db, balances, m)
  }

  function SoldIn(db: Db): Mint -> bool {
    (m: Mint) => Sold(db, m)
  }

  // Everything sold is counted.  A counted position is not sold exactly when its quantity
  // is untrusted, so that the chain's balance was to be sold, or is zero, or its decimals
  // or its id are unusable: the balance read for an untrusted position sells nothing.
  lemma CountedButNotSoldIff(db: Db, balances: map<Mint, u64>, m: Mint)
    requires m in db.positions
    ensures var p := db.positions[m];
      && (Counted(db, balances, m) <==>
            && (TrustedRemaining(p).Some? || (m in balances && balances[m] > 0))
            && p.basePrice.Some? && p.baseDecimals.Some? && p.tokenDecimals.Some? && p.baseMint.Some?
            && !InFlightExit(db, p.positionId))
      && (Sold(db, m) ==> Counted(db, balances, m))
      && (TrustedRemaining(p).None? ==> !Sold(db, m))
      && (Counted(db, balances, m) ==>
            (!Sold(db, m) <==>
               || TrustedRemaining(p).None? || TrustedRemaining(p) == Some(0)
               || p.positionId.None? || Pow10(p.tokenDecimals.value) > U64_MAX))
  {
  }

  // The two readings of the store agree on every token the pass has not come to.
  ghost predicate Untouched(db: Db, now: Db, rest: seq<Mint>) {
    forall k :: 0 <= k < |rest| ==>
      && rest[k] in db.positions && rest[k] in now.positions && now.positions[rest[k]] == db.positions[rest[k]]
      && (InFlightExit(now, db.positions[rest[k]].positionId) <==> InFlightExit(db, db.positions[rest[k]].positionId))
  }

  ghost predicate Distinct(open: seq<Mint>) {
    forall j, k :: 0 <= j < k < |open| ==> open[j] != open[k]
  }

  // An exit of one token leaves the others as they were.
  lemma ExitTouchesOne(db: Db, now: Db, m: Mint, reason: Bytes, world: ExitWorld, result: ExitResult, n: Mint, ids: set<Bytes>)
    requires ExitEffect(db, now, m, reason, world, result) && PositionsOk(db.positions, ids) && n != m && n in db.positions
    ensures n in now.positions && now.positions[n] == db.positions[n]
    ensures InFlightExit(now, db.positions[n].positionId) <==> InFlightExit(db, db.positions[n].positionId)
  {
    var id := db.positions[n].positionId;
    hide ApplyExit, MarkValue, Units, ExitKey;
    if now != db {
      var o := NewExitOrder(db, m, reason);
      assert o.positionId != id;
      assert |now.orders| == |db.orders| + 1 && SameIdentity(o, now.orders[|db.orders|]);
      assert forall i :: 0 <= i < |db.orders| ==> now.orders[i] == db.orders[i];
    }
  }

  // One position of the pass: sold exactly when its quantity is trusted and every guard holds.
  method ExitOne(session: Session, m: Mint, quantity: u64, world: ExitWorld)
    requires session.Valid() && m !in session.sys.tasks && m in session.positions && |session.orders| < Pow256(4)
    requires TrustedRemaining(session.positions[m]).Some? ==> quantity == TrustedRemaining(session.positions[m]).value
    requires TrustedRemaining(session.positions[m]).None? ==> quantity != 0
    modifies session
    ensures session.Valid() && session.sys.tasks == old(session.sys.tasks)
    ensures |session.orders| == |old(session.orders)| + (if Sold(old(session.Database()), m) then 1 else 0)
    ensures !Sold(old(session.Database()), m) ==> session.Database() == old(session.Database())
    ensures OthersKept(old(session.Database()), session.Database(), m)
  {
    if quantity == 0 {
      return;
    }
    ghost var before, s := session.Database(), session.sys;
    if ExitReady(s.db, m) {
      ExitKeyIsFresh(s, m, MANUAL_EXIT);
    }
    ReserveExitEnabledIff(s, m, MANUAL_EXIT);
    assert PositionsOk(before.positions, s.ids);
    hide Inv, Enabled, Leads, ExitReady, ExitEffect, PositionsOk;
    ghost var acts;
    var result;
    result, acts := session.ExecuteExitOrder(m, MANUAL_EXIT, world);
    EffectAppends(before, session.Database(), m, MANUAL_EXIT, world, result);
    forall n | n != m && n in before.positions
      ensures n in session.positions && session.positions[n] == before.positions[n]
      ensures var id := before.positions[n].positionId; InFlightExit(session.Database(), id) <==> InFlightExit(before, id)
    {
      ExitTouchesOne(before, session.Database(), m, MANUAL_EXIT, world, result, n, s.ids);
    }
  }

  lemma EffectAppends(db: Db, now: Db, m: Mint, reason: Bytes, world: ExitWorld, result: ExitResult)
    requires ExitEffect(db, now, m, reason, world, result)
    ensures if result.Skipped? || result.Unreserved? then now == db else |now.orders| == |db.orders| + 1
  {
  }

  // The exit reason of the pass, in bytes: "manual_exit".
  const MANUAL_EXIT: Bytes := [109, 97, 110, 117, 97, 108, 95, 101, 120, 105, 116]

  // One position as the pass sees it.
  method Visit(session: Session, m: Mint, p: Position, balances: map<Mint, u64>, world: ExitWorld) returns (counted: bool)
    requires session.Valid() && m !in session.sys.tasks && m in session.positions && |session.orders| < Pow256(4)
    requires p == session.positions[m]
    modifies session
    ensures session.Valid() && session.sys.tasks == old(session.sys.tasks)
    ensures counted == Counted(old(session.Database()), balances, m)
    ensures |session.orders| == |old(session.orders)| + (if Sold(old(session.Database()), m) then 1 else 0)
    ensures !Sold(old(session.Database()), m) ==> session.Database() == old(session.Database())
    ensures OthersKept(old(session.Database()), session.Database(), m)
  {
    CountedButNotSoldIff(session.Database(), balances, m);
    hide Inv, Sold;
    var quantity := Quantity(p, balances, m);
    var inFlight := session.HasInFlightExit(p.positionId);
    counted := quantity.Some? && HasBasis(p) && !inFlight;
    if counted {
      ExitOne(session, m, quantity.value, world);
    }
  }

  ghost predicate OthersKept(db: Db, now: Db, m: Mint) {
    forall n :: n != m && n in db.positions ==>
      && n in now.positions && now.positions[n] == db.positions[n]
      && (InFlightExit(now, db.positions[n].positionId) <==> InFlightExit(db, db.positions[n].positionId))
  }

  lemma KeptView(db: Db, now: Db, after: Db, open: seq<Mint>, balances: map<Mint, u64>)
    requires open != [] && Distinct(open) && Untouched(db, now, open) && OthersKept(now, after, open[0])
    ensures Counted(now, balances, open[0]) <==> Counted(db, balances, open[0])
    ensures Sold(now, open[0]) <==> Sold(db, open[0])
    ensures Untouched(db, after, open[1..])
  {
    hide InFlightExit, HasBasis, Sellable, Quantity, TrustedRemaining;
    var rest := open[1..];
    forall k | 0 <= k < |rest| ensures rest[k] in now.positions && rest[k] != open[0] && rest[k] == open[k + 1] {
    }
  }

  // Positions other than those sold are as they were.
  ghost predicate OnlySoldMove(db: Db, now: Db, seen: seq<Mint>) {
    forall n :: n in db.positions && !(n in seen && Sold(db, n)) ==> n in now.positions && now.positions[n] == db.positions[n]
  }

  lemma MoveOn(db: Db, now: Db, after: Db, seen: seq<Mint>, m: Mint)
    requires OnlySoldMove(db, now, seen) && OthersKept(now, after, m) && m in db.positions
    requires !Sold(db, m) ==> after == now
    ensures OnlySoldMove(db, after, seen + [m])
  {
    hide InFlightExit, Sold;
    forall n | n in db.positions && !(n in seen + [m] && Sold(db, n)) ensures n in after.positions && after.positions[n] == db.positions[n] {
      assert n in seen ==> n in seen + [m];
      assert m in seen + [m];
    }
  }

  // The pass over the open positions, alone on their tokens.  It reports the counted ones;
  // the orders it leaves behind, and the positions it changes, are those of the sold ones.
  method ExitAll(session: Session, open: seq<Mint>, balances: map<Mint, u64>, worlds: seq<ExitWorld>) returns (exited: nat)
    requires session.Valid() && Distinct(open) && |worlds| == |open| && |session.orders| + |open| < Pow256(4)
    requires forall k :: 0 <= k < |open| ==> open[k] in session.positions && open[k] !in session.sys.tasks
    modifies session
    ensures session.Valid() && session.sys.tasks == old(session.sys.tasks)
    ensures exited == |Select(open, CountedIn(old(session.Database()), balances))|
    ensures |session.orders| == |old(session.orders)| + |Select(open, SoldIn(old(session.Database())))|
    ensures OnlySoldMove(old(session.Database()), session.Database(), open)
  {
    ghost var before := session.Database();
    var loaded := session.positions;
    exited := 0;
    assert Select(open[..0], CountedIn(before, balances)) == [] && Select(open[..0], SoldIn(before)) == [];
    assert OnlySoldMove(before, before, open[..0]);
    hide Inv, Sold, Counted, InFlightExit, OthersKept, OnlySoldMove, Select;
    for i := 0 to |open|
      invariant session.Valid() && session.sys.tasks == old(session.sys.tasks)
      invariant exited == |Select(open[..i], CountedIn(before, balances))|
      invariant |session.orders| == |before.orders| + |Select(open[..i], SoldIn(before))| <= |before.orders| + i
      invariant Untouched(before, session.Database(), open[i..])
      invariant OnlySoldMove(before, session.Database(), open[..i])
    {
      var m := open[i];
      assert open[..i + 1] == open[..i] + [m] && open[i..][0] == m && open[i..][1..] == open[i + 1..];
      SelectAppend(open[..i], m, CountedIn(before, balances));
      SelectAppend(open[..i], m, SoldIn(before));
      ghost var now := session.Database();
      var counted := Visit(session, m, loaded[m], balances, worlds[i]);
      KeptView(before, now, session.Database(), open[i..], balances);
      MoveOn(before, now, session.Database(), open[..i], m);
      if counted {
        exited := exited + 1;
      }
    }
    assert open[..|open|] == open;
  }
}
