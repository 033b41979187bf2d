// The FIFO lot tracker of tools/build_smoke_wallets.py (WalletAccumulator) and the
// wallet_monitor.rs original it says it replicates.  Amounts are reals.
module FifoLots {
  import opened Wrappers

  datatype Lot = Lot(sol: real, tokens: real, time: int)

  // One stretch of tokens matched by a sale: what it cost and what it brought.
  datatype Slice = Slice(mint: string, cost: real, tokens: real, proceeds: real, entryTime: int, exitTime: int)

  datatype Completed = Completed(returnPct: real, pnl: real, entryTime: int, exitTime: int)

  datatype Direction = Buy | Sell

  datatype Swap = Swap(direction: Direction, mint: string, tokens: real, sol: real, time: int)

  function Book(cost: real, proceeds: real, entryTime: int, exitTime: int): Completed {
    Completed(if cost > 0.0 then (proceeds - cost) / cost * 100.0 else 0.0, proceeds - cost, entryTime, exitTime)
  }

  function Booked(s: Slice): Completed {
    Book(s.cost, s.proceeds, s.entryTime, s.exitTime)
  }

  function BookedAll(slices: seq<Slice>): seq<Completed> {
    if slices == [] then [] else BookedAll(slices[..|slices| - 1]) + [Booked(slices[|slices| - 1])]
  }

  // The profit is receipts less cost, and the return that profit over the cost, if there was any.
  lemma BookMeans(s: Slice)
    ensures var t := Booked(s);
      && t.pnl == s.proceeds - s.cost && t.entryTime == s.entryTime && t.exitTime == s.exitTime
      && (s.cost > 0.0 ==> t.returnPct * s.cost == 100.0 * t.pnl)
      && (s.cost <= 0.0 ==> t.returnPct == 0.0)
  {
    if s.cost > 0.0 {
      var q := (s.proceeds - s.cost) / s.cost;
      assert q * s.cost == s.proceeds - s.cost;
      assert q * 100.0 * s.cost == 100.0 * (q * s.cost);
    }
  }

  lemma {:induction false} BookedEach(slices: seq<Slice>)
    ensures |BookedAll(slices)| == |slices| && forall i :: 0 <= i < |slices| ==> BookedAll(slices)[i] == Booked(slices[i])
  {
    if slices != [] {
      BookedEach(slices[..|slices| - 1]);
    }
  }

  // ---------- a sale as a function ----------

  datatype Sale = Sale(rest: seq<Lot>, slices: seq<Slice>)

  datatype Order = Order(mint: string, sold: real, sol: real, time: int)

  // The part of the receipts that falls to an amount of tokens.
  function ShareOf(o: Order, tokens: real): real {
    if o.sold > 0.0 then o.sol * (tokens / o.sold) else 0.0
  }

  function Matched(o: Order, cost: real, tokens: real, entryTime: int): Slice {
    Slice(o.mint, cost, tokens, ShareOf(o, tokens), entryTime, o.time)
  }

  // `_record_sell`: whole lots first, then a part of the next one, which keeps its whole cost.
  function SellFifo(q: seq<Lot>, remaining: real, o: Order): Sale {
    if q == [] || remaining <= 0.0 then Sale(q, [])
    else if q[0].tokens <= remaining then
      var after := SellFifo(q[1..], remaining - q[0].tokens, o);
      Sale(after.rest, [Matched(o, q[0].sol, q[0].tokens, q[0].time)] + after.slices)
    else
      Sale([q[0].(tokens := q[0].tokens - remaining)] + q[1..], [Matched(o, q[0].sol, remaining, q[0].time)])
  }

  function CostPart(sol: real, part: real, whole: real): real
    requires whole != 0.0
  {
    sol * part / whole
  }

  // `record_sell` of wallet_monitor.rs: empty lots vanish, and cost leaves with the tokens.
  function SellProRata(q: seq<Lot>, remaining: real, o: Order): Sale {
    if q == [] || remaining <= 0.0 then Sale(q, [])
    else if q[0].tokens <= 0.0 then SellProRata(q[1..], remaining, o)
    else if q[0].tokens <= remaining then
      var after := SellProRata(q[1..], remaining - q[0].tokens, o);
      Sale(after.rest, [Matched(o, q[0].sol, q[0].tokens, q[0].time)] + after.slices)
    else
      var cost := CostPart(q[0].sol, remaining, q[0].tokens);
      Sale([q[0].(tokens := q[0].tokens - remaining, sol := q[0].sol - cost)] + q[1..], [Matched(o, cost, remaining, q[0].time)])
  }

  // ---------- sums ----------

  function Tokens(q: seq<Lot>): real {
    if q == [] then 0.0 else q[0].tokens + Tokens(q[1..])
  }

  function Cost(q: seq<Lot>): real {
    if q == [] then 0.0 else q[0].sol + Cost(q[1..])
  }

  function SliceTokens(s: seq<Slice>): real {
    if s == [] then 0.0 else s[0].tokens + SliceTokens(s[1..])
  }

  function SliceProceeds(s: seq<Slice>): real {
    if s == [] then 0.0 else s[0].proceeds + SliceProceeds(s[1..])
  }

  function SliceCost(s: seq<Slice>): real {
    if s == [] then 0.0 else s[0].cost + SliceCost(s[1..])
  }

  ghost predicate NonNegative(q: seq<Lot>) {
    forall i :: 0 <= i < |q| ==> q[i].tokens >= 0.0
  }

  ghost predicate Positive(q: seq<Lot>) {
    forall i :: 0 <= i < |q| ==> q[i].tokens > 0.0
  }

  function Lesser(a: real, b: real): real {
    if a <= b then a else b
  }

  // ---------- what a sale does ----------

  // It takes min(remaining, open) tokens, and every token taken is in a slice.
  lemma {:induction false} SaleTakes(q: seq<Lot>, remaining: real, o: Order)
    requires NonNegative(q) && remaining >= 0.0
    ensures var s := SellFifo(q, remaining, o);
      && NonNegative(s.rest) && Tokens(q) >= 0.0
      && SliceTokens(s.slices) == Lesser(remaining, Tokens(q))
      && Tokens(s.rest) == Tokens(q) - Lesser(remaining, Tokens(q))
  {
    TokensNonNegative(q);
    if q != [] && remaining > 0.0 {
      TokensNonNegative(q[1..]);
      if q[0].tokens <= remaining {
        SaleTakes(q[1..], remaining - q[0].tokens, o);
        HeadSlice(Matched(o, q[0].sol, q[0].tokens, q[0].time), SellFifo(q[1..], remaining - q[0].tokens, o).slices);
      } else {
        HeadSlice(Matched(o, q[0].sol, remaining, q[0].time), []);
        HeadLot(q[0].(tokens := q[0].tokens - remaining), q[1..]);
      }
    }
  }

  lemma HeadSlice(s: Slice, rest: seq<Slice>)
    ensures SliceTokens([s] + rest) == s.tokens + SliceTokens(rest)
    ensures SliceProceeds([s] + rest) == s.proceeds + SliceProceeds(rest)
    ensures SliceCost([s] + rest) == s.cost + SliceCost(rest)
  {
    assert ([s] + rest)[1..] == rest;
  }

  lemma HeadLot(l: Lot, rest: seq<Lot>)
    ensures Tokens([l] + rest) == l.tokens + Tokens(rest) && Cost([l] + rest) == l.sol + Cost(rest)
  {
    assert ([l] + rest)[1..] == rest;
  }

  lemma {:induction false} TokensNonNegative(q: seq<Lot>)
    requires NonNegative(q)
    ensures Tokens(q) >= 0.0
  {
    if q != [] {
      TokensNonNegative(q[1..]);
    }
  }

  // The receipts attributed to the slices are the receipts' share of the matched tokens.
  lemma {:induction false} ProceedsFollowTokens(q: seq<Lot>, remaining: real, o: Order)
    ensures var s := SellFifo(q, remaining, o); SliceProceeds(s.slices) == ShareOf(o, SliceTokens(s.slices))
  {
    ShareIsAdditive(o, 0.0, 0.0);
    if q != [] && remaining > 0.0 {
      if q[0].tokens <= remaining {
        var after := SellFifo(q[1..], remaining - q[0].tokens, o);
        ProceedsFollowTokens(q[1..], remaining - q[0].tokens, o);
        HeadSlice(Matched(o, q[0].sol, q[0].tokens, q[0].time), after.slices);
        ShareIsAdditive(o, q[0].tokens, SliceTokens(after.slices));
      } else {
        HeadSlice(Matched(o, q[0].sol, remaining, q[0].time), []);
        ShareIsAdditive(o, remaining, 0.0);
      }
    }
  }

  lemma ShareIsAdditive(o: Order, a: real, b: real)
    ensures ShareOf(o, a) + ShareOf(o, b) == ShareOf(o, a + b)
    ensures ShareOf(o, 0.0) == 0.0
  {
    if o.sold > 0.0 {
      var x, y := a / o.sold, b / o.sold;
      assert (a + b) / o.sold == x + y;
      assert o.sol * (x + y) == o.sol * x + o.sol * y;
    }
  }

  // Oldest first: the slices are those of the first lots, in order, each taken whole
  // except perhaps the last; what stays is the untouched tail.
  lemma {:induction false} OldestFirst(q: seq<Lot>, remaining: real, o: Order)
    ensures var s := SellFifo(q, remaining, o);
      var n := |s.slices|;
      && n <= |q| && |q| <= n + |s.rest| <= |q| + 1
      && (forall i :: 0 <= i < n ==> s.slices[i].entryTime == q[i].time && s.slices[i].cost == q[i].sol)
      && (forall i :: 0 <= i < n - 1 ==> s.slices[i].tokens == q[i].tokens)
      && (n + |s.rest| == |q| ==> s.rest == q[n..])
      && (n + |s.rest| == |q| + 1 ==>
            && n > 0 && s.slices[n - 1].tokens < q[n - 1].tokens
            && s.rest == [q[n - 1].(tokens := q[n - 1].tokens - s.slices[n - 1].tokens)] + q[n..])
  {
    if q != [] && remaining > 0.0 && q[0].tokens <= remaining {
      var after := SellFifo(q[1..], remaining - q[0].tokens, o);
      var s := SellFifo(q, remaining, o);
      OldestFirst(q[1..], remaining - q[0].tokens, o);
      assert forall i :: 0 < i < |s.slices| ==> s.slices[i] == after.slices[i - 1];
      assert q[1..][|after.slices|..] == q[|s.slices|..];
    }
  }

  // ---------- the tracker ----------

  function OpenLots(open: map<string, seq<Lot>>, mint: string): seq<Lot> {
    if mint in open then open[mint] else []
  }

  function BoughtTokens(log: seq<Swap>, mint: string): real {
    if log == [] then 0.0
    else
      var last := log[|log| - 1];
      BoughtTokens(log[..|log| - 1], mint) + (if last.direction.Buy? && last.mint == mint then last.tokens else 0.0)
  }

  function MatchedTokens(slices: seq<Slice>, mint: string): real {
    if slices == [] then 0.0
    else
      var last := slices[|slices| - 1];
      MatchedTokens(slices[..|slices| - 1], mint) + (if last.mint == mint then last.tokens else 0.0)
  }

  ghost function LotCount(open: map<string, seq<Lot>>): nat
    decreases |open|
  {
    if open == map[] then 0
    else
      var mint :| mint in open;
      |open[mint]| + LotCount(open - {mint})
  }

  lemma {:induction false} CountOneMint(open: map<string, seq<Lot>>, mint: string)
    requires mint in open
    ensures LotCount(open) == |open[mint]| + LotCount(open - {mint})
    decreases |open|
  {
    assert open != map[];
    var pick :| pick in open && LotCount(open) == |open[pick]| + LotCount(open - {pick});
    if pick != mint {
      CountOneMint(open - {pick}, mint);
      CountOneMint(open - {mint}, pick);
      assert open - {pick} - {mint} == open - {mint} - {pick};
    }
  }

  lemma CountAfterUpdate(open: map<string, seq<Lot>>, mint: string, lots: seq<Lot>)
    ensures LotCount(open[mint := lots]) == LotCount(open) - |OpenLots(open, mint)| + |lots|
  {
    var updated := open[mint := lots];
    CountOneMint(updated, mint);
    if mint in open {
      CountOneMint(open, mint);
      assert updated - {mint} == open - {mint};
    } else {
      assert updated - {mint} == open;
    }
  }

  lemma {:induction false} AppendMatched(slices: seq<Slice>, more: seq<Slice>, mint: string, of: string)
    requires forall i :: 0 <= i < |more| ==> more[i].mint == of
    ensures MatchedTokens(slices + more, mint) == MatchedTokens(slices, mint) + (if mint == of then SliceTokens(more) else 0.0)
    decreases |more|
  {
    if more == [] {
      assert slices + more == slices;
    } else {
      var first := more[0];
      assert slices + more == slices + [first] + more[1..];
      assert (slices + [first])[..|slices|] == slices;
      AppendMatched(slices + [first], more[1..], mint, of);
    }
  }

  lemma {:induction false} SlicesAreOfTheMint(q: seq<Lot>, remaining: real, o: Order)
    ensures forall i :: 0 <= i < |SellFifo(q, remaining, o).slices| ==> SellFifo(q, remaining, o).slices[i].mint == o.mint
  {
    if q != [] && remaining > 0.0 && q[0].tokens <= remaining {
      SlicesAreOfTheMint(q[1..], remaining - q[0].tokens, o);
    }
  }

  lemma AppendBooked(slices: seq<Slice>, s: Slice)
    ensures BookedAll(slices + [s]) == BookedAll(slices) + [Booked(s)] && |BookedAll(slices)| == |slices|
  {
    assert (slices + [s])[..|slices|] == slices;
    BookedEach(slices);
  }

  // No more trades and lots than swaps, and for each token what is open plus what was
  // matched is what was bought.
  ghost predicate Consistent(open: map<string, seq<Lot>>, slices: seq<Slice>, log: seq<Swap>) {
    && (forall mint :: mint in open ==> NonNegative(open[mint]))
    && |slices| + LotCount(open) <= |log|
    && forall mint :: Balanced(open, slices, log, mint)
  }

  ghost predicate Balanced(open: map<string, seq<Lot>>, slices: seq<Slice>, log: seq<Swap>, mint: string) {
    Tokens(OpenLots(open, mint)) + MatchedTokens(slices, mint) == BoughtTokens(log, mint)
  }

  lemma BuyIsConsistent(open: map<string, seq<Lot>>, slices: seq<Slice>, log: seq<Swap>, swap: Swap)
    requires Consistent(open, slices, log) && swap.direction.Buy? && swap.tokens >= 0.0
    ensures Consistent(open[swap.mint := OpenLots(open, swap.mint) + [Lot(swap.sol, swap.tokens, swap.time)]], slices, log + [swap])
  {
    var lots, lot := OpenLots(open, swap.mint), Lot(swap.sol, swap.tokens, swap.time);
    var updated := open[swap.mint := lots + [lot]];
    CountAfterUpdate(open, swap.mint, lots + [lot]);
    TailLot(lots, lot);
    hide LotCount, Tokens, MatchedTokens;
    forall mint ensures Balanced(updated, slices, log + [swap], mint) {
      assert Balanced(open, slices, log, mint);
      AppendBought(log, swap, mint);
    }
  }

  lemma SellIsConsistent(open: map<string, seq<Lot>>, slices: seq<Slice>, log: seq<Swap>, swap: Swap)
    requires Consistent(open, slices, log) && swap.direction.Sell? && swap.tokens >= 0.0
    ensures var sale := SellFifo(OpenLots(open, swap.mint), swap.tokens, Order(swap.mint, swap.tokens, swap.sol, swap.time));
      Consistent(if swap.mint in open then open[swap.mint := sale.rest] else open, slices + sale.slices, log + [swap])
  {
    var lots, o := OpenLots(open, swap.mint), Order(swap.mint, swap.tokens, swap.sol, swap.time);
    var sale := SellFifo(lots, swap.tokens, o);
    SaleTakes(lots, swap.tokens, o);
    OldestFirst(lots, swap.tokens, o);
    SlicesAreOfTheMint(lots, swap.tokens, o);
    hide SellFifo, LotCount, Tokens, MatchedTokens, SliceTokens;
    CountAfterUpdate(open, swap.mint, sale.rest);
    var updated := if swap.mint in open then open[swap.mint := sale.rest] else open;
    forall mint ensures Balanced(updated, slices + sale.slices, log + [swap], mint) {
      assert Balanced(open, slices, log, mint);
      AppendBought(log, swap, mint);
      AppendMatched(slices, sale.slices, mint, swap.mint);
    }
  }

  // One pass of the sale, seen from the queue.
  lemma SaleStep(q: seq<Lot>, remaining: real, o: Order)
    ensures q == [] || remaining <= 0.0 ==> SellFifo(q, remaining, o) == Sale(q, [])
    ensures q != [] && remaining > 0.0 && q[0].tokens <= remaining ==>
      var after := SellFifo(q[1..], remaining - q[0].tokens, o);
      SellFifo(q, remaining, o) == Sale(after.rest, [Matched(o, q[0].sol, q[0].tokens, q[0].time)] + after.slices)
    ensures q != [] && remaining > 0.0 && q[0].tokens > remaining ==>
      SellFifo(q, remaining, o)
      == Sale([q[0].(tokens := q[0].tokens - remaining)] + q[1..], [Matched(o, q[0].sol, remaining, q[0].time)])
  {
  }

  // What the slices so far and the queue still to be worked add up to.
  ghost predicate Towards(sale: Sale, prior: seq<Slice>, slices: seq<Slice>, q: seq<Lot>, remaining: real, o: Order) {
    slices + SellFifo(q, remaining, o).slices == prior + sale.slices && SellFifo(q, remaining, o).rest == sale.rest
  }

  lemma TowardsStart(prior: seq<Slice>, q: seq<Lot>, remaining: real, o: Order)
    ensures Towards(SellFifo(q, remaining, o), prior, prior, q, remaining, o)
  {
  }

  lemma TowardsWhole(sale: Sale, prior: seq<Slice>, slices: seq<Slice>, q: seq<Lot>, remaining: real, o: Order)
    requires Towards(sale, prior, slices, q, remaining, o)
    requires q != [] && remaining > 0.0 && q[0].tokens <= remaining
    ensures Towards(sale, prior, slices + [Matched(o, q[0].sol, q[0].tokens, q[0].time)], q[1..], remaining - q[0].tokens, o)
  {
    SaleStep(q, remaining, o);
    var slice, after := Matched(o, q[0].sol, q[0].tokens, q[0].time), SellFifo(q[1..], remaining - q[0].tokens, o);
    hide SellFifo;
    assert slices + ([slice] + after.slices) == slices + [slice] + after.slices;
  }

  lemma TowardsEnd(sale: Sale, prior: seq<Slice>, slices: seq<Slice>, q: seq<Lot>, remaining: real, o: Order)
    requires Towards(sale, prior, slices, q, remaining, o)
    ensures q == [] || remaining <= 0.0 ==> slices == prior + sale.slices && q == sale.rest
    ensures q != [] && remaining > 0.0 && q[0].tokens > remaining ==>
      && slices + [Matched(o, q[0].sol, remaining, q[0].time)] == prior + sale.slices
      && [q[0].(tokens := q[0].tokens - remaining)] + q[1..] == sale.rest
  {
    SaleStep(q, remaining, o);
    hide SellFifo;
  }

  class WalletAccumulator {
    var open: map<string, seq<Lot>>
    var completed: seq<Completed>
    var buys: nat
    var sells: nat
    // The swaps recorded so far and the slices behind the completed trades.
    ghost var log: seq<Swap>
    ghost var slices: seq<Slice>

    ghost predicate Valid()
      reads this
    {
      && completed == BookedAll(slices) && |completed| == |slices|
      && buys + sells == |log|
      && Consistent(open, slices, log)
    }

    constructor ()
      ensures Valid() && log == [] && open == map[] && completed == []
    {
      open, completed, buys, sells, log, slices := map[], [], 0, 0, [], [];
    }

    method RecordObservation(swap: Swap)
      requires Valid() && swap.tokens >= 0.0
      modifies this
      ensures Valid() && log == old(log) + [swap]
      ensures swap.direction.Buy? ==>
        && completed == old(completed) && slices == old(slices)
        && open == old(open)[swap.mint := OpenLots(old(open), swap.mint) + [Lot(swap.sol, swap.tokens, swap.time)]]
      ensures swap.direction.Sell? ==>
        var sale := SellFifo(OpenLots(old(open), swap.mint), swap.tokens, Order(swap.mint, swap.tokens, swap.sol, swap.time));
        && slices == old(slices) + sale.slices
        && open == if swap.mint in old(open) then old(open)[swap.mint := sale.rest] else old(open)
    {
      hide Consistent, BookedAll, SellFifo;
      if swap.direction.Buy? {
        BuyIsConsistent(open, slices, log, swap);
        buys := buys + 1;
        var lots := if swap.mint in open then open[swap.mint] else [];
        open := open[swap.mint := lots + [Lot(swap.sol, swap.tokens, swap.time)]];
        log := log + [swap];
      } else {
        SellIsConsistent(open, slices, log, swap);
        sells := sells + 1;
        log := log + [swap];
        RecordSell(swap.mint, swap.tokens, swap.sol, swap.time);
      }
    }

    // The two-phase loop.  The branch that would drop a partly sold lot is dead.
    method RecordSell(mint: string, sold: real, sol: real, time: int)
      requires completed == BookedAll(slices) && |completed| == |slices|
      modifies this`open, this`completed, this`slices
      ensures completed == BookedAll(slices) && |completed| == |slices|
      ensures var sale := SellFifo(OpenLots(old(open), mint), sold, Order(mint, sold, sol, time));
        && slices == old(slices) + sale.slices
        && open == if mint in old(open) then old(open)[mint := sale.rest] else old(open)
    {
      if mint !in open || open[mint] == [] {
        assert mint in open ==> open[mint := []] == open;
        return;
      }
      var queue, remaining := open[mint], sold;
      var order := Order(mint, sold, sol, time);
      ghost var sale := SellFifo(queue, sold, order);
      TowardsStart(slices, queue, sold, order);
      hide ShareOf, Book, BookedAll, SellFifo, Towards;
      while queue != [] && remaining > 0.0 && queue[0].tokens <= remaining
        invariant completed == BookedAll(slices) && |completed| == |slices| && open == old(open)
        invariant Towards(sale, old(slices), slices, queue, remaining, order)
        decreases |queue|
      {
        var lot := queue[0];
        ghost var slice := Matched(order, lot.sol, lot.tokens, lot.time);
        TowardsWhole(sale, old(slices), slices, queue, remaining, order);
        AppendBooked(slices, slice);
        completed := completed + [Book(lot.sol, ShareOf(order, lot.tokens), lot.time, time)];
        slices := slices + [slice];
        queue := queue[1..];
        remaining := remaining - lot.tokens;
      }
      TowardsEnd(sale, old(slices), slices, queue, remaining, order);
      if remaining > 0.0 && queue != [] {
        var front := queue[0];
        ghost var slice := Matched(order, front.sol, remaining, front.time);
        AppendBooked(slices, slice);
        completed := completed + [Book(front.sol, ShareOf(order, remaining), front.time, time)];
        slices := slices + [slice];
        var stillRemaining := front.tokens - remaining;
        if stillRemaining <= 0.0 {
          assert false;
        } else {
          queue := [front.(tokens := stillRemaining)] + queue[1..];
        }
      }
      open := open[mint := queue];
    }
  }

  lemma AppendBought(log: seq<Swap>, swap: Swap, mint: string)
    ensures BoughtTokens(log + [swap], mint)
      == BoughtTokens(log, mint) + (if swap.direction.Buy? && swap.mint == mint then swap.tokens else 0.0)
  {
    assert (log + [swap])[..|log|] == log;
  }

  lemma {:induction false} TailLot(q: seq<Lot>, lot: Lot)
    ensures Tokens(q + [lot]) == Tokens(q) + lot.tokens
  {
    if q != [] {
      TailLot(q[1..], lot);
      assert (q + [lot])[1..] == q[1..] + [lot];
    }
  }

  // A sale on its own: it matches min(sold, open), and attributes that share of the
  // receipts; all of them when enough was open.
  lemma SaleAccounts(q: seq<Lot>, o: Order)
    requires NonNegative(q) && o.sold > 0.0
    ensures var s := SellFifo(q, o.sold, o);
      var matched := Lesser(o.sold, Tokens(q));
      && SliceTokens(s.slices) == matched && Tokens(q) == Tokens(s.rest) + matched
      && SliceProceeds(s.slices) == ShareOf(o, matched)
      && (Tokens(q) >= o.sold ==> SliceProceeds(s.slices) == o.sol)
  {
    SaleTakes(q, o.sold, o);
    ProceedsFollowTokens(q, o.sold, o);
    WholeShare(o);
    hide SellFifo, Tokens, SliceTokens, SliceProceeds, ShareOf;
  }

  lemma WholeShare(o: Order)
    requires o.sold > 0.0
    ensures ShareOf(o, o.sold) == o.sol
  {
    assert o.sold / o.sold == 1.0;
  }

  // ---------- the replica against the original ----------

  // The lot a sale only partly uses, if there is one.
  function PartialLot(q: seq<Lot>, remaining: real): Option<Lot> {
    if q == [] || remaining <= 0.0 then None
    else if q[0].tokens <= remaining then PartialLot(q[1..], remaining - q[0].tokens)
    else Some(q[0])
  }

  // The original conserves cost; the replica leaves a partly sold lot its whole cost,
  // so that cost is charged again by later sales.
  lemma {:induction false} CostConservation(q: seq<Lot>, remaining: real, o: Order)
    requires Positive(q)
    ensures var s, r := SellFifo(q, remaining, o), SellProRata(q, remaining, o);
      && SliceCost(r.slices) + Cost(r.rest) == Cost(q) && (r.rest == [] ==> SliceCost(r.slices) == Cost(q))
      && SliceCost(s.slices) + Cost(s.rest)
           == Cost(q) + (if PartialLot(q, remaining).Some? then PartialLot(q, remaining).value.sol else 0.0)
  {
    if q != [] && remaining > 0.0 {
      if q[0].tokens <= remaining {
        var slice := Matched(o, q[0].sol, q[0].tokens, q[0].time);
        CostConservation(q[1..], remaining - q[0].tokens, o);
        HeadSlice(slice, SellFifo(q[1..], remaining - q[0].tokens, o).slices);
        HeadSlice(slice, SellProRata(q[1..], remaining - q[0].tokens, o).slices);
      } else {
        var cost := CostPart(q[0].sol, remaining, q[0].tokens);
        HeadSlice(Matched(o, q[0].sol, remaining, q[0].time), []);
        HeadSlice(Matched(o, cost, remaining, q[0].time), []);
        HeadLot(q[0].(tokens := q[0].tokens - remaining), q[1..]);
        HeadLot(q[0].(tokens := q[0].tokens - remaining, sol := q[0].sol - cost), q[1..]);
      }
    }
  }

  function WithoutEmpty(q: seq<Lot>): seq<Lot> {
    if q == [] then [] else (if q[0].tokens > 0.0 then [q[0]] else []) + WithoutEmpty(q[1..])
  }

  lemma WithoutEmptyHead(head: Lot, tail: seq<Lot>)
    ensures WithoutEmpty([head] + tail) == if head.tokens > 0.0 then [head] + WithoutEmpty(tail) else WithoutEmpty(tail)
  {
    assert ([head] + tail)[1..] == tail;
  }

  // One lot of the original's loop.
  lemma ProRataStep(head: Lot, tail: seq<Lot>, remaining: real, o: Order)
    ensures var q := [head] + tail;
      SellProRata(q, remaining, o) ==
        if remaining <= 0.0 then Sale(q, [])
        else if head.tokens <= 0.0 then SellProRata(tail, remaining, o)
        else if head.tokens <= remaining then
          var after := SellProRata(tail, remaining - head.tokens, o);
          Sale(after.rest, [Matched(o, head.sol, head.tokens, head.time)] + after.slices)
        else
          var cost := CostPart(head.sol, remaining, head.tokens);
          Sale([head.(tokens := head.tokens - remaining, sol := head.sol - cost)] + tail, [Matched(o, cost, remaining, head.time)])
  {
    assert ([head] + tail)[1..] == tail;
    hide CostPart, ShareOf;
  }

  // Lots without tokens never show in a sale of the original: it sells what the others
  // would sell, and each of its trades has tokens.
  lemma {:induction false} EmptyLotsVanish(q: seq<Lot>, remaining: real, o: Order)
    ensures var r, p := SellProRata(q, remaining, o), SellProRata(WithoutEmpty(q), remaining, o);
      && r.slices == p.slices && WithoutEmpty(r.rest) == p.rest
      && forall i :: 0 <= i < |r.slices| ==> r.slices[i].tokens > 0.0
  {
    if q != [] {
      var head, tail := q[0], q[1..];
      assert q == [head] + tail;
      WithoutEmptyHead(head, tail);
      ProRataStep(head, tail, remaining, o);
      ProRataStep(head, WithoutEmpty(tail), remaining, o);
      EmptyLotsVanish(tail, remaining, o);
      EmptyLotsVanish(tail, remaining - head.tokens, o);
      NothingSold(WithoutEmpty(tail), remaining, o);
      if 0.0 < remaining < head.tokens {
        WithoutEmptyHead(SellProRata(q, remaining, o).rest[0], tail);
      }
      hide SellProRata, WithoutEmpty, Matched, CostPart;
    }
  }

  lemma NothingSold(q: seq<Lot>, remaining: real, o: Order)
    ensures remaining <= 0.0 ==> SellProRata(q, remaining, o) == Sale(q, [])
  {
  }

  // They agree on every slice and every remaining lot exactly when no lot is partly
  // sold at a cost; quantities, receipts and times agree always.
  lemma {:induction false} ReplicaAgreesIff(q: seq<Lot>, remaining: real, o: Order)
    requires Positive(q)
    ensures var s, r, p := SellFifo(q, remaining, o), SellProRata(q, remaining, o), PartialLot(q, remaining);
      && (s == r <==> p.None? || p.value.sol == 0.0)
      && |s.slices| == |r.slices| && |s.rest| == |r.rest|
      && (forall i :: 0 <= i < |s.slices| ==> s.slices[i] == r.slices[i].(cost := s.slices[i].cost))
      && (forall i :: 0 <= i < |s.rest| ==> s.rest[i] == r.rest[i].(sol := s.rest[i].sol))
  {
    if q != [] && remaining > 0.0 {
      if q[0].tokens <= remaining {
        ReplicaAgreesIff(q[1..], remaining - q[0].tokens, o);
        var s, r := SellFifo(q[1..], remaining - q[0].tokens, o), SellProRata(q[1..], remaining - q[0].tokens, o);
        var head := [Matched(o, q[0].sol, q[0].tokens, q[0].time)];
        assert head + s.slices == head + r.slices <==> s.slices == r.slices by {
          assert (head + s.slices)[1..] == s.slices && (head + r.slices)[1..] == r.slices;
        }
      } else {
        var cost := CostPart(q[0].sol, remaining, q[0].tokens);
        PartCost(q[0].sol, remaining, q[0].tokens);
        var a, b := SellFifo(q, remaining, o), SellProRata(q, remaining, o);
        assert a.slices[0].cost == q[0].sol && b.slices[0].cost == cost;
        assert a.rest[0].sol == q[0].sol && b.rest[0].sol == q[0].sol - cost;
      }
    }
  }

  lemma PartCost(sol: real, part: real, whole: real)
    requires 0.0 < part < whole
    ensures sol * part / whole == sol <==> sol == 0.0
    ensures sol - sol * part / whole == sol <==> sol == 0.0
  {
    var x := sol * part / whole;
    assert x * whole == sol * part;
    if x == sol {
      assert sol * (whole - part) == 0.0;
    }
    if x == 0.0 {
      assert sol * part == 0.0;
    }
  }

  // A sale of part of a lot, then of the rest: the replica books the cost twice.
  lemma CostIsChargedTwice()
    ensures var first, second := Order("m", 1.0, 5.0, 1), Order("m", 1.0, 5.0, 2);
      var a := SellFifo([Lot(10.0, 2.0, 0)], 1.0, first);
      var b := SellFifo(a.rest, 1.0, second);
      SliceCost(a.slices) + SliceCost(b.slices) == 20.0 && b.rest == []
  {
    var first, second := Order("m", 1.0, 5.0, 1), Order("m", 1.0, 5.0, 2);
    var a := SellFifo([Lot(10.0, 2.0, 0)], 1.0, first);
    assert a.rest == [Lot(10.0, 1.0, 0)];
    HeadSlice(Matched(first, 10.0, 1.0, 0), []);
    HeadSlice(Matched(second, 10.0, 1.0, 0), []);
  }
}
