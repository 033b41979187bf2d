// Position accounting (src/portfolio/mod.rs, src/domain/position.rs, the pricing of
// src/execution/executor.rs).  Quantities are atomic integers, USD values are reals.
module Portfolio {
  import opened Wrappers
  import opened ExitKeys

  type Mint = Bytes

  datatype Status = Unverified | Matched | AdjustedOnChain | Mismatch | ClosedOnChain

  datatype Position = Position(
    positionId: Option<Bytes>,
    baseMint: Option<Mint>,
    tokenDecimals: Option<nat>,
    baseDecimals: Option<nat>,
    hasCostModel: bool,
    quantity: real,
    remaining: Option<u64>,
    entryCost: Option<real>,
    basePrice: Option<real>,
    open: bool,
    status: Status,
    realized: real,
    fees: real,
    highWater: real,
    currentValue: real)

  datatype Fill = Fill(input: u64, output: u64, price: real, fees: real, value: Option<real>)

  predicate QuantityIsTrusted(s: Status) {
    s.Matched? || s.AdjustedOnChain?
  }

  // `trusted_remaining`: exits are refused for closed positions and untrusted balances.
  function TrustedRemaining(p: Position): Option<u64> {
    if p.open && QuantityIsTrusted(p.status) then p.remaining else None
  }

  function RemainingOrZero(p: Position): u64 {
    match p.remaining
    case Some(r) => r
    case None => 0
  }

  // `units`: a decimals value whose power of ten leaves u64 is refused.
  function Pow10(d: nat): (p: nat)
    ensures p > 0
  {
    if d == 0 then 1 else 10 * Pow10(d - 1)
  }

  function Units(amount: nat, decimals: nat): Option<real> {
    if Pow10(decimals) > U64_MAX then None else Some(amount as real / Pow10(decimals) as real)
  }

  function ValueAt(price: real, quantity: real): real {
    price * quantity
  }

  function PerUnit(value: real, units: real): real
    requires units != 0.0
  {
    value / units
  }

  datatype ValueBasis = InputValueUsd(v: real) | OutputUnitPriceUsd(p: real)

  datatype Priced = Priced(value: real, price: real)

  function PriceFill(basis: ValueBasis, input: nat, inputDecimals: nat, output: nat, outputDecimals: nat): Option<Priced> {
    match (Units(input, inputDecimals), Units(output, outputDecimals))
    case (Some(i), Some(o)) =>
      (match basis
       case InputValueUsd(v) => if o <= 0.0 then None else Some(Priced(v, PerUnit(v, o)))
       case OutputUnitPriceUsd(p) => if i <= 0.0 then None else Some(Priced(ValueAt(p, o), PerUnit(ValueAt(p, o), i))))
    case _ => None
  }

  function Higher(a: real, b: real): real {
    if b > a then b else a
  }

  // `apply_entry` on the stored position for the mint, if there is one.
  function ApplyEntry(prior: Option<Position>, positionId: Bytes, baseMint: Mint, tokenDecimals: nat, baseDecimals: nat, fill: Fill)
      : Result<Position, string>
  {
    if fill.output == 0 then Err("zero fill")
    else match fill.value
      case None => Err("entry fill lacks USD value basis")
      case Some(value) =>
        match prior
        case Some(p) =>
          Ok(p.(quantity := p.quantity + fill.output as real,
                remaining := Some(SaturatingAdd(RemainingOrZero(p), fill.output)),
                entryCost := Some((if p.entryCost.Some? then p.entryCost.value else 0.0) + value),
                fees := p.fees + fill.fees,
                open := true,
                status := AdjustedOnChain,
                highWater := Higher(p.highWater, fill.price),
                currentValue := ValueAt(fill.price, p.quantity + fill.output as real)))
        case None =>
          var baseUnits := PerUnit(fill.input as real, Pow10(baseDecimals) as real);
          Ok(Position(Some(positionId), Some(baseMint), Some(tokenDecimals), Some(baseDecimals), true,
                      fill.output as real, Some(fill.output), Some(value),
                      if baseUnits > 0.0 then Some(PerUnit(value, baseUnits)) else None,
                      true, Matched, 0.0, fill.fees, fill.price, ValueAt(fill.price, fill.output as real)))
  }

  function CostOfSold(entryCost: real, sold: nat, quantity: real): real
    requires quantity != 0.0
  {
    entryCost * sold as real / quantity
  }

  // `apply_exit`: realised PnL uses the average entry cost per token ever bought.
  function ApplyExit(p: Position, fill: Fill): Result<Position, string> {
    match p.remaining
    case None => Err("remaining quantity unknown")
    case Some(r) =>
      if fill.input > r then Err("exit sold exceeds remaining")
      else match (fill.value, p.entryCost)
        case (None, _) => Err("exit fill lacks USD proceeds")
        case (_, None) => Err("position lacks entry cost basis")
        case (Some(proceeds), Some(cost)) =>
          if p.quantity == 0.0 then Err("position has zero entry quantity")
          else
            Ok(p.(remaining := Some(r - fill.input),
                  realized := p.realized + (proceeds - CostOfSold(cost, fill.input, p.quantity) - fill.fees),
                  fees := p.fees + fill.fees,
                  open := p.open && r != fill.input,
                  highWater := Higher(p.highWater, fill.price),
                  currentValue := ValueAt(fill.price, (r - fill.input) as real)))
  }

  // `mark_to_market`: the price moves the high water mark and the value, never the quantity.
  function MarkToMarket(p: Position, price: real): Result<Position, string> {
    if p.remaining.None? then Err("position missing remaining_quantity_atomic")
    else if p.entryCost.None? then Err("position missing entry_cost_usd")
    else Ok(p.(highWater := Higher(p.highWater, price), currentValue := ValueAt(price, p.remaining.value as real)))
  }

  // `reconcile_with_chain`: the chain balance wins, except that a vanished balance only closes the record.
  function ReconcileWithChain(p: Position, amount: u64, decimals: nat): Result<Position, string> {
    if !p.open then Ok(p)
    else if p.remaining == Some(amount) then Ok(p.(status := Matched))
    else if amount == 0 then Ok(p.(open := false, status := ClosedOnChain, currentValue := 0.0))
    else if p.tokenDecimals.Some? && p.tokenDecimals.value != decimals then Err("decimals mismatch")
    else Ok(p.(tokenDecimals := Some(decimals), remaining := Some(amount), status := AdjustedOnChain))
  }

  // ---------- what one accounting call means ----------

  lemma {:induction false} Pow10Grows(d: nat, e: nat)
    requires d <= e
    ensures Pow10(d) <= Pow10(e)
  {
    if d < e {
      Pow10Grows(d, e - 1);
    }
  }

  // A power of ten fits u64 up to 19 decimals, and nine decimals are a billion units.
  lemma DecimalsFit(d: nat)
    ensures Pow10(d) <= U64_MAX <==> d <= 19
    ensures Pow10(9) == 1_000_000_000
  {
    assert Pow10(9) == 1_000_000_000;
    assert Pow10(19) == 10 * (10 * Pow10(17)) && Pow10(17) == 10 * (10 * (10 * (10 * Pow10(13)))) && Pow10(13) == 10 * (10 * (10 * (10 * Pow10(9))));
    assert Pow10(20) == 10 * Pow10(19);
    if d <= 19 {
      Pow10Grows(d, 19);
    } else {
      Pow10Grows(20, d);
    }
  }

  lemma ScaledBack(x: real, n: real)
    requires n != 0.0
    ensures x / n * n == x
  {
  }

  // That many whole units are that atomic amount.
  ghost predicate AreUnits(units: real, amount: nat, decimals: nat) {
    units * Pow10(decimals) as real == amount as real && (units > 0.0 <==> amount > 0)
  }

  lemma UnitsMean(amount: nat, decimals: nat)
    ensures var u := Units(amount, decimals);
      && (u.Some? <==> Pow10(decimals) <= U64_MAX)
      && (u.Some? ==> AreUnits(u.value, amount, decimals) && (u.value > 0.0 <==> amount > 0))
  {
    ScaledBack(amount as real, Pow10(decimals) as real);
    if Pow10(decimals) <= U64_MAX {
      var u := Units(amount, decimals).value;
      SignOfProduct(u, Pow10(decimals) as real);
    }
  }

  // That price for each of an atomic amount comes to that value in units of so many decimals.
  ghost predicate Comes(price: real, amount: nat, value: real, decimals: nat) {
    price * amount as real == value * Pow10(decimals) as real
  }

  lemma PricePerUnit(value: real, units: real, amount: nat, decimals: nat)
    requires units != 0.0 && AreUnits(units, amount, decimals)
    ensures Comes(PerUnit(value, units), amount, value, decimals)
  {
    var price, ten := PerUnit(value, units), Pow10(decimals) as real;
    ScaledBack(value, units);
    assert price * (units * ten) == price * units * ten;
  }

  lemma ValueOfUnits(units: real, price: real, amount: nat, decimals: nat)
    requires AreUnits(units, amount, decimals)
    ensures Comes(price, amount, ValueAt(price, units), decimals)
  {
    var ten := Pow10(decimals) as real;
    assert price * units * ten == price * (units * ten);
  }

  // The price times what it prices is the value: a purchase is worth what was paid for
  // it, a sale what its output is worth at the basis price.
  lemma PriceFillMeans(basis: ValueBasis, input: nat, inputDecimals: nat, output: nat, outputDecimals: nat)
    ensures var r := PriceFill(basis, input, inputDecimals, output, outputDecimals);
      && (r.Some? <==>
            && Pow10(inputDecimals) <= U64_MAX && Pow10(outputDecimals) <= U64_MAX
            && (if basis.InputValueUsd? then output > 0 else input > 0))
      && (r.Some? ==>
            match basis
            case InputValueUsd(v) =>
              r.value.value == v && Comes(r.value.price, output, v, outputDecimals)
            case OutputUnitPriceUsd(p) =>
              Comes(p, output, r.value.value, outputDecimals) && Comes(r.value.price, input, r.value.value, inputDecimals))
  {
    UnitsMean(input, inputDecimals);
    UnitsMean(output, outputDecimals);
    hide Units, Comes, PerUnit, ValueAt, AreUnits;
    if Units(input, inputDecimals).Some? && Units(output, outputDecimals).Some? {
      var i, o := Units(input, inputDecimals).value, Units(output, outputDecimals).value;
      match basis
      case InputValueUsd(v) =>
        if o > 0.0 {
          PricePerUnit(v, o, output, outputDecimals);
        }
      case OutputUnitPriceUsd(p) =>
        ValueOfUnits(o, p, output, outputDecimals);
        if i > 0.0 {
          PricePerUnit(ValueAt(p, o), i, input, inputDecimals);
        }
    }
  }

  // A purchase: quantity, cost and fees grow by the fill; a first one opens a trusted
  // position whose base price times the base tokens paid is the cost, and a later one
  // keeps everything else, taking a missing quantity or cost for zero.
  lemma EntryMeans(prior: Option<Position>, positionId: Bytes, baseMint: Mint, tokenDecimals: nat, baseDecimals: nat, fill: Fill)
    ensures var r := ApplyEntry(prior, positionId, baseMint, tokenDecimals, baseDecimals, fill);
      && (r.Ok? <==> fill.output > 0 && fill.value.Some?)
      && (r.Ok? ==>
            var q, value := r.value, fill.value.value;
            && q.open && QuantityIsTrusted(q.status) && q.currentValue == ValueAt(fill.price, q.quantity)
            && (prior.None? ==>
                  && q.remaining == Some(fill.output) && q.quantity == fill.output as real && q.entryCost == Some(value)
                  && q.fees == fill.fees && q.realized == 0.0 && q.highWater == fill.price && q.hasCostModel
                  && q.positionId == Some(positionId) && q.baseMint == Some(baseMint)
                  && q.tokenDecimals == Some(tokenDecimals) && q.baseDecimals == Some(baseDecimals)
                  && (q.basePrice.Some? <==> fill.input > 0)
                  && (q.basePrice.Some? ==> Comes(q.basePrice.value, fill.input, value, baseDecimals)))
            && (prior.Some? ==>
                  var p := prior.value;
                  && q.remaining == Some(Min((if p.remaining.Some? then p.remaining.value else 0) + fill.output, U64_MAX))
                  && q.quantity == p.quantity + fill.output as real
                  && q.entryCost == Some((if p.entryCost.Some? then p.entryCost.value else 0.0) + value)
                  && q.fees == p.fees + fill.fees && q.highWater >= p.highWater && q.highWater >= fill.price
                  && (q.highWater == p.highWater || q.highWater == fill.price)
                  && p == q.(remaining := p.remaining, quantity := p.quantity, entryCost := p.entryCost, fees := p.fees,
                             open := p.open, status := p.status, highWater := p.highWater, currentValue := p.currentValue)))
  {
    var ten := Pow10(baseDecimals) as real;
    var units := PerUnit(fill.input as real, ten);
    BaseUnits(fill.input, ten);
    if units > 0.0 && fill.value.Some? {
      PricePerUnit(fill.value.value, units, fill.input, baseDecimals);
    }
    hide Pow10, PerUnit, Comes, ValueAt, AreUnits;
  }

  lemma BaseUnits(amount: nat, ten: real)
    requires ten > 0.0
    ensures var units := PerUnit(amount as real, ten); units * ten == amount as real && (units > 0.0 <==> amount > 0)
  {
    ScaledBack(amount as real, ten);
    SignOfProduct(amount as real / ten, ten);
  }

  // What an accepted sale books: the quantity sold, its proceeds less fees less its share
  // of the cost, and nothing else; it closes exactly when nothing is left.
  ghost predicate SaleBooked(p: Position, fill: Fill, q: Position) {
    && p.remaining.Some? && p.entryCost.Some? && fill.value.Some? && fill.input <= p.remaining.value
    && q.remaining == Some(p.remaining.value - fill.input)
    && (q.realized - p.realized - fill.value.value + fill.fees) * p.quantity == 0.0 - p.entryCost.value * fill.input as real
    && q.fees == p.fees + fill.fees
    && q.open == (p.open && q.remaining != Some(0))
    && q.highWater >= p.highWater && q.highWater >= fill.price && (q.highWater == p.highWater || q.highWater == fill.price)
    && q.currentValue == fill.price * q.remaining.value as real
    && p == q.(remaining := p.remaining, realized := p.realized, fees := p.fees, open := p.open,
               highWater := p.highWater, currentValue := p.currentValue)
  }

  lemma ExitMeans(p: Position, fill: Fill)
    ensures var r := ApplyExit(p, fill);
      && (r.Ok? <==> p.remaining.Some? && fill.input <= p.remaining.value && fill.value.Some? && p.entryCost.Some? && p.quantity != 0.0)
      && (r.Ok? ==> SaleBooked(p, fill, r.value))
  {
    var r := ApplyExit(p, fill);
    if r.Ok? {
      var share := CostOfSold(p.entryCost.value, fill.input, p.quantity);
      ScaledBack(p.entryCost.value * fill.input as real, p.quantity);
      assert r.value.realized - p.realized - fill.value.value + fill.fees == 0.0 - share;
      assert (0.0 - share) * p.quantity == 0.0 - share * p.quantity;
    }
    hide CostOfSold;
  }

  // A mark moves the high water and the value of what is left.
  lemma MarkMeans(p: Position, price: real)
    ensures var r := MarkToMarket(p, price);
      && (r.Ok? <==> p.remaining.Some? && p.entryCost.Some?)
      && (r.Ok? ==>
            var q := r.value;
            && q.highWater >= p.highWater && q.highWater >= price && (q.highWater == p.highWater || q.highWater == price)
            && q.currentValue == price * p.remaining.value as real
            && p == q.(highWater := p.highWater, currentValue := p.currentValue))
  {
  }

  // A run of exit fills on one position; any refused fill stops the run.
  function ApplyExits(p: Position, fills: seq<Fill>): Result<Position, string> {
    if fills == [] then Ok(p)
    else match ApplyExits(p, fills[..|fills| - 1])
      case Err(e) => Err(e)
      case Ok(q) => ApplyExit(q, fills[|fills| - 1])
  }

  function Sold(fills: seq<Fill>): nat {
    if fills == [] then 0 else Sold(fills[..|fills| - 1]) + fills[|fills| - 1].input
  }

  function Proceeds(fills: seq<Fill>): real {
    if fills == [] then 0.0
    else Proceeds(fills[..|fills| - 1]) + ValueOrZero(fills[|fills| - 1])
  }

  function ValueOrZero(fill: Fill): real {
    match fill.value
    case Some(v) => v
    case None => 0.0
  }

  function FeesOf(fills: seq<Fill>): real {
    if fills == [] then 0.0 else FeesOf(fills[..|fills| - 1]) + fills[|fills| - 1].fees
  }

  lemma CostSplits(cost: real, a: nat, b: nat, quantity: real)
    requires quantity != 0.0
    ensures CostOfSold(cost, a + b, quantity) == CostOfSold(cost, a, quantity) + CostOfSold(cost, b, quantity)
  {
    var x, y := a as real, b as real;
    assert (a + b) as real == x + y;
    assert cost * (x + y) == cost * x + cost * y;
  }

  // However a sale is split into fills, quantity is conserved and realised PnL telescopes.
  lemma {:induction false} ExitsTelescope(p: Position, fills: seq<Fill>)
    requires ApplyExits(p, fills).Ok?
    requires p.remaining.Some? && p.entryCost.Some? && p.quantity != 0.0
    ensures var q := ApplyExits(p, fills).value;
      && q.remaining == Some(p.remaining.value - Sold(fills)) && Sold(fills) <= p.remaining.value
      && q.entryCost == p.entryCost && q.quantity == p.quantity
      && q.realized == p.realized + Proceeds(fills) - FeesOf(fills) - CostOfSold(p.entryCost.value, Sold(fills), p.quantity)
      && q.fees == p.fees + FeesOf(fills)
  {
    hide CostOfSold;
    if fills == [] {
      CostSplits(p.entryCost.value, 0, 0, p.quantity);
    } else {
      var front, last := fills[..|fills| - 1], fills[|fills| - 1];
      ExitsTelescope(p, front);
      CostSplits(p.entryCost.value, Sold(front), last.input, p.quantity);
    }
  }

  // A position bought whole and then fully sold, in any number of fills, realises
  // proceeds - cost - exit fees and ends closed with nothing left.
  lemma FullExitRealisesEverything(p: Position, fills: seq<Fill>)
    requires fills != [] && ApplyExits(p, fills).Ok?
    requires p.remaining.Some? && p.entryCost.Some? && p.realized == 0.0 && p.quantity != 0.0
    requires p.quantity == p.remaining.value as real && Sold(fills) == p.remaining.value
    ensures var q := ApplyExits(p, fills).value;
      q.remaining == Some(0) && !q.open && q.realized == Proceeds(fills) - p.entryCost.value - FeesOf(fills)
  {
    hide CostOfSold;
    ExitsTelescope(p, fills);
    ExitsTelescope(p, fills[..|fills| - 1]);
    WholeCost(p.entryCost.value, Sold(fills));
  }

  lemma WholeCost(cost: real, sold: nat)
    requires sold as real != 0.0
    ensures CostOfSold(cost, sold, sold as real) == cost
  {
    var x := sold as real;
    DivThenTimes(cost * x, x);
    CancelRight(CostOfSold(cost, sold, x), cost, x);
  }

  lemma DivThenTimes(n: real, x: real)
    requires x != 0.0
    ensures n / x * x == n
  {
  }

  lemma CancelRight(a: real, b: real, x: real)
    requires x != 0.0 && a * x == b * x
    ensures a == b
  {
    assert (a - b) * x == 0.0;
  }

  // A token bought again after a full exit reuses the stored row, quantity and cost
  // included.  The second round trip then realises its own cost exactly when both
  // purchases had the same unit cost; otherwise cost is created or lost.
  lemma ReentryRealisesItsCostIff(p: Position, id: Bytes, baseMint: Mint, tokenDecimals: nat, baseDecimals: nat, bought: Fill, sale: Fill)
    requires p.remaining == Some(0) && p.entryCost.Some? && p.quantity > 0.0
    requires bought.output > 0 && bought.value.Some? && sale.input == bought.output && sale.value.Some?
    ensures var entered := ApplyEntry(Some(p), id, baseMint, tokenDecimals, baseDecimals, bought);
      && entered.Ok? && ApplyExit(entered.value, sale).Ok?
      && var closed := ApplyExit(entered.value, sale).value;
      && closed.remaining == Some(0) && !closed.open
      && (closed.realized - p.realized == sale.value.value - sale.fees - bought.value.value
          <==> p.entryCost.value * bought.output as real == bought.value.value * p.quantity)
  {
    var c1, c2, q1, q2 := p.entryCost.value, bought.value.value, p.quantity, bought.output as real;
    hide CostOfSold;
    BlendedCost(c1, c2, q1, bought.output);
  }

  lemma BlendedCost(c1: real, c2: real, q1: real, sold: nat)
    requires q1 > 0.0 && sold > 0
    ensures CostOfSold(c1 + c2, sold, q1 + sold as real) == c2 <==> c1 * sold as real == c2 * q1
  {
    var q2 := sold as real;
    var total := q1 + q2;
    DivThenTimes((c1 + c2) * q2, total);
    assert (c1 + c2) * q2 == c1 * q2 + c2 * q2 && c2 * total == c2 * q1 + c2 * q2;
    if c1 * q2 == c2 * q1 {
      CancelRight(CostOfSold(c1 + c2, sold, total), c2, total);
    }
  }

  // A balance that vanished from the chain closes the record but keeps its quantity, so
  // buying the token again counts the vanished tokens once more.
  lemma VanishedQuantityReturnsIff(p: Position, decimals: nat, id: Bytes, baseMint: Mint, tokenDecimals: nat, baseDecimals: nat,
                                   bought: Fill)
    requires p.open && p.remaining.Some? && bought.output > 0 && bought.value.Some?
    ensures var gone := ReconcileWithChain(p, 0, decimals);
      && gone.Ok?
      && var entered := ApplyEntry(Some(gone.value), id, baseMint, tokenDecimals, baseDecimals, bought);
      && entered.Ok? && entered.value.open
      && (entered.value.remaining == Some(bought.output) <==> p.remaining == Some(0) || bought.output == U64_MAX)
  {
  }

  // A balance read from the chain: a closed record is left alone; the quantity on record is
  // matched; an empty balance closes the record and keeps its quantity; other decimals are
  // refused; any other amount is adopted and flagged.  Nothing else moves.
  lemma ReadingMeans(p: Position, amount: u64, decimals: nat)
    ensures var r := ReconcileWithChain(p, amount, decimals);
      && (r.Err? <==>
            p.open && p.remaining != Some(amount) && amount != 0 && p.tokenDecimals.Some? && p.tokenDecimals.value != decimals)
      && (r.Ok? ==>
            var q := r.value;
            && (!p.open ==> q == p)
            && (p.open && p.remaining == Some(amount) ==> q == p.(status := q.status) && q.status.Matched?)
            && (p.open && p.remaining != Some(amount) && amount == 0 ==>
                  q == p.(open := false, status := q.status, currentValue := 0.0) && q.status.ClosedOnChain?)
            && (p.open && p.remaining != Some(amount) && amount != 0 ==>
                  && q == p.(tokenDecimals := q.tokenDecimals, remaining := q.remaining, status := q.status)
                  && q.tokenDecimals == Some(decimals) && q.remaining == Some(amount) && q.status.AdjustedOnChain?))
  {
  }
}
