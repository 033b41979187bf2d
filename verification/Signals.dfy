// The historical record of src/backtest/data.rs with the fields that decisions and
// outcomes read.  Times are whole seconds, money and prices are reals.
module Signals {
  import opened Wrappers

  datatype Observation = Observation(
    timestamp: int,
    price: real,
    liquidity: real,
    openUsd: Option<real>,
    highUsd: Option<real>,
    lowUsd: Option<real>,
    closeUsd: Option<real>)

  function High(o: Observation): real {
    if o.highUsd.Some? then o.highUsd.value else o.price
  }

  function Low(o: Observation): real {
    if o.lowUsd.Some? then o.lowUsd.value else o.price
  }

  function Close(o: Observation): real {
    if o.closeUsd.Some? then o.closeUsd.value else o.price
  }

  datatype Market = Market(
    mint: string,
    price: real,
    liquidity: real,
    volatilityPct: real,
    imbalance: real,
    observedAt: int)

  datatype Safety = Safety(
    mintAuthority: bool,
    freezeAuthority: bool,
    top10Pct: real,
    ageSecs: int,
    sellable: Option<bool>,
    routeAvailable: Option<bool>,
    creatorSuspicious: Option<bool>,
    abnormalActivity: Option<bool>,
    liquidityChangePct: Option<real>,
    observedAt: int)

  datatype Wallet = Wallet(address: string, trades: nat, score: real, updatedAt: int)

  datatype CostInputs = CostInputs(
    position: real,
    priorityFee: real,
    swapFeeBps: real,
    slippageBps: real,
    impactBps: real,
    failedRate: real,
    failedCost: real,
    winLossRatio: real,
    avgLossPct: real)

  datatype CostModel = CostModel(observedAt: int, input: CostInputs)

  datatype Signal = Signal(
    timestamp: int,
    mint: string,
    market: Market,
    safety: Safety,
    wallets: seq<Wallet>,
    costs: CostModel,
    position: real,
    expectedGrossPct: real,
    tokenDecimals: nat,
    baseDecimals: nat,
    history: seq<Observation>)
}
