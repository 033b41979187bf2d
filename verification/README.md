# Trading bot: order life cycle, backtest and collector, verified

A Dafny model of the four parts of the repository whose correctness cannot be read off one
function body:

* **Orders** (`Orders`, `ExitKeys`, `Portfolio`, `Lifecycle`, `Invariants`, `Runs`, `Recovery`,
  `Races`, `Witnesses`, `StepEffects`, `Runtime`, `Emergency`, `Tick`, `Risk`, `Restarts`): the
  persisted order life cycle of the session loop and the exit monitor, with a crash allowed
  between any two persisted steps, the reconciliation that follows it, the position accounting,
  and the risk engine that gates entries. `Lifecycle` is a step relation over a store (orders,
  fills, positions), the chain and the volatile tasks. `Invariants` and `Runs` prove what every
  run keeps; `Recovery` and `Races` state exactly what is and is not recovered, and `Witnesses`
  gives runs from the start to every loss. `Runtime.Session` holds the imperative procedures, each
  proved to be a run of the step relation; `Emergency` and `Tick` are built on them.
* **Backtest** (`Signals`, `Sorting`, `Splits`, `Economics`, `EntryGate`, `ExitWalk`, `Simulation`,
  `Stats`, `Backtest`, `Statistics`): loading, splitting, deciding, walking to the exit, costs,
  statistics, verdict and the composition of all of them.
* **Collector arithmetic** (`FifoLots`, `SwapParser`): the FIFO lot tracker in its Python and Rust
  forms, and the classification of balance changes as swaps.
* **Two protocols** (`AgePager`, `ClaimProtocol`): the bounded backward pager that proves a token's
  age, and the shared signature set between WebSocket handlers and the poller.

Money, prices and lot amounts are reals; atomic amounts are integers bounded like the code's `u64`
and `u32`, with saturation and truncation written out. Answers of the chain, the quote service and
the store are parameters.

## Where the code and its comments disagree

The model follows the code; each disagreement is a theorem.

* `src/runtime.rs:4-6` promises recovery from a crash at any point without duplicate trades. A
  signature is only stored after execution, so a crash before the transaction loses the fill for
  good (`Recovery.CrashBeforeCommitLosesTheFill`). The same quantity can then be sold again exactly
  when no balance reading, before or after the order expired, showed the token gone, and the last
  readable one, if any, showed the old quantity (`Recovery.SameQuantitySellsAgainIff`,
  `Witnesses.SecondSaleIsReachable`).
* A live entry whose transaction failed after its swap can never be reconciled: its position id is
  stored nowhere. It blocks all entries from then on (`Recovery.StuckEntryBlocksAllEntries`,
  `Witnesses.StuckEntryIsReachable`).
* Two tasks over one store: the idempotency key stops a second exit only if the second task read
  the attempt history before the first reservation (`Races.SecondReservationSucceedsIff`). Marks saved
  over another task's exit, two exits from one snapshot, a row failed under its running task and a
  verdict saved over a posted fill each lose or repeat a sale or contradict it, exactly under the
  conditions in `Races`.
* `src/runtime.rs:1888-1893` says untrusted positions are liquidated by their balance on chain. The
  shared exit path refuses them, so they are counted as exited and never sold
  (`Emergency.CountedButNotSoldIff`).
* The entry idempotency key contains an id made for that evaluation, so it never refuses anything
  (`Recovery.EntryIdempotencyNeverRefuses`).
* `src/backtest/engine.rs:298` says MFE/MAE cover the exit. Under the production exit rule this fails
  for every ambiguous trade (`ExitWalk.AmbiguousTradesAlwaysUndercutTheirMae`).
* `src/backtest/engine.rs:210-213` says the favourable outcome is never chosen. An exit candle that
  spans both levels goes unflagged exactly when it is the first (`ExitWalk.SpanningExitIsFlaggedIff`),
  and then books the profit exactly under the condition of `ExitWalk.SpanningTradeTakesProfitIff`.
* The edge that the backtest reconstructs grows with the cost of trading (`Economics.EdgeGrowsWithCost`).
* `src/portfolio/mod.rs:79-108` says a missing quantity or cost is never taken for zero. The lines after
  it take it for zero (`Portfolio.EntryMeans`).
* A position row is reused when a token is bought again, with its old quantity and cost
  (`Portfolio.ReentryRealisesItsCostIff`, `Portfolio.VanishedQuantityReturnsIff`).
* `tools/build_smoke_wallets.py:169,447` says it replicates the Rust parser and tracker. The tracker agrees
  exactly when no lot is partly sold at a cost (`FifoLots.ReplicaAgreesIff`), the choice of a token in
  every iteration order exactly when one movement alone is maximal (`SwapParser.ReplicaAgreesIff`).
* WebSocket and polling are said to be deduplicated against each other. A polled swap can come to
  count twice exactly when it was emitted before, or a handler holds its signature while the channel
  is open (`ClaimProtocol.CountsTwiceIff`).
* The repository's `README.md:28` lists the cooldown after a loss among the controls enforced before
  every entry. No step of a tick asks for one, so it never refuses anything (`Tick.CooldownNeverRefuses`).
* It also lists the daily trade limit. The count is stored after the tick, so k restarts between a
  trade and that write allow k further limits in one day, and never more
  (`Restarts.LimitOverRestarts`, `Restarts.EveryLossAllowsAnotherLimit`).

## Model

| member | source | states |
|---|---|---|
| `Runs.AppliedAtMostOnce` | src/runtime.rs:211-385 | over every run with crashes, each order's fill reaches a position at most once, exactly when its fill row exists, and only for a signed Confirmed order |
| `Runs.QuantityConserved` | src/portfolio/mod.rs:50-240 | over every run, stored quantity = opening quantity + recorded entry outputs - recorded exit inputs + chain adjustments, unless the balance ever left u64 |
| `Runs.TerminalRowsAreFinal` | src/domain/trade.rs:64-148 | in every continuation a terminal order row, its fill row and its application count never change |
| `Runs.RunKeepsInv` | src/runtime.rs:536-828 | the nine-part invariant of the store holds in every state of every run |
| `Invariants.StepKeepsInv` | src/runtime.rs:104-385 | each step of reserve, submit, execute, commit, save, reconcile, adjust and crash keeps the invariant |
| `Invariants.ResolveShape` | src/runtime.rs:104-207 | a reconciler leaves an order alone, fails it, expires it, or posts the fill of an exit; nothing else |
| `Invariants.CommitShape` | src/runtime.rs:697-790 | the transaction posts the fill, or its failure leaves Unknown, or Confirmed if the record in memory had moved on |
| `Runs.StepChanges` | src/storage/state.rs:159-163 | only the task holding an order, or a reconciler within its powers, rewrites a row or adds a fill |
| `Recovery.ExitKeyIsFresh` | src/runtime.rs:587-637 | an exit that passed its guards is never refused as a duplicate, so a retry after a terminal failure gets a fresh key |
| `Recovery.ExitOrderMeans` | src/runtime.rs:603-627 | an exit order asks for the whole trusted quantity, at its worth at the base price, on the position's own id |
| `Recovery.EntryOrderMeans` | src/runtime.rs:1716-1734 | an entry order carries the signal, the fresh position id, the amount and the authorised value |
| `Recovery.EntryIdempotencyNeverRefuses` | src/runtime.rs:1709-1737 | no reachable store holds the key of a new entry |
| `Recovery.ExitsAreSerialAndNumbered` | src/runtime.rs:555-637 | in every run a position has at most one unfinished exit order, and its n-th exit carries attempt n |
| `Recovery.AbandonedForever` | src/runtime.rs:211-385 | an unapplied order that nobody works on and that is unsigned or terminal is never applied in any continuation |
| `Recovery.CrashBeforeCommitLosesTheFill` | src/runtime.rs:4-6 | after a crash between reservation and transaction the fill is never recorded, though the swap may be on chain |
| `Recovery.SameQuantitySellsAgainIff` | src/runtime.rs:411-473 | after such a crash, the expiry rule and any balance readings before and after it, the guards admit a second exit of the same quantity exactly when no reading showed the token gone and the last one with the recorded decimals, if any, showed that quantity |
| `Recovery.ReadingsMove` | src/portfolio/mod.rs:270-305 | any sequence of readings closes a sellable position exactly when one shows nothing while something is on record, and otherwise leaves the last quantity shown with its decimals |
| `Recovery.RestartIsARun` | src/runtime.rs:942-994 | that schedule of crash, readings, expiry and readings is a run of a live session |
| `Recovery.ConfirmedWithoutFill` | src/runtime.rs:730-790 | a transaction failing after the in-memory transition stores Confirmed with no fill, for good |
| `Recovery.ReconcilePostsIff` | src/runtime.rs:211-385 | reconciliation applies the fill exactly for exits whose position can price and absorb the verified amounts |
| `Recovery.ReconciledOnce` | src/runtime.rs:281-310 | when it answers true the fill was not applied before, is applied once now, with the chain's amounts |
| `Recovery.ReconciledSale` | src/runtime.rs:211-310 | the fill carries the chain's amounts and fees, its value is the output at the position's base price and its price that value per token sold, and the position books exactly that sale |
| `Recovery.RecordedEntryMeans` | src/runtime.rs:211-385 | an entry with a position is only kept for audit and failed without a cost model, and posted as that purchase with one |
| `Recovery.AppliedStaysApplied` | src/storage/state.rs:300-317 | a recorded fill stays recorded, unchanged and applied exactly once in every continuation |
| `Recovery.StuckEntryBlocksAllEntries` | src/runtime.rs:97-99 | a signed, executed, unapplied live entry stays so in every run and the entry gate never opens again |
| `Recovery.FailedEntryTransactionSticks` | src/runtime.rs:1843-1853 | one failed transaction of a live entry leads there |
| `Races.SecondReservationSucceedsIff` | src/runtime.rs:561-637 | of two tasks past the same check, the second is refused exactly when both exit for the same reason and it read the attempt history before the first reservation; otherwise two exits are in flight |
| `Races.LateReservationIsRefusedIff` | src/runtime.rs:590-637 | the same for whatever position and whatever length of history the late task read: refused exactly when that history lacks the first row and quantity and reason agree |
| `Races.TwoExitsFromOneSnapshotConserveIff` | src/runtime.rs:703-776 | after both tasks committed an exit of the position they had read before either sold, the store conserves quantity exactly when the first sold nothing |
| `Races.BothAreRecorded` | src/runtime.rs:703-776 | yet both orders are Confirmed, both fills recorded and each applied once |
| `Races.StaleMarkConservesIff` | src/exit_monitor.rs:212-221 | after an exit was posted and a mark of the old position saved over it, the token is conserved exactly when nothing was sold, and every other token always |
| `Races.StaleMarkSellsAgain` | src/exit_monitor.rs:212-221 | the whole quantity is then reserved again under a fresh key |
| `Races.SecondReconcilerPostsAgainIff` | src/runtime.rs:369-373 | a second reconciler with the same row applies the fill again exactly when the position still holds that much |
| `Races.SecondExitWhileFirstRunsIff` | src/runtime.rs:111-140 | a reconciler meeting the row of a running exit admits a second exit exactly when its rule fails unsigned rows of that age and mode |
| `Races.FailedRowSellsAgain` | src/runtime.rs:111-140 | the whole quantity is then reserved again under a fresh key while the first task still runs |
| `Races.RevivedRowLeavesTwoExitsIff` | src/storage/state.rs:159-163 | the first task's next act, in any phase, leaves two exits in flight exactly when it saves Submitted or Unknown over the terminal row, against the transition table |
| `Races.StaleVerdictContradictsTheFillIff` | src/exit_monitor.rs:345-428 | a verdict saved over a fill posted meanwhile leaves a Failed or Expired row beside its applied fill exactly when the reconciler's rule rewrites such a row; the quantity stays right |
| `Witnesses.StuckEntryIsReachable` | src/runtime.rs:1843-1853 | a run from every live initial state, with any fresh ids, to a stuck entry |
| `Witnesses.ConfirmedWithoutFillIsReachable` | src/runtime.rs:730-790 | a run from every initial state to a Confirmed order without a fill that nobody will ever apply |
| `Witnesses.LostSwapIsReachable` | src/runtime.rs:4-6 | a run from every initial state to an abandoned order whose swap is on chain |
| `Witnesses.SecondSaleIsReachable` | src/runtime.rs:104-140 | a run from every initial state with a sellable position to a second exit of a quantity whose first sale is on chain |
| `Witnesses.LossesAreReachable` | src/storage/state.rs:28-58 | the four hold of one concrete store |
| `Orders.HistoryIsShort` | src/domain/trade.rs:64-148 | along every history of successful transitions an order changes state at most three times |
| `Orders.TerminalIsForever` | src/domain/trade.rs:55-148 | a terminal state is every later state |
| `Orders.ConfirmedWasSubmitted` | src/domain/trade.rs:64-148 | never back to Pending; Confirmed only after Submitted or Unknown |
| `Orders.OneMoveIff` | src/domain/trade.rs:64-148 | a move is allowed exactly from a live state on to a later live one, to failed or expired, to confirmed unless pending, or from unknown to reconciled; terminal is exactly what has no move |
| `Orders.ThreeChangesHappen` | src/domain/trade.rs:64-148 | the bound of three changes is reached, and a refused move leaves the record alone |
| `ExitKeys.ExitKeyInjective` | src/runtime.rs:493-505 | for ids of one length two exit keys agree only when every field agrees |
| `Portfolio.PriceFillMeans` | src/execution/executor.rs:29-67 | accepted exactly for usable decimals and a positive leg; the price times what it prices is the value paid, or the output's worth |
| `Portfolio.DecimalsFit` | src/execution/executor.rs:59-67 | decimals are usable up to 19, and nine of them are a billion units |
| `Portfolio.EntryMeans` | src/portfolio/mod.rs:50-182 | accepted exactly for a positive fill with a value; a first purchase opens a trusted position whose base price times the base paid is the cost, a later one adds quantity, cost and fees and keeps the rest, taking what is missing for zero |
| `Portfolio.ExitMeans` | src/portfolio/mod.rs:184-240 | accepted exactly when the position can account for it; books proceeds less fees less the cost share, and nothing else |
| `Portfolio.MarkMeans` | src/portfolio/mod.rs:245-262 | a mark moves the high water and the value of what is left, and nothing else |
| `Portfolio.ReadingMeans` | src/portfolio/mod.rs:270-316 | a balance read from the chain matches, closes, is refused or is adopted, each under its exact condition, and nothing else moves |
| `Portfolio.ExitsTelescope` | src/portfolio/mod.rs:184-240 | however a sale is split, quantity is conserved and realised PnL is proceeds less fees less cost of what was sold |
| `Portfolio.FullExitRealisesEverything` | src/portfolio/mod.rs:184-240 | a position fully sold realises proceeds less its cost less fees and ends closed |
| `Portfolio.ReentryRealisesItsCostIff` | src/portfolio/mod.rs:75-142 | after re-entry the second round trip realises its own cost exactly when unit costs were equal |
| `Portfolio.VanishedQuantityReturnsIff` | src/portfolio/mod.rs:270-305 | tokens that vanished from the chain are counted again on re-entry unless there were none |
| `Runtime.Session.constructor` | src/storage/state.rs:28-58 | a fresh store over given positions is an initial state |
| `Runtime.Session.ReserveOrder` | src/storage/state.rs:127-158 | appends exactly when the key is new, else changes nothing |
| `Runtime.Session.HasInFlightExit` | src/exit_monitor.rs:316-320 | found exactly when an unfinished exit of that position is stored |
| `Runtime.Session.CountExitAttempts` | src/runtime.rs:590-601 | the number of exit orders stored for the position |
| `Runtime.Session.IncompleteOrders` | src/storage/state.rs:164-175 | the unfinished orders, each once, and as many as there are |
| `Runtime.Session.RecordReconciled` | src/runtime.rs:211-385 | true exactly when the store worked and the order is an exit whose position can absorb the verified amounts; then order, fill and position change together, otherwise nothing changes |
| `Runtime.Session.ReconcilePendingOrders` | src/runtime.rs:104-207 | beside running tasks whose rows it spares, every order unfinished at the start ends as its own reply says: posted with its fill exactly for a signed live exit whose executed amounts the position absorbs, failed, expired or left by the exact rule for each; it stops exactly when a due save fails, and the counters agree with the tables |
| `Runtime.Session.ReconcileStaleOrders` | src/exit_monitor.rs:326-428 | the same beside the session's tasks, without stopping, finished rows untouched, and fresh unsigned orders spared even in paper mode |
| `Runtime.Session.ResolveOne` | src/runtime.rs:104-207 | one order ends as the reply says, and nothing but its row, its fill and, for an exit, its token's position is touched |
| `Runtime.Session.CheckExit` | src/runtime.rs:548-609 | ready exactly when every guard holds, and malformed exactly when only the position's id is missing |
| `Runtime.Session.BeginExit` | src/runtime.rs:548-637 | reserves exactly when every guard holds and the key is free |
| `Runtime.Session.CommitTask` | src/runtime.rs:703-790 | order, fill and position together or the recorded failure, as a commit step of the run |
| `Runtime.Session.ExecuteExitOrder` | src/runtime.rs:536-828 | for every answer of the outside world: a run, no task left, one order appended unless skipped, fill posted exactly when Confirmed |
| `Runtime.Session.EnterPosition` | src/runtime.rs:1709-1873 | the same for entries; the reservation never fails as a duplicate |
| `Emergency.ExitAll` | src/runtime.rs:1894-1996 | reports the counted positions, leaves one order for each sold one, and changes no other position |
| `Emergency.CountedButNotSoldIff` | src/runtime.rs:1888-1996 | a counted position is not sold exactly when its quantity is untrusted or zero, or its decimals or id are unusable; an untrusted one never is, whatever its balance on chain |
| `Tick.ProcessCandidate` | src/runtime.rs:1525-1876 | the candidate is entered, with the effect of its own world on the tables and exactly the log the outcome calls for, if and only if it is accepted, quoted, not open, within the cap and admissible in the marked state; otherwise the tables stay; only a store error aborts |
| `Tick.ProcessEntries` | src/runtime.rs:1525-1876 | the candidates one after the other, each so, until a store error |
| `Tick.OneOrderIff` | src/runtime.rs:1733-1840 | one order more exactly for an admitted candidate, and as many trades logged as fills posted |
| `Tick.LoopGrows` | src/runtime.rs:1525-1876 | the first candidate, if admitted, is entered; without an admitted one nothing is |
| `Tick.EntriesOfTick` | src/runtime.rs:1276-1298 | the entry loop runs if and only if there is no emergency stop, an untripped switch and no unfinished order; otherwise tables and log stay |
| `Tick.Observe` | src/runtime.rs:1005-1271 | the log grows by the rollover exactly on a new day, the trip exactly when latched, and the three figures; the switch is tripped exactly if it was, or was latched, or the equity is at or below the threshold |
| `Tick.SessionTick` | src/runtime.rs:1005-1298 | the entry loop runs after that log if and only if this very reading allows it |
| `Tick.CooldownNeverRefuses` | src/risk.rs:173-177 | a log that grew by ticks alone never makes the gate answer that a cooldown is active |
| `Tick.SoundMeansLimited` | src/runtime.rs:1260-1298 | store and engine kept together meet the daily limit, the latch law and single application |
| `Risk.TrippedIff` | src/risk.rs:35-47 | the latch is set exactly when the log holds a forced trip, an equity at or below the threshold, or enough failures without a success between |
| `Risk.StreakIsCounted` | src/risk.rs:249-260 | the counter is the failures since the last success, saturating at u32 |
| `Risk.RiskEngine.ApplyLossCooldown` | src/risk.rs:261-264 | logs the request; like its source it has no caller |
| `Risk.CooldownIsTheLastAskedFor` | src/risk.rs:261-264 | a deadline is set exactly when a cooldown was asked for, and is that of the last request |
| `Risk.TradesStayWithinTheDay` | src/risk.rs:124-187 | if every trade was authorised, the day's count never passes its limit and no trade follows a trip |
| `Restarts.TradesAreRememberedOrForgotten` | src/runtime.rs:1878-1886 | over all restarts of a day, trades made = trades counted + trades forgotten, and each loss forgets at most one limit |
| `Restarts.LimitOverRestarts` | src/runtime.rs:923-931 | with k restarts between a trade and its write the day sees at most k + 1 limits; with none the limit holds |
| `Restarts.CleanRestartKeepsTheWindow` | src/runtime.rs:923-935 | a restart right after the write keeps the day's count and start, and everything else begins anew |
| `Restarts.EveryLossAllowsAnotherLimit` | src/runtime.rs:923-964 | for every limit and every k there is a day with k such restarts and exactly k + 1 limits of authorised trades |
| `Risk.LimitsPassedOnlyByMarking` | src/risk.rs:229-248 | exposure reaches the cap, or open positions their limit, only when the portfolio itself was marked there and nothing traded since |
| `Risk.AuthorisedTradeFits` | src/risk.rs:124-242 | right after an authorised trade all limits hold at once, exposure has grown by its size, and the size was within its share of the equity |
| `Risk.SizeIsValidIff` | src/risk.rs:103-213 | the size check is the documented planned-loss bound |
| `Risk.RiskEngine.Refuses` | src/risk.rs:103-213 | accepts exactly the admissible positions: untripped, positive size and liquidity, count and daily limits, both percentage caps, exposure, slippage and impact, cooldown over, daily loss and planned loss below their limits |
| `Risk.AdmittedIff` | src/risk.rs:124-213 | the ordered checks let in exactly the positions that meet every limit on its own |
| `Risk.RiskEngine.ObserveEquity` | src/risk.rs:224-227 | logs the equity; the log explains every field |
| `Risk.RiskEngine.RecordFailure` | src/risk.rs:252-260 | answers true exactly when the streak reached the limit, and trips |
| `Risk.RiskEngine.RegisterTrade` | src/risk.rs:238-242 | logs the trade; exposure grows by its size |
| `Risk.RiskEngine.RegisterExit` | src/risk.rs:243-248 | logs the exit; exposure stays non-negative |
| `Risk.RiskEngine.StartDay` | src/runtime.rs:1005-1012 | logs the rollover; count cleared, day start is the current equity |
| `ExitWalk.Walk` | src/backtest/engine.rs:396-513 | the loop computes the declarative outcome for every exit rule |
| `ExitWalk.ExitIndexIsLeast` | src/backtest/engine.rs:406-476 | the exit index is the least one where two candles span both levels or the rule fires |
| `ExitWalk.HighWaterIsMaximum` | src/backtest/engine.rs:465-475 | the high water mark is the maximum of the entry and the highs of strictly earlier candles |
| `ExitWalk.ExcursionsAreExtremes` | src/backtest/engine.rs:434-442 | MFE and MAE are the extremes of zero and the returns seen |
| `ExitWalk.NoLookAhead` | src/backtest/engine.rs:406-476 | observations after the exit index cannot change the outcome |
| `ExitWalk.FlagsExclude` | src/backtest/engine.rs:412-513 | never ambiguous and censored; censored exactly when no index ends the walk, and then at the entry price |
| `ExitWalk.ExcursionsBracketTheReturn` | src/backtest/engine.rs:434-513 | MAE <= return <= MFE for every unambiguous trade, and for an ambiguous one exactly when MAE reached the stop |
| `ExitWalk.AmbiguousTradesAlwaysUndercutTheirMae` | src/backtest/engine.rs:298-298 | under the production rule the booked return is below MAE exactly for the ambiguous trades |
| `ExitWalk.ReasonsMatchReturns` | src/strategy/exit.rs:35-72 | the exact condition of each reported reason on the candle the walk ended on: liquidity, stop, target, trailing stop below the high water, time limit, censoring |
| `ExitWalk.RuleMeans` | src/strategy/exit.rs:35-72 | the exact condition of each answer of the rule, and of none |
| `ExitWalk.MinutesMean` | src/backtest/engine.rs:514-530 | whole minutes, toward zero |
| `ExitWalk.HeldCloses` | src/strategy/exit.rs:35-72 | every close the walk went past was liquid, between stop and target, above the trail of every earlier peak, and in time |
| `ExitWalk.FirstCandleIsNeverAmbiguous` | src/backtest/engine.rs:412-431 | ambiguity is flagged exactly at a reached pair of adjacent candles, never on the first alone |
| `ExitWalk.SpansMeans` | src/backtest/engine.rs:217-246 | two candles span both levels exactly when a low of either reaches the stop and a high of either the target |
| `ExitWalk.SpanningExitIsFlaggedIff` | src/backtest/engine.rs:406-431 | an exit candle that alone spans both levels is flagged exactly when it is not the first |
| `ExitWalk.SpanningFirstCandle` | src/backtest/engine.rs:406-513 | a spanning first candle ends the trade unflagged if the rule fires on its close, else the second candle ends it flagged at the stop, and a lone one is censored |
| `ExitWalk.SpanningTradeTakesProfitIff` | src/backtest/engine.rs:210-213 | under the production rule such a trade books the profit exactly when the first close is at the target, above the stop, with healthy liquidity |
| `Economics.CostIsTheSumOfItsParts` | src/economics/cost_model.rs:21-62 | the cost percentage is the sum of the components the expected value subtracts |
| `Economics.CostMeans` | src/economics/viability.rs:50-80 | the round trip charges both legs' rates, both priority fees and two failed attempts; the percentage is of the position |
| `Economics.RequiredWinRateBreaksEven` | src/economics/viability.rs:74-78 | the reported win rate, and no other, makes the net expectation zero |
| `Economics.RequiredWinBreaksEven` | src/economics/viability.rs:79-79 | the required win net of cost, times the payoff ratio, is one loss plus cost |
| `Economics.ReconstructedEdge` | src/backtest/engine.rs:344-361 | the reconstructed edge is (loss + cost) / ratio - haircut |
| `Economics.EdgeGrowsWithCost` | src/backtest/engine.rs:344-361 | of two signals with one payoff the costlier has the better edge, and conversely |
| `EntryGate.AcceptedIsPointInTime` | src/backtest/engine.rs:583-628 | an accepted signal was judged only on data observed by its time |
| `EntryGate.AcceptedIff` | src/backtest/engine.rs:308-657 | a signal is accepted if and only if its data was observed in time, the token is safe and liquid, enough good wallets agree, the costs leave the edge, the score reaches its minimum and there is a price |
| `EntryGate.ScoreMeans` | src/backtest/engine.rs:631-653 | the score is the mean of its six capped parts |
| `EntryGate.EconomicChecksBracketTheCost` | src/backtest/engine.rs:320-637 | the edge threshold is a lower bound on cost, the cost threshold an upper one |
| `EntryGate.DecisionIgnoresTheFuture` | src/backtest/engine.rs:286-298 | price history and recorded forecast have no say in the decision |
| `Simulation.Simulate` | src/backtest/engine.rs:308-577 | the method computes the specified trade or refusal |
| `Simulation.AcceptanceIgnoresTheFuture` | src/backtest/engine.rs:308-577 | acceptance and refusal reason do not depend on history, forecast or exit rule |
| `Simulation.TradeIgnoresTheFuture` | src/backtest/engine.rs:308-577 | replacing everything after the exit index leaves the whole trade unchanged |
| `Simulation.NetPnlIdentity` | src/backtest/engine.rs:155-577 | net PnL is proceeds less stake less each of the eight leg costs once less the expected failed-transaction cost; the net percentage is that PnL over the stake; every cost is broken down as charged, and the exit is that of the walk |
| `Simulation.GrossIsThePriceReturn` | src/backtest/engine.rs:531-547 | the booked gross percentage is the price return |
| `Simulation.TradeShape` | src/backtest/engine.rs:477-547 | at most one exclusion flag; bracketed exactly when unambiguous; censored trades carry no market PnL |
| `Simulation.HoldingTime` | src/backtest/engine.rs:477-513 | time runs forward, the exit time is an observation's, and a time-limit exit was held that long |
| `Splits.ClassifyIsMonotone` | src/backtest/split.rs:89-128 | later records never land in an earlier period, boundaries checked or not |
| `Splits.ClassifyMeans` | src/backtest/split.rs:89-128 | with ordered boundaries each label holds exactly on its configured interval |
| `Splits.ValidateBoundaries` | src/backtest/split.rs:47-75 | the three checks accept exactly the ordered boundaries |
| `Splits.ValidationIsHonouredIff` | src/backtest/split.rs:47-128 | the validation label covers its configured interval exactly when out-of-sample does not start inside it, which the boundary check ensures; the gap is excluded whole in any case |
| `Backtest.Load` | src/backtest/data.rs:109-158 | the kept records in stable time order, and kept + rejected = records |
| `Backtest.ValidateSignal` | src/backtest/data.rs:177-330 | the checks in their order accept exactly the valid records |
| `Backtest.KeptIsValidAndDistinct` | src/backtest/data.rs:113-148 | kept records are valid with distinct (mint, timestamp), and every valid record's key is kept once |
| `Backtest.Prefilter` | src/backtest/data.rs:358-384 | keeps exactly the coherent records, in order |
| `Backtest.SimulateAll` | src/backtest/mod.rs:48-78 | the loop yields the specified trades; trades + excluded + refused = accepted |
| `Backtest.TradesAreOrdered` | src/backtest/mod.rs:44-84 | trades are in time order, rightly labelled, consecutively indexed, and never doubly excluded |
| `Backtest.StagesConcatenate` | src/backtest/mod.rs:102-126 | the trades are train, then validation, then out-of-sample |
| `Backtest.CountsAddUp` | src/backtest/mod.rs:102-171 | in each period usable = total - ambiguous - censored, with no underflow |
| `Backtest.CountSplit` | src/backtest/mod.rs:130-171 | the subtraction counts exactly the usable trades, beside exact totals and exclusions |
| `Backtest.RunBacktest` | src/backtest/mod.rs:25-210 | fails exactly on bad boundaries; else total = malformed + structural + excluded + rejected + trades, and the trades are those of the kept records |
| `Backtest.LoadedNeverHasEmptyHistory` | src/backtest/data.rs:364-371 | the empty-history branch of the prefilter is dead after loading |
| `Backtest.ValidRecordsSkipBranches` | src/backtest/data.rs:177-330 | for loaded records the late-cost and bad-price refusals are dead and staleness means age |
| `Sorting.SortIsSorted` | src/backtest/data.rs:150-151 | sorted, and the same members |
| `Sorting.SortIsStable` | src/backtest/data.rs:150-151 | elements of one key keep their order |
| `Sorting.SortThenSelect` | src/backtest/data.rs:150-151 | sorting a part gives the part of the sorted whole |
| `Stats.MaxDrawdown` | src/backtest/stats.rs:342-361 | the one pass finds the worst loss from a running peak |
| `Stats.WorstIsTheWorstPair` | src/backtest/stats.rs:342-361 | with equity never negative that is the maximum over all earlier/later pairs, within 0 and 100 |
| `Stats.AtMostHundredIff` | src/backtest/stats.rs:342-361 | it is at most 100 exactly when equity never goes negative |
| `Stats.PairsFailBelowZero` | src/backtest/stats.rs:342-361 | a path below zero where pairs and running peak differ |
| `Stats.LongestLosingStreak` | src/backtest/stats.rs:363-374 | the longest contiguous block of results that are not wins |
| `Stats.DecimalSqrt` | src/backtest/stats.rs:719-735 | the loop computes the specified root |
| `Stats.RootIsAccurate` | src/backtest/stats.rs:719-735 | never below the root; up to 225000 it always stops early with 0 <= r*r - v < 10^-20 |
| `Stats.StepsHalve` | src/backtest/stats.rs:727-733 | after the first, Newton steps at least halve |
| `Stats.MedianSplits` | src/backtest/stats.rs:706-717 | at least half the values lie on each side of the median |
| `Stats.VerdictIff` | src/backtest/stats.rs:676-703 | the exact condition of each of the seven verdicts; the fallback is dead |
| `Statistics.ComputeStatistics` | src/backtest/stats.rs:260-470 | drawdown, streak, final equity, mean, median, deviation and error are those of the usable trades in order |
| `Statistics.VarianceMeans` | src/backtest/stats.rs:390-410 | mean times size is the sum, and variance times size less one is the sum of squares less size times squared mean |
| `Statistics.ErrorMeans` | src/backtest/stats.rs:410-418 | the error times the root of the size is the deviation |
| `Statistics.Evaluate` | src/backtest/mod.rs:25-210 | the run with its statistics, overall and per period, and the verdict of its out-of-sample usable trades |
| `Statistics.PositiveIsSignificant` | src/backtest/stats.rs:676-703 | a positive verdict needs five usable trades, a positive mean, and, for up to 225000 trades, mean^2 * n > 1.96^2 * variance up to the accuracy of the root |
| `Statistics.PeriodIsItsOwn` | src/backtest/mod.rs:25-126 | the trades of a period, but for their running number, are those of a run over its own records alone, through deduplication, sorting, filtering and simulation |
| `Statistics.VerdictReadsOnlyItsPeriod` | src/backtest/mod.rs:89-126 | files with equal out-of-sample records get equal returns and one verdict, whatever the other records are |
| `FifoLots.WalletAccumulator.RecordObservation` | tools/build_smoke_wallets.py:475-496 | keeps trades + open lots <= buys + sells, and per token open + matched = bought |
| `FifoLots.WalletAccumulator.RecordSell` | tools/build_smoke_wallets.py:498-545 | the two-phase loop is the specified sale; its still_remaining branch is dead |
| `FifoLots.SellIsConsistent` | tools/build_smoke_wallets.py:475-545 | a sale keeps the amortised bound and the per-token balance |
| `FifoLots.SaleAccounts` | tools/build_smoke_wallets.py:498-545 | takes min(sold, open) tokens and attributes that share of the receipts, all of them when enough was open |
| `FifoLots.OldestFirst` | tools/build_smoke_wallets.py:507-545 | lots go oldest first, whole except perhaps the last, and the tail is untouched |
| `FifoLots.CostConservation` | src/collector/wallet_monitor.rs:195-259 | the Rust tracker conserves cost; the Python one overcounts by the partly sold lot's cost |
| `FifoLots.ReplicaAgreesIff` | tools/build_smoke_wallets.py:447-449 | the two agree exactly when no lot is partly sold at a cost; quantities, receipts and times agree always |
| `FifoLots.CostIsChargedTwice` | tools/build_smoke_wallets.py:540-544 | two half sales of one lot book its cost twice |
| `FifoLots.BookMeans` | tools/build_smoke_wallets.py:507-545 | profit is receipts less cost, and the return that profit over a positive cost |
| `FifoLots.EmptyLotsVanish` | src/collector/wallet_monitor.rs:195-259 | the Rust tracker sells as if lots without tokens were not there |
| `SwapParser.ParseBalances` | src/collector/swap_parser.rs:70-89 | the wallet's tokens, each with its sum clamped to u64 and the decimals of its first entry |
| `SwapParser.SplitDeltas` | src/collector/swap_parser.rs:221-252 | gained and lost hold exactly the non-WSOL movements, one each |
| `SwapParser.ParseSwap` | src/collector/swap_parser.rs:186-354 | a swap is reported exactly in the three cases, names a token whose movement is maximal with its decimals, reports the SOL moved and carries the header and DEX it was given |
| `SwapParser.PrimaryIsMax` | src/collector/swap_parser.rs:267-272 | the dust filter never changes the maximum, and both rules pick a maximal movement |
| `SwapParser.ReplicaAgreesIff` | tools/build_smoke_wallets.py:349-425 | in whatever order either program iterates, the replica names the parser's token exactly when one movement alone is maximal, and the parser names one token under the same condition |
| `SwapParser.CasesAreDisjoint` | src/collector/swap_parser.rs:265-354 | the cases exclude each other, and a movement of exactly the minimum is none of them |
| `SwapParser.SolIsAccountedFor` | src/collector/swap_parser.rs:254-315 | the SOL identity of purchases and sales holds exactly when the amount fits u64 |
| `SwapParser.OrderIsIrrelevant` | src/collector/swap_parser.rs:221-252 | whatever order the hash maps yield, case, direction and amounts are the same |
| `SwapParser.NeverWsol` | src/collector/swap_parser.rs:331-337 | wrapped SOL is never a primary token, so the direction tests of the third case are dead |
| `SwapParser.DetectDex` | src/collector/swap_parser.rs:135-176 | first program the table names other than the placeholder, top-level before inner |
| `AgePager.ProveAge` | src/collector/token_data.rs:74-124 | at most ten pages; fails exactly when a request it made fails, and otherwise answers exactly when something within reach is old enough or a history under 2000 has a time; the age is at least the minimum or the history was read whole |
| `AgePager.AgeIsSound` | src/collector/token_data.rs:110-124 | the age never exceeds the true one and equals it for a history read whole |
| `ClaimProtocol.EachPathAtMostOnce` | src/collector/wallet_ws.rs:235-286 | under every interleaving an event is emitted at most once and polled at most once, and no signature is claimed by nobody |
| `ClaimProtocol.FailureReleases` | src/collector/wallet_ws.rs:247-267 | a failed fetch frees the signature for the next notification |
| `ClaimProtocol.SettledForever` | src/collector/wallet_ws.rs:237-243 | a seen signature nobody works on stays seen and nothing more is emitted for it |
| `ClaimProtocol.PolledIsDeduplicated` | src/collector/wallet_monitor.rs:1070-1075 | polling a signature that no handler claims keeps the WebSocket path off it for good, whoever polled it before |
| `ClaimProtocol.EmittedThenPolledCountsTwice` | src/collector/wallet_monitor.rs:1030-1041 | what was emitted can still be polled |
| `ClaimProtocol.CountsTwiceIff` | src/collector/wallet_monitor.rs:1030-1075 | a polled swap ends up in both lists in some continuation exactly when it was emitted already, or a handler claims its signature and the channel is open |
| `ClaimProtocol.BothOrdersAreReachable` | src/collector/wallet_monitor.rs:1030-1075 | from the start every swap can come to count twice, polled first or emitted first |
| `ClaimProtocol.ClosingStopsEmission` | src/collector/wallet_ws.rs:235-286 | the channel may close at any time, and nothing is emitted after that |

## Left out

- HTTP, WebSocket, SQLite, JSON and TOML handling, logging, the CLI and all display code: I/O; only the step order, the atomicity of a transaction and the answers are kept.
- Hashing: SHA-256 is taken as injective, so a key is its input bytes; UUIDs are fresh 36-byte values.
- Decimal and float rounding, and Decimal or i64 overflow.
- Clocks: whether an order outlived the expiry window is a parameter of each reconciliation.
- Runs.QuantityConserved: speaks of serialised tasks per token; marks saved by the exit monitor over another task's commit, and two tasks on one position, are treated in Races instead, with the exact condition of each.
- Runtime.Session.ReconcilePendingOrders: a pass that meets the row of a running task which its rule would fail is treated in Races.SecondExitWhileFirstRunsIff.
- Runtime.Session.ReconcileStaleOrders: likewise, for an aged unsigned row of a running task.
- Emergency.ExitAll: no other task works on the open tokens meanwhile, and a store error while reading the orders, which ends the pass, is left out.
- Restarts.LimitOverRestarts: one calendar day; the rollover at midnight starts the next.
- Recovery.ReconcilePostsIff: legacy order rows without route metadata, and a live session without a signer key, are not modelled; the code leaves both unresolved.
- A COMMIT that fails after the closure succeeded leaves the SQLite transaction open; it is modelled as a failed transaction.
- The entry price, unrealised PnL, slippage and timestamp fields of positions, and the error text of orders, except the exit reason inside the key.
- Portfolio.ExitsTelescope: the portfolio's methods are functions on the position record here, so update in place and the in-memory copy kept beside the store are not captured.
- Tick.ProcessCandidate: evaluation of the signal, sizing and the quote arrive as parameters, and the in-memory portfolio check is one of them; the wallet feed, the order of candidates and a failing write of the persisted kill switch are not modelled.
- The exit decisions of the session and of the monitor: both reach the store only through the shared exit path, which is modelled for any reason.
- Tick.SessionTick: the exits between the reading and the entries, and what the risk engine logs after them, are not part of it.
- Stats.MedianSplits: the library sort is a function on sequences here, so sorting in place is not captured.
- FifoLots.CostConservation: the Rust tracker appears as a function of the queue only, and its return percentage rounding is left out.
- SwapParser.ParseSwap: JSON access and account-key assembly are left out; the header fields arrive read, and the DEX is a parameter, decided by DetectDex.
- ClaimProtocol.EachPathAtMostOnce: reconnection and endpoint cycling, and rebuilding a wallet's history at startup, are not part of the protocol model.
- AgePager.ProveAge: the history does not change between pages.
- Win rate, profit factor, t, Sharpe and Sortino figures, resampling, concentration and sensitivity functions of the statistics, the performance report and the dataset scripts: they would add only easy members.
