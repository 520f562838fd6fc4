# A verified model of the trading core

This Dafny project models the decision-making parts of the trading bot and proves what they keep over
every run, every interleaving and every input. Prices, amounts and times are exact reals, exchange
rounding is a function that rounds down, and everything outside the code (the exchange, the executor
framework, the event loop, the clock) is an adversary that may do anything at any time.

Each part has a state or value model, a specification function per operation, methods in imperative form where the
source is imperative, proved equal to those functions, and theorems about the functions.

| part | files |
|---|---|
| order refresh of PMM v1 | `ToleranceMatching`, `Sorting` |
| mean-reversion snapshot, barriers and sizing | `MeanReversion`, `ScoreBounds`, `SnapshotInvariance`, `PositionSizing`, `MeanReversionTerms` |
| the single-position controller | `PmmSimple`, `SimpleTerms` |
| the pmm_mister controller: global close, level admission, stops, whole tick | `PmmMisterModel`, `GlobalClose`, `LevelAdmission`, `AdmissionLaws`, `EntryTerms`, `BudgetBound`, `StopProposals`, `StopTerms`, `PmmMister` |
| the order tracker with its one suspension point | `InFlightOrders`, `OrderTracker`, `TrackerLaws`, `TrackerEvents`, `TrackerCompletion`, `TrackerAnnouncements`, `TrackerTerms` |
| XRPL liquidity coroutines | `TriggeredLiquidity`, `LiquidityLocks`, `LiquidityTerms` |
| arbitrage and XEMM controllers | `ArbitrageLimits`, `XemmLevels` |
| collateral | `OrderCandidates`, `BudgetChecker`, `BudgetLaws`, `BudgetTheorems`, `CollateralTerms`, `FeeSchedules` |
| performance report | `Performance`, `PerformanceLaws`, `PerformanceTerms` |
| AMM pricing and arbitrage | `AmmArbitrage` |
| strategy form and its flat YAML files | `FlatYaml`, `FlatYamlLaws`, `StrategyConfig`, `StrategyLaws`, `StrategyAcceptance` |
| reading the end of a log | `TailLines` |
| shared | `Results`, `RealFacts` |

How the pieces fit:

- A run is a sequence of states joined by steps; the step relations leave the environment free. Theorems over
  runs are proved by an invariant that every step keeps.
- A class holds the fields its Python class updates. Its method contracts say that the new state and the result
  are exactly what the specification function gives for the old state.
- The modules whose names end in `Terms`, and `TrackerAnnouncements`, say again what an operation decides, from the
  configuration's own fields and without the operation's own functions: exactly when an order, a stop, an event or a
  file comes out, and with which figures. Their theorems prove the two accounts equal for every input.
- The fill wait of the tracker and the awaits of the liquidity script end a step; whatever is pending may resume
  in any order and at any time, also because a timeout fired.

Some properties one would expect are not quite true of the code. They are stated with the exact condition, or
with a concrete counterexample beside the proved case:

- Several FILLED updates waiting together announce completion once, unless the first to resume leaves the
  exchange order id unknown and a later one brings it; then twice (`CompletionsAlongRun`, `AnnouncedTwice`).
- Fill events report exactly what an order executed if and only if it accepted no fill of a negative amount; such a
  fill changes the executed amount silently (`FillEventsEqualExecuted`, `FillsSinceIntroduction`, and the run
  `NegativeFillIsSilent`).
- Among orders for more than nothing, the budget checker never over-commits a token in a market if and only if no
  token is charged two non-zero fixed fees there (`SafeIffOneFeePerToken`, `RepeatedFeesOvercommit`). A candidate of
  amount zero ties up its fixed fees without any check (`ZeroCandidate`, `ZeroOvercommits`).
- Reading back an edited YAML file gives the updates if and only if no updated key has several lines with a different
  last value (`RoundTrip`; `UpdateLost` is a file where it does not).
- The orders of a pmm_mister tick stay within the allocated budget, whatever the tick, if and only if the minimum skew
  is at most one or the band of base percentages is empty (`BudgetKeptIff`; otherwise
  `SkewAboveOneOverspends` says which ticks spend how much).
- The byte-wise log reader asked for zero lines returns something whenever the file is not empty (`TailLog`).
- The per-level test of the XEMM controller collects booleans and takes the length of that list, so any active
  executor of the side blocks every level of the side; the model does the same.

## Model
| member | source | states |
|---|---|---|
| ToleranceMatching.IsWithinTolerance | controllers/generic/pmm_v1.py:621-644 | the loop over the two sorted lists answers whether some one-to-one pairing of orders with proposals is within tolerance |
| ToleranceMatching.SortedCloseIffPairable | controllers/generic/pmm_v1.py:621-644 | sorted pairing is within tolerance if and only if any pairing is, for non-negative prices |
| ToleranceMatching.SortedPairingSucceeds | controllers/generic/pmm_v1.py:633-644 | the exchange argument: uncrossing a successful pairing step by step ends in the sorted one |
| ToleranceMatching.ListOrderIrrelevant | controllers/generic/pmm_v1.py:633-636 | the decision does not depend on the order in which orders and proposals are listed |
| ToleranceMatching.ExecutorsToRefresh | controllers/generic/pmm_v1.py:538-619 | all aged orders are stopped or none; none exactly when nothing is aged or both sides can still be paired with the proposal |
| ToleranceMatching.AgedIff | controllers/generic/pmm_v1.py:538-560 | an order is aged exactly when active, unfilled and listed for longer than the refresh time |
| ToleranceMatching.SidePricesIff | controllers/generic/pmm_v1.py:560-619 | the prices of a side are those of the orders whose level name starts with it |
| ScoreBounds.Samuelson | controllers/market_making/mean_reversion.py:104-119 | one value's squared deviation is at most (n - 1) / n of the sum of squared deviations, for every list |
| ScoreBounds.SamuelsonIsSharp | controllers/market_making/mean_reversion.py:104-119 | for every window length some closes reach the bound, so it cannot be lowered |
| ScoreBounds.ClosedScoreBounded | controllers/market_making/mean_reversion.py:104-120 | the closed z-score of every snapshot satisfies z squared <= window - 1 |
| ScoreBounds.UnreachableThreshold | controllers/market_making/mean_reversion.py:120-129 | with closed-candle confirmation and an entry threshold beyond that bound no snapshot ever signals |
| SnapshotInvariance.NoLookAhead | controllers/market_making/mean_reversion.py:86-123 | row order and candles not yet closed never change the snapshot, for distinct timestamps |
| SnapshotInvariance.SnapshotScales | controllers/market_making/mean_reversion.py:78-123 | multiplying all prices keeps both z-scores and the signal and scales mean, deviation and range, errors included |
| SnapshotInvariance.BarriersScale | controllers/market_making/mean_reversion.py:139-156 | the same scaling keeps take profit and stop loss and scales the target price |
| PositionSizing.TargetOnProfitSide | controllers/market_making/mean_reversion.py:139-156 | the frozen target is at least (entry z - exit z) deviations to the profit side of the entry |
| PositionSizing.SizingKeepsRewardRisk | controllers/market_making/pmm_simple.py:350-369 | every entry's notional keeps its loss within the cash target over the ratio and both targets above the ratio times that loss, and never exceeds the budget whatever the leverage |
| PositionSizing.EntryIsPassive | controllers/market_making/pmm_simple.py:340-360 | an entry rests on its own side of the book and points towards the mean |
| MeanReversionTerms.SnapshotIff | controllers/market_making/mean_reversion.py:78-130 | a snapshot exists, with these figures and this signal, if and only if the last completed candles are enough, sane, unbroken and recent and disperse enough; figures and bands are stated without divisions |
| MeanReversionTerms.BarriersIff | controllers/market_making/mean_reversion.py:139-165 | barriers exist, and are these, if and only if the entry lies in the signalled band and the frozen target, the volatility stop and the costs pass their limits |
| MeanReversionTerms.OrderIff | controllers/market_making/pmm_simple.py:340-369 | the entry order exists, and is this one, if and only if the book, the resting price, the barriers and the notional pass their limits |
| PmmSimple.Controller.ControlTask | controllers/market_making/pmm_simple.py:65-87 | one control step, in the order dashboard close, fixed target, routine stops, entry |
| PmmSimple.Controller.CloseEverything | controllers/market_making/pmm_simple.py:100-126 | closing stops every active executor, raises the cooldown and asks for a market close only when nothing is live |
| PmmSimple.Controller.StopActionsProposal | controllers/market_making/pmm_simple.py:276-289 | routine stops hit exactly the unfilled active orders whose side is no longer signalled or that are too old |
| PmmSimple.Controller.CanEnterNow | controllers/market_making/pmm_simple.py:291-332 | the scan over executors updates cooldown and candle lock and stops at one in progress |
| PmmSimple.Controller.CreateActionsProposal | controllers/market_making/pmm_simple.py:334-389 | an entry is created only past all gates, and locks the candle |
| PmmSimple.EntryConditions | controllers/market_making/pmm_simple.py:291-332 | an entry is alone in its tick, with every executor finished, nothing held, past the stop-loss cooldown of every stop loss and the ordinary cooldown of every other closed position |
| PmmSimple.OneEntryPerCandle | controllers/market_making/pmm_simple.py:298-332 | a second entry on the same candle needs an unfilled order that closed at least five seconds ago |
| PmmSimple.TickDecision | controllers/market_making/pmm_simple.py:187-202 | stops and entries never mix, routine stops spare filled executors, the market close goes out only when nothing is live |
| PmmSimple.CooldownOnlyGrows | controllers/market_making/pmm_simple.py:100-126 | no tick moves the cooldown back |
| SimpleTerms.CloseTerms | controllers/market_making/pmm_simple.py:100-202 | a requested close or a beaten fixed target stops exactly the live executors, asks for a market close exactly when all are finished, and raises the cooldown to the ordinary one |
| SimpleTerms.StopTerms | controllers/market_making/pmm_simple.py:272-289 | any other tick stops exactly the live, unfilled orders that are too old or whose direction is no longer signalled |
| SimpleTerms.EntryIff | controllers/market_making/pmm_simple.py:291-389 | an entry goes out if and only if every gate is open, each written out, with the stop-loss and the ordinary cooldown of each closed position, and the sizing finds this entry |
| SimpleTerms.CooldownComesFrom | controllers/market_making/pmm_simple.py:100-306 | the cooldown only ever moves to what a close or one closed position asks for |
| PmmSimple.SingleExposure | controllers/market_making/pmm_simple.py:272-389 | over every run at most one executor is not done and the cooldown never decreases |
| GlobalClose.Closer.CheckGlobalTpSl | controllers/generic/pmm_mister.py:392-546 | the in-place phase, side, retry and cooldown updates and the orders of one check |
| GlobalClose.CloseOrderConditions | controllers/generic/pmm_mister.py:415-477 | a close order goes out alone, with nothing active, against the live position, on the captured side, as one of three attempts |
| GlobalClose.TriggerIff | controllers/generic/pmm_mister.py:479-546 | a check starts a close if and only if there is a position, the post-close cooldown is over, and the result reached the take profit or the stop loss with the base percentage at its activation level; then exactly the active executors are told to stop |
| GlobalClose.QuietBand | controllers/generic/pmm_mister.py:504-521 | a result strictly between stop loss and take profit starts nothing |
| GlobalClose.ClosingOutcome | controllers/generic/pmm_mister.py:397-477 | while a close goes on a check waits, or sends the one close order against the live position, or ends the close, and exactly when each |
| GlobalClose.CooldownRaisedIff | controllers/generic/pmm_mister.py:397-447 | the post-close cooldown is raised exactly by a check in an episode whose stops are done, with no live close order, an attempt left and the exchange position gone, and that check ends the episode |
| GlobalClose.QuietCheckMakesProgress | controllers/generic/pmm_mister.py:397-477 | a check that finds nothing active lowers the measure of phase and attempts left |
| GlobalClose.CheckNeverLosesProgress | controllers/generic/pmm_mister.py:397-477 | no check during an episode raises that measure |
| LevelAdmission.AnalyseLevel | controllers/generic/pmm_mister.py:622-718 | the one-pass counts, latest update and extreme price decide exactly whether any executor blocks the level |
| LevelAdmission.MissingLevels | controllers/generic/pmm_mister.py:1007-1016 | the levels of a side that nothing blocks, in order |
| LevelAdmission.ExecutableLevels | controllers/generic/pmm_mister.py:1007-1056 | the position constraints choose the side or sides that may quote |
| AdmissionLaws.OrderWithinShare | controllers/generic/pmm_mister.py:937-954 | the order of a level never spends more than the level's share of the budget, which is not negative |
| LevelAdmission.CreateActionsProposal | controllers/generic/pmm_mister.py:919-984 | the entry orders of one tick |
| EntryTerms.EntryIff | controllers/generic/pmm_mister.py:919-1056 | a level gets an order if and only if nothing blocks it, the position wants its side, and the rounded amount is not zero and realises no loss; its price and amount are written out from spreads, weights, skew and budget |
| EntryTerms.EntriesNeverCross | controllers/generic/pmm_mister.py:937-946 | with non-negative spreads buys lie at or below the reference price, sells at or above it, and wider spreads further away |
| AdmissionLaws.EntryIsAdmitted | controllers/generic/pmm_mister.py:651-683 | an entry's level has no unfilled order, room under its cap, its cooldown over, and every open entry far enough away |
| AdmissionLaws.EntryServesPosition | controllers/generic/pmm_mister.py:1007-1056 | below the minimum only accumulation, above the maximum only reduction, and no reduction priced past breakeven under profit protection |
| AdmissionLaws.OneOrderPerLevel | controllers/generic/pmm_mister.py:919-984 | no level receives two orders in one tick |
| AdmissionLaws.SplitIsExact | controllers/generic/pmm_mister.py:228-240 | the quote amounts of all levels sum exactly to the allocated budget |
| AdmissionLaws.ProposalWithinBudget | controllers/generic/pmm_mister.py:926-954 | the orders of one tick have total notional within the allocated budget, for a skew that cannot exceed one, non-negative weights, positive prices and round-down amounts |
| BudgetBound.BudgetKeptIff | controllers/generic/pmm_mister.py:885-954 | every tick of a configuration with non-negative weights and a positive budget stays within that budget if and only if its minimum skew is at most one or its band of base percentages is empty |
| BudgetBound.SkewAboveOneOverspends | controllers/generic/pmm_mister.py:885-954 | otherwise every tick with nothing listed, the base within its band and exact rounding spends the minimum skew times the budget |
| StopProposals.StopActionsProposal | controllers/generic/pmm_mister.py:986-1003 | the stops of one tick, refreshed first |
| StopProposals.StoppedIff | controllers/generic/pmm_mister.py:720-798 | exactly which executors are stopped: stale unfilled orders and positions held long enough, never one for both reasons |
| StopTerms.StopIff | controllers/generic/pmm_mister.py:720-812 | the same from the configuration's own fields: age, distance from the planned price within the level's tolerance, and effectivization time of the side |
| StopTerms.StopComesFrom | controllers/generic/pmm_mister.py:720-812 | no stop without such an executor, also when ids repeat |
| PmmMister.DetermineExecutorActions | controllers/generic/pmm_mister.py:334-355 | the whole tick: position-mode guard, global close, and otherwise, with a usable reference price, entries and stops |
| PmmMister.GuardsComeFirst | controllers/generic/pmm_mister.py:334-355 | a wrong position mode stops everything, and the close logic runs alone while a close goes on |
| PmmMister.NeverCloseAndEnter | controllers/generic/pmm_mister.py:344-355 | no tick both closes and enters, and nothing enters during a global close |
| PmmMister.NoEntryBesideRefresh | controllers/generic/pmm_mister.py:651-736 | a level that receives an order has no order refreshed in the same tick |
| PmmMister.RunKeepsInvariant | controllers/generic/pmm_mister.py:334-355 | over every run: an active close executor implies the closing phase, no phase implies no side and no attempts, attempts stay within three, and every level stays within its cap with at most one unfilled order |
| PmmMister.EpisodeIsShort | controllers/generic/pmm_mister.py:392-477 | a global close still going on has seen at most three ticks with everything finished, so the fourth ends it, and has sent at most three close orders |
| InFlightOrders.InFlightOrder.UpdateWithOrderUpdate | hummingbot/core/data_type/in_flight_order.py:327-349 | a matching update sets state and missing exchange id, and reports whether either is new |
| InFlightOrders.InFlightOrder.UpdateWithTradeUpdate | hummingbot/core/data_type/in_flight_order.py:351-371 | a trade counts once per trade id and adds its amount |
| OrderTracker.ClientOrderTracker.StartTrackingOrder | hummingbot/connector/client_order_tracker.py:143-144 | a new order becomes active |
| OrderTracker.ClientOrderTracker.RestoreOrder | hummingbot/connector/client_order_tracker.py:153-164 | a saved order returns as active when open, as lost when failed, not at all otherwise |
| OrderTracker.ClientOrderTracker.StopTrackingOrder | hummingbot/connector/client_order_tracker.py:146-151 | an active order moves to the cache and its counter goes; nothing else changes |
| OrderTracker.ClientOrderTracker.FetchOrder | hummingbot/connector/client_order_tracker.py:172-184 | by client id first, else the first active or cached order with the exchange id |
| OrderTracker.ClientOrderTracker.ProcessTradeUpdate | hummingbot/connector/client_order_tracker.py:203-219 | a fill reaches active, cached and lost orders and emits an event when the executed amount grew |
| OrderTracker.ClientOrderTracker.ProcessOrderNotFound | hummingbot/connector/client_order_tracker.py:221-265 | counting, losing an order past the limit, and dropping a lost one |
| OrderTracker.ClientOrderTracker.ProcessOrderUpdate | hummingbot/connector/client_order_tracker.py:267-303 | an update waits for fills, applies, or retires a lost order |
| OrderTracker.ClientOrderTracker.ResumeOrderUpdate | hummingbot/connector/client_order_tracker.py:289-294 | a waiting update goes on with the order as it is by then |
| OrderTracker.ClientOrderTracker.RetireLostOrder | hummingbot/connector/client_order_tracker.py:295-303 | a lost order reaching a final state is forgotten |
| OrderTracker.ClientOrderTracker.TriggerOrderCompletion | hummingbot/connector/client_order_tracker.py:423-439 | the final event in the order cancelled, filled, failed, then out of the active list |
| TrackerLaws.RunKeepsInvariant | hummingbot/connector/client_order_tracker.py:143-303 | in every interleaving the three lists are disjoint, active orders are open, and counters belong to active orders and stay within the limit |
| TrackerEvents.LostOnlyAfterReports | hummingbot/connector/client_order_tracker.py:221-265 | an order is lost only after more not-found reports than the limit, or restored as lost |
| TrackerEvents.FillsAddUp | hummingbot/connector/client_order_tracker.py:203-219 | along every run the executed amount moves exactly with the fill events plus the negative fills that raise none |
| TrackerEvents.FillEventsEqualExecuted | hummingbot/connector/client_order_tracker.py:203-219 | between any two moments the fill events of an order report at least what it executed, and exactly that if and only if no fill of a negative amount was accepted in between |
| TrackerEvents.FillsSinceIntroduction | hummingbot/connector/client_order_tracker.py:143-219 | the same from the call that started or restored the order, on top of what it came with |
| TrackerEvents.NegativeFillIsSilent | hummingbot/connector/client_order_tracker.py:203-219 | a run of two calls in which a negative fill leaves no event |
| TrackerAnnouncements.StepAnnounces | hummingbot/connector/client_order_tracker.py:267-440 | one call raises for an order exactly the events its applied update says, written out from the new state and the order's own fields: created, cancelled, completed, failed, or none |
| TrackerAnnouncements.EventsAlongRun | hummingbot/connector/client_order_tracker.py:267-440 | along a run the events about an order are those its applied updates say, in order |
| TrackerAnnouncements.EventsSinceIntroduction | hummingbot/connector/client_order_tracker.py:143-440 | and from the order's introduction on there are no others |
| TrackerTerms.UpdateTerms | hummingbot/connector/client_order_tracker.py:267-303 | an update does nothing without an id, waits when FILLED comes before the fills, is applied to the order it names, or takes a final lost order off its list |
| TrackerTerms.ApplyTerms | hummingbot/connector/client_order_tracker.py:287-294 | an applied update changes state and missing exchange id of one order and retires it when that makes it final |
| TrackerTerms.NotFoundTerms | hummingbot/connector/client_order_tracker.py:221-265 | which report counts, loses or forgets an order, and what changes then |
| TrackerTerms.TradeTerms | hummingbot/connector/client_order_tracker.py:203-219 | a fill counts once per trade id for any listed order, and only a positive one is announced |
| TrackerTerms.FetchTerms | hummingbot/connector/client_order_tracker.py:172-198 | a listed client id decides, otherwise the first order with the exchange id |
| TrackerCompletion.CompletionsAlongRun | hummingbot/connector/client_order_tracker.py:267-294 | how often completion is announced while only FILLED updates reach an order: once, or twice when the exchange id comes late |
| TrackerCompletion.AnnouncedTwice | hummingbot/connector/client_order_tracker.py:267-294 | a run of five calls that announces completion twice |
| TriggeredLiquidity.XrplTriggeredLiquidity.OnTick | scripts/xrpl_liquidity_example.py:125-145 | which coroutines a tick schedules |
| TriggeredLiquidity.XrplTriggeredLiquidity.OnStop | scripts/xrpl_liquidity_example.py:147-154 | stopping schedules a close when a position is open |
| TriggeredLiquidity.XrplTriggeredLiquidity.Continue | scripts/xrpl_liquidity_example.py:156-440 | one coroutine runs until its next await |
| LiquidityLocks.MutualExclusion | scripts/xrpl_liquidity_example.py:141-416 | in every interleaving at most one opening sequence is in flight, under its flag and with no position open, and at most one removal, also when stopping |
| LiquidityLocks.OnePositionAtATime | scripts/xrpl_liquidity_example.py:196-416 | confirmed adds never outnumber confirmed removals by more than the one open position |
| LiquidityTerms.QuoteIff | scripts/xrpl_liquidity_example.py:156-247 | an opening asks for a quote if and only if the price just read has crossed the target in the configured direction with nothing open; the range is the width around that price |
| LiquidityTerms.OpenedOnTarget | scripts/xrpl_liquidity_example.py:156-286 | in every interleaving liquidity being added or open lies around a price that had crossed the target |
| LiquidityTerms.OpenIff | scripts/xrpl_liquidity_example.py:256-416 | a position opens exactly when an add moved tokens and is gone exactly when a removal did |
| LiquidityTerms.RemoveIff | scripts/xrpl_liquidity_example.py:288-402 | a removal is asked for exactly by a scheduled close or by a monitor that saw the price out of the buffered range for long enough |
| LiquidityTerms.TimerTerms | scripts/xrpl_liquidity_example.py:318-360 | when the out-of-range timer starts, stops and stays |
| LiquidityTerms.TickTerms | scripts/xrpl_liquidity_example.py:125-145 | what a tick schedules, and when it does nothing |
| ArbitrageLimits.ArbitrageController.UpdateArbitrageStats | controllers/generic/arbitrage_controller.py:172-187 | the filter and maximum loops leave the signed count of finished executors, the latest close times and the counts in flight, as functions of the executor list alone |
| ArbitrageLimits.ArbitrageController.DetermineExecutorActions | controllers/generic/arbitrage_controller.py:113-127 | at most one executor per direction, none at the limit or within the delay |
| ArbitrageLimits.DirectionsIff | controllers/generic/arbitrage_controller.py:113-127 | a direction gets an executor if and only if the finished ones differ by less than the limit, the delay has passed since every close, and none is in flight there |
| ArbitrageLimits.Newest | controllers/generic/arbitrage_controller.py:180-183 | the close time is the largest among the finished executors of that direction |
| ArbitrageLimits.ImbalanceBounded | controllers/generic/arbitrage_controller.py:113-127 | over every run the imbalance stays within the limit |
| ArbitrageLimits.LimitIsReached | controllers/generic/arbitrage_controller.py:113-127 | for every limit some run ends with the imbalance exactly at it, on either side |
| ArbitrageLimits.StopsForGood | controllers/generic/arbitrage_controller.py:113-127 | once the limit is met with nothing in flight no executor is ever created again |
| XemmLevels.DetermineExecutorActions | controllers/generic/xemm_multiple_levels.py:146-218 | the two level loops create a whole side or nothing of it |
| XemmLevels.OrdersTerms | controllers/generic/xemm_multiple_levels.py:146-218 | a side quotes if and only if none of its executors is active and the limit is not met; every level then gets its share and its profitability band |
| XemmLevels.HalfPerSide | controllers/generic/xemm_multiple_levels.py:167-180 | a side that quotes commits exactly half of the total quote amount |
| XemmLevels.ImbalanceBounded | controllers/generic/xemm_multiple_levels.py:146-218 | over every run the imbalance overshoots the limit by less than one batch of levels on either side |
| XemmLevels.BoundIsReached | controllers/generic/xemm_multiple_levels.py:146-218 | for every limit and all levels some run reaches the upper bound and some run the lower one |
| CollateralTerms.BuyTiesUp | hummingbot/core/data_type/order_candidate.py:73-127 | a buy ties up its cost in the quote token, the maker or taker percent fee on it in the fee token unless deducted, and the fixed fees, in every token |
| CollateralTerms.SellTiesUp | hummingbot/core/data_type/order_candidate.py:73-127 | a sell ties up its amount in the base token and its fixed fees |
| OrderCandidates.OrderCandidate.ScaleOrder | hummingbot/core/data_type/order_candidate.py:251-268 | shrinking scales amount and collateral but not fixed fees, and clears an order that reaches zero |
| OrderCandidates.OrderCandidate.AdjustForOrderCollateral | hummingbot/core/data_type/order_candidate.py:181-186 | shrink to the order token's balance |
| OrderCandidates.OrderCandidate.AdjustForPercentFeeCollateral | hummingbot/core/data_type/order_candidate.py:188-195 | shrink to the fee token's balance, counting the order when in the same token |
| OrderCandidates.OrderCandidate.AdjustForFixedFeeCollaterals | hummingbot/core/data_type/order_candidate.py:197-232 | the loop over fixed fees, shrinking so that each fits beside the needs in its token |
| OrderCandidates.OrderCandidate.AdjustFromBalances | hummingbot/core/data_type/order_candidate.py:82-88 | the three stages, each skipped for an order of zero |
| BudgetChecker.BudgetChecker.AdjustCandidates | hummingbot/connector/budget_checker.py:38-58 | the results are the candidates fitted in order, the candidates themselves stay untouched, and no lock remains |
| BudgetChecker.BudgetChecker.AdjustCandidateAndLockAvailableCollateral | hummingbot/connector/budget_checker.py:60-80 | what a result ties up is added to the locks |
| BudgetChecker.BudgetChecker.AdjustCandidate | hummingbot/connector/budget_checker.py:82-105 | a copy is fitted to what is free, then zeroed or rounded if it had to shrink |
| BudgetChecker.BudgetChecker.GetAvailableBalances | hummingbot/connector/budget_checker.py:122-146 | balance less locks for every token involved |
| BudgetChecker.BudgetChecker.QuantizeAdjustedOrder | hummingbot/connector/budget_checker.py:148-157 | a rounded amount has its collateral computed afresh |
| BudgetTheorems.AdjustFits | hummingbot/connector/budget_checker.py:82-105 | a checked order fits, fees included, into what is free of every token |
| BudgetTheorems.NeverOvercommitted | hummingbot/connector/budget_checker.py:52-58 | all adjusted orders of a call together stay within the available balance of every token |
| BudgetTheorems.LocksAreTotals | hummingbot/connector/budget_checker.py:122-161 | the i-th candidate sees its balance less exactly what the earlier results tie up |
| BudgetTheorems.UntouchedOrZero | hummingbot/connector/budget_checker.py:98-105 | all-or-none returns a new candidate unchanged or cleared |
| BudgetTheorems.KeptIffItFits | hummingbot/connector/budget_checker.py:82-105 | all-or-none keeps an order exactly when its whole collateral fits token by token |
| CollateralTerms.KeptIffPaidFor | hummingbot/connector/budget_checker.py:82-105 | without fees a buy is kept if and only if its cost is free in the quote token, and a sell if and only if its amount is free in the base token |
| CollateralTerms.GreatestAmount | hummingbot/connector/budget_checker.py:82-105 | an order that may shrink is left with the greatest amount that fits, fees included, into what is free of every token, before rounding |
| BudgetTheorems.ZeroCandidate | hummingbot/core/data_type/order_candidate.py:82-88 | a candidate of amount zero ties up its fixed fees unchecked |
| BudgetTheorems.RepeatedFeesOvercommit | hummingbot/core/data_type/order_candidate.py:197-217 | two positive fixed fees in one token: balances exist under which the kept order exceeds what is free |
| FeeSchedules.SafeIffOneFeePerToken | hummingbot/connector/budget_checker.py:38-58 | for fees that are not negative, no list of orders in a market is ever over-committed, whatever the balances, if and only if no token is charged two non-zero fixed fees |
| FeeSchedules.ZeroOvercommits | hummingbot/core/data_type/order_candidate.py:82-88 | with an empty account and one fixed fee an order for nothing passes and ties up the fee |
| Performance.PositionOrder | hummingbot/client/performance.py:75-93 | takes the first open and the first close order, or changes nothing |
| Performance.PairPositions | hummingbot/client/performance.py:270-283 | the loop ends and pairs the i-th opening with the i-th closing order, as many as both have |
| Performance.DerivativePnls | hummingbot/client/performance.py:131-144 | the profit of all long and short pairs |
| Performance.AggregateOrders | hummingbot/client/performance.py:96-115 | one order per id, in order of appearance, with mean price and summed amount |
| Performance.PerformanceMetrics.PreprocessTrades | hummingbot/client/performance.py:184-209 | the four volumes and the two lists, deducted fees on the sell side |
| Performance.PerformanceMetrics.CalculateTradePnl | hummingbot/client/performance.py:265-285 | paired result for derivatives, value difference otherwise |
| Performance.PerformanceMetrics.InitializeMetrics | hummingbot/client/performance.py:287-321 | the trade result depends on trades and price alone, never on the balances |
| Performance.VolumesMark | hummingbot/client/performance.py:305-321 | volumes valued at any price are signed amounts times the price move since each trade, less deducted fees |
| PerformanceTerms.ResultTerms | hummingbot/client/performance.py:178-321 | the result: what the pairs earn on the closing amounts when a side consists of derivatives, else what each trade earned at the current price less its deducted fee |
| PerformanceTerms.MergedTerms | hummingbot/client/performance.py:96-115 | the fills of one order become one with mean price and summed amount |
| PerformanceLaws.NoOrderTwice | hummingbot/client/performance.py:75-93 | counting repetitions, the pairs use only orders that are there |
| PerformanceLaws.AggregationKeepsSingles | hummingbot/client/performance.py:96-115 | orders with one fill each pass through aggregation unchanged |
| PerformanceLaws.DerivativeAgainstMark | hummingbot/client/performance.py:265-285 | when everything pairs up, marking to market exceeds the paired result by exactly what unequal amounts leave exposed |
| PerformanceLaws.PnlsAgree | hummingbot/client/performance.py:265-285 | with equal amounts per pair the two formulas agree at every price |
| AmmArbitrage.TradeKeepsProduct | scripts/xrpl_arb_example.py:502-549 | trading at the returned price keeps the product of the reserves |
| AmmArbitrage.SplittingIsFree | scripts/xrpl_arb_example.py:502-549 | trading a then b is possible and costs exactly as trading a + b |
| AmmArbitrage.RoundTripIsFree | scripts/xrpl_arb_example.py:502-549 | selling back what was bought restores the pool and refunds the cost |
| AmmArbitrage.BidBelowAsk | scripts/xrpl_arb_example.py:502-549 | the pool sells above spot and buys below it |
| AmmArbitrage.ImpactIsSlippage | scripts/xrpl_arb_example.py:414-500 | the reported impact is the distance between spot and the price actually paid, for buys and sells |
| AmmArbitrage.OneDirectionOnly | scripts/xrpl_arb_example.py:267-302 | with ordered books and non-negative fees both directions are never profitable at once |
| AmmArbitrage.ProposalIsHedgedAndProfitable | scripts/xrpl_arb_example.py:304-348 | the proposal is exactly the hedged trade in the direction whose gain after both fees beats the threshold, and empty when neither does |
| AmmArbitrage.ProposalIsSymmetric | scripts/xrpl_arb_example.py:304-348 | exchanging the two venues mirrors the proposal |
| FlatYaml.ParseFlatYaml | dashboard/strategy_config.py:91-97 | the loop reads every entry line, later lines winning |
| FlatYaml.RenderUpdates | dashboard/strategy_config.py:100-115 | the loop replaces the first line of each updated key and appends the rest |
| FlatYamlLaws.EntryLineReads | dashboard/strategy_config.py:20-21 | a rendered line reads back as its entry |
| FlatYamlLaws.RoundTrip | dashboard/strategy_config.py:91-115 | reading the rendered text gives the old data overridden by the updates, exactly when no updated key has several disagreeing lines |
| FlatYamlLaws.UpdateLost | dashboard/strategy_config.py:91-115 | in a file that sets a key on two lines an update replaces the first and the old value is still read |
| FlatYamlLaws.LinesKept | dashboard/strategy_config.py:100-115 | every other line and comment keeps its place and text; keys without a line follow at the end |
| FlatYamlLaws.RenderTextTwice | dashboard/strategy_config.py:100-115 | rendering is idempotent, for any text |
| StrategyConfig.Editor.ApplyConfig | dashboard/strategy_config.py:160-204 | an error and no write at all, or every edit written in order |
| StrategyAcceptance.AcceptedIff | dashboard/strategy_config.py:160-191 | a payload is accepted if and only if it names every active file once, all of them can be read, every field fits its bounds, and the submitted shared numbers are in order |
| StrategyAcceptance.RelatedIff | dashboard/strategy_config.py:279-296 | the cross checks of a pair compare the numbers of the shared form, whatever the pair |
| StrategyAcceptance.WrittenAs | dashboard/strategy_config.py:232-276 | what is written for a value that fits: one spelling per switch, the option, the integer, the plain decimal |
| StrategyConfig.Editor.WriteEdits | dashboard/strategy_config.py:193-204 | only files whose text changes are written |
| StrategyLaws.ShowIntReads | dashboard/strategy_config.py:245-254 | a normalised integer reads back as itself |
| StrategyLaws.NormalizedClean | dashboard/strategy_config.py:232-276 | every normalised value is trimmed and on one line |
| StrategyLaws.SavedReads | dashboard/strategy_config.py:193-217 | after a save a field reads as the submitted text or number if and only if the file sets it on at most one line or its last line said so already |
| StrategyLaws.SpellingTerms | dashboard/strategy_config.py:207-217 | a text in a file stays exactly when it is the submitted text or the same number |
| StrategyLaws.UpdatedTwice | dashboard/strategy_config.py:193-217 | saving the same values into a text again changes nothing |
| StrategyLaws.EditedFile | dashboard/strategy_config.py:193-204 | an edited file ends up with its updated text |
| StrategyLaws.OtherFile | dashboard/strategy_config.py:193-204 | a file that is not edited keeps its text |
| StrategyLaws.SecondSaveWritesNothing | dashboard/strategy_config.py:160-204 | an accepted payload is accepted again and the second save writes no file |
| TailLines.TailOfFile | hummingbot/cli/bot.py:93-107 | the block-wise reader returns the plain last n lines |
| TailLines.TailLog | dashboard/dashboard.py:119-137 | the byte-wise reader returns the plain last n lines for n of at least one, nothing for a negative n, and for n of zero something unless the file is empty |
| TailLines.SuffixIsEnough | hummingbot/cli/bot.py:93-107 | a suffix with more than n line breaks has the file's last n lines |

## Left out
- Float rounding, Decimal precision and NaN: all arithmetic is exact; square roots and decimal texts are parameters with the property a proof needs.
- PmmMister.RunKeepsInvariant: assumes that a filled executor stays filled while active and that a created executor is listed at the next tick, as the framework does.
- The position fields of pmm_mister (breakeven, base percentage, unrealised result) are inputs of a tick: they are copied from the framework's position record.
- InFlightOrders and OrderTracker hold each order once, under its unique client id, and refer to it by that id from every list and waiting update.
- The tracker's lost-order limit is fixed for a run; lowering it while counters run can leave a counter above it.
- The time-to-live cache of the tracker is an environment step that may drop any cached order at any time, which also covers its size limit.
- Created, filled and failure events of the tracker carry only the id and the amount; prices and fees are passed through.
- Exclusion of an add against a removal in the liquidity script, and the reset of its out-of-range timer after a close: the code does not provide them.
- The wallet of the liquidity script is known from the moment the connector is ready, as both are set together.
- Potential returns and the percent-fee display value of order candidates, and collateral of perpetual orders.
- OrderCandidates.OrderCandidate.AdjustForOrderCollateral: a shortfall against a need of zero, possible only with a negative balance, is an exception in the source and leaves the model's candidate alone, in all three stages.
- Fee totals, averages, ratios and return percentages of the performance report; the in-place overwrite of a first fill matters only to the fee totals.
- The order amounts and gas prices of the arbitrage controller; whether a rate was found is an input.
- PMM v1 beyond refreshing: inventory skew, price bands and the delay after a fill would add easy members.
- Type checks of the JSON payload, the manifest of active files, and display data of the strategy form; line breaks other than the newline character.
- Status formatting, network and file access, processes, keystore, and controllers whose substance is in indicator libraries.
