# Verified models of the trading engine

This project models the parts of the trading engine whose correctness is hardest to see from any one function, and proves
properties of the models with Dafny. `dafny verify dfyconfig.toml` checks all of it. The files fall into three groups.

**The life of a position.** `PositionTracker` is the shared symbol map, first as functions on maps (`TrackerSpec`), then as a
class whose methods equal those functions. `Lifecycle` runs any number of openings against arbitrary calls of every other user of
the tracker, one suspension at a time, and shows that reservations are released only by their owner and how every order settles,
sent directly or in slices by the planner; `OpeningFates` says what one opening comes to, answer by answer. `StopProtection`
interleaves trailing-stop replacement with the monitor, which refreshes the stop after an averaging-down fill and closes expired
positions; `StopPasses` says what each of them does undisturbed. `TrailingStop` says where the next stop level comes from and when
a run can move it back. `UserEvents` applies order updates. `LossManager` is the averaging-down record machine, over whole
evaluations and whichever positions follow one another on a symbol. `SizingPolicy`, `OrderCap`, `Exposure` and `Admission` are the
gates in front of an opening and what they keep over a run of openings and closings. `ClientOrderIds`, `TakeProfitReconciler` and
`TakeProfitTheory` are the budgeted take-profit cycle, its order ids and its progress. `ExecutionPlanner` sends a market order in
slices from a plan in the database.

**The parameter search.** `ParameterSpace` builds the constrained grid, counts it with pruning and a cap, and widens steps in
place; `GridTheory` and `ClampTheory` relate the count, the grid and the clamped grid. `PlateauFinder` and `PlateauTheory` are the
neighbourhood search on the scored grid; `BacktestGate` joins clamping, building, scoring and searching. `Ordering` holds the
lists and counting shared by these, `Common` the vocabulary shared by all.

**Fast forms against simple ones.** `BacktestEngine` (streaming statistics against their offline definition, no look-ahead),
`PrefixCache` (cached sums against direct means), `Pagination` (backward paging against the server's history), `WalkForward`
(folds against the window), and `ModelPublisher` (a publish across tables and files with any step failing).

Modelling choices: `double` is `real`, so rounding, NaN and infinities do not occur; `int` is unbounded except where a width
decides a branch (the 32-bit limit on step counts and on interval numbers, the 64-bit limits on base-36 numbers). Every port call
(orders, account, planner, clock, database statement, file operation) is an arbitrary input of the step that makes it. A failed
exchange call has no effect, unless a lemma says otherwise. Epsilons of 1e-9 and 1e-12 around floor, ceiling and comparisons are
dropped, apart from the planner's 1e-12, the tracker's quantity epsilon and the flat-position epsilon of 1e-10, which decide
branches of their own. Easy members (the tracker's remaining setters, how slices and folds lie apart, the target price of a single
order, columns of one row, the break-even fallback) are helpers without rows of their own.

## What the proofs found

Where the code and its comments disagree the models follow the code.

- `clampToBudget` may accept a grid over budget when constraints exist, although src/backtest/parameter_space.h:51-53 says that
  true means the ranges fit: the counter cuts a range's value list by the remaining cap before constraints filter it
  (`ClampTheory.AcceptedGridOverBudget`). An accepted grid exceeds the budget exactly when the counted points and those cut off
  together do, and the count is the grid size exactly when no cut leads to a grid point (`ClampTheory.VerdictVersusGrid`). At the
  largest budget nothing is ever rejected (`ClampTheory.LargestBudgetAcceptsAll`), and two unconstrained lists of 65536 values are
  accepted wrongly (`ClampTheory.LargestBudgetWronglyAccepts`). The branch of the loop that restores a step is never taken.
- Walk-forward in-sample slices absorb earlier out-of-sample slices (`WalkForward.LaterInSampleAbsorbs`), contrary to
  src/backtest/walk_forward.cpp:74-76 and src/backtest/walk_forward.h:43-44; what holds is that no fold trains on its own or a
  later fold's out-of-sample bars (`WalkForward.TrainsOnlyOnThePast`).
- An order sent through the execution planner that stops after at least one accepted slice is reported as an error, and the opening
  drops its entry: that part stays on the exchange, untracked (`Lifecycle.PlannedOrderSettles`, `Lifecycle.PartialPlanIsLost`).
- `refreshStopLossAfterDca` records its stop without looking whether the symbol still holds the same position (nothing stands before
  src/engine/loss_manager.cpp:520). The recorded stop of a guarded position is its own exactly when its last recording was not a
  refresh begun for another position (`StopProtection.RecordIsOwn`, `StopProtection.RefreshRecordsOwn`); a run that ends with a dead
  recorded stop and everybody idle is `StopProtection.DeadRecordReached`.
- The time exit takes any answer to its close for a success (src/engine/signal_engine.cpp:2459). After a rejected close it cancels
  the stop and drops the entry of a position the exchange still holds (`StopProtection.ExpiryPass`,
  `StopProtection.RejectedCloseAbandons`), and once recovered from a snapshot that position never gets a stop again
  (`StopProtection.RecoveredStaysNaked`). Apart from this no interleaving leaves a guarded position without a live stop
  (`StopProtection.AlwaysProtected`, `StopProtection.GuardLasts`).
- A position tracked without a live stop is not protected later, contrary to src/engine/signal_engine.cpp:1855-1861: trailing
  alone can come to record a stop exactly when it is enabled and either the recorded stop is live or there is neither a stop nor a
  level (`StopProtection.TrailingReplaces`, `StopProtection.FailedStopIsNeverReplaced`).
- A loss-manager record is kept by symbol: a position opened between two evaluations inherits it, original quantity and all
  (`LossManager.ReopenedInheritsRecord`), and a position missing from one snapshot starts anew
  (`LossManager.UnreportedForgetsCount`). The maximum is one of orders on a record, not of orders for a position; whether another
  order may come is decided by the record exactly (`LossManager.AnotherOrder`, with `LossManager.MaximumIsPassed` for a position
  past its maximum and `LossManager.RecoveredMayOrder` for a recovered one).
- Stop protection rests on a failed cancel having no effect (`StopProtection.LostAnswerLeavesNoStop`).
- The exposure gate predicts the next measurement exactly only when the account reports nothing else for the symbol
  (`Admission.ForecastExact`, `Admission.NetForecastExact`), and closing a hedge may leave the net limit
  (`Admission.NetAfterClosing` says exactly when, `Admission.ClosingBreaksNet` gives a portfolio).
- A plan stopped by a wrong side or an unreadable quantity leaves its later slices pending; every other way of stopping
  revokes them (`ExecutionPlanner.LeftPending`). Status updates that fail are only logged, so an accepted slice can end as revoked
  (`ExecutionPlanner.AcceptedButRevoked`).
- Publishing a run id that the table already has for another model leaves that row's model columns as they were
  (`ModelPublisher.RunRowNamesModel`). Two models that share a manifest path take it from each other
  (`ModelPublisher.WholeUntilTaken`).
- Paging from a signal time that is not on the server's grid returns one bar too few (`Pagination.WindowIsComplete` gives the
  exact condition).
- The prefix cache does not notice a bar rewritten in place (`PrefixCache.RewrittenBarIsMissed`; `PrefixCache.ExactAfter` gives
  the exact condition).
- The backtest does not stop at ruin: the drawdown exceeds 1 exactly when equity falls below zero
  (`BacktestEngine.RuinExceedsOne`).

## Model

| member | source | states |
|---|---|---|
| PositionTracker.Tracker.LoadFromSnapshot | src/engine/position_tracker.cpp:9-32 | the map is rebuilt from the non-flat reports alone, the last report of a symbol winning |
| PositionTracker.Tracker.Reserve | src/engine/position_tracker.cpp:34-49 | succeeds exactly on a non-empty symbol without an entry, and then adds one in-flight entry and nothing else |
| PositionTracker.Tracker.CommitReserved | src/engine/position_tracker.cpp:51-60 | succeeds exactly on an entry in flight, which becomes the given position, no longer in flight |
| PositionTracker.Tracker.AddRecovered | src/engine/position_tracker.cpp:72-87 | never replaces an entry; a new one is marked recovered and stamped if it carries no stamp |
| PositionTracker.Tracker.RemoveIfOpenedAt | src/engine/position_tracker.cpp:94-105 | removes exactly the entry carrying the stamp |
| PositionTracker.Tracker.RemoveByExitOrderClientId | src/engine/position_tracker.cpp:142-151 | removes one entry the order belongs to, and reports failure exactly when there is none |
| PositionTracker.Tracker.ApplyExitFillByClientId | src/engine/position_tracker.cpp:153-170 | takes the fill off one entry the order belongs to, removing it when nothing is left; no effect on non-positive fills |
| PositionTracker.Tracker.All | src/engine/position_tracker.cpp:129-140 | lists exactly the entries not in flight |
| PositionTracker.Tracker.Expired | src/engine/position_tracker.cpp:112-127 | lists exactly the settled entries with a maximum hold that has run out |
| PositionTracker.Tracker.UpdateStopLoss | src/engine/position_tracker.cpp:181-198 | records the stop exactly on an entry that exists and is not in flight, whatever position it holds by now |
| Lifecycle.Reachable | src/engine/signal_engine.cpp:1713-2166 | in every reachable state each opening in progress owns exactly one in-flight entry, each in-flight entry is owned, and each finished opening left the tracker as it should |
| Lifecycle.OnlyTheOpenerReleases | src/engine/signal_engine.cpp:1713-2166 | after any run, no step of any other actor changes the reservation of an opening in progress |
| Lifecycle.CommitNeverFails | src/engine/signal_engine.cpp:2148-2163 | the commit that ends an opening always succeeds and leaves the committed position in the tracker |
| Lifecycle.NothingLeaks | src/engine/signal_engine.cpp:1713-2166 | when all openings have ended no entry is in flight, and no symbol is ever being opened twice |
| Lifecycle.AcceptedOrdersSettle | src/engine/signal_engine.cpp:1713-2166 | an accepted market order ends tracked and not in flight, or verified flat and untracked; an order not accepted leaves no entry, and nothing open if it was sent directly, or the slices accepted before the planner stopped |
| Lifecycle.PlannedOrderSettles | src/engine/signal_engine.cpp:1759-1776 | composed with the planner's loop: something is open on the exchange without an entry exactly when the planner stopped after at least one slice, and the entry is kept exactly when all slices went through |
| Lifecycle.PartialPlanIsLost | src/engine/signal_engine.cpp:1759-1766 | a two-slice order called off after its first slice ends that way |
| Lifecycle.StaleRemovalIsPrecise | src/engine/position_tracker.cpp:94-105 | a removal by a stamp seen earlier never hits an entry that is being opened |
| Lifecycle.OthersAct | src/engine/position_tracker.cpp:72-198 | on an entry that is not being opened the other callers act in full: amendments, exit fills, removals by the stamp they saw, and recoveries |
| Lifecycle.ClosesWithoutTakeProfit | src/engine/signal_engine.cpp:2046-2110 | before an opening sends its emergency close, and until it has ended, the take-profit it placed has been asked to be cancelled |
| OpeningFates.OwnAnswersDecide | src/engine/signal_engine.cpp:1713-2166 | however openings and other callers interleave, an opening stands where its own answers alone have brought it |
| OpeningFates.FactsDecide | src/engine/signal_engine.cpp:1713-2166 | in every run an opening is asked for its answers in the stated order and ends as they decide: nothing kept without an accepted order, tracked with both legs standing, after a failed leg gone exactly when its close is accepted and found flat, its take-profit left standing only beside a tracked position, its ids those it generated |
| StopProtection.AlwaysProtected | src/engine/signal_engine.cpp:2436-2620 | under every interleaving of trailing, refresh and expiry a guarded position the exchange holds has a live stop placed for it, except between expiry's cancel of its stop and the removal of its entry |
| StopProtection.GuardLasts | src/engine/signal_engine.cpp:2436-2620 | protection lasts as long as the position is tracked, and its last live stop goes in exactly two ways: expiry cancels it, or trailing takes its replacement back after expiry cancelled the recorded one |
| StopProtection.ExpiryPass | src/engine/signal_engine.cpp:2444-2495 | run to its end without interruption, an expiry drops the entry and leaves the position on the exchange exactly when its close was rejected |
| StopProtection.DroppedWhileHeld | src/engine/signal_engine.cpp:2444-2495 | whatever ran in between, a removal by expiry drops the entry of a held position exactly when it is the same position and the close was not accepted |
| StopProtection.RejectedCloseAbandons | src/engine/signal_engine.cpp:2444-2495 | one rejected close leaves a position on the exchange without stop and without entry |
| StopProtection.RecoveredStaysNaked | src/engine/signal_engine.cpp:2331-2392 | a position recovered from a snapshot never gets a stop, whatever happens next |
| StopProtection.RecordedStopIsLive | src/engine/loss_manager.cpp:429-532 | when neither actor holds an unrecorded stop, a recorded stop placed for a held position is live unless expiry has just cancelled it |
| StopProtection.RefreshRecordsOwn | src/engine/loss_manager.cpp:506-532 | the refresh's recording gives the present position a stop of its own exactly when it is still the position the refresh began with |
| StopProtection.RecordIsOwn | src/engine/loss_manager.cpp:429-532 | after any run the record of a guarded position names a stop of its own exactly when its last recording was no refresh begun for another position |
| StopProtection.IdleRecordIsLive | src/engine/loss_manager.cpp:429-532 | with both actors idle, the recorded stop of a guarded and held position is its own and live exactly under that condition, and so whenever no position was opened under a suspended refresh |
| StopProtection.DeadRecordReached | src/engine/loss_manager.cpp:506-532 | a run after which both actors are idle and the recorded stop of a guarded, held position is dead |
| StopProtection.StaleRefreshMisrecords | src/engine/loss_manager.cpp:506-532 | a position committed just before a refresh records ends up with its predecessor's stop exactly when that refresh was past its cancel |
| StopProtection.TrailingReplaces | src/engine/signal_engine.cpp:2501-2620 | trailing alone can give a position a live stop of its own exactly when it is enabled and the recorded stop is live, or neither stop nor level is recorded |
| StopProtection.FailedStopIsNeverReplaced | src/engine/signal_engine.cpp:1855-1910 | a position tracked without a live stop gets one from trailing exactly when trailing is enabled and it records neither id nor level |
| StopProtection.TrailingAdvances | src/engine/signal_engine.cpp:2516-2620 | under every interleaving the level trailing records beats the one it started from, and the recorded one unless a refresh replaced that |
| StopProtection.LostAnswerLeavesNoStop | src/engine/signal_engine.cpp:2582-2604 | if a cancel takes effect but reports failure, the rollback leaves a guarded position without any stop |
| StopPasses.TrailPassEnds | src/engine/signal_engine.cpp:2501-2620 | an undisturbed trailing pass places a stop exactly at a level that advances; it takes the place of the recorded one, or is taken back when that cannot be cancelled; nothing else changes |
| StopPasses.RefreshPassEnds | src/engine/loss_manager.cpp:429-532 | an undisturbed refresh of a position with a known stop and a level records a new stop, the old one left beside it exactly when it cannot be cancelled |
| StopPasses.ExpiryRunEnds | src/engine/signal_engine.cpp:2436-2495 | an undisturbed expiry drops the entry unless its close goes unanswered, cancels the stop unless the position was seen flat, and only an accepted close ends the position |
| StopPasses.Overtaken | src/engine/signal_engine.cpp:2436-2620 | an actor whose position is no longer the tracked one leaves no trace at its next look, except the refresh, which records all the same |
| TrailingStop.LatestConfirmedSwing | src/engine/trailing_stop_controller.cpp:84-136 | finds the last bar strictly beyond its neighbours on both sides, or shows there is none |
| TrailingStop.LastCandlesExtreme | src/engine/trailing_stop_controller.cpp:59-71 | the lowest low (short: highest high) of the last closed candles there are |
| TrailingStop.Evaluate | src/engine/trailing_stop_controller.cpp:11-82 | a level comes out exactly when the closed candles propose one that is favourable |
| TrailingStop.ProposedPrice | src/engine/trailing_stop_controller.cpp:11-136 | in prices: the low of the last swing low or the lowest of the last lows for a long position, the high of the last swing high or the highest of the last highs for a short one, with trailing enabled on an interval |
| TrailingStop.LevelIsBestMet | src/engine/trailing_stop_controller.cpp:138-152 | over any run the recorded level is the best one met since it was last put in place, by the opening or by a stop refresh, and stays as it was put exactly while none was met |
| TrailingStop.LevelNeverRetreats | src/engine/trailing_stop_controller.cpp:138-152 | proposals never move a set level against the position, whatever levels were put in place before |
| UserEvents.OnOrderUpdate | src/engine/signal_engine.cpp:2623-2660 | a fill of a tracked exit order changes its entry and starts no cooldown; any other reduce-only fill starts one and changes nothing |
| UserEvents.FillsAreConserved | src/engine/position_tracker.cpp:153-170 | after any list of partial fills the quantity is the original less their sum, and the entry is gone exactly when that leaves nothing |
| LossManager.Manager.ProcessTrackedPosition | src/engine/loss_manager.cpp:120-197 | one cycle on one position: the record afterwards is the specified one, and an untracked position has none |
| LossManager.Manager.EraseUntracked | src/engine/loss_manager.cpp:95-107 | keeps exactly the records of tracked symbols |
| LossManager.Manager.Evaluate | src/engine/loss_manager.cpp:88-118 | one evaluation over all tracked positions: the records afterwards are the specified ones |
| LossManager.OrdersAtPrice | src/engine/loss_manager.cpp:139-191 | a cycle records an order exactly when one is left, none is pending, the gates let it through, and the mark price lies at or beyond the price at which the leveraged loss reaches the threshold |
| LossManager.BreakEvenAtPrice | src/engine/loss_manager.cpp:180-197 | without an order, the take-profit is moved exactly when the mark price lies at or beyond the break-even threshold's price, no current one is in place and the exchange takes it |
| LossManager.RecordIsSpan | src/engine/loss_manager.cpp:88-118 | over any run of evaluations a symbol's record is what the cycles since it was last dropped make of a fresh one, whichever positions they were about |
| LossManager.OrdersAreAccountedFor | src/engine/loss_manager.cpp:139-191 | over any cycles of one record count plus pending never exceeds the maximum, recorded orders equal the count gained plus pending, and a record started by a recovered position gets none unless allowed |
| LossManager.RecordsAreAccountedFor | src/engine/loss_manager.cpp:88-191 | the same of every record of every run of evaluations, positions following one another on its symbol included |
| LossManager.AnotherOrder | src/engine/loss_manager.cpp:139-191 | after any run of evaluations a position may get another order exactly when it can trade and the symbol's record, whoever started it, has orders left, or there is none and it may be averaged down |
| LossManager.RecoveredMayOrder | src/engine/loss_manager.cpp:139-191 | a recovered position that may not be averaged down may get an order exactly when its record was started by one that may, and has orders left |
| LossManager.OrdersPerRecord | src/engine/loss_manager.cpp:88-191 | over any run a position gets at most the maximum on each record its symbol has had |
| LossManager.MaximumIsPassed | src/engine/loss_manager.cpp:88-191 | a position that has had just its maximum, alone on its present record, may get another order exactly when it can trade and an earlier record was dropped with orders of its own |
| LossManager.ReopenedInheritsRecord | src/engine/loss_manager.cpp:95-145 | such a run for the recovered: in place of a larger one between two evaluations, it gets an order of the larger one's size; with an evaluation in between it gets none |
| LossManager.UnreportedForgetsCount | src/engine/loss_manager.cpp:109-114 | such a run: missing from one snapshot, a position loses its record, and the one order allowed is placed twice |
| LossManager.PositionStaysBounded | src/engine/loss_manager.cpp:328-426 | with exact fills only, the position that started its record never exceeds (1 + maximum) times its original quantity |
| LossManager.PositionOnAnyRecord | src/engine/loss_manager.cpp:328-426 | on any record a position exceeds the size it was met at by at most the maximum times the record's original quantity, which keeps the promised bound exactly when no order is allowed or that quantity is at most its own size |
| SizingPolicy.CalculateSize | src/engine/sizing_policy.cpp:8-44 | the quantity is positive exactly when some whole number of steps lies between minimum and maximum notional, and is then the most within the risk target, else the fewest reaching the minimum; the two flags say exactly when minimum and maximum decided |
| SizingPolicy.StopOutLosesRisk | src/engine/sizing_policy.cpp:15-17 | a move of the stop distance against the risk quantity loses exactly the risk capital |
| OrderCap.SumOpenNotional | src/engine/order_cap_controller.cpp:91-125 | the total of the book that keeps each symbol's largest notional |
| OrderCap.BookMeaning | src/engine/order_cap_controller.cpp:91-118 | the book has exactly the symbols reported live or tracked, each at the largest notional seen |
| OrderCap.CheckOrder | src/engine/order_cap_controller.cpp:26-72 | blocks exactly when enabled and the total with a positive proposal exceeds the cap; a non-positive percentage fails |
| OrderCap.RecordingRaises | src/engine/order_cap_controller.cpp:91-125 | recording a position raises the total by at most its own notional and never lowers it |
| OrderCap.FewerTotalLess | src/engine/order_cap_controller.cpp:91-125 | a subset of the tracked positions, in any order, never totals more |
| Exposure.ComputeMetrics | src/engine/exposure_controller.cpp:140-166 | one pass yields the signed and the absolute sum of the beta-weighted notionals |
| Exposure.NotionalOf | src/engine/exposure_controller.cpp:111-138 | the first live report of the symbol decides, else the tracked size |
| Exposure.Check | src/engine/exposure_controller.cpp:25-61 | decides on the measured net and gross against limits scaled by the balance; without direction, balance or size everything passes |
| Exposure.DecidedBy | src/engine/exposure_controller.cpp:168-217 | refused exactly past the gross maximum or at the hard limit; scaled down exactly when the deviation grows, to the soft limit or beyond; the factor falls evenly from 1 there to 0 at the hard limit |
| Exposure.ScaleIsFraction | src/engine/exposure_controller.cpp:206-214 | the scale factor is positive, at most 1, and 1 exactly at the soft limit |
| Exposure.ClosingLowersGross | src/engine/exposure_controller.cpp:140-166 | removing a position never raises gross exposure |
| Admission.Preflight | src/engine/signal_engine.cpp:1444-1566 | blocked at sizing exactly when no size is allowed; any other request is answered by the first gate that refuses, and admitted exactly when all let some size through, at that size |
| Admission.SizedUnique | src/engine/signal_engine.cpp:1444-1476 | of the allowed sizes only one is best, so the gates' answer is unique |
| Admission.AdmittedShare | src/engine/signal_engine.cpp:1546-1566 | the admitted notional is positive, within the sizing limits, and no more than what the gates saw |
| Admission.AdmissionKeepsLimits | src/engine/signal_engine.cpp:1478-1566 | recording an admitted position leaves total within the cap, gross within its maximum, net inside the hard limit, whatever the portfolio was |
| Admission.HalfwayHalves | src/engine/exposure_controller.cpp:202-216 | a scaled-down request is halved exactly when it would carry the deviation halfway from the soft to the hard limit |
| Admission.HalfwayIsHalved | src/engine/signal_engine.cpp:1546-1566 | such a request, admitted at half its size in whole steps |
| Admission.SnapshotChangesNothing | src/engine/exposure_controller.cpp:111-166 | a snapshot that catches up with the tracked positions raises no total and moves no exposure |
| Admission.GrowthKeepsLimits | src/engine/loss_manager.cpp:342-371 | an averaging-down order both gates let through keeps cap and gross however much of it is filled, and net when filled whole or inside before |
| Admission.RunKeepsLimits | src/engine/signal_engine.cpp:1478-1566 | over any run of admissions, averaging down, closings and such snapshots cap and gross hold from the first order on, and net holds from each admission to the next closing |
| Admission.ForecastExact | src/engine/exposure_controller.cpp:111-138 | the gross forecast equals the next measurement exactly when beta is zero or the measured notional is the admitted one |
| Admission.NetForecastExact | src/engine/exposure_controller.cpp:111-138 | so does the net forecast |
| Admission.NetAfterClosing | src/engine/exposure_controller.cpp:140-166 | closing takes exactly the position's exposure out, so the net limit survives exactly when the deviation left is inside it |
| Admission.HedgesMatter | src/engine/exposure_controller.cpp:140-166 | it survives every closing of an exposure that points the way of the deviation and is at most twice as large |
| Admission.ClosingBreaksNet | src/engine/exposure_controller.cpp:140-166 | a portfolio in which closing a hedge takes the net deviation past the hard limit |
| ClientOrderIds.ToBase36 | src/engine/take_profit_reconciler.cpp:94-111 | prints the shortest lower-case base-36 digits |
| ClientOrderIds.FromBase36 | src/engine/take_profit_reconciler.cpp:113-138 | succeeds exactly on non-empty alphanumeric text whose number fits in 64 bits, and returns that number |
| ClientOrderIds.ValueOfDigits | src/engine/take_profit_reconciler.cpp:94-138 | reading what was printed returns the number |
| ClientOrderIds.DigitCount | src/engine/take_profit_reconciler.cpp:94-111 | at most n digits exactly below 36 to the n |
| ClientOrderIds.NormalizeSymbol | src/engine/take_profit_reconciler.cpp:168-191 | the first twelve usable characters, upper-cased; truncated exactly when the twelfth is not the symbol's last character |
| ClientOrderIds.MakeId | src/engine/take_profit_reconciler.cpp:216-261 | an id exactly for symbols with a usable character, in the five-field layout |
| ClientOrderIds.OrderTimeMs | src/engine/take_profit_reconciler.cpp:140-161 | finds a time exactly when the id carries one in its next-to-last field |
| ClientOrderIds.CarriesOne | src/engine/take_profit_reconciler.cpp:140-161 | an id carries at most one time |
| ClientOrderIds.PrintThenParse | src/engine/take_profit_reconciler.cpp:140-261 | a made id carries its own time, and no other, exactly when the time has at least six base-36 digits |
| ClientOrderIds.IdsDiffer | src/engine/take_profit_reconciler.cpp:216-261 | equal ids share symbol part, fingerprint, millisecond and sequence modulo 1296 |
| ClientOrderIds.IdLength | src/engine/take_profit_reconciler.cpp:216-261 | at most 36 characters for times below 36 to the 11; longer from there on for twelve-character symbols |
| TakeProfitReconciler.SkipsFresh | src/engine/take_profit_reconciler.cpp:193-214 | spares an order exactly when its newest known time, read from the id if need be, is within the grace period |
| TakeProfitReconciler.CancelStale | src/engine/take_profit_reconciler.cpp:345-398 | cancels only own orders without a live position and past their grace, all of them or up to the budget, in order |
| TakeProfitReconciler.FindCoverage | src/engine/take_profit_reconciler.cpp:423-464 | the owned closing order with most left to fill, and whether a foreign one closes the position |
| TakeProfitReconciler.EnsureReady | src/engine/take_profit_reconciler.cpp:284-300 | ready exactly when the symbol has a settled entry or can be given one; entries in flight and other symbols are untouched |
| TakeProfitReconciler.PlaceFor | src/engine/take_profit_reconciler.cpp:494-600 | an order goes out exactly when one can be quoted, and an accepted one is recorded |
| TakeProfitReconciler.PlacementCloses | src/engine/take_profit_reconciler.cpp:513-569 | a filled placement takes the position towards zero, never past it, and leaves less than one quantity step; quantity and price lie on the symbol's lattices |
| TakeProfitReconciler.QuoteExists | src/engine/take_profit_reconciler.cpp:523-546 | a price exists unless rounding takes the target to zero, a quantity exactly from one step on |
| TakeProfitReconciler.Visit | src/engine/take_profit_reconciler.cpp:403-601 | one position: a placement exactly when it needs one and the budget allows; owned orders are adopted; no other entry changes |
| TakeProfitReconciler.ReconcileOnce | src/engine/take_profit_reconciler.cpp:320-601 | a cycle nobody interrupts at its awaits is within budget, complete up to it, leaves entries in flight alone, adopts owned orders and records accepted ones; without readable open orders it does nothing |
| TakeProfitTheory.CycleIdsDiffer | src/engine/take_profit_reconciler.cpp:400-569 | the ids placed in one cycle are pairwise different, up to 1296 positions, however the clock is read for each |
| TakeProfitTheory.CycleProgress | src/engine/take_profit_reconciler.cpp:336-601 | with one position per symbol and an accepting exchange, a cycle sends the smaller of budget and work left, and leaves exactly that much less |
| TakeProfitTheory.CyclesConverge | src/engine/take_profit_reconciler.cpp:336-601 | n cycles lower the work left by n budgets or to zero |
| TakeProfitTheory.CyclesFallSilent | src/engine/take_profit_reconciler.cpp:336-601 | each cycle sends what is left up to its budget, so nothing once nothing is left |
| ExecutionPlanner.Db.RevokePending | src/engine/qlib_execution_planner.cpp:276-293 | revokes exactly the plan's pending rows |
| ExecutionPlanner.Db.MarkSlice | src/engine/qlib_execution_planner.cpp:253-274 | sets the status of the slice with the id and of no other |
| ExecutionPlanner.RunSlice | src/engine/qlib_execution_planner.cpp:423-519 | one slice: the first check that fails stops it, and it is sent exactly past all checks |
| ExecutionPlanner.RunSlices | src/engine/qlib_execution_planner.cpp:409-533 | outcome, requests sent and table are those of the slice-by-slice function |
| ExecutionPlanner.ExecuteMarket | src/engine/qlib_execution_planner.cpp:389-552 | the full-size native order is sent exactly when no poll found a plan and a fallback exists, and then nothing else is |
| ExecutionPlanner.RunIsSafe | src/engine/qlib_execution_planner.cpp:409-533 | each slice at most once, on the draft's side, the sum within the approved quantity, stopping at the first reason to, the reported total the sum of the fills |
| ExecutionPlanner.RunSettlesRows | src/engine/qlib_execution_planner.cpp:253-293 | whichever status updates fail, the plan's rows end in the statuses those that took effect give them, and no other row changes |
| ExecutionPlanner.AcceptedButRevoked | src/engine/qlib_execution_planner.cpp:253-533 | a slice that was accepted ends as revoked exactly when both its updates failed and the revocation of the rest took effect |
| ExecutionPlanner.AcceptedSliceShownRevoked | src/engine/qlib_execution_planner.cpp:253-533 | such a run of two slices |
| ExecutionPlanner.LeftPending | src/engine/qlib_execution_planner.cpp:423-439 | with every update taking effect, a slice stays pending exactly after a stop for wrong side or unreadable quantity with slices to come |
| ExecutionPlanner.WrongSideLeavesPending | src/engine/qlib_execution_planner.cpp:423-431 | such a run of two slices |
| ExecutionPlanner.ReportedWithinSent | src/engine/qlib_execution_planner.cpp:510-528 | if no fill exceeds its slice, the reported total stays within what was sent and approved |
| ModelPublisher.Publisher.Publish | src/orchestration/model_publisher.cpp:220-497 | a request is published exactly when it is publishable on the disk before it and no step it needs fails (the backup only if there is a manifest); a success changes tables, artifact and manifest together, and a failure whose undo works changes none |
| ModelPublisher.Publisher.CopyRun | src/orchestration/model_publisher.cpp:428-453 | an existing artifact run is never touched; a failed copy touches only the new one |
| ModelPublisher.Publisher.ReplaceManifest | src/orchestration/model_publisher.cpp:455-482 | success swaps the manifest in and keeps the previous one as backup; failure leaves the manifest |
| ModelPublisher.Publisher.RollbackFilesystem | src/orchestration/model_publisher.cpp:335-350 | removes a copied artifact and restores, or removes, a swapped manifest |
| ModelPublisher.PublishesStayConsistent | src/orchestration/model_publisher.cpp:352-492 | over any sequence of publishes with a manifest path for each model a published model stays in place, all four parts naming one run, and its version counts the successes |
| ModelPublisher.ManifestIsTaken | src/orchestration/model_publisher.cpp:455-482 | another model's publish leaves runtime row, artifact and run row; the manifest stays exactly if it lies elsewhere, and at the same path names the other model |
| ModelPublisher.WholeUntilTaken | src/orchestration/model_publisher.cpp:352-492 | over any run of other models' attempts, sharing paths or not, a model stays whole exactly as long as none succeeds at its manifest path |
| ModelPublisher.PublishedOnce | src/orchestration/model_publisher.cpp:436-441 | after a success no later attempt at the same model and run succeeds |
| ParameterSpace.EvaluateConstraints | src/backtest/parameter_space.cpp:207-231 | true exactly when every constraint whose two names are present holds |
| ParameterSpace.BuildGrid | src/backtest/parameter_space.cpp:187-195 | returns the grid of the ranges under the constraints |
| ParameterSpace.BuildGridRecursive | src/backtest/parameter_space.cpp:98-126 | appends exactly the points that extend the current one over the remaining ranges, leftovers in the current point notwithstanding |
| ParameterSpace.CountGridRecursiveCapped | src/backtest/parameter_space.cpp:138-183 | the mutating counter equals the counting function |
| ParameterSpace.ClampToBudget | src/backtest/parameter_space.cpp:245-295 | a run of ranges, each from the one before by one widening of its first densest range, made while the count was too large and ended only by a fitting count, by 64 rounds, or by a densest range that cannot be widened; on well-stepped ranges every widening is a doubling, and the verdict is about the count of the ranges left |
| GridTheory.ValuesExact | src/backtest/parameter_space.cpp:41-83 | a range lists exactly the steps from its lower bound, on an integer range from the first whole number by the rounded step, that stay within its upper bound, up to the largest int of them |
| GridTheory.GridExact | src/backtest/parameter_space.cpp:98-126 | the grid holds exactly the points of the product of the value lists that satisfy the constraints |
| GridTheory.GridDistinct | src/backtest/parameter_space.cpp:98-126 | no point appears twice |
| GridTheory.PrunedIsEmpty | src/backtest/parameter_space.cpp:138-183 | a partial point that breaks a constraint extends to no grid point |
| GridTheory.CountVersusGrid | src/backtest/parameter_space.cpp:138-183 | the count is at most cap and grid size, equals the grid size once the cap covers the product, and equals the smaller of the two without constraints |
| GridTheory.CountMisses | src/backtest/parameter_space.cpp:138-183 | a count below the cap falls short of the grid by exactly the points behind the values cut off, so it is exact exactly when no value cut off leads to a grid point |
| ClampTheory.ClampedGridIsCoarser | src/backtest/parameter_space.cpp:245-295 | every point of the clamped grid is a point of the original grid, when an int counts the values of each range |
| ClampTheory.CoarserExactly | src/backtest/parameter_space.cpp:245-295 | for any range, every value after the doublings is one listed before exactly when the last one is within the list |
| ClampTheory.UncountableRangeEscapes | src/backtest/parameter_space.cpp:41-60 | of 1 to 2 to the 32, doubled once, it is not, and the clamped grid has a point the original one lacks |
| ClampTheory.VerdictVersusGrid | src/backtest/parameter_space.cpp:245-295 | a rejection is always right; an accepted grid exceeds the budget exactly when the counted and the cut-off points together do, and never without constraints or when the cap covers the product |
| ClampTheory.LargestBudgetAcceptsAll | src/backtest/parameter_space.cpp:245-295 | at the largest 32-bit budget nothing is rejected, whatever the grid |
| ClampTheory.LargestBudgetWronglyAccepts | src/backtest/parameter_space.cpp:245-295 | two lists of 65536 values are accepted there although their grid exceeds the budget |
| ClampTheory.AcceptedGridOverBudget | src/backtest/parameter_space.cpp:160-170 | a grid of 5 points is counted as 3 under budget 3 |
| PlateauFinder.ExtractDimensions | src/backtest/plateau_finder.cpp:21-34 | for every name exactly its values in the grid, in increasing order |
| PlateauFinder.PickBest | src/backtest/plateau_finder.cpp:153-163 | the first passing point of greatest out-of-sample score, or none passes |
| PlateauTheory.SensitivityIsLargestStep | src/backtest/plateau_finder.cpp:90-140 | over distinct grid points it bounds the score step from the best point to every scored point that differs from it in the dimension alone, by one step of the values in use, and is such a step, or 0 when there is none |
| PlateauFinder.RankDimensions | src/backtest/plateau_finder.cpp:186-192 | orders by sensitivity, then name, both descending |
| PlateauFinder.ChooseActive | src/backtest/plateau_finder.cpp:173-204 | all dimensions when the window power fits the size, else those kept in order of sensitivity |
| PlateauFinder.CollectNeighborhood | src/backtest/plateau_finder.cpp:206-246 | exactly the points within the radius in active dimensions and equal in the others |
| PlateauTheory.NeighborhoodIsBox | src/backtest/plateau_finder.cpp:206-246 | on a uniform grid a scored point is collected exactly when in each active dimension at most radius of the values in use lie between it and the best point, the nearer end left out, and in every other dimension its value is the best point's |
| PlateauFinder.Snap | src/backtest/plateau_finder.cpp:270-274 | the first grid value nearest to the mean |
| PlateauFinder.CenterOf | src/backtest/plateau_finder.cpp:261-275 | every dimension snapped to the value nearest the survivors' mean; fails exactly when a survivor lacks a dimension |
| PlateauFinder.ScoreCenter | src/backtest/plateau_finder.cpp:303-313 | the scores of the first grid point with the centre's indices |
| PlateauFinder.Find | src/backtest/plateau_finder.cpp:144-316 | no plateau without a passing point, else the outcome its choices prescribe |
| PlateauTheory.CenterIsScored | src/backtest/plateau_finder.cpp:261-313 | the centre, though averaged and snapped per dimension, is a scored grid point, meets every constraint and carries its own scores |
| PlateauTheory.PlateauExactly | src/backtest/plateau_finder.cpp:248-259 | the best point survives, so a plateau is reported exactly when enough of the neighbourhood passes |
| PlateauTheory.NeighborhoodBound | src/backtest/plateau_finder.cpp:178-246 | the neighbourhood holds at most the larger of the configured size and the most sensitive dimension's window |
| BacktestGate.ScoreGrid | src/backtest/backtest_gate_controller.cpp:128-202 | scores each point in order by its fold means, counts the rejections, and gives up exactly when one of the looks at the clock, before each point and each fold it is run on, is past the deadline |
| BacktestGate.ScorePoint | src/backtest/backtest_gate_controller.cpp:140-199 | the point's mean scores, passing exactly with positive means above both thresholds, or zero when a fold trades too little |
| BacktestGate.SearchPlateau | src/backtest/backtest_gate_controller.cpp:445-518 | clamp, build, score and search: each answer comes exactly when its cause is the first one met; the centre is a point of the grid first proposed, satisfies the constraints and carries its own scores |
| BacktestEngine.Ledger.Record | src/backtest/backtest_engine.cpp:183-192 | the running totals stay equal to the offline statistics of the recorded trades: gains and losses summed apart, wins, equity, peak and greatest drawdown |
| BacktestEngine.RunFold | src/backtest/backtest_engine.cpp:85-266 | the streaming pass reports trade count, greatest drawdown, win rate and the quotient of summed gains and summed losses of exactly the fold's trades |
| BacktestEngine.ExitDecided | src/backtest/backtest_engine.cpp:141-158 | left at the stop exactly when the bar's worst price reaches it, else at the target exactly when the best price does, else at the close exactly when a hold is set and over |
| BacktestEngine.EntryDecided | src/backtest/backtest_engine.cpp:210-245 | a signal opens a position exactly when it is wanted and both levels lie above zero, at an entry worse than the open by the slippage |
| BacktestEngine.LevelsMean | src/backtest/backtest_engine.cpp:226-240 | at the target the margin has gained the fixed percentage, or the price its multiple of the range; at the stop it has lost its multiple |
| BacktestEngine.ResultExact | src/backtest/backtest_engine.cpp:160-182 | a result is the leveraged move to the slipped exit less the fee on the leveraged stake at either end, and exists exactly while the prices are positive |
| BacktestEngine.PeakIsGreatest | src/backtest/backtest_engine.cpp:188-191 | the peak used is the greatest equity reached so far |
| BacktestEngine.NoLookAhead | src/backtest/backtest_engine.cpp:194-252 | series agreeing on bars 0..i+1, both longer than i+2, give the same position and trades after bar i |
| BacktestEngine.TradeCount | src/backtest/backtest_engine.cpp:194-258 | no more trades than bars less two: each entry is closed at most once |
| BacktestEngine.DrawdownShare | src/backtest/backtest_engine.cpp:188-191 | the drawdown lies in [0, 1) while no trade loses everything |
| BacktestEngine.RuinExceedsOne | src/backtest/backtest_engine.cpp:188-191 | the drawdown exceeds 1 exactly when equity was negative at some point |
| BacktestEngine.LeveragedFallRuins | src/backtest/backtest_engine.cpp:159-191 | a fall of 30 percent at leverage 10 gives a drawdown of 3 |
| PrefixCache.PrefixSumCache.Ensure | src/backtest/indicator_adapters.cpp:46-73 | the cache becomes the reset or extended one, its three lists of equal length |
| PrefixCache.ExactAfter | src/backtest/indicator_adapters.cpp:46-73 | an exact cache stays exact exactly when the call resets it or the buffer repeats the prices already summed |
| PrefixCache.CacheStaysExact | src/backtest/indicator_adapters.cpp:46-73 | over any calls in which apparent continuations are real ones, the sums are the last buffer's |
| PrefixCache.TailIsMean | src/backtest/indicator_adapters.cpp:75-80 | the cached tail average is the mean of the last closes, and zero when there are fewer |
| PrefixCache.RangesAreMeans | src/backtest/indicator_adapters.cpp:82-94 | the cached range averages are the means of the highs and of the lows of the range, and zero for an empty one |
| PrefixCache.RewrittenBarIsMissed | src/backtest/indicator_adapters.cpp:53-66 | a bar rewritten in place keeps its old price in the average |
| Pagination.NamedInterval | src/backtest/rest_client_kline_adapter.cpp:27-55 | the name of n units denotes n times the unit in milliseconds exactly for minutes, hours, days and weeks and n positive and within an int |
| Pagination.IntervalNames | src/backtest/rest_client_kline_adapter.cpp:28-55 | nothing else is an interval, apart from zeros in front of the number |
| Pagination.Normalise | src/backtest/rest_client_kline_adapter.cpp:153-176 | one bar for each of the newest open times among the closed bars up to the signal, in strictly ascending order |
| Pagination.Paginate | src/backtest/rest_client_kline_adapter.cpp:57-182 | error cases in order; a success is the newest eligible bars of the collected pages, asked for only within the page budget |
| Pagination.CollectServed | src/backtest/rest_client_kline_adapter.cpp:110-151 | whatever the server, every collected bar was sent by it and no page beyond the plan is asked for |
| Pagination.HonestPages | src/backtest/rest_client_kline_adapter.cpp:110-151 | against an honest server the pages arrive only if the history reaches into the last page, and exactly then if no page is late |
| Pagination.HonestPagination | src/backtest/rest_client_kline_adapter.cpp:57-182 | whatever bars a success returns are then the history's window |
| Pagination.WindowIsComplete | src/backtest/rest_client_kline_adapter.cpp:106-108 | the window is the last min(limit, available) bars up to the signal exactly when no bar opens between the signal and its end, or the limit covers everything there is |
| Pagination.MisalignedLosesBar | src/backtest/rest_client_kline_adapter.cpp:106-108 | a signal between two bars, asked for one bar, gets none |
| Pagination.SpacedAligned | src/backtest/rest_client_kline_adapter.cpp:106-108 | on an evenly spaced history with the signal on its grid that condition holds |
| Pagination.PaginateIsExact | src/backtest/rest_client_kline_adapter.cpp:57-182 | all together: there a success is exactly the last min(limit, available) bars up to the signal, and one comes back whenever budget and history reach |
| WalkForward.Build | src/backtest/walk_forward.cpp:14-53 | valid exactly from three bars on; prompt, calibration and signal concatenate to the input |
| WalkForward.PromptSize | src/backtest/walk_forward.cpp:33-40 | the share of the bars before the signal, at least one and not all |
| WalkForward.Split | src/backtest/walk_forward.cpp:55-118 | no folds, or exactly the number asked for; folds exactly when there is a bar for each block |
| WalkForward.BlocksNearest | src/backtest/walk_forward.cpp:78-83 | the in-sample blocks are the whole number nearest to the in-sample share over the rest, at least one |
| WalkForward.SlicesTileTail | src/backtest/walk_forward.cpp:92-115 | the out-of-sample slices, of one size, concatenate to the tail of the window |

## Left out

- Network, TLS, subprocess and plugin plumbing, logging, JSON parsing and the SQL text itself: tables are maps, a transaction is a
  copy of the tables, a statement that fails is a choice.
- The Gemini filter, the range proposer and the live vote: arbitrary ports in front of the modelled code.
- Lifecycle.OnlyTheOpenerReleases: reconciliation, expiry, trailing, loss manager, take-profit reconciler and user events are
  replaced by arbitrary tracker calls (with removals by stamps seen earlier), which allows more than their own loops do.
- StopProtection.AlwaysProtected: one symbol at a time; quantities of the stops are not modelled, a position on the exchange is held
  or not, the rest of the monitor's cycle only recovers and removes, and proposals and trigger levels are arbitrary up to the
  source's own tests.
- PositionTracker.Tracker.AddRecovered: the plain `add` of the tracker, and the label and trailing-setting fields of an entry, are
  not modelled.
- TrailingStop.LevelIsBestMet: levels are evaluated and recorded in turn; failed placements only skip a proposal. Interleaving
  them with a refresh is the subject of `StopProtection.TrailingAdvances`.
- Admission.RunKeepsLimits: admissions are recorded one after the other with balances and betas fixed, and snapshots that measure a
  tracked position differently are left to `Admission.ForecastExact`; exceptions of the exposure gate (its beta calculator is not part
  of this model), the risk port and the Gemini filter behind the gates are left out.
- OrderCap.BookMeaning: symbols are listed from one snapshot; overflow of sums does not occur in exact arithmetic.
- ClientOrderIds.MakeId: the 32-bit fingerprint of the symbol is an arbitrary number, and characters are upper-cased as ASCII.
- TakeProfitReconciler.ReconcileOnce: other actors do not change the tracker while a cycle waits for the exchange; decimal
  formatting of price and quantity is rounding to tick and step.
- ModelPublisher.PublishesStayConsistent: says nothing of models sharing a manifest path; `ModelPublisher.WholeUntilTaken` does.
- TakeProfitTheory.CycleProgress: without one position per symbol two positions on a symbol would both receive an order in one cycle.
- ExecutionPlanner.RunSettlesRows: other writers of the slice table are not modelled, and the request row's status is left out, as are
  exceptions thrown between the steps.
- ModelPublisher.Publisher.Publish: exceptions thrown after the transaction begins, other processes working on the same paths, and
  the metric and hash columns are left out; paths are contained in their roots unless the containment step fails.
- BacktestEngine.RunFold: Sortino and Sharpe ratios (square roots) and the indicators behind the signals are left out; the strategy is
  an arbitrary function of the window.
- BacktestGate.SearchPlateau: an empty grid and a grid without a passing point are told apart here although the source reports both
  alike; the folds are a number of them, cut by `WalkForward`, and the check of their length is left out, as is the majority vote
  behind the search.
- PrefixCache.PrefixSumCache.Ensure: the three lists are extended one after the other instead of in one loop.
- Pagination.Paginate: the wall clock is an arbitrary answer before each page; overflow of the limit and of times is left out.
- PlateauFinder.Find: overflow of the neighbourhood size product is left out.
- LossManager.Manager.ProcessTrackedPosition: prices and quantities of the break-even order, and the stop refresh (see
  `StopProtection`), are inputs of a cycle.
- The legacy trading engine, the account adapter, the catalog reporter, random leverage and the queue shuffle: mostly per-branch
  mapping without a property of their own.
