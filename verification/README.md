# Verification of the hedge pipeline

A model, with machine-checked proofs, of the part of arb-system that decides and moves money: order-book
arithmetic, the spread estimate, the risk decision, the two-leg hedge with its repair engine, the dispatch of
concurrent hedge tasks over shared exposure and balances, paper fills, triangular cycles, the circuit breaker and the
feed failover loop. `dafny verify dfyconfig.toml` checks everything.

## How it is built

Every operation that updates state in place is a method of a class with the fields the source has, and its contract
gives the whole new state as a function of the old one (`group.View() == Execution(...)`, for example). The theorems
are about those functions. Ghost fields record history the code does not keep: every state a hedge group was put in
(`trail`), every fill it received (`fills`), every adjustment of a virtual balance (`postings`), everything the breaker
was told since its last reset (`history`). Nothing in the code's behaviour depends on them.

Beside the theorems over runs, every decision has a lemma that reads it off its inputs without naming the function that
takes it: when the gates pass, when an opportunity is approved or emitted, when a repair is refused or pivots, what an
order fills, when the breaker trips, when the feed falls back.

| layer | files |
|---|---|
| books and ladders | `Prelude`, `OrderBook`, `LadderWalk`, `SlippageModel`, `ExecutionPolicy`, `SpreadCalculator`, `OpportunityScanner` |
| orders and fills | `Orders`, `PaperFillEngine`, `OrderRouter`, `BalanceManager` |
| the hedge | `StateMachine`, `HedgeGroup`, `RepairEngine`, `HedgeCoordinator` |
| theorems about the hedge | `RepairSafety`, `PaperRepair`, `HedgeSafety`, `HedgeLedger`, `HedgeLifetime`, `EndToEnd`, `Departures` |
| concurrency | `ExposureManager`, `RiskEngine`, `Dispatch`, `Bootstrap` |
| satellites | `CircuitBreaker`, `OrderBookManager`, `TriangularScanner`, `TriangularExecutor` |

Venues are arbitrary. A live venue is any function from an order to an answer, an order state or an exception, with
`0 <= filled <= amount` the only demand, and a different one may answer each order. What the code reads from clocks,
random numbers, books and switches enters as parameters: a `Moment` is the world when one order is served, a `World`
is the environment of one execution.

The code assumes, and nowhere checks, that asks ascend, bids descend, and prices and sizes are positive. The model's
functions do not assume it; the theorems that need it say so (`WellFormed`, `BooksWellFormed`).

## Where the code departs from its own description

The model follows the code. Each departure is stated with the exact condition under which it shows.

- Three branches of a repair assign a state without asking the transition table: a position of exactly zero completes,
  exhausted attempts abort, and the loss cap fails the group, whatever state it was in. A flat aborted group becomes a
  completed one; a completed group with a residual below dust can be reopened or aborted. When a call stays on the table,
  and when it leaves a terminal state, are equivalences (`RepairSafety.RepairMovesAllowedIff`,
  `RepairSafety.TerminalGroupIsLeftIff`); two groups that an execution completes and a later call takes away again are in
  `Departures.CompletedDustIsReopened` and `Departures.CompletedDustIsAborted`. Inside an execution the shortcut is taken
  exactly when both legs fill alike and one does not report itself filled (`HedgeSafety.ExecutionFollowsTable`).
- An exception in the repair of a two-leg hedge leaves the execution with its exposure still counted, for ever
  (`HedgeSafety.ExecutionRaisesIff`, `HedgeSafety.ExposureLeaksExactlyOnException`,
  `Dispatch.RaisedExposureIsNeverReturned`, with an execution in `Departures.RaisedRepairLeaksExposure`).
- On the rollback path the comment says the same exception leaves the group in FAILED_NEEDS_REPAIR. It leaves it in
  REPAIRING (`HedgeSafety.RollbackExceptionLeavesRepairing`, with an execution in
  `Departures.RaisedRollbackStaysRepairing`). From there the next repair call cannot send an order; a later one can
  exactly when attempts are left and the loss cap has refused a call in between, which puts the group back into
  FAILED_NEEDS_REPAIR (`RepairSafety.StuckGroupSendsAgainIff`, `Departures.RolledBackGroupSendsAfterRefusal`).
- A planning notional that is not positive is counted but never released, so the hedge stays open, if the execution gets
  past the gates (`HedgeSafety.NonPositiveNotionalStaysOpen`). With nothing to trade it does only without a spread
  calculator, or with a book missing and no limit on the age of books (`HedgeSafety.NothingToTradePassesIff`,
  `Departures.EmptyTradeStaysOpen`); with a calculator and both books it never does. An approval has a positive notional
  as soon as the minimum order size is positive (`RiskEngine.ApprovalFitsUnderCaps`).
- The partial-fill dice come after the fill-or-kill check and can shrink a completely matched fill-or-kill order
  (`PaperFillEngine.FokAllOrNothingUnlessDice`, `PaperFillEngine.FokCanFillPartially`).
- Virtual balances are floored at zero (`BalanceManager.FloorInvisibleIffNeverShort`).
- The repair loss cap prices the whole ladder while the order reaches only its band: when it holds afterwards is
  `PaperRepair.LossCapHoldsIffBandPasses`, and `PaperRepair.LossCapMissesPartialSale` is a sale that ends far below it.
- The breaker's docstring counts a profit of zero as a loss; the code resets the loss run on it.
- The risk engine's comment calls the daily loss a rolling 24 hours; the code resets it with the UTC day.
- A websocket that is not implemented is said to be disabled permanently; it is disabled for a billion successful polls
  (`OrderBookManager.NotImplementedIsNotPermanent`).
- A failing triangular leg's own partial fill is not reversed (`TriangularExecutor.RestoredIffFailingLegFilledNothing`,
  `TriangularExecutor.PartialFailingLegIsNotReversed`), and a run whose next leg has nothing to trade is reported as
  completed, exactly after a sale without a positive price (`TriangularExecutor.CompletedMissesLegsIff`,
  `TriangularExecutor.UnpricedSaleReportsCompleted`).

## Model

| member | source | states |
|---|---|---|
| `SlippageModel.VwapBuy` | app/strategy/slippage_model.py:13-32 | the loop over the asks returns the average of taking the target from the ladder, the quantity found and the slippage, zeros when nothing can be bought |
| `SlippageModel.VwapSell` | app/strategy/slippage_model.py:35-54 | the same for the bids |
| `SlippageModel.VwapOnSortedLadder` | app/strategy/slippage_model.py:13-54 | on a sorted positive ladder the quantity is the smaller of target and depth, the average is no better than the top, slippage is not negative |
| `SlippageModel.VwapWorsensWithSize` | app/strategy/slippage_model.py:13-54 | a larger target never gets a better average, on either side |
| `SlippageModel.SlippageIsDistance` | app/strategy/slippage_model.py:29-32 | the slippage is the distance of the average from the top, in basis points of the top, against the trader |
| `LadderWalk.WalkQuantity` | app/strategy/slippage_model.py:20-26 | walking a ladder takes the requested amount or all there is |
| `LadderWalk.MarginalPrice` | app/strategy/slippage_model.py:20-26 | between any two sizes there is a price no unit of the smaller exceeds and no extra unit of the larger undercuts |
| `LadderWalk.AverageWorsensWithSize` | app/strategy/slippage_model.py:20-29 | the average price is monotone in size, cross-multiplied, for both sides |
| `LadderWalk.WalkIsAllocation` | app/strategy/slippage_model.py:20-26 | what the walk takes is so much from each level, no more than it has, at the cost it reports |
| `LadderWalk.WalkIsBest` | app/strategy/slippage_model.py:20-26 | no other way of taking the same quantity from a sorted ladder is cheaper to buy or earns more to sell |
| `LadderWalk.EligibleMembers` | app/execution/execution_policy.py:52-63 | the filtered ladder holds exactly the levels at or better than the limit |
| `LadderWalk.WalkInsideBand` | app/execution/paper_fill_engine.py:88-101 | an amount that fits in the levels inside a limit is filled from them exactly as a walk over the whole ladder fills it |
| `ExecutionPolicy.LimitFollowsReference` | app/execution/execution_policy.py:16-21 | a worse reference price gives a limit that reaches at least as deep, exactly for buffers of at least -100% on a buy and at most 100% on a sale |
| `ExecutionPolicy.LimitIsBufferAway` | app/execution/execution_policy.py:16-21 | the limit lies the buffer away from its reference, up for a buy and down for a sale |
| `ExecutionPolicy.TouchIsInBand` | app/execution/execution_policy.py:24-63 | the top of the book is inside its own band, so in-band depth is at least the top level |
| `SpreadCalculator.EstimateExists` | app/strategy/spread_calculator.py:72-80 | on tradable books every positive size has an estimate, its tradable size is the smaller of size and both depths, its prices are no better than the tops |
| `SpreadCalculator.EdgeNonIncreasingInSize` | app/strategy/spread_calculator.py:75-97 | net edge never improves with size when the sell fee is at most 100% |
| `SpreadCalculator.ProfitIsEdgeOnNotional` | app/strategy/spread_calculator.py:93-101 | expected profit is the net edge applied to the notional bought |
| `SpreadCalculator.EdgeIsSpreadLessFees` | app/strategy/spread_calculator.py:82-129 | net edge is gross spread less both fees, the sell fee weighted by the price ratio, less the buffer; every figure of both legs is that of walking its ladder |
| `OpportunityScanner.OpportunityScanner.ScanSymbol` | app/strategy/opportunity_scanner.py:112-185 | emits in order what the pass over all ordered pairs emits; each filtered pair is counted once in total and once under its reason |
| `OpportunityScanner.PassExaminesEveryPair` | app/strategy/opportunity_scanner.py:116-119 | a pass holds the result of every ordered pair of different venues at its own place and has no other entries |
| `OpportunityScanner.CountersCountPairs` | app/strategy/opportunity_scanner.py:138-162 | each counter is the number of pairs that fell to its filter, and the session total the number that fell to any |
| `OpportunityScanner.OutputKeepsOrder` | app/strategy/opportunity_scanner.py:112-185 | the output holds every emitted opportunity once, each behind all those emitted earlier in the pass |
| `OpportunityScanner.OnlyFreshPairsAreScanned` | app/strategy/opportunity_scanner.py:120-127 | a pair is scanned exactly when both venues have a book and neither is stale |
| `OpportunityScanner.PairIsEmittedIff` | app/strategy/opportunity_scanner.py:128-180 | a pair with an estimate is emitted exactly when it meets minimum edge, profit and liquidity, with which figures, and otherwise falls to the first it misses |
| `OpportunityScanner.ProbeCostsMaxNotional` | app/strategy/opportunity_scanner.py:187-196 | the probe costs the largest notional per trade at the middle of the buy book, or at one |
| `OpportunityScanner.EmittedOpportunity` | app/strategy/opportunity_scanner.py:128-180 | an emitted opportunity offers a positive size up to the probe, at prices no better than both tops, with at least the minimum edge, profit and liquidity |
| `OpportunityScanner.EmittedPairsDistinctVenues` | app/strategy/opportunity_scanner.py:112-185 | every opportunity of a pass names two different scanned venues, neither stale, and is what their books are worth |
| `PaperFillEngine.PaperFillEngine.Simulate` | app/execution/paper_fill_engine.py:52-181 | the walk, fill-or-kill check, dice and report give the specified order state, and the virtual balances receive exactly its postings |
| `PaperFillEngine.PaperFillEngine.WalkLevels` | app/execution/paper_fill_engine.py:88-101 | the loop with its three exits takes what the limited walk takes |
| `PaperFillEngine.LimitedWalkIsFilteredWalk` | app/execution/paper_fill_engine.py:88-101 | on a sorted ladder, stopping at the limit equals walking the filtered ladder |
| `PaperFillEngine.IocFillsWhatIsAvailable` | app/execution/paper_fill_engine.py:73-146 | with the dice off an order fills the smaller of its amount and everything at or better than its limit, and filled plus remaining is the amount |
| `PaperFillEngine.IocAtProtectedLimitFillsInBandDepth` | app/execution/execution_policy.py:24-63 | at the protected limit it fills exactly the in-band depth, up to its amount |
| `PaperFillEngine.PaperFillIsHonest` | app/execution/paper_fill_engine.py:52-181 | every paper answer, dice or not, fills between nothing and everything, conserves quantity, and has a price and a fee exactly when it filled |
| `PaperFillEngine.AveragePriceWithinLimit` | app/execution/paper_fill_engine.py:88-131 | the average lies between the top of the book and the limit, also after the dice |
| `PaperFillEngine.OwnPriceIsRespected` | app/execution/paper_fill_engine.py:82-101 | every order that is not a market order fills at no worse an average than its own price, fill-or-kill included |
| `PaperFillEngine.FillIsAmountOrReach` | app/execution/paper_fill_engine.py:82-113 | with the dice off every order fills the smaller of its amount and what rests at or better than its own price, the whole ladder at market, and fill-or-kill all of its amount or nothing |
| `PaperFillEngine.DiceShrinkAlike` | app/execution/paper_fill_engine.py:115-131 | dice that hit shrink quantity and value alike, and never touch a repair |
| `PaperFillEngine.ReportFollowsFill` | app/execution/paper_fill_engine.py:132-146 | status by quantities, fee by the fee model or the configured rate |
| `PaperFillEngine.BuySpendIsBounded` | app/execution/paper_fill_engine.py:131-159 | a limit buy never spends more than amount times limit plus the fee on that |
| `PaperFillEngine.FokAllOrNothingUnlessDice` | app/execution/paper_fill_engine.py:103-129 | a fill-or-kill order fills nothing or all but the tolerance exactly unless the dice hit a complete match and leave more than the tolerance |
| `PaperFillEngine.FokCanFillPartially` | app/execution/paper_fill_engine.py:110-129 | a completely matched fill-or-kill order reported half filled |
| `OrderRouter.OrderRouter.Submit` | app/execution/order_router.py:32-77 | the answer is that of the current mode's backend, and only paper answers move virtual balances |
| `OrderRouter.RouterIsHonest` | app/execution/order_router.py:32-77 | in every mode the router answers between no fill and a complete one, for the order asked |
| `OrderRouter.OnlyLiveReachesVenues` | app/execution/order_router.py:32-77 | only live mode asks a venue; a dry run fills completely at the order's own price without a fee |
| `BalanceManager.BalanceManager.SetVirtualBalance` | app/accounts/balance_manager.py:97-108 | one balance is set, reservations stay, and the ledger restarts there |
| `BalanceManager.BalanceManager.AdjustVirtual` | app/accounts/balance_manager.py:121-135 | one account moves by the delta, floored at zero, and the posting is recorded |
| `BalanceManager.BalanceManager.Reserve` | app/accounts/balance_manager.py:110-113 | the reservation of one account grows by the amount |
| `BalanceManager.BalanceManager.ReleaseReserve` | app/accounts/balance_manager.py:115-119 | the reservation of one account shrinks by the amount, floored at zero |
| `BalanceManager.FloorForgivesWorstShortfall` | app/accounts/balance_manager.py:121-135 | a virtual balance is the true ledger plus the worst shortfall ever seen |
| `BalanceManager.FloorInvisibleIffNeverShort` | app/accounts/balance_manager.py:121-135 | a virtual balance is never below the true ledger and equals it exactly when no adjustment took the ledger below zero |
| `BalanceManager.VenuesCoverAssetTotal` | app/accounts/balance_manager.py:121-135 | summing an asset's ledger venue by venue equals summing it posting by posting |
| `StateMachine.TableShape` | app/execution/state_machine.py:8-36 | terminal states are those without successors, and every edge moves forward except the repair cycle |
| `StateMachine.TableEdges` | app/execution/state_machine.py:8-21 | every edge of the table |
| `RepairEngine.RepairEngine.Repair` | app/execution/repair_engine.py:49-209 | one call, from the flat shortcut to the final state, leaves the group the specification gives, raises exactly when it does, and moves the balances of its fill |
| `RepairEngine.RepairEngine.SelectVenue` | app/execution/repair_engine.py:61-112 | side, amount and venue of the corrective order, pivoting to the other venue when the first is too thin and the other deeper |
| `RepairEngine.RepairEngine.CheckLossCap` | app/execution/repair_engine.py:114-146 | refuses exactly when the projected profit is below minus the cap |
| `RepairEngine.RepairEngine.Fold` | app/execution/repair_engine.py:183-208 | executed amounts, position, profit, cost, fee and state after the fill |
| `RepairSafety.RepairOrderClosesResidual` | app/execution/repair_engine.py:61-79 | the order is for exactly the residual, in the opposite direction, on one of the two venues |
| `RepairSafety.SendIff` | app/execution/repair_engine.py:50-150 | an order is sent exactly from a failed group with a residual, attempts left and the cap respected |
| `RepairSafety.RepairPivotsIff` | app/execution/repair_engine.py:61-112 | side, amount and venue of the repair: the other venue exactly when the own band is too thin and the other has a book with a deeper one |
| `RepairSafety.RepairIsRefusedIff` | app/execution/repair_engine.py:114-146 | a failed group with attempts left is refused exactly when there is a cap, the chosen book yields something, and profit with the walk's value moved by the buffer is below minus the cap |
| `RepairSafety.RefusesIff` | app/execution/repair_engine.py:114-134 | the same for the test of the cap in any state |
| `RepairSafety.RepairOrderIsPriced` | app/execution/repair_engine.py:152-171 | the order is priced at the protected limit of the chosen book's top, unpriced without a book |
| `RepairSafety.RepairCompletesIff` | app/execution/repair_engine.py:203-208 | an answered repair completes exactly when no more than a hundred-millionth is left |
| `RepairSafety.RepairReasons` | app/execution/repair_engine.py:55-146 | which reason of failure each call leaves |
| `RepairSafety.RepairStepIsSafe` | app/execution/repair_engine.py:148-208 | for any honest answer a call never lets the position grow or change sign and uses at most one attempt, within the budget |
| `RepairSafety.RunIsSafe` | app/execution/repair_engine.py:49-209 | the same over any sequence of calls, with attempts counting the orders sent |
| `RepairSafety.RunStaysWithinBudget` | app/execution/repair_engine.py:55-59 | however often repair is called, no more orders are sent than attempts were left |
| `RepairSafety.HeardRunTerminates` | app/execution/repair_engine.py:55-59 | a failed group reaches a terminal state within one more call than attempts left, if no call is refused or left without answer |
| `RepairSafety.RepairMovesAllowedIff` | app/execution/repair_engine.py:50-208 | for every group, exactly when all moves of a call are edges of the table or stay put, by position, attempts, cap and state before the call |
| `RepairSafety.TerminalGroupIsLeftIff` | app/execution/repair_engine.py:50-146 | exactly when a call takes a group out of a terminal state, and which state it puts it in |
| `RepairSafety.FlatGroupIsCompletedFromAnyState` | app/execution/repair_engine.py:51-53 | a group at exactly zero is completed from any state, which is an edge only from Hedging and Repairing |
| `RepairSafety.RaisedAttemptBlocksNextCall` | app/execution/repair_engine.py:148-172 | the call after one whose venue raised sends no order, and which of the other ends it meets |
| `RepairSafety.StuckGroupSendsAgainIff` | app/execution/repair_engine.py:114-172 | over any run of later calls, a group stuck in Repairing sends an order exactly when attempts are left and the cap refuses one call's books and accepts a later one's; nothing is sent while no call is refused |
| `RepairSafety.UnfailedGroupSendsIffRefusedBefore` | app/execution/repair_engine.py:114-172 | a run from any state but FailedNeedsRepair sends an order exactly when some call is refused and a later one sends |
| `RepairSafety.RefusalFreesStuckGroup` | app/execution/repair_engine.py:134-172 | a run of three calls: raised, refused, sent |
| `PaperRepair.RepairFillsChosenDepth` | app/execution/repair_engine.py:152-183 | a paper repair fills the in-band depth of its venue, up to the residual |
| `PaperRepair.ChosenVenueIsDeepest` | app/execution/repair_engine.py:88-112 | up to the residual, the chosen venue's in-band depth is the better of the two |
| `PaperRepair.VenueChoiceIsOptimal` | app/execution/repair_engine.py:88-112 | it fills as much as the deeper of the two venues could, and completes the group exactly when that leaves no more than dust |
| `PaperRepair.EstimateMatchesFullFill` | app/execution/repair_engine.py:116-133 | when the residual is closed completely, the gate's projection is the fill's own value moved by the buffer |
| `PaperRepair.LossCapHoldsAfterFullFill` | app/execution/repair_engine.py:114-201 | a repair that passes the gate and closes the residual leaves a profit of at least minus the cap plus value times buffer less fee |
| `PaperRepair.LossCapHoldsForBuyBack` | app/execution/repair_engine.py:114-201 | buying back, the same holds for partial fills |
| `PaperRepair.LossCapHoldsIffBandPasses` | app/execution/repair_engine.py:114-201 | for any positive fill on either side the same bound holds exactly when the gate's test passes on the levels inside the band |
| `PaperRepair.LossCapMissesPartialSale` | app/execution/repair_engine.py:114-146 | a partial sale that passes the gate with a cap of 1 and ends at a loss of 50 |
| `HedgeGroup.HedgeGroup.constructor` | app/models/hedge.py:10-58 | a new group is in state New with nothing executed |
| `HedgeCoordinator.HedgeCoordinator.Execute` | app/execution/hedge_coordinator.py:83-385 | one execution leaves the group, the exposure, the breaker's history and the balances exactly as specified, and raises exactly when specified |
| `HedgeCoordinator.HedgeCoordinator.RunGates` | app/execution/hedge_coordinator.py:123-226 | stops with the first failing check, in order, and records its reason and the estimate made so far |
| `HedgeCoordinator.HedgeCoordinator.SubmitLegs` | app/execution/hedge_coordinator.py:228-282 | counts the planning notional on both venues, sends both legs, tells the breaker how each went |
| `HedgeCoordinator.HedgeCoordinator.SettleAnswers` | app/execution/hedge_coordinator.py:284-375 | the four outcomes of two submissions |
| `HedgeCoordinator.HedgeCoordinator.SettleBothLegs` | app/execution/hedge_coordinator.py:322-366 | amounts, position, profit and fees of the pair, then completion or repair |
| `HedgeCoordinator.HedgeCoordinator.RollbackSingleLeg` | app/execution/hedge_coordinator.py:387-467 | the survivor's amounts and profit, then repair with its exception swallowed, or abort |
| `HedgeCoordinator.HedgeCoordinator.ReleaseExposure` | app/execution/hedge_coordinator.py:469-476 | releases the planning notional on both venues unless it is not positive |
| `HedgeCoordinator.SettleAppendsItsFills` | app/execution/hedge_coordinator.py:284-366 | settlement loses no answer and invents none: the group's fills are those of the legs and of the repair |
| `HedgeSafety.GatesPassIff` | app/execution/hedge_coordinator.py:123-226 | an execution gets past its gates exactly when signal age, both book ages, the edge at the approved size and both in-band depths are within their limits, where they are checked |
| `HedgeSafety.GateStopsForFirstFailure` | app/execution/hedge_coordinator.py:123-226 | the reason of a stop is the first of them that fails |
| `HedgeSafety.StoppedGroupIsUntouched` | app/execution/hedge_coordinator.py:129-226 | a stopped group is aborted with its reason, with no order, fill, figure or exposure |
| `HedgeSafety.LegOrdersAreAlike` | app/execution/hedge_coordinator.py:228-259 | the two orders are for the same amount on the two venues, of the configured type, at their protected limits |
| `HedgeSafety.PairIsRepairedIff` | app/execution/hedge_coordinator.py:354-366 | two answered legs complete without a repair exactly when both are filled no more than a hundred-millionth apart |
| `HedgeSafety.SurvivorIsRepairedIff` | app/execution/hedge_coordinator.py:446-464 | a survivor is repaired exactly when it left more than a hundred-millionth |
| `HedgeSafety.UnansweredPairIsAborted` | app/execution/hedge_coordinator.py:284-295 | when neither leg is answered the group is aborted with nothing filled and nothing left counted |
| `HedgeSafety.BreakerHearsProfit` | app/execution/hedge_coordinator.py:280-375 | the breaker hears both submissions and then the profit the group realised, exactly when it has one and the execution returned after an answer |
| `HedgeSafety.ExecutionKeepsTerms` | app/execution/hedge_coordinator.py:106-269 | symbol, venues, amount and planning notional of the group are those of the approved opportunity |
| `HedgeSafety.CompletedMeansFlat` | app/execution/hedge_coordinator.py:284-366 | over one execution and any later repairs, for any honest answers, completed means flat to dust and aborted means flat or out of attempts |
| `HedgeSafety.RepairFollowsTable` | app/execution/repair_engine.py:49-209 | a repair of a failed group only takes edges of the table, stays put, or takes the shortcut, the latter exactly at position zero |
| `HedgeSafety.ExecutionFollowsTable` | app/execution/hedge_coordinator.py:123-366 | so does a whole execution; no transition check can fire; and when the shortcut is taken, as an equivalence |
| `HedgeSafety.TerminalStatesAreLast` | app/execution/state_machine.py:34-36 | no terminal state is left inside an execution |
| `HedgeSafety.ExecutionRaisesIff` | app/execution/hedge_coordinator.py:359-363 | an execution raises exactly when both legs answered, the pair was sent to repair and the repair's venue raised |
| `HedgeSafety.ExposureLeaksExactlyOnException` | app/execution/hedge_coordinator.py:123-369 | an execution of a positive notional leaves exposure and open hedges as they were when it returns, and the planning notional on both venues when it raises |
| `HedgeSafety.NonPositiveNotionalStaysOpen` | app/execution/hedge_coordinator.py:123-476 | a hedge stays open after its execution exactly when it got past the gates and then raised or had a notional that is not positive |
| `HedgeSafety.TradeLeavesExposure` | app/execution/hedge_coordinator.py:264-369 | the figures a trade past the gates leaves, for any notional |
| `HedgeSafety.NothingToTradePassesIff` | app/execution/hedge_coordinator.py:123-182 | an execution with nothing to trade passes the gates exactly when the signal is fresh and there is no calculator, or a book is missing and the books are not too old |
| `HedgeSafety.RollbackExceptionLeavesRepairing` | app/execution/hedge_coordinator.py:446-464 | a rollback ends in Repairing exactly when the survivor left a position, attempts are left, the cap accepts the books and the venue of the repair order raises |
| `HedgeSafety.DustyPairCompletes` | app/execution/hedge_coordinator.py:322-366 | two legs reported filled a billionth apart complete with that residual, their profit and no repair |
| `HedgeLedger.FiguresMatchFills` | app/execution/hedge_coordinator.py:329-447 | over one execution and any later repairs, position, profit, fees and repair cost are the totals over the fills the venues returned, if each is bookable; a fill without a price is counted at a notional of zero |
| `HedgeLedger.RepairKeepsBalanceIff` | app/execution/repair_engine.py:183-201 | a repair keeps those identities exactly when its fill is bookable: priced, or free of fees (an unpriced fill counts at zero in the figures and in the totals) |
| `HedgeLedger.SurvivorInBalanceIff` | app/execution/hedge_coordinator.py:428-447 | a rollback keeps them exactly unless the survivor reports a fee for nothing filled |
| `HedgeLedger.PairInBalance` | app/execution/hedge_coordinator.py:329-339 | two answered legs always keep them |
| `HedgeLedger.ProfitSplits` | app/execution/repair_engine.py:195-201 | the cash of a group is the cash of its legs plus that of its repairs |
| `HedgeLedger.PostingsMatchFills` | app/execution/paper_fill_engine.py:148-159 | what fills post to base and quote accounts adds up to what they traded |
| `HedgeLedger.PaperBalancesConserve` | app/execution/paper_fill_engine.py:148-159 | in paper trade, over one execution and any later repairs, the ledgers of both venues change in total by the net position in base and the realised profit in quote |
| `HedgeLifetime.ExecuteAndRepair` | app/api/routes/hedges.py:82-94 | executing a hedge and repairing it any number of times leaves the specified group and appends exactly the postings of its fills to the shared balance manager |
| `HedgeLifetime.LedgerMovesByFigures` | app/execution/paper_fill_engine.py:148-159 | whatever the shared ledger held, that lifetime moves the two venues together by the net position in base and the realised profit in quote |
| `HedgeLifetime.InterleavedHedgesConserve` | app/execution/paper_fill_engine.py:148-159 | in whatever order the postings of any number of hedges reach the shared ledger, every asset's total over the venues moves by the sum of the hedges' net positions and realised profits in it |
| `EndToEnd.EdgeSurvivesSmallerSize` | app/execution/hedge_coordinator.py:168-182 | on unchanged books an emitted opportunity never fails the edge check at a smaller size |
| `EndToEnd.DepthGateBoundsResidual` | app/execution/hedge_coordinator.py:191-239 | passing the depth gate with ratio r makes each leg fill at least r times the amount, so the residual is at most the rest |
| `EndToEnd.LegFillsAtVwap` | app/execution/hedge_coordinator.py:228-259 | a leg that fits in its band fills completely at the average the estimate used |
| `EndToEnd.OnlyAgeOrDepthStops` | app/execution/hedge_coordinator.py:123-226 | exactly which gates can stop an emitted opportunity on unchanged books |
| `EndToEnd.EstimateIsRealised` | app/execution/hedge_coordinator.py:123-366 | such an execution is stopped before any order or completes without repair, with profit equal to the estimate plus the buffer and at least the minimum edge and buffer on the notional |
| `EndToEnd.QuietTradeEarnsTheGap` | app/execution/hedge_coordinator.py:123-366 | a concrete emitted pair meets every premise of the theorem above and completes with the whole gap earned |
| `EndToEnd.VanishedEdgeIsStopped` | app/execution/hedge_coordinator.py:171-182 | the same trade with the dear bid fallen below the ask is stopped as edge vanished |
| `Departures.RaisedRepairLeaksExposure` | app/execution/hedge_coordinator.py:359-369 | a live execution that raises in its repair and keeps a hundred counted on both venues |
| `Departures.EmptyTradeStaysOpen` | app/execution/hedge_coordinator.py:168-269 | an execution with nothing to trade that passes the gates for a missing book and stays open |
| `Departures.RaisedRollbackStaysRepairing` | app/execution/hedge_coordinator.py:299-306 | a live execution whose sale and repair raise, returned in Repairing |
| `Departures.RolledBackGroupSendsAfterRefusal` | app/execution/repair_engine.py:114-172 | that group sends nothing when repaired at once, and does after a refused call |
| `Departures.DustyExecutionCompletes` | app/execution/hedge_coordinator.py:322-366 | a live execution that completes with a residual of a billionth at a loss |
| `Departures.CompletedDustIsReopened` | app/execution/repair_engine.py:134-146 | a later call on it, refused by the cap, moves it to FailedNeedsRepair |
| `Departures.CompletedDustIsAborted` | app/execution/repair_engine.py:55-59 | where no attempts are allowed, a later call moves it to Aborted |
| `ExposureManager.ExposureManager.Add` | app/risk/exposure_manager.py:16-18 | one venue's figure grows and the hedge is open |
| `ExposureManager.ExposureManager.Release` | app/risk/exposure_manager.py:20-23 | one venue's figure shrinks, floored at zero, and the hedge is no longer open |
| `ExposureManager.PairNetsToZero` | app/execution/hedge_coordinator.py:469-476 | adding and releasing a pair returns every venue's figure and the open set to what they were |
| `RiskEngine.SizedIsLargestAffordable` | app/risk/rules.py:138-177 | a size respects every limit exactly when it is at most the size computed, so that size is the largest |
| `RiskEngine.MinimumMetIffSomeSizeFits` | app/risk/rules.py:163-180 | the minimum order size is met exactly when some size within every limit meets it |
| `RiskEngine.ApprovalFitsUnderCaps` | app/risk/rules.py:91-210 | an approval is positive, fits under both venues' exposure caps with what is in flight, leaves room among the open hedges and, outside dry run, is covered by free balances |
| `RiskEngine.ApprovedIff` | app/risk/rules.py:91-210 | an opportunity is approved exactly when the switches, whitelist, cooldown, health, book ages, edge, profit, an affordable size worth an order, open hedges and live limits all allow it, and then at the largest affordable size |
| `RiskEngine.RejectionGivesFirstObstacle` | app/risk/rules.py:91-202 | a rejection gives the first obstacle in the order of the checks |
| `RiskEngine.RiskEngine.ConditionsAreRead` | app/risk/rules.py:91-190 | the conditions are read from the cooldown, the exposure and balances of the two venues on their sides, the open hedges and today's losses |
| `RiskEngine.RiskEngine.SetCooldown` | app/risk/rules.py:83-89 | the symbol, and no other, cools down until the given time |
| `RiskEngine.RiskEngine.RecordRealizedPnl` | app/risk/rules.py:64-75 | keeps the daily figure equal to the losses recorded on the last recorded day |
| `RiskEngine.RiskEngine.DailyLossIsTodaysLosses` | app/risk/rules.py:77-81 | the figure the gate reads is the sum of today's losses |
| `Dispatch.StepKeepsInv` | app/runtime/app_bootstrap.py:415-566 | every atomic section between awaits keeps: figures are the sums over the tasks that hold them, the open set lists their identifiers, the caps hold, and a decision waiting for its reservation still fits |
| `Dispatch.RunKeepsInv` | app/runtime/app_bootstrap.py:415-566 | so does every interleaving of the scanner loop with any number of tasks |
| `Dispatch.CapsHoldInEveryRun` | app/risk/rules.py:142-183 | no venue ever exceeds its exposure cap and no more hedges are open than allowed |
| `Dispatch.DealBecomesPendingIff` | app/runtime/app_bootstrap.py:513-514 | an evaluation leaves a deal waiting exactly when the opportunity is approvable at the exposure it finds |
| `Dispatch.EveryDealWasApprovable` | app/runtime/app_bootstrap.py:509-566 | in every run, every waiting deal and every task comes from an opportunity that was approvable when it was evaluated |
| `Dispatch.DispatchTakesItsShare` | app/runtime/app_bootstrap.py:533-565 | what a dispatch reserves and counts, account by account and venue by venue |
| `Dispatch.HeldCoversTask` | app/risk/exposure_manager.py:20-23 | whatever a task is about to give back is held, so no floor at zero ever acts |
| `Dispatch.ReservationsStayWithinBalances` | app/accounts/balance_manager.py:44-48 | outside dry run and with fixed balances, every account's reservations and the share of the waiting decision stay within its balance under every interleaving |
| `Dispatch.QuietSystemHoldsNothing` | app/runtime/app_bootstrap.py:476-484 | if no execution raises, then once all tasks have finished nothing is in flight, reserved or open |
| `Dispatch.RaisedExposureIsNeverReturned` | app/runtime/app_bootstrap.py:448-484 | after an execution raised, its notional stays in flight on both venues in every continuation |
| `Bootstrap.Runtime.EvaluateOpportunity` | app/runtime/app_bootstrap.py:509-528 | the section up to the persistence await is the protocol's evaluate event, with the free balances net of reservations |
| `Bootstrap.Runtime.DispatchApproved` | app/runtime/app_bootstrap.py:529-566 | the section after it is the protocol's dispatch event, and starts the symbol's cooldown |
| `Bootstrap.Runtime.StartHedge` | app/runtime/app_bootstrap.py:444-450 | hand-over of the pre-exposure to the execution, in one section |
| `Bootstrap.Runtime.StartMakerTaker` | app/runtime/app_bootstrap.py:434-442 | a maker-taker task keeps its pre-exposure |
| `Bootstrap.Runtime.SettleHedge` | app/execution/hedge_coordinator.py:368-369 | release at the end of an execution, or none when it raises |
| `Bootstrap.Runtime.FinishHedge` | app/runtime/app_bootstrap.py:476-484 | the finally clause |
| `Bootstrap.ProtocolMatchesCoordinator` | app/execution/hedge_coordinator.py:264-369 | the protocol's sections of a task move exposure exactly as one execution of the coordinator does, stopped at a gate, returned or raised, and both count the same notional |
| `CircuitBreaker.CircuitBreaker.Record` | app/risk/circuit_breaker.py:72-92 | keeps: the deque is the full history filtered by the window, the counters are the trailing runs, tripped holds exactly when some prefix met a threshold |
| `CircuitBreaker.CircuitBreaker.RecordPnl` | app/risk/circuit_breaker.py:110-126 | keeps the same; a missing profit changes nothing |
| `CircuitBreaker.CircuitBreaker.Reset` | app/risk/circuit_breaker.py:65-70 | starts an empty history, not tripped |
| `CircuitBreaker.WindowGrows` | app/risk/circuit_breaker.py:74-76 | pruning step by step keeps exactly what filtering the whole history keeps |
| `CircuitBreaker.FailuresCountFailed` | app/risk/circuit_breaker.py:88-92 | failures are the samples that are not ok |
| `CircuitBreaker.WindowCountsHistory` | app/risk/circuit_breaker.py:74-76 | samples and failures in the window are the submissions and failed submissions of the history no older than it |
| `CircuitBreaker.SubmissionAlarmsIff` | app/risk/circuit_breaker.py:83-92 | a submission trips exactly when the last so many failed, or enough are within the window and at least the ratio of them failed |
| `CircuitBreaker.ClosingAlarmsIff` | app/risk/circuit_breaker.py:119-126 | a closed trade trips exactly when it and the last so many lost money |
| `CircuitBreaker.GoodHistoryNeverTrips` | app/risk/circuit_breaker.py:72-126 | successes and profits alone never trip positive limits |
| `CircuitBreaker.AlarmsLatch` | app/risk/circuit_breaker.py:83-92 | no further event untrips the breaker |
| `CircuitBreaker.FailureRunCountsTrailingFailures` | app/risk/circuit_breaker.py:78-81 | the failure run is at least k exactly when the last k submissions failed |
| `CircuitBreaker.LossRunCountsTrailingLosses` | app/risk/circuit_breaker.py:119-122 | the loss run is at least k exactly when the last k closed trades lost money |
| `OrderBookManager.OrderBookManager.StaleIffTooOld` | app/marketdata/orderbook_manager.py:66-84 | a book is stale exactly when it has no age or one beyond the limit, for a limit that is not negative |
| `OrderBookManager.OrderBookManager.PollOne` | app/marketdata/orderbook_manager.py:160-248 | counters and pauses of the loop for any replies and any eligibility from attempt to attempt; the entry and source tag are those of the last snapshot, and other pairs are untouched |
| `OrderBookManager.PollerStaysSteady` | app/marketdata/orderbook_manager.py:169-247 | at most two websocket failures are outstanding between attempts and the backoff never exceeds five seconds or the interval |
| `OrderBookManager.AttemptCounts` | app/marketdata/orderbook_manager.py:174-246 | exactly which attempts give websocket up and for how long, and what each does to the outstanding errors |
| `OrderBookManager.BackoffDoubles` | app/marketdata/orderbook_manager.py:232-247 | errors in a row double the backoff each time, up to five seconds |
| `OrderBookManager.AttemptWaits` | app/marketdata/orderbook_manager.py:184-248 | how long the loop waits after each kind of attempt |
| `OrderBookManager.PausesFollowAttempts` | app/marketdata/orderbook_manager.py:184-248 | the k-th pause is that of the k-th attempt, from the counters the attempts before it left |
| `OrderBookManager.SourceNamesLastTransport` | app/marketdata/orderbook_manager.py:177-188 | the source tag names the transport of the last update, however many failures followed |
| `OrderBookManager.OrderBookManager.Update` | app/marketdata/orderbook_manager.py:54-84 | the snapshot is stored, and its age is the time since, never negative |
| `OrderBookManager.PausesAreBounded` | app/marketdata/orderbook_manager.py:232-248 | a failed attempt never waits more than five seconds, a successful one never more than the interval |
| `OrderBookManager.CooldownCountsSuccessfulPolls` | app/marketdata/orderbook_manager.py:186-191 | during a cooldown only polling is used and websocket returns exactly when that many polls have succeeded |
| `OrderBookManager.FallbackLastsThirtyPolls` | app/marketdata/orderbook_manager.py:213-246 | giving websocket up lasts exactly thirty successful polls |
| `OrderBookManager.NotImplementedIsNotPermanent` | app/marketdata/orderbook_manager.py:194-198 | a missing implementation is tried again after a billion successful polls |
| `TriangularExecutor.TriangularExecutor.Run` | app/execution/triangular_executor.py:152-268 | the leg loop ends as specified and reverses the earlier legs exactly when one failed |
| `TriangularExecutor.TriangularExecutor.Rollback` | app/execution/triangular_executor.py:364-406 | reversal orders are sent last leg first, and one that raises does not stop the rest |
| `TriangularExecutor.CycleIsCovered` | app/execution/triangular_executor.py:163-240 | with partial fills too, no leg spends more before fees than the leg before it produced |
| `TriangularExecutor.ExecutionMeetsScanner` | app/strategy/triangular_scanner.py:257-276 | in both directions three complete fills within their limits end with at least the scanner's end quantity |
| `TriangularExecutor.ScannerPricesTheCycle` | app/strategy/triangular_scanner.py:257-276 | complete fills at exactly the tops end with exactly the scanner's end quantity |
| `TriangularScanner.CycleIsPricedIff` | app/strategy/triangular_scanner.py:224-302 | a direction is priced exactly when all six tops are there, positive and not stale, at which of them, and its net edge is the gain less the three fees |
| `TriangularExecutor.LegGoesOnIff` | app/execution/triangular_executor.py:166-240 | what each answer means for the run: goes on, fails or raises, and with what in hand |
| `TriangularExecutor.ReverseOrderMirrors` | app/execution/triangular_executor.py:374-387 | the reversing order mirrors the fill at its own average and is marked corrective |
| `TriangularExecutor.ScannedPlanIsLinked` | app/execution/triangular_executor.py:410-437 | the plan of a scanned cycle has three priced legs, each consuming what the one before produces, from the first asset of the triangle and back to it only at the end |
| `TriangularExecutor.PaperRespectsLimit` | app/execution/paper_fill_engine.py:88-131 | the paper engine is a venue of the kind these theorems ask for |
| `TriangularExecutor.LifoRollbackIsLossless` | app/execution/triangular_executor.py:364-406 | complete reversals at the price of each leg or better are affordable in turn and restore every asset |
| `TriangularExecutor.FailedRunIsRestored` | app/execution/triangular_executor.py:205-210 | a failed run of the executor whose failing leg filled nothing is reversed affordably and leaves every asset, failing leg included, where it was or above |
| `TriangularExecutor.ExactReversalCancels` | app/execution/triangular_executor.py:364-406 | reversals at each leg's own price move every asset back by exactly what the legs moved |
| `TriangularExecutor.RestoredIffFailingLegFilledNothing` | app/execution/triangular_executor.py:205-210 | reversed at its own prices, a failed run restores every asset exactly when the failing leg filled nothing |
| `TriangularExecutor.PartialFailingLegIsNotReversed` | app/execution/triangular_executor.py:205-210 | a cancelled partial fill after which a perfect reversal cannot be paid for |
| `TriangularExecutor.RunsDryIff` | app/execution/triangular_executor.py:166-185 | whatever the venues answer, a run has nothing left to trade exactly when its last fill was a sale without a positive price and legs remain |
| `TriangularExecutor.CompletedMissesLegsIff` | app/execution/triangular_executor.py:166-259 | exactly then a run is reported completed with legs never sent |
| `TriangularExecutor.CompletedMeansAllLegs` | app/execution/triangular_executor.py:166-259 | so when venues price what they fill, a run reported completed traded every leg |
| `TriangularExecutor.UnpricedSaleReportsCompleted` | app/execution/triangular_executor.py:172-185 | without a reported price, a run with an unsent leg and nothing in hand is reported completed |
| `TriangularExecutor.ThrownRunLeavesItsPosition` | app/execution/triangular_executor.py:197-199 | a submission that raises leaves the cycle open: the starting asset is short of what the first leg spent, what the last leg produced is held, and every asset is where it was exactly when no leg had filled |

## Left out

- Decimals are real numbers; the rounding of 28-digit contexts is not modelled.
- Dispatch.ReservationsStayWithinBalances: balances do not move during the run; what fills do to them is the subject of `HedgeLedger` and `HedgeLifetime`.
- HedgeCoordinator.HedgeCoordinator.Execute: is one uninterrupted method; what other tasks do at its awaits is modelled in `Dispatch` for exposure and reservations, and by the separate moments of a `World` for books and venues.
- HedgeCoordinator.HedgeCoordinator.RollbackSingleLeg: the attempt to cancel an open survivor is not modelled; the source does not read fills made after the survivor's answer either.
- EndToEnd.EstimateIsRealised: is about paper trade with one fee schedule, books that do not move, a sell fee of at most 100% and a price buffer between -100% and 100%; the depth ratio is one.
- HedgeLedger.FiguresMatchFills: asks of live venues that a fill has a price or no fee, because other fills are not booked by the repair engine; the equivalences beside it say exactly when.
- RepairSafety.HeardRunTerminates: a call refused by the loss cap uses no attempt, so a run of refusals need not end.
- TriangularExecutor.ExecutionMeetsScanner: fees are not deducted, as in the scanner's end quantity.
- TriangularExecutor.TriangularExecutor.Rollback: the order router is replaced by one arbitrary venue per order.
- The cycle scanner divides by the probe; the source raises for a probe of zero, the model reports no opportunity.
- A circuit breaker is always present; the source allows a coordinator without one. Its threshold for losing trades is fixed.
- The fee model's precedence rules: a fee schedule is an arbitrary function of venue, symbol and side.
- Exchange adapters, order polling and the network; live balance refresh; the order tracker.
- Identifiers are taken as unique; notes, log lines, reject texts, latency figures and the expected and actual averages kept for reports are not modelled.
- Settings do not change during a run.
- The maker-taker and funding executors, except that a maker-taker task holds its pre-exposure until it finishes.
- An operator's repair request (other than after the execution, in `HedgeLifetime`) running while the same group is being executed, task cancellation and shutdown.
- The synchronous triangular variant and its rough net-quote estimate, which only tests use; the scan loops of the triangular scanner.
- `max_fillable_buy` and `max_fillable_sell`, the order-status table, subscribers of the book manager: nothing in the pipeline reads them.
