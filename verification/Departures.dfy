/** Executions, from the signal to their last state, on which the code departs from its own
    description.  All trade the opportunity of the calm market at market, live, with the books and
    the spread calculator in place and a repair loss cap of one. */
module Departures {
  import opened Prelude
  import opened OrderBook
  import opened ExecutionPolicy
  import opened SpreadCalculator
  import opened Orders
  import opened Settings
  import opened StateMachine
  import opened HedgeGroup
  import opened Opportunities
  import opened OrderRouter
  import opened RepairEngine
  import opened RepairSafety
  import opened ExposureManager
  import opened HedgeCoordinator
  import opened HedgeSafety
  import opened EndToEnd

  const LIVE := QUIET.(mode := Live, orderType := Market, maxRepairLossQuote := Some(1.0))
  const LIVE_WIRING := CALM_WIRING.(st := LIVE)

  /** A world in which the legs and the repair are answered as given. */
  function Answering(buy: Answer, sell: Answer, repair: Answer): World {
    World(
      CALM_WORLD.entry, Moment(QUIET_BOOKS, 0.0, _ => buy), Moment(QUIET_BOOKS, 0.0, _ => sell),
      QUIET_BOOKS, Moment(QUIET_BOOKS, 0.0, _ => repair))
  }

  function Leg(side: Side, filled: real, price: Option<real>, status: OrderStatus): Answer {
    Answered(OrderState(
               if side.Buy? then "a" else "b", PAIR, side, filled, 1.0 - filled, price, status, None, false))
  }

  const BOUGHT := Leg(Buy, 1.0, Some(100.0), Filled)
  const UNSOLD := Leg(Sell, 0.0, None, Cancelled)

  /** The offer past the gates, its legs submitted. */
  const SUBMITTED_OFFER := SubmittedHedge(OFFER, 1.0, Pass(Some(1.95)))

  lemma LiveGatesPass(st: Settings)
    requires st == LIVE || st == LIVE.(maxRepairAttempts := 0)
    ensures GateVerdict(st, Some(FREE), OFFER, 1.0, CALM_WORLD.entry) == Pass(Some(1.95))
  {
    CalmWalks();
    CalmMarketIsStill();
    OneLevelWalk(Buy, CHEAP.asks[0], 1.0);
    OneLevelWalk(Sell, DEAR.bids[0], 1.0);
    var est := EvaluateDirection(FREE, 5.0, PAIR, CHEAP, DEAR, 1.0);
    assert est.Some? && est.value.netEdgeBps == 195.0 && est.value.expectedProfitQuote == 1.95;
  }

  /** The bought unit can be sold again well above the cap. */
  lemma QuietBooksAccept(h: Hedge)
    requires h.symbol == PAIR && h.buyExchange == "a" && h.sellExchange == "b"
    requires h.netPosition == 1.0 && h.realizedPnl == Some(-100.0)
    ensures !Refuses(LIVE, h, QUIET_BOOKS)
  {
    CalmWalks();
    CalmMarketIsStill();
    OneLevelWalk(Sell, DEAR.bids[0], 1.0);
    var t := ChooseTarget(10.0, h, QUIET_BOOKS);
    assert t == Target("b", Sell, 1.0, Some(DEAR));
    assert ProtectedLimitPrice(10.0, Sell, 102.0) == 101.898;
    assert ProjectedPnl(10.0, h, t) == Some(1.898);
  }

  // ---- Exposure that is never given back ----

  ghost predicate Raises(venue: Venue) {
    forall i: OrderIntent :: venue(i).Raised?
  }

  /** A failed group holding the bought unit is sent to repair, and the venue raises. */
  lemma RepairOfBoughtUnitRaises(h: Hedge, venue: Venue)
    requires Raises(venue)
    requires h.symbol == PAIR && h.buyExchange == "a" && h.sellExchange == "b"
    requires h.netPosition == 1.0 && h.realizedPnl == Some(-100.0)
    requires h.state.FailedNeedsRepair? && h.repairAttempts == 0
    ensures RepairStep(LIVE, h, QUIET_BOOKS, venue) == VenueRaised(Attempting(h))
  {
    QuietBooksAccept(h);
    SendIff(LIVE, h, QUIET_BOOKS);
  }

  lemma UnsoldPairFails(h: Hedge, buy: OrderState, sell: OrderState)
    requires h.repairAttempts == 0
    requires buy.filled == 1.0 && buy.avgFillPrice == Some(100.0) && buy.feeAmount.None?
    requires sell.filled == 0.0 && sell.avgFillPrice.None? && sell.feeAmount.None?
    ensures NeedsRepair(BothLegs(h, buy, sell), buy, sell)
    ensures
      var failed := FailedPair(h, buy, sell);
      && failed.netPosition == 1.0 && failed.realizedPnl == Some(-100.0) && failed.repairAttempts == 0
      && failed.state.FailedNeedsRepair?
      && failed.symbol == h.symbol && failed.buyExchange == h.buyExchange && failed.sellExchange == h.sellExchange
  {
    assert buy.Notional() == 100.0 && sell.Notional() == 0.0;
  }

  lemma UnsoldPairRaises(venue: Venue)
    requires Raises(venue)
    ensures !SettleBoth(LIVE, SUBMITTED_OFFER, BOUGHT.state, UNSOLD.state, QUIET_BOOKS, venue).Returned?
  {
    UnsoldPairFails(SUBMITTED_OFFER, BOUGHT.state, UNSOLD.state);
    RepairOfBoughtUnitRaises(FailedPair(SUBMITTED_OFFER, BOUGHT.state, UNSOLD.state), venue);
  }

  /** The buy fills, the sale is cancelled empty, and the venue of the repair raises: the execution
      does not return, and both venues keep the hundred it counted. */
  lemma RaisedRepairLeaksExposure(id: HedgeId)
    ensures
      var world := Answering(BOUGHT, UNSOLD, Raised);
      var after := ExposureOfExecution(NO_EXPOSURE, LIVE_WIRING, OFFER, 1.0, world, id);
      && !Execution(LIVE_WIRING, OFFER, 1.0, world).Returned?
      && after.InFlight("a") == 100.0 && after.InFlight("b") == 100.0 && id in after.open
  {
    var world := Answering(BOUGHT, UNSOLD, Raised);
    LiveGatesPass(LIVE);
    UnsoldPairRaises(VenueAt(Live, LIVE_WIRING.cfg, world.repair));
    assert PlanningNotional(OFFER, 1.0) == 100.0;
    ExposureLeaksExactlyOnException(NO_EXPOSURE, LIVE_WIRING, OFFER, 1.0, world, id, "a");
    ExposureLeaksExactlyOnException(NO_EXPOSURE, LIVE_WIRING, OFFER, 1.0, world, id, "b");
  }

  /** Nothing to trade, the book of the sell venue missing, and no limit on the age of books: the gates
      let it pass and the hedge stays open. */
  lemma EmptyTradeStaysOpen(id: HedgeId)
    ensures
      var books: Books := map[("a", PAIR) := CHEAP];
      var world := CALM_WORLD.(entry := Entry(Some(20), Some(60), None, books));
      var w := CALM_WIRING.(st := QUIET.(maxBookAgeMsForTrade := None));
      && GateVerdict(w.st, w.fees, OFFER, 0.0, world.entry).Pass?
      && id in ExposureOfExecution(NO_EXPOSURE, w, OFFER, 0.0, world, id).open
  {
    var books: Books := map[("a", PAIR) := CHEAP];
    var world := CALM_WORLD.(entry := Entry(Some(20), Some(60), None, books));
    var w := CALM_WIRING.(st := QUIET.(maxBookAgeMsForTrade := None));
    NothingToTradePassesIff(w, OFFER, 0.0, world.entry);
    assert PlanningNotional(OFFER, 0.0) == 0.0;
    NonPositiveNotionalStaysOpen(NO_EXPOSURE, w, OFFER, 0.0, world, id);
  }

  // ---- A rollback whose repair raises ----

  /** The bought unit, its repair attempted and never answered. */
  const LEFT_OVER := Attempting(FailedSurvivor(SUBMITTED_OFFER, Buy, BOUGHT.state))

  lemma UnitLeftOver(h: Hedge, leg: OrderState)
    requires h.executedSell == 0.0 && h.realizedPnl.None? && h.repairAttempts == 0
    requires leg.filled == 1.0 && leg.avgFillPrice == Some(100.0) && leg.feeAmount.None?
    ensures
      var failed := FailedSurvivor(h, Buy, leg);
      && failed.netPosition == 1.0 && failed.realizedPnl == Some(-100.0) && failed.repairAttempts == 0
      && failed.state.FailedNeedsRepair?
      && failed.symbol == h.symbol && failed.buyExchange == h.buyExchange && failed.sellExchange == h.sellExchange
  {
    assert leg.Notional() == 100.0;
  }

  lemma LeftOverFigures()
    ensures LEFT_OVER.symbol == PAIR && LEFT_OVER.buyExchange == "a" && LEFT_OVER.sellExchange == "b"
    ensures LEFT_OVER.netPosition == 1.0 && LEFT_OVER.realizedPnl == Some(-100.0)
    ensures LEFT_OVER.state == HedgeState.Repairing && LEFT_OVER.repairAttempts == 1
  {
    UnitLeftOver(SUBMITTED_OFFER, BOUGHT.state);
  }

  lemma SurvivorIsLeftRepairing(venue: Venue)
    requires Raises(venue)
    ensures Rollback(LIVE, SUBMITTED_OFFER, Buy, BOUGHT.state, QUIET_BOOKS, venue) == LEFT_OVER
  {
    UnitLeftOver(SUBMITTED_OFFER, BOUGHT.state);
    RepairOfBoughtUnitRaises(FailedSurvivor(SUBMITTED_OFFER, Buy, BOUGHT.state), venue);
  }

  /** Past the gates, a bought leg whose sale raised is rolled back. */
  lemma UnansweredSaleRollsBack(w: Wiring, opp: Opportunity, amount: real, world: World, leg: OrderState)
    requires GateVerdict(w.st, w.fees, opp, amount, world.entry).Pass?
    requires BuyAnswer(w, opp, amount, world) == Answered(leg) && SellAnswer(w, opp, amount, world).Raised?
    ensures
      var h := SubmittedHedge(opp, amount, GateVerdict(w.st, w.fees, opp, amount, world.entry));
      Execution(w, opp, amount, world)
      == Returned(Rollback(w.st, h, Buy, leg, world.repairBooks, VenueAt(w.st.mode, w.cfg, world.repair)))
  {}

  /** The buy fills, the sale raises, and so does the repair: the execution returns with the group in
      Repairing. */
  lemma RaisedRollbackStaysRepairing()
    ensures Execution(LIVE_WIRING, OFFER, 1.0, Answering(BOUGHT, Raised, Raised)) == Returned(LEFT_OVER)
    ensures LEFT_OVER.state == HedgeState.Repairing && LEFT_OVER.netPosition == 1.0
  {
    var world := Answering(BOUGHT, Raised, Raised);
    LiveGatesPass(LIVE);
    UnansweredSaleRollsBack(LIVE_WIRING, OFFER, 1.0, world, BOUGHT.state);
    SurvivorIsLeftRepairing(VenueAt(Live, LIVE_WIRING.cfg, world.repair));
    LeftOverFigures();
  }

  /** On a single bid at fifty the cap refuses any group already a hundred down; without a book it has
      no opinion. */
  lemma ThinBooksRefuse(h: Hedge)
    requires h.symbol == PAIR && h.buyExchange == "a" && h.sellExchange == "b"
    requires 0.0 < h.netPosition <= 1.0 && h.realizedPnl.Some? && h.realizedPnl.value <= -100.0
    ensures Refuses(LIVE, h, THIN_BOOKS) && !Refuses(LIVE, h, map[])
  {
    var book := THIN_BOOKS[("b", PAIR)];
    OneLevelWalk(Sell, book.bids[0], h.netPosition);
    var t := ChooseTarget(10.0, h, THIN_BOOKS);
    assert t == Target("b", Sell, h.netPosition, Some(book));
    var limit := ProtectedLimitPrice(10.0, Sell, 50.0);
    assert limit == 49.95;
    TimesMono(limit, h.netPosition, 1.0);
    assert ProjectedPnl(10.0, h, t) == Some(h.realizedPnl.value + Times(limit, h.netPosition));
  }

  /** That group sends nothing when repaired again at once, and does after a refused call. */
  lemma RolledBackGroupSendsAfterRefusal(venue: Venue)
    ensures OrdersSent(LIVE, LEFT_OVER, [Call(map[], venue)]) == 0
    ensures OrdersSent(LIVE, LEFT_OVER, [Call(THIN_BOOKS, venue), Call(map[], venue)]) > 0
  {
    LeftOverFigures();
    StuckUnitSendsAfterRefusal(LEFT_OVER, venue);
  }

  lemma StuckUnitSendsAfterRefusal(h: Hedge, venue: Venue)
    requires h.symbol == PAIR && h.buyExchange == "a" && h.sellExchange == "b"
    requires h.netPosition == 1.0 && h.realizedPnl == Some(-100.0)
    requires h.state == HedgeState.Repairing && h.repairAttempts == 1
    ensures OrdersSent(LIVE, h, [Call(map[], venue)]) == 0
    ensures OrdersSent(LIVE, h, [Call(THIN_BOOKS, venue), Call(map[], venue)]) > 0
  {
    var once, twice := [Call(map[], venue)], [Call(THIN_BOOKS, venue), Call(map[], venue)];
    ThinBooksRefuse(h);
    RepairingRunSendsIff(LIVE, h, h, once);
    RepairingRunSendsIff(LIVE, h, h, twice);
    assert Refusals(LIVE, h, twice)[0] && !Refusals(LIVE, h, twice)[1];
  }

  // ---- A completed group that is not finished ----

  const DUSTY_BUY := Leg(Buy, 1.0, Some(200.0), Filled)
  const DUSTY_SALE := Leg(Sell, 0.999999999, Some(100.0), Filled)

  /** Both legs report themselves filled, a billionth apart and at a loss: the execution completes with
      that residual, whatever the number of repair attempts allowed. */
  lemma DustyExecutionCompletes(st: Settings)
    requires st == LIVE || st == LIVE.(maxRepairAttempts := 0)
    ensures
      var g := Execution(LIVE_WIRING.(st := st), OFFER, 1.0, Answering(DUSTY_BUY, DUSTY_SALE, Raised)).h;
      && g.state.Completed? && g.netPosition == 0.000000001 && g.repairAttempts == 0
      && g.symbol == PAIR && g.buyExchange == "a" && g.sellExchange == "b"
      && g.realizedPnl.Some? && g.realizedPnl.value <= -100.0
  {
    var repair := Answering(DUSTY_BUY, DUSTY_SALE, Raised).repair;
    LiveGatesPass(st);
    DustyPairCompletes(
      st, SUBMITTED_OFFER, DUSTY_BUY.state, DUSTY_SALE.state, QUIET_BOOKS, VenueAt(Live, LIVE_WIRING.cfg, repair));
    assert DUSTY_BUY.state.Notional() == 200.0 && DUSTY_SALE.state.Notional() < 100.0;
  }

  /** A later repair call that the cap refuses takes the completed group back to FailedNeedsRepair,
      which the table does not allow. */
  lemma CompletedDustIsReopened(venue: Venue)
    ensures
      var g := Execution(LIVE_WIRING, OFFER, 1.0, Answering(DUSTY_BUY, DUSTY_SALE, Raised)).h;
      g.state.Completed? && RepairStep(LIVE, g, THIN_BOOKS, venue).h.state.FailedNeedsRepair?
  {
    var g := Execution(LIVE_WIRING, OFFER, 1.0, Answering(DUSTY_BUY, DUSTY_SALE, Raised)).h;
    DustyExecutionCompletes(LIVE);
    ThinBooksRefuse(g);
    TerminalGroupIsLeftIff(LIVE, g, THIN_BOOKS, venue);
  }

  /** Where no repair attempts are allowed, any later call aborts it instead. */
  lemma CompletedDustIsAborted(books: Books, venue: Venue)
    ensures
      var st := LIVE.(maxRepairAttempts := 0);
      var g := Execution(LIVE_WIRING.(st := st), OFFER, 1.0, Answering(DUSTY_BUY, DUSTY_SALE, Raised)).h;
      g.state.Completed? && RepairStep(st, g, books, venue).h.state.Aborted?
  {
    var st := LIVE.(maxRepairAttempts := 0);
    var g := Execution(LIVE_WIRING.(st := st), OFFER, 1.0, Answering(DUSTY_BUY, DUSTY_SALE, Raised)).h;
    DustyExecutionCompletes(st);
    TerminalGroupIsLeftIff(st, g, books, venue);
  }
}
