/** What one execution, followed by any number of repairs, keeps, whatever the venues answer. */
module HedgeSafety {
  import opened Prelude
  import opened OrderBook
  import opened ExecutionPolicy
  import opened SpreadCalculator
  import opened Orders
  import opened Settings
  import opened StateMachine
  import opened HedgeGroup
  import opened Opportunities
  import opened OrderRouter
  import opened RepairEngine
  import opened RepairSafety
  import opened CircuitBreaker
  import opened ExposureManager
  import opened HedgeCoordinator

  ghost predicate SoundWorld(w: Wiring, world: World) {
    && SoundMoment(w.st.mode, w.cfg, world.buy)
    && SoundMoment(w.st.mode, w.cfg, world.sell)
    && SoundMoment(w.st.mode, w.cfg, world.repair)
  }

  lemma LegAnswersAreHonest(w: Wiring, opp: Opportunity, amount: real, world: World)
    requires SoundWorld(w, world) && 0.0 <= amount
    ensures Honest(LegIntent(w.st, opp, Buy, amount), BuyAnswer(w, opp, amount, world))
    ensures Honest(LegIntent(w.st, opp, Sell, amount), SellAnswer(w, opp, amount, world))
    ensures HonestVenue(VenueAt(w.st.mode, w.cfg, world.repair))
  {
    RouterIsHonest(w.st.mode, w.cfg, world.buy);
    RouterIsHonest(w.st.mode, w.cfg, world.sell);
    RouterIsHonest(w.st.mode, w.cfg, world.repair);
    assert Honest(LegIntent(w.st, opp, Buy, amount), VenueAt(w.st.mode, w.cfg, world.buy)(LegIntent(w.st, opp, Buy, amount)));
    assert Honest(LegIntent(w.st, opp, Sell, amount), VenueAt(w.st.mode, w.cfg, world.sell)(LegIntent(w.st, opp, Sell, amount)));
  }

  /** A group just before the repair engine is called by the coordinator. */
  function FailedPair(h: Hedge, buy: OrderState, sell: OrderState): Hedge {
    BothLegs(h, buy, sell).Because(PartialFill).Enter(FailedNeedsRepair)
  }

  function FailedSurvivor(h: Hedge, side: Side, leg: OrderState): Hedge {
    Survivor(h, side, leg).Because(SingleLegFailed).Enter(FailedNeedsRepair)
  }

  lemma SettleIsConsistent(st: Settings, h: Hedge, buy: Answer, sell: Answer, books: Books, venue: Venue)
    requires Consistent(st, h) && h.executedBuy == h.executedSell == 0.0 && HonestVenue(venue)
    ensures Consistent(st, Settle(st, h, buy, sell, books, venue).h)
  {
    if buy.Answered? && sell.Answered? {
      RepairStepIsSafe(st, FailedPair(h, buy.state, sell.state), books, venue);
    } else if buy.Answered? {
      RepairStepIsSafe(st, FailedSurvivor(h, Buy, buy.state), books, venue);
    } else if sell.Answered? {
      RepairStepIsSafe(st, FailedSurvivor(h, Sell, sell.state), books, venue);
    }
  }

  lemma ExecutionIsConsistent(w: Wiring, opp: Opportunity, amount: real, world: World)
    requires SoundWorld(w, world) && 0.0 <= amount
    ensures Consistent(w.st, Execution(w, opp, amount, world).h)
  {
    var v := GateVerdict(w.st, w.fees, opp, amount, world.entry);
    LegAnswersAreHonest(w, opp, amount, world);
    if v.Pass? {
      SettleIsConsistent(
        w.st, SubmittedHedge(opp, amount, v), BuyAnswer(w, opp, amount, world), SellAnswer(w, opp, amount, world),
        world.repairBooks, VenueAt(w.st.mode, w.cfg, world.repair));
    }
  }

  /** Over one execution and any sequence of later repairs, for any honest venue answers: a
      completed group is flat to within dust, and an aborted one is flat or out of attempts. */
  lemma CompletedMeansFlat(w: Wiring, opp: Opportunity, amount: real, world: World, calls: seq<Call>)
    requires SoundWorld(w, world) && 0.0 <= amount && AllHonest(calls)
    ensures
      SettledMeansFlat(w.st, RunRepairs(w.st, Execution(w, opp, amount, world).h, calls))
  {
    ExecutionIsConsistent(w, opp, amount, world);
    RunEndsSettledFlat(w.st, Execution(w, opp, amount, world).h, calls);
  }

  ghost predicate SettledMeansFlat(st: Settings, g: Hedge) {
    && g.netPosition == g.executedBuy - g.executedSell
    && (g.state.Completed? ==> Abs(g.executedBuy - g.executedSell) <= DUST)
    && (g.state.Aborted? ==> Abs(g.executedBuy - g.executedSell) <= DUST || g.repairAttempts >= st.maxRepairAttempts)
  }

  lemma RunEndsSettledFlat(st: Settings, h: Hedge, calls: seq<Call>)
    requires Consistent(st, h) && AllHonest(calls)
    ensures SettledMeansFlat(st, RunRepairs(st, h, calls))
  {
    RunIsSafe(st, h, calls);
  }

  // ---- The trail of states ----

  /** An edge of the table, a refused repair staying where it was, or the shortcut of a failed group
      found exactly flat. */
  predicate Step(from: HedgeState, to: HedgeState) {
    CanTransition(from, to) || (from.FailedNeedsRepair? && to.FailedNeedsRepair?) || IsShortcut(from, to)
  }

  predicate IsShortcut(from: HedgeState, to: HedgeState) {
    from.FailedNeedsRepair? && to.Completed?
  }

  ghost predicate LegalTrail(t: seq<HedgeState>) {
    && t != [] && t[0] == New
    && forall k :: 0 <= k < |t| - 1 ==> Step(t[k], t[k + 1])
  }

  ghost predicate TakesShortcut(t: seq<HedgeState>) {
    exists k :: 0 <= k < |t| - 1 && IsShortcut(t[k], t[k + 1])
  }

  lemma AppendKeepsTrailLegal(t: seq<HedgeState>, s: HedgeState)
    requires LegalTrail(t) && Step(t[|t| - 1], s)
    ensures LegalTrail(t + [s])
    ensures TakesShortcut(t + [s]) <==> TakesShortcut(t) || IsShortcut(t[|t| - 1], s)
  {
    var u := t + [s];
    assert forall k :: 0 <= k < |t| ==> u[k] == t[k];
    if TakesShortcut(t) {
      var k :| 0 <= k < |t| - 1 && IsShortcut(t[k], t[k + 1]);
      assert IsShortcut(u[k], u[k + 1]);
    }
    if IsShortcut(t[|t| - 1], s) {
      assert IsShortcut(u[|t| - 1], u[|t| - 1 + 1]);
    }
  }

  lemma RepairFollowsTable(st: Settings, h: Hedge, books: Books, venue: Venue)
    requires LegalTrail(h.trail) && h.trail[|h.trail| - 1] == h.state == FailedNeedsRepair
    ensures
      var o := RepairStep(st, h, books, venue);
      && !o.IllegalTransition?
      && o.h.trail == h.trail + Moves(st, h, books, venue)
      && LegalTrail(o.h.trail) && o.h.trail[|o.h.trail| - 1] == o.h.state
      && (TakesShortcut(o.h.trail) <==> TakesShortcut(h.trail) || h.netPosition == 0.0)
  {
    var o := RepairStep(st, h, books, venue);
    RepairTrail(st, h, books, venue);
    var path := Moves(st, h, books, venue);
    AppendKeepsTrailLegal(h.trail, path[0]);
    if |path| == 2 {
      AppendKeepsTrailLegal(h.trail + [path[0]], path[1]);
      assert h.trail + path == h.trail + [path[0]] + [path[1]];
    }
  }

  lemma RepairTrail(st: Settings, h: Hedge, books: Books, venue: Venue)
    requires h.state.FailedNeedsRepair?
    ensures
      var o := RepairStep(st, h, books, venue);
      var path := Moves(st, h, books, venue);
      && !o.IllegalTransition?
      && o.h.trail == h.trail + path && path != [] && path[|path| - 1] == o.h.state
      && Step(FailedNeedsRepair, path[0]) && (|path| == 2 ==> path[0] == HedgeState.Repairing && Step(path[0], path[1]))
      && (path[0].Completed? <==> h.netPosition == 0.0)
  {
    SendIff(st, h, books);
    TrailGrowsByMoves(st, h, books, venue);
  }

  const SUBMITTED := [New, Planning, Submitting]

  lemma SubmittedIsLegal()
    ensures LegalTrail(SUBMITTED) && !TakesShortcut(SUBMITTED)
  {}

  lemma SettleFollowsTable(st: Settings, h: Hedge, buy: Answer, sell: Answer, books: Books, venue: Venue)
    requires h.trail == SUBMITTED && h.state.Submitting? && h.executedBuy == h.executedSell == 0.0
    ensures
      var o := Settle(st, h, buy, sell, books, venue);
      && !o.IllegalTransition?
      && LegalTrail(o.h.trail) && o.h.trail[|o.h.trail| - 1] == o.h.state
      && (TakesShortcut(o.h.trail) <==>
          && buy.Answered? && sell.Answered? && buy.state.filled == sell.state.filled
          && !(buy.state.status.Filled? && sell.state.status.Filled?))
  {
    SubmittedIsLegal();
    if buy.Answered? && sell.Answered? {
      PairFollowsTable(st, h, buy.state, sell.state, books, venue);
    } else if buy.Answered? {
      SurvivorFollowsTable(st, h, Buy, buy.state, books, venue);
    } else if sell.Answered? {
      SurvivorFollowsTable(st, h, Sell, sell.state, books, venue);
    } else {
      AppendKeepsTrailLegal(SUBMITTED, Aborted);
    }
  }

  lemma PairFollowsTable(st: Settings, h: Hedge, buy: OrderState, sell: OrderState, books: Books, venue: Venue)
    requires h.trail == SUBMITTED && h.state.Submitting?
    ensures
      var o := SettleBoth(st, h, buy, sell, books, venue);
      && !o.IllegalTransition?
      && LegalTrail(o.h.trail) && o.h.trail[|o.h.trail| - 1] == o.h.state
      && (TakesShortcut(o.h.trail) <==> buy.filled == sell.filled && !(buy.status.Filled? && sell.status.Filled?))
  {
    SubmittedIsLegal();
    AppendKeepsTrailLegal(SUBMITTED, Hedging);
    var hedging := SUBMITTED + [Hedging];
    var g := BothLegs(h, buy, sell);
    assert g.trail == hedging;
    if NeedsRepair(g, buy, sell) {
      AppendKeepsTrailLegal(hedging, FailedNeedsRepair);
      RepairFollowsTable(st, FailedPair(h, buy, sell), books, venue);
    } else {
      AppendKeepsTrailLegal(hedging, Completed);
    }
  }

  lemma SurvivorFollowsTable(st: Settings, h: Hedge, side: Side, leg: OrderState, books: Books, venue: Venue)
    requires h.trail == SUBMITTED && h.state.Submitting?
    ensures
      var g := Rollback(st, h, side, leg, books, venue);
      LegalTrail(g.trail) && g.trail[|g.trail| - 1] == g.state && !TakesShortcut(g.trail)
  {
    SubmittedIsLegal();
    if Flat(Survivor(h, side, leg)) {
      AppendKeepsTrailLegal(SUBMITTED, Aborted);
    } else {
      AppendKeepsTrailLegal(SUBMITTED, FailedNeedsRepair);
      RepairFollowsTable(st, FailedSurvivor(h, side, leg), books, venue);
    }
  }

  /** The group as it stands when its legs are submitted. */
  function SubmittedHedge(opp: Opportunity, amount: real, v: Verdict): Hedge {
    PlannedGroup(opp, amount, v).Enter(Submitting).(planningNotional := PlanningNotional(opp, amount))
  }

  /** Every change of state made inside one execution is an edge of the table, a refused repair
      staying put, or the shortcut from FailedNeedsRepair to Completed; no transition check can
      fire.  The shortcut is taken exactly when both legs answered, filled alike, and one of them
      did not report itself filled. */
  lemma ExecutionFollowsTable(w: Wiring, opp: Opportunity, amount: real, world: World)
    ensures
      var o := Execution(w, opp, amount, world);
      var buy, sell := BuyAnswer(w, opp, amount, world), SellAnswer(w, opp, amount, world);
      && !o.IllegalTransition?
      && LegalTrail(o.h.trail) && o.h.trail[|o.h.trail| - 1] == o.h.state
      && (TakesShortcut(o.h.trail) <==>
          && GateVerdict(w.st, w.fees, opp, amount, world.entry).Pass?
          && buy.Answered? && sell.Answered? && buy.state.filled == sell.state.filled
          && !(buy.state.status.Filled? && sell.state.status.Filled?))
  {
    var v := GateVerdict(w.st, w.fees, opp, amount, world.entry);
    if v.Stop? {
      assert [New] + [Planning] == [New, Planning];
      StoppedFollowsTable(opp, amount, v);
    } else {
      assert SubmittedHedge(opp, amount, v).trail == SUBMITTED;
      SettleFollowsTable(
        w.st, SubmittedHedge(opp, amount, v), BuyAnswer(w, opp, amount, world), SellAnswer(w, opp, amount, world),
        world.repairBooks, VenueAt(w.st.mode, w.cfg, world.repair));
    }
  }

  lemma StoppedFollowsTable(opp: Opportunity, amount: real, v: Verdict)
    requires v.Stop?
    ensures
      var g := Stopped(opp, amount, v);
      LegalTrail(g.trail) && g.state.Aborted? && g.trail[|g.trail| - 1] == g.state && !TakesShortcut(g.trail)
  {
    AppendKeepsTrailLegal([New], Aborted);
    AppendKeepsTrailLegal([New], Planning);
    AppendKeepsTrailLegal([New] + [Planning], Aborted);
  }

  lemma LegalTrailNeverLeavesTerminal(t: seq<HedgeState>, k: nat)
    requires LegalTrail(t) && k < |t| - 1
    ensures !Terminal(t[k])
  {
    assert Step(t[k], t[k + 1]);
  }

  /** No terminal state is ever left inside an execution. */
  lemma TerminalStatesAreLast(w: Wiring, opp: Opportunity, amount: real, world: World, k: nat)
    requires k < |Execution(w, opp, amount, world).h.trail| - 1
    ensures !Terminal(Execution(w, opp, amount, world).h.trail[k])
  {
    ExecutionFollowsTable(w, opp, amount, world);
    LegalTrailNeverLeavesTerminal(Execution(w, opp, amount, world).h.trail, k);
  }

  // ---- Exceptions ----

  /** An execution ends in an exception exactly when both legs answered, the pair was sent to
      repair, and the repair order's venue raised. */
  lemma ExecutionRaisesIff(w: Wiring, opp: Opportunity, amount: real, world: World)
    ensures
      var v := GateVerdict(w.st, w.fees, opp, amount, world.entry);
      var buy, sell := BuyAnswer(w, opp, amount, world), SellAnswer(w, opp, amount, world);
      var h := SubmittedHedge(opp, amount, v);
      var venue := VenueAt(w.st.mode, w.cfg, world.repair);
      !Execution(w, opp, amount, world).Returned? <==>
      && v.Pass? && buy.Answered? && sell.Answered?
      && NeedsRepair(BothLegs(h, buy.state, sell.state), buy.state, sell.state)
      && var plan := PlanRepair(w.st, FailedPair(h, buy.state, sell.state), world.repairBooks);
         plan.Send? && venue(plan.intent).Raised?
  {
    ExecutionFollowsTable(w, opp, amount, world);
  }

  /** The figures after a trade past the gates: a trade that raised, or whose notional is not positive,
      keeps its notional counted on both venues and its identifier open. */
  lemma TradeLeavesExposure(before: Exposure, opp: Opportunity, amount: real, raised: bool, id: HedgeId, at: Exchange)
    requires opp.buyExchange != opp.sellExchange && id !in before.open
    requires forall ex :: 0.0 <= before.InFlight(ex)
    ensures
      var after := ExposureOfTrade(before, opp, amount, raised, id);
      var notional := PlanningNotional(opp, amount);
      var kept := raised || notional <= 0.0;
      && after.open == before.open + (if kept then {id} else {})
      && after.InFlight(at) == before.InFlight(at)
         + (if kept && at in {opp.buyExchange, opp.sellExchange} then notional else 0.0)
  {
    if PlanningNotional(opp, amount) > 0.0 {
      PairNetsToZero(before, opp.buyExchange, opp.sellExchange, PlanningNotional(opp, amount), id, at);
    }
  }

  /** What an execution of a positive notional leaves in the exposure figures: nothing when it returns,
      its whole planning notional on both venues, and its entry among the open hedges, when it
      raises. */
  lemma ExposureLeaksExactlyOnException(
      before: Exposure, w: Wiring, opp: Opportunity, amount: real, world: World, id: HedgeId, at: Exchange)
    requires opp.buyExchange != opp.sellExchange && id !in before.open
    requires forall ex :: 0.0 <= before.InFlight(ex)
    requires 0.0 < PlanningNotional(opp, amount)
    ensures
      var after := ExposureOfExecution(before, w, opp, amount, world, id);
      var raised := !Execution(w, opp, amount, world).Returned?;
      && after.open == before.open + (if raised then {id} else {})
      && after.InFlight(at) == before.InFlight(at)
         + (if raised && at in {opp.buyExchange, opp.sellExchange} then PlanningNotional(opp, amount) else 0.0)
  {
    TradeLeavesExposure(before, opp, amount, !Execution(w, opp, amount, world).Returned?, id, at);
  }

  /** Exactly when a hedge stays among the open ones after its execution: it got past the gates, and
      then raised or had a notional that is not positive, which is never released. */
  lemma NonPositiveNotionalStaysOpen(
      before: Exposure, w: Wiring, opp: Opportunity, amount: real, world: World, id: HedgeId)
    requires id !in before.open
    ensures
      id in ExposureOfExecution(before, w, opp, amount, world, id).open <==>
      && GateVerdict(w.st, w.fees, opp, amount, world.entry).Pass?
      && (!Execution(w, opp, amount, world).Returned? || PlanningNotional(opp, amount) <= 0.0)
  {}

  /** Exactly when an execution with nothing to trade gets past the gates: the signal is fresh, and
      either there is no calculator to ask or a book is missing and the books are not too old.  With a
      calculator and both books it is always stopped. */
  lemma NothingToTradePassesIff(w: Wiring, opp: Opportunity, amount: real, e: Entry)
    requires amount <= 0.0
    ensures
      GateVerdict(w.st, w.fees, opp, amount, e).Pass? <==>
      && !SignalTooOldAt(w.st, e)
      && (w.fees.None?
          || (&& !BooksTooOld(w.st, e)
              && (Lookup(e.books, opp.buyExchange, opp.symbol).None?
                  || Lookup(e.books, opp.sellExchange, opp.symbol).None?)))
  {}

  /** A rollback ends in Repairing, not in FailedNeedsRepair, although the execution returns normally,
      exactly when the survivor left a position, attempts are left, the loss cap accepts the books,
      and the venue the repair order goes to raises. */
  lemma RollbackExceptionLeavesRepairing(st: Settings, h: Hedge, side: Side, leg: OrderState, books: Books, venue: Venue)
    ensures
      var failed := FailedSurvivor(h, side, leg);
      Rollback(st, h, side, leg, books, venue).state == HedgeState.Repairing <==>
      && !Flat(Survivor(h, side, leg))
      && h.repairAttempts < st.maxRepairAttempts
      && !Refuses(st, failed, books)
      && venue(RepairIntent(st, failed, ChooseTarget(st.iocPriceBufferBps, failed, books))).Raised?
  {
    SendIff(st, FailedSurvivor(h, side, leg), books);
  }

  /** Two legs that both report themselves filled, a billionth apart, complete with a residual: such
      groups are where later repair calls can leave a terminal state. */
  lemma DustyPairCompletes(st: Settings, h: Hedge, buy: OrderState, sell: OrderState, books: Books, venue: Venue)
    requires buy.status.Filled? && sell.status.Filled? && buy.filled == 1.0 && sell.filled == 0.999999999
    ensures
      var o := SettleBoth(st, h, buy, sell, books, venue);
      && o.Returned? && o.h.state.Completed? && o.h.netPosition == 0.000000001 && Consistent(st, o.h)
      && o.h.realizedPnl == Some(sell.Notional() - buy.Notional() - (buy.Fee() + sell.Fee()))
      && o.h.repairAttempts == h.repairAttempts
      && o.h.symbol == h.symbol && o.h.buyExchange == h.buyExchange && o.h.sellExchange == h.sellExchange
  {}

  // ---- The gates, read off their inputs ----

  /** Exactly when an execution gets past its gates: the signal is within its age limit; where there is
      a calculator, both books have an age and are within theirs; and where both books are there,
      their edge at the approved size is at least the minimum and both in-band depths are at least the
      required share of it. */
  lemma GatesPassIff(st: Settings, fees: Option<FeeSchedule>, opp: Opportunity, amount: real, e: Entry)
    ensures
      var buyKey, sellKey := (opp.buyExchange, opp.symbol), (opp.sellExchange, opp.symbol);
      GateVerdict(st, fees, opp, amount, e).Pass? <==>
      && (st.maxSignalToOrderMs.Some? && e.signalMs.Some? ==> e.signalMs.value <= st.maxSignalToOrderMs.value)
      && (fees.Some? && st.maxBookAgeMsForTrade.Some? ==>
            && e.buyAgeMs.Some? && e.buyAgeMs.value <= st.maxBookAgeMsForTrade.value
            && e.sellAgeMs.Some? && e.sellAgeMs.value <= st.maxBookAgeMsForTrade.value)
      && (fees.Some? && buyKey in e.books && sellKey in e.books ==>
            var buyBook, sellBook := e.books[buyKey], e.books[sellKey];
            var est := EvaluateDirection(fees.value, st.scanBufferBps, opp.symbol, buyBook, sellBook, amount);
            && est.Some? && st.minNetEdgeBps <= est.value.netEdgeBps
            && (0.0 < st.minInBandDepthRatio ==>
                  && Times(amount, st.minInBandDepthRatio) <= InBandDepth(Some(buyBook), Buy, st.iocPriceBufferBps)
                  && Times(amount, st.minInBandDepthRatio) <= InBandDepth(Some(sellBook), Sell, st.iocPriceBufferBps)))
  {}

  /** Which gate stops it: the first of signal age, book ages, edge and depth that fails. */
  lemma GateStopsForFirstFailure(st: Settings, fees: Option<FeeSchedule>, opp: Opportunity, amount: real, e: Entry)
    requires GateVerdict(st, fees, opp, amount, e).Stop?
    ensures
      var reason := GateVerdict(st, fees, opp, amount, e).reason;
      var buyKey, sellKey := (opp.buyExchange, opp.symbol), (opp.sellExchange, opp.symbol);
      var late := st.maxSignalToOrderMs.Some? && e.signalMs.Some? && st.maxSignalToOrderMs.value < e.signalMs.value;
      var aged := fees.Some? && st.maxBookAgeMsForTrade.Some? &&
                  (|| e.buyAgeMs.None? || st.maxBookAgeMsForTrade.value < e.buyAgeMs.value
                   || e.sellAgeMs.None? || st.maxBookAgeMsForTrade.value < e.sellAgeMs.value);
      var gone := fees.Some? && buyKey in e.books && sellKey in e.books &&
                  var est := EvaluateDirection(
                               fees.value, st.scanBufferBps, opp.symbol, e.books[buyKey], e.books[sellKey], amount);
                  est.None? || est.value.netEdgeBps < st.minNetEdgeBps;
      reason == if late then SignalTooOld else if aged then BookTooOld else if gone then EdgeVanished else InsufficientDepth
  {}

  /** A group stopped at a gate, for whichever reason, is aborted with that reason before any order:
      nothing was submitted, filled, executed, booked or counted. */
  lemma StoppedGroupIsUntouched(w: Wiring, opp: Opportunity, amount: real, world: World, before: Exposure, id: HedgeId)
    requires GateVerdict(w.st, w.fees, opp, amount, world.entry).Stop?
    ensures
      var o := Execution(w, opp, amount, world);
      && o.Returned? && o.h.state.Aborted?
      && o.h.failureReason == Some(GateVerdict(w.st, w.fees, opp, amount, world.entry).reason)
      && o.h.fills == [] && o.h.trail == (if o.h.failureReason == Some(SignalTooOld) then [New, Aborted] else [New, Planning, Aborted])
      && o.h.executedBuy == o.h.executedSell == o.h.netPosition == 0.0
      && o.h.realizedPnl.None? && o.h.actualFee == 0.0 && o.h.repairAttempts == 0
      && ExposureOfExecution(before, w, opp, amount, world, id) == before
  {}

  /** The two orders: for the same amount on the two venues, of the configured type, at the protected
      limits of the signal's prices, or unpriced at market. */
  lemma LegOrdersAreAlike(st: Settings, opp: Opportunity, amount: real)
    ensures
      var buy, sell := LegIntent(st, opp, Buy, amount), LegIntent(st, opp, Sell, amount);
      && buy.exchange == opp.buyExchange && sell.exchange == opp.sellExchange
      && buy.side == Buy && sell.side == Sell && buy.symbol == sell.symbol == opp.symbol
      && buy.amount == sell.amount == amount && buy.orderType == sell.orderType == st.orderType
      && !buy.isRepair && !sell.isRepair
      && (st.orderType == Market ==> buy.price.None? && sell.price.None?)
      && (st.orderType != Market ==>
            && buy.price == Some(ProtectedLimitPrice(st.iocPriceBufferBps, Buy, opp.buyPrice))
            && sell.price == Some(ProtectedLimitPrice(st.iocPriceBufferBps, Sell, opp.sellPrice)))
  {}

  /** Two answered legs complete without a repair exactly when both report themselves filled and no
      more than a hundred-millionth apart; otherwise the group is handed to the repair engine as
      partially filled. */
  lemma PairIsRepairedIff(st: Settings, h: Hedge, buy: OrderState, sell: OrderState, books: Books, venue: Venue)
    ensures
      var o := SettleBoth(st, h, buy, sell, books, venue);
      var done := buy.status == Filled && sell.status == Filled && -0.00000001 <= buy.filled - sell.filled <= 0.00000001;
      && (done ==> o == Returned(BothLegs(h, buy, sell).Enter(Completed)))
      && (!done ==> o == RepairStep(st, FailedPair(h, buy, sell), books, venue))
      && FailedPair(h, buy, sell).failureReason == (if h.failureReason.Some? then h.failureReason else Some(PartialFill))
  {}

  /** A survivor is handed to the repair engine exactly when it left more than a hundred-millionth, and
      aborted otherwise. */
  lemma SurvivorIsRepairedIff(st: Settings, h: Hedge, side: Side, leg: OrderState, books: Books, venue: Venue)
    requires h.executedBuy == h.executedSell == 0.0
    ensures
      var g := Rollback(st, h, side, leg, books, venue);
      && (-0.00000001 <= leg.filled <= 0.00000001 ==> g == Survivor(h, side, leg).Enter(Aborted))
      && (!(-0.00000001 <= leg.filled <= 0.00000001) ==>
            g == RepairStep(st, FailedSurvivor(h, side, leg), books, venue).h)
  {}

  // ---- What the breaker hears ----

  /** The breaker hears of both submissions, and then, of an execution that returned after at least one
      leg answered, the profit the group realised, if it has one. */
  lemma BreakerHearsProfit(w: Wiring, opp: Opportunity, amount: real, world: World, now: real)
    ensures
      var buy, sell := BuyAnswer(w, opp, amount, world), SellAnswer(w, opp, amount, world);
      var o := Execution(w, opp, amount, world);
      var heard := EventsOfTrade(buy, sell, now, o);
      && 2 <= |heard| <= 3
      && heard[0] == Submission(now, buy.Answered?) && heard[1] == Submission(now, sell.Answered?)
      && (|heard| == 3 <==> (buy.Answered? || sell.Answered?) && o.Returned? && o.h.realizedPnl.Some?)
      && (|heard| == 3 ==> heard[2] == Closed(o.h.realizedPnl.value))
  {}

  /** The terms of a group are those of its opportunity, from the gates to the last repair of its
      execution; past the gates its planning notional is the amount at the buy price, or at one when
      that is missing. */
  lemma ExecutionKeepsTerms(w: Wiring, opp: Opportunity, amount: real, world: World)
    ensures
      var g := Execution(w, opp, amount, world).h;
      && g.symbol == opp.symbol && g.buyExchange == opp.buyExchange && g.sellExchange == opp.sellExchange
      && g.targetAmount == amount
      && (GateVerdict(w.st, w.fees, opp, amount, world.entry).Pass? ==>
            g.planningNotional == Times(amount, if opp.buyPrice == 0.0 then 1.0 else opp.buyPrice))
  {
    var v := GateVerdict(w.st, w.fees, opp, amount, world.entry);
    if v.Pass? {
      SettleKeepsTerms(
        w.st, SubmittedHedge(opp, amount, v), BuyAnswer(w, opp, amount, world), SellAnswer(w, opp, amount, world),
        world.repairBooks, VenueAt(w.st.mode, w.cfg, world.repair));
    }
  }

  /** When neither leg is answered the group is aborted with nothing filled, and nothing of it stays
      counted if its notional was positive. */
  lemma UnansweredPairIsAborted(
      before: Exposure, w: Wiring, opp: Opportunity, amount: real, world: World, id: HedgeId, at: Exchange)
    requires GateVerdict(w.st, w.fees, opp, amount, world.entry).Pass?
    requires BuyAnswer(w, opp, amount, world).Raised? && SellAnswer(w, opp, amount, world).Raised?
    requires opp.buyExchange != opp.sellExchange && id !in before.open
    requires (forall ex :: 0.0 <= before.InFlight(ex)) && 0.0 < PlanningNotional(opp, amount)
    ensures
      var o := Execution(w, opp, amount, world);
      var after := ExposureOfExecution(before, w, opp, amount, world, id);
      && o.Returned? && o.h.state.Aborted? && o.h.fills == [] && o.h.netPosition == 0.0 && o.h.realizedPnl.None?
      && after.open == before.open && after.InFlight(at) == before.InFlight(at)
  {
    TradeLeavesExposure(before, opp, amount, false, id, at);
  }
}
