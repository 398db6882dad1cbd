/** Turns an approved opportunity into a two-leg hedge: gates, submission, settlement, rollback. */
module HedgeCoordinator {
  import opened Prelude
  import opened OrderBook
  import opened ExecutionPolicy
  import opened SpreadCalculator
  import opened Orders
  import opened Settings
  import opened StateMachine
  import opened HedgeGroup
  import opened Opportunities
  import opened OrderRouter
  import opened RepairEngine
  import opened ExposureManager
  import opened CircuitBreaker
  import PaperFillEngine

  /** What the coordinator sees when it starts: the age of the signal, the books and their ages. */
  datatype Entry = Entry(signalMs: Option<int>, buyAgeMs: Option<int>, sellAgeMs: Option<int>, books: Books)

  // ---- Gates ----

  datatype Verdict = Stop(reason: Reason, expected: Option<real>) | Pass(expected: Option<real>)

  predicate Exceeds(age: Option<int>, max: int) {
    age.None? || age.value > max
  }

  predicate SignalTooOldAt(st: Settings, e: Entry) {
    st.maxSignalToOrderMs.Some? && e.signalMs.Some? && e.signalMs.value > st.maxSignalToOrderMs.value
  }

  predicate BooksTooOld(st: Settings, e: Entry) {
    st.maxBookAgeMsForTrade.Some?
    && (Exceeds(e.buyAgeMs, st.maxBookAgeMsForTrade.value) || Exceeds(e.sellAgeMs, st.maxBookAgeMsForTrade.value))
  }

  predicate TooThin(st: Settings, buyBook: Book, sellBook: Book, amount: real) {
    var required := Times(amount, st.minInBandDepthRatio);
    InBandDepth(Some(buyBook), Buy, st.iocPriceBufferBps) < required
    || InBandDepth(Some(sellBook), Sell, st.iocPriceBufferBps) < required
  }

  /** The checks made on the books once the signal is fresh enough. */
  function Revalidate(st: Settings, fees: FeeSchedule, opp: Opportunity, amount: real, e: Entry): Verdict {
    if BooksTooOld(st, e) then Stop(BookTooOld, None)
    else
      var buyBook := Lookup(e.books, opp.buyExchange, opp.symbol);
      var sellBook := Lookup(e.books, opp.sellExchange, opp.symbol);
      if buyBook.None? || sellBook.None? then Pass(None)
      else
        var est := EvaluateDirection(fees, st.scanBufferBps, opp.symbol, buyBook.value, sellBook.value, amount);
        if est.None? || est.value.netEdgeBps < st.minNetEdgeBps then Stop(EdgeVanished, None)
        else
          var expected := Some(est.value.expectedProfitQuote);
          if st.minInBandDepthRatio > 0.0 && TooThin(st, buyBook.value, sellBook.value, amount)
          then Stop(InsufficientDepth, expected)
          else Pass(expected)
  }

  // ---- Orders ----

  function LegIntent(st: Settings, opp: Opportunity, side: Side, amount: real): OrderIntent {
    var reference := if side.Buy? then opp.buyPrice else opp.sellPrice;
    OrderIntent(
      if side.Buy? then opp.buyExchange else opp.sellExchange,
      opp.symbol, side, st.orderType,
      if st.orderType.Market? then None else Some(ProtectedLimitPrice(st.iocPriceBufferBps, side, reference)),
      amount, false)
  }

  /** Exposure is counted at the buy price; a missing price counts as one. */
  function PlanningNotional(opp: Opportunity, amount: real): real {
    Times(amount, if opp.buyPrice == 0.0 then 1.0 else opp.buyPrice)
  }

  // ---- Settlement ----

  /** Both legs answered: amounts, position, profit and fees of the pair. */
  function BothLegs(h: Hedge, buy: OrderState, sell: OrderState): Hedge {
    var fees := buy.Fee() + sell.Fee();
    h.Enter(Hedging).(
      executedBuy := buy.filled,
      executedSell := sell.filled,
      netPosition := buy.filled - sell.filled,
      realizedPnl := Some(sell.Notional() - buy.Notional() - fees),
      actualFee := fees,
      fills := h.fills + [buy, sell])
  }

  predicate NeedsRepair(h: Hedge, buy: OrderState, sell: OrderState) {
    !buy.status.Filled? || !sell.status.Filled? || !Flat(h)
  }

  /** One leg answered, the other raised: the survivor's amounts, and its profit if it filled. */
  function Survivor(h: Hedge, side: Side, leg: OrderState): Hedge {
    var buy := if side.Buy? then leg.filled else h.executedBuy;
    var sell := if side.Buy? then h.executedSell else leg.filled;
    SurvivorPnl(h, side, leg).(
      executedBuy := buy, executedSell := sell, netPosition := buy - sell, fills := h.fills + [leg])
  }

  /** Profit and fee of a survivor that filled; priced at zero when no price was reported. */
  function SurvivorPnl(h: Hedge, side: Side, leg: OrderState): Hedge {
    if 0.0 < leg.filled
    then h.(actualFee := h.actualFee + leg.Fee(), realizedPnl := Booked(h.realizedPnl, leg.Cash(side)))
    else h
  }

  /** The survivor is handed to the repair engine if it left a position; an exception there is
      swallowed and the group stays as the repair left it. */
  function Rollback(st: Settings, h: Hedge, side: Side, leg: OrderState, books: Books, venue: Venue): Hedge {
    var g := Survivor(h, side, leg);
    if Flat(g) then g.Enter(Aborted)
    else RepairStep(st, g.Because(SingleLegFailed).Enter(FailedNeedsRepair), books, venue).h
  }

  /** The fills a rollback's repair adds to those of the survivor. */
  function RollbackFills(st: Settings, h: Hedge, side: Side, leg: OrderState, books: Books, venue: Venue): seq<OrderState> {
    var g := Survivor(h, side, leg);
    if Flat(g) then [] else RepairFills(st, g.Because(SingleLegFailed).Enter(FailedNeedsRepair), books, venue)
  }

  function Settle(st: Settings, h: Hedge, buy: Answer, sell: Answer, books: Books, venue: Venue): Outcome {
    if buy.Raised? && sell.Raised? then Returned(h.Enter(Aborted))
    else if sell.Raised? then Returned(Rollback(st, h, Buy, buy.state, books, venue))
    else if buy.Raised? then Returned(Rollback(st, h, Sell, sell.state, books, venue))
    else SettleBoth(st, h, buy.state, sell.state, books, venue)
  }

  /** The fills the settlement of two answers adds to those of the legs themselves. */
  function SettleFills(st: Settings, h: Hedge, buy: Answer, sell: Answer, books: Books, venue: Venue): seq<OrderState> {
    if buy.Raised? && sell.Raised? then []
    else if sell.Raised? then RollbackFills(st, h, Buy, buy.state, books, venue)
    else if buy.Raised? then RollbackFills(st, h, Sell, sell.state, books, venue)
    else BothLegsFills(st, h, buy.state, sell.state, books, venue)
  }

  function BothLegsFills(st: Settings, h: Hedge, buy: OrderState, sell: OrderState, books: Books, venue: Venue)
    : seq<OrderState>
  {
    var g := BothLegs(h, buy, sell);
    if NeedsRepair(g, buy, sell)
    then RepairFills(st, g.Because(PartialFill).Enter(FailedNeedsRepair), books, venue)
    else []
  }

  lemma SettleAppendsItsFills(st: Settings, h: Hedge, buy: Answer, sell: Answer, books: Books, venue: Venue)
    ensures
      Settle(st, h, buy, sell, books, venue).h.fills
      == h.fills + (FillsOf(buy) + FillsOf(sell) + SettleFills(st, h, buy, sell, books, venue))
  {
    if buy.Answered? && sell.Answered? {
      var g := BothLegs(h, buy.state, sell.state);
      assert [buy.state] + [sell.state] == [buy.state, sell.state];
      RepairAppendsItsFills(st, g.Because(PartialFill).Enter(FailedNeedsRepair), books, venue);
    } else if buy.Answered? || sell.Answered? {
      var side, leg := if buy.Answered? then Buy else Sell, if buy.Answered? then buy.state else sell.state;
      RepairAppendsItsFills(st, Survivor(h, side, leg).Because(SingleLegFailed).Enter(FailedNeedsRepair), books, venue);
    }
  }

  /** What both legs answered, settled. */
  function SettleBoth(st: Settings, h: Hedge, buy: OrderState, sell: OrderState, books: Books, venue: Venue): Outcome {
    var g := BothLegs(h, buy, sell);
    if NeedsRepair(g, buy, sell)
    then RepairStep(st, g.Because(PartialFill).Enter(FailedNeedsRepair), books, venue)
    else Returned(g.Enter(Completed))
  }

  /** The environment of one execution: the world when it starts, when each leg is served, and when
      a repair reads the books and is served. */
  datatype World = World(entry: Entry, buy: Moment, sell: Moment, repairBooks: Books, repair: Moment)

  function Opened(opp: Opportunity, amount: real): Hedge {
    NewHedge(opp.symbol, opp.buyExchange, opp.sellExchange, amount)
  }

  function GateVerdict(st: Settings, fees: Option<FeeSchedule>, opp: Opportunity, amount: real, e: Entry): Verdict {
    if SignalTooOldAt(st, e) then Stop(SignalTooOld, None)
    else if fees.None? then Pass(None)
    else Revalidate(st, fees.value, opp, amount, e)
  }

  /** A group stopped at a gate. */
  function Stopped(opp: Opportunity, amount: real, v: Verdict): Hedge
    requires v.Stop?
  {
    var h := Opened(opp, amount);
    var g := if v.reason.SignalTooOld? then h else h.Enter(Planning);
    g.(expectedProfitAtApproved := v.expected, failureReason := Some(v.reason)).Enter(Aborted)
  }

  /** A group that passed the gates. */
  function PlannedGroup(opp: Opportunity, amount: real, v: Verdict): Hedge {
    Opened(opp, amount).Enter(Planning).(expectedProfitAtApproved := v.expected)
  }

  /** Everything fixed about a coordinator: settings, paper configuration, and the fee schedule of
      its spread calculator when it has one. */
  datatype Wiring = Wiring(st: Settings, cfg: PaperFillEngine.PaperConfig, fees: Option<FeeSchedule>)

  function BuyAnswer(w: Wiring, opp: Opportunity, amount: real, world: World): Answer {
    Route(w.st.mode, w.cfg, world.buy, LegIntent(w.st, opp, Buy, amount))
  }

  function SellAnswer(w: Wiring, opp: Opportunity, amount: real, world: World): Answer {
    Route(w.st.mode, w.cfg, world.sell, LegIntent(w.st, opp, Sell, amount))
  }

  /** A group in Planning that submits and settles. */
  function Traded(w: Wiring, h: Hedge, opp: Opportunity, amount: real, world: World): Outcome {
    Settle(w.st, h.Enter(Submitting).(planningNotional := PlanningNotional(opp, amount)),
           BuyAnswer(w, opp, amount, world), SellAnswer(w, opp, amount, world),
           world.repairBooks, VenueAt(w.st.mode, w.cfg, world.repair))
  }

  /** One execution of an approved opportunity, from opening the group to its last change. */
  function Execution(w: Wiring, opp: Opportunity, amount: real, world: World): Outcome {
    var v := GateVerdict(w.st, w.fees, opp, amount, world.entry);
    if v.Stop? then Returned(Stopped(opp, amount, v))
    else Traded(w, PlannedGroup(opp, amount, v), opp, amount, world)
  }

  /** Exposure after a trade: one that returned has released what it added (if that was positive),
      one that raised keeps it. */
  function ExposureOfTrade(before: Exposure, opp: Opportunity, amount: real, raised: bool, id: HedgeId): Exposure {
    var notional := PlanningNotional(opp, amount);
    var during := before.AddPair(opp.buyExchange, opp.sellExchange, notional, id);
    if raised || notional <= 0.0 then during
    else during.ReleasePair(opp.buyExchange, opp.sellExchange, notional, id)
  }

  /** Exposure after an execution: one stopped at a gate never touched it. */
  function ExposureOfExecution(before: Exposure, w: Wiring, opp: Opportunity, amount: real, world: World, id: HedgeId)
    : Exposure
  {
    if GateVerdict(w.st, w.fees, opp, amount, world.entry).Stop? then before
    else ExposureOfTrade(before, opp, amount, !Execution(w, opp, amount, world).Returned?, id)
  }

  /** What the breaker hears of a trade: both submissions, then the profit of a group that traded and
      returned. */
  function EventsOfTrade(buy: Answer, sell: Answer, now: real, o: Outcome): seq<Event> {
    [Submission(now, buy.Answered?), Submission(now, sell.Answered?)]
    + (if (buy.Raised? && sell.Raised?) || !o.Returned? then [] else ClosedEvents(o.h))
  }

  /** The breaker ignores a missing profit figure. */
  function ClosedEvents(h: Hedge): seq<Event> {
    if h.realizedPnl.Some? then [Closed(h.realizedPnl.value)] else []
  }

  class HedgeCoordinator {
    const w: Wiring
    const router: OrderRouter
    const repair: RepairEngine
    const exposure: ExposureManager
    const breaker: CircuitBreaker
    var hedges: map<HedgeId, HedgeGroup>

    ghost predicate Wired() {
      && router.mode == w.st.mode && router.paper.cfg == w.cfg
      && repair.router == router && repair.settings == w.st
    }

    ghost predicate Valid()
      reads breaker, router.paper.balances
    {
      Wired() && breaker.Valid() && router.paper.balances.Valid()
    }

    constructor (w: Wiring, router: OrderRouter, repair: RepairEngine, exposure: ExposureManager, breaker: CircuitBreaker)
      requires router.mode == w.st.mode && router.paper.cfg == w.cfg
      requires repair.router == router && repair.settings == w.st
      ensures this.w == w && this.router == router && this.repair == repair
      ensures this.exposure == exposure && this.breaker == breaker
      ensures Wired() && hedges == map[]
    {
      this.w, this.router, this.repair, this.exposure, this.breaker := w, router, repair, exposure, breaker;
      hedges := map[];
    }

    method ReleaseExposure(group: HedgeGroup, id: HedgeId)
      modifies exposure
      ensures
        exposure.View() ==
        (if group.planningNotional <= 0.0 then old(exposure.View())
         else old(exposure.View()).ReleasePair(group.buyExchange, group.sellExchange, group.planningNotional, id))
    {
      var notional := group.planningNotional;
      if notional <= 0.0 {
        return;
      }
      exposure.Release(group.buyExchange, notional, id);
      exposure.Release(group.sellExchange, notional, id);
    }

    method RollbackSingleLeg(group: HedgeGroup, leg: OrderState, side: Side, books: Books, m: Moment)
      requires Valid()
      modifies group, router.paper.balances`balances, router.paper.balances`postings, breaker
      ensures Valid()
      ensures
        group.View() == Rollback(w.st, old(group.View()), side, leg, books, VenueAt(w.st.mode, w.cfg, m))
      ensures breaker.history == old(breaker.history) + ClosedEvents(group.View())
      ensures
        router.paper.balances.postings == old(router.paper.balances.postings)
        + Moved(w.st.mode, RollbackFills(w.st, old(group.View()), side, leg, books, VenueAt(w.st.mode, w.cfg, m)))
    {
      BookSurvivor(group, leg, side);
      if Abs(group.netPosition) > DUST {
        group.Because(SingleLegFailed);
        group.Enter(FailedNeedsRepair);
        var _ := repair.Repair(group, books, m);
      } else {
        group.Enter(Aborted);
      }
      breaker.RecordPnl(group.realizedPnl);
    }

    method BookSurvivor(group: HedgeGroup, leg: OrderState, side: Side)
      modifies group
      ensures group.View() == Survivor(old(group.View()), side, leg)
    {
      if side.Buy? {
        group.executedBuy := leg.filled;
      } else {
        group.executedSell := leg.filled;
      }
      group.fills := group.fills + [leg];
      BookSurvivorPnl(group, leg, side);
      group.netPosition := group.executedBuy - group.executedSell;
    }

    method BookSurvivorPnl(group: HedgeGroup, leg: OrderState, side: Side)
      modifies group`actualFee, group`realizedPnl
      ensures group.View() == SurvivorPnl(old(group.View()), side, leg)
    {
      var legCost := leg.Notional();
      var legFee := leg.Fee();
      if leg.filled > 0.0 {
        var delta := if side.Sell? then legCost - legFee else -legCost - legFee;
        group.actualFee := group.actualFee + legFee;
        group.realizedPnl := if group.realizedPnl.None? then Some(delta) else Some(group.realizedPnl.value + delta);
      }
    }

    method BookBothLegs(group: HedgeGroup, buy: OrderState, sell: OrderState)
      modifies group
      ensures group.View() == BothLegs(old(group.View()), buy, sell)
    {
      group.Enter(Hedging);
      group.executedBuy := buy.filled;
      group.executedSell := sell.filled;
      group.netPosition := buy.filled - sell.filled;
      var buyCost := buy.Notional();
      var sellProceeds := sell.Notional();
      var fees := buy.Fee() + sell.Fee();
      group.realizedPnl := Some(sellProceeds - buyCost - fees);
      group.actualFee := fees;
      group.fills := group.fills + [buy, sell];
    }

    /** The checks before any order is sent; a stopped group is aborted here. */
    method RunGates(group: HedgeGroup, opp: Opportunity, amount: real, e: Entry) returns (stopped: bool)
      requires group.View() == Opened(opp, amount)
      modifies group
      ensures
        var v := GateVerdict(w.st, w.fees, opp, amount, e);
        && stopped == v.Stop?
        && group.View() ==
           (if v.Stop? then Stopped(opp, amount, v)
            else PlannedGroup(opp, amount, v))
    {
      if SignalTooOldAt(w.st, e) {
        stopped := Abort(group, SignalTooOld);
        return;
      }
      assert CanTransition(group.state, Planning);
      group.Enter(Planning);
      stopped := false;
      if w.fees.Some? {
        if BooksTooOld(w.st, e) {
          stopped := Abort(group, BookTooOld);
          return;
        }
        var freshBuy := Lookup(e.books, opp.buyExchange, opp.symbol);
        var freshSell := Lookup(e.books, opp.sellExchange, opp.symbol);
        if freshBuy.Some? && freshSell.Some? {
          var est :=
            EvaluateDirection(w.fees.value, w.st.scanBufferBps, opp.symbol, freshBuy.value, freshSell.value, amount);
          if est.None? || est.value.netEdgeBps < w.st.minNetEdgeBps {
            stopped := Abort(group, EdgeVanished);
            return;
          }
          group.expectedProfitAtApproved := Some(est.value.expectedProfitQuote);
          if w.st.minInBandDepthRatio > 0.0 {
            var buyDepth := InBandDepth(freshBuy, Buy, w.st.iocPriceBufferBps);
            var sellDepth := InBandDepth(freshSell, Sell, w.st.iocPriceBufferBps);
            var required := Times(amount, w.st.minInBandDepthRatio);
            if buyDepth < required || sellDepth < required {
              stopped := Abort(group, InsufficientDepth);
              return;
            }
          }
        }
      }
    }

    method Abort(group: HedgeGroup, reason: Reason) returns (stopped: bool)
      modifies group
      ensures stopped && group.View() == old(group.View()).(failureReason := Some(reason)).Enter(Aborted)
    {
      group.Enter(Aborted);
      group.failureReason := Some(reason);
      stopped := true;
    }

    /** Run one hedge.  `raised` says that the call ended in an exception instead of returning the
        group; the group is registered either way. */
    method Execute(opp: Opportunity, amount: real, world: World, now: real, id: HedgeId)
      returns (group: HedgeGroup, raised: bool)
      requires Valid() && breaker.Follows(now)
      modifies this`hedges, exposure, breaker, router.paper.balances`balances, router.paper.balances`postings
      ensures Valid() && fresh(group)
      ensures hedges == old(hedges)[id := group]
      ensures
        var o := Execution(w, opp, amount, world);
        var v := GateVerdict(w.st, w.fees, opp, amount, world.entry);
        && group.View() == o.h
        && raised == !o.Returned?
        && exposure.View() == ExposureOfExecution(old(exposure.View()), w, opp, amount, world, id)
        && breaker.history == old(breaker.history)
           + (if v.Stop? then []
              else EventsOfTrade(BuyAnswer(w, opp, amount, world), SellAnswer(w, opp, amount, world), now, o))
        && router.paper.balances.postings == old(router.paper.balances.postings) + Moved(w.st.mode, o.h.fills)
    {
      group := new HedgeGroup(opp.symbol, opp.buyExchange, opp.sellExchange, amount);
      hedges := hedges[id := group];
      raised := false;
      var stopped := RunGates(group, opp, amount, world.entry);
      if stopped {
        return;
      }
      raised := Proceed(group, opp, amount, world, now, id);
    }

    /** The part of an execution that trades. */
    method Proceed(group: HedgeGroup, opp: Opportunity, amount: real, world: World, now: real, id: HedgeId)
      returns (raised: bool)
      requires Valid() && breaker.Follows(now)
      requires group.state.Planning? && group.fills == []
      requires group.buyExchange == opp.buyExchange && group.sellExchange == opp.sellExchange
      modifies group, exposure, breaker, router.paper.balances`balances, router.paper.balances`postings
      ensures Valid()
      ensures
        var o := Traded(w, old(group.View()), opp, amount, world);
        && group.View() == o.h
        && raised == !o.Returned?
        && exposure.View() == ExposureOfTrade(old(exposure.View()), opp, amount, raised, id)
        && breaker.history == old(breaker.history)
           + EventsOfTrade(BuyAnswer(w, opp, amount, world), SellAnswer(w, opp, amount, world), now, o)
        && router.paper.balances.postings == old(router.paper.balances.postings) + Moved(w.st.mode, o.h.fills)
    {
      ghost var postings, history := router.paper.balances.postings, breaker.history;
      var buy, sell := SubmitLegs(group, opp, amount, world, now, id);
      ghost var h := group.View();
      ghost var venue := VenueAt(w.st.mode, w.cfg, world.repair);
      raised := SettleAnswers(group, buy, sell, world.repairBooks, world.repair);
      SettleKeepsTerms(w.st, h, buy, sell, world.repairBooks, venue);
      LegsAndRepairPostings(w.st, h, buy, sell, world.repairBooks, venue);
      Associate(postings, Moved(w.st.mode, FillsOf(buy)) + Moved(w.st.mode, FillsOf(sell)),
                Moved(w.st.mode, SettleFills(w.st, h, buy, sell, world.repairBooks, venue)));
      ghost var o := Settle(w.st, h, buy, sell, world.repairBooks, venue);
      Associate(history, [Submission(now, buy.Answered?), Submission(now, sell.Answered?)],
                if (buy.Raised? && sell.Raised?) || !o.Returned? then [] else ClosedEvents(o.h));
      if !raised {
        ReleaseExposure(group, id);
      }
    }

    /** Count the exposure, send both legs, tell the breaker how that went. */
    method SubmitLegs(group: HedgeGroup, opp: Opportunity, amount: real, world: World, now: real, id: HedgeId)
      returns (buy: Answer, sell: Answer)
      requires Valid() && breaker.Follows(now) && group.state.Planning?
      modifies group, exposure, breaker, router.paper.balances`balances, router.paper.balances`postings
      ensures Valid()
      ensures buy == BuyAnswer(w, opp, amount, world) && sell == SellAnswer(w, opp, amount, world)
      ensures
        group.View() == old(group.View()).Enter(Submitting).(planningNotional := PlanningNotional(opp, amount))
      ensures
        exposure.View()
        == old(exposure.View()).AddPair(opp.buyExchange, opp.sellExchange, PlanningNotional(opp, amount), id)
      ensures
        breaker.history == old(breaker.history) + [Submission(now, buy.Answered?), Submission(now, sell.Answered?)]
      ensures
        router.paper.balances.postings
        == old(router.paper.balances.postings) + (Moved(w.st.mode, FillsOf(buy)) + Moved(w.st.mode, FillsOf(sell)))
    {
      assert CanTransition(group.state, Submitting);
      group.Enter(Submitting);
      var notional := PlanningNotional(opp, amount);
      exposure.Add(opp.buyExchange, notional, id);
      exposure.Add(opp.sellExchange, notional, id);
      group.planningNotional := notional;
      buy, sell := SendLegs(opp, amount, world);
      TellBreaker(now, buy.Answered?, sell.Answered?);
    }

    method TellBreaker(now: real, buyOk: bool, sellOk: bool)
      requires breaker.Valid() && breaker.Follows(now)
      modifies breaker
      ensures breaker.Valid()
      ensures breaker.history == old(breaker.history) + [Submission(now, buyOk), Submission(now, sellOk)]
    {
      breaker.Record(now, buyOk);
      breaker.Record(now, sellOk);
    }

    method SendLegs(opp: Opportunity, amount: real, world: World) returns (buy: Answer, sell: Answer)
      requires Wired() && router.paper.balances.Valid()
      modifies router.paper.balances`balances, router.paper.balances`postings
      ensures router.paper.balances.Valid()
      ensures buy == BuyAnswer(w, opp, amount, world) && sell == SellAnswer(w, opp, amount, world)
      ensures
        router.paper.balances.postings
        == old(router.paper.balances.postings) + (Moved(w.st.mode, FillsOf(buy)) + Moved(w.st.mode, FillsOf(sell)))
    {
      buy := router.Submit(world.buy, LegIntent(w.st, opp, Buy, amount));
      sell := router.Submit(world.sell, LegIntent(w.st, opp, Sell, amount));
    }

    /** The four outcomes of submitting two legs. */
    method SettleAnswers(group: HedgeGroup, buy: Answer, sell: Answer, books: Books, m: Moment) returns (raised: bool)
      requires Valid() && group.state.Submitting?
      modifies group, breaker, router.paper.balances`balances, router.paper.balances`postings
      ensures Valid()
      ensures
        var h := old(group.View());
        var venue := VenueAt(w.st.mode, w.cfg, m);
        var o := Settle(w.st, h, buy, sell, books, venue);
        && group.View() == o.h
        && raised == !o.Returned?
        && breaker.history == old(breaker.history)
           + (if (buy.Raised? && sell.Raised?) || !o.Returned? then [] else ClosedEvents(o.h))
        && router.paper.balances.postings == old(router.paper.balances.postings)
           + Moved(w.st.mode, SettleFills(w.st, h, buy, sell, books, venue))
    {
      raised := false;
      if buy.Raised? && sell.Raised? {
        group.Enter(Aborted);
      } else if sell.Raised? {
        RollbackSingleLeg(group, buy.state, Buy, books, m);
      } else if buy.Raised? {
        RollbackSingleLeg(group, sell.state, Sell, books, m);
      } else {
        raised := SettleBothLegs(group, buy.state, sell.state, books, m);
        if !raised {
          breaker.RecordPnl(group.realizedPnl);
        }
      }
    }

    method SettleBothLegs(group: HedgeGroup, buy: OrderState, sell: OrderState, books: Books, m: Moment)
      returns (raised: bool)
      requires Valid() && group.state.Submitting?
      modifies group, router.paper.balances`balances, router.paper.balances`postings
      ensures Valid()
      ensures
        var h := old(group.View());
        var venue := VenueAt(w.st.mode, w.cfg, m);
        var o := SettleBoth(w.st, h, buy, sell, books, venue);
        && group.View() == o.h
        && raised == !o.Returned?
        && router.paper.balances.postings == old(router.paper.balances.postings)
           + Moved(w.st.mode, BothLegsFills(w.st, h, buy, sell, books, venue))
    {
      raised := false;
      BookBothLegs(group, buy, sell);
      if !buy.status.Filled? || !sell.status.Filled? || Abs(group.netPosition) > DUST {
        group.Because(PartialFill);
        assert CanTransition(group.state, FailedNeedsRepair);
        group.Enter(FailedNeedsRepair);
        raised := repair.Repair(group, books, m);
      } else {
        assert CanTransition(group.state, Completed);
        group.Enter(Completed);
      }
    }
  }

  lemma Associate<T>(a: seq<T>, b: seq<T>, c: seq<T>)
    ensures (a + b) + c == a + (b + c)
  {}

  /** Settlement never touches the terms of the hedge. */
  lemma SettleKeepsTerms(st: Settings, h: Hedge, buy: Answer, sell: Answer, books: Books, venue: Venue)
    ensures
      var g := Settle(st, h, buy, sell, books, venue).h;
      && g.planningNotional == h.planningNotional && g.targetAmount == h.targetAmount && g.symbol == h.symbol
      && g.buyExchange == h.buyExchange && g.sellExchange == h.sellExchange
  {
    if buy.Answered? && sell.Answered? {
      var g := BothLegs(h, buy.state, sell.state);
      RepairKeepsTerms(st, g.Because(PartialFill).Enter(FailedNeedsRepair), books, venue);
    } else if buy.Answered? || sell.Answered? {
      var side, leg := if buy.Answered? then Buy else Sell, if buy.Answered? then buy.state else sell.state;
      RepairKeepsTerms(st, Survivor(h, side, leg).Because(SingleLegFailed).Enter(FailedNeedsRepair), books, venue);
    }
  }

  lemma RepairKeepsTerms(st: Settings, h: Hedge, books: Books, venue: Venue)
    ensures
      var g := RepairStep(st, h, books, venue).h;
      && g.planningNotional == h.planningNotional && g.targetAmount == h.targetAmount && g.symbol == h.symbol
      && g.buyExchange == h.buyExchange && g.sellExchange == h.sellExchange
  {}

  /** The postings of the two legs and of the settlement are together those of the group's fills. */
  lemma LegsAndRepairPostings(st: Settings, h: Hedge, buy: Answer, sell: Answer, books: Books, venue: Venue)
    requires h.fills == []
    ensures
      Moved(st.mode, FillsOf(buy)) + Moved(st.mode, FillsOf(sell))
      + Moved(st.mode, SettleFills(st, h, buy, sell, books, venue))
      == Moved(st.mode, Settle(st, h, buy, sell, books, venue).h.fills)
  {
    var more := SettleFills(st, h, buy, sell, books, venue);
    var all := FillsOf(buy) + FillsOf(sell) + more;
    assert [] + all == all;
    SettleAppendsItsFills(st, h, buy, sell, books, venue);
    PostingsOfConcat(FillsOf(buy), FillsOf(sell));
    PostingsOfConcat(FillsOf(buy) + FillsOf(sell), more);
  }
}
