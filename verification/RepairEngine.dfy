/** The corrective trade: choose a venue, respect the loss cap, count the attempt, fold the fill. */
module RepairEngine {
  import opened Prelude
  import opened OrderBook
  import opened SlippageModel
  import opened ExecutionPolicy
  import opened Orders
  import opened Settings
  import opened StateMachine
  import opened HedgeGroup
  import opened OrderRouter
  import opened BalanceManager

  /** Where and how a residual position would be closed. */
  datatype Target = Target(exchange: Exchange, side: Side, amount: real, book: Option<Book>)

  /** Sell a long on the sell venue, buy back a short on the buy venue; pivot to the other venue
      when the first is too thin and the other deeper. */
  function ChooseTarget(bufferBps: real, h: Hedge, books: Books): Target {
    var side := if h.netPosition > 0.0 then Sell else Buy;
    var amount := Abs(h.netPosition);
    var primary := if side.Sell? then h.sellExchange else h.buyExchange;
    var fallback := if side.Sell? then h.buyExchange else h.sellExchange;
    var primaryBook := Lookup(books, primary, h.symbol);
    var fallbackBook := Lookup(books, fallback, h.symbol);
    var primaryDepth := InBandDepth(primaryBook, side, bufferBps);
    var fallbackDepth := InBandDepth(fallbackBook, side, bufferBps);
    if primaryDepth < amount && fallbackBook.Some? && fallbackDepth > primaryDepth
    then Target(fallback, side, amount, fallbackBook)
    else Target(primary, side, amount, primaryBook)
  }

  /** Profit if the whole estimable residual closed at its VWAP, moved by the buffer against us. */
  function ProjectedPnl(bufferBps: real, h: Hedge, t: Target): Option<real> {
    if t.book.None? then None
    else
      var est := Vwap(t.side, t.book.value.Against(t.side), t.amount);
      if est.filled <= 0.0 then None
      else
        var signed := Times(ProtectedLimitPrice(bufferBps, t.side, est.vwap), est.filled);
        Some(h.realizedPnl.GetOr(0.0) + (if t.side.Sell? then signed else -signed))
  }

  predicate CapRefuses(st: Settings, h: Hedge, t: Target) {
    var projected := ProjectedPnl(st.iocPriceBufferBps, h, t);
    st.maxRepairLossQuote.Some? && projected.Some? && projected.value < -st.maxRepairLossQuote.value
  }

  function RepairIntent(st: Settings, h: Hedge, t: Target): OrderIntent {
    var touch := if t.book.Some? then t.book.value.Touch(t.side) else None;
    var price :=
      if touch.Some? then Some(ProtectedLimitPrice(st.iocPriceBufferBps, t.side, touch.value)) else None;
    OrderIntent(t.exchange, h.symbol, t.side, IocLimit, price, t.amount, true)
  }

  /** What one repair call decides to do, in the order the checks are made. */
  datatype Plan = AlreadyFlat | Exhausted | Refused | Illegal | Send(intent: OrderIntent)

  function PlanRepair(st: Settings, h: Hedge, books: Books): Plan {
    if h.netPosition == 0.0 then AlreadyFlat
    else if h.repairAttempts >= st.maxRepairAttempts then Exhausted
    else
      var t := ChooseTarget(st.iocPriceBufferBps, h, books);
      if CapRefuses(st, h, t) then Refused
      else if !CanTransition(h.state, HedgeState.Repairing) then Illegal
      else Send(RepairIntent(st, h, t))
  }

  datatype Outcome =
    | Returned(h: Hedge)
    | VenueRaised(h: Hedge)
    | IllegalTransition(h: Hedge)

  /** The group after the attempt is counted and before the venue answers. */
  function Attempting(h: Hedge): Hedge {
    h.Enter(HedgeState.Repairing).(repairAttempts := h.repairAttempts + 1)
  }

  /** Add the filled quantity to the executed amounts and recompute the position. */
  function FoldPosition(h: Hedge, side: Side, s: OrderState): Hedge {
    var buy := if side.Buy? then h.executedBuy + s.filled else h.executedBuy;
    var sell := if side.Buy? then h.executedSell else h.executedSell + s.filled;
    h.(executedBuy := buy, executedSell := sell, netPosition := buy - sell, fills := h.fills + [s])
  }

  /** Add a priced fill to the profit, cost and fee figures; an unpriced one is not booked. */
  function FoldPnl(h: Hedge, side: Side, s: OrderState): Hedge {
    if 0.0 < s.filled && s.avgFillPrice.Some? then
      h.(repairCost := h.repairCost + s.Cash(side),
         actualFee := h.actualFee + s.Fee(),
         realizedPnl := Booked(h.realizedPnl, s.Cash(side)))
    else h
  }

  function Folded(h: Hedge, side: Side, s: OrderState): Hedge {
    var g := FoldPnl(FoldPosition(h, side, s), side, s);
    g.Enter(if Flat(g) then Completed else FailedNeedsRepair)
  }

  /** One call of `repair`. */
  function RepairStep(st: Settings, h: Hedge, books: Books, venue: Venue): Outcome {
    match PlanRepair(st, h, books)
    case AlreadyFlat => Returned(h.Enter(Completed))
    case Exhausted => Returned(h.Because(RepairAttemptsExhausted).Enter(Aborted))
    case Refused => Returned(h.(failureReason := Some(RepairSkippedMaxLoss)).Enter(FailedNeedsRepair))
    case Illegal => IllegalTransition(h)
    case Send(intent) =>
      var answer := venue(intent);
      if answer.Raised? then VenueRaised(Attempting(h))
      else Returned(Folded(Attempting(h), intent.side, answer.state))
  }

  class RepairEngine {
    const settings: Settings
    const router: OrderRouter

    constructor (settings: Settings, router: OrderRouter)
      ensures this.settings == settings && this.router == router
    {
      this.settings, this.router := settings, router;
    }

    /** `books` is what the order-book manager holds when the call starts, `m` the world when the
        order is served.  `raised` says that the call ended in an exception. */
    method Repair(group: HedgeGroup, books: Books, m: Moment) returns (raised: bool)
      requires router.paper.balances.Valid()
      modifies group, router.paper.balances`balances, router.paper.balances`postings
      ensures router.paper.balances.Valid()
      ensures
        var venue := VenueAt(router.mode, router.paper.cfg, m);
        var outcome := RepairStep(settings, old(group.View()), books, venue);
        && group.View() == outcome.h
        && raised == !outcome.Returned?
        && router.paper.balances.postings
           == old(router.paper.balances.postings) + Moved(router.mode, RepairFills(settings, old(group.View()), books, venue))
    {
      raised := false;
      var net := group.netPosition;
      if net == 0.0 {
        group.Enter(Completed);
        return;
      }
      if group.repairAttempts >= settings.maxRepairAttempts {
        group.Because(RepairAttemptsExhausted);
        group.Enter(Aborted);
        return;
      }
      var t := SelectVenue(group, books);
      var refuses := CheckLossCap(group, t);
      if refuses {
        group.failureReason := Some(RepairSkippedMaxLoss);
        group.Enter(FailedNeedsRepair);
        return;
      }
      if !CanTransition(group.state, HedgeState.Repairing) {
        raised := true;
        return;
      }
      raised := SendRepair(group, t, m);
    }

    /** Count the attempt, send the order and fold what comes back. */
    method SendRepair(group: HedgeGroup, t: Target, m: Moment) returns (raised: bool)
      requires router.paper.balances.Valid()
      modifies group, router.paper.balances`balances, router.paper.balances`postings
      ensures router.paper.balances.Valid()
      ensures
        var h := old(group.View());
        var answer := VenueAt(router.mode, router.paper.cfg, m)(RepairIntent(settings, h, t));
        && raised == answer.Raised?
        && group.View() == (if raised then Attempting(h) else Folded(Attempting(h), t.side, answer.state))
        && router.paper.balances.postings == old(router.paper.balances.postings) + Moved(router.mode, FillsOf(answer))
    {
      group.Enter(HedgeState.Repairing);
      group.repairAttempts := group.repairAttempts + 1;
      var reference := if t.book.Some? then t.book.value.Touch(t.side) else None;
      if reference.Some? {
        reference := Some(ProtectedLimitPrice(settings.iocPriceBufferBps, t.side, reference.value));
      }
      var intent := OrderIntent(t.exchange, group.symbol, t.side, IocLimit, reference, t.amount, true);
      var answer := router.Submit(m, intent);
      raised := answer.Raised?;
      if !raised {
        Fold(group, t.side, answer.state);
      }
    }

    method SelectVenue(group: HedgeGroup, books: Books) returns (t: Target)
      requires group.netPosition != 0.0
      ensures t == ChooseTarget(settings.iocPriceBufferBps, group.View(), books)
    {
      var net := group.netPosition;
      var primaryEx, fallbackEx, side, amount;
      if net > 0.0 {
        primaryEx, fallbackEx, side, amount := group.sellExchange, group.buyExchange, Sell, net;
      } else {
        primaryEx, fallbackEx, side, amount := group.buyExchange, group.sellExchange, Buy, -net;
      }
      var primaryBook := Lookup(books, primaryEx, group.symbol);
      var fallbackBook := Lookup(books, fallbackEx, group.symbol);
      var primaryDepth := InBandDepth(primaryBook, side, settings.iocPriceBufferBps);
      var fallbackDepth := InBandDepth(fallbackBook, side, settings.iocPriceBufferBps);
      if primaryDepth < amount && fallbackBook.Some? && fallbackDepth > primaryDepth {
        t := Target(fallbackEx, side, amount, fallbackBook);
      } else {
        t := Target(primaryEx, side, amount, primaryBook);
      }
    }

    method CheckLossCap(group: HedgeGroup, t: Target) returns (refuses: bool)
      ensures refuses == CapRefuses(settings, group.View(), t)
    {
      refuses := false;
      if settings.maxRepairLossQuote.Some? && t.book.Some? {
        var est;
        if t.side.Sell? {
          est := VwapSell(t.book.value, t.amount);
        } else {
          est := VwapBuy(t.book.value, t.amount);
        }
        if est.filled > 0.0 {
          var signedCost := Times(ProtectedLimitPrice(settings.iocPriceBufferBps, t.side, est.vwap), est.filled);
          var projectedDelta := if t.side.Sell? then signedCost else -signedCost;
          var projected := group.realizedPnl.GetOr(0.0) + projectedDelta;
          refuses := projected < -settings.maxRepairLossQuote.value;
        }
      }
    }

    method Fold(group: HedgeGroup, side: Side, s: OrderState)
      modifies group
      ensures group.View() == Folded(old(group.View()), side, s)
    {
      AddFill(group, side, s);
      if s.filled > 0.0 && s.avgFillPrice.Some? {
        BookFill(group, side, s);
      }
      if Abs(group.netPosition) <= DUST {
        group.Enter(Completed);
      } else {
        group.Enter(FailedNeedsRepair);
      }
    }

    method AddFill(group: HedgeGroup, side: Side, s: OrderState)
      modifies group
      ensures group.View() == FoldPosition(old(group.View()), side, s)
    {
      if side.Buy? {
        group.executedBuy := group.executedBuy + s.filled;
      } else {
        group.executedSell := group.executedSell + s.filled;
      }
      group.netPosition := group.executedBuy - group.executedSell;
      group.fills := group.fills + [s];
    }

    method BookFill(group: HedgeGroup, side: Side, s: OrderState)
      requires s.filled > 0.0 && s.avgFillPrice.Some?
      modifies group
      ensures group.View() == FoldPnl(old(group.View()), side, s)
    {
      var cost := Times(s.avgFillPrice.value, s.filled);
      var fee := s.Fee();
      var delta := if side.Sell? then cost - fee else -cost - fee;
      group.repairCost := group.repairCost + delta;
      group.actualFee := group.actualFee + fee;
      group.realizedPnl := if group.realizedPnl.None? then Some(delta) else Some(group.realizedPnl.value + delta);
    }
  }

  /** The fills one repair call adds to the group. */
  function RepairFills(st: Settings, h: Hedge, books: Books, venue: Venue): seq<OrderState> {
    var plan := PlanRepair(st, h, books);
    if plan.Send? then FillsOf(venue(plan.intent)) else []
  }

  lemma RepairAppendsItsFills(st: Settings, h: Hedge, books: Books, venue: Venue)
    ensures RepairStep(st, h, books, venue).h.fills == h.fills + RepairFills(st, h, books, venue)
  {}
}
