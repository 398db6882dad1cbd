/** What a repair achieves when it is filled from the books in memory. */
module PaperRepair {
  import opened Prelude
  import opened OrderBook
  import opened LadderWalk
  import opened SlippageModel
  import opened ExecutionPolicy
  import opened Orders
  import opened Settings
  import opened StateMachine
  import opened HedgeGroup
  import opened PaperFillEngine
  import opened OrderRouter
  import opened RepairEngine
  import opened RepairSafety

  /** The answer the paper engine gives to the repair order. */
  function RepairFill(st: Settings, cfg: PaperConfig, h: Hedge, m: Moment): OrderState
    requires PlanRepair(st, h, m.books).Send?
  {
    var i := PlanRepair(st, h, m.books).intent;
    PaperFill(cfg, Lookup(m.books, i.exchange, i.symbol), i, m.roll)
  }

  /** In-band depth for closing the residual on one of the two venues. */
  function ClosingDepth(st: Settings, h: Hedge, books: Books, exchange: Exchange): real {
    InBandDepth(Lookup(books, exchange, h.symbol), if h.netPosition > 0.0 then Sell else Buy, st.iocPriceBufferBps)
  }

  lemma InBandDepthNonNegative(book: Option<Book>, side: Side, bufferBps: real)
    requires book.Some? ==> book.value.WellFormed()
    ensures 0.0 <= InBandDepth(book, side, bufferBps)
  {
    if book.Some? && book.value.Touch(side).Some? {
      var limit := ProtectedLimitPrice(bufferBps, side, book.value.Touch(side).value);
      EligibleKeepsShape(side, Some(limit), book.value.Against(side));
      DepthNonNegative(Eligible(side, Some(limit), book.value.Against(side)));
    }
  }

  /** The repair order fills the in-band depth of the venue it was sent to, up to the residual. */
  lemma RepairFillsChosenDepth(st: Settings, cfg: PaperConfig, h: Hedge, m: Moment)
    requires BooksWellFormed(m.books) && PlanRepair(st, h, m.books).Send?
    ensures
      var i := PlanRepair(st, h, m.books).intent;
      RepairFill(st, cfg, h, m).filled == Min(Abs(h.netPosition), ClosingDepth(st, h, m.books, i.exchange))
  {
    var i := PlanRepair(st, h, m.books).intent;
    var book := Lookup(m.books, i.exchange, i.symbol);
    RepairOrderClosesResidual(st, h, m.books);
    if book.Some? {
      assert book.value.WellFormed();
      if book.value.Touch(i.side).Some? {
        IocAtProtectedLimitFillsInBandDepth(cfg, book.value, i, st.iocPriceBufferBps, m.roll);
      } else {
        IocFillsWhatIsAvailable(cfg, book.value, i, m.roll);
        assert book.value.Against(i.side) == [];
      }
    }
  }

  /** The venue chosen is never the shallower one when the residual does not fit it. */
  lemma ChosenVenueIsDeepest(st: Settings, h: Hedge, books: Books)
    requires BooksWellFormed(books)
    ensures
      var chosen := ClosingDepth(st, h, books, ChooseTarget(st.iocPriceBufferBps, h, books).exchange);
      var best := Max(ClosingDepth(st, h, books, h.buyExchange), ClosingDepth(st, h, books, h.sellExchange));
      0.0 <= chosen && Min(Abs(h.netPosition), chosen) == Min(Abs(h.netPosition), best)
  {
    var side := if h.netPosition > 0.0 then Sell else Buy;
    InBandDepthNonNegative(Lookup(books, h.buyExchange, h.symbol), side, st.iocPriceBufferBps);
    InBandDepthNonNegative(Lookup(books, h.sellExchange, h.symbol), side, st.iocPriceBufferBps);
  }

  /** The venue choice is optimal: a repair that is sent fills as much as the deeper of the two
      venues could, and completes the group exactly when that leaves no more than dust. */
  lemma VenueChoiceIsOptimal(st: Settings, cfg: PaperConfig, h: Hedge, m: Moment)
    requires BooksWellFormed(m.books) && PlanRepair(st, h, m.books).Send?
    requires h.netPosition == h.executedBuy - h.executedSell
    ensures
      var best := Max(ClosingDepth(st, h, m.books, h.buyExchange), ClosingDepth(st, h, m.books, h.sellExchange));
      var o := RepairStep(st, h, m.books, VenueAt(PaperTrade, cfg, m));
      && RepairFill(st, cfg, h, m).filled == Min(Abs(h.netPosition), best)
      && o.Returned?
      && Abs(o.h.netPosition) == Abs(h.netPosition) - Min(Abs(h.netPosition), best)
      && (o.h.state.Completed? <==> Abs(h.netPosition) - DUST <= best)
  {
    RepairFillsChosenDepth(st, cfg, h, m);
    RepairOrderClosesResidual(st, h, m.books);
    ChosenVenueIsDeepest(st, h, m.books);
  }

  // ---- The loss cap ----

  /** The gate's estimate for the residual, when the book can absorb it, is the cost of the fill
      itself moved by the buffer. */
  lemma EstimateMatchesFullFill(st: Settings, cfg: PaperConfig, h: Hedge, m: Moment)
    requires BooksWellFormed(m.books) && PlanRepair(st, h, m.books).Send?
    requires RepairFill(st, cfg, h, m).filled == Abs(h.netPosition)
    ensures
      var t := ChooseTarget(st.iocPriceBufferBps, h, m.books);
      var s := RepairFill(st, cfg, h, m);
      var moved := ProtectedLimitPrice(st.iocPriceBufferBps, t.side, s.Notional());
      && 0.0 <= s.Notional()
      && s.avgFillPrice.Some?
      && ProjectedPnl(st.iocPriceBufferBps, h, t)
         == Some(h.realizedPnl.GetOr(0.0) + (if t.side.Sell? then moved else -moved))
  {
    var t := ChooseTarget(st.iocPriceBufferBps, h, m.books);
    var i := PlanRepair(st, h, m.books).intent;
    var s := RepairFill(st, cfg, h, m);
    var book := Lookup(m.books, i.exchange, i.symbol).value;
    assert book.WellFormed();
    RepairOrderClosesResidual(st, h, m.books);
    WalkedQuantity(book, i);
    var ls := book.Against(i.side);
    assert ls != [] && book.Touch(i.side).Some?;
    WalkInsideBand(i.side, i.price.value, ls, i.amount);
    VwapOnSortedLadder(i.side, ls, i.amount);
    var walked := Walk(ls, i.amount);
    TimesDivide(walked.cost, walked.qty);
    TimesMono(walked.qty, 0.0, walked.cost / walked.qty);
    assert s.Notional() == walked.cost;
    var factor := if i.side.Buy? then 1.0 + st.iocPriceBufferBps / BPS else 1.0 - st.iocPriceBufferBps / BPS;
    TimesCommutes(walked.cost / walked.qty, factor);
    TimesAssociates(factor, walked.cost / walked.qty, walked.qty);
    TimesCommutes(walked.cost, factor);
  }

  /** The reported fee is the fee rate on the reported notional. */
  lemma FeeOfFill(cfg: PaperConfig, book: Book, intent: OrderIntent, roll: real)
    requires PaperFill(cfg, Some(book), intent, roll).filled > 0.0
    ensures
      var s := PaperFill(cfg, Some(book), intent, roll);
      s.Fee() == Times(s.Notional(), FeeBpsFor(cfg, intent) / BPS)
  {
    var t := Matched(cfg, book, intent, roll);
    TimesDivide(t.cost, t.qty);
  }

  /** Buying back, the cap holds for partial fills too: what is bought is never more than what the
      gate priced. */
  lemma LossCapHoldsForBuyBack(st: Settings, cfg: PaperConfig, h: Hedge, m: Moment)
    requires BooksWellFormed(m.books) && PlanRepair(st, h, m.books).Send?
    requires h.netPosition < 0.0 && 0.0 < RepairFill(st, cfg, h, m).filled
    requires st.maxRepairLossQuote.Some? && 0.0 <= st.iocPriceBufferBps
    ensures
      var s := RepairFill(st, cfg, h, m);
      var fee := FeeBpsFor(cfg, PlanRepair(st, h, m.books).intent);
      var o := RepairStep(st, h, m.books, VenueAt(PaperTrade, cfg, m));
      && o.Returned? && o.h.realizedPnl.Some?
      && o.h.realizedPnl.value
         >= -st.maxRepairLossQuote.value + Times(s.Notional(), (st.iocPriceBufferBps - fee) / BPS)
  {
    var t := ChooseTarget(st.iocPriceBufferBps, h, m.books);
    var i := PlanRepair(st, h, m.books).intent;
    var s := RepairFill(st, cfg, h, m);
    var book := Lookup(m.books, i.exchange, i.symbol).value;
    assert book.WellFormed();
    RepairOrderClosesResidual(st, h, m.books);
    var fee, buffer := FeeBpsFor(cfg, i) / BPS, st.iocPriceBufferBps / BPS;
    FeeOfFill(cfg, book, i, m.roll);
    BuyFillWithinEstimate(cfg, book, i, m.roll);
    VwapOnSortedLadder(Buy, book.asks, i.amount);
    var walked := Walk(book.asks, i.amount);
    TimesDivide(walked.cost, walked.qty);
    var factor := 1.0 + buffer;
    TimesCommutes(walked.cost / walked.qty, factor);
    TimesAssociates(factor, walked.cost / walked.qty, walked.qty);
    assert ProjectedPnl(st.iocPriceBufferBps, h, t) == Some(h.realizedPnl.GetOr(0.0) - Times(factor, walked.cost));
    TimesMono(factor, s.Notional(), walked.cost);
    TimesAdd(1.0, buffer, s.Notional());
    TimesAdd(buffer, fee, s.Notional());
    TimesCommutes(factor, s.Notional());
  }

  /** Whatever a limit buy repair spends is within the cost of walking the whole ladder for it. */
  lemma BuyFillWithinEstimate(cfg: PaperConfig, book: Book, i: OrderIntent, roll: real)
    requires book.WellFormed() && i.side.Buy? && 0.0 < i.amount && i.isRepair && i.orderType.IocLimit?
    requires i.price.Some? && PaperFill(cfg, Some(book), i, roll).filled > 0.0
    ensures book.asks != []
    ensures PaperFill(cfg, Some(book), i, roll).Notional() <= Walk(book.asks, i.amount).cost
  {
    var ls, limit := book.asks, LimitOf(i);
    WalkedQuantity(book, i);
    var es := Eligible(Buy, limit, ls);
    var taken := Min(i.amount, Depth(es));
    WalkSaturates(es, i.amount);
    WalkInsideBand(Buy, limit.value, ls, taken);
    CostGrowsWithSize(ls, taken, i.amount);
    TimesDivide(Walk(es, i.amount).cost, Walk(es, i.amount).qty);
  }

  /** What closing the residual is worth, or costs, on the levels the repair order can reach. */
  function BandCost(st: Settings, h: Hedge, books: Books): real {
    var t := ChooseTarget(st.iocPriceBufferBps, h, books);
    var touch := if t.book.Some? then t.book.value.Touch(t.side) else None;
    if touch.None? then 0.0
    else
      var limit := ProtectedLimitPrice(st.iocPriceBufferBps, t.side, touch.value);
      Walk(Eligible(t.side, Some(limit), t.book.value.Against(t.side)), t.amount).cost
  }

  lemma RepairIsWorthItsBand(st: Settings, cfg: PaperConfig, h: Hedge, m: Moment)
    requires BooksWellFormed(m.books) && PlanRepair(st, h, m.books).Send?
    requires 0.0 < RepairFill(st, cfg, h, m).filled
    ensures RepairFill(st, cfg, h, m).Notional() == BandCost(st, h, m.books)
  {
    var i := PlanRepair(st, h, m.books).intent;
    var book := Lookup(m.books, i.exchange, i.symbol).value;
    assert book.WellFormed();
    RepairOrderClosesResidual(st, h, m.books);
    WalkedQuantity(book, i);
    var t := Matched(cfg, book, i, m.roll);
    TimesDivide(t.cost, t.qty);
  }

  /** The profit after a paper repair that filled something: its value, with the sign of its side,
      less its fee. */
  lemma RepairedPnl(st: Settings, cfg: PaperConfig, h: Hedge, m: Moment)
    requires BooksWellFormed(m.books) && PlanRepair(st, h, m.books).Send?
    requires 0.0 < RepairFill(st, cfg, h, m).filled
    ensures
      var i := PlanRepair(st, h, m.books).intent;
      var n := RepairFill(st, cfg, h, m).Notional();
      var o := RepairStep(st, h, m.books, VenueAt(PaperTrade, cfg, m));
      && o.Returned?
      && o.h.realizedPnl
         == Some(h.realizedPnl.GetOr(0.0) + (if i.side.Sell? then n else -n) - Times(n, FeeBpsFor(cfg, i) / BPS))
  {
    var i := PlanRepair(st, h, m.books).intent;
    RepairOrderClosesResidual(st, h, m.books);
    FeeOfFill(cfg, Lookup(m.books, i.exchange, i.symbol).value, i, m.roll);
  }

  /** Exactly when the cap holds after a paper repair that filled something, partly or completely:
      when the gate's own test would have passed on the levels inside the band, which are the only
      ones the order reaches.  The gate tests the whole ladder instead. */
  lemma LossCapHoldsIffBandPasses(st: Settings, cfg: PaperConfig, h: Hedge, m: Moment)
    requires BooksWellFormed(m.books) && PlanRepair(st, h, m.books).Send?
    requires 0.0 < RepairFill(st, cfg, h, m).filled
    requires st.maxRepairLossQuote.Some?
    ensures
      var side := ChooseTarget(st.iocPriceBufferBps, h, m.books).side;
      var band := ProtectedLimitPrice(st.iocPriceBufferBps, side, BandCost(st, h, m.books));
      var s := RepairFill(st, cfg, h, m);
      var fee := FeeBpsFor(cfg, PlanRepair(st, h, m.books).intent);
      var o := RepairStep(st, h, m.books, VenueAt(PaperTrade, cfg, m));
      && o.Returned? && o.h.realizedPnl.Some?
      && (o.h.realizedPnl.value
          >= -st.maxRepairLossQuote.value + Times(s.Notional(), (st.iocPriceBufferBps - fee) / BPS)
          <==> h.realizedPnl.GetOr(0.0) + (if side.Sell? then band else -band) >= -st.maxRepairLossQuote.value)
  {
    var n := RepairFill(st, cfg, h, m).Notional();
    var fee := FeeBpsFor(cfg, PlanRepair(st, h, m.books).intent);
    RepairIsWorthItsBand(st, cfg, h, m);
    RepairedPnl(st, cfg, h, m);
    var side := if h.netPosition > 0.0 then Sell else Buy;
    BoundByBuffer(h.realizedPnl.GetOr(0.0), n, st.iocPriceBufferBps, fee, -st.maxRepairLossQuote.value, side);
  }

  /** A profit stays above a floor plus the buffer less the fee exactly when it would stay above the
      floor with its value moved by the buffer. */
  lemma BoundByBuffer(prior: real, n: real, bufferBps: real, feeBps: real, floor: real, side: Side)
    ensures
      var moved := ProtectedLimitPrice(bufferBps, side, n);
      prior + (if side.Sell? then n else -n) - Times(n, feeBps / BPS) >= floor + Times(n, (bufferBps - feeBps) / BPS)
      <==> prior + (if side.Sell? then moved else -moved) >= floor
  {
    TimesAdd(1.0, bufferBps / BPS, n);
    TimesAdd(bufferBps / BPS, feeBps / BPS, n);
  }

  /** The cap holds after the fact: a paper repair that passes the gate and closes the whole
      residual leaves a profit no lower than minus the cap, up to the buffer the gate reserved and
      the fee it did not. */
  lemma LossCapHoldsAfterFullFill(st: Settings, cfg: PaperConfig, h: Hedge, m: Moment)
    requires BooksWellFormed(m.books) && PlanRepair(st, h, m.books).Send?
    requires RepairFill(st, cfg, h, m).filled == Abs(h.netPosition)
    requires st.maxRepairLossQuote.Some?
    ensures
      var s := RepairFill(st, cfg, h, m);
      var fee := FeeBpsFor(cfg, PlanRepair(st, h, m.books).intent);
      var o := RepairStep(st, h, m.books, VenueAt(PaperTrade, cfg, m));
      && o.Returned? && o.h.realizedPnl.Some?
      && o.h.realizedPnl.value
         >= -st.maxRepairLossQuote.value + Times(s.Notional(), (st.iocPriceBufferBps - fee) / BPS)
  {
    RepairOrderClosesResidual(st, h, m.books);
    EstimateMatchesFullFill(st, cfg, h, m);
    RepairIsWorthItsBand(st, cfg, h, m);
    LossCapHoldsIffBandPasses(st, cfg, h, m);
  }

  /** The cap says nothing about partial closes of a long: the gate counts the proceeds of the whole
      ladder, the order only reaches its band, and the profit is left far below the cap. */
  lemma LossCapMissesPartialSale()
    ensures
      var symbol := Symbol("BTC", "USDT");
      var book := Book("b", symbol, [Level(100.0, 1.0), Level(50.0, 1.0)], []);
      var m := Moment(map[("b", symbol) := book], 0.0, _ => Raised);
      var h := NewHedge(symbol, "a", "b", 2.0)
        .(state := FailedNeedsRepair, executedBuy := 2.0, netPosition := 2.0, realizedPnl := Some(-150.0));
      var o := RepairStep(CAPPED, h, m.books, VenueAt(PaperTrade, PaperConfig(0.0, 1.0, 0.0, None), m));
      BooksWellFormed(m.books) && PlanRepair(CAPPED, h, m.books).Send? && o.h.realizedPnl == Some(-50.0)
  {
    var symbol := Symbol("BTC", "USDT");
    var cfg := PaperConfig(0.0, 1.0, 0.0, None);
    var bids := [Level(100.0, 1.0), Level(50.0, 1.0)];
    var book := Book("b", symbol, bids, []);
    var m := Moment(map[("b", symbol) := book], 0.0, _ => Raised);
    var h := NewHedge(symbol, "a", "b", 2.0)
      .(state := FailedNeedsRepair, executedBuy := 2.0, netPosition := 2.0, realizedPnl := Some(-150.0));
    ThinBidsWalks(bids);
    var t := Target("b", Sell, 2.0, Some(book));
    assert ChooseTarget(0.0, h, m.books) == t;
    assert ProjectedPnl(0.0, h, t) == Some(0.0);
    var i := RepairIntent(CAPPED, h, t);
    assert i == OrderIntent("b", symbol, Sell, IocLimit, Some(100.0), 2.0, true);
    var s := PaperFill(cfg, Some(book), i, 0.0);
    assert s.filled == 1.0 && s.Notional() == 100.0 && s.Fee() == 0.0;
  }

  lemma ThinBidsWalks(bids: Ladder)
    requires bids == [Level(100.0, 1.0), Level(50.0, 1.0)]
    ensures Sorted(Sell, bids) && Positive(bids)
    ensures Vwap(Sell, bids, 2.0).vwap == 75.0 && Vwap(Sell, bids, 2.0).filled == 2.0
    ensures LimitedWalk(Sell, Some(100.0), bids, 2.0) == Taken(1.0, 100.0)
  {
    assert bids[1..] == [Level(50.0, 1.0)] && bids[1..][1..] == [];
    assert Walk(bids[1..], 1.0) == Taken(1.0, 50.0);
    assert Walk(bids, 2.0) == Taken(2.0, 150.0);
    assert LimitedWalk(Sell, Some(100.0), bids[1..], 1.0) == Taken(0.0, 0.0);
  }
}
