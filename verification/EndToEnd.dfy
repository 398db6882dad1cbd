/** From the scanner's estimate to the realised profit, on books that do not move. */
module EndToEnd {
  import opened Prelude
  import opened OrderBook
  import opened LadderWalk
  import opened SlippageModel
  import opened ExecutionPolicy
  import opened SpreadCalculator
  import opened Orders
  import opened Settings
  import opened StateMachine
  import opened HedgeGroup
  import opened Opportunities
  import opened OpportunityScanner
  import opened PaperFillEngine
  import opened OrderRouter
  import opened RepairEngine
  import opened HedgeCoordinator

  /** Paper trading with the dice off, immediate-or-cancel limits, one fee schedule everywhere, and
      the same books from the moment the execution starts until both legs are served. */
  ghost predicate StillMarket(w: Wiring, world: World, books: Books) {
    && w.st.mode.PaperTrade? && w.st.orderType.IocLimit?
    && -BPS <= w.st.iocPriceBufferBps <= BPS
    && w.cfg.partialFillProbability <= 0.0
    && w.fees.Some? && w.cfg.feeModel == w.fees
    && BooksWellFormed(books)
    && world.entry.books == books && world.buy.books == books && world.sell.books == books
  }

  /** The signal prices are no better than the top of the books. */
  ghost predicate PricedOffBooks(opp: Opportunity, buyBook: Book, sellBook: Book) {
    && buyBook.WellFormed() && sellBook.WellFormed()
    && buyBook.asks != [] && sellBook.bids != []
    && buyBook.asks[0].price <= opp.buyPrice && 0.0 < opp.sellPrice <= sellBook.bids[0].price
  }

  /** A leg priced off the signal fills, with the dice off, from the levels inside its limit, which
      hold at least the in-band depth. */
  lemma LegFillsInBandDepth(st: Settings, cfg: PaperConfig, opp: Opportunity, side: Side, amount: real, book: Book, roll: real)
    requires book.WellFormed() && 0.0 <= amount && book.Against(side) != []
    requires st.orderType.IocLimit? && -BPS <= st.iocPriceBufferBps <= BPS && cfg.partialFillProbability <= 0.0
    requires NoWorse(side, book.Touch(side).value, if side.Buy? then opp.buyPrice else opp.sellPrice)
    ensures
      var s := PaperFill(cfg, Some(book), LegIntent(st, opp, side, amount), roll);
      && Min(amount, InBandDepth(Some(book), side, st.iocPriceBufferBps)) <= s.filled <= amount
      && (amount <= InBandDepth(Some(book), side, st.iocPriceBufferBps) ==>
            amount <= Depth(Eligible(side, LimitOf(LegIntent(st, opp, side, amount)), book.Against(side))))
  {
    var i := LegIntent(st, opp, side, amount);
    var reference := if side.Buy? then opp.buyPrice else opp.sellPrice;
    var touch := book.Touch(side).value;
    IocFillsWhatIsAvailable(cfg, book, i, roll);
    LimitFollowsReference(st.iocPriceBufferBps, side, touch, reference);
    DepthGrowsWithLimit(
      side, ProtectedLimitPrice(st.iocPriceBufferBps, side, touch),
      ProtectedLimitPrice(st.iocPriceBufferBps, side, reference), book.Against(side));
    WalkedQuantity(book, i);
  }

  /** The depth gate bounds the residual: when a ratio between zero and one passes it, each leg
      fills at least that share of the amount, so the pair is left with at most the rest. */
  lemma DepthGateBoundsResidual(w: Wiring, opp: Opportunity, amount: real, world: World, buyBook: Book, sellBook: Book)
    requires StillMarket(w, world, world.entry.books)
    requires Lookup(world.entry.books, opp.buyExchange, opp.symbol) == Some(buyBook)
    requires Lookup(world.entry.books, opp.sellExchange, opp.symbol) == Some(sellBook)
    requires PricedOffBooks(opp, buyBook, sellBook) && 0.0 < amount
    requires 0.0 < w.st.minInBandDepthRatio <= 1.0
    requires GateVerdict(w.st, w.fees, opp, amount, world.entry).Pass?
    ensures
      var buy, sell := BuyAnswer(w, opp, amount, world), SellAnswer(w, opp, amount, world);
      var required := Times(amount, w.st.minInBandDepthRatio);
      && buy.Answered? && sell.Answered?
      && required <= buy.state.filled && required <= sell.state.filled
      && Abs(buy.state.filled - sell.state.filled) <= amount - required
  {
    TimesMono(amount, w.st.minInBandDepthRatio, 1.0);
    LegFillsInBandDepth(w.st, w.cfg, opp, Buy, amount, buyBook, world.buy.roll);
    LegFillsInBandDepth(w.st, w.cfg, opp, Sell, amount, sellBook, world.sell.roll);
  }

  /** A leg that fits in the band is filled completely, at the VWAP of its size. */
  lemma LegFillsAtVwap(st: Settings, cfg: PaperConfig, opp: Opportunity, side: Side, amount: real, book: Book, roll: real)
    requires book.WellFormed() && 0.0 < amount && book.Against(side) != []
    requires st.orderType.IocLimit? && -BPS <= st.iocPriceBufferBps <= BPS && cfg.partialFillProbability <= 0.0
    requires NoWorse(side, book.Touch(side).value, if side.Buy? then opp.buyPrice else opp.sellPrice)
    requires amount <= InBandDepth(Some(book), side, st.iocPriceBufferBps)
    ensures
      var s := PaperFill(cfg, Some(book), LegIntent(st, opp, side, amount), roll);
      var vwap := Vwap(side, book.Against(side), amount).vwap;
      && s.filled == amount && s.status.Filled?
      && s.Notional() == Times(amount, vwap)
      && s.Fee() == Times(Times(amount, vwap), FeeBpsFor(cfg, LegIntent(st, opp, side, amount)) / BPS)
  {
    var i := LegIntent(st, opp, side, amount);
    var ls := book.Against(side);
    LegFillsInBandDepth(st, cfg, opp, side, amount, book, roll);
    WalkedQuantity(book, i);
    WalkInsideBand(side, LimitOf(i).value, ls, amount);
    VwapOnSortedLadder(side, ls, amount);
    var t := Walk(ls, amount);
    TimesDivide(t.cost, t.qty);
    TimesCommutes(t.cost / t.qty, amount);
  }

  /** The profit of a pair completely filled at the two averages. */
  lemma PairProfit(amount: real, bv: real, sv: real, buyFee: real, sellFee: real)
    ensures
      Times(amount, sv) - Times(amount, bv)
      - (Times(Times(amount, bv), buyFee / BPS) + Times(Times(amount, sv), sellFee / BPS))
      == Times(amount, NetSell(sv, sellFee) - NetBuy(bv, buyFee))
  {
    TimesAdd(1.0, sellFee / BPS, sv);
    TimesAdd(1.0, buyFee / BPS, bv);
    TimesAssociates(amount, sv, sellFee / BPS);
    TimesAssociates(amount, bv, buyFee / BPS);
    TimesAdd(NetSell(sv, sellFee), NetBuy(bv, buyFee), amount);
    TimesAdd(sv, Times(sv, sellFee / BPS), amount);
    TimesAdd(bv, Times(bv, buyFee / BPS), amount);
  }

  /** Both legs fit in their bands: the pair completes with the profit the two averages promise. */
  lemma DeepPairCompletes(w: Wiring, opp: Opportunity, amount: real, world: World, buyBook: Book, sellBook: Book)
    requires StillMarket(w, world, world.entry.books)
    requires Lookup(world.entry.books, opp.buyExchange, opp.symbol) == Some(buyBook)
    requires Lookup(world.entry.books, opp.sellExchange, opp.symbol) == Some(sellBook)
    requires PricedOffBooks(opp, buyBook, sellBook) && 0.0 < amount
    requires amount <= InBandDepth(Some(buyBook), Buy, w.st.iocPriceBufferBps)
    requires amount <= InBandDepth(Some(sellBook), Sell, w.st.iocPriceBufferBps)
    ensures
      var buy, sell := BuyAnswer(w, opp, amount, world), SellAnswer(w, opp, amount, world);
      var bv, sv := Vwap(Buy, buyBook.asks, amount).vwap, Vwap(Sell, sellBook.bids, amount).vwap;
      && buy.Answered? && sell.Answered?
      && buy.state.filled == sell.state.filled == amount
      && buy.state.status.Filled? && sell.state.status.Filled?
      && sell.state.Notional() - buy.state.Notional() - (buy.state.Fee() + sell.state.Fee())
         == Times(amount, NetSell(sv, w.fees.value(opp.sellExchange, opp.symbol, Sell))
                          - NetBuy(bv, w.fees.value(opp.buyExchange, opp.symbol, Buy)))
  {
    LegFillsAtVwap(w.st, w.cfg, opp, Buy, amount, buyBook, world.buy.roll);
    LegFillsAtVwap(w.st, w.cfg, opp, Sell, amount, sellBook, world.sell.roll);
    PairProfit(
      amount, Vwap(Buy, buyBook.asks, amount).vwap, Vwap(Sell, sellBook.bids, amount).vwap,
      w.fees.value(opp.buyExchange, opp.symbol, Buy), w.fees.value(opp.sellExchange, opp.symbol, Sell));
  }

  /** A pair filled completely and alike needs no repair. */
  lemma FullPairSettles(w: Wiring, opp: Opportunity, amount: real, world: World)
    requires GateVerdict(w.st, w.fees, opp, amount, world.entry).Pass?
    requires BuyAnswer(w, opp, amount, world).Answered? && SellAnswer(w, opp, amount, world).Answered?
    requires
      var buy, sell := BuyAnswer(w, opp, amount, world).state, SellAnswer(w, opp, amount, world).state;
      buy.status.Filled? && sell.status.Filled? && buy.filled == sell.filled
    ensures
      var buy, sell := BuyAnswer(w, opp, amount, world).state, SellAnswer(w, opp, amount, world).state;
      var o := Execution(w, opp, amount, world);
      && o.Returned? && o.h.state.Completed? && o.h.netPosition == 0.0
      && o.h.repairAttempts == 0 && o.h.repairCost == 0.0 && o.h.symbol == opp.symbol
      && o.h.realizedPnl == Some(sell.Notional() - buy.Notional() - (buy.Fee() + sell.Fee()))
      && o.h.expectedProfitAtApproved == GateVerdict(w.st, w.fees, opp, amount, world.entry).expected
  {}

  /** The profit promised at the approved size is the profit realised, less the safety buffer, and
      the minimum edge bounds it from below. */
  lemma EstimateBoundsProfit(
      fees: FeeSchedule, st: Settings, symbol: Symbol, buyBook: Book, sellBook: Book, amount: real, e: SpreadEstimate)
    requires Tradable(buyBook, sellBook) && 0.0 < amount
    requires EvaluateDirection(fees, st.scanBufferBps, symbol, buyBook, sellBook, amount) == Some(e)
    requires e.maxTradableBase == amount && st.minNetEdgeBps <= e.netEdgeBps
    ensures
      var bv, sv := Vwap(Buy, buyBook.asks, amount).vwap, Vwap(Sell, sellBook.bids, amount).vwap;
      var buyFee, sellFee := fees(buyBook.exchange, symbol, Buy), fees(sellBook.exchange, symbol, Sell);
      var profit := Times(amount, NetSell(sv, sellFee) - NetBuy(bv, buyFee));
      var notional := Times(amount, bv);
      && profit == e.expectedProfitQuote + Times(st.scanBufferBps / BPS, notional)
      && profit >= Times((st.minNetEdgeBps + st.scanBufferBps) / BPS, notional)
  {
    VwapOnSortedLadder(Buy, buyBook.asks, amount);
    var bv, sv := Vwap(Buy, buyBook.asks, amount).vwap, Vwap(Sell, sellBook.bids, amount).vwap;
    var notional := Times(amount, bv);
    var margin := NetSell(sv, fees(sellBook.exchange, symbol, Sell)) - NetBuy(bv, fees(buyBook.exchange, symbol, Buy));
    TimesCommutes(margin, amount);
    BufferTerm(st.scanBufferBps / BPS, bv, amount);
    ProfitIsEdgeOnNotional(fees, st.scanBufferBps, symbol, buyBook, sellBook, amount);
    BufferTerm(e.netEdgeBps / BPS, bv, amount);
    TimesMono(amount, 0.0, bv);
    TimesMono(notional, st.minNetEdgeBps / BPS, e.netEdgeBps / BPS);
    TimesAdd(st.minNetEdgeBps / BPS, st.scanBufferBps / BPS, notional);
  }

  lemma BufferTerm(k: real, bv: real, amount: real)
    ensures Times(Times(k, bv), amount) == Times(k, Times(amount, bv))
  {
    TimesAssociates(k, bv, amount);
    TimesCommutes(bv, amount);
  }

  /** The books in memory cannot absorb the amount inside the band on one of the two venues. */
  predicate BandTooThin(st: Settings, buyBook: Book, sellBook: Book, amount: real) {
    InBandDepth(Some(buyBook), Buy, st.iocPriceBufferBps) < amount
    || InBandDepth(Some(sellBook), Sell, st.iocPriceBufferBps) < amount
  }

  /** On the books it was emitted from, an opportunity is never stopped for a vanished edge at any
      size up to the one it offers. */
  lemma EdgeSurvivesSmallerSize(
      st: Settings, fees: FeeSchedule, symbol: Symbol, buyBook: Book, sellBook: Book, buyAge: int, sellAge: int, amount: real)
    requires buyBook.WellFormed() && sellBook.WellFormed() && 0.0 < st.maxNotionalPerTrade
    requires ScanPair(st, fees, symbol, buyBook, sellBook, buyAge, sellAge).Emitted?
    requires 0.0 < amount <= ScanPair(st, fees, symbol, buyBook, sellBook, buyAge, sellAge).opp.maxTradableSize
    requires fees(sellBook.exchange, symbol, Sell) <= BPS
    ensures
      var e := EvaluateDirection(fees, st.scanBufferBps, symbol, buyBook, sellBook, amount);
      && Tradable(buyBook, sellBook)
      && e.Some? && st.minNetEdgeBps <= e.value.netEdgeBps && e.value.maxTradableBase == amount
  {
    EmittedOpportunity(st, fees, symbol, buyBook, sellBook, buyAge, sellAge);
    var probe := ProbeSize(st, buyBook);
    EstimateExists(fees, st.scanBufferBps, symbol, buyBook, sellBook, probe);
    EstimateExists(fees, st.scanBufferBps, symbol, buyBook, sellBook, amount);
    EdgeNonIncreasingInSize(fees, st.scanBufferBps, symbol, buyBook, sellBook, amount, probe);
  }

  /** The gates an emitted opportunity meets on unchanged books with a full depth ratio: only age or
      depth can stop it. */
  lemma OnlyAgeOrDepthStops(
      w: Wiring, opp: Opportunity, amount: real, world: World, buyBook: Book, sellBook: Book, buyAge: int, sellAge: int)
    requires StillMarket(w, world, world.entry.books) && w.st.minInBandDepthRatio == 1.0
    requires Lookup(world.entry.books, opp.buyExchange, opp.symbol) == Some(buyBook)
    requires Lookup(world.entry.books, opp.sellExchange, opp.symbol) == Some(sellBook)
    requires 0.0 < w.st.maxNotionalPerTrade && w.fees.value(opp.sellExchange, opp.symbol, Sell) <= BPS
    requires ScanPair(w.st, w.fees.value, opp.symbol, buyBook, sellBook, buyAge, sellAge) == Emitted(opp)
    requires 0.0 < amount <= opp.maxTradableSize
    ensures
      var v := GateVerdict(w.st, w.fees, opp, amount, world.entry);
      && (v.Stop? <==>
          SignalTooOldAt(w.st, world.entry) || BooksTooOld(w.st, world.entry) || BandTooThin(w.st, buyBook, sellBook, amount))
      && (v.Stop? ==> v.reason in {SignalTooOld, BookTooOld, InsufficientDepth})
      && (v.Pass? ==>
            var est := EvaluateDirection(w.fees.value, w.st.scanBufferBps, opp.symbol, buyBook, sellBook, amount);
            est.Some? && v.expected == Some(est.value.expectedProfitQuote))
  {
    assert buyBook.exchange == opp.buyExchange && sellBook.exchange == opp.sellExchange;
    EdgeSurvivesSmallerSize(w.st, w.fees.value, opp.symbol, buyBook, sellBook, buyAge, sellAge, amount);
  }

  /** Completed without repair, with the profit both averages promise: the estimate plus the buffer. */
  ghost predicate CompletesAsEstimated(w: Wiring, g: Hedge, amount: real, buyBook: Book, sellBook: Book)
    requires w.fees.Some?
  {
    var bv, sv := Vwap(Buy, buyBook.asks, amount).vwap, Vwap(Sell, sellBook.bids, amount).vwap;
    var buyFee := w.fees.value(buyBook.exchange, g.symbol, Buy);
    var sellFee := w.fees.value(sellBook.exchange, g.symbol, Sell);
    && g.state.Completed? && g.repairAttempts == 0 && g.netPosition == 0.0
    && g.realizedPnl.Some? && g.expectedProfitAtApproved.Some?
    && g.realizedPnl.value == Times(amount, NetSell(sv, sellFee) - NetBuy(bv, buyFee))
    && g.realizedPnl.value == g.expectedProfitAtApproved.value + Times(w.st.scanBufferBps / BPS, Times(amount, bv))
    && g.realizedPnl.value >= Times((w.st.minNetEdgeBps + w.st.scanBufferBps) / BPS, Times(amount, bv))
  }

  /** A trade that passed the gates with an estimate in hand, on bands deep enough, completes as
      estimated. */
  lemma PassedTradeCompletes(
      w: Wiring, opp: Opportunity, amount: real, world: World, buyBook: Book, sellBook: Book, e: SpreadEstimate)
    requires StillMarket(w, world, world.entry.books)
    requires Lookup(world.entry.books, opp.buyExchange, opp.symbol) == Some(buyBook)
    requires Lookup(world.entry.books, opp.sellExchange, opp.symbol) == Some(sellBook)
    requires PricedOffBooks(opp, buyBook, sellBook) && Tradable(buyBook, sellBook) && 0.0 < amount
    requires !BandTooThin(w.st, buyBook, sellBook, amount)
    requires EvaluateDirection(w.fees.value, w.st.scanBufferBps, opp.symbol, buyBook, sellBook, amount) == Some(e)
    requires e.maxTradableBase == amount && w.st.minNetEdgeBps <= e.netEdgeBps
    requires GateVerdict(w.st, w.fees, opp, amount, world.entry) == Pass(Some(e.expectedProfitQuote))
    ensures Execution(w, opp, amount, world).Returned?
    ensures CompletesAsEstimated(w, Execution(w, opp, amount, world).h, amount, buyBook, sellBook)
  {
    DeepPairCompletes(w, opp, amount, world, buyBook, sellBook);
    FullPairSettles(w, opp, amount, world);
    assert buyBook.exchange == opp.buyExchange && sellBook.exchange == opp.sellExchange;
    FiguresMeetEstimate(w, Execution(w, opp, amount, world).h, opp.symbol, amount, buyBook, sellBook, e);
  }

  /** A completed group whose figures are those of two complete fills and of the estimate. */
  lemma FiguresMeetEstimate(
      w: Wiring, g: Hedge, symbol: Symbol, amount: real, buyBook: Book, sellBook: Book, e: SpreadEstimate)
    requires w.fees.Some? && g.symbol == symbol && Tradable(buyBook, sellBook) && 0.0 < amount
    requires EvaluateDirection(w.fees.value, w.st.scanBufferBps, symbol, buyBook, sellBook, amount) == Some(e)
    requires e.maxTradableBase == amount && w.st.minNetEdgeBps <= e.netEdgeBps
    requires g.state.Completed? && g.repairAttempts == 0 && g.netPosition == 0.0
    requires g.expectedProfitAtApproved == Some(e.expectedProfitQuote)
    requires
      var bv, sv := Vwap(Buy, buyBook.asks, amount).vwap, Vwap(Sell, sellBook.bids, amount).vwap;
      var buyFee, sellFee := w.fees.value(buyBook.exchange, symbol, Buy), w.fees.value(sellBook.exchange, symbol, Sell);
      g.realizedPnl == Some(Times(amount, NetSell(sv, sellFee) - NetBuy(bv, buyFee)))
    ensures CompletesAsEstimated(w, g, amount, buyBook, sellBook)
  {
    EstimateBoundsProfit(w.fees.value, w.st, symbol, buyBook, sellBook, amount, e);
  }

  /** What is estimated is what is realised.  An emitted opportunity, executed at any size up to
      the one it offers on books that have not moved, either is stopped before an order is sent (by
      the age of the signal or of the books, or by a band too thin for the size) or completes
      without repair; its profit is then the expected profit at that size plus the safety buffer,
      and at least the minimum edge and the buffer on the notional bought. */
  lemma EstimateIsRealised(
      w: Wiring, opp: Opportunity, amount: real, world: World, buyBook: Book, sellBook: Book, buyAge: int, sellAge: int)
    requires StillMarket(w, world, world.entry.books) && w.st.minInBandDepthRatio == 1.0
    requires Lookup(world.entry.books, opp.buyExchange, opp.symbol) == Some(buyBook)
    requires Lookup(world.entry.books, opp.sellExchange, opp.symbol) == Some(sellBook)
    requires 0.0 < w.st.maxNotionalPerTrade && w.fees.value(opp.sellExchange, opp.symbol, Sell) <= BPS
    requires ScanPair(w.st, w.fees.value, opp.symbol, buyBook, sellBook, buyAge, sellAge) == Emitted(opp)
    requires 0.0 < amount <= opp.maxTradableSize
    ensures
      var g := Execution(w, opp, amount, world).h;
      var stopped :=
        SignalTooOldAt(w.st, world.entry) || BooksTooOld(w.st, world.entry) || BandTooThin(w.st, buyBook, sellBook, amount);
      && Execution(w, opp, amount, world).Returned?
      && (stopped ==> g.state.Aborted? && g.fills == [] && Submitting !in g.trail)
      && (!stopped ==> CompletesAsEstimated(w, g, amount, buyBook, sellBook))
  {
    OnlyAgeOrDepthStops(w, opp, amount, world, buyBook, sellBook, buyAge, sellAge);
    if GateVerdict(w.st, w.fees, opp, amount, world.entry).Pass? {
      assert buyBook.exchange == opp.buyExchange && sellBook.exchange == opp.sellExchange;
      EmittedOpportunity(w.st, w.fees.value, opp.symbol, buyBook, sellBook, buyAge, sellAge);
      EdgeSurvivesSmallerSize(w.st, w.fees.value, opp.symbol, buyBook, sellBook, buyAge, sellAge, amount);
      var e := EvaluateDirection(w.fees.value, w.st.scanBufferBps, opp.symbol, buyBook, sellBook, amount).value;
      PassedTradeCompletes(w, opp, amount, world, buyBook, sellBook, e);
    }
  }

  // ---- A trade the theorem is about ----

  const QUIET := Settings(
    PaperTrade, IocLimit, 10.0, 0.0, 0.0, 5.0, 10.0, 1.0, Some(100), Some(500), 3, None, 0.0, 99.5, 500.0, 5, None, None)

  const PAIR := Symbol("BTC", "USDT")
  const CHEAP := Book("a", PAIR, [Level(99.0, 4.0)], [Level(100.0, 4.0)])
  const DEAR := Book("b", PAIR, [Level(102.0, 4.0)], [Level(103.0, 4.0)])
  const QUIET_BOOKS: Books := map[("a", PAIR) := CHEAP, ("b", PAIR) := DEAR]

  lemma OneLevelWalk(side: Side, l: Level, amount: real)
    requires 0.0 < amount <= l.size && 0.0 < l.price
    ensures Vwap(side, [l], amount).vwap == l.price && Vwap(side, [l], amount).filled == amount
  {
    assert [l][1..] == [];
    assert Walk([l], amount) == Taken(amount, Times(amount, l.price));
  }

  const OFFER := Opportunity(PAIR, "a", "b", 100.0, 102.0, 195.0, 1.0, 1.95, Some(50), Some(50))
  const FREE: FeeSchedule := (_, _, _) => 0.0

  /** Two venues two percent apart are an opportunity. */
  lemma QuietPairIsEmitted()
    ensures ScanPair(QUIET, FREE, PAIR, CHEAP, DEAR, 50, 50) == Emitted(OFFER)
  {
    CalmWalks();
    OneLevelWalk(Buy, CHEAP.asks[0], 1.0);
    OneLevelWalk(Sell, DEAR.bids[0], 1.0);
    assert ProbeSize(QUIET, CHEAP) == 1.0;
    var est := EvaluateDirection(FREE, 5.0, PAIR, CHEAP, DEAR, 1.0);
    assert est.Some? && est.value.netEdgeBps == 195.0 && est.value.expectedProfitQuote == 1.95;
  }

  const CALM := Moment(QUIET_BOOKS, 0.0, _ => Raised)
  const CALM_WORLD := World(Entry(Some(20), Some(60), Some(60), QUIET_BOOKS), CALM, CALM, QUIET_BOOKS, CALM)
  const CALM_WIRING := Wiring(QUIET, PaperConfig(0.0, 1.0, 0.0, Some(FREE)), Some(FREE))

  lemma CalmMarketIsStill()
    ensures StillMarket(CALM_WIRING, CALM_WORLD, QUIET_BOOKS)
    ensures CHEAP.WellFormed() && DEAR.WellFormed() && !BandTooThin(QUIET, CHEAP, DEAR, 1.0)
  {
    TouchIsInBand(CHEAP, Buy, 10.0);
    TouchIsInBand(DEAR, Sell, 10.0);
  }

  lemma CalmWalks()
    ensures Vwap(Buy, CHEAP.asks, 1.0).vwap == 100.0 && Vwap(Sell, DEAR.bids, 1.0).vwap == 102.0
  {
    OneLevelWalk(Buy, CHEAP.asks[0], 1.0);
    OneLevelWalk(Sell, DEAR.bids[0], 1.0);
  }

  /** What the estimate comes to on the calm books. */
  lemma CalmProfit(g: Hedge)
    requires CompletesAsEstimated(CALM_WIRING, g, 1.0, CHEAP, DEAR)
    ensures g.state.Completed? && g.realizedPnl == Some(2.0) && g.expectedProfitAtApproved == Some(1.95)
  {
    CalmWalks();
    assert NetSell(102.0, 0.0) == 102.0 && NetBuy(100.0, 0.0) == 100.0;
    assert Times(1.0, 2.0) == 2.0 && Times(5.0 / BPS, Times(1.0, 100.0)) == 0.05;
  }

  /** It passes every gate, and one unit earns the whole gap: the estimate and its buffer. */
  lemma QuietTradeEarnsTheGap()
    ensures
      var g := Execution(CALM_WIRING, OFFER, 1.0, CALM_WORLD).h;
      g.state.Completed? && g.realizedPnl == Some(2.0) && g.expectedProfitAtApproved == Some(1.95)
  {
    QuietPairIsEmitted();
    CalmMarketIsStill();
    EstimateIsRealised(CALM_WIRING, OFFER, 1.0, CALM_WORLD, CHEAP, DEAR, 50, 50);
    CalmProfit(Execution(CALM_WIRING, OFFER, 1.0, CALM_WORLD).h);
  }

  /** The same trade with the bid on the dear venue fallen below the ask is stopped: its edge is gone. */
  lemma VanishedEdgeIsStopped()
    ensures
      var fallen := DEAR.(bids := [Level(99.0, 4.0)]);
      var entry := CALM_WORLD.entry.(books := QUIET_BOOKS[("b", PAIR) := fallen]);
      var v := GateVerdict(QUIET, Some(FREE), OFFER, 1.0, entry);
      v.Stop? && v.reason == EdgeVanished
  {
    OneLevelWalk(Buy, CHEAP.asks[0], 1.0);
    OneLevelWalk(Sell, Level(99.0, 4.0), 1.0);
    var fallen := DEAR.(bids := [Level(99.0, 4.0)]);
    var est := EvaluateDirection(FREE, 5.0, PAIR, CHEAP, fallen, 1.0);
    assert est.Some? && est.value.netEdgeBps == -105.0;
  }
}
