/** Net-edge estimation for buying on one venue and selling on another. */
module SpreadCalculator {
  import opened Prelude
  import opened OrderBook
  import opened LadderWalk
  import opened SlippageModel

  /** Taker fee in basis points per venue, symbol and side. */
  type FeeSchedule = (Exchange, Symbol, Side) -> real

  datatype LegEstimate = LegEstimate(
    exchange: Exchange, side: Side, effectivePrice: real, fillableSize: real, slippageBps: real, feeBps: real)

  datatype SpreadEstimate = SpreadEstimate(
    buyLeg: LegEstimate,
    sellLeg: LegEstimate,
    grossSpreadBps: real,
    netEdgeBps: real,
    slippageBpsTotal: real,
    feeBpsTotal: real,
    bufferBps: real,
    maxTradableBase: real,
    expectedProfitQuote: real)

  /** Proceeds per unit sold, after the fee. */
  function NetSell(vwap: real, feeBps: real): real {
    Times(vwap, 1.0 - feeBps / BPS)
  }

  /** Cost per unit bought, fee included. */
  function NetBuy(vwap: real, feeBps: real): real {
    Times(vwap, 1.0 + feeBps / BPS)
  }

  function EvaluateDirection(
    fees: FeeSchedule, bufferBps: real, symbol: Symbol, buyBook: Book, sellBook: Book, probe: real)
    : Option<SpreadEstimate>
  {
    if buyBook.asks == [] || sellBook.bids == [] then None
    else
      var buy := Vwap(Buy, buyBook.asks, probe);
      var sell := Vwap(Sell, sellBook.bids, probe);
      if buy.filled == 0.0 || sell.filled == 0.0 || buy.vwap == 0.0 then None
      else
        var fillable := Min(buy.filled, sell.filled);
        var buyFee := fees(buyBook.exchange, symbol, Buy);
        var sellFee := fees(sellBook.exchange, symbol, Sell);
        var margin := NetSell(sell.vwap, sellFee) - NetBuy(buy.vwap, buyFee);
        var rawEdge := margin / buy.vwap * BPS;
        var gross := (sell.vwap - buy.vwap) / buy.vwap * BPS;
        Some(SpreadEstimate(
               LegEstimate(buyBook.exchange, Buy, buy.vwap, buy.filled, buy.slippageBps, buyFee),
               LegEstimate(sellBook.exchange, Sell, sell.vwap, sell.filled, sell.slippageBps, sellFee),
               gross,
               rawEdge - bufferBps,
               buy.slippageBps + sell.slippageBps,
               buyFee + sellFee,
               bufferBps,
               fillable,
               Times(margin, fillable) - Times(Times(bufferBps / BPS, buy.vwap), fillable)))
  }

  /** A pair of books that can be traded one against the other. */
  ghost predicate Tradable(buyBook: Book, sellBook: Book) {
    buyBook.WellFormed() && sellBook.WellFormed() && buyBook.asks != [] && sellBook.bids != []
  }

  /** On tradable books every positive size gets an estimate, priced by the two ladder walks. */
  lemma EstimateExists(fees: FeeSchedule, bufferBps: real, symbol: Symbol, buyBook: Book, sellBook: Book, size: real)
    requires Tradable(buyBook, sellBook) && 0.0 < size
    ensures
      var est := EvaluateDirection(fees, bufferBps, symbol, buyBook, sellBook, size);
      && est.Some?
      && est.value.maxTradableBase == Min(size, Min(Depth(buyBook.asks), Depth(sellBook.bids))) > 0.0
      && buyBook.asks[0].price <= est.value.buyLeg.effectivePrice
      && 0.0 < est.value.sellLeg.effectivePrice <= sellBook.bids[0].price
  {
    VwapOnSortedLadder(Buy, buyBook.asks, size);
    VwapOnSortedLadder(Sell, sellBook.bids, size);
  }

  lemma EdgeAsRatio(margin: real, bv: real, ns: real, m: real)
    requires 0.0 < bv && margin == ns - Times(bv, m)
    ensures margin / bv == ns / bv - m
  {
    var r := ns / bv;
    TimesDivide(ns, bv);
    TimesAdd(r, m, bv);
    TimesCommutes(bv, m);
    assert margin == (r - m) * bv;
    assert (r - m) * bv / bv == r - m;
  }

  /** Net edge never improves with size: an opportunity that clears a minimum edge at one size
      clears it at every smaller one on the same books. */
  lemma EdgeNonIncreasingInSize(
      fees: FeeSchedule, bufferBps: real, symbol: Symbol, buyBook: Book, sellBook: Book, small: real, large: real)
    requires Tradable(buyBook, sellBook) && 0.0 < small <= large
    requires fees(sellBook.exchange, symbol, Sell) <= BPS
    ensures
      var s := EvaluateDirection(fees, bufferBps, symbol, buyBook, sellBook, small);
      var l := EvaluateDirection(fees, bufferBps, symbol, buyBook, sellBook, large);
      s.Some? && l.Some? && s.value.netEdgeBps >= l.value.netEdgeBps
  {
    EstimateExists(fees, bufferBps, symbol, buyBook, sellBook, small);
    EstimateExists(fees, bufferBps, symbol, buyBook, sellBook, large);
    VwapWorsensWithSize(Buy, buyBook.asks, small, large);
    VwapWorsensWithSize(Sell, sellBook.bids, small, large);
    var buyFee, sellFee := fees(buyBook.exchange, symbol, Buy), fees(sellBook.exchange, symbol, Sell);
    var bs, bl := Vwap(Buy, buyBook.asks, small).vwap, Vwap(Buy, buyBook.asks, large).vwap;
    var ss, sl := Vwap(Sell, sellBook.bids, small).vwap, Vwap(Sell, sellBook.bids, large).vwap;
    var ns, nl := NetSell(ss, sellFee), NetSell(sl, sellFee);
    RatioFalls(bs, bl, ss, sl, 1.0 - sellFee / BPS);
    EdgeAsRatio(ns - NetBuy(bs, buyFee), bs, ns, 1.0 + buyFee / BPS);
    EdgeAsRatio(nl - NetBuy(bl, buyFee), bl, nl, 1.0 + buyFee / BPS);
  }

  lemma RatioFalls(bs: real, bl: real, ss: real, sl: real, k: real)
    requires 0.0 < bs <= bl && 0.0 < sl <= ss && 0.0 <= k
    ensures Times(sl, k) / bl <= Times(ss, k) / bs
  {
    TimesMono(k, sl, ss);
    TimesMono(k, 0.0, sl);
    TimesMono(bs, Times(sl, k), Times(ss, k));
    TimesMono(Times(ss, k), bs, bl);
    DivCompare(Times(sl, k), bl, Times(ss, k), bs);
  }

  /** The profit figure is the net edge applied to the notional bought. */
  lemma ProfitIsEdgeOnNotional(
      fees: FeeSchedule, bufferBps: real, symbol: Symbol, buyBook: Book, sellBook: Book, size: real)
    requires EvaluateDirection(fees, bufferBps, symbol, buyBook, sellBook, size).Some?
    ensures
      var e := EvaluateDirection(fees, bufferBps, symbol, buyBook, sellBook, size).value;
      e.expectedProfitQuote == Times(Times(e.netEdgeBps / BPS, e.buyLeg.effectivePrice), e.maxTradableBase)
  {
    var e := EvaluateDirection(fees, bufferBps, symbol, buyBook, sellBook, size).value;
    var bv, q := e.buyLeg.effectivePrice, e.maxTradableBase;
    var margin := NetSell(e.sellLeg.effectivePrice, e.sellLeg.feeBps) - NetBuy(bv, e.buyLeg.feeBps);
    var r := margin / bv;
    assert e.netEdgeBps / BPS == r - bufferBps / BPS;
    TimesAdd(r, bufferBps / BPS, bv);
    TimesDivide(margin, bv);
    TimesAdd(margin, Times(bufferBps / BPS, bv), q);
  }

  /** The figures of a leg are those of walking its ladder. */
  predicate LegIsWalk(leg: LegEstimate, exchange: Exchange, side: Side, q: VwapQuote, feeBps: real) {
    && leg.exchange == exchange && leg.side == side && leg.feeBps == feeBps
    && leg.effectivePrice == q.vwap && leg.fillableSize == q.filled && leg.slippageBps == q.slippageBps
  }

  /** The net edge is the gross spread less both fees, the sell fee weighted by the price ratio, and
      less the buffer; the other figures are the sums over the two legs. */
  lemma EdgeIsSpreadLessFees(
      fees: FeeSchedule, bufferBps: real, symbol: Symbol, buyBook: Book, sellBook: Book, size: real)
    requires EvaluateDirection(fees, bufferBps, symbol, buyBook, sellBook, size).Some?
    ensures
      var e := EvaluateDirection(fees, bufferBps, symbol, buyBook, sellBook, size).value;
      var buyFee, sellFee := fees(buyBook.exchange, symbol, Buy), fees(sellBook.exchange, symbol, Sell);
      var ratio := e.sellLeg.effectivePrice / e.buyLeg.effectivePrice;
      && e.grossSpreadBps == (ratio - 1.0) * BPS
      && e.netEdgeBps == e.grossSpreadBps - buyFee - Times(sellFee, ratio) - bufferBps
      && e.feeBpsTotal == buyFee + sellFee
      && e.slippageBpsTotal == e.buyLeg.slippageBps + e.sellLeg.slippageBps && e.bufferBps == bufferBps
      && LegIsWalk(e.buyLeg, buyBook.exchange, Buy, Vwap(Buy, buyBook.asks, size), buyFee)
      && LegIsWalk(e.sellLeg, sellBook.exchange, Sell, Vwap(Sell, sellBook.bids, size), sellFee)
  {
    var e := EvaluateDirection(fees, bufferBps, symbol, buyBook, sellBook, size).value;
    EdgeArithmetic(e.buyLeg.effectivePrice, e.sellLeg.effectivePrice, e.buyLeg.feeBps, e.sellLeg.feeBps);
  }

  lemma EdgeArithmetic(bv: real, sv: real, buyFee: real, sellFee: real)
    requires bv != 0.0
    ensures (sv - bv) / bv * BPS == (sv / bv - 1.0) * BPS
    ensures
      (NetSell(sv, sellFee) - NetBuy(bv, buyFee)) / bv * BPS
      == (sv / bv - 1.0) * BPS - buyFee - Times(sellFee, sv / bv)
  {
    var ratio := sv / bv;
    var margin := NetSell(sv, sellFee) - NetBuy(bv, buyFee);
    var edge := ratio - 1.0 - buyFee / BPS - Times(sellFee / BPS, ratio);
    TimesDivide(sv, bv);
    Quotient(ratio - 1.0, bv, sv - bv);
    assert margin == Times(edge, bv) by {
      TimesAdd(1.0, sellFee / BPS, sv);
      TimesAdd(1.0, buyFee / BPS, bv);
      TimesAdd(ratio, 1.0, bv);
      TimesAdd(ratio - 1.0, buyFee / BPS, bv);
      TimesAdd(ratio - 1.0 - buyFee / BPS, Times(sellFee / BPS, ratio), bv);
      TimesAssociates(sellFee / BPS, ratio, bv);
      TimesCommutes(sellFee / BPS, sv);
      TimesCommutes(buyFee / BPS, bv);
    }
    Quotient(edge, bv, margin);
    TimesScaled(sellFee, ratio);
  }

  lemma Quotient(q: real, y: real, x: real)
    requires y != 0.0 && x == Times(q, y)
    ensures x / y == q
  {}

  lemma TimesScaled(fee: real, ratio: real)
    ensures Times(fee / BPS, ratio) * BPS == Times(fee, ratio)
  {}
}
