/** From a pair of books to an opportunity, or to the reason there is none. */
module OpportunityScanner {
  import opened Prelude
  import opened OrderBook
  import opened SlippageModel
  import opened SpreadCalculator
  import opened Settings
  import opened Opportunities

  datatype FilterReason = BelowMinEdge | BelowMinProfit | BelowMinSize

  datatype ScanResult = Nothing | Filtered(reason: FilterReason) | Emitted(opp: Opportunity)

  /** The probe is the largest notional a trade may have, at the mid price of the buy book. */
  function ProbeSize(st: Settings, buyBook: Book): real {
    var mid := buyBook.MidPrice().GetOr(1.0);
    st.maxNotionalPerTrade / (if mid == 0.0 then 1.0 else mid)
  }

  function ScanPair(st: Settings, fees: FeeSchedule, symbol: Symbol, buyBook: Book, sellBook: Book, buyAge: int, sellAge: int)
    : ScanResult
  {
    var est := EvaluateDirection(fees, st.scanBufferBps, symbol, buyBook, sellBook, ProbeSize(st, buyBook));
    if est.None? then Nothing
    else
      var e := est.value;
      if e.netEdgeBps < st.minNetEdgeBps then Filtered(BelowMinEdge)
      else if e.expectedProfitQuote < st.minProfitQuote then Filtered(BelowMinProfit)
      else if st.minLiquidityUsdt > 0.0 && Times(e.maxTradableBase, e.buyLeg.effectivePrice) < st.minLiquidityUsdt
      then Filtered(BelowMinSize)
      else
        Emitted(Opportunity(
                  symbol, buyBook.exchange, sellBook.exchange, e.buyLeg.effectivePrice, e.sellLeg.effectivePrice,
                  e.netEdgeBps, e.maxTradableBase, e.expectedProfitQuote, Some(buyAge), Some(sellAge)))
  }

  /** What an emitted opportunity promises: it was priced by walking both books at a probe at least
      as large as the size it offers, no better than their tops, and clears the minimum edge, profit
      and liquidity. */
  lemma EmittedOpportunity(
      st: Settings, fees: FeeSchedule, symbol: Symbol, buyBook: Book, sellBook: Book, buyAge: int, sellAge: int)
    requires buyBook.WellFormed() && sellBook.WellFormed() && 0.0 < st.maxNotionalPerTrade
    requires ScanPair(st, fees, symbol, buyBook, sellBook, buyAge, sellAge).Emitted?
    ensures
      var opp := ScanPair(st, fees, symbol, buyBook, sellBook, buyAge, sellAge).opp;
      var probe := ProbeSize(st, buyBook);
      && Tradable(buyBook, sellBook)
      && 0.0 < opp.maxTradableSize <= probe
      && buyBook.asks[0].price <= opp.buyPrice
      && 0.0 < opp.sellPrice <= sellBook.bids[0].price
      && st.minNetEdgeBps <= opp.netEdgeBps && st.minProfitQuote <= opp.expectedProfitQuote
      && (0.0 < st.minLiquidityUsdt ==> st.minLiquidityUsdt <= Times(opp.maxTradableSize, opp.buyPrice))
      && EvaluateDirection(fees, st.scanBufferBps, symbol, buyBook, sellBook, probe).Some?
      && opp.netEdgeBps == EvaluateDirection(fees, st.scanBufferBps, symbol, buyBook, sellBook, probe).value.netEdgeBps
  {
    EstimateExists(fees, st.scanBufferBps, symbol, buyBook, sellBook, ProbeSize(st, buyBook));
  }

  /** The probe costs the largest notional a trade may have, at the middle of the buy book, or at one
      when that is unknown. */
  lemma ProbeCostsMaxNotional(st: Settings, buyBook: Book)
    ensures
      var mid := if buyBook.bids == [] || buyBook.asks == [] then 1.0
                 else (buyBook.bids[0].price + buyBook.asks[0].price) / 2.0;
      Times(ProbeSize(st, buyBook), if mid == 0.0 then 1.0 else mid) == st.maxNotionalPerTrade
  {
    var mid := if buyBook.bids == [] || buyBook.asks == [] then 1.0
               else (buyBook.bids[0].price + buyBook.asks[0].price) / 2.0;
    TimesDivide(st.maxNotionalPerTrade, if mid == 0.0 then 1.0 else mid);
  }

  /** Exactly when a pair is emitted, and as what; and which filter a pair with an estimate falls to
      otherwise: the first of edge, profit and liquidity it misses. */
  lemma PairIsEmittedIff(
      st: Settings, fees: FeeSchedule, symbol: Symbol, buyBook: Book, sellBook: Book, buyAge: int, sellAge: int)
    ensures
      var r := ScanPair(st, fees, symbol, buyBook, sellBook, buyAge, sellAge);
      var est := EvaluateDirection(fees, st.scanBufferBps, symbol, buyBook, sellBook, ProbeSize(st, buyBook));
      && (r.Nothing? <==> est.None?)
      && (est.Some? ==>
            var e := est.value;
            var edge, profit := st.minNetEdgeBps <= e.netEdgeBps, st.minProfitQuote <= e.expectedProfitQuote;
            var liquid :=
              st.minLiquidityUsdt <= 0.0 || st.minLiquidityUsdt <= Times(e.maxTradableBase, e.buyLeg.effectivePrice);
            && (r.Emitted? <==> edge && profit && liquid)
            && (r == Filtered(BelowMinEdge) <==> !edge)
            && (r == Filtered(BelowMinProfit) <==> edge && !profit)
            && (r == Filtered(BelowMinSize) <==> edge && profit && !liquid)
            && (r.Emitted? ==>
                  && r.opp.symbol == symbol
                  && r.opp.buyExchange == buyBook.exchange && r.opp.sellExchange == sellBook.exchange
                  && r.opp.buyPrice == Vwap(Buy, buyBook.asks, ProbeSize(st, buyBook)).vwap
                  && r.opp.sellPrice == Vwap(Sell, sellBook.bids, ProbeSize(st, buyBook)).vwap
                  && r.opp.netEdgeBps == e.netEdgeBps && r.opp.expectedProfitQuote == e.expectedProfitQuote
                  && r.opp.maxTradableSize == e.maxTradableBase
                  && r.opp.buyBookAgeMs == Some(buyAge) && r.opp.sellBookAgeMs == Some(sellAge)))
  {}

  // ---- Scanning one symbol over all ordered pairs of venues ----

  /** The order-book manager during one pass: books, staleness and ages per venue. */
  datatype Feed = Feed(books: Books, stale: Exchange -> bool, age: Exchange -> int)

  function Examine(st: Settings, fees: FeeSchedule, symbol: Symbol, feed: Feed, buy: Exchange, sell: Exchange): ScanResult {
    var buyBook, sellBook := Lookup(feed.books, buy, symbol), Lookup(feed.books, sell, symbol);
    if buyBook.None? || sellBook.None? || feed.stale(buy) || feed.stale(sell) then Nothing
    else ScanPair(st, fees, symbol, buyBook.value, sellBook.value, feed.age(buy), feed.age(sell))
  }

  /** A pair is looked at exactly when both venues have a book and neither is stale. */
  lemma OnlyFreshPairsAreScanned(st: Settings, fees: FeeSchedule, symbol: Symbol, feed: Feed, buy: Exchange, sell: Exchange)
    ensures
      var kept := (buy, symbol) in feed.books && (sell, symbol) in feed.books;
      var usable := kept && !feed.stale(buy) && !feed.stale(sell);
      && (!usable ==> Examine(st, fees, symbol, feed, buy, sell) == Nothing)
      && (usable ==>
            var buyBook, sellBook := feed.books[(buy, symbol)], feed.books[(sell, symbol)];
            Examine(st, fees, symbol, feed, buy, sell)
            == ScanPair(st, fees, symbol, buyBook, sellBook, feed.age(buy), feed.age(sell)))
  {}

  type Examiner = (Exchange, Exchange) -> ScanResult

  /** How a pass looks at one ordered pair. */
  function ExaminerOf(st: Settings, fees: FeeSchedule, symbol: Symbol, feed: Feed): Examiner {
    (buy, sell) => Examine(st, fees, symbol, feed, buy, sell)
  }

  /** The results of a pass up to buying on venue `i` against the first `n` venues, itself excepted;
      `Pass(examine, exs, |exs|, 0)` is a whole pass. */
  function Pass(examine: Examiner, exs: seq<Exchange>, i: nat, n: nat): seq<ScanResult>
    requires i <= |exs| && n <= |exs| && (i == |exs| ==> n == 0)
    decreases i, n
  {
    if n > 0 then
      var before := Pass(examine, exs, i, n - 1);
      if n - 1 == i then before else before + [examine(exs[i], exs[n - 1])]
    else if i > 0 then Pass(examine, exs, i - 1, |exs|)
    else []
  }

  function Opps(rs: seq<ScanResult>): seq<Opportunity> {
    if rs == [] then []
    else
      var last := rs[|rs| - 1];
      Opps(rs[..|rs| - 1]) + (if last.Emitted? then [last.opp] else [])
  }

  function Rejects(rs: seq<ScanResult>, reason: FilterReason): nat {
    if rs == [] then 0
    else Rejects(rs[..|rs| - 1], reason) + (if rs[|rs| - 1] == Filtered(reason) then 1 else 0)
  }

  function AllRejects(rs: seq<ScanResult>): nat {
    Rejects(rs, BelowMinEdge) + Rejects(rs, BelowMinProfit) + Rejects(rs, BelowMinSize)
  }

  lemma OppsStep(rs: seq<ScanResult>, r: ScanResult)
    ensures Opps(rs + [r]) == Opps(rs) + (if r.Emitted? then [r.opp] else [])
    ensures forall reason :: Rejects(rs + [r], reason) == Rejects(rs, reason) + (if r == Filtered(reason) then 1 else 0)
    ensures AllRejects(rs + [r]) == AllRejects(rs) + (if r.Filtered? then 1 else 0)
  {
    assert (rs + [r])[..|rs|] == rs;
    if r.Filtered? {
      match r.reason {
        case BelowMinEdge =>
        case BelowMinProfit =>
        case BelowMinSize =>
      }
    }
  }

  // ---- What the output and the counters say about a pass ----

  /** The places of a pass that hold results of one kind. */
  function Places(rs: seq<ScanResult>, kind: ScanResult -> bool): set<nat> {
    set k: nat | k < |rs| && kind(rs[k])
  }

  lemma PlacesStep(rs: seq<ScanResult>, kind: ScanResult -> bool)
    requires rs != []
    ensures
      |Places(rs, kind)| == |Places(rs[..|rs| - 1], kind)| + if kind(rs[|rs| - 1]) then 1 else 0
  {
    var init := rs[..|rs| - 1];
    var last: nat := |init|;
    assert Places(rs, kind) == Places(init, kind) + if kind(rs[last]) then {last} else {};
  }

  /** A counter counts the pairs that fell to its filter, and the session total all pairs that fell to
      any: no pair is counted twice. */
  lemma {:induction false} CountersCountPairs(rs: seq<ScanResult>, reason: FilterReason)
    ensures Rejects(rs, reason) == |Places(rs, r => r == Filtered(reason))|
    ensures AllRejects(rs) == |Places(rs, (r: ScanResult) => r.Filtered?)|
  {
    if rs != [] {
      var init, last := rs[..|rs| - 1], rs[|rs| - 1];
      CountersCountPairs(init, reason);
      PlacesStep(rs, r => r == Filtered(reason));
      PlacesStep(rs, (r: ScanResult) => r.Filtered?);
      assert init + [last] == rs;
      OppsStep(init, last);
    }
  }

  /** The output holds every emitted opportunity once, in the order of the pass: the one emitted at
      place `k` stands behind all those emitted before. */
  lemma {:induction false} OutputKeepsOrder(rs: seq<ScanResult>)
    ensures |Opps(rs)| == |Places(rs, (r: ScanResult) => r.Emitted?)|
    ensures
      forall k: nat :: k < |rs| && rs[k].Emitted? ==>
        var before := |Opps(rs[..k])|;
        before < |Opps(rs)| && Opps(rs)[before] == rs[k].opp
  {
    if rs != [] {
      var init := rs[..|rs| - 1];
      OutputKeepsOrder(init);
      PlacesStep(rs, (r: ScanResult) => r.Emitted?);
      assert forall k: nat :: k <= |init| ==> init[..k] == rs[..k];
    }
  }

  /** Where a pass over `width + 1` venues holds the result of buying on `i` and selling on `j`. */
  function Slot(width: nat, i: nat, j: nat): nat
    requires i != j
  {
    i * width + if j < i then j else j - 1
  }

  /** A pass examines every ordered pair of different venues, each at its own place and nothing else
      besides. */
  lemma {:induction false} PassExaminesEveryPair(examine: Examiner, exs: seq<Exchange>, i: nat, n: nat, buy: nat, sell: nat)
    requires i <= |exs| && n <= |exs| && (i == |exs| ==> n == 0)
    ensures |Pass(examine, exs, i, n)| == i * (|exs| - 1) + if n <= i then n else n - 1
    ensures
      buy != sell && sell < |exs| && (buy < i || (buy == i && sell < n)) ==>
        var k := Slot(|exs| - 1, buy, sell);
        k < |Pass(examine, exs, i, n)| && Pass(examine, exs, i, n)[k] == examine(exs[buy], exs[sell])
    decreases i, n
  {
    if n > 0 {
      PassExaminesEveryPair(examine, exs, i, n - 1, buy, sell);
    } else if i > 0 {
      PassExaminesEveryPair(examine, exs, i - 1, |exs|, buy, sell);
    }
  }

  ghost predicate ComesFrom(examine: Examiner, exs: seq<Exchange>, r: ScanResult) {
    exists i: nat, j: nat :: i < |exs| && j < |exs| && i != j && r == examine(exs[i], exs[j])
  }

  lemma {:induction false} PassComesFromPairs(examine: Examiner, exs: seq<Exchange>, i: nat, n: nat, r: ScanResult)
    requires i <= |exs| && n <= |exs| && (i == |exs| ==> n == 0)
    requires r in Pass(examine, exs, i, n)
    ensures ComesFrom(examine, exs, r)
    decreases i, n
  {
    if n == 0 {
      PassComesFromPairs(examine, exs, i - 1, |exs|, r);
    } else if r in Pass(examine, exs, i, n - 1) {
      PassComesFromPairs(examine, exs, i, n - 1, r);
    }
  }

  /** An emitted opportunity names the venues it was found on, at prices their books support. */
  lemma ExaminedOpportunity(
      st: Settings, fees: FeeSchedule, symbol: Symbol, feed: Feed, buy: Exchange, sell: Exchange, opp: Opportunity)
    requires BooksWellFormed(feed.books) && 0.0 < st.maxNotionalPerTrade
    requires Examine(st, fees, symbol, feed, buy, sell) == Emitted(opp)
    ensures opp.buyExchange == buy && opp.sellExchange == sell && !feed.stale(buy) && !feed.stale(sell)
    ensures 0.0 < opp.buyPrice && 0.0 < opp.maxTradableSize
  {
    var buyBook, sellBook := feed.books[(buy, symbol)], feed.books[(sell, symbol)];
    assert buyBook.WellFormed() && sellBook.WellFormed();
    EmittedOpportunity(st, fees, symbol, buyBook, sellBook, feed.age(buy), feed.age(sell));
  }

  /** Every opportunity a pass over distinct venues emits pairs two different venues, at a positive
      buy price, and is what those venues' books are worth. */
  lemma EmittedPairsDistinctVenues(
      st: Settings, fees: FeeSchedule, symbol: Symbol, feed: Feed, exs: seq<Exchange>, opp: Opportunity)
    requires BooksWellFormed(feed.books) && 0.0 < st.maxNotionalPerTrade
    requires forall i, j :: 0 <= i < j < |exs| ==> exs[i] != exs[j]
    requires Emitted(opp) in Pass(ExaminerOf(st, fees, symbol, feed), exs, |exs|, 0)
    ensures opp.buyExchange in exs && opp.sellExchange in exs && opp.buyExchange != opp.sellExchange
    ensures !feed.stale(opp.buyExchange) && !feed.stale(opp.sellExchange)
    ensures 0.0 < opp.buyPrice && 0.0 < opp.maxTradableSize
    ensures Examine(st, fees, symbol, feed, opp.buyExchange, opp.sellExchange) == Emitted(opp)
  {
    var examine := ExaminerOf(st, fees, symbol, feed);
    PassComesFromPairs(examine, exs, |exs|, 0, Emitted(opp));
    var i: nat, j: nat :| i < |exs| && j < |exs| && i != j && Emitted(opp) == examine(exs[i], exs[j]);
    ExaminedOpportunity(st, fees, symbol, feed, exs[i], exs[j], opp);
  }

  class OpportunityScanner {
    const settings: Settings
    const fees: FeeSchedule
    var sessionCount: nat
    var rejectCounts: map<FilterReason, nat>

    constructor (settings: Settings, fees: FeeSchedule)
      ensures this.settings == settings && this.fees == fees && sessionCount == 0 && rejectCounts == map[]
    {
      this.settings, this.fees, sessionCount, rejectCounts := settings, fees, 0, map[];
    }

    function Count(reason: FilterReason): (n: nat)
      reads this
    {
      if reason in rejectCounts then rejectCounts[reason] else 0
    }

    /** Emits, in order, the opportunities of all ordered pairs; everything filtered on the way is
        counted once in the session total and once under its reason. */
    method ScanSymbol(symbol: Symbol, exs: seq<Exchange>, feed: Feed) returns (out: seq<Opportunity>)
      modifies this
      ensures
        var rs := Pass(ExaminerOf(settings, fees, symbol, feed), exs, |exs|, 0);
        if |exs| < 2 then out == [] && sessionCount == old(sessionCount) && rejectCounts == old(rejectCounts)
        else
          && out == Opps(rs)
          && sessionCount == old(sessionCount) + AllRejects(rs)
          && forall reason :: Count(reason) == old(Count(reason)) + Rejects(rs, reason)
    {
      out := [];
      if |exs| < 2 {
        return;
      }
      var examine := ExaminerOf(settings, fees, symbol, feed);
      for i := 0 to |exs|
        invariant Tallied(out, Pass(examine, exs, i, 0), old(sessionCount), old(rejectCounts))
      {
        out := ScanRow(examine, exs, i, out, old(sessionCount), old(rejectCounts));
        assert Pass(examine, exs, i + 1, 0) == Pass(examine, exs, i, |exs|);
      }
    }

    /** The inner loop: buying on venue `i` against every other venue. */
    method ScanRow(
        examine: Examiner, exs: seq<Exchange>, i: nat, before: seq<Opportunity>, ghost session: nat,
        ghost counts: map<FilterReason, nat>)
      returns (out: seq<Opportunity>)
      requires i < |exs|
      requires Tallied(before, Pass(examine, exs, i, 0), session, counts)
      modifies this
      ensures Tallied(out, Pass(examine, exs, i, |exs|), session, counts)
    {
      out := before;
      for j := 0 to |exs|
        invariant Tallied(out, Pass(examine, exs, i, j), session, counts)
      {
        if i != j {
          out := Tally(out, examine(exs[i], exs[j]), Pass(examine, exs, i, j), session, counts);
        }
      }
    }

    /** Output and counters reflect the results so far. */
    ghost predicate Tallied(out: seq<Opportunity>, rs: seq<ScanResult>, session: nat, counts: map<FilterReason, nat>)
      reads this
    {
      && out == Opps(rs)
      && sessionCount == session + AllRejects(rs)
      && forall reason :: Count(reason) == (if reason in counts then counts[reason] else 0) + Rejects(rs, reason)
    }

    method Tally(
        before: seq<Opportunity>, r: ScanResult, ghost rs: seq<ScanResult>, ghost session: nat,
        ghost counts: map<FilterReason, nat>)
      returns (out: seq<Opportunity>)
      requires Tallied(before, rs, session, counts)
      modifies this
      ensures Tallied(out, rs + [r], session, counts)
    {
      OppsStep(rs, r);
      out := before;
      match r {
        case Nothing =>
        case Filtered(reason) =>
          sessionCount := sessionCount + 1;
          rejectCounts := rejectCounts[reason := Count(reason) + 1];
        case Emitted(opp) =>
          out := out + [opp];
      }
    }
  }
}
