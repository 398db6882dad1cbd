/** VWAP over the top of a ladder, and how it moves with the size asked for. */
module SlippageModel {
  import opened Prelude
  import opened OrderBook
  import opened LadderWalk

  datatype VwapQuote = VwapQuote(vwap: real, filled: real, slippageBps: real)

  const NO_QUOTE := VwapQuote(0.0, 0.0, 0.0)

  /** The average price of taking `target` from a ladder, the quantity found, and the distance
      from the top of the ladder in basis points. */
  function Vwap(side: Side, ls: Ladder, target: real): VwapQuote {
    if ls == [] || target <= 0.0 then NO_QUOTE
    else
      var t := Walk(ls, target);
      if t.qty == 0.0 then NO_QUOTE
      else
        var vwap := t.cost / t.qty;
        var top := ls[0].price;
        var drift := if side.Buy? then vwap - top else top - vwap;
        VwapQuote(vwap, t.qty, if top > 0.0 then drift / top * BPS else 0.0)
  }

  method VwapBuy(book: Book, target: real) returns (q: VwapQuote)
    ensures q == Vwap(Buy, book.asks, target)
  {
    if book.asks == [] || target <= 0.0 {
      return NO_QUOTE;
    }
    var remaining, cost, filled := target, 0.0, 0.0;
    var i := 0;
    while i < |book.asks|
      invariant 0 <= i <= |book.asks|
      invariant
        var rest := Walk(book.asks[i..], remaining);
        Walk(book.asks, target) == Taken(filled + rest.qty, cost + rest.cost)
      invariant remaining > 0.0
    {
      var lvl := book.asks[i];
      var take := Min(remaining, lvl.size);
      assert book.asks[i..][1..] == book.asks[i + 1..];
      cost := cost + Times(take, lvl.price);
      filled := filled + take;
      remaining := remaining - take;
      i := i + 1;
      if remaining <= 0.0 {
        break;
      }
    }
    assert Walk(book.asks[i..], remaining) == Taken(0.0, 0.0);
    if filled == 0.0 {
      return NO_QUOTE;
    }
    var vwap := cost / filled;
    var top := book.asks[0].price;
    q := VwapQuote(vwap, filled, if top > 0.0 then (vwap - top) / top * BPS else 0.0);
  }

  method VwapSell(book: Book, target: real) returns (q: VwapQuote)
    ensures q == Vwap(Sell, book.bids, target)
  {
    if book.bids == [] || target <= 0.0 {
      return NO_QUOTE;
    }
    var remaining, proceeds, filled := target, 0.0, 0.0;
    var i := 0;
    while i < |book.bids|
      invariant 0 <= i <= |book.bids|
      invariant
        var rest := Walk(book.bids[i..], remaining);
        Walk(book.bids, target) == Taken(filled + rest.qty, proceeds + rest.cost)
      invariant remaining > 0.0
    {
      var lvl := book.bids[i];
      var take := Min(remaining, lvl.size);
      assert book.bids[i..][1..] == book.bids[i + 1..];
      proceeds := proceeds + Times(take, lvl.price);
      filled := filled + take;
      remaining := remaining - take;
      i := i + 1;
      if remaining <= 0.0 {
        break;
      }
    }
    assert Walk(book.bids[i..], remaining) == Taken(0.0, 0.0);
    if filled == 0.0 {
      return NO_QUOTE;
    }
    var vwap := proceeds / filled;
    var top := book.bids[0].price;
    q := VwapQuote(vwap, filled, if top > 0.0 then (top - vwap) / top * BPS else 0.0);
  }

  /** On a ladder a feed should deliver, a quote for a positive size always exists, takes what was
      asked for or all there is, and averages at the top of the ladder or worse. */
  lemma VwapOnSortedLadder(side: Side, ls: Ladder, target: real)
    requires Sorted(side, ls) && Positive(ls) && ls != [] && 0.0 < target
    ensures
      var q := Vwap(side, ls, target);
      && q.filled == Min(target, Depth(ls)) == Walk(ls, target).qty > 0.0
      && q.vwap == Walk(ls, target).cost / Walk(ls, target).qty
      && NoWorse(side, ls[0].price, q.vwap)
      && 0.0 < q.vwap
      && 0.0 <= q.slippageBps
  {
    var t := Walk(ls, target);
    WalkQuantity(ls, target);
    DepthNonNegative(ls);
    var last := ls[|ls| - 1].price;
    forall l | l in ls
      ensures NoWorse(side, ls[0].price, l.price) && NoWorse(side, l.price, last)
    {
      var k :| 0 <= k < |ls| && ls[k] == l;
    }
    var lo, hi := if side.Buy? then ls[0].price else last, if side.Buy? then last else ls[0].price;
    WalkPriceBounds(ls, target, lo, hi);
    DivBounds(t.cost, t.qty, lo, hi);
  }

  /** Asking for more never gets a better average: the VWAP is non-decreasing in size when buying
      and non-increasing when selling. */
  lemma VwapWorsensWithSize(side: Side, ls: Ladder, a: real, b: real)
    requires Sorted(side, ls) && Positive(ls) && ls != [] && 0.0 < a <= b
    ensures NoWorse(side, Vwap(side, ls, a).vwap, Vwap(side, ls, b).vwap)
  {
    VwapOnSortedLadder(side, ls, a);
    VwapOnSortedLadder(side, ls, b);
    AverageWorsensWithSize(side, ls, a, b);
    var small, large := Walk(ls, a), Walk(ls, b);
    if side.Buy? {
      DivCompare(small.cost, small.qty, large.cost, large.qty);
    } else {
      DivCompare(large.cost, large.qty, small.cost, small.qty);
    }
  }

  /** The slippage is the distance of the average from the top of the ladder, in basis points of the
      top, against the trader. */
  lemma SlippageIsDistance(side: Side, ls: Ladder, target: real)
    requires Positive(ls) && ls != [] && 0.0 < target
    ensures
      var q := Vwap(side, ls, target);
      var top := ls[0].price;
      q.vwap == if side.Buy? then top + Times(top, q.slippageBps) / BPS else top - Times(top, q.slippageBps) / BPS
  {
    var t := Walk(ls, target);
    WalkQuantity(ls, target);
    DepthNonNegative(ls);
    var top, vwap := ls[0].price, t.cost / t.qty;
    var drift := if side.Buy? then vwap - top else top - vwap;
    TimesDivide(drift, top);
    TimesAssociates(top, drift / top, BPS);
    assert Times(Times(top, drift / top), BPS) / BPS == drift;
  }
}
