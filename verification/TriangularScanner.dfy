/** Three pairs of one venue priced as a cycle. */
module TriangularScanner {
  import opened Prelude
  import opened OrderBook

  datatype Triangle = Triangle(a: Asset, b: Asset, c: Asset)

  datatype Cycle = Cycle(
    exchange: Exchange,
    direction: seq<Asset>,
    triangle: Triangle,
    pairBA: Symbol,
    pairCB: Symbol,
    pairCA: Symbol,
    price1: real,
    price2: real,
    price3: real,
    probeQuote: real,
    endQuote: real,
    netEdgeBps: real)

  function PairsFor(t: Triangle): (Symbol, Symbol, Symbol) {
    (Symbol(t.b, t.a), Symbol(t.c, t.b), Symbol(t.c, t.a))
  }

  predicate TwoSided(b: Book) {
    b.asks != [] && b.bids != []
  }

  /** Price one direction of a triangle at the tops of the three books. */
  function EvaluateCycle(
    takerBps: Symbol -> real, exchange: Exchange, t: Triangle, books: Books, stale: Symbol -> bool, probe: real,
    reverse: bool): Option<Cycle>
  {
    var (ba, cb, ca) := PairsFor(t);
    var bookBA, bookCB, bookCA := Lookup(books, exchange, ba), Lookup(books, exchange, cb), Lookup(books, exchange, ca);
    if bookBA.None? || bookCB.None? || bookCA.None? || stale(ba) || stale(cb) || stale(ca) then None
    else if !TwoSided(bookBA.value) || !TwoSided(bookCB.value) || !TwoSided(bookCA.value) then None
    else
      var askBA, bidBA := bookBA.value.asks[0].price, bookBA.value.bids[0].price;
      var askCB, bidCB := bookCB.value.asks[0].price, bookCB.value.bids[0].price;
      var askCA, bidCA := bookCA.value.asks[0].price, bookCA.value.bids[0].price;
      if Min(Min(Min(askBA, askCB), Min(askCA, bidBA)), Min(bidCB, bidCA)) <= 0.0 || probe == 0.0 then None
      else
        var end :=
          if reverse then Times(Times(probe / askCA, bidCB), bidBA) else Times(probe / askBA / askCB, bidCA);
        var gross := (end - probe) / probe * BPS;
        var fees := takerBps(ba) + takerBps(cb) + takerBps(ca);
        Some(Cycle(
               exchange,
               if reverse then [t.a, t.c, t.b, t.a] else [t.a, t.b, t.c, t.a],
               t, ba, cb, ca,
               if reverse then askCA else askBA,
               if reverse then bidCB else askCB,
               if reverse then bidBA else bidCA,
               probe, end, gross - fees))
  }

  /** The two tops of a book that has both sides. */
  predicate HasTops(books: Books, exchange: Exchange, pair: Symbol, stale: Symbol -> bool) {
    (exchange, pair) in books && !stale(pair)
    && books[(exchange, pair)].asks != [] && books[(exchange, pair)].bids != []
    && 0.0 < books[(exchange, pair)].asks[0].price && 0.0 < books[(exchange, pair)].bids[0].price
  }

  /** Exactly when a direction of a triangle is priced, at which tops, and to what: the starting
      quantity carried through the three tops, and the net edge, which is the gain in basis points of
      the start less the three fees. */
  lemma CycleIsPricedIff(
      takerBps: Symbol -> real, exchange: Exchange, t: Triangle, books: Books, stale: Symbol -> bool, probe: real,
      reverse: bool)
    ensures
      var ba, cb, ca := Symbol(t.b, t.a), Symbol(t.c, t.b), Symbol(t.c, t.a);
      var r := EvaluateCycle(takerBps, exchange, t, books, stale, probe, reverse);
      && (r.Some? <==>
          && HasTops(books, exchange, ba, stale) && HasTops(books, exchange, cb, stale)
          && HasTops(books, exchange, ca, stale) && probe != 0.0)
      && (r.Some? ==>
            var c := r.value;
            && c.price1 == (if reverse then books[(exchange, ca)] else books[(exchange, ba)]).asks[0].price
            && c.price2 == (if reverse then books[(exchange, cb)].bids[0] else books[(exchange, cb)].asks[0]).price
            && c.price3 == (if reverse then books[(exchange, ba)] else books[(exchange, ca)]).bids[0].price
            && c.endQuote == (if reverse then Times(Times(probe / c.price1, c.price2), c.price3)
                              else Times(probe / c.price1 / c.price2, c.price3))
            && Times(c.netEdgeBps + takerBps(ba) + takerBps(cb) + takerBps(ca), probe)
               == Times(c.endQuote - probe, 10000.0))
  {
    var ba, cb, ca := Symbol(t.b, t.a), Symbol(t.c, t.b), Symbol(t.c, t.a);
    var r := EvaluateCycle(takerBps, exchange, t, books, stale, probe, reverse);
    if r.Some? {
      var c := r.value;
      var gain := (c.endQuote - probe) / probe;
      TimesDivide(c.endQuote - probe, probe);
      TimesAssociates(gain, BPS, probe);
      TimesCommutes(BPS, probe);
      TimesAssociates(gain, probe, BPS);
      assert c.netEdgeBps + takerBps(ba) + takerBps(cb) + takerBps(ca) == Times(gain, BPS);
    }
  }
}
