/** Order-book snapshots and the ladders they hold. */
module OrderBook {
  import opened Prelude

  datatype Level = Level(price: real, size: real)

  type Ladder = seq<Level>

  datatype Book = Book(exchange: Exchange, symbol: Symbol, bids: Ladder, asks: Ladder) {

    function BestBid(): Option<real> {
      if bids == [] then None else Some(bids[0].price)
    }

    function BestAsk(): Option<real> {
      if asks == [] then None else Some(asks[0].price)
    }

    function MidPrice(): Option<real> {
      if bids == [] || asks == [] then None else Some((bids[0].price + asks[0].price) / 2.0)
    }

    /** The ladder an order of this side consumes. */
    function Against(side: Side): Ladder {
      if side.Buy? then asks else bids
    }

    /** The best price an order of this side can get. */
    function Touch(side: Side): Option<real> {
      if side.Buy? then BestAsk() else BestBid()
    }

    /** What every feed is expected to deliver, and no code ever checks. */
    ghost predicate WellFormed() {
      Sorted(Buy, asks) && Positive(asks) && Sorted(Sell, bids) && Positive(bids)
    }
  }

  /** The latest snapshot per (exchange, symbol). */
  type Books = map<(Exchange, Symbol), Book>

  function Lookup(books: Books, exchange: Exchange, symbol: Symbol): Option<Book> {
    if (exchange, symbol) in books then Some(books[(exchange, symbol)]) else None
  }

  /** Every stored snapshot is filed under its own venue and symbol, and is well formed. */
  ghost predicate BooksWellFormed(books: Books) {
    forall k :: k in books ==> books[k].WellFormed() && (books[k].exchange, books[k].symbol) == k
  }

  /** `p` is at least as good as `q` for an order of this side. */
  predicate NoWorse(side: Side, p: real, q: real) {
    if side.Buy? then p <= q else p >= q
  }

  ghost predicate Sorted(side: Side, ls: Ladder) {
    forall i, j :: 0 <= i < j < |ls| ==> NoWorse(side, ls[i].price, ls[j].price)
  }

  ghost predicate Positive(ls: Ladder) {
    forall i :: 0 <= i < |ls| ==> ls[i].price > 0.0 && ls[i].size > 0.0
  }
}
