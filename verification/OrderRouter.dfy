/** Dispatch of one order to the backend of the current mode. */
module OrderRouter {
  import opened Prelude
  import opened OrderBook
  import opened Orders
  import opened Settings
  import opened BalanceManager
  import opened PaperFillEngine

  /** The outside world at the instant an order is served: the books in memory, the next dice roll,
      and how a live venue would answer. */
  datatype Moment = Moment(books: Books, roll: real, live: Venue)

  /** Dry run: everything fills at the order's own price. */
  function DryFill(intent: OrderIntent): OrderState {
    OrderState(intent.exchange, intent.symbol, intent.side, intent.amount, 0.0, intent.price, Filled, None, intent.isRepair)
  }

  function Route(mode: Mode, cfg: PaperConfig, m: Moment, intent: OrderIntent): Answer {
    match mode
    case DryRun => Answered(DryFill(intent))
    case PaperTrade => Answered(PaperFill(cfg, Lookup(m.books, intent.exchange, intent.symbol), intent, m.roll))
    case Live => m.live(intent)
  }

  /** The venue a caller of the router sees at one moment. */
  function VenueAt(mode: Mode, cfg: PaperConfig, m: Moment): Venue {
    intent => Route(mode, cfg, m, intent)
  }

  /** What the rest of the model relies on: feeds deliver proper books, dice never inflate a fill,
      live venues fill between nothing and everything. */
  ghost predicate SoundMoment(mode: Mode, cfg: PaperConfig, m: Moment) {
    match mode
    case DryRun => true
    case PaperTrade => BooksWellFormed(m.books) && ShrinkingDice(cfg)
    case Live => HonestVenue(m.live)
  }

  lemma RouterIsHonest(mode: Mode, cfg: PaperConfig, m: Moment)
    requires SoundMoment(mode, cfg, m)
    ensures HonestVenue(VenueAt(mode, cfg, m))
  {
    forall intent: OrderIntent | 0.0 <= intent.amount
      ensures Honest(intent, VenueAt(mode, cfg, m)(intent))
    {
      if mode.PaperTrade? {
        PaperFillIsHonest(cfg, Lookup(m.books, intent.exchange, intent.symbol), intent, m.roll);
      }
    }
  }

  /** The order states an answer brings. */
  function FillsOf(a: Answer): seq<OrderState> {
    if a.Answered? then [a.state] else []
  }

  /** Balance movements of a sequence of paper fills. */
  function PostingsOf(fills: seq<OrderState>): seq<Posting> {
    if fills == [] then [] else PostingsOf(fills[..|fills| - 1]) + FillPostings(fills[|fills| - 1])
  }

  /** Balance movements owed to fills: in paper trade those of the fills, otherwise none. */
  function Moved(mode: Mode, fills: seq<OrderState>): seq<Posting> {
    if mode.PaperTrade? then PostingsOf(fills) else []
  }

  lemma {:induction false} PostingsOfConcat(xs: seq<OrderState>, ys: seq<OrderState>)
    ensures PostingsOf(xs + ys) == PostingsOf(xs) + PostingsOf(ys)
  {
    if ys == [] {
      assert xs + ys == xs;
    } else {
      var init, last := ys[..|ys| - 1], ys[|ys| - 1];
      assert (xs + ys)[..|xs + ys| - 1] == xs + init && (xs + ys)[|xs + ys| - 1] == last;
      PostingsOfConcat(xs, init);
      calc {
        PostingsOf(xs + ys);
        PostingsOf(xs + init) + FillPostings(last);
        (PostingsOf(xs) + PostingsOf(init)) + FillPostings(last);
        PostingsOf(xs) + (PostingsOf(init) + FillPostings(last));
        PostingsOf(xs) + PostingsOf(ys);
      }
    }
  }

  lemma PostingsOfOne(s: OrderState)
    ensures PostingsOf([s]) == FillPostings(s)
  {
    assert [s][..0] == [];
    assert PostingsOf([s]) == [] + FillPostings(s);
  }

  class OrderRouter {
    const mode: Mode
    const paper: PaperFillEngine

    constructor (mode: Mode, paper: PaperFillEngine)
      ensures this.mode == mode && this.paper == paper
    {
      this.mode, this.paper := mode, paper;
    }

    method Submit(m: Moment, intent: OrderIntent) returns (a: Answer)
      requires paper.balances.Valid()
      modifies paper.balances`balances, paper.balances`postings
      ensures paper.balances.Valid()
      ensures a == VenueAt(mode, paper.cfg, m)(intent)
      ensures paper.balances.postings == old(paper.balances.postings) + Moved(mode, FillsOf(a))
    {
      match mode {
        case DryRun =>
          a := Answered(DryFill(intent));
        case PaperTrade =>
          var s := paper.Simulate(m.books, intent, m.roll);
          a := Answered(s);
          PostingsOfOne(s);
        case Live =>
          a := m.live(intent);
      }
    }
  }

  /** Only live mode asks a venue, and passes on what it answers; a dry run fills every order
      completely at its own price and without a fee. */
  lemma OnlyLiveReachesVenues(mode: Mode, cfg: PaperConfig, m: Moment, intent: OrderIntent, other: Venue)
    ensures mode != Live ==> Route(mode, cfg, m, intent) == Route(mode, cfg, m.(live := other), intent)
    ensures mode == Live ==> Route(mode, cfg, m, intent) == m.live(intent)
    ensures
      mode == PaperTrade ==>
        var key := (intent.exchange, intent.symbol);
        Route(mode, cfg, m, intent)
        == Answered(PaperFill(cfg, if key in m.books then Some(m.books[key]) else None, intent, m.roll))
    ensures
      mode == DryRun ==>
        var s := Route(mode, cfg, m, intent).state;
        && s.filled == intent.amount && s.remaining == 0.0 && s.avgFillPrice == intent.price && s.feeAmount.None?
        && s.status == Filled && s.side == intent.side && s.exchange == intent.exchange && s.symbol == intent.symbol
  {}
}
