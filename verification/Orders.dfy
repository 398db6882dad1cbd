/** Orders as the execution layer sees them. */
module Orders {
  import opened Prelude

  datatype OrderType = Limit | Market | IocLimit | FokLimit

  datatype OrderStatus =
    | Created | Submitted | PartiallyFilled | Filled | CancelRequested
    | Cancelled | Rejected | Expired | Unknown

  datatype OrderIntent = OrderIntent(
    exchange: Exchange,
    symbol: Symbol,
    side: Side,
    orderType: OrderType,
    price: Option<real>,
    amount: real,
    isRepair: bool)

  datatype OrderState = OrderState(
    exchange: Exchange,
    symbol: Symbol,
    side: Side,
    filled: real,
    remaining: real,
    avgFillPrice: Option<real>,
    status: OrderStatus,
    feeAmount: Option<real>,
    isRepair: bool)
  {
    /** Quote amount changing hands, before fees; zero when no price was reported. */
    function Notional(): real {
      Times(avgFillPrice.GetOr(0.0), filled)
    }

    function Fee(): real {
      feeAmount.GetOr(0.0)
    }

    /** Signed quote effect of a fill on this side: proceeds or cost, net of the fee. */
    function Cash(side: Side): real {
      if side.Sell? then Notional() - Fee() else -Notional() - Fee()
    }
  }

  /** What a venue can answer: an order state, or an exception. */
  datatype Answer = Answered(state: OrderState) | Raised

  /** A venue, seen through one submission: any answer to any order. */
  type Venue = OrderIntent -> Answer

  /** The one thing asked of a venue's answer: it is about the order sent, and fills between
      nothing and all of it. */
  ghost predicate Honest(intent: OrderIntent, answer: Answer) {
    answer.Answered? ==>
      && answer.state.exchange == intent.exchange
      && answer.state.symbol == intent.symbol
      && answer.state.side == intent.side
      && answer.state.isRepair == intent.isRepair
      && 0.0 <= answer.state.filled <= intent.amount
  }

  ghost predicate HonestVenue(venue: Venue) {
    forall intent: OrderIntent :: 0.0 <= intent.amount ==> Honest(intent, venue(intent))
  }
}
