/** The record of one hedge: the mutable object the coordinator and the repair engine share, and
    its value at an instant. */
module HedgeGroup {
  import opened Prelude
  import opened Orders
  import opened StateMachine

  datatype Reason =
    | SignalTooOld | BookTooOld | EdgeVanished | InsufficientDepth
    | PartialFill | SingleLegFailed
    | RepairAttemptsExhausted | RepairSkippedMaxLoss

  /** The value of a hedge group.  `trail` lists every state it was ever put in and `fills` every
      order state a venue returned for it; neither is read by the code. */
  datatype Hedge = Hedge(
    symbol: Symbol,
    buyExchange: Exchange,
    sellExchange: Exchange,
    targetAmount: real,
    state: HedgeState,
    executedBuy: real,
    executedSell: real,
    netPosition: real,
    realizedPnl: Option<real>,
    repairAttempts: int,
    planningNotional: real,
    repairCost: real,
    actualFee: real,
    expectedProfitAtApproved: Option<real>,
    failureReason: Option<Reason>,
    trail: seq<HedgeState>,
    fills: seq<OrderState>)
  {
    function Enter(s: HedgeState): Hedge {
      this.(state := s, trail := trail + [s])
    }

    /** Record a reason unless one is already there. */
    function Because(r: Reason): Hedge {
      this.(failureReason := if failureReason.Some? then failureReason else Some(r))
    }
  }

  /** Positions up to this size count as flat. */
  const DUST := 0.00000001

  predicate Flat(h: Hedge) {
    Abs(h.netPosition) <= DUST
  }

  /** Add to a profit figure that may not exist yet. */
  function Booked(pnl: Option<real>, delta: real): Option<real> {
    Some(pnl.GetOr(0.0) + delta)
  }

  function NewHedge(symbol: Symbol, buyExchange: Exchange, sellExchange: Exchange, amount: real): Hedge {
    Hedge(symbol, buyExchange, sellExchange, amount, New, 0.0, 0.0, 0.0, None, 0, 0.0, 0.0, 0.0, None, None, [New], [])
  }

  class HedgeGroup {
    const symbol: Symbol
    const buyExchange: Exchange
    const sellExchange: Exchange
    const targetAmount: real
    var state: HedgeState
    var executedBuy: real
    var executedSell: real
    var netPosition: real
    var realizedPnl: Option<real>
    var repairAttempts: int
    var planningNotional: real
    var repairCost: real
    var actualFee: real
    var expectedProfitAtApproved: Option<real>
    var failureReason: Option<Reason>
    ghost var trail: seq<HedgeState>
    ghost var fills: seq<OrderState>

    ghost function View(): Hedge
      reads this
    {
      Hedge(
        symbol, buyExchange, sellExchange, targetAmount, state, executedBuy, executedSell, netPosition, realizedPnl,
        repairAttempts, planningNotional, repairCost, actualFee, expectedProfitAtApproved, failureReason, trail, fills)
    }

    constructor (symbol: Symbol, buyExchange: Exchange, sellExchange: Exchange, amount: real)
      ensures View() == NewHedge(symbol, buyExchange, sellExchange, amount)
    {
      this.symbol, this.buyExchange, this.sellExchange, targetAmount := symbol, buyExchange, sellExchange, amount;
      state := New;
      executedBuy, executedSell, netPosition := 0.0, 0.0, 0.0;
      realizedPnl, repairAttempts := None, 0;
      planningNotional, repairCost, actualFee := 0.0, 0.0, 0.0;
      expectedProfitAtApproved, failureReason := None, None;
      trail, fills := [New], [];
    }

    method Enter(s: HedgeState)
      modifies this`state, this`trail
      ensures View() == old(View()).Enter(s)
    {
      state := s;
      trail := trail + [s];
    }

    method Because(r: Reason)
      modifies this`failureReason
      ensures View() == old(View()).Because(r)
    {
      if failureReason.None? {
        failureReason := Some(r);
      }
    }
  }
}
