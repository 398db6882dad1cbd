/** Paper-trade fills: walk the current book inside the limit, then move virtual balances. */
module PaperFillEngine {
  import opened Prelude
  import opened OrderBook
  import opened LadderWalk
  import opened Orders
  import opened ExecutionPolicy
  import opened SpreadCalculator
  import opened BalanceManager

  const FOK_TOLERANCE := 0.0000000001

  datatype PaperConfig = PaperConfig(
    partialFillProbability: real,
    partialFillRatio: real,
    feeBps: real,
    feeModel: Option<FeeSchedule>)

  function FeeBpsFor(cfg: PaperConfig, intent: OrderIntent): real {
    if cfg.feeModel.Some? then cfg.feeModel.value(intent.exchange, intent.symbol, intent.side) else cfg.feeBps
  }

  function LimitOf(intent: OrderIntent): Option<real> {
    if intent.orderType.Market? then None else intent.price
  }

  /** Walk levels until the limit is passed, a level offers nothing, or the amount is done. */
  function LimitedWalk(side: Side, limit: Option<real>, ls: Ladder, amount: real): Taken {
    if ls == [] || (limit.Some? && !NoWorse(side, ls[0].price, limit.value)) then Taken(0.0, 0.0)
    else
      var take := Min(amount, ls[0].size);
      if take <= 0.0 then Taken(0.0, 0.0)
      else
        var rest := LimitedWalk(side, limit, ls[1..], amount - take);
        Taken(take + rest.qty, Times(take, ls[0].price) + rest.cost)
  }

  predicate DiceHit(cfg: PaperConfig, intent: OrderIntent, filled: real, roll: real) {
    !intent.isRepair && 0.0 < filled && 0.0 < cfg.partialFillProbability && roll < cfg.partialFillProbability
  }

  function AfterFok(intent: OrderIntent, t: Taken): Taken {
    if intent.orderType.FokLimit? && intent.amount - t.qty > FOK_TOLERANCE then Taken(0.0, 0.0) else t
  }

  /** The partial-fill dice shrink quantity and cost by the same ratio. */
  function AfterDice(cfg: PaperConfig, intent: OrderIntent, t: Taken, roll: real): Taken {
    var shrunk := Times(t.qty, cfg.partialFillRatio);
    if DiceHit(cfg, intent, t.qty, roll) && 0.0 < shrunk then Taken(shrunk, Times(shrunk, t.cost / t.qty))
    else t
  }

  function Matched(cfg: PaperConfig, book: Book, intent: OrderIntent, roll: real): Taken {
    var walked := LimitedWalk(intent.side, LimitOf(intent), book.Against(intent.side), intent.amount);
    AfterDice(cfg, intent, AfterFok(intent, walked), roll)
  }

  function Report(cfg: PaperConfig, intent: OrderIntent, t: Taken): OrderState {
    var remaining := intent.amount - t.qty;
    OrderState(
      intent.exchange, intent.symbol, intent.side,
      t.qty,
      Max(0.0, remaining),
      if 0.0 < t.qty then Some(t.cost / t.qty) else None,
      if remaining <= FOK_TOLERANCE then Filled else if 0.0 < t.qty then PartiallyFilled else Cancelled,
      if 0.0 < t.qty then Some(Times(t.cost, FeeBpsFor(cfg, intent) / BPS)) else None,
      intent.isRepair)
  }

  /** The order state the paper engine reports for an order against the current book. */
  function PaperFill(cfg: PaperConfig, book: Option<Book>, intent: OrderIntent, roll: real): OrderState {
    if book.None? then
      OrderState(intent.exchange, intent.symbol, intent.side, 0.0, intent.amount, None, Rejected, None, intent.isRepair)
    else Report(cfg, intent, Matched(cfg, book.value, intent, roll))
  }

  /** What a fill does to the accounts on its venue. */
  function FillPostings(s: OrderState): seq<Posting> {
    if s.filled <= 0.0 then []
    else if s.side.Buy? then
      [Posting((s.exchange, s.symbol.base), s.filled), Posting((s.exchange, s.symbol.quote), -(s.Notional() + s.Fee()))]
    else
      [Posting((s.exchange, s.symbol.base), -s.filled), Posting((s.exchange, s.symbol.quote), s.Notional() - s.Fee())]
  }

  class PaperFillEngine {
    const cfg: PaperConfig
    const balances: BalanceManager

    constructor (cfg: PaperConfig, balances: BalanceManager)
      ensures this.cfg == cfg && this.balances == balances
    {
      this.cfg, this.balances := cfg, balances;
    }

    method Simulate(books: Books, intent: OrderIntent, roll: real) returns (s: OrderState)
      requires balances.Valid()
      modifies balances`balances, balances`postings
      ensures balances.Valid()
      ensures s == PaperFill(cfg, Lookup(books, intent.exchange, intent.symbol), intent, roll)
      ensures balances.postings == old(balances.postings) + FillPostings(s)
    {
      var found := Lookup(books, intent.exchange, intent.symbol);
      if found.None? {
        s := PaperFill(cfg, None, intent, roll);
        return;
      }
      var levels := if intent.side.Buy? then found.value.asks else found.value.bids;
      var limit := if intent.orderType.Market? then None else intent.price;
      var filled, cost := WalkLevels(intent.side, limit, levels, intent.amount);
      if intent.orderType.FokLimit? && intent.amount - filled > FOK_TOLERANCE {
        filled, cost := 0.0, 0.0;
      }
      if DiceHit(cfg, intent, filled, roll) {
        var shrunk := Times(filled, cfg.partialFillRatio);
        if shrunk > 0.0 {
          var avg := cost / filled;
          filled, cost := shrunk, Times(shrunk, avg);
        }
      }
      s := Report(cfg, intent, Taken(filled, cost));
      MoveBalances(intent, s, cost);
    }

    method WalkLevels(side: Side, limit: Option<real>, levels: Ladder, amount: real) returns (filled: real, cost: real)
      ensures LimitedWalk(side, limit, levels, amount) == Taken(filled, cost)
    {
      var remaining := amount;
      filled, cost := 0.0, 0.0;
      var i := 0;
      while i < |levels|
        invariant 0 <= i <= |levels|
        invariant
          var rest := LimitedWalk(side, limit, levels[i..], remaining);
          LimitedWalk(side, limit, levels, amount) == Taken(filled + rest.qty, cost + rest.cost)
      {
        var lvl := levels[i];
        assert levels[i..][1..] == levels[i + 1..];
        if limit.Some? && !NoWorse(side, lvl.price, limit.value) {
          break;
        }
        var take := Min(remaining, lvl.size);
        if take <= 0.0 {
          break;
        }
        cost := cost + Times(take, lvl.price);
        filled := filled + take;
        remaining := remaining - take;
        i := i + 1;
        if remaining <= 0.0 {
          break;
        }
      }
      assert LimitedWalk(side, limit, levels[i..], remaining) == Taken(0.0, 0.0);
    }

    method MoveBalances(intent: OrderIntent, s: OrderState, cost: real)
      requires balances.Valid()
      requires s.exchange == intent.exchange && s.symbol == intent.symbol && s.side == intent.side
      requires 0.0 < s.filled ==> s.avgFillPrice == Some(cost / s.filled)
      modifies balances`balances, balances`postings
      ensures balances.Valid()
      ensures balances.postings == old(balances.postings) + FillPostings(s)
    {
      if s.filled > 0.0 {
        var fee := s.Fee();
        TimesDivide(cost, s.filled);
        if intent.side.Buy? {
          balances.AdjustVirtual(intent.exchange, intent.symbol.base, s.filled);
          balances.AdjustVirtual(intent.exchange, intent.symbol.quote, -(cost + fee));
        } else {
          balances.AdjustVirtual(intent.exchange, intent.symbol.base, -s.filled);
          balances.AdjustVirtual(intent.exchange, intent.symbol.quote, cost - fee);
        }
      }
    }
  }

  // ---- What a paper fill is ----

  /** The level-by-level walk that stops at the limit takes exactly what an unrestricted walk takes
      from the filtered ladder. */
  lemma {:induction false} LimitedWalkIsFilteredWalk(side: Side, limit: Option<real>, ls: Ladder, amount: real)
    requires Sorted(side, ls) && Positive(ls) && 0.0 <= amount
    ensures LimitedWalk(side, limit, ls, amount) == Walk(Eligible(side, limit, ls), amount)
  {
    if ls != [] {
      if limit.Some? && !NoWorse(side, ls[0].price, limit.value) {
        EligibleNothingBeyond(side, limit.value, ls);
      } else if amount > 0.0 {
        var es := Eligible(side, limit, ls);
        assert es[0] == ls[0] && es[1..] == Eligible(side, limit, ls[1..]);
        LimitedWalkIsFilteredWalk(side, limit, ls[1..], amount - Min(amount, ls[0].size));
      }
    }
  }

  ghost predicate DiceOff(cfg: PaperConfig, intent: OrderIntent, roll: real) {
    intent.isRepair || cfg.partialFillProbability <= 0.0 || cfg.partialFillProbability <= roll
  }

  /** The size at or better than the order's limit. */
  function Available(book: Book, intent: OrderIntent): real {
    Depth(Eligible(intent.side, LimitOf(intent), book.Against(intent.side)))
  }

  lemma WalkedQuantity(book: Book, intent: OrderIntent)
    requires book.WellFormed() && 0.0 <= intent.amount
    ensures
      var ls, limit := book.Against(intent.side), LimitOf(intent);
      && LimitedWalk(intent.side, limit, ls, intent.amount).qty == Min(intent.amount, Available(book, intent))
      && 0.0 <= Available(book, intent)
      && Positive(Eligible(intent.side, limit, ls))
      && LimitedWalk(intent.side, limit, ls, intent.amount) == Walk(Eligible(intent.side, limit, ls), intent.amount)
  {
    var ls, limit := book.Against(intent.side), LimitOf(intent);
    LimitedWalkIsFilteredWalk(intent.side, limit, ls, intent.amount);
    EligibleKeepsShape(intent.side, limit, ls);
    WalkQuantity(Eligible(intent.side, limit, ls), intent.amount);
    DepthNonNegative(Eligible(intent.side, limit, ls));
  }

  /** With the dice off, an order other than fill-or-kill fills the requested amount or everything
      resting at or better than its limit, whichever is less, and reports the rest as remaining. */
  lemma IocFillsWhatIsAvailable(cfg: PaperConfig, book: Book, intent: OrderIntent, roll: real)
    requires book.WellFormed() && 0.0 <= intent.amount
    requires DiceOff(cfg, intent, roll) && !intent.orderType.FokLimit?
    ensures
      var s := PaperFill(cfg, Some(book), intent, roll);
      && s.filled == Min(intent.amount, Available(book, intent))
      && s.filled + s.remaining == intent.amount
  {
    WalkedQuantity(book, intent);
  }

  /** An order at the protected limit measured from the top of the book consumes exactly the
      in-band depth, up to its amount. */
  lemma IocAtProtectedLimitFillsInBandDepth(cfg: PaperConfig, book: Book, intent: OrderIntent, bufferBps: real, roll: real)
    requires book.WellFormed() && 0.0 <= intent.amount && book.Touch(intent.side).Some?
    requires DiceOff(cfg, intent, roll) && intent.orderType in {IocLimit, Limit}
    requires intent.price == Some(ProtectedLimitPrice(bufferBps, intent.side, book.Touch(intent.side).value))
    ensures PaperFill(cfg, Some(book), intent, roll).filled == Min(intent.amount, InBandDepth(Some(book), intent.side, bufferBps))
  {
    IocFillsWhatIsAvailable(cfg, book, intent, roll);
  }

  /** Dice that only ever shrink. */
  ghost predicate ShrinkingDice(cfg: PaperConfig) {
    0.0 <= cfg.partialFillRatio <= 1.0
  }

  lemma ShrunkQuantity(q: real, ratio: real)
    requires 0.0 <= q && 0.0 <= ratio <= 1.0
    ensures 0.0 <= Times(q, ratio) <= q
  {
    TimesMono(q, 0.0, ratio);
    TimesMono(q, ratio, 1.0);
  }

  /** Every paper answer is honest, conserves quantity, and prices every positive fill. */
  lemma PaperFillIsHonest(cfg: PaperConfig, book: Option<Book>, intent: OrderIntent, roll: real)
    requires book.Some? ==> book.value.WellFormed()
    requires 0.0 <= intent.amount && ShrinkingDice(cfg)
    ensures
      var s := PaperFill(cfg, book, intent, roll);
      && Honest(intent, Answered(s))
      && s.filled + s.remaining == intent.amount
      && (0.0 < s.filled <==> s.avgFillPrice.Some?)
      && (0.0 < s.filled <==> s.feeAmount.Some?)
      && (s.status == Filled ==> s.remaining <= FOK_TOLERANCE)
  {
    if book.Some? {
      WalkedQuantity(book.value, intent);
      var walked := LimitedWalk(intent.side, LimitOf(intent), book.value.Against(intent.side), intent.amount);
      var fok := AfterFok(intent, walked);
      ShrunkQuantity(fok.qty, cfg.partialFillRatio);
    }
  }

  lemma WalkedAverageWithinLimit(side: Side, limit: Option<real>, ls: Ladder, amount: real)
    requires Sorted(side, ls) && Positive(ls) && ls != [] && 0.0 <= amount
    requires 0.0 < Walk(Eligible(side, limit, ls), amount).qty
    ensures
      var t := Walk(Eligible(side, limit, ls), amount);
      && NoWorse(side, ls[0].price, t.cost / t.qty)
      && (limit.Some? ==> NoWorse(side, t.cost / t.qty, limit.value))
  {
    var es := Eligible(side, limit, ls);
    var t := Walk(es, amount);
    var top, worst := ls[0].price, limit.GetOr(ls[|ls| - 1].price);
    forall l | l in es
      ensures NoWorse(side, top, l.price) && NoWorse(side, l.price, worst)
    {
      EligibleMembers(side, limit, ls, l);
      var k :| 0 <= k < |ls| && ls[k] == l;
    }
    EligibleKeepsShape(side, limit, ls);
    var lo, hi := if side.Buy? then top else worst, if side.Buy? then worst else top;
    WalkPriceBounds(es, amount, lo, hi);
    DivBounds(t.cost, t.qty, lo, hi);
  }

  /** The average price of a fill lies between the top of the book and the limit, dice or not. */
  lemma AveragePriceWithinLimit(cfg: PaperConfig, book: Book, intent: OrderIntent, roll: real)
    requires book.WellFormed() && 0.0 <= intent.amount
    requires PaperFill(cfg, Some(book), intent, roll).filled > 0.0
    ensures
      var s := PaperFill(cfg, Some(book), intent, roll);
      && book.Touch(intent.side).Some? && s.avgFillPrice.Some?
      && NoWorse(intent.side, book.Touch(intent.side).value, s.avgFillPrice.value)
      && (LimitOf(intent).Some? ==> NoWorse(intent.side, s.avgFillPrice.value, LimitOf(intent).value))
  {
    var ls, limit := book.Against(intent.side), LimitOf(intent);
    WalkedQuantity(book, intent);
    var walked := LimitedWalk(intent.side, limit, ls, intent.amount);
    WalkedAverageWithinLimit(intent.side, limit, ls, intent.amount);
    var t := Matched(cfg, book, intent, roll);
    TimesCommutes(t.qty, walked.cost / walked.qty);
    QuotientOfProduct(walked.cost / walked.qty, t.qty);
  }

  lemma QuotientOfProduct(a: real, q: real)
    requires q != 0.0
    ensures Times(a, q) / q == a
  {}

  /** A limit buy never spends more than its amount at the limit price plus the fee on that. */
  lemma BuySpendIsBounded(cfg: PaperConfig, book: Book, intent: OrderIntent, roll: real)
    requires book.WellFormed() && 0.0 <= intent.amount && ShrinkingDice(cfg)
    requires intent.side.Buy? && LimitOf(intent).Some? && 0.0 <= LimitOf(intent).value && 0.0 <= FeeBpsFor(cfg, intent)
    ensures
      var s := PaperFill(cfg, Some(book), intent, roll);
      s.Notional() + s.Fee() <= Times(Times(intent.amount, LimitOf(intent).value), 1.0 + FeeBpsFor(cfg, intent) / BPS)
  {
    var s := PaperFill(cfg, Some(book), intent, roll);
    var limit, fee := LimitOf(intent).value, FeeBpsFor(cfg, intent) / BPS;
    var cap := Times(intent.amount, limit);
    PaperFillIsHonest(cfg, Some(book), intent, roll);
    TimesMono(intent.amount, 0.0, limit);
    TimesAdd(1.0, fee, cap);
    TimesMono(fee, 0.0, cap);
    if s.filled > 0.0 {
      AveragePriceWithinLimit(cfg, book, intent, roll);
      TimesDivide(Matched(cfg, book, intent, roll).cost, s.filled);
      TimesMono(s.filled, s.avgFillPrice.value, limit);
      TimesMono(limit, s.filled, intent.amount);
      TimesMono(fee, s.Notional(), cap);
    }
  }

  // ---- Fill-or-kill ----

  ghost predicate AllOrNothing(intent: OrderIntent, s: OrderState) {
    s.filled == 0.0 || intent.amount - s.filled <= FOK_TOLERANCE
  }

  /** A fill-or-kill order fills all or nothing unless the dice are rolled on a complete match and
      leave more than the tolerance unfilled: the dice come after the all-or-nothing check. */
  lemma FokAllOrNothingUnlessDice(cfg: PaperConfig, book: Book, intent: OrderIntent, roll: real)
    requires book.WellFormed() && 0.0 < intent.amount && intent.orderType.FokLimit?
    ensures
      var available := Min(intent.amount, Available(book, intent));
      AllOrNothing(intent, PaperFill(cfg, Some(book), intent, roll)) <==>
      !(&& intent.amount - available <= FOK_TOLERANCE
        && DiceHit(cfg, intent, available, roll)
        && 0.0 < Times(available, cfg.partialFillRatio)
        && intent.amount - Times(available, cfg.partialFillRatio) > FOK_TOLERANCE)
  {
    WalkedQuantity(book, intent);
  }

  /** A fully matched fill-or-kill order reported as partially filled. */
  lemma FokCanFillPartially()
    ensures
      var cfg := PaperConfig(0.5, 0.5, 0.0, None);
      var symbol := Symbol("BTC", "USDT");
      var book := Book("a", symbol, [], [Level(100.0, 2.0)]);
      var intent := OrderIntent("a", symbol, Buy, FokLimit, Some(100.0), 2.0, false);
      var s := PaperFill(cfg, Some(book), intent, 0.0);
      book.WellFormed() && s.filled == 1.0 && s.status == PartiallyFilled && !AllOrNothing(intent, s)
  {
    var ls := [Level(100.0, 2.0)];
    assert ls[1..] == [];
    assert LimitedWalk(Buy, Some(100.0), ls, 2.0).qty == 2.0;
  }

  // ---- Read off the order itself ----

  /** What an order can match: the levels at or better than its own price, or the whole ladder for a
      market order and for one without a price. */
  function Reach(book: Book, intent: OrderIntent): real {
    if intent.orderType == Market || intent.price.None? then Depth(book.Against(intent.side))
    else Depth(Eligible(intent.side, intent.price, book.Against(intent.side)))
  }

  lemma ReachIsAvailable(book: Book, intent: OrderIntent)
    ensures Available(book, intent) == Reach(book, intent)
  {
    EligibleWithoutLimit(intent.side, book.Against(intent.side));
  }

  /** No order fills at a worse average than its own price, whatever its type unless it is a market
      order, and dice or not. */
  lemma OwnPriceIsRespected(cfg: PaperConfig, book: Book, intent: OrderIntent, roll: real)
    requires book.WellFormed() && 0.0 <= intent.amount
    requires intent.orderType != Market && intent.price.Some?
    requires PaperFill(cfg, Some(book), intent, roll).filled > 0.0
    ensures
      var s := PaperFill(cfg, Some(book), intent, roll);
      s.avgFillPrice.Some? && NoWorse(intent.side, s.avgFillPrice.value, intent.price.value)
  {
    AveragePriceWithinLimit(cfg, book, intent, roll);
  }

  /** With the dice off an order fills the smaller of its amount and its reach; a fill-or-kill order
      fills that or, when it is short of the amount, nothing. */
  lemma FillIsAmountOrReach(cfg: PaperConfig, book: Book, intent: OrderIntent, roll: real)
    requires book.WellFormed() && 0.0 <= intent.amount && DiceOff(cfg, intent, roll)
    ensures
      var matched := Min(intent.amount, Reach(book, intent));
      PaperFill(cfg, Some(book), intent, roll).filled
      == if intent.orderType == FokLimit && intent.amount - matched > 0.0000000001 then 0.0 else matched
  {
    WalkedQuantity(book, intent);
    ReachIsAvailable(book, intent);
  }

  /** When the dice hit a match, quantity and value shrink alike and the average stays. */
  lemma DiceShrinkAlike(cfg: PaperConfig, book: Book, intent: OrderIntent, roll: real)
    requires book.WellFormed() && 0.0 <= intent.amount && 0.0 < cfg.partialFillRatio
    requires !intent.isRepair && 0.0 < cfg.partialFillProbability && roll < cfg.partialFillProbability
    ensures
      var without := PaperFill(cfg.(partialFillProbability := 0.0), Some(book), intent, roll);
      var s := PaperFill(cfg, Some(book), intent, roll);
      s.filled == Times(without.filled, cfg.partialFillRatio) && s.avgFillPrice == without.avgFillPrice
  {
    WalkedQuantity(book, intent);
    var t := AfterFok(intent, LimitedWalk(intent.side, LimitOf(intent), book.Against(intent.side), intent.amount));
    if 0.0 < t.qty {
      var shrunk := Times(t.qty, cfg.partialFillRatio);
      TimesStrict(t.qty, 0.0, cfg.partialFillRatio);
      TimesCommutes(shrunk, t.cost / t.qty);
      QuotientOfProduct(t.cost / t.qty, shrunk);
    }
  }

  /** The status follows the quantities: rejected without a book, filled when nothing to speak of
      remains, else partially filled or cancelled by whether anything was; and the fee is the rate of
      the fee model for this venue, symbol and side, or else the configured one, on the value. */
  lemma ReportFollowsFill(cfg: PaperConfig, book: Option<Book>, intent: OrderIntent, roll: real)
    ensures
      var s := PaperFill(cfg, book, intent, roll);
      && (book.None? ==> s.status == Rejected && s.filled == 0.0)
      && (book.Some? ==>
            && (s.status == Filled <==> intent.amount - s.filled <= 0.0000000001)
            && (s.status == PartiallyFilled <==> intent.amount - s.filled > 0.0000000001 && 0.0 < s.filled)
            && (s.status == Cancelled <==> intent.amount - s.filled > 0.0000000001 && s.filled <= 0.0))
      && (0.0 < s.filled ==>
            s.Fee() == Times(s.Notional(), (if cfg.feeModel.Some?
                                            then cfg.feeModel.value(intent.exchange, intent.symbol, intent.side)
                                            else cfg.feeBps) / 10000.0))
  {
    var s := PaperFill(cfg, book, intent, roll);
    if book.Some? && 0.0 < s.filled {
      var t := Matched(cfg, book.value, intent, roll);
      TimesDivide(t.cost, t.qty);
    }
  }
}
