/** The money: the figures of a group against the fills it received, and against the balances those
    fills moved. */
module HedgeLedger {
  import opened Prelude
  import opened OrderBook
  import opened Orders
  import opened Settings
  import opened HedgeGroup
  import opened Opportunities
  import opened BalanceManager
  import opened PaperFillEngine
  import opened OrderRouter
  import opened RepairEngine
  import opened RepairSafety
  import opened HedgeCoordinator
  import opened HedgeSafety

  // ---- Totals over the fills a group received ----

  /** Base asset gained. */
  function BaseTotal(fills: seq<OrderState>): real {
    if fills == [] then 0.0
    else
      var last := fills[|fills| - 1];
      BaseTotal(fills[..|fills| - 1]) + (if last.side.Buy? then last.filled else -last.filled)
  }

  /** Quote asset gained, fees deducted; a fill without a price counts as having changed no quote. */
  function CashTotal(fills: seq<OrderState>): real {
    if fills == [] then 0.0
    else
      var last := fills[|fills| - 1];
      CashTotal(fills[..|fills| - 1]) + last.Cash(last.side)
  }

  function FeeTotal(fills: seq<OrderState>): real {
    if fills == [] then 0.0 else FeeTotal(fills[..|fills| - 1]) + fills[|fills| - 1].Fee()
  }

  /** Quote asset gained by corrective trades alone. */
  function RepairCash(fills: seq<OrderState>): real {
    if fills == [] then 0.0
    else
      var last := fills[|fills| - 1];
      RepairCash(fills[..|fills| - 1]) + (if last.isRepair then last.Cash(last.side) else 0.0)
  }

  lemma TotalsStep(fills: seq<OrderState>, s: OrderState)
    ensures BaseTotal(fills + [s]) == BaseTotal(fills) + (if s.side.Buy? then s.filled else -s.filled)
    ensures CashTotal(fills + [s]) == CashTotal(fills) + s.Cash(s.side)
    ensures FeeTotal(fills + [s]) == FeeTotal(fills) + s.Fee()
    ensures RepairCash(fills + [s]) == RepairCash(fills) + (if s.isRepair then s.Cash(s.side) else 0.0)
  {
    assert (fills + [s])[..|fills|] == fills;
  }

  /** Every figure of the group is the corresponding total over its fills. */
  ghost predicate InBalance(h: Hedge) {
    && h.netPosition == h.executedBuy - h.executedSell == BaseTotal(h.fills)
    && h.realizedPnl.GetOr(0.0) == CashTotal(h.fills)
    && h.actualFee == FeeTotal(h.fills)
    && h.repairCost == RepairCash(h.fills)
  }

  /** A fill whose figures agree with the totals however the repair engine treats it: it has a size and
      a price, or it reports no fee.  A positive fill without a price and without a fee is counted
      here with a notional of zero, as everywhere in the code; what really changed hands for it is
      then in neither the totals nor the figures. */
  predicate Bookable(s: OrderState) {
    (0.0 < s.filled && s.avgFillPrice.Some?) || s.Fee() == 0.0
  }

  ghost predicate BookableAnswer(a: Answer) {
    a.Answered? ==> Bookable(a.state)
  }

  lemma NothingTraded(s: OrderState)
    requires s.filled == 0.0 || s.avgFillPrice.None?
    ensures s.Notional() == 0.0
  {}

  lemma FoldMovesPosition(h: Hedge, side: Side, s: OrderState)
    requires InBalance(h) && s.side == side
    ensures
      var g := Folded(h, side, s);
      && g.fills == h.fills + [s]
      && g.netPosition == g.executedBuy - g.executedSell == BaseTotal(g.fills)
  {
    TotalsStep(h.fills, s);
  }

  lemma BookedFoldKeepsBalance(h: Hedge, side: Side, s: OrderState)
    requires InBalance(h) && s.side == side && s.isRepair && 0.0 < s.filled && s.avgFillPrice.Some?
    ensures InBalance(Folded(h, side, s))
  {
    FoldMovesPosition(h, side, s);
    TotalsStep(h.fills, s);
    var cash := s.Cash(side);
    var g := FoldPnl(FoldPosition(h, side, s), side, s);
    assert g.realizedPnl == Some(h.realizedPnl.GetOr(0.0) + cash) && g.repairCost == h.repairCost + cash;
    assert g.actualFee == h.actualFee + s.Fee();
  }

  lemma UnbookedFoldKeepsBalanceIff(h: Hedge, side: Side, s: OrderState)
    requires InBalance(h) && s.side == side && s.isRepair && (s.filled == 0.0 || s.avgFillPrice.None?)
    ensures InBalance(Folded(h, side, s)) <==> s.Fee() == 0.0
  {
    FoldMovesPosition(h, side, s);
    TotalsStep(h.fills, s);
    NothingTraded(s);
    assert s.Cash(side) == -s.Fee();
    var g := FoldPnl(FoldPosition(h, side, s), side, s);
    assert g.realizedPnl == h.realizedPnl && g.repairCost == h.repairCost && g.actualFee == h.actualFee;
  }

  /** A fill folded by the repair engine keeps the group in balance exactly when it is bookable. */
  lemma FoldKeepsBalanceIff(h: Hedge, side: Side, s: OrderState)
    requires InBalance(h) && s.side == side && s.isRepair && 0.0 <= s.filled
    ensures InBalance(Folded(h, side, s)) <==> Bookable(s)
  {
    if 0.0 < s.filled && s.avgFillPrice.Some? {
      BookedFoldKeepsBalance(h, side, s);
    } else {
      UnbookedFoldKeepsBalanceIff(h, side, s);
    }
  }

  /** A repair call keeps the group in balance exactly when the fill it received, if any, is
      bookable. */
  lemma RepairKeepsBalanceIff(st: Settings, h: Hedge, books: Books, venue: Venue)
    requires InBalance(h) && HonestVenue(venue)
    ensures
      var plan := PlanRepair(st, h, books);
      InBalance(RepairStep(st, h, books, venue).h) <==> (plan.Send? ==> BookableAnswer(venue(plan.intent)))
  {
    var plan := PlanRepair(st, h, books);
    if plan.Send? {
      RepairOrderClosesResidual(st, h, books);
      assert Honest(plan.intent, venue(plan.intent));
      if venue(plan.intent).Answered? {
        FoldKeepsBalanceIff(Attempting(h), plan.intent.side, venue(plan.intent).state);
      }
    }
  }

  ghost predicate Untraded(h: Hedge) {
    && h.fills == [] && h.executedBuy == h.executedSell == h.netPosition == 0.0
    && h.realizedPnl.None? && h.actualFee == h.repairCost == 0.0
  }

  /** The survivor of a failed pair is booked exactly unless it reports a fee for nothing filled. */
  lemma SurvivorInBalanceIff(h: Hedge, side: Side, leg: OrderState)
    requires Untraded(h) && leg.side == side && !leg.isRepair && 0.0 <= leg.filled
    ensures InBalance(Survivor(h, side, leg)) <==> 0.0 < leg.filled || leg.Fee() == 0.0
  {
    OneTotals(leg);
    assert Survivor(h, side, leg).fills == [leg];
    if leg.filled == 0.0 {
      NothingTraded(leg);
    }
  }

  lemma OneTotals(s: OrderState)
    ensures BaseTotal([s]) == (if s.side.Buy? then s.filled else -s.filled)
    ensures CashTotal([s]) == s.Cash(s.side) && FeeTotal([s]) == s.Fee()
    ensures RepairCash([s]) == (if s.isRepair then s.Cash(s.side) else 0.0)
  {
    TotalsStep([], s);
    assert [] + [s] == [s];
  }

  lemma PairTotals(buy: OrderState, sell: OrderState)
    requires buy.side.Buy? && sell.side.Sell? && !buy.isRepair && !sell.isRepair
    ensures BaseTotal([buy, sell]) == buy.filled - sell.filled
    ensures CashTotal([buy, sell]) == sell.Notional() - buy.Notional() - (buy.Fee() + sell.Fee())
    ensures FeeTotal([buy, sell]) == buy.Fee() + sell.Fee() && RepairCash([buy, sell]) == 0.0
  {
    OneTotals(buy);
    TotalsStep([buy], sell);
    assert [buy] + [sell] == [buy, sell];
  }

  /** Two answered legs are always booked exactly. */
  lemma PairInBalance(h: Hedge, buy: OrderState, sell: OrderState)
    requires Untraded(h) && buy.side.Buy? && sell.side.Sell? && !buy.isRepair && !sell.isRepair
    ensures InBalance(BothLegs(h, buy, sell))
  {
    PairTotals(buy, sell);
    assert BothLegs(h, buy, sell).fills == [buy, sell];
  }

  /** Every answer to a repair order can be booked. */
  ghost predicate RepairsBookably(venue: Venue) {
    HonestVenue(venue) && forall i: OrderIntent :: i.isRepair ==> BookableAnswer(venue(i))
  }

  lemma PairSettlesInBalance(st: Settings, h: Hedge, buy: OrderState, sell: OrderState, books: Books, venue: Venue)
    requires Untraded(h) && RepairsBookably(venue)
    requires buy.side.Buy? && sell.side.Sell? && !buy.isRepair && !sell.isRepair
    ensures InBalance(SettleBoth(st, h, buy, sell, books, venue).h)
  {
    PairInBalance(h, buy, sell);
    RepairKeepsBalance(st, FailedPair(h, buy, sell), books, venue);
  }

  lemma SurvivorSettlesInBalance(st: Settings, h: Hedge, side: Side, leg: OrderState, books: Books, venue: Venue)
    requires Untraded(h) && RepairsBookably(venue)
    requires leg.side == side && !leg.isRepair && 0.0 <= leg.filled && Bookable(leg)
    ensures InBalance(Rollback(st, h, side, leg, books, venue))
  {
    SurvivorInBalanceIff(h, side, leg);
    RepairKeepsBalance(st, FailedSurvivor(h, side, leg), books, venue);
  }

  lemma SettleInBalance(
      st: Settings, h: Hedge, buyIntent: OrderIntent, sellIntent: OrderIntent, buy: Answer, sell: Answer, books: Books,
      venue: Venue)
    requires Untraded(h) && RepairsBookably(venue)
    requires Honest(buyIntent, buy) && buyIntent.side.Buy? && !buyIntent.isRepair && BookableAnswer(buy)
    requires Honest(sellIntent, sell) && sellIntent.side.Sell? && !sellIntent.isRepair && BookableAnswer(sell)
    ensures InBalance(Settle(st, h, buy, sell, books, venue).h)
  {
    if buy.Answered? && sell.Answered? {
      PairSettlesInBalance(st, h, buy.state, sell.state, books, venue);
    } else if buy.Answered? {
      SurvivorSettlesInBalance(st, h, Buy, buy.state, books, venue);
    } else if sell.Answered? {
      SurvivorSettlesInBalance(st, h, Sell, sell.state, books, venue);
    }
  }

  lemma RepairKeepsBalance(st: Settings, h: Hedge, books: Books, venue: Venue)
    requires InBalance(h) && RepairsBookably(venue)
    ensures InBalance(RepairStep(st, h, books, venue).h)
  {
    RepairKeepsBalanceIff(st, h, books, venue);
    var plan := PlanRepair(st, h, books);
    if plan.Send? {
      RepairOrderClosesResidual(st, h, books);
      assert plan.intent.isRepair;
    }
  }

  /** A live venue whose answers can be booked; the other modes always give such answers. */
  ghost predicate BookableMoment(w: Wiring, m: Moment) {
    w.st.mode.Live? ==> forall i: OrderIntent :: BookableAnswer(m.live(i))
  }

  /** Paper and dry-run answers are always bookable. */
  lemma RouterIsBookable(w: Wiring, m: Moment, i: OrderIntent)
    requires BookableMoment(w, m)
    ensures BookableAnswer(Route(w.st.mode, w.cfg, m, i))
  {}

  /** Ledger identity: over one execution and any sequence of repairs, with bookable answers, the
      group's position, profit, fee and repair-cost figures are the totals over the fills the venues
      returned. */
  lemma FiguresMatchFills(w: Wiring, opp: Opportunity, amount: real, world: World, later: seq<Moment>)
    requires SoundWorld(w, world) && 0.0 <= amount
    requires BookableMoment(w, world.buy) && BookableMoment(w, world.sell) && BookableMoment(w, world.repair)
    requires forall m :: m in later ==> SoundMoment(w.st.mode, w.cfg, m) && BookableMoment(w, m)
    ensures InBalance(RunRepairs(w.st, Execution(w, opp, amount, world).h, CallsAt(w, later)))
  {
    ExecutionInBalance(w, opp, amount, world);
    RunKeepsBalance(w, Execution(w, opp, amount, world).h, later);
  }

  /** Repair calls made at given moments. */
  function CallsAt(w: Wiring, moments: seq<Moment>): (calls: seq<Call>)
    ensures |calls| == |moments|
  {
    if moments == [] then []
    else [Call(moments[0].books, VenueAt(w.st.mode, w.cfg, moments[0]))] + CallsAt(w, moments[1..])
  }

  lemma ExecutionInBalance(w: Wiring, opp: Opportunity, amount: real, world: World)
    requires SoundWorld(w, world) && 0.0 <= amount
    requires BookableMoment(w, world.buy) && BookableMoment(w, world.sell) && BookableMoment(w, world.repair)
    ensures InBalance(Execution(w, opp, amount, world).h)
  {
    var v := GateVerdict(w.st, w.fees, opp, amount, world.entry);
    if v.Pass? {
      LegAnswersAreHonest(w, opp, amount, world);
      var buyIntent, sellIntent := LegIntent(w.st, opp, Buy, amount), LegIntent(w.st, opp, Sell, amount);
      RouterIsBookable(w, world.buy, buyIntent);
      RouterIsBookable(w, world.sell, sellIntent);
      var venue := VenueAt(w.st.mode, w.cfg, world.repair);
      forall i: OrderIntent
        ensures BookableAnswer(venue(i))
      {
        RouterIsBookable(w, world.repair, i);
      }
      SettleInBalance(
        w.st, SubmittedHedge(opp, amount, v), buyIntent, sellIntent, BuyAnswer(w, opp, amount, world),
        SellAnswer(w, opp, amount, world), world.repairBooks, venue);
    }
  }

  lemma {:induction false} RunKeepsBalance(w: Wiring, h: Hedge, moments: seq<Moment>)
    requires InBalance(h)
    requires forall m :: m in moments ==> SoundMoment(w.st.mode, w.cfg, m) && BookableMoment(w, m)
    ensures InBalance(RunRepairs(w.st, h, CallsAt(w, moments)))
    decreases |moments|
  {
    if moments != [] {
      var m := moments[0];
      var venue := VenueAt(w.st.mode, w.cfg, m);
      RouterIsHonest(w.st.mode, w.cfg, m);
      forall i: OrderIntent
        ensures BookableAnswer(venue(i))
      {
        RouterIsBookable(w, m, i);
      }
      RepairKeepsBalance(w.st, h, m.books, venue);
      RunKeepsBalance(w, RepairStep(w.st, h, m.books, venue).h, moments[1..]);
      assert CallsAt(w, moments)[1..] == CallsAt(w, moments[1..]);
    }
  }

  /** The profit of a group splits into what its legs earned and what its repairs cost. */
  lemma {:induction false} ProfitSplits(fills: seq<OrderState>)
    ensures CashTotal(fills) == LegCash(fills) + RepairCash(fills)
  {
    if fills != [] {
      ProfitSplits(fills[..|fills| - 1]);
    }
  }

  function LegCash(fills: seq<OrderState>): real {
    if fills == [] then 0.0
    else
      var last := fills[|fills| - 1];
      LegCash(fills[..|fills| - 1]) + (if last.isRepair then 0.0 else last.Cash(last.side))
  }

  // ---- Against the balances ----

  /** Fills of one symbol on the two venues of a hedge, as the paper engine reports them. */
  ghost predicate PaperShaped(h: Hedge) {
    forall s :: s in h.fills ==>
      && s.symbol == h.symbol && s.exchange in {h.buyExchange, h.sellExchange}
      && 0.0 <= s.filled && Bookable(s)
  }

  lemma {:induction false} AssetTotalConcat(xs: seq<Posting>, ys: seq<Posting>, asset: Asset)
    ensures AssetTotal(xs + ys, asset) == AssetTotal(xs, asset) + AssetTotal(ys, asset)
  {
    if ys == [] {
      assert xs + ys == xs;
    } else {
      assert (xs + ys)[..|xs + ys| - 1] == xs + ys[..|ys| - 1];
      AssetTotalConcat(xs, ys[..|ys| - 1], asset);
    }
  }

  lemma FillPostingsTotals(s: OrderState)
    requires s.symbol.base != s.symbol.quote && 0.0 <= s.filled && Bookable(s)
    ensures AssetTotal(FillPostings(s), s.symbol.base) == (if s.side.Buy? then s.filled else -s.filled)
    ensures AssetTotal(FillPostings(s), s.symbol.quote) == s.Cash(s.side)
    ensures forall p :: p in FillPostings(s) ==> p.account.0 == s.exchange
  {
    var ps := FillPostings(s);
    if s.filled == 0.0 {
      NothingTraded(s);
    } else {
      assert ps[..1] == [ps[0]] && [ps[0]][..0] == [];
      assert forall a :: AssetTotal([ps[0]], a) == if ps[0].account.1 == a then ps[0].delta else 0.0;
    }
  }

  /** What fills post to the accounts adds up to what they say they traded. */
  lemma {:induction false} PostingsMatchFills(symbol: Symbol, venues: set<Exchange>, fills: seq<OrderState>)
    requires symbol.base != symbol.quote
    requires
      forall s :: s in fills ==> s.symbol == symbol && s.exchange in venues && 0.0 <= s.filled && Bookable(s)
    ensures AssetTotal(PostingsOf(fills), symbol.base) == BaseTotal(fills)
    ensures AssetTotal(PostingsOf(fills), symbol.quote) == CashTotal(fills)
    ensures forall p :: p in PostingsOf(fills) ==> p.account.0 in venues
  {
    if fills != [] {
      var init, last := fills[..|fills| - 1], fills[|fills| - 1];
      assert last in fills && forall s :: s in init ==> s in fills;
      PostingsMatchFills(symbol, venues, init);
      FillPostingsTotals(last);
      AssetTotalConcat(PostingsOf(init), FillPostings(last), symbol.base);
      AssetTotalConcat(PostingsOf(init), FillPostings(last), symbol.quote);
    }
  }

  /** Fills of one symbol post to no third asset. */
  lemma {:induction false} ThirdAssetUntouched(symbol: Symbol, fills: seq<OrderState>, asset: Asset)
    requires asset != symbol.base && asset != symbol.quote
    requires forall s :: s in fills ==> s.symbol == symbol
    ensures AssetTotal(PostingsOf(fills), asset) == 0.0
  {
    if fills != [] {
      var init, last := fills[..|fills| - 1], fills[|fills| - 1];
      assert last in fills && forall s :: s in init ==> s in fills;
      ThirdAssetUntouched(symbol, init, asset);
      AssetTotalConcat(PostingsOf(init), FillPostings(last), asset);
      NothingPosted(FillPostings(last), asset);
    }
  }

  lemma {:induction false} NothingPosted(ps: seq<Posting>, asset: Asset)
    requires forall p :: p in ps ==> p.account.1 != asset
    ensures AssetTotal(ps, asset) == 0.0
  {
    if ps != [] {
      assert ps[|ps| - 1] in ps && forall p :: p in ps[..|ps| - 1] ==> p in ps;
      NothingPosted(ps[..|ps| - 1], asset);
    }
  }

  lemma PaperAnswerIsShaped(w: Wiring, m: Moment, i: OrderIntent)
    requires w.st.mode.PaperTrade? && SoundMoment(w.st.mode, w.cfg, m) && 0.0 <= i.amount
    ensures
      var a := Route(w.st.mode, w.cfg, m, i);
      a.Answered? && a.state.symbol == i.symbol && a.state.exchange == i.exchange && 0.0 <= a.state.filled && Bookable(a.state)
  {
    PaperFillIsHonest(w.cfg, Lookup(m.books, i.exchange, i.symbol), i, m.roll);
  }

  lemma PaperRepairKeepsShape(w: Wiring, h: Hedge, books: Books, m: Moment)
    requires w.st.mode.PaperTrade? && SoundMoment(w.st.mode, w.cfg, m) && PaperShaped(h)
    ensures
      var g := RepairStep(w.st, h, books, VenueAt(w.st.mode, w.cfg, m)).h;
      PaperShaped(g) && SameTerms(g, h)
  {
    var venue := VenueAt(w.st.mode, w.cfg, m);
    RepairKeepsTerms(w.st, h, books, venue);
    RepairAppendsItsFills(w.st, h, books, venue);
    var plan := PlanRepair(w.st, h, books);
    if plan.Send? {
      RepairOrderClosesResidual(w.st, h, books);
      PaperAnswerIsShaped(w, m, plan.intent);
    }
  }

  ghost predicate SameTerms(g: Hedge, h: Hedge) {
    g.symbol == h.symbol && g.buyExchange == h.buyExchange && g.sellExchange == h.sellExchange
  }

  lemma PaperExecutionIsShaped(w: Wiring, opp: Opportunity, amount: real, world: World)
    requires w.st.mode.PaperTrade? && SoundWorld(w, world) && 0.0 <= amount
    ensures
      var g := Execution(w, opp, amount, world).h;
      PaperShaped(g) && g.symbol == opp.symbol && g.buyExchange == opp.buyExchange && g.sellExchange == opp.sellExchange
  {
    var v := GateVerdict(w.st, w.fees, opp, amount, world.entry);
    if v.Pass? {
      PaperAnswerIsShaped(w, world.buy, LegIntent(w.st, opp, Buy, amount));
      PaperAnswerIsShaped(w, world.sell, LegIntent(w.st, opp, Sell, amount));
      PaperPairKeepsShape(
        w, SubmittedHedge(opp, amount, v), BuyAnswer(w, opp, amount, world).state, SellAnswer(w, opp, amount, world).state,
        world.repairBooks, world.repair);
    }
  }

  lemma PaperPairKeepsShape(w: Wiring, h: Hedge, buy: OrderState, sell: OrderState, books: Books, m: Moment)
    requires w.st.mode.PaperTrade? && SoundMoment(w.st.mode, w.cfg, m) && h.fills == []
    requires PaperShaped(h.(fills := [buy, sell]))
    ensures
      var g := SettleBoth(w.st, h, buy, sell, books, VenueAt(w.st.mode, w.cfg, m)).h;
      PaperShaped(g) && SameTerms(g, h)
  {
    assert BothLegs(h, buy, sell).fills == [buy, sell];
    PaperRepairKeepsShape(w, FailedPair(h, buy, sell), books, m);
  }

  lemma {:induction false} PaperRunKeepsShape(w: Wiring, h: Hedge, moments: seq<Moment>)
    requires w.st.mode.PaperTrade? && PaperShaped(h)
    requires forall m :: m in moments ==> SoundMoment(w.st.mode, w.cfg, m)
    ensures var g := RunRepairs(w.st, h, CallsAt(w, moments)); PaperShaped(g) && SameTerms(g, h)
    decreases |moments|
  {
    if moments != [] {
      var m := moments[0];
      PaperRepairKeepsShape(w, h, m.books, m);
      PaperRunKeepsShape(w, RepairStep(w.st, h, m.books, VenueAt(w.st.mode, w.cfg, m)).h, moments[1..]);
      assert CallsAt(w, moments)[1..] == CallsAt(w, moments[1..]);
    }
  }

  /** Conservation: in paper trade, over one execution and any sequence of repairs, the base and
      quote ledgers of the two venues together change by exactly the group's net position and its
      realised profit. */
  lemma PaperBalancesConserve(w: Wiring, opp: Opportunity, amount: real, world: World, later: seq<Moment>)
    requires w.st.mode.PaperTrade? && SoundWorld(w, world) && 0.0 <= amount
    requires forall m :: m in later ==> SoundMoment(w.st.mode, w.cfg, m)
    requires opp.symbol.base != opp.symbol.quote && opp.buyExchange != opp.sellExchange
    ensures
      Conserved(opp, RunRepairs(w.st, Execution(w, opp, amount, world).h, CallsAt(w, later)))
  {
    PaperExecutionIsShaped(w, opp, amount, world);
    PaperRunKeepsShape(w, Execution(w, opp, amount, world).h, later);
    FiguresMatchFills(w, opp, amount, world, later);
    BalancedGroupIsConserved(opp, RunRepairs(w.st, Execution(w, opp, amount, world).h, CallsAt(w, later)));
  }

  ghost predicate Conserved(opp: Opportunity, g: Hedge) {
    var venues := [opp.buyExchange, opp.sellExchange];
    && VenueTotal(venues, PostingsOf(g.fills), opp.symbol.base) == g.netPosition
    && VenueTotal(venues, PostingsOf(g.fills), opp.symbol.quote) == g.realizedPnl.GetOr(0.0)
  }

  lemma BalancedGroupIsConserved(opp: Opportunity, g: Hedge)
    requires InBalance(g) && PaperShaped(g)
    requires g.symbol == opp.symbol && g.buyExchange == opp.buyExchange && g.sellExchange == opp.sellExchange
    requires opp.symbol.base != opp.symbol.quote && opp.buyExchange != opp.sellExchange
    ensures Conserved(opp, g)
  {
    var venues := [opp.buyExchange, opp.sellExchange];
    PostingsMatchFills(opp.symbol, {opp.buyExchange, opp.sellExchange}, g.fills);
    assert forall p :: p in PostingsOf(g.fills) ==> p.account.0 in venues;
    VenuesCoverAssetTotal(venues, PostingsOf(g.fills), opp.symbol.base);
    VenuesCoverAssetTotal(venues, PostingsOf(g.fills), opp.symbol.quote);
  }
}
