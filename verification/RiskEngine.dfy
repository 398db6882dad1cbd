/** The risk decision on one opportunity, and the daily-loss ledger behind one of its gates. */
module RiskEngine {
  import opened Prelude
  import opened Settings
  import opened Opportunities
  import opened ExposureManager
  import BM = BalanceManager

  datatype RejectReason =
    | KillSwitch | BreakerTripped | SymbolNotWhitelisted | CooldownActive | ExchangeUnhealthy
    | BookAgeExceeded | EdgeBelowMin | ProfitBelowMin | SizeBelowMin | TooManyOpenHedges
    | DailyLossLimit | ConsecutiveLossLimit

  datatype Decision = Approved(amount: real, notional: real) | Rejected(reason: RejectReason)

  /** Everything the decision reads besides the settings and the opportunity. */
  datatype Conditions = Conditions(
    killed: bool,
    tripped: bool,
    consecutiveLosses: nat,
    whitelisted: bool,
    coolingDown: bool,
    healthy: bool,
    inFlightBuy: real,
    inFlightSell: real,
    openCount: nat,
    freeQuote: real,
    freeBase: real,
    dailyLoss: real)

  /** The price sizes are computed at: the buy price, or one when it is missing. */
  function Mid(opp: Opportunity): real {
    if opp.buyPrice == 0.0 then 1.0 else opp.buyPrice
  }

  predicate AgeExceeds(age: Option<int>, max: Option<int>) {
    age.Some? && max.Some? && age.value > max.value
  }

  /** The smallest of every cap that applies. */
  function Sized(st: Settings, opp: Opportunity, c: Conditions): real {
    var mid := Mid(opp);
    var capped :=
      Min(Min(opp.maxTradableSize, st.maxNotionalPerTrade / mid),
          Min(Max(0.0, st.maxExposurePerExchange - c.inFlightBuy) / mid,
              Max(0.0, st.maxExposurePerExchange - c.inFlightSell) / mid));
    if st.mode.DryRun? then capped
    else Min(capped, Min(if mid > 0.0 then c.freeQuote / mid else 0.0, c.freeBase))
  }

  function Decide(st: Settings, opp: Opportunity, c: Conditions): Decision {
    if c.killed then Rejected(KillSwitch)
    else if c.tripped then Rejected(BreakerTripped)
    else if !c.whitelisted then Rejected(SymbolNotWhitelisted)
    else if c.coolingDown then Rejected(CooldownActive)
    else if !c.healthy then Rejected(ExchangeUnhealthy)
    else if AgeExceeds(opp.buyBookAgeMs, st.maxBookAgeMsForTrade) || AgeExceeds(opp.sellBookAgeMs, st.maxBookAgeMsForTrade)
    then Rejected(BookAgeExceeded)
    else if opp.netEdgeBps < st.minNetEdgeBps then Rejected(EdgeBelowMin)
    else if opp.expectedProfitQuote < st.minProfitQuote then Rejected(ProfitBelowMin)
    else
      var amount := Sized(st, opp, c);
      if Times(amount, Mid(opp)) < st.minOrderSizeQuote then Rejected(SizeBelowMin)
      else if c.openCount >= st.maxTotalOpenHedges then Rejected(TooManyOpenHedges)
      else if st.mode.Live? && st.maxDailyLossQuote.Some? && c.dailyLoss >= st.maxDailyLossQuote.value
      then Rejected(DailyLossLimit)
      else if st.mode.Live? && st.maxConsecutiveLosingTrades.Some?
              && c.consecutiveLosses >= st.maxConsecutiveLosingTrades.value
      then Rejected(ConsecutiveLossLimit)
      else Approved(amount, Times(amount, Mid(opp)))
  }

  /** A size that every limit allows, at the buy price or at one when it is missing. */
  ghost predicate Affordable(st: Settings, opp: Opportunity, c: Conditions, amount: real) {
    var notional := Times(amount, if opp.buyPrice == 0.0 then 1.0 else opp.buyPrice);
    && amount <= opp.maxTradableSize
    && notional <= st.maxNotionalPerTrade
    && notional <= Max(0.0, st.maxExposurePerExchange - c.inFlightBuy)
    && notional <= Max(0.0, st.maxExposurePerExchange - c.inFlightSell)
    && (!st.mode.DryRun? ==> notional <= c.freeQuote && amount <= c.freeBase)
  }

  lemma SizeAgainstCap(amount: real, cap: real, mid: real)
    requires 0.0 < mid
    ensures amount <= cap / mid <==> Times(amount, mid) <= cap
  {
    TimesDivide(cap, mid);
    if amount <= cap / mid {
      TimesMono(mid, amount, cap / mid);
    } else {
      TimesStrict(mid, cap / mid, amount);
    }
  }

  /** The size is the largest one every limit allows. */
  lemma SizedIsLargestAffordable(st: Settings, opp: Opportunity, c: Conditions, amount: real)
    requires 0.0 <= opp.buyPrice
    ensures Affordable(st, opp, c, amount) <==> amount <= Sized(st, opp, c)
  {
    var mid := Mid(opp);
    SizeAgainstCap(amount, st.maxNotionalPerTrade, mid);
    SizeAgainstCap(amount, Max(0.0, st.maxExposurePerExchange - c.inFlightBuy), mid);
    SizeAgainstCap(amount, Max(0.0, st.maxExposurePerExchange - c.inFlightSell), mid);
    SizeAgainstCap(amount, c.freeQuote, mid);
  }

  /** The minimum order size is met exactly when some size that every limit allows meets it. */
  lemma MinimumMetIffSomeSizeFits(st: Settings, opp: Opportunity, c: Conditions)
    requires 0.0 <= opp.buyPrice
    ensures
      st.minOrderSizeQuote <= Times(Sized(st, opp, c), Mid(opp))
      <==> exists amount :: Affordable(st, opp, c, amount) && st.minOrderSizeQuote <= Times(amount, Mid(opp))
  {
    var size := Sized(st, opp, c);
    SizedIsLargestAffordable(st, opp, c, size);
    forall amount | Affordable(st, opp, c, amount)
      ensures Times(amount, Mid(opp)) <= Times(size, Mid(opp))
    {
      SizedIsLargestAffordable(st, opp, c, amount);
      TimesMono(Mid(opp), amount, size);
    }
  }

  /** An approval fits under every cap with room to spare for what is already in flight. */
  lemma ApprovalFitsUnderCaps(st: Settings, opp: Opportunity, c: Conditions)
    requires 0.0 <= opp.buyPrice && 0.0 < st.minOrderSizeQuote
    requires Decide(st, opp, c).Approved?
    ensures
      var d := Decide(st, opp, c);
      && 0.0 < d.amount <= opp.maxTradableSize
      && st.minOrderSizeQuote <= d.notional <= st.maxNotionalPerTrade
      && c.inFlightBuy + d.notional <= st.maxExposurePerExchange
      && c.inFlightSell + d.notional <= st.maxExposurePerExchange
      && c.openCount < st.maxTotalOpenHedges
      && (!st.mode.DryRun? ==> d.notional <= c.freeQuote && d.amount <= c.freeBase)
  {
    var amount := Sized(st, opp, c);
    SizedIsLargestAffordable(st, opp, c, amount);
    if amount <= 0.0 {
      TimesMono(Mid(opp), amount, 0.0);
      assert false;
    }
  }

  /** Everything an approval takes, read off the settings, the opportunity and the conditions. */
  ghost predicate Approvable(st: Settings, opp: Opportunity, c: Conditions) {
    && !c.killed && !c.tripped && c.whitelisted && !c.coolingDown && c.healthy
    && (st.maxBookAgeMsForTrade.Some? ==>
          && (opp.buyBookAgeMs.Some? ==> opp.buyBookAgeMs.value <= st.maxBookAgeMsForTrade.value)
          && (opp.sellBookAgeMs.Some? ==> opp.sellBookAgeMs.value <= st.maxBookAgeMsForTrade.value))
    && st.minNetEdgeBps <= opp.netEdgeBps
    && st.minProfitQuote <= opp.expectedProfitQuote
    && SomeSizeFits(st, opp, c)
    && c.openCount < st.maxTotalOpenHedges
    && (st.mode == Live ==>
          && (st.maxDailyLossQuote.Some? ==> c.dailyLoss < st.maxDailyLossQuote.value)
          && (st.maxConsecutiveLosingTrades.Some? ==> c.consecutiveLosses < st.maxConsecutiveLosingTrades.value))
  }

  /** Some size within every limit is worth an order. */
  ghost predicate SomeSizeFits(st: Settings, opp: Opportunity, c: Conditions) {
    exists amount ::
      && Affordable(st, opp, c, amount)
      && st.minOrderSizeQuote <= Times(amount, if opp.buyPrice == 0.0 then 1.0 else opp.buyPrice)
  }

  /** Exactly when a decision is an approval, and of what: the largest affordable size. */
  lemma ApprovedIff(st: Settings, opp: Opportunity, c: Conditions)
    requires 0.0 <= opp.buyPrice
    ensures Decide(st, opp, c).Approved? <==> Approvable(st, opp, c)
    ensures
      Decide(st, opp, c).Approved? ==>
        var d := Decide(st, opp, c);
        && Affordable(st, opp, c, d.amount)
        && d.notional == Times(d.amount, if opp.buyPrice == 0.0 then 1.0 else opp.buyPrice)
        && forall amount :: Affordable(st, opp, c, amount) ==> amount <= d.amount
  {
    MinimumMetIffSomeSizeFits(st, opp, c);
    var size := Sized(st, opp, c);
    SizedIsLargestAffordable(st, opp, c, size);
    forall amount | Affordable(st, opp, c, amount)
      ensures amount <= size
    {
      SizedIsLargestAffordable(st, opp, c, amount);
    }
  }

  /** What each reason of rejection stands for. */
  ghost predicate Obstacle(reason: RejectReason, st: Settings, opp: Opportunity, c: Conditions) {
    match reason
    case KillSwitch => c.killed
    case BreakerTripped => c.tripped
    case SymbolNotWhitelisted => !c.whitelisted
    case CooldownActive => c.coolingDown
    case ExchangeUnhealthy => !c.healthy
    case BookAgeExceeded =>
      && st.maxBookAgeMsForTrade.Some?
      && (|| (opp.buyBookAgeMs.Some? && st.maxBookAgeMsForTrade.value < opp.buyBookAgeMs.value)
          || (opp.sellBookAgeMs.Some? && st.maxBookAgeMsForTrade.value < opp.sellBookAgeMs.value))
    case EdgeBelowMin => opp.netEdgeBps < st.minNetEdgeBps
    case ProfitBelowMin => opp.expectedProfitQuote < st.minProfitQuote
    case SizeBelowMin => !SomeSizeFits(st, opp, c)
    case TooManyOpenHedges => st.maxTotalOpenHedges <= c.openCount
    case DailyLossLimit =>
      st.mode == Live && st.maxDailyLossQuote.Some? && st.maxDailyLossQuote.value <= c.dailyLoss
    case ConsecutiveLossLimit =>
      st.mode == Live && st.maxConsecutiveLosingTrades.Some? && st.maxConsecutiveLosingTrades.value <= c.consecutiveLosses
  }

  /** The order in which obstacles are looked for. */
  const REASONS := [
    KillSwitch, BreakerTripped, SymbolNotWhitelisted, CooldownActive, ExchangeUnhealthy, BookAgeExceeded, EdgeBelowMin,
    ProfitBelowMin, SizeBelowMin, TooManyOpenHedges, DailyLossLimit, ConsecutiveLossLimit]

  /** The place of a reason in that order. */
  function Rank(reason: RejectReason): (k: nat)
    ensures k < |REASONS| && REASONS[k] == reason
  {
    match reason
    case KillSwitch => 0
    case BreakerTripped => 1
    case SymbolNotWhitelisted => 2
    case CooldownActive => 3
    case ExchangeUnhealthy => 4
    case BookAgeExceeded => 5
    case EdgeBelowMin => 6
    case ProfitBelowMin => 7
    case SizeBelowMin => 8
    case TooManyOpenHedges => 9
    case DailyLossLimit => 10
    case ConsecutiveLossLimit => 11
  }

  /** A rejection gives the first obstacle there is. */
  lemma RejectionGivesFirstObstacle(st: Settings, opp: Opportunity, c: Conditions, k: nat)
    requires 0.0 <= opp.buyPrice && k < |REASONS|
    ensures
      Decide(st, opp, c) == Rejected(REASONS[k])
      <==> Obstacle(REASONS[k], st, opp, c) && forall j :: 0 <= j < k ==> !Obstacle(REASONS[j], st, opp, c)
  {
    MinimumMetIffSomeSizeFits(st, opp, c);
    FirstObstacleOf(st, opp, c, k, Decide(st, opp, c));
  }

  lemma FirstObstacleOf(st: Settings, opp: Opportunity, c: Conditions, k: nat, d: Decision)
    requires k < |REASONS| && d == Decide(st, opp, c)
    requires st.minOrderSizeQuote <= Times(Sized(st, opp, c), Mid(opp)) <==> SomeSizeFits(st, opp, c)
    ensures
      d == Rejected(REASONS[k])
      <==> Obstacle(REASONS[k], st, opp, c) && forall j :: 0 <= j < k ==> !Obstacle(REASONS[j], st, opp, c)
  {
    assert d.Rejected? ==> Obstacle(d.reason, st, opp, c);
    assert d.Approved? ==> forall j :: 0 <= j < |REASONS| ==> !Obstacle(REASONS[j], st, opp, c);
    assert forall j :: 0 <= j < |REASONS| && d == Rejected(REASONS[j]) ==>
        forall i :: 0 <= i < j ==> !Obstacle(REASONS[i], st, opp, c);
    if d.Rejected? {
      var at := Rank(d.reason);
      assert d == Rejected(REASONS[at]) && (at < k ==> Obstacle(REASONS[at], st, opp, c));
    }
  }

  // ---- Daily loss ----

  /** A realised profit and the day it was recorded on. */
  datatype Result = Result(day: int, pnl: real)

  function LossOn(results: seq<Result>, day: int): real {
    if results == [] then 0.0
    else
      var last := results[|results| - 1];
      LossOn(results[..|results| - 1], day) + (if last.day == day && last.pnl < 0.0 then -last.pnl else 0.0)
  }

  lemma {:induction false} NoLossOnUnseenDay(results: seq<Result>, day: int)
    requires forall r :: r in results ==> r.day < day
    ensures LossOn(results, day) == 0.0
  {
    if results != [] {
      assert results[|results| - 1] in results;
      NoLossOnUnseenDay(results[..|results| - 1], day);
    }
  }

  ghost predicate DaysSorted(results: seq<Result>) {
    forall i, j :: 0 <= i < j < |results| ==> results[i].day <= results[j].day
  }

  lemma RecordedDaysStaySorted(results: seq<Result>, r: Result)
    requires DaysSorted(results) && forall q :: q in results ==> q.day <= r.day
    ensures DaysSorted(results + [r])
    ensures LossOn(results + [r], r.day) == LossOn(results, r.day) + (if r.pnl < 0.0 then -r.pnl else 0.0)
  {
    assert (results + [r])[..|results|] == results;
    assert forall k :: 0 <= k < |results| ==> results[k] in results;
  }

  class RiskEngine {
    const settings: Settings
    var cooldownUntil: map<Symbol, real>
    var dailyLossQuote: real
    var dailyLossDay: Option<int>
    ghost var results: seq<Result>

    /** The running figure is the loss of the last day recorded, and days never run backwards. */
    ghost predicate Valid()
      reads this
    {
      && DaysSorted(results)
      && (if results == [] then dailyLossDay.None?
          else
            && dailyLossDay == Some(results[|results| - 1].day)
            && dailyLossQuote == LossOn(results, dailyLossDay.value))
    }

    ghost predicate NotBefore(today: int)
      reads this
    {
      forall r :: r in results ==> r.day <= today
    }

    constructor (settings: Settings)
      ensures Valid() && results == [] && this.settings == settings && cooldownUntil == map[]
    {
      this.settings := settings;
      cooldownUntil, dailyLossQuote, dailyLossDay, results := map[], 0.0, None, [];
    }

    function DailyLoss(today: int): (r: real)
      reads this
    {
      if dailyLossDay != Some(today) then 0.0 else dailyLossQuote
    }

    /** The figure the gate reads is exactly the losses recorded today. */
    lemma DailyLossIsTodaysLosses(today: int)
      requires Valid() && NotBefore(today)
      ensures DailyLoss(today) == LossOn(results, today)
    {
      if dailyLossDay != Some(today) {
        forall r | r in results
          ensures r.day < today
        {
          var k :| 0 <= k < |results| && results[k] == r;
          assert results[|results| - 1] in results;
        }
        NoLossOnUnseenDay(results, today);
      }
    }

    method RecordRealizedPnl(pnl: Option<real>, today: int)
      requires Valid() && NotBefore(today)
      modifies this`dailyLossQuote, this`dailyLossDay, this`results
      ensures Valid() && NotBefore(today)
      ensures results == old(results) + (if pnl.Some? then [Result(today, pnl.value)] else [])
    {
      if pnl.None? {
        return;
      }
      DailyLossIsTodaysLosses(today);
      ghost var longer := results + [Result(today, pnl.value)];
      RecordedDaysStaySorted(results, Result(today, pnl.value));
      if dailyLossDay != Some(today) {
        dailyLossDay := Some(today);
        dailyLossQuote := 0.0;
      }
      if pnl.value < 0.0 {
        dailyLossQuote := dailyLossQuote + -pnl.value;
      }
      results := longer;
    }

    method SetCooldown(symbol: Symbol, now: real, seconds: real)
      modifies this`cooldownUntil
      ensures cooldownUntil == old(cooldownUntil)[symbol := now + seconds]
      ensures forall later :: InCooldown(symbol, later) <==> later < now + seconds
      ensures forall other, later :: other != symbol ==> (InCooldown(other, later) <==> old(InCooldown(other, later)))
    {
      cooldownUntil := cooldownUntil[symbol := now + seconds];
    }

    function InCooldown(symbol: Symbol, now: real): (r: bool)
      reads this
    {
      symbol in cooldownUntil && now < cooldownUntil[symbol]
    }

    /** The conditions as the managers hold them now; switches, health and the breaker are given. */
    function ConditionsFor(
      opp: Opportunity, now: real, today: int, killed: bool, tripped: bool, losses: nat, whitelisted: bool,
      healthy: bool, exposure: ExposureManager, balances: BM.BalanceManager): (c: Conditions)
      reads this, exposure, balances
    {
      Conditions(
        killed, tripped, losses, whitelisted, InCooldown(opp.symbol, now), healthy,
        exposure.InFlight(opp.buyExchange), exposure.InFlight(opp.sellExchange), exposure.OpenCount(),
        balances.Free(opp.buyExchange, opp.symbol.quote), balances.Free(opp.sellExchange, opp.symbol.base),
        DailyLoss(today))
    }

    /** The conditions of a decision are what they are called: the switches and health as given, the
        symbol's cooldown, the exposure and free balances of the two venues on their sides, the open
        hedges, and today's losses. */
    lemma ConditionsAreRead(
        opp: Opportunity, now: real, today: int, killed: bool, tripped: bool, losses: nat, whitelisted: bool,
        healthy: bool, exposure: ExposureManager, balances: BM.BalanceManager)
      requires Valid() && NotBefore(today)
      ensures
        var c := ConditionsFor(opp, now, today, killed, tripped, losses, whitelisted, healthy, exposure, balances);
        var buyQuote, sellBase := (opp.buyExchange, opp.symbol.quote), (opp.sellExchange, opp.symbol.base);
        && c.killed == killed && c.tripped == tripped && c.consecutiveLosses == losses
        && c.whitelisted == whitelisted && c.healthy == healthy
        && (c.coolingDown <==> opp.symbol in cooldownUntil && now < cooldownUntil[opp.symbol])
        && c.inFlightBuy == exposure.View().InFlight(opp.buyExchange)
        && c.inFlightSell == exposure.View().InFlight(opp.sellExchange)
        && c.openCount == |exposure.openHedges|
        && c.freeQuote == Max(0.0, BM.Held(balances.balances, buyQuote) - BM.Held(balances.reserved, buyQuote))
        && c.freeBase == Max(0.0, BM.Held(balances.balances, sellBase) - BM.Held(balances.reserved, sellBase))
        && c.dailyLoss == LossOn(results, today)
    {
      DailyLossIsTodaysLosses(today);
    }

    function Evaluate(
      opp: Opportunity, now: real, today: int, killed: bool, tripped: bool, losses: nat, whitelisted: bool,
      healthy: bool, exposure: ExposureManager, balances: BM.BalanceManager): (d: Decision)
      reads this, exposure, balances
    {
      Decide(
        settings, opp,
        ConditionsFor(opp, now, today, killed, tripped, losses, whitelisted, healthy, exposure, balances))
    }
  }
}
