/** Three dependent legs on one venue, each sized by what the one before produced, and the reversal
    of filled legs when a later one fails. */
module TriangularExecutor {
  import opened Prelude
  import opened OrderBook
  import opened Orders
  import opened TriangularScanner
  import opened Settings
  import opened PaperFillEngine
  import opened OrderRouter

  datatype Leg = Leg(pair: Symbol, side: Side, reference: real)

  /** The legs of a cycle, in order. */
  function Plan(c: Cycle): seq<Leg> {
    if |c.direction| != 4 then []
    else if c.direction[..2] == [c.triangle.a, c.triangle.b] then
      [Leg(c.pairBA, Buy, c.price1), Leg(c.pairCB, Buy, c.price2), Leg(c.pairCA, Sell, c.price3)]
    else
      [Leg(c.pairCA, Buy, c.price1), Leg(c.pairCB, Sell, c.price2), Leg(c.pairBA, Sell, c.price3)]
  }

  /** A buy spends the whole quantity in hand at its reference price; a sale sells all of it. */
  function LegAmount(leg: Leg, inHand: real): real {
    if leg.side.Sell? then inHand else if leg.reference > 0.0 then inHand / leg.reference else 0.0
  }

  function LegOrder(exchange: Exchange, leg: Leg, inHand: real): OrderIntent {
    OrderIntent(exchange, leg.pair, leg.side, IocLimit, Some(leg.reference), LegAmount(leg, inHand), false)
  }

  predicate LegFailed(s: OrderState) {
    s.filled <= 0.0 || s.status in {Rejected, Cancelled}
  }

  /** What a fill leaves in hand: the base bought, or the quote it sold for. */
  function Produced(s: OrderState): real {
    if s.side.Buy? then s.filled else s.Notional()
  }

  /** What a fill consumes of what was in hand, before fees. */
  function Spent(s: OrderState): real {
    if s.side.Buy? then s.Notional() else s.filled
  }

  /** How the legs ended.  Finished: all traded.  Dry: a leg had nothing to trade, which the report
      also calls completed.  Failed: a leg failed after the given fills.  Threw: a submission raised
      and nothing is reversed. */
  datatype Ending =
    | Finished(inHand: real, fills: seq<OrderState>)
    | Dry(inHand: real, fills: seq<OrderState>)
    | Failed(fills: seq<OrderState>, failing: OrderState)
    | Threw(fills: seq<OrderState>)

  /** Trade the remaining legs with `inHand`, given the fills so far; one venue per submission. */
  function Trade(exchange: Exchange, legs: seq<Leg>, inHand: real, venues: seq<Venue>, fills: seq<OrderState>): Ending
    requires |venues| == |legs|
    decreases |legs|
  {
    if legs == [] then Finished(inHand, fills)
    else
      var leg := legs[0];
      if LegAmount(leg, inHand) <= 0.0 then Dry(inHand, fills)
      else
        var answer := venues[0](LegOrder(exchange, leg, inHand));
        if answer.Raised? then Threw(fills)
        else if LegFailed(answer.state) then Failed(fills, answer.state)
        else
          var carried := if leg.side.Buy? then answer.state.filled else answer.state.Notional();
          Trade(exchange, legs[1..], carried, venues[1..], fills + [answer.state])
  }

  /** The order that undoes a fill at no worse than its own price. */
  function ReverseOrder(exchange: Exchange, s: OrderState): OrderIntent {
    OrderIntent(exchange, s.symbol, if s.side.Buy? then Sell else Buy, IocLimit, s.avgFillPrice, s.filled, true)
  }

  /** Reversal of fills, last first; a venue that raises is skipped over. */
  function Reversal(exchange: Exchange, fills: seq<OrderState>, venues: seq<Venue>): seq<Answer>
    requires |venues| == |fills|
    decreases |fills|
  {
    if fills == [] then []
    else
      [venues[0](ReverseOrder(exchange, fills[|fills| - 1]))]
      + Reversal(exchange, fills[..|fills| - 1], venues[1..])
  }

  class TriangularExecutor {
    /** Run a cycle.  `later` answers the reversal orders, should there be any. */
    method Run(c: Cycle, probe: real, venues: seq<Venue>, later: seq<Venue>)
      returns (end: Ending, reversed: seq<Answer>)
      requires |venues| == |Plan(c)| && |later| >= |Plan(c)|
      ensures end == Trade(c.exchange, Plan(c), probe, venues, [])
      ensures |end.fills| <= |Plan(c)|
      ensures reversed == if end.Failed? then Reversal(c.exchange, end.fills, later[..|end.fills|]) else []
    {
      var plan := Plan(c);
      var inHand := probe;
      var fills: seq<OrderState> := [];
      reversed := [];
      var i := 0;
      while i < |plan|
        invariant 0 <= i <= |plan| && |fills| == i
        invariant Trade(c.exchange, plan[i..], inHand, venues[i..], fills) == Trade(c.exchange, plan, probe, venues, [])
      {
        var leg := plan[i];
        assert plan[i..][1..] == plan[i + 1..] && venues[i..][1..] == venues[i + 1..];
        var amount := if leg.side.Buy? then (if leg.reference > 0.0 then inHand / leg.reference else 0.0) else inHand;
        if amount <= 0.0 {
          end := Dry(inHand, fills);
          return;
        }
        var answer :=
          venues[i](OrderIntent(c.exchange, leg.pair, leg.side, IocLimit, Some(leg.reference), amount, false));
        if answer.Raised? {
          end := Threw(fills);
          return;
        }
        if answer.state.filled <= 0.0 || answer.state.status.Rejected? || answer.state.status.Cancelled? {
          end := Failed(fills, answer.state);
          reversed := Rollback(c.exchange, fills, later[..|fills|]);
          return;
        }
        inHand := if leg.side.Buy? then answer.state.filled else answer.state.Notional();
        fills := fills + [answer.state];
        i := i + 1;
      }
      end := Finished(inHand, fills);
    }

    method Rollback(exchange: Exchange, fills: seq<OrderState>, venues: seq<Venue>) returns (reversed: seq<Answer>)
      requires |venues| == |fills|
      ensures reversed == Reversal(exchange, fills, venues)
    {
      reversed := [];
      var k := 0;
      assert fills[..|fills| - 0] == fills && venues[0..] == venues;
      while k < |fills|
        invariant 0 <= k <= |fills|
        invariant reversed + Reversal(exchange, fills[..|fills| - k], venues[k..]) == Reversal(exchange, fills, venues)
      {
        var leg := fills[|fills| - 1 - k];
        assert fills[..|fills| - k][..|fills| - k - 1] == fills[..|fills| - (k + 1)];
        assert venues[k..][1..] == venues[k + 1..];
        var answer := venues[k](ReverseOrder(exchange, leg));
        ghost var rest := Reversal(exchange, fills[..|fills| - (k + 1)], venues[k + 1..]);
        assert (reversed + [answer]) + rest == reversed + ([answer] + rest);
        reversed := reversed + [answer];
        k := k + 1;
      }
    }
  }

  ghost predicate Priced(legs: seq<Leg>) {
    forall l :: l in legs ==> 0.0 < l.reference
  }

  // ---- Spending within what the previous leg produced ----

  /** The orders a cycle sends: limits at positive prices. */
  predicate LimitOrder(i: OrderIntent) {
    0.0 < i.amount && i.orderType.IocLimit? && i.price.Some? && 0.0 < i.price.value
  }

  /** An answer that respects the limit, never overfills, and prices what it fills. */
  ghost predicate RespectsLimit(intent: OrderIntent, a: Answer) {
    Honest(intent, a) &&
    (a.Answered? && 0.0 < a.state.filled ==>
       a.state.avgFillPrice.Some? && 0.0 < a.state.avgFillPrice.value
       && (intent.price.Some? ==> NoWorse(intent.side, a.state.avgFillPrice.value, intent.price.value)))
  }

  ghost predicate LimitVenues(venues: seq<Venue>) {
    forall k, i: OrderIntent :: 0 <= k < |venues| && LimitOrder(i) ==> RespectsLimit(i, venues[k](i))
  }

  /** The paper engine is such a venue. */
  lemma PaperRespectsLimit(cfg: PaperConfig, m: Moment, i: OrderIntent)
    requires SoundMoment(PaperTrade, cfg, m) && LimitOrder(i)
    ensures RespectsLimit(i, Route(PaperTrade, cfg, m, i))
  {
    var book := Lookup(m.books, i.exchange, i.symbol);
    PaperFillIsHonest(cfg, book, i, m.roll);
    if book.Some? && PaperFill(cfg, book, i, m.roll).filled > 0.0 {
      AveragePriceWithinLimit(cfg, book.value, i, m.roll);
    }
  }

  /** No leg spends more, before fees, than it was handed. */
  lemma LegSpendsAtMostInHand(exchange: Exchange, leg: Leg, inHand: real, s: OrderState)
    requires 0.0 < LegAmount(leg, inHand) && 0.0 < s.filled
    requires RespectsLimit(LegOrder(exchange, leg, inHand), Answered(s))
    ensures Spent(s) <= inHand && 0.0 <= Produced(s)
  {
    var amount := LegAmount(leg, inHand);
    TimesMono(s.filled, 0.0, s.avgFillPrice.value);
    TimesCommutes(s.avgFillPrice.value, s.filled);
    if leg.side.Buy? {
      TimesMono(s.filled, s.avgFillPrice.value, leg.reference);
      TimesMono(leg.reference, s.filled, amount);
      TimesDivide(inHand, leg.reference);
    }
  }

  /** The quantity in hand when fill `k` was made. */
  function InHandAt(inHand: real, fills: seq<OrderState>, k: nat): real
    requires k <= |fills|
  {
    if k == 0 then inHand else Produced(fills[k - 1])
  }

  /** Every fill spends at most what was in hand: the start for the first, for every other what the
      one before produced. */
  ghost predicate Covered(inHand: real, fills: seq<OrderState>) {
    forall k: nat :: k < |fills| ==> Spent(fills[k]) <= InHandAt(inHand, fills, k)
  }

  lemma CoveredAppend(inHand: real, fills: seq<OrderState>, s: OrderState)
    requires Covered(inHand, fills) && Spent(s) <= InHandAt(inHand, fills, |fills|)
    ensures Covered(inHand, fills + [s])
  {
    var longer := fills + [s];
    forall k: nat | k < |longer|
      ensures Spent(longer[k]) <= InHandAt(inHand, longer, k)
    {
      assert InHandAt(inHand, longer, k) == InHandAt(inHand, fills, k);
    }
  }

  /** However the legs end, with partial fills or not, no leg ever spent more than the leg before it
      produced. */
  lemma {:induction false} TradeIsCovered(
      exchange: Exchange, legs: seq<Leg>, inHand: real, venues: seq<Venue>, probe: real, fills: seq<OrderState>)
    requires |venues| == |legs| && LimitVenues(venues) && Priced(legs)
    requires Covered(probe, fills) && inHand == InHandAt(probe, fills, |fills|)
    ensures Covered(probe, Trade(exchange, legs, inHand, venues, fills).fills)
    decreases |legs|
  {
    if legs != [] && LegAmount(legs[0], inHand) > 0.0 {
      var leg := legs[0];
      assert leg in legs;
      var intent := LegOrder(exchange, leg, inHand);
      assert LimitOrder(intent) && RespectsLimit(intent, venues[0](intent));
      if venues[0](intent).Answered? && !LegFailed(venues[0](intent).state) {
        var s := venues[0](intent).state;
        LegSpendsAtMostInHand(exchange, leg, inHand, s);
        CoveredAppend(probe, fills, s);
        TradeIsCovered(exchange, legs[1..], Produced(s), venues[1..], probe, fills + [s]);
      }
    }
  }

  lemma CycleIsCovered(c: Cycle, probe: real, venues: seq<Venue>)
    requires |venues| == |Plan(c)| && LimitVenues(venues) && Priced(Plan(c))
    ensures Covered(probe, Trade(c.exchange, Plan(c), probe, venues, []).fills)
  {
    TradeIsCovered(c.exchange, Plan(c), probe, venues, probe, []);
  }

  // ---- Meeting the scanner's figure ----

  /** A venue that fills every order completely within its limit. */
  ghost predicate FillsCompletely(intent: OrderIntent, a: Answer) {
    RespectsLimit(intent, a) && a.Answered? && a.state.filled == intent.amount && a.state.status.Filled?
  }

  ghost predicate CompleteVenues(venues: seq<Venue>) {
    forall k, i: OrderIntent :: 0 <= k < |venues| && LimitOrder(i) ==> FillsCompletely(i, venues[k](i))
  }

  /** What a leg yields at exactly its reference price. */
  function AtReference(leg: Leg, inHand: real): real
    requires 0.0 < leg.reference
  {
    if leg.side.Buy? then inHand / leg.reference else Times(inHand, leg.reference)
  }

  function Chained(legs: seq<Leg>, inHand: real): real
    requires Priced(legs)
  {
    if legs == [] then inHand else Chained(legs[1..], AtReference(legs[0], inHand))
  }

  lemma AtReferenceMonotone(leg: Leg, a: real, b: real)
    requires 0.0 < leg.reference && 0.0 < a <= b
    ensures 0.0 < AtReference(leg, a) <= AtReference(leg, b)
  {
    if leg.side.Buy? {
      TimesMono(leg.reference, a, b);
      DivCompare(a, leg.reference, b, leg.reference);
      DivCompare(0.0, 1.0, a, leg.reference);
      TimesDivide(a, leg.reference);
    } else {
      TimesMono(leg.reference, a, b);
      TimesStrict(leg.reference, 0.0, a);
    }
  }

  lemma {:induction false} ChainedMonotone(legs: seq<Leg>, a: real, b: real)
    requires Priced(legs)
    requires 0.0 < a <= b
    ensures 0.0 < Chained(legs, a) <= Chained(legs, b)
  {
    if legs != [] {
      AtReferenceMonotone(legs[0], a, b);
      ChainedMonotone(legs[1..], AtReference(legs[0], a), AtReference(legs[0], b));
    }
  }

  lemma FullLegYieldsAtLeastReference(exchange: Exchange, leg: Leg, inHand: real, s: OrderState)
    requires 0.0 < leg.reference && 0.0 < inHand
    requires FillsCompletely(LegOrder(exchange, leg, inHand), Answered(s)) && 0.0 < LegAmount(leg, inHand)
    ensures 0.0 < AtReference(leg, inHand) <= Produced(s)
    ensures leg.side.Buy? ==> Produced(s) == AtReference(leg, inHand)
  {
    AtReferenceMonotone(leg, inHand, inHand);
    if leg.side.Sell? {
      TimesMono(inHand, leg.reference, s.avgFillPrice.value);
      TimesCommutes(s.avgFillPrice.value, inHand);
    }
  }

  /** Complete fills within their limits finish the plan with at least what its reference prices
      promise. */
  lemma {:induction false} CompleteTradeBeatsReferences(
      exchange: Exchange, legs: seq<Leg>, inHand: real, venues: seq<Venue>, fills: seq<OrderState>)
    requires |venues| == |legs| && CompleteVenues(venues) && 0.0 < inHand
    requires Priced(legs)
    ensures
      var end := Trade(exchange, legs, inHand, venues, fills);
      end.Finished? && Chained(legs, inHand) <= end.inHand && |end.fills| == |fills| + |legs|
    decreases |legs|
  {
    if legs != [] {
      var leg := legs[0];
      assert leg in legs;
      AtReferenceMonotone(leg, inHand, inHand);
      var intent := LegOrder(exchange, leg, inHand);
      assert LimitOrder(intent) && FillsCompletely(intent, venues[0](intent));
      var s := venues[0](intent).state;
      FullLegYieldsAtLeastReference(exchange, leg, inHand, s);
      ChainedMonotone(legs[1..], AtReference(leg, inHand), Produced(s));
      CompleteTradeBeatsReferences(exchange, legs[1..], Produced(s), venues[1..], fills + [s]);
    }
  }

  /** Triangular execution meets the scanner: in both directions, three complete fills within their
      limits end with at least the quantity the scanner computed from the tops of the books. */
  lemma ExecutionMeetsScanner(
      takerBps: Symbol -> real, exchange: Exchange, t: Triangle, books: Books, stale: Symbol -> bool, probe: real,
      reverse: bool, venues: seq<Venue>)
    requires 0.0 < probe && t.b != t.c
    requires EvaluateCycle(takerBps, exchange, t, books, stale, probe, reverse).Some?
    requires |venues| == 3 && CompleteVenues(venues)
    ensures
      var c := EvaluateCycle(takerBps, exchange, t, books, stale, probe, reverse).value;
      && |Plan(c)| == 3
      && var end := Trade(c.exchange, Plan(c), probe, venues, []);
         end.Finished? && |end.fills| == 3 && end.inHand - probe >= c.endQuote - probe
  {
    var c := EvaluateCycle(takerBps, exchange, t, books, stale, probe, reverse).value;
    var plan := Plan(c);
    if reverse {
      assert c.direction[..2] == [t.a, t.c];
      assert c.direction[..2][1] != [t.a, t.b][1];
    }
    PlanChainsToEnd(c, probe, reverse);
    CompleteTradeBeatsReferences(c.exchange, plan, probe, venues, []);
  }

  lemma PlanChainsToEnd(c: Cycle, probe: real, reverse: bool)
    requires |Plan(c)| == 3 && Priced(Plan(c))
    requires
      Plan(c) ==
      if reverse then [Leg(c.pairCA, Buy, c.price1), Leg(c.pairCB, Sell, c.price2), Leg(c.pairBA, Sell, c.price3)]
      else [Leg(c.pairBA, Buy, c.price1), Leg(c.pairCB, Buy, c.price2), Leg(c.pairCA, Sell, c.price3)]
    ensures
      Chained(Plan(c), probe) ==
      if reverse then Times(Times(probe / c.price1, c.price2), c.price3) else Times(probe / c.price1 / c.price2, c.price3)
  {
    var p := Plan(c);
    var one := AtReference(p[0], probe);
    var two := AtReference(p[1], one);
    assert p[2..][1..] == [] && p[1..][1..] == p[2..] && p[0..] == p;
    assert p[2..][0] == p[2] && p[1..][0] == p[1];
    assert Chained(p[2..], two) == AtReference(p[2], two);
    assert Chained(p[1..], one) == Chained(p[2..], two);
    assert Chained(p, probe) == Chained(p[1..], one);
  }

  /** A venue that fills every order completely at exactly its limit. */
  ghost predicate ExactVenues(venues: seq<Venue>) {
    CompleteVenues(venues)
    && forall k, i: OrderIntent :: 0 <= k < |venues| && LimitOrder(i) && venues[k](i).Answered? ==>
         venues[k](i).state.avgFillPrice == i.price
  }

  /** Complete fills at exactly their reference prices end with exactly what those prices promise. */
  lemma {:induction false} ExactTradeMeetsReferences(
      exchange: Exchange, legs: seq<Leg>, inHand: real, venues: seq<Venue>, fills: seq<OrderState>)
    requires |venues| == |legs| && ExactVenues(venues) && 0.0 < inHand && Priced(legs)
    ensures
      var end := Trade(exchange, legs, inHand, venues, fills);
      end.Finished? && end.inHand == Chained(legs, inHand)
    decreases |legs|
  {
    if legs != [] {
      var leg := legs[0];
      assert leg in legs;
      AtReferenceMonotone(leg, inHand, inHand);
      var intent := LegOrder(exchange, leg, inHand);
      assert LimitOrder(intent) && FillsCompletely(intent, venues[0](intent));
      var s := venues[0](intent).state;
      TimesCommutes(leg.reference, inHand);
      assert Produced(s) == AtReference(leg, inHand);
      ExactTradeMeetsReferences(exchange, legs[1..], Produced(s), venues[1..], fills + [s]);
    }
  }

  /** The scanner's end quantity is what three complete fills at the tops really end with. */
  lemma ScannerPricesTheCycle(
      takerBps: Symbol -> real, exchange: Exchange, t: Triangle, books: Books, stale: Symbol -> bool, probe: real,
      reverse: bool, venues: seq<Venue>)
    requires 0.0 < probe && t.b != t.c
    requires EvaluateCycle(takerBps, exchange, t, books, stale, probe, reverse).Some?
    requires |venues| == 3 && ExactVenues(venues)
    ensures
      var c := EvaluateCycle(takerBps, exchange, t, books, stale, probe, reverse).value;
      && |Plan(c)| == 3
      && Trade(c.exchange, Plan(c), probe, venues, []).Finished?
      && Trade(c.exchange, Plan(c), probe, venues, []).inHand == c.endQuote
  {
    var c := EvaluateCycle(takerBps, exchange, t, books, stale, probe, reverse).value;
    if reverse {
      assert c.direction[..2] == [t.a, t.c];
      assert c.direction[..2][1] != [t.a, t.b][1];
    }
    PlanChainsToEnd(c, probe, reverse);
    ExactTradeMeetsReferences(c.exchange, Plan(c), probe, venues, []);
  }

  /** What one leg's answer means for the run: it goes on exactly with a positive fill that is neither
      rejected nor cancelled, with the quantity bought or the value of what was sold in hand. */
  lemma LegGoesOnIff(exchange: Exchange, legs: seq<Leg>, inHand: real, venues: seq<Venue>, fills: seq<OrderState>)
    requires |venues| == |legs| > 0 && 0.0 < legs[0].reference && 0.0 < inHand
    ensures
      var amount := if legs[0].side.Buy? then inHand / legs[0].reference else inHand;
      var a := venues[0](
                 OrderIntent(
                   exchange, legs[0].pair, legs[0].side, IocLimit, Some(legs[0].reference), amount, false));
      var end := Trade(exchange, legs, inHand, venues, fills);
      && (a.Raised? ==> end == Threw(fills))
      && (a.Answered? && (a.state.filled <= 0.0 || a.state.status in {Rejected, Cancelled}) ==> end == Failed(fills, a.state))
      && (a.Answered? && 0.0 < a.state.filled && a.state.status !in {Rejected, Cancelled} ==>
            var next := if legs[0].side.Buy? then a.state.filled
                        else Times(a.state.avgFillPrice.GetOr(0.0), a.state.filled);
            end == Trade(exchange, legs[1..], next, venues[1..], fills + [a.state]))
  {
    AtReferenceMonotone(legs[0], inHand, inHand);
  }

  // ---- Rollback ----

  type Holdings = map<Asset, real>

  function Have(h: Holdings, a: Asset): real {
    if a in h then h[a] else 0.0
  }

  /** What a fill does to the assets on the venue, before fees. */
  function After(h: Holdings, s: OrderState): Holdings {
    if s.side.Buy? then AddTo(AddTo(h, s.symbol.base, s.filled), s.symbol.quote, -s.Notional())
    else AddTo(AddTo(h, s.symbol.base, -s.filled), s.symbol.quote, s.Notional())
  }

  function AfterAll(h: Holdings, fills: seq<OrderState>): Holdings {
    if fills == [] then h else After(AfterAll(h, fills[..|fills| - 1]), fills[|fills| - 1])
  }

  ghost predicate AtLeast(g: Holdings, h: Holdings) {
    forall a: Asset :: Have(h, a) <= Have(g, a)
  }

  ghost predicate NoDebt(h: Holdings) {
    forall a: Asset :: 0.0 <= Have(h, a)
  }

  /** The whole of a fill taken back at its own average price or better. */
  ghost predicate Undoes(s: OrderState, r: OrderState) {
    && r.symbol == s.symbol && r.side != s.side && r.filled == s.filled >= 0.0
    && (if s.side.Buy? then s.Notional() <= r.Notional() else 0.0 <= r.Notional() <= s.Notional())
  }

  /** What a fill takes out of the holdings is there. */
  ghost predicate Affords(h: Holdings, s: OrderState) {
    if s.side.Buy? then s.Notional() <= Have(h, s.symbol.quote) else s.filled <= Have(h, s.symbol.base)
  }

  lemma UndoneLeg(h: Holdings, g: Holdings, s: OrderState, r: OrderState)
    requires s.symbol.base != s.symbol.quote && Undoes(s, r)
    requires NoDebt(h) && AtLeast(g, After(h, s))
    ensures Affords(g, r) && AtLeast(After(g, r), h)
  {
    var base, quote := s.symbol.base, s.symbol.quote;
    assert Have(After(h, s), base) <= Have(g, base) && Have(After(h, s), quote) <= Have(g, quote);
    assert 0.0 <= Have(h, base) && 0.0 <= Have(h, quote);
    forall a: Asset
      ensures Have(h, a) <= Have(After(g, r), a)
    {
      assert Have(After(h, s), a) <= Have(g, a);
    }
  }

  /** Fills that can all be paid for as they happen. */
  ghost predicate NeverInDebt(h: Holdings, fills: seq<OrderState>) {
    forall n :: 0 <= n <= |fills| ==> NoDebt(AfterAll(h, fills[..n]))
  }

  ghost predicate UndoesAll(fills: seq<OrderState>, rs: seq<OrderState>) {
    |rs| == |fills| && forall k :: 0 <= k < |rs| ==> Undoes(fills[|fills| - 1 - k], rs[k])
  }

  /** Holdings after trades made one after the other, the first of the sequence first. */
  function Unwind(g: Holdings, rs: seq<OrderState>): Holdings
    decreases |rs|
  {
    if rs == [] then g else Unwind(After(g, rs[0]), rs[1..])
  }

  /** Each trade can be paid for when its turn comes. */
  ghost predicate AllAfforded(g: Holdings, rs: seq<OrderState>)
    decreases |rs|
  {
    rs == [] || (Affords(g, rs[0]) && AllAfforded(After(g, rs[0]), rs[1..]))
  }

  /** Last-in-first-out reversal is covered and lossless before fees: if every reverse leg fills
      completely at the price of the leg it undoes or better, none needs more of an asset than is
      held when its turn comes, and every asset ends at or above where it started. */
  lemma {:induction false} LifoRollbackIsLossless(h: Holdings, g: Holdings, fills: seq<OrderState>, rs: seq<OrderState>)
    requires forall s :: s in fills ==> s.symbol.base != s.symbol.quote
    requires NeverInDebt(h, fills) && UndoesAll(fills, rs) && AtLeast(g, AfterAll(h, fills))
    ensures AllAfforded(g, rs) && AtLeast(Unwind(g, rs), h)
    decreases |fills|
  {
    if fills != [] {
      var init, last := fills[..|fills| - 1], fills[|fills| - 1];
      assert last in fills && forall s :: s in init ==> s in fills;
      assert forall n :: 0 <= n <= |init| ==> init[..n] == fills[..n];
      assert NoDebt(AfterAll(h, fills[..|fills| - 1]));
      assert Undoes(fills[|fills| - 1 - 0], rs[0]);
      UndoneLeg(AfterAll(h, init), g, last, rs[0]);
      RestUndoes(fills, rs);
      LifoRollbackIsLossless(h, After(g, rs[0]), init, rs[1..]);
    }
  }

  lemma RestUndoes(fills: seq<OrderState>, rs: seq<OrderState>)
    requires UndoesAll(fills, rs) && fills != []
    ensures UndoesAll(fills[..|fills| - 1], rs[1..])
  {
    var init, rest := fills[..|fills| - 1], rs[1..];
    forall k | 0 <= k < |rest|
      ensures Undoes(init[|init| - 1 - k], rest[k])
    {
      assert Undoes(fills[|fills| - 1 - (k + 1)], rs[k + 1]);
    }
  }

  ghost predicate Reversible(s: OrderState) {
    0.0 < s.filled && s.avgFillPrice.Some? && 0.0 < s.avgFillPrice.value
  }

  lemma FillIsReversed(exchange: Exchange, s: OrderState, venues: seq<Venue>)
    requires Reversible(s) && venues != [] && CompleteVenues(venues)
    ensures
      var a := venues[0](ReverseOrder(exchange, s));
      a.Answered? && Undoes(s, a.state)
  {
    var order := ReverseOrder(exchange, s);
    assert LimitOrder(order) && FillsCompletely(order, venues[0](order));
    ReversePriceNoWorse(s, venues[0](order).state);
  }

  /** The reversal a failed run performs is of that shape when its venues fill the reverse orders
      completely within their limits. */
  lemma {:induction false} ReversalUndoesAll(exchange: Exchange, fills: seq<OrderState>, venues: seq<Venue>)
    requires |venues| == |fills| && CompleteVenues(venues)
    requires forall s :: s in fills ==> Reversible(s)
    ensures
      var rs := Reversal(exchange, fills, venues);
      && |rs| == |fills|
      && forall k :: 0 <= k < |rs| ==> rs[k].Answered? && Undoes(fills[|fills| - 1 - k], rs[k].state)
  {
    if fills != [] {
      var init, last := fills[..|fills| - 1], fills[|fills| - 1];
      assert last in fills && forall s :: s in init ==> s in fills;
      FillIsReversed(exchange, last, venues);
      CompleteVenuesTail(venues);
      ReversalUndoesAll(exchange, init, venues[1..]);
      var rest := Reversal(exchange, init, venues[1..]);
      var rs := Reversal(exchange, fills, venues);
      assert rs == [venues[0](ReverseOrder(exchange, last))] + rest;
      forall k | 0 <= k < |rs|
        ensures rs[k].Answered? && Undoes(fills[|fills| - 1 - k], rs[k].state)
      {
        if k > 0 {
          assert rs[k] == rest[k - 1] && fills[|fills| - 1 - k] == init[|init| - 1 - (k - 1)];
        }
      }
    }
  }

  lemma CompleteVenuesTail(venues: seq<Venue>)
    requires venues != [] && CompleteVenues(venues)
    ensures CompleteVenues(venues[1..])
  {
    forall k, i: OrderIntent | 0 <= k < |venues[1..]| && LimitOrder(i)
      ensures FillsCompletely(i, venues[1..][k](i))
    {
      assert FillsCompletely(i, venues[k + 1](i));
    }
  }

  lemma ReversePriceNoWorse(s: OrderState, r: OrderState)
    requires 0.0 < s.filled == r.filled && s.avgFillPrice.Some? && r.avgFillPrice.Some?
    requires 0.0 <= r.avgFillPrice.value && r.side != s.side && r.symbol == s.symbol
    requires NoWorse(r.side, r.avgFillPrice.value, s.avgFillPrice.value)
    ensures Undoes(s, r)
  {
    TimesMono(s.filled, 0.0, r.avgFillPrice.value);
    if s.side.Buy? {
      TimesMono(s.filled, s.avgFillPrice.value, r.avgFillPrice.value);
    } else {
      TimesMono(s.filled, r.avgFillPrice.value, s.avgFillPrice.value);
    }
  }

  /** The order that reverses a fill: the same pair and quantity on the other side, at the fill's own
      average, immediate or cancelled, and marked as corrective. */
  lemma ReverseOrderMirrors(exchange: Exchange, s: OrderState)
    ensures
      var i := ReverseOrder(exchange, s);
      && i.exchange == exchange && i.symbol == s.symbol && i.side != s.side && i.amount == s.filled
      && i.price == s.avgFillPrice && i.orderType == IocLimit && i.isRepair
  {}

  // ---- A failed run, reversed ----

  function SpentAsset(s: OrderState): Asset {
    if s.side.Buy? then s.symbol.quote else s.symbol.base
  }

  function ProducedAsset(s: OrderState): Asset {
    if s.side.Buy? then s.symbol.base else s.symbol.quote
  }

  /** The asset a leg consumes, and the one it produces. */
  function LegTakes(l: Leg): Asset { if l.side.Buy? then l.pair.quote else l.pair.base }
  function LegGives(l: Leg): Asset { if l.side.Buy? then l.pair.base else l.pair.quote }

  /** Each leg consumes what the one before produced, starting from `start`. */
  ghost predicate Linked(start: Asset, legs: seq<Leg>)
    decreases |legs|
  {
    legs == [] ||
    (LegTakes(legs[0]) == start && LegGives(legs[0]) != start && Linked(LegGives(legs[0]), legs[1..]))
  }

  /** A fill that spends no more than is held leaves no debt, and what it produced is held. */
  lemma FillLeavesNoDebt(h: Holdings, s: OrderState, inHand: real)
    requires NoDebt(h) && s.symbol.base != s.symbol.quote
    requires Spent(s) <= inHand <= Have(h, SpentAsset(s)) && 0.0 <= Produced(s)
    ensures NoDebt(After(h, s)) && Produced(s) <= Have(After(h, s), ProducedAsset(s))
  {
    assert 0.0 <= Have(h, ProducedAsset(s));
    forall a: Asset
      ensures 0.0 <= Have(After(h, s), a)
    {
      assert 0.0 <= Have(h, a);
    }
  }

  ghost predicate GoodFill(s: OrderState) {
    0.0 < s.filled && s.avgFillPrice.Some? && 0.0 < s.avgFillPrice.value && s.symbol.base != s.symbol.quote
  }

  /** The fill of an order for a priced leg, on a limit-respecting venue, is a good one for that leg. */
  lemma FillOfLegIsGood(exchange: Exchange, leg: Leg, inHand: real, s: OrderState)
    requires 0.0 < leg.reference && 0.0 < LegAmount(leg, inHand) && LegTakes(leg) != LegGives(leg)
    requires RespectsLimit(LegOrder(exchange, leg, inHand), Answered(s)) && !LegFailed(s)
    ensures GoodFill(s) && s.symbol == leg.pair && s.side == leg.side
    ensures SpentAsset(s) == LegTakes(leg) && ProducedAsset(s) == LegGives(leg)
    ensures Spent(s) <= inHand && 0.0 < Spent(s) && 0.0 < Produced(s)
  {
    LegSpendsAtMostInHand(exchange, leg, inHand, s);
    TimesStrict(s.filled, 0.0, s.avgFillPrice.value);
  }

  /** One leg keeps the holdings out of debt, and what it produced is held. */
  lemma LegLeavesNoDebt(
      exchange: Exchange, leg: Leg, inHand: real, h: Holdings, fills: seq<OrderState>, s: OrderState)
    requires 0.0 < leg.reference && 0.0 < LegAmount(leg, inHand) && LegTakes(leg) != LegGives(leg)
    requires RespectsLimit(LegOrder(exchange, leg, inHand), Answered(s)) && !LegFailed(s)
    requires NeverInDebt(h, fills) && inHand <= Have(AfterAll(h, fills), LegTakes(leg))
    ensures GoodFill(s) && NeverInDebt(h, fills + [s])
    ensures Produced(s) <= Have(AfterAll(h, fills + [s]), LegGives(leg))
  {
    FillOfLegIsGood(exchange, leg, inHand, s);
    assert fills[..|fills|] == fills && NoDebt(AfterAll(h, fills[..|fills|]));
    FillLeavesNoDebt(AfterAll(h, fills), s, inHand);
    DebtFreeAppend(h, fills, s);
  }

  /** What the venue answers to the order of a priced leg respects its limit. */
  lemma LegOrderIsRespected(exchange: Exchange, legs: seq<Leg>, inHand: real, venues: seq<Venue>)
    requires |venues| == |legs| > 0 && LimitVenues(venues) && Priced(legs) && 0.0 < LegAmount(legs[0], inHand)
    ensures 0.0 < legs[0].reference
    ensures RespectsLimit(LegOrder(exchange, legs[0], inHand), venues[0](LegOrder(exchange, legs[0], inHand)))
  {
    assert legs[0] in legs;
    assert LimitOrder(LegOrder(exchange, legs[0], inHand));
  }

  ghost predicate AllGood(fills: seq<OrderState>) {
    forall s :: s in fills ==> GoodFill(s)
  }

  /** Linked legs on limit-respecting venues never run the venue's holdings into debt. */
  lemma {:induction false} TradeLeavesNoDebt(
      exchange: Exchange, legs: seq<Leg>, start: Asset, inHand: real, venues: seq<Venue>, h: Holdings, fills: seq<OrderState>)
    requires |venues| == |legs| && LimitVenues(venues) && Priced(legs) && Linked(start, legs)
    requires NeverInDebt(h, fills) && inHand <= Have(AfterAll(h, fills), start)
    requires AllGood(fills)
    ensures NeverInDebt(h, Trade(exchange, legs, inHand, venues, fills).fills)
    ensures AllGood(Trade(exchange, legs, inHand, venues, fills).fills)
    decreases |legs|
  {
    if legs != [] && LegAmount(legs[0], inHand) > 0.0 {
      LegOrderIsRespected(exchange, legs, inHand, venues);
      var answer := venues[0](LegOrder(exchange, legs[0], inHand));
      if answer.Answered? && !LegFailed(answer.state) {
        var s := answer.state;
        LegLeavesNoDebt(exchange, legs[0], inHand, h, fills, s);
        TradeLeavesNoDebt(exchange, legs[1..], LegGives(legs[0]), Produced(s), venues[1..], h, fills + [s]);
      }
    }
  }

  lemma DebtFreeAppend(h: Holdings, fills: seq<OrderState>, s: OrderState)
    requires NeverInDebt(h, fills) && NoDebt(After(AfterAll(h, fills), s))
    ensures NeverInDebt(h, fills + [s]) && AfterAll(h, fills + [s]) == After(AfterAll(h, fills), s)
  {
    var longer := fills + [s];
    assert longer[..|fills|] == fills && longer[..|longer|] == longer;
    forall n | 0 <= n <= |longer|
      ensures NoDebt(AfterAll(h, longer[..n]))
    {
      if n <= |fills| {
        assert longer[..n] == fills[..n];
      }
    }
  }

  /** A run whose failing leg filled nothing is undone without loss before fees: started with the
      probe in hand on limit-respecting venues, and reversed on venues that fill completely within
      their limits, it never needs more of an asset than is held and leaves every asset at or above
      where it started. */
  lemma FailedRunIsRestored(
      c: Cycle, probe: real, venues: seq<Venue>, later: seq<Venue>, h: Holdings, start: Asset)
    requires |venues| == |Plan(c)| && LimitVenues(venues) && Priced(Plan(c)) && Linked(start, Plan(c))
    requires NoDebt(h) && probe <= Have(h, start)
    requires Trade(c.exchange, Plan(c), probe, venues, []).Failed?
    requires Trade(c.exchange, Plan(c), probe, venues, []).failing.filled == 0.0
    requires |later| == |Trade(c.exchange, Plan(c), probe, venues, []).fills| && CompleteVenues(later)
    ensures
      var end := Trade(c.exchange, Plan(c), probe, venues, []);
      var held := After(AfterAll(h, end.fills), end.failing);
      var answers := Reversal(c.exchange, end.fills, later);
      && |answers| == |end.fills| && (forall k :: 0 <= k < |answers| ==> answers[k].Answered?)
      && AllAfforded(held, States(answers))
      && AtLeast(Unwind(held, States(answers)), h)
  {
    var end := Trade(c.exchange, Plan(c), probe, venues, []);
    var fills := end.fills;
    var none: seq<OrderState> := [];
    assert none[..0] == none;
    TradeLeavesNoDebt(c.exchange, Plan(c), start, probe, venues, h, none);
    ReversalUndoesAll(c.exchange, fills, later);
    var held := After(AfterAll(h, fills), end.failing);
    forall a: Asset
      ensures Have(held, a) == Have(AfterAll(h, fills), a)
    {
      ChangeOf(AfterAll(h, fills), end.failing, a);
    }
    LifoRollbackIsLossless(h, held, fills, States(Reversal(c.exchange, fills, later)));
  }

  /** The order states of answers. */
  function States(answers: seq<Answer>): seq<OrderState>
    requires forall k :: 0 <= k < |answers| ==> answers[k].Answered?
  {
    seq(|answers|, k requires 0 <= k < |answers| => answers[k].state)
  }

  /** Both directions of a scanned cycle are priced and linked from the quote asset it starts in. */
  lemma ScannedPlanIsLinked(
      takerBps: Symbol -> real, exchange: Exchange, t: Triangle, books: Books, stale: Symbol -> bool, probe: real, reverse: bool)
    requires t.a != t.b && t.b != t.c && t.a != t.c
    requires EvaluateCycle(takerBps, exchange, t, books, stale, probe, reverse).Some?
    ensures
      var c := EvaluateCycle(takerBps, exchange, t, books, stale, probe, reverse).value;
      |Plan(c)| == 3 && Priced(Plan(c)) && Linked(t.a, Plan(c)) && Simple(t.a, Plan(c))
  {
    var c := EvaluateCycle(takerBps, exchange, t, books, stale, probe, reverse).value;
    if reverse {
      assert c.direction[..2][1] != [t.a, t.b][1];
    } else {
      assert c.direction[..2] == [t.a, t.b];
    }
    var p := Plan(c);
    assert p[1..][1..] == p[2..] && p[2..][1..] == [];
    assert Linked(LegGives(p[1]), p[2..]);
    assert Linked(LegGives(p[0]), p[1..]);
  }

  /** The failing leg's own fill is never reversed: the fills handed to the reversal are those of the
      legs before it, so assets are restored only when it filled nothing.  Here a second leg is
      cancelled after a partial fill, and even a perfect reversal of the first cannot be paid for. */
  lemma PartialFailingLegIsNotReversed()
    ensures
      var ba, cb := Symbol("B", "A"), Symbol("C", "B");
      var first := OrderState("x", ba, Buy, 1.0, 0.0, Some(100.0), Filled, None, false);
      var second := OrderState("x", cb, Buy, 2.0, 2.0, Some(0.25), Cancelled, None, false);
      var undo := OrderState("x", ba, Sell, 1.0, 0.0, Some(100.0), Filled, None, true);
      var legs := [Leg(ba, Buy, 100.0), Leg(cb, Buy, 0.25), Leg(Symbol("C", "A"), Sell, 26.0)];
      var venues: seq<Venue> := [_ => Answered(first), _ => Answered(second), _ => Raised];
      var start := map["A" := 100.0];
      && Trade("x", legs, 100.0, venues, []) == Failed([first], second)
      && Undoes(first, undo)
      && !Affords(AfterAll(start, [first, second]), undo)
  {
    var ba, cb := Symbol("B", "A"), Symbol("C", "B");
    var first := OrderState("x", ba, Buy, 1.0, 0.0, Some(100.0), Filled, None, false);
    var second := OrderState("x", cb, Buy, 2.0, 2.0, Some(0.25), Cancelled, None, false);
    var start := map["A" := 100.0];
    var fills := [first, second];
    assert fills[..1] == [first] && [first][..0] == [];
    assert AfterAll(start, [first]) == After(start, first);
    assert Have(After(start, first), "B") == 1.0;
    assert second.Notional() == 0.5;
    assert Have(AfterAll(start, fills), "B") == 0.5;
    var legs := [Leg(ba, Buy, 100.0), Leg(cb, Buy, 0.25), Leg(Symbol("C", "A"), Sell, 26.0)];
    var venues: seq<Venue> := [_ => Answered(first), _ => Answered(second), _ => Raised];
    assert [] + [first] == [first];
    assert legs[1..][0] == legs[1] && venues[1..][0] == venues[1];
    assert Trade("x", legs[1..], 1.0, venues[1..], [first]) == Failed([first], second);
  }

  /** The whole of a fill taken back at exactly its own average price. */
  ghost predicate ExactlyUndoes(s: OrderState, r: OrderState) {
    r.symbol == s.symbol && r.side != s.side && r.filled == s.filled && r.Notional() == s.Notional()
  }

  /** What a fill adds to one asset. */
  function Change(s: OrderState, a: Asset): real {
    (if a == s.symbol.base then (if s.side.Buy? then s.filled else -s.filled) else 0.0)
    + (if a == s.symbol.quote then (if s.side.Buy? then -s.Notional() else s.Notional()) else 0.0)
  }

  lemma ChangeOf(h: Holdings, s: OrderState, a: Asset)
    ensures Have(After(h, s), a) == Have(h, a) + Change(s, a)
  {}

  /** Exact reversals take every asset back by exactly what the fills moved. */
  lemma {:induction false} ExactReversalCancels(
      h: Holdings, g: Holdings, fills: seq<OrderState>, rs: seq<OrderState>, a: Asset)
    requires |rs| == |fills| && forall k :: 0 <= k < |rs| ==> ExactlyUndoes(fills[|fills| - 1 - k], rs[k])
    ensures Have(Unwind(g, rs), a) - Have(g, a) == Have(h, a) - Have(AfterAll(h, fills), a)
    decreases |fills|
  {
    if fills != [] {
      var init, last := fills[..|fills| - 1], fills[|fills| - 1];
      assert ExactlyUndoes(fills[|fills| - 1 - 0], rs[0]);
      forall k | 0 <= k < |rs[1..]|
        ensures ExactlyUndoes(init[|init| - 1 - k], rs[1..][k])
      {
        assert ExactlyUndoes(fills[|fills| - 1 - (k + 1)], rs[k + 1]);
      }
      ChangeOf(AfterAll(h, init), last, a);
      ChangeOf(g, rs[0], a);
      ExactReversalCancels(h, After(g, rs[0]), init, rs[1..], a);
    }
  }

  /** Exactly when a failed run is made good: reversed at the prices of its fills, every asset is
      back where it started if and only if the leg that failed had filled nothing. */
  lemma RestoredIffFailingLegFilledNothing(h: Holdings, fills: seq<OrderState>, failing: OrderState, rs: seq<OrderState>)
    requires |rs| == |fills| && forall k :: 0 <= k < |rs| ==> ExactlyUndoes(fills[|fills| - 1 - k], rs[k])
    requires failing.symbol.base != failing.symbol.quote && 0.0 <= failing.filled
    requires 0.0 < failing.filled ==> failing.avgFillPrice.Some? && 0.0 < failing.avgFillPrice.value
    ensures AtLeast(Unwind(After(AfterAll(h, fills), failing), rs), h) <==> failing.filled == 0.0
  {
    var g := After(AfterAll(h, fills), failing);
    forall a: Asset
      ensures Have(Unwind(g, rs), a) == Have(h, a) + Change(failing, a)
    {
      ExactReversalCancels(h, g, fills, rs, a);
      ChangeOf(AfterAll(h, fills), failing, a);
    }
    if failing.filled > 0.0 {
      TimesStrict(failing.filled, 0.0, failing.avgFillPrice.value);
      assert Have(Unwind(g, rs), SpentAsset(failing)) < Have(h, SpentAsset(failing));
    }
  }

  // ---- A run that raised ----

  /** Fill by fill, what was traded is what the legs asked for. */
  ghost predicate FollowsLegs(legs: seq<Leg>, fills: seq<OrderState>) {
    && |fills| <= |legs|
    && forall k :: 0 <= k < |fills| ==> GoodFill(fills[k]) && fills[k].symbol == legs[k].pair && fills[k].side == legs[k].side
  }

  lemma {:induction false} TradeFollowsLegs(
      exchange: Exchange, all: seq<Leg>, done: nat, start: Asset, inHand: real, venues: seq<Venue>, fills: seq<OrderState>)
    requires done == |fills| <= |all| && |venues| == |all| - done && LimitVenues(venues)
    requires Priced(all[done..]) && Linked(start, all[done..]) && FollowsLegs(all, fills)
    ensures
      var end := Trade(exchange, all[done..], inHand, venues, fills);
      FollowsLegs(all, end.fills) && (end.Threw? ==> |end.fills| < |all|)
    decreases |venues|
  {
    var legs := all[done..];
    if legs != [] && LegAmount(legs[0], inHand) > 0.0 {
      LegOrderIsRespected(exchange, legs, inHand, venues);
      var answer := venues[0](LegOrder(exchange, legs[0], inHand));
      if answer.Answered? && !LegFailed(answer.state) {
        FillOfLegIsGood(exchange, legs[0], inHand, answer.state);
        assert legs[1..] == all[done + 1..];
        TradeFollowsLegs(
          exchange, all, done + 1, LegGives(legs[0]), Produced(answer.state), venues[1..], fills + [answer.state]);
      }
    }
  }

  /** Legs that produce different assets, and the one they started from at most at the very end. */
  ghost predicate Simple(start: Asset, legs: seq<Leg>) {
    && (forall i, j :: 0 <= i < j < |legs| ==> LegGives(legs[i]) != LegGives(legs[j]))
    && (forall i :: 0 <= i < |legs| - 1 ==> LegGives(legs[i]) != start)
  }

  lemma {:induction false} LinkedAt(start: Asset, legs: seq<Leg>, i: nat)
    requires Linked(start, legs) && i < |legs|
    ensures LegTakes(legs[i]) == (if i == 0 then start else LegGives(legs[i - 1])) != LegGives(legs[i])
    decreases |legs|
  {
    if i > 0 {
      LinkedAt(LegGives(legs[0]), legs[1..], i - 1);
    }
  }

  /** If one fill alone touches an asset, the holdings of it move by that fill. */
  lemma {:induction false} OneFillMoves(h: Holdings, fills: seq<OrderState>, a: Asset, k: nat)
    requires forall i :: 0 <= i < |fills| && i != k ==> a != fills[i].symbol.base && a != fills[i].symbol.quote
    ensures Have(AfterAll(h, fills), a) == Have(h, a) + (if k < |fills| then Change(fills[k], a) else 0.0)
  {
    if fills != [] {
      var init, last := fills[..|fills| - 1], fills[|fills| - 1];
      ChangeOf(AfterAll(h, init), last, a);
      OneFillMoves(h, init, a, k);
    }
  }

  lemma LegAssets(l: Leg, a: Asset)
    ensures (a == l.pair.base || a == l.pair.quote) <==> (a == LegTakes(l) || a == LegGives(l))
  {}

  /** A submission that raises leaves the cycle open: nothing is reversed, the starting asset is short
      of what the first leg spent, and what the last leg produced is held.  Every asset is where it
      was exactly when no leg had filled. */
  lemma ThrownRunLeavesItsPosition(
      exchange: Exchange, legs: seq<Leg>, start: Asset, probe: real, venues: seq<Venue>, h: Holdings)
    requires |venues| == |legs| && LimitVenues(venues) && Priced(legs) && Linked(start, legs) && Simple(start, legs)
    requires Trade(exchange, legs, probe, venues, []).Threw?
    ensures
      var fills := Trade(exchange, legs, probe, venues, []).fills;
      var held := AfterAll(h, fills);
      && |fills| < |legs|
      && (fills != [] ==>
            && Have(held, start) == Have(h, start) - Spent(fills[0])
            && var got := LegGives(legs[|fills| - 1]);
               Have(held, got) == Have(h, got) + Produced(fills[|fills| - 1]))
      && (AtLeast(held, h) <==> fills == [])
  {
    var fills := Trade(exchange, legs, probe, venues, []).fills;
    var none: seq<OrderState> := [];
    assert legs[0..] == legs;
    TradeFollowsLegs(exchange, legs, 0, start, probe, venues, none);
    if fills != [] {
      var last := |fills| - 1;
      AssetsOfFills(start, legs, fills);
      OneFillMoves(h, fills, start, 0);
      OneFillMoves(h, fills, LegGives(legs[last]), last);
      OpenCycleChanges(start, legs, fills);
      assert Have(AfterAll(h, fills), start) < Have(h, start);
    }
  }

  /** Before the cycle closes, only the first fill touches the starting asset and only the last one
      what it produced. */
  lemma AssetsOfFills(start: Asset, legs: seq<Leg>, fills: seq<OrderState>)
    requires Linked(start, legs) && Simple(start, legs) && FollowsLegs(legs, fills) && 0 < |fills| < |legs|
    ensures forall i :: 0 < i < |fills| ==> start != fills[i].symbol.base && start != fills[i].symbol.quote
    ensures
      var got := LegGives(legs[|fills| - 1]);
      forall i :: 0 <= i < |fills| - 1 ==> got != fills[i].symbol.base && got != fills[i].symbol.quote
  {
    var got := LegGives(legs[|fills| - 1]);
    forall i | 0 <= i < |fills|
      ensures i != 0 ==> start != fills[i].symbol.base && start != fills[i].symbol.quote
      ensures i != |fills| - 1 ==> got != fills[i].symbol.base && got != fills[i].symbol.quote
    {
      LinkedAt(start, legs, i);
      LegAssets(legs[i], start);
      LegAssets(legs[i], got);
    }
  }

  lemma OpenCycleChanges(start: Asset, legs: seq<Leg>, fills: seq<OrderState>)
    requires Linked(start, legs) && FollowsLegs(legs, fills) && 0 < |fills| <= |legs|
    ensures Change(fills[0], start) == -Spent(fills[0]) < 0.0
    ensures Change(fills[|fills| - 1], LegGives(legs[|fills| - 1])) == Produced(fills[|fills| - 1])
  {
    LinkedAt(start, legs, 0);
    LinkedAt(start, legs, |fills| - 1);
    TimesStrict(fills[0].filled, 0.0, fills[0].avgFillPrice.value);
  }

  /** A report says completed for a run that finished and also for one that ran dry. */
  predicate ReportsCompleted(end: Ending) {
    end.Finished? || end.Dry?
  }

  /** The last of the legs traded was a sale for which no positive price was reported, and legs
      remain. */
  ghost predicate StrandedBySale(legs: seq<Leg>, fills: seq<OrderState>, end: Ending) {
    var n := |end.fills| - |fills|;
    && 0 < n < |legs|
    && legs[n - 1].side.Sell?
    && end.fills[|end.fills| - 1].avgFillPrice.GetOr(0.0) <= 0.0
  }

  /** Exactly when a run with positive reference prices runs dry, whatever the venues answer: its last
      fill was a sale without a positive price, before the last leg. */
  lemma {:induction false} RunsDryIff(
      exchange: Exchange, legs: seq<Leg>, inHand: real, venues: seq<Venue>, fills: seq<OrderState>)
    requires |venues| == |legs| && 0.0 < inHand && Priced(legs)
    ensures
      var end := Trade(exchange, legs, inHand, venues, fills);
      && fills <= end.fills && |end.fills| <= |fills| + |legs|
      && (end.Finished? ==> |end.fills| == |fills| + |legs|)
      && (end.Dry? <==> StrandedBySale(legs, fills, end))
    decreases |legs|
  {
    if legs != [] {
      var leg := legs[0];
      assert leg in legs;
      AtReferenceMonotone(leg, inHand, inHand);
      var answer := venues[0](LegOrder(exchange, leg, inHand));
      if answer.Answered? && !LegFailed(answer.state) {
        var s := answer.state;
        var carried := if leg.side.Buy? then s.filled else s.Notional();
        SaleCarriesItsPrice(s);
        if carried > 0.0 {
          RunsDryIff(exchange, legs[1..], carried, venues[1..], fills + [s]);
        } else if |legs| > 1 {
          assert legs[1] in legs;
          NothingInHandIsDry(legs[1], carried);
        }
      }
    }
  }

  lemma SaleCarriesItsPrice(s: OrderState)
    requires 0.0 < s.filled
    ensures s.Notional() <= 0.0 <==> s.avgFillPrice.GetOr(0.0) <= 0.0
  {
    var price := s.avgFillPrice.GetOr(0.0);
    if price > 0.0 {
      TimesStrict(s.filled, 0.0, price);
    } else {
      TimesMono(s.filled, price, 0.0);
    }
  }

  lemma NothingInHandIsDry(leg: Leg, inHand: real)
    requires 0.0 < leg.reference && inHand <= 0.0
    ensures LegAmount(leg, inHand) <= 0.0
  {
    DivCompare(inHand, leg.reference, 0.0, 1.0);
  }

  /** Exactly when a run is reported completed with legs never sent. */
  lemma CompletedMissesLegsIff(
      exchange: Exchange, legs: seq<Leg>, inHand: real, venues: seq<Venue>, fills: seq<OrderState>)
    requires |venues| == |legs| && 0.0 < inHand && Priced(legs)
    ensures
      var end := Trade(exchange, legs, inHand, venues, fills);
      ReportsCompleted(end) && |end.fills| != |fills| + |legs| <==> StrandedBySale(legs, fills, end)
  {
    RunsDryIff(exchange, legs, inHand, venues, fills);
  }

  /** A venue that reports a positive price with every positive fill. */
  ghost predicate PricesFills(venue: Venue) {
    forall i: OrderIntent :: 0.0 <= i.amount && venue(i).Answered? && 0.0 < venue(i).state.filled
      ==> venue(i).state.avgFillPrice.Some? && 0.0 < venue(i).state.avgFillPrice.value
  }

  lemma {:induction false} TradedFillsArePriced(
      exchange: Exchange, legs: seq<Leg>, inHand: real, venues: seq<Venue>, fills: seq<OrderState>)
    requires |venues| == |legs| && forall k :: 0 <= k < |venues| ==> PricesFills(venues[k])
    ensures
      var end := Trade(exchange, legs, inHand, venues, fills);
      |fills| < |end.fills| ==> end.fills[|end.fills| - 1].avgFillPrice.GetOr(0.0) > 0.0
    ensures |fills| <= |Trade(exchange, legs, inHand, venues, fills).fills|
    ensures |Trade(exchange, legs, inHand, venues, fills).fills| == |fills| ==> Trade(exchange, legs, inHand, venues, fills).fills == fills
    decreases |legs|
  {
    if legs != [] && LegAmount(legs[0], inHand) > 0.0 {
      var leg := legs[0];
      assert PricesFills(venues[0]);
      var answer := venues[0](LegOrder(exchange, leg, inHand));
      if answer.Answered? && !LegFailed(answer.state) {
        var carried := if leg.side.Buy? then answer.state.filled else answer.state.Notional();
        TradedFillsArePriced(exchange, legs[1..], carried, venues[1..], fills + [answer.state]);
      }
    }
  }

  /** With positive reference prices and venues that price what they fill, completed means that every
      leg traded. */
  lemma CompletedMeansAllLegs(
      exchange: Exchange, legs: seq<Leg>, inHand: real, venues: seq<Venue>, fills: seq<OrderState>)
    requires |venues| == |legs| && 0.0 < inHand && Priced(legs)
    requires forall k :: 0 <= k < |venues| ==> PricesFills(venues[k])
    ensures
      var end := Trade(exchange, legs, inHand, venues, fills);
      ReportsCompleted(end) ==> end.Finished? && |end.fills| == |fills| + |legs|
  {
    RunsDryIff(exchange, legs, inHand, venues, fills);
    TradedFillsArePriced(exchange, legs, inHand, venues, fills);
  }

  /** Without a reported price, a run can be reported completed with a leg never sent and the whole
      probe gone. */
  lemma UnpricedSaleReportsCompleted()
    ensures
      var pair, last := Symbol("C", "B"), Symbol("B", "A");
      var sold := OrderState("x", pair, Sell, 4.0, 0.0, None, Filled, None, false);
      var legs := [Leg(pair, Sell, 0.25), Leg(last, Sell, 100.0)];
      var venues: seq<Venue> := [_ => Answered(sold), _ => Raised];
      var end := Trade("x", legs, 4.0, venues, []);
      ReportsCompleted(end) && |end.fills| == 1 && end.inHand == 0.0
  {
    var pair, last := Symbol("C", "B"), Symbol("B", "A");
    var sold := OrderState("x", pair, Sell, 4.0, 0.0, None, Filled, None, false);
    var legs := [Leg(pair, Sell, 0.25), Leg(last, Sell, 100.0)];
    var venues: seq<Venue> := [_ => Answered(sold), _ => Raised];
    assert [] + [sold] == [sold] && legs[1..][0] == legs[1];
    assert sold.Notional() == 0.0;
    assert Trade("x", legs[1..], 0.0, venues[1..], [sold]) == Dry(0.0, [sold]);
  }
}
