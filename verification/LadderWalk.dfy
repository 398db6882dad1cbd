/** What it means to take a quantity out of a ladder.  The repository walks ladders in four places
    (two VWAP loops, one paper-fill loop, one filtered sum); this module is the one specification
    they are all held to, and the place where its shape is studied. */
module LadderWalk {
  import opened Prelude
  import opened OrderBook

  /** A quantity taken out of a ladder and what it cost (or earned). */
  datatype Taken = Taken(qty: real, cost: real)

  /** Take `amount` from the top of the ladder, level by level. */
  function Walk(ls: Ladder, amount: real): Taken {
    if ls == [] || amount <= 0.0 then Taken(0.0, 0.0)
    else
      var take := Min(amount, ls[0].size);
      var rest := Walk(ls[1..], amount - take);
      Taken(take + rest.qty, Times(take, ls[0].price) + rest.cost)
  }

  /** Total size on a ladder. */
  function Depth(ls: Ladder): real {
    if ls == [] then 0.0 else ls[0].size + Depth(ls[1..])
  }

  /** The levels at or better than an optional limit: the whole ladder when there is none. */
  function Eligible(side: Side, limit: Option<real>, ls: Ladder): Ladder {
    if ls == [] then []
    else
      var rest := Eligible(side, limit, ls[1..]);
      if limit.Some? && !NoWorse(side, ls[0].price, limit.value) then rest else [ls[0]] + rest
  }

  lemma {:induction false} DepthNonNegative(ls: Ladder)
    requires Positive(ls)
    ensures 0.0 <= Depth(ls)
    ensures ls != [] ==> 0.0 < Depth(ls)
  {
    if ls != [] {
      DepthNonNegative(ls[1..]);
    }
  }

  /** The quantity taken is the requested amount or all there is, whichever is less. */
  lemma {:induction false} WalkQuantity(ls: Ladder, amount: real)
    requires Positive(ls) && 0.0 <= amount
    ensures Walk(ls, amount).qty == Min(amount, Depth(ls))
  {
    DepthNonNegative(ls);
    if ls != [] && amount > 0.0 {
      var take := Min(amount, ls[0].size);
      DepthNonNegative(ls[1..]);
      WalkQuantity(ls[1..], amount - take);
    }
  }

  /** The total paid lies between the quantity at the lowest and at the highest price on offer. */
  lemma {:induction false} WalkPriceBounds(ls: Ladder, amount: real, lo: real, hi: real)
    requires Positive(ls) && 0.0 <= amount
    requires forall l :: l in ls ==> lo <= l.price <= hi
    ensures var t := Walk(ls, amount); Times(t.qty, lo) <= t.cost <= Times(t.qty, hi)
  {
    if ls != [] && amount > 0.0 {
      var take := Min(amount, ls[0].size);
      var rest := Walk(ls[1..], amount - take);
      assert ls[0] in ls;
      assert forall l :: l in ls[1..] ==> l in ls;
      WalkPriceBounds(ls[1..], amount - take, lo, hi);
      TimesMono(take, lo, ls[0].price);
      TimesMono(take, ls[0].price, hi);
      TimesAdd(take, rest.qty, lo);
      TimesAdd(take, rest.qty, hi);
    }
  }

  /** The ladder seen from the other side of the counter: prices negated. */
  function Mirror(ls: Ladder): (ms: Ladder)
    ensures |ms| == |ls|
    ensures forall i :: 0 <= i < |ls| ==> ms[i] == Level(-ls[i].price, ls[i].size)
  {
    seq(|ls|, i requires 0 <= i < |ls| => Level(-ls[i].price, ls[i].size))
  }

  lemma {:induction false} MirrorWalk(ls: Ladder, amount: real)
    ensures Walk(Mirror(ls), amount) == Taken(Walk(ls, amount).qty, -Walk(ls, amount).cost)
  {
    if ls != [] && amount > 0.0 {
      var take := Min(amount, ls[0].size);
      assert Mirror(ls)[1..] == Mirror(ls[1..]);
      MirrorWalk(ls[1..], amount - take);
      TimesNegate(take, ls[0].price);
    }
  }

  ghost predicate Ascending(ls: Ladder) {
    && (forall i, j :: 0 <= i < j < |ls| ==> ls[i].price <= ls[j].price)
    && (forall i :: 0 <= i < |ls| ==> ls[i].size > 0.0)
  }

  lemma {:induction false} AscendingFloor(ls: Ladder, amount: real, floor: real)
    requires Ascending(ls)
    requires ls != [] ==> floor <= ls[0].price
    ensures var t := Walk(ls, amount); 0.0 <= t.qty && Times(t.qty, floor) <= t.cost
  {
    if ls != [] && amount > 0.0 {
      var take := Min(amount, ls[0].size);
      AscendingFloor(ls[1..], amount - take, floor);
      TimesMono(take, floor, ls[0].price);
      TimesAdd(take, Walk(ls[1..], amount - take).qty, floor);
    }
  }

  /** `p` separates a smaller take from a larger one: nothing in the smaller costs more than `p`,
      nothing added by the larger costs less. */
  ghost predicate Margin(p: real, small: Taken, large: Taken) {
    && 0.0 <= small.qty <= large.qty
    && small.cost <= Times(small.qty, p)
    && Times(large.qty - small.qty, p) <= large.cost - small.cost
  }

  /** A take that ends inside the top level is separated by the price of that level. */
  lemma MarginInsideTop(ls: Ladder, a: real, b: real)
    requires Ascending(ls) && ls != [] && 0.0 <= a <= b && a <= ls[0].size
    ensures Margin(ls[0].price, Walk(ls, a), Walk(ls, b))
  {
    if b > 0.0 {
      var p := ls[0].price;
      var taken := Min(b, ls[0].size);
      var rest := Walk(ls[1..], b - taken);
      assert Walk(ls[1..], a - a) == Taken(0.0, 0.0);
      AscendingFloor(ls[1..], b - taken, p);
      TimesAdd(taken, rest.qty, p);
      TimesAdd(taken + rest.qty, a, p);
    }
  }

  /** A price that separates two takes below the top level separates them with it. */
  lemma MarginBeyondTop(l: Level, small: Taken, large: Taken, p: real)
    requires Margin(p, small, large) && 0.0 < l.size && l.price <= p
    ensures
      Margin(p, Taken(l.size + small.qty, Times(l.size, l.price) + small.cost),
             Taken(l.size + large.qty, Times(l.size, l.price) + large.cost))
  {
    TimesMono(l.size, l.price, p);
    TimesAdd(l.size, small.qty, p);
    assert (l.size + large.qty) - (l.size + small.qty) == large.qty - small.qty;
  }

  /** Every pair of takes from an ascending ladder has a separating marginal price. */
  lemma {:induction false} MarginalPrice(ls: Ladder, a: real, b: real) returns (p: real)
    requires Ascending(ls) && 0.0 <= a <= b
    ensures ls != [] ==> ls[0].price <= p
    ensures Margin(p, Walk(ls, a), Walk(ls, b))
  {
    if ls == [] {
      p := 0.0;
    } else if a <= ls[0].size {
      p := ls[0].price;
      MarginInsideTop(ls, a, b);
    } else {
      var l := ls[0];
      var q := MarginalPrice(ls[1..], a - l.size, b - l.size);
      p := if ls[1..] == [] then l.price else q;
      MarginBeyondTop(l, Walk(ls[1..], a - l.size), Walk(ls[1..], b - l.size), p);
    }
  }

  lemma AverageFromMargin(small: Taken, large: Taken, p: real)
    requires Margin(p, small, large)
    ensures Times(small.cost, large.qty) <= Times(large.cost, small.qty)
  {
    var d := large.qty - small.qty;
    TimesMono(d, small.cost, Times(small.qty, p));
    TimesMono(small.qty, Times(d, p), large.cost - small.cost);
    assert Times(Times(small.qty, p), d) == Times(Times(d, p), small.qty);
    TimesAdd(small.qty, d, small.cost);
    TimesAdd(small.cost, large.cost - small.cost, small.qty);
    TimesCommutes(small.cost, small.qty);
  }

  /** Asking for more never improves the average price: it can only rise when buying from an
      ascending ladder and only fall when selling into a descending one (cross-multiplied). */
  lemma AverageWorsensWithSize(side: Side, ls: Ladder, a: real, b: real)
    requires Sorted(side, ls) && Positive(ls) && 0.0 <= a <= b
    ensures
      var small, large := Walk(ls, a), Walk(ls, b);
      NoWorse(side, Times(small.cost, large.qty), Times(large.cost, small.qty))
  {
    if side.Buy? {
      var p := MarginalPrice(ls, a, b);
      AverageFromMargin(Walk(ls, a), Walk(ls, b), p);
    } else {
      var p := MarginalPrice(Mirror(ls), a, b);
      AverageFromMargin(Walk(Mirror(ls), a), Walk(Mirror(ls), b), p);
      MirrorWalk(ls, a);
      MirrorWalk(ls, b);
      TimesNegate(Walk(ls, a).cost, Walk(ls, b).qty);
      TimesNegate(Walk(ls, b).cost, Walk(ls, a).qty);
    }
  }

  /** Exactly the levels of the ladder that respect the limit. */
  lemma {:induction false} EligibleMembers(side: Side, limit: Option<real>, ls: Ladder, l: Level)
    ensures l in Eligible(side, limit, ls) <==> l in ls && (limit.Some? ==> NoWorse(side, l.price, limit.value))
  {
    if ls != [] {
      EligibleMembers(side, limit, ls[1..], l);
      assert l in ls <==> l == ls[0] || l in ls[1..];
    }
  }

  lemma {:induction false} EligibleNothingBeyond(side: Side, limit: real, ls: Ladder)
    requires forall i :: 0 <= i < |ls| ==> !NoWorse(side, ls[i].price, limit)
    ensures Eligible(side, Some(limit), ls) == []
  {
    if ls != [] {
      EligibleNothingBeyond(side, limit, ls[1..]);
    }
  }

  /** Keeping only eligible levels keeps a ladder sorted and positive. */
  lemma {:induction false} EligibleKeepsShape(side: Side, limit: Option<real>, ls: Ladder)
    requires Sorted(side, ls) && Positive(ls)
    ensures Sorted(side, Eligible(side, limit, ls)) && Positive(Eligible(side, limit, ls))
  {
    if ls != [] {
      EligibleKeepsShape(side, limit, ls[1..]);
      var rest := Eligible(side, limit, ls[1..]);
      forall j | 0 <= j < |rest|
        ensures NoWorse(side, ls[0].price, rest[j].price)
      {
        EligibleMembers(side, limit, ls[1..], rest[j]);
        var k :| 0 <= k < |ls[1..]| && ls[1..][k] == rest[j];
        assert ls[k + 1] == rest[j];
      }
    }
  }

  /** Loosening the limit never shrinks the depth behind it. */
  lemma {:induction false} DepthGrowsWithLimit(side: Side, tight: real, loose: real, ls: Ladder)
    requires Positive(ls) && NoWorse(side, tight, loose)
    ensures Depth(Eligible(side, Some(tight), ls)) <= Depth(Eligible(side, Some(loose), ls))
  {
    if ls != [] {
      DepthGrowsWithLimit(side, tight, loose, ls[1..]);
    }
  }

  /** An amount that fits inside the eligible levels is filled from them exactly as a walk over
      the whole ladder would fill it. */
  lemma {:induction false} WalkInsideBand(side: Side, limit: real, ls: Ladder, amount: real)
    requires Sorted(side, ls) && Positive(ls)
    requires 0.0 <= amount <= Depth(Eligible(side, Some(limit), ls))
    ensures Walk(Eligible(side, Some(limit), ls), amount) == Walk(ls, amount)
  {
    if ls != [] && amount > 0.0 {
      if NoWorse(side, ls[0].price, limit) {
        var es := Eligible(side, Some(limit), ls);
        var take := Min(amount, ls[0].size);
        assert es[1..] == Eligible(side, Some(limit), ls[1..]);
        EligibleKeepsShape(side, Some(limit), ls[1..]);
        DepthNonNegative(es[1..]);
        WalkInsideBand(side, limit, ls[1..], amount - take);
      } else {
        EligibleNothingBeyond(side, limit, ls);
      }
    }
  }

  /** Asking for more than there is takes the same as asking for all there is. */
  lemma {:induction false} WalkSaturates(ls: Ladder, amount: real)
    requires Positive(ls) && 0.0 <= amount
    ensures Walk(ls, amount) == Walk(ls, Min(amount, Depth(ls)))
  {
    DepthNonNegative(ls);
    if ls != [] && amount > 0.0 {
      DepthNonNegative(ls[1..]);
      var rest := amount - Min(amount, ls[0].size);
      WalkSaturates(ls[1..], rest);
      assert amount > ls[0].size ==> Min(amount, Depth(ls)) - ls[0].size == Min(rest, Depth(ls[1..]));
    }
  }

  /** Taking more from a buy ladder costs more. */
  lemma CostGrowsWithSize(ls: Ladder, a: real, b: real)
    requires Sorted(Buy, ls) && Positive(ls) && 0.0 <= a <= b
    ensures 0.0 <= Walk(ls, a).cost <= Walk(ls, b).cost
  {
    var p := MarginalPrice(ls, a, b);
    var q := MarginalPrice(ls, 0.0, a);
    if ls != [] {
      TimesMono(Walk(ls, b).qty - Walk(ls, a).qty, 0.0, p);
      TimesMono(Walk(ls, a).qty, 0.0, q);
    }
  }

  // ---- The walk is the best way to take a quantity ----

  /** So much from each level, no more than it has. */
  ghost predicate Allocation(ls: Ladder, xs: seq<real>) {
    |xs| == |ls| && forall i :: 0 <= i < |ls| ==> 0.0 <= xs[i] <= ls[i].size
  }

  function Total(xs: seq<real>): real {
    if xs == [] then 0.0 else xs[0] + Total(xs[1..])
  }

  function CostOf(ls: Ladder, xs: seq<real>): real
    requires |xs| == |ls|
  {
    if ls == [] then 0.0 else Times(xs[0], ls[0].price) + CostOf(ls[1..], xs[1..])
  }

  /** What the walk takes from each level. */
  function Takes(ls: Ladder, amount: real): (xs: seq<real>)
    ensures |xs| == |ls|
  {
    if ls == [] then []
    else
      var take := if amount <= 0.0 then 0.0 else Min(amount, ls[0].size);
      [take] + Takes(ls[1..], amount - take)
  }

  lemma {:induction false} WalkIsAllocation(ls: Ladder, amount: real)
    requires Positive(ls)
    ensures Allocation(ls, Takes(ls, amount))
    ensures Walk(ls, amount) == Taken(Total(Takes(ls, amount)), CostOf(ls, Takes(ls, amount)))
  {
    if ls != [] {
      var take := if amount <= 0.0 then 0.0 else Min(amount, ls[0].size);
      WalkIsAllocation(ls[1..], amount - take);
      assert Takes(ls, amount)[1..] == Takes(ls[1..], amount - take);
    }
  }

  lemma {:induction false} CostAtLeastFloor(ls: Ladder, xs: seq<real>, floor: real)
    requires Allocation(ls, xs) && forall i :: 0 <= i < |ls| ==> floor <= ls[i].price
    ensures 0.0 <= Total(xs) && Times(Total(xs), floor) <= CostOf(ls, xs)
  {
    if ls != [] {
      CostAtLeastFloor(ls[1..], xs[1..], floor);
      TimesMono(xs[0], floor, ls[0].price);
      TimesAdd(xs[0], Total(xs[1..]), floor);
    }
  }

  /** Taking at least as much in any other way costs at least as much, and the surplus at least the
      price of the top level. */
  lemma {:induction false} AnyOtherWayCostsMore(ls: Ladder, amount: real, xs: seq<real>)
    requires Ascending(ls) && ls != [] && Allocation(ls, xs) && 0.0 <= amount
    requires Walk(ls, amount).qty <= Total(xs)
    ensures Times(Total(xs) - Walk(ls, amount).qty, ls[0].price) <= CostOf(ls, xs) - Walk(ls, amount).cost
  {
    var p := ls[0].price;
    if amount <= ls[0].size {
      assert Walk(ls[1..], amount - amount) == Taken(0.0, 0.0);
      CostAtLeastFloor(ls, xs, p);
      TimesAdd(Total(xs), amount, p);
    } else {
      var rest := Walk(ls[1..], amount - ls[0].size);
      var surplus := Total(xs[1..]) - rest.qty;
      TimesAdd(xs[0], surplus, p);
      TimesAdd(xs[0] + surplus, ls[0].size, p);
      if ls[1..] != [] {
        AnyOtherWayCostsMore(ls[1..], amount - ls[0].size, xs[1..]);
        TimesMono(surplus, p, ls[1].price);
      }
    }
  }

  lemma {:induction false} MirrorAllocation(ls: Ladder, xs: seq<real>)
    requires Allocation(ls, xs)
    ensures Allocation(Mirror(ls), xs) && CostOf(Mirror(ls), xs) == -CostOf(ls, xs)
  {
    if ls != [] {
      assert Mirror(ls)[1..] == Mirror(ls[1..]);
      MirrorAllocation(ls[1..], xs[1..]);
      TimesNegate(xs[0], ls[0].price);
    }
  }

  lemma SameQuantityCostsMore(ls: Ladder, amount: real, xs: seq<real>)
    requires Ascending(ls) && Allocation(ls, xs) && 0.0 <= amount
    requires Total(xs) == Walk(ls, amount).qty
    ensures Walk(ls, amount).cost <= CostOf(ls, xs)
  {
    if ls != [] {
      AnyOtherWayCostsMore(ls, amount, xs);
      assert Times(0.0, ls[0].price) == 0.0;
    }
  }

  lemma SortedMirrorAscends(ls: Ladder)
    requires Sorted(Sell, ls) && Positive(ls)
    ensures Ascending(Mirror(ls))
  {
  }

  /** Of all ways to take the same quantity from a sorted ladder the walk is the best: nothing is
      cheaper when buying, nothing earns more when selling. */
  lemma WalkIsBest(side: Side, ls: Ladder, amount: real, xs: seq<real>)
    requires Sorted(side, ls) && Positive(ls) && 0.0 <= amount
    requires Allocation(ls, xs) && Total(xs) == Walk(ls, amount).qty
    ensures NoWorse(side, Walk(ls, amount).cost, CostOf(ls, xs))
  {
    if side.Buy? {
      SameQuantityCostsMore(ls, amount, xs);
    } else {
      MirrorAllocation(ls, xs);
      MirrorWalk(ls, amount);
      SortedMirrorAscends(ls);
      SameQuantityCostsMore(Mirror(ls), amount, xs);
    }
  }

  lemma {:induction false} EligibleWithoutLimit(side: Side, ls: Ladder)
    ensures Eligible(side, None, ls) == ls
  {
    if ls != [] {
      EligibleWithoutLimit(side, ls[1..]);
    }
  }
}
