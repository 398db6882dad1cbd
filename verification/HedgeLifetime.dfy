/** Hedges on the shared ledger: executed once, then repaired as often as an operator asks. */
module HedgeLifetime {
  import opened Prelude
  import opened Settings
  import opened HedgeGroup
  import opened Opportunities
  import opened BalanceManager
  import opened OrderRouter
  import opened RepairEngine
  import opened RepairSafety
  import opened ExposureManager
  import opened HedgeCoordinator
  import opened HedgeSafety
  import opened HedgeLedger

  /** The value of a hedge after its execution and one repair call at each later moment. */
  function Lifetime(w: Wiring, opp: Opportunity, amount: real, world: World, later: seq<Moment>): Hedge {
    RunRepairs(w.st, Execution(w, opp, amount, world).h, CallsAt(w, later))
  }

  /** Execute a hedge and repair it again at each later moment, whatever became of it.  The balance
      manager receives exactly the postings of the fills of the group, in order, after those it had
      already. */
  method ExecuteAndRepair(
      coordinator: HedgeCoordinator, opp: Opportunity, amount: real, world: World, now: real, id: HedgeId,
      later: seq<Moment>)
    returns (group: HedgeGroup)
    requires coordinator.Valid() && coordinator.breaker.Follows(now)
    modifies coordinator`hedges, coordinator.exposure, coordinator.breaker
    modifies coordinator.router.paper.balances`balances, coordinator.router.paper.balances`postings
    ensures coordinator.Valid() && fresh(group)
    ensures group.View() == Lifetime(coordinator.w, opp, amount, world, later)
    ensures
      coordinator.router.paper.balances.postings
      == old(coordinator.router.paper.balances.postings)
         + Moved(coordinator.w.st.mode, Lifetime(coordinator.w, opp, amount, world, later).fills)
  {
    var w := coordinator.w;
    ghost var ledger := coordinator.router.paper.balances.postings;
    var raised;
    group, raised := coordinator.Execute(opp, amount, world, now, id);
    var i := 0;
    assert later[0..] == later;
    while i < |later|
      invariant 0 <= i <= |later|
      invariant coordinator.Valid() && fresh(group)
      invariant RunRepairs(w.st, group.View(), CallsAt(w, later[i..])) == Lifetime(w, opp, amount, world, later)
      invariant coordinator.router.paper.balances.postings == ledger + Moved(w.st.mode, group.View().fills)
    {
      var m := later[i];
      ghost var h := group.View();
      RunStep(w, h, later, i);
      raised := coordinator.repair.Repair(group, m.books, m);
      RepairPostings(w, h, m, ledger);
      i := i + 1;
    }
  }

  lemma RunStep(w: Wiring, h: Hedge, later: seq<Moment>, i: nat)
    requires i < |later|
    ensures
      var m := later[i];
      RunRepairs(w.st, h, CallsAt(w, later[i..]))
      == RunRepairs(
           w.st, RepairStep(w.st, h, m.books, VenueAt(w.st.mode, w.cfg, m)).h, CallsAt(w, later[i + 1..]))
  {
    assert later[i..][1..] == later[i + 1..];
    assert CallsAt(w, later[i..])[1..] == CallsAt(w, later[i + 1..]);
  }

  lemma RepairPostings(w: Wiring, h: Hedge, m: Moment, ledger: seq<Posting>)
    ensures
      var venue := VenueAt(w.st.mode, w.cfg, m);
      (ledger + Moved(w.st.mode, h.fills)) + Moved(w.st.mode, RepairFills(w.st, h, m.books, venue))
      == ledger + Moved(w.st.mode, RepairStep(w.st, h, m.books, venue).h.fills)
  {
    var venue := VenueAt(w.st.mode, w.cfg, m);
    var more := RepairFills(w.st, h, m.books, venue);
    RepairAppendsItsFills(w.st, h, m.books, venue);
    PostingsOfConcat(h.fills, more);
    Associate(ledger, Moved(w.st.mode, h.fills), Moved(w.st.mode, more));
  }

  lemma {:induction false} VenueTotalConcat(venues: seq<Exchange>, ps: seq<Posting>, qs: seq<Posting>, asset: Asset)
    requires Distinct(venues)
    ensures VenueTotal(venues, ps + qs, asset) == VenueTotal(venues, ps, asset) + VenueTotal(venues, qs, asset)
  {
    if qs == [] {
      assert ps + qs == ps;
      VenueTotalEmpty(venues, asset);
    } else {
      var init, last := qs[..|qs| - 1], qs[|qs| - 1];
      assert ps + qs == (ps + init) + [last] && qs == init + [last];
      VenueTotalConcat(venues, ps, init, asset);
      VenueTotalStep(venues, ps + init, last, asset);
      VenueTotalStep(venues, init, last, asset);
    }
  }

  /** Conservation on the shared ledger: whatever was posted before, a hedge's lifetime in paper trade
      moves the two venues together by its net position in base and its realised profit in quote. */
  lemma LedgerMovesByFigures(
      w: Wiring, opp: Opportunity, amount: real, world: World, later: seq<Moment>, before: seq<Posting>)
    requires w.st.mode.PaperTrade? && SoundWorld(w, world) && 0.0 <= amount
    requires forall m :: m in later ==> SoundMoment(w.st.mode, w.cfg, m)
    requires opp.symbol.base != opp.symbol.quote && opp.buyExchange != opp.sellExchange
    ensures
      var g := Lifetime(w, opp, amount, world, later);
      var after := before + Moved(w.st.mode, g.fills);
      var venues := [opp.buyExchange, opp.sellExchange];
      && VenueTotal(venues, after, opp.symbol.base) == VenueTotal(venues, before, opp.symbol.base) + g.netPosition
      && VenueTotal(venues, after, opp.symbol.quote)
         == VenueTotal(venues, before, opp.symbol.quote) + g.realizedPnl.GetOr(0.0)
  {
    var g := Lifetime(w, opp, amount, world, later);
    var venues := [opp.buyExchange, opp.sellExchange];
    PaperBalancesConserve(w, opp, amount, world, later);
    VenueTotalConcat(venues, before, PostingsOf(g.fills), opp.symbol.base);
    VenueTotalConcat(venues, before, PostingsOf(g.fills), opp.symbol.quote);
  }

  // ---- Several hedges at once ----

  lemma OneTaken(qs: seq<Posting>, i: nat, asset: Asset)
    requires i < |qs|
    ensures
      var rest := qs[..i] + qs[i + 1..];
      && multiset(qs) == multiset(rest) + multiset{qs[i]}
      && AssetTotal(qs, asset) == AssetTotal(rest, asset) + AssetTotal([qs[i]], asset)
  {
    var before, taken, after := qs[..i], [qs[i]], qs[i + 1..];
    assert qs == before + taken + after;
    AssetTotalConcat(before + taken, after, asset);
    AssetTotalConcat(before, taken, asset);
    AssetTotalConcat(before, after, asset);
  }

  /** The order postings arrive in does not matter to a total. */
  lemma {:induction false} TotalIgnoresOrder(ps: seq<Posting>, qs: seq<Posting>, asset: Asset)
    requires multiset(ps) == multiset(qs)
    ensures AssetTotal(ps, asset) == AssetTotal(qs, asset)
    decreases |ps|
  {
    if ps == [] {
      assert |multiset(qs)| == 0;
    } else {
      assert ps[0] in multiset(qs);
      var i :| 0 <= i < |qs| && qs[i] == ps[0];
      OneTaken(ps, 0, asset);
      OneTaken(qs, i, asset);
      var ps', qs' := ps[..0] + ps[1..], qs[..i] + qs[i + 1..];
      assert multiset(ps') == multiset(ps) - multiset{ps[0]} == multiset(qs');
      TotalIgnoresOrder(ps', qs', asset);
    }
  }

  /** One hedge among several. */
  datatype Job = Job(opp: Opportunity, amount: real, world: World, later: seq<Moment>)

  function LifetimeOf(w: Wiring, j: Job): Hedge {
    Lifetime(w, j.opp, j.amount, j.world, j.later)
  }

  /** What a hedge moves of one asset: its net position of the base, its realised profit of the quote. */
  function MovedBy(w: Wiring, j: Job, asset: Asset): real {
    var g := LifetimeOf(w, j);
    if asset == j.opp.symbol.base then g.netPosition
    else if asset == j.opp.symbol.quote then g.realizedPnl.GetOr(0.0)
    else 0.0
  }

  function MovedByAll(w: Wiring, jobs: seq<Job>, asset: Asset): real {
    if jobs == [] then 0.0 else MovedByAll(w, jobs[..|jobs| - 1], asset) + MovedBy(w, jobs[|jobs| - 1], asset)
  }

  /** The postings of the hedges, one hedge after the other. */
  function PostedByAll(w: Wiring, jobs: seq<Job>): seq<Posting> {
    if jobs == [] then []
    else PostedByAll(w, jobs[..|jobs| - 1]) + PostingsOf(LifetimeOf(w, jobs[|jobs| - 1]).fills)
  }

  ghost predicate SoundJob(w: Wiring, venues: seq<Exchange>, j: Job) {
    && SoundWorld(w, j.world) && 0.0 <= j.amount
    && (forall m :: m in j.later ==> SoundMoment(w.st.mode, w.cfg, m))
    && j.opp.symbol.base != j.opp.symbol.quote && j.opp.buyExchange != j.opp.sellExchange
    && j.opp.buyExchange in venues && j.opp.sellExchange in venues
  }

  lemma JobTotals(w: Wiring, venues: seq<Exchange>, j: Job, asset: Asset)
    requires w.st.mode.PaperTrade? && SoundJob(w, venues, j)
    ensures AssetTotal(PostingsOf(LifetimeOf(w, j).fills), asset) == MovedBy(w, j, asset)
    ensures forall p :: p in PostingsOf(LifetimeOf(w, j).fills) ==> p.account.0 in venues
  {
    var start := Execution(w, j.opp, j.amount, j.world).h;
    PaperExecutionIsShaped(w, j.opp, j.amount, j.world);
    PaperRunKeepsShape(w, start, j.later);
    FiguresMatchFills(w, j.opp, j.amount, j.world, j.later);
    ShapedTotals(j.opp, LifetimeOf(w, j), asset);
  }

  lemma ShapedTotals(opp: Opportunity, g: Hedge, asset: Asset)
    requires InBalance(g) && PaperShaped(g)
    requires g.symbol == opp.symbol && g.buyExchange == opp.buyExchange && g.sellExchange == opp.sellExchange
    requires opp.symbol.base != opp.symbol.quote
    ensures
      AssetTotal(PostingsOf(g.fills), asset)
      == if asset == opp.symbol.base then g.netPosition
         else if asset == opp.symbol.quote then g.realizedPnl.GetOr(0.0)
         else 0.0
    ensures forall p :: p in PostingsOf(g.fills) ==> p.account.0 in {opp.buyExchange, opp.sellExchange}
  {
    PostingsMatchFills(opp.symbol, {opp.buyExchange, opp.sellExchange}, g.fills);
    if asset != opp.symbol.base && asset != opp.symbol.quote {
      ThirdAssetUntouched(opp.symbol, g.fills, asset);
    }
  }

  lemma {:induction false} JobsTotal(w: Wiring, venues: seq<Exchange>, jobs: seq<Job>, asset: Asset)
    requires w.st.mode.PaperTrade? && forall j :: j in jobs ==> SoundJob(w, venues, j)
    ensures AssetTotal(PostedByAll(w, jobs), asset) == MovedByAll(w, jobs, asset)
    ensures forall p :: p in PostedByAll(w, jobs) ==> p.account.0 in venues
  {
    if jobs != [] {
      var init, last := jobs[..|jobs| - 1], jobs[|jobs| - 1];
      assert last in jobs && forall j :: j in init ==> j in jobs;
      JobsTotal(w, venues, init, asset);
      JobTotals(w, venues, last, asset);
      AssetTotalConcat(PostedByAll(w, init), PostingsOf(LifetimeOf(w, last).fills), asset);
    }
  }

  /** Conservation under interleaving: in whatever order the postings of any number of hedges reach the
      shared ledger, every asset's total over the venues moves by the sum of what the hedges report of
      it. */
  lemma InterleavedHedgesConserve(
      w: Wiring, venues: seq<Exchange>, jobs: seq<Job>, before: seq<Posting>, merged: seq<Posting>, asset: Asset)
    requires w.st.mode.PaperTrade? && Distinct(venues) && forall j :: j in jobs ==> SoundJob(w, venues, j)
    requires multiset(merged) == multiset(PostedByAll(w, jobs))
    ensures
      VenueTotal(venues, before + merged, asset) == VenueTotal(venues, before, asset) + MovedByAll(w, jobs, asset)
  {
    JobsTotal(w, venues, jobs, asset);
    forall p | p in merged
      ensures p.account.0 in venues
    {
      assert p in multiset(merged);
    }
    TotalIgnoresOrder(merged, PostedByAll(w, jobs), asset);
    VenuesCoverAssetTotal(venues, merged, asset);
    VenueTotalConcat(venues, before, merged, asset);
  }
}
