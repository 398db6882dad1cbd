/** Per-venue balances: virtual balances that paper fills move, and optimistic reservations. */
module BalanceManager {
  import opened Prelude

  type Account = (Exchange, Asset)

  /** One adjustment of one account. */
  datatype Posting = Posting(account: Account, delta: real)

  function Held(balances: map<Account, real>, account: Account): real {
    if account in balances then balances[account] else 0.0
  }

  /** Apply one adjustment the way the code does: never below zero. */
  function Adjust(balances: map<Account, real>, p: Posting): map<Account, real> {
    balances[p.account := Max(0.0, Held(balances, p.account) + p.delta)]
  }

  function Replay(opening: map<Account, real>, ps: seq<Posting>): map<Account, real> {
    if ps == [] then opening else Adjust(Replay(opening, ps[..|ps| - 1]), ps[|ps| - 1])
  }

  /** The ledger without the floor at zero. */
  function Ledger(opening: map<Account, real>, ps: seq<Posting>, account: Account): real {
    if ps == [] then Held(opening, account)
    else
      var last := ps[|ps| - 1];
      Ledger(opening, ps[..|ps| - 1], account) + (if last.account == account then last.delta else 0.0)
  }

  /** The furthest the ledger of one account was ever below zero after an adjustment. */
  function Shortfall(opening: map<Account, real>, ps: seq<Posting>, account: Account): real {
    if ps == [] then 0.0
    else
      var before := Shortfall(opening, ps[..|ps| - 1], account);
      if ps[|ps| - 1].account == account then Max(before, -Ledger(opening, ps, account)) else before
  }

  /** The floor at zero forgives exactly the worst shortfall seen so far, once. */
  lemma {:induction false} FloorForgivesWorstShortfall(opening: map<Account, real>, ps: seq<Posting>, account: Account)
    ensures 0.0 <= Shortfall(opening, ps, account)
    ensures Held(Replay(opening, ps), account) == Ledger(opening, ps, account) + Shortfall(opening, ps, account)
  {
    if ps != [] {
      FloorForgivesWorstShortfall(opening, ps[..|ps| - 1], account);
    }
  }

  /** Virtual balances equal the true ledger exactly when no adjustment ever took the ledger
      below zero. */
  lemma {:induction false} FloorInvisibleIffNeverShort(opening: map<Account, real>, ps: seq<Posting>, account: Account)
    ensures Ledger(opening, ps, account) <= Held(Replay(opening, ps), account)
    ensures
      Held(Replay(opening, ps), account) == Ledger(opening, ps, account)
      <==> forall n :: 0 <= n < |ps| && ps[n].account == account ==> 0.0 <= Ledger(opening, ps[..n + 1], account)
  {
    FloorForgivesWorstShortfall(opening, ps, account);
    if ps != [] {
      var init := ps[..|ps| - 1];
      FloorForgivesWorstShortfall(opening, init, account);
      FloorInvisibleIffNeverShort(opening, init, account);
      assert ps[..|ps| - 1 + 1] == ps;
      assert forall n :: 0 <= n < |init| ==> init[n] == ps[n] && init[..n + 1] == ps[..n + 1];
      if forall n :: 0 <= n < |ps| && ps[n].account == account ==> 0.0 <= Ledger(opening, ps[..n + 1], account) {
        assert ps[|ps| - 1].account == account ==> 0.0 <= Ledger(opening, ps[..|ps| - 1 + 1], account);
      }
    }
  }

  /** Total posted to one asset, on whatever venue. */
  function AssetTotal(ps: seq<Posting>, asset: Asset): real {
    if ps == [] then 0.0
    else
      var last := ps[|ps| - 1];
      AssetTotal(ps[..|ps| - 1], asset) + (if last.account.1 == asset then last.delta else 0.0)
  }

  /** Change of one asset's ledger summed over a list of venues. */
  function VenueTotal(venues: seq<Exchange>, ps: seq<Posting>, asset: Asset): real {
    if venues == [] then 0.0
    else Ledger(map[], ps, (venues[0], asset)) + VenueTotal(venues[1..], ps, asset)
  }

  ghost predicate Distinct(venues: seq<Exchange>) {
    forall i, j :: 0 <= i < j < |venues| ==> venues[i] != venues[j]
  }

  lemma {:induction false} VenueTotalEmpty(venues: seq<Exchange>, asset: Asset)
    ensures VenueTotal(venues, [], asset) == 0.0
  {
    if venues != [] {
      VenueTotalEmpty(venues[1..], asset);
    }
  }

  lemma {:induction false} VenueTotalStep(venues: seq<Exchange>, ps: seq<Posting>, p: Posting, asset: Asset)
    requires Distinct(venues)
    ensures
      VenueTotal(venues, ps + [p], asset) == VenueTotal(venues, ps, asset)
      + (if p.account.1 == asset && p.account.0 in venues then p.delta else 0.0)
  {
    if venues != [] {
      VenueTotalStep(venues[1..], ps, p, asset);
      assert (ps + [p])[..|ps|] == ps;
      assert p.account.0 == venues[0] ==> p.account.0 !in venues[1..];
    }
  }

  /** Summing an asset venue by venue gives the same as summing it posting by posting, for any
      duplicate-free list of venues that covers the postings. */
  lemma {:induction false} VenuesCoverAssetTotal(venues: seq<Exchange>, ps: seq<Posting>, asset: Asset)
    requires Distinct(venues)
    requires forall p :: p in ps ==> p.account.0 in venues
    ensures VenueTotal(venues, ps, asset) == AssetTotal(ps, asset)
  {
    if ps == [] {
      VenueTotalEmpty(venues, asset);
    } else {
      var init, last := ps[..|ps| - 1], ps[|ps| - 1];
      assert ps == init + [last];
      VenuesCoverAssetTotal(venues, init, asset);
      VenueTotalStep(venues, init, last, asset);
    }
  }

  class BalanceManager {
    var balances: map<Account, real>
    var reserved: map<Account, real>
    /** Balances when virtual accounting last started, and every adjustment since. */
    ghost var opening: map<Account, real>
    ghost var postings: seq<Posting>

    ghost predicate Valid()
      reads this
    {
      balances == Replay(opening, postings)
    }

    constructor ()
      ensures Valid() && balances == map[] && reserved == map[] && postings == []
    {
      balances, reserved := map[], map[];
      opening, postings := map[], [];
    }

    /** Free balance net of reservations, never negative. */
    function Free(exchange: Exchange, asset: Asset): (r: real)
      reads this
    {
      Max(0.0, Held(balances, (exchange, asset)) - Held(reserved, (exchange, asset)))
    }

    method SetVirtualBalance(exchange: Exchange, asset: Asset, amount: real)
      modifies this
      ensures Valid() && postings == []
      ensures balances == old(balances)[(exchange, asset) := amount] && reserved == old(reserved)
    {
      balances := balances[(exchange, asset) := amount];
      opening, postings := balances, [];
    }

    method AdjustVirtual(exchange: Exchange, asset: Asset, delta: real)
      requires Valid()
      modifies this`balances, this`postings
      ensures Valid() && postings == old(postings) + [Posting((exchange, asset), delta)]
      ensures balances == Adjust(old(balances), Posting((exchange, asset), delta))
    {
      var cur := Held(balances, (exchange, asset));
      balances := balances[(exchange, asset) := Max(0.0, cur + delta)];
      postings := postings + [Posting((exchange, asset), delta)];
      assert postings[..|postings| - 1] == old(postings);
    }

    method Reserve(exchange: Exchange, asset: Asset, amount: real)
      modifies this`reserved
      ensures reserved == AddTo(old(reserved), (exchange, asset), amount)
    {
      var key := (exchange, asset);
      reserved := reserved[key := Held(reserved, key) + amount];
    }

    method ReleaseReserve(exchange: Exchange, asset: Asset, amount: real)
      modifies this`reserved
      ensures reserved == TakeFrom(old(reserved), (exchange, asset), amount)
    {
      var key := (exchange, asset);
      var cur := Held(reserved, key);
      reserved := reserved[key := Max(0.0, cur - amount)];
    }
  }
}
