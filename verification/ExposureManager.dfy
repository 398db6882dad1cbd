/** In-flight notional per venue and the set of open hedges. */
module ExposureManager {
  import opened Prelude

  /** A hedge holds exposure first under the identifier of its opportunity, then under its own. */
  datatype HedgeId = Pre(n: nat) | Own(n: nat)

  datatype Exposure = Exposure(inFlight: map<Exchange, real>, open: set<HedgeId>) {
    function InFlight(exchange: Exchange): real {
      if exchange in inFlight then inFlight[exchange] else 0.0
    }

    function Add(exchange: Exchange, notional: real, id: HedgeId): Exposure {
      Exposure(AddTo(inFlight, exchange, notional), open + {id})
    }

    function Release(exchange: Exchange, notional: real, id: HedgeId): Exposure {
      Exposure(TakeFrom(inFlight, exchange, notional), open - {id})
    }

    /** Both legs of one hedge. */
    function AddPair(buy: Exchange, sell: Exchange, notional: real, id: HedgeId): Exposure {
      Add(buy, notional, id).Add(sell, notional, id)
    }

    function ReleasePair(buy: Exchange, sell: Exchange, notional: real, id: HedgeId): Exposure {
      Release(buy, notional, id).Release(sell, notional, id)
    }
  }

  const NO_EXPOSURE := Exposure(map[], {})

  class ExposureManager {
    var inFlight: map<Exchange, real>
    var openHedges: set<HedgeId>

    constructor ()
      ensures View() == NO_EXPOSURE
    {
      inFlight, openHedges := map[], {};
    }

    ghost function View(): Exposure
      reads this
    {
      Exposure(inFlight, openHedges)
    }

    method Add(exchange: Exchange, notional: real, id: HedgeId)
      modifies this
      ensures View() == old(View()).Add(exchange, notional, id)
    {
      var cur := if exchange in inFlight then inFlight[exchange] else 0.0;
      inFlight := inFlight[exchange := cur + notional];
      openHedges := openHedges + {id};
    }

    method Release(exchange: Exchange, notional: real, id: HedgeId)
      modifies this
      ensures View() == old(View()).Release(exchange, notional, id)
    {
      var cur := if exchange in inFlight then inFlight[exchange] else 0.0;
      inFlight := inFlight[exchange := Max(0.0, cur - notional)];
      openHedges := openHedges - {id};
    }

    function InFlight(exchange: Exchange): (r: real)
      reads this
    {
      if exchange in inFlight then inFlight[exchange] else 0.0
    }

    function OpenCount(): (n: nat)
      reads this
    {
      |openHedges|
    }
  }

  /** The share of a pair's notional that falls on one venue. */
  function PairShare(buy: Exchange, sell: Exchange, notional: real, at: Exchange): real {
    (if buy == at then notional else 0.0) + (if sell == at then notional else 0.0)
  }

  lemma AddPairFigures(e: Exposure, buy: Exchange, sell: Exchange, notional: real, id: HedgeId, at: Exchange)
    ensures e.AddPair(buy, sell, notional, id).InFlight(at) == e.InFlight(at) + PairShare(buy, sell, notional, at)
    ensures e.AddPair(buy, sell, notional, id).open == e.open + {id}
  {}

  /** Releasing a pair that is covered takes back exactly its share; the floor at zero plays no
      part. */
  lemma ReleasePairFigures(e: Exposure, buy: Exchange, sell: Exchange, notional: real, id: HedgeId, at: Exchange)
    requires buy != sell && notional <= e.InFlight(buy) && notional <= e.InFlight(sell)
    ensures e.ReleasePair(buy, sell, notional, id).InFlight(at) == e.InFlight(at) - PairShare(buy, sell, notional, at)
    ensures e.ReleasePair(buy, sell, notional, id).open == e.open - {id}
  {}

  /** Releasing a pair takes back exactly what adding it put in: every venue's figure and the set of
      open hedges return to what they were. */
  lemma PairNetsToZero(e: Exposure, buy: Exchange, sell: Exchange, notional: real, id: HedgeId, at: Exchange)
    requires 0.0 <= e.InFlight(buy) && 0.0 <= e.InFlight(sell) && id !in e.open && 0.0 <= notional
    ensures e.AddPair(buy, sell, notional, id).ReleasePair(buy, sell, notional, id).InFlight(at) == e.InFlight(at)
    ensures e.AddPair(buy, sell, notional, id).ReleasePair(buy, sell, notional, id).open == e.open
  {}
}
