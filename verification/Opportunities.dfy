/** An arbitrage opportunity as the scanner emits it. */
module Opportunities {
  import opened Prelude

  datatype Opportunity = Opportunity(
    symbol: Symbol,
    buyExchange: Exchange,
    sellExchange: Exchange,
    buyPrice: real,
    sellPrice: real,
    netEdgeBps: real,
    maxTradableSize: real,
    expectedProfitQuote: real,
    buyBookAgeMs: Option<int>,
    sellBookAgeMs: Option<int>)
}
