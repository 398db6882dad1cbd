/** The settings the hedge pipeline reads; held fixed during a run. */
module Settings {
  import opened Prelude
  import opened Orders

  datatype Mode = DryRun | PaperTrade | Live

  datatype Settings = Settings(
    mode: Mode,
    orderType: OrderType,
    minNetEdgeBps: real,
    minProfitQuote: real,
    minLiquidityUsdt: real,
    scanBufferBps: real,
    iocPriceBufferBps: real,
    minInBandDepthRatio: real,
    maxSignalToOrderMs: Option<int>,
    maxBookAgeMsForTrade: Option<int>,
    maxRepairAttempts: int,
    maxRepairLossQuote: Option<real>,
    minOrderSizeQuote: real,
    maxNotionalPerTrade: real,
    maxExposurePerExchange: real,
    maxTotalOpenHedges: int,
    maxDailyLossQuote: Option<real>,
    maxConsecutiveLosingTrades: Option<int>)
}
