/**
 * The first bot: fixed thresholds, no cache, every check fetches afresh.
 * It shares the indicator code with the second bot.
 */
module BotV1 {
  import opened Market
  import opened Indicators
  import opened Classifier

  /** Buy if RPP < 10%, sell if RPP > 90%; checks every 900 seconds. */
  const RppBuyThreshold: real := 10.0
  const RppSellThreshold: real := 90.0
  const CheckInterval: nat := 900

  /** fetch_stock_data: the provider's frame, or None when it is empty or the provider raised. */
  function FetchStockData(outcome: FetchOutcome): (r: Option<seq<Bar>>)
    ensures r.Some? <==> outcome.Fetched? && outcome.bars != []
    ensures r.Some? ==> r.value == outcome.bars
  {
    match outcome
    case Raised => None
    case Fetched(bars) => if bars == [] then None else Some(bars)
  }

  /** The if/elif of this bot's analyze_stock, with the module constants as thresholds. */
  function DecideFixed(ticker: string, snap: Option<Snapshot>): (r: Option<Analysis>)
    ensures r == Decide(ticker, snap, RppBuyThreshold, RppSellThreshold)
  {
    if snap.None? then None
    else
      var s := snap.value;
      if s.price < s.lower && s.rpp < RppBuyThreshold then
        Some(Analysis(ticker, StrongBuy, s.price, s.rpp, s.lower, s.upper, s.middle,
                      [BelowLowerBand(s.lower), RppBelow(s.rpp, RppBuyThreshold)]))
      else if s.price > s.upper && s.rpp > RppSellThreshold then
        Some(Analysis(ticker, StrongSell, s.price, s.rpp, s.lower, s.upper, s.middle,
                      [AboveUpperBand(s.upper), RppAbove(s.rpp, RppSellThreshold)]))
      else None
  }

  /** analyze_stock: fetch, compute both indicators, decide with thresholds 10 and 90. */
  function AnalyzeStock(ticker: string, outcome: FetchOutcome, sigma: seq<real> -> real): (r: Option<Analysis>)
    requires forall xs :: sigma(xs) >= 0.0
    ensures r.Some? ==> outcome.Fetched? && |outcome.bars| >= MinBars && r.value.ticker == ticker
  {
    DecideFixed(ticker, TakeSnapshot(FetchStockData(outcome), sigma))
  }

  /** The first bot decides exactly as the second does with thresholds 10 and 90. */
  lemma AnalyzeMatchesConfigurable(ticker: string, outcome: FetchOutcome, sigma: seq<real> -> real)
    requires forall xs :: sigma(xs) >= 0.0
    ensures AnalyzeStock(ticker, outcome, sigma)
         == Classify(ticker, FetchStockData(outcome), sigma, RppBuyThreshold, RppSellThreshold)
  {
  }

  /**
   * The fixed-threshold rule: 'STRONG BUY' iff close < lower band and RPP < 10;
   * 'STRONG SELL' iff close > upper band and RPP > 90; nothing otherwise.
   */
  lemma FixedThresholdVerdicts(ticker: string, outcome: FetchOutcome, sigma: seq<real> -> real)
    requires forall xs :: sigma(xs) >= 0.0
    ensures var r, snap := AnalyzeStock(ticker, outcome, sigma), TakeSnapshot(FetchStockData(outcome), sigma);
      && ((r.Some? && r.value.signal == StrongBuy) <==> BuyCondition(snap, RppBuyThreshold))
      && ((r.Some? && r.value.signal == StrongSell) <==> SellCondition(snap, RppSellThreshold))
      && (r.None? <==> !BuyCondition(snap, RppBuyThreshold) && !SellCondition(snap, RppSellThreshold))
  {
    var snap := TakeSnapshot(FetchStockData(outcome), sigma);
    AnalyzeMatchesConfigurable(ticker, outcome, sigma);
    DecideIff(ticker, snap, RppBuyThreshold, RppSellThreshold);
  }
}
