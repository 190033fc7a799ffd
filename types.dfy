/** Value types shared by the indicator engine, the classifier, the store and the bots. */
module Market {

  datatype Option<+T> = None | Some(value: T)

  /** One daily OHLCV bar. `date` is a calendar day number (days since an epoch). */
  datatype Bar = Bar(date: int, open: real, high: real, low: real, close: real, volume: int)

  /** The two verdicts the classifier can give ('STRONG BUY' and 'STRONG SELL'). */
  datatype Kind = StrongBuy | StrongSell

  /**
   * The human-readable reasons attached to a verdict, kept as tagged values
   * instead of formatted text.
   */
  datatype Trigger =
    | BelowLowerBand(lower: real)
    | AboveUpperBand(upper: real)
    | RppBelow(score: real, threshold: real)
    | RppAbove(score: real, threshold: real)

  /** The dictionary returned by analyze_stock when a signal fires. */
  datatype Analysis = Analysis(
    ticker: string,
    signal: Kind,
    price: real,
    rpp: real,
    lower: real,
    upper: real,
    middle: real,
    triggers: seq<Trigger>)

  /**
   * What the market-data provider gives back for a ticker: a (possibly empty)
   * frame of bars, or an exception.
   */
  datatype FetchOutcome = Fetched(bars: seq<Bar>) | Raised

  /** A row of the signal_history table; `createdAt` is a timestamp in seconds. */
  datatype SignalRecord = SignalRecord(ticker: string, signal: Kind, price: real, rpp: real, createdAt: int)

  function Last<T>(s: seq<T>): T
    requires s != []
  {
    s[|s| - 1]
  }
}
