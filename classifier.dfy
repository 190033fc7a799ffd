/**
 * The decision part of analyze_stock: from a series and the two RPP thresholds
 * to 'STRONG BUY', 'STRONG SELL' or no signal.
 */
module Classifier {
  import opened Market
  import opened Indicators

  /** The values analyze_stock decides on: last close, RPP score and the three bands. */
  datatype Snapshot = Snapshot(price: real, rpp: real, upper: real, middle: real, lower: real)

  /**
   * Both indicators on one series, or None when either is undefined (no data,
   * fewer than 20 bars, or a flat range).
   */
  function TakeSnapshot(data: Option<seq<Bar>>, sigma: seq<real> -> real): (r: Option<Snapshot>)
    requires forall xs :: sigma(xs) >= 0.0
    ensures r.Some? <==> data.Some? && |data.value| >= MinBars && CalculateRpp(data).score.Some?
    ensures r.Some? ==>
      var bands := CalculateBollingerBands(data, sigma).value;
      && r.value.price == Last(data.value).close
      && r.value.rpp == CalculateRpp(data).score.value
      && r.value.upper == bands.upper && r.value.middle == bands.middle && r.value.lower == bands.lower
    ensures r.Some? ==> r.value.lower <= r.value.middle <= r.value.upper
  {
    if data.None? then None
    else
      var rpp := CalculateRpp(data);
      var bands := CalculateBollingerBands(data, sigma);
      if rpp.score.None? || bands.None? then None
      else Some(Snapshot(rpp.price.value, rpp.score.value, bands.value.upper, bands.value.middle, bands.value.lower))
  }

  /** The close below the lower band with the RPP under the buy threshold. */
  predicate BuyCondition(snap: Option<Snapshot>, buy: real) {
    snap.Some? && snap.value.price < snap.value.lower && snap.value.rpp < buy
  }

  /** The close above the upper band with the RPP over the sell threshold. */
  predicate SellCondition(snap: Option<Snapshot>, sell: real) {
    snap.Some? && snap.value.price > snap.value.upper && snap.value.rpp > sell
  }

  /**
   * The if/elif of analyze_stock: 'STRONG BUY' first, then 'STRONG SELL', each
   * with its band trigger followed by its RPP trigger.
   */
  function Decide(ticker: string, snap: Option<Snapshot>, buy: real, sell: real): (r: Option<Analysis>)
    ensures r.Some? ==> snap.Some? && r.value.ticker == ticker
    ensures r.Some? ==>
      var s := snap.value;
      && r.value.price == s.price && r.value.rpp == s.rpp
      && r.value.lower == s.lower && r.value.upper == s.upper && r.value.middle == s.middle
      && r.value.triggers == match r.value.signal
           case StrongBuy => [BelowLowerBand(s.lower), RppBelow(s.rpp, buy)]
           case StrongSell => [AboveUpperBand(s.upper), RppAbove(s.rpp, sell)]
  {
    if snap.None? then None
    else
      var s := snap.value;
      if s.price < s.lower && s.rpp < buy then
        Some(Analysis(ticker, StrongBuy, s.price, s.rpp, s.lower, s.upper, s.middle,
                      [BelowLowerBand(s.lower), RppBelow(s.rpp, buy)]))
      else if s.price > s.upper && s.rpp > sell then
        Some(Analysis(ticker, StrongSell, s.price, s.rpp, s.lower, s.upper, s.middle,
                      [AboveUpperBand(s.upper), RppAbove(s.rpp, sell)]))
      else None
  }

  /**
   * On a snapshot whose bands are ordered, 'STRONG BUY' exactly when the buy
   * condition holds and 'STRONG SELL' exactly when the sell condition holds: the
   * buy branch is tried first, but no close is both below the lower band and
   * above the upper one.
   */
  lemma DecideIff(ticker: string, snap: Option<Snapshot>, buy: real, sell: real)
    requires snap.Some? ==> snap.value.lower <= snap.value.upper
    ensures var r := Decide(ticker, snap, buy, sell);
      && ((r.Some? && r.value.signal == StrongBuy) <==> BuyCondition(snap, buy))
      && ((r.Some? && r.value.signal == StrongSell) <==> SellCondition(snap, sell))
      && (r.None? <==> !BuyCondition(snap, buy) && !SellCondition(snap, sell))
      && !(BuyCondition(snap, buy) && SellCondition(snap, sell))
  {
  }

  /** analyze_stock after the fetch: the decision on the series' snapshot. */
  function Classify(ticker: string, data: Option<seq<Bar>>, sigma: seq<real> -> real, buy: real, sell: real): (r: Option<Analysis>)
    requires forall xs :: sigma(xs) >= 0.0
    ensures r.Some? ==> data.Some? && |data.value| >= MinBars && r.value.ticker == ticker
    ensures var snap := TakeSnapshot(data, sigma);
      && ((r.Some? && r.value.signal == StrongBuy) <==> BuyCondition(snap, buy))
      && ((r.Some? && r.value.signal == StrongSell) <==> SellCondition(snap, sell))
  {
    var snap := TakeSnapshot(data, sigma);
    DecideIff(ticker, snap, buy, sell);
    Decide(ticker, snap, buy, sell)
  }

  /**
   * Every alert carries the evidence for its rule: a 'STRONG BUY' reports a
   * price below its lower band and an RPP under the buy threshold, a 'STRONG
   * SELL' a price above its upper band and an RPP over the sell threshold.
   */
  lemma AlertMeetsRule(ticker: string, data: Option<seq<Bar>>, sigma: seq<real> -> real, buy: real, sell: real)
    requires forall xs :: sigma(xs) >= 0.0
    ensures var r := Classify(ticker, data, sigma, buy, sell);
      r.Some? ==>
        && (r.value.signal == StrongBuy ==> r.value.price < r.value.lower && r.value.rpp < buy)
        && (r.value.signal == StrongSell ==> r.value.price > r.value.upper && r.value.rpp > sell)
  {
    var snap := TakeSnapshot(data, sigma);
    assert Classify(ticker, data, sigma, buy, sell) == Decide(ticker, snap, buy, sell);
  }

  /** A 'STRONG BUY' puts the last close below the mean of the last 20 closes, and a 'STRONG SELL' above it. */
  lemma VerdictSideOfMean(ticker: string, data: Option<seq<Bar>>, sigma: seq<real> -> real, buy: real, sell: real)
    requires forall xs :: sigma(xs) >= 0.0
    requires Classify(ticker, data, sigma, buy, sell).Some?
    ensures var a := Classify(ticker, data, sigma, buy, sell).value;
      && (a.signal == StrongBuy ==> a.price < Mean(Closes(Tail(data.value, BandWindow))))
      && (a.signal == StrongSell ==> a.price > Mean(Closes(Tail(data.value, BandWindow))))
  {
    assert Classify(ticker, data, sigma, buy, sell) == Decide(ticker, TakeSnapshot(data, sigma), buy, sell);
  }

  /**
   * With a well-formed last bar the RPP is in [0, 100], so a buy threshold of 0
   * never gives 'STRONG BUY' and a sell threshold of 100 never gives 'STRONG SELL'.
   */
  lemma ExtremeThresholdsSilence(ticker: string, s: seq<Bar>, sigma: seq<real> -> real, buy: real, sell: real)
    requires forall xs :: sigma(xs) >= 0.0
    requires s != [] && Last(s).low <= Last(s).close <= Last(s).high
    requires buy <= 0.0 && sell >= 100.0
    ensures Classify(ticker, Some(s), sigma, buy, sell) == None
  {
    if |s| >= MinBars {
      RppInRange(s);
    }
  }

  /** Raising the buy threshold never withdraws a 'STRONG BUY'. */
  lemma BuyMonotone(ticker: string, data: Option<seq<Bar>>, sigma: seq<real> -> real, buy: real, buy': real, sell: real, sell': real)
    requires forall xs :: sigma(xs) >= 0.0
    requires buy <= buy'
    requires Classify(ticker, data, sigma, buy, sell).Some?
    requires Classify(ticker, data, sigma, buy, sell).value.signal == StrongBuy
    ensures Classify(ticker, data, sigma, buy', sell').Some?
    ensures Classify(ticker, data, sigma, buy', sell').value.signal == StrongBuy
  {
    var snap := TakeSnapshot(data, sigma);
    assert BuyCondition(snap, buy);
    assert BuyCondition(snap, buy');
  }

  /** Lowering the sell threshold never withdraws a 'STRONG SELL'. */
  lemma SellMonotone(ticker: string, data: Option<seq<Bar>>, sigma: seq<real> -> real, buy: real, buy': real, sell: real, sell': real)
    requires forall xs :: sigma(xs) >= 0.0
    requires sell' <= sell
    requires Classify(ticker, data, sigma, buy, sell).Some?
    requires Classify(ticker, data, sigma, buy, sell).value.signal == StrongSell
    ensures Classify(ticker, data, sigma, buy', sell').Some?
    ensures Classify(ticker, data, sigma, buy', sell').value.signal == StrongSell
  {
    var snap := TakeSnapshot(data, sigma);
    assert SellCondition(snap, sell);
    assert SellCondition(snap, sell');
  }
}
