/**
 * The indicator engine: Relative Price Position over the trailing 180 bars and
 * Bollinger Bands over the trailing 20 closes. Both bots share this code.
 */
module Indicators {
  import opened Market

  /** Fewer bars than this and neither indicator is defined. */
  const MinBars: nat := 20
  /** RPP looks at most this many trailing bars. */
  const RppWindow: nat := 180
  /** Bollinger window and width (window=20, num_std=2). */
  const BandWindow: nat := 20
  const NumStd: real := 2.0

  /** df.tail(n) if len(df) >= n else df: the last min(|s|, n) bars. */
  function Tail(s: seq<Bar>, n: nat): (w: seq<Bar>)
    ensures |w| == if |s| < n then |s| else n
    ensures w == s[|s| - |w|..]
  {
    if |s| >= n then s[|s| - n..] else s
  }

  ghost predicate IsMinLow(w: seq<Bar>, m: real) {
    && (exists i :: 0 <= i < |w| && w[i].low == m)
    && (forall i :: 0 <= i < |w| ==> m <= w[i].low)
  }

  ghost predicate IsMaxHigh(w: seq<Bar>, m: real) {
    && (exists i :: 0 <= i < |w| && w[i].high == m)
    && (forall i :: 0 <= i < |w| ==> w[i].high <= m)
  }

  /** df['Low'].min() */
  function MinLow(w: seq<Bar>): (m: real)
    requires w != []
    ensures IsMinLow(w, m)
  {
    if |w| == 1 then w[0].low
    else
      var rest := MinLow(w[1..]);
      assert forall i :: 1 <= i < |w| ==> w[1..][i - 1] == w[i];
      if w[0].low <= rest then w[0].low else rest
  }

  /** df['High'].max() */
  function MaxHigh(w: seq<Bar>): (m: real)
    requires w != []
    ensures IsMaxHigh(w, m)
  {
    if |w| == 1 then w[0].high
    else
      var rest := MaxHigh(w[1..]);
      assert forall i :: 1 <= i < |w| ==> w[1..][i - 1] == w[i];
      if w[0].high >= rest then w[0].high else rest
  }

  /** ((current - min) / (max - min)) * 100, characterised without division. */
  function Position(current: real, minPrice: real, maxPrice: real): (p: real)
    requires maxPrice != minPrice
    ensures p * (maxPrice - minPrice) == (current - minPrice) * 100.0
  {
    var q := (current - minPrice) / (maxPrice - minPrice);
    assert q * (maxPrice - minPrice) == current - minPrice;
    q * 100.0
  }

  lemma ScaledBounds(p: real, d: real, x: real)
    requires d > 0.0 && p * d == x * 100.0 && 0.0 <= x <= d
    ensures 0.0 <= p <= 100.0
  {
    assert x * 100.0 <= d * 100.0;
    assert p * d <= 100.0 * d;
    assert (p - 100.0) * d == p * d - 100.0 * d;
  }

  /** A price inside a non-empty range sits between 0 and 100 percent of it. */
  lemma PositionBounds(current: real, minPrice: real, maxPrice: real)
    requires minPrice <= current <= maxPrice && minPrice < maxPrice
    ensures 0.0 <= Position(current, minPrice, maxPrice) <= 100.0
  {
    ScaledBounds(Position(current, minPrice, maxPrice), maxPrice - minPrice, current - minPrice);
  }

  /** The pair (rpp_score, current_price); either may be None. */
  datatype RppOut = RppOut(score: Option<real>, price: Option<real>)

  /**
   * calculate_rpp: no data or fewer than 20 bars gives (None, None); a flat
   * range gives (None, close); otherwise the close's position in the range, in percent.
   */
  function CalculateRpp(data: Option<seq<Bar>>): (r: RppOut)
    ensures data.None? || |data.value| < MinBars ==> r == RppOut(None, None)
    ensures data.Some? && |data.value| >= MinBars ==>
      var w := Tail(data.value, RppWindow);
      && r.price == Some(Last(data.value).close)
      && (r.score.None? <==> MaxHigh(w) == MinLow(w))
      && (r.score.Some? ==> r.score.value == Position(Last(data.value).close, MinLow(w), MaxHigh(w)))
  {
    if data.None? || |data.value| < MinBars then RppOut(None, None)
    else
      var w := Tail(data.value, RppWindow);
      var minPrice := MinLow(w);
      var maxPrice := MaxHigh(w);
      var current := w[|w| - 1].close;
      assert current == Last(data.value).close;
      if maxPrice == minPrice then RppOut(None, Some(current))
      else RppOut(Some(Position(current, minPrice, maxPrice)), Some(current))
  }

  /**
   * The score lies in [0, 100] whenever the last bar itself is well formed
   * (low <= close <= high): the close then lies inside the window's range.
   */
  lemma RppInRange(s: seq<Bar>)
    requires |s| >= MinBars
    requires Last(s).low <= Last(s).close <= Last(s).high
    ensures CalculateRpp(Some(s)).score.Some? ==>
      0.0 <= CalculateRpp(Some(s)).score.value <= 100.0
  {
    var w := Tail(s, RppWindow);
    var lo, hi := MinLow(w), MaxHigh(w);
    assert w[|w| - 1] == Last(s);
    assert lo <= Last(s).low && Last(s).high <= hi;
    if CalculateRpp(Some(s)).score.Some? {
      PositionBounds(Last(s).close, lo, hi);
    }
  }

  /** A window in which every bar has low == high == p has no RPP, but still reports the close. */
  lemma FlatWindowHasNoRpp(s: seq<Bar>, p: real)
    requires |s| >= MinBars
    requires forall i :: 0 <= i < |s| ==> s[i].low == p && s[i].high == p
    ensures CalculateRpp(Some(s)) == RppOut(None, Some(Last(s).close))
  {
    var w := Tail(s, RppWindow);
    var lo, hi := MinLow(w), MaxHigh(w);
    var i :| 0 <= i < |w| && w[i].low == lo;
    var j :| 0 <= j < |w| && w[j].high == hi;
    assert w[i] == s[|s| - |w| + i] && w[j] == s[|s| - |w| + j];
  }

  /** The closing prices of a series. */
  function Closes(s: seq<Bar>): (c: seq<real>)
    ensures |c| == |s|
    ensures forall i :: 0 <= i < |s| ==> c[i] == s[i].close
  {
    seq(|s|, i requires 0 <= i < |s| => s[i].close)
  }

  function Sum(xs: seq<real>): real {
    if xs == [] then 0.0 else xs[0] + Sum(xs[1..])
  }

  /** rolling(window).mean() at the last index: the simple moving average of a full window. */
  function Mean(xs: seq<real>): real
    requires |xs| == BandWindow
  {
    Sum(xs) / 20.0
  }

  lemma {:induction false} SumBetween(xs: seq<real>, lo: real, hi: real)
    requires forall i :: 0 <= i < |xs| ==> lo <= xs[i] <= hi
    ensures lo * (|xs| as real) <= Sum(xs) <= hi * (|xs| as real)
  {
    if xs != [] {
      assert forall i :: 0 <= i < |xs[1..]| ==> xs[1..][i] == xs[i + 1];
      SumBetween(xs[1..], lo, hi);
    }
  }

  /** The latest band values and the last close. */
  datatype Bands = Bands(upper: real, middle: real, lower: real, price: real)

  /**
   * calculate_bollinger_bands: None (the four Nones) below 20 bars; otherwise the
   * 20-close mean with bands 2 sigma either side, and the last close. `sigma`
   * stands for pandas' rolling standard deviation of the window's closes.
   */
  function CalculateBollingerBands(data: Option<seq<Bar>>, sigma: seq<real> -> real): (r: Option<Bands>)
    requires forall xs :: sigma(xs) >= 0.0
    ensures r.None? <==> data.None? || |data.value| < BandWindow
    ensures r.Some? ==>
      var closes := Closes(Tail(data.value, BandWindow));
      && r.value.middle == Mean(closes)
      && r.value.lower <= r.value.middle <= r.value.upper
      && r.value.upper - r.value.middle == r.value.middle - r.value.lower == NumStd * sigma(closes)
      && r.value.price == Last(data.value).close
  {
    if data.None? || |data.value| < BandWindow then None
    else
      var closes := Closes(Tail(data.value, BandWindow));
      var sma := Mean(closes);
      var sd := sigma(closes);
      Some(Bands(sma + sd * NumStd, sma, sma - sd * NumStd, Last(Closes(data.value))))
  }

  /** The middle band lies between the lowest and highest of the last 20 closes. */
  lemma MiddleWithinCloses(s: seq<Bar>, sigma: seq<real> -> real, lo: real, hi: real)
    requires forall xs :: sigma(xs) >= 0.0
    requires |s| >= BandWindow
    requires forall i :: |s| - BandWindow <= i < |s| ==> lo <= s[i].close <= hi
    ensures lo <= CalculateBollingerBands(Some(s), sigma).value.middle <= hi
  {
    var closes := Closes(Tail(s, BandWindow));
    assert forall i :: 0 <= i < |closes| ==> closes[i] == s[|s| - BandWindow + i].close;
    SumBetween(closes, lo, hi);
    var n := |closes| as real;
    assert n == 20.0;
    assert lo * n <= Sum(closes) <= hi * n;
    assert Sum(closes) / n >= lo by {
      assert Sum(closes) / n * n == Sum(closes);
    }
    assert Sum(closes) / n <= hi by {
      assert Sum(closes) / n * n == Sum(closes);
    }
  }
}
