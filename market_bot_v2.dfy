/**
 * The second bot: the same indicators, thresholds read from the config table,
 * a day-granular bar cache in front of the price provider, de-duplicated
 * alerts recorded in the signal history, and admin commands that validate and
 * store new settings.
 *
 * The provider is a function from ticker to what it would return at `now`;
 * float() and str() on floats are the parameters `parseFloat` and `showFloat`;
 * the de-duplication policy is the oracle `shouldSend`.
 */
module BotV2 {
  import opened Market
  import opened Indicators
  import opened Classifier
  import opened Text
  import opened Database
  import BotV1

  /** get_cached_stock_data's default look-back, in calendar days. */
  const CacheDays: int := 180

  const IntervalKey: string := "check_interval"
  const BuyKey: string := "rpp_buy_threshold"
  const SellKey: string := "rpp_sell_threshold"
  const CooldownKey: string := "signal_cooldown_hours"

  // ---------------------------------------------------------------------------
  // fetch_and_cache_stock_data
  // ---------------------------------------------------------------------------

  /** The provider is asked, and its frame used and saved, only for a stale ticker with a non-empty answer. */
  predicate FetchesFresh(bars: map<BarKey, Bar>, ticker: string, now: int, outcome: FetchOutcome) {
    Stale(bars, ticker, now) && outcome.Fetched? && outcome.bars != []
  }

  /**
   * The frame fetch_and_cache_stock_data returns: the provider's frame when it
   * fetches fresh, otherwise the cache's last 180 days (on a fresh cache, an
   * empty answer, or an exception alike).
   */
  ghost predicate IsFetchedData(bars: map<BarKey, Bar>, ticker: string, now: int, outcome: FetchOutcome, r: Option<seq<Bar>>) {
    if FetchesFresh(bars, ticker, now, outcome) then r == Some(outcome.bars)
    else IsCachedRead(bars, ticker, Today(now) - CacheDays, r)
  }

  /** The bar table after fetch_and_cache_stock_data. */
  function AfterFetch(bars: map<BarKey, Bar>, ticker: string, now: int, outcome: FetchOutcome): map<BarKey, Bar> {
    if FetchesFresh(bars, ticker, now, outcome) then Upserted(bars, ticker, outcome.bars) else bars
  }

  method FetchAndCache(store: Store, ticker: string, now: int, outcome: FetchOutcome) returns (r: Option<seq<Bar>>)
    requires store.Valid()
    modifies store
    ensures store.Valid()
    ensures IsFetchedData(old(store.bars), ticker, now, outcome, r)
    ensures store.bars == AfterFetch(old(store.bars), ticker, now, outcome)
    ensures !Stale(old(store.bars), ticker, now) ==> r.Some?
    ensures store.watchlist == old(store.watchlist) && store.config == old(store.config)
    ensures store.history == old(store.history)
  {
    var stale := store.NeedsUpdate(ticker, now);
    if !stale {
      r := store.GetCachedStockData(ticker, CacheDays, now);
      FreshCacheIsRead(store.bars, ticker, now, CacheDays, r);
      return;
    }
    match outcome
    case Raised =>
      r := store.GetCachedStockData(ticker, CacheDays, now);
    case Fetched(df) =>
      if df == [] {
        r := store.GetCachedStockData(ticker, CacheDays, now);
      } else {
        store.SaveStockData(ticker, df);
        r := Some(df);
      }
  }

  /** A ticker's fetch leaves every other ticker's rows as they were. */
  lemma AfterFetchOtherRows(bars: map<BarKey, Bar>, ticker: string, now: int, outcome: FetchOutcome, other: string)
    requires other != ticker
    ensures SameRows(AfterFetch(bars, ticker, now, outcome), bars, other)
  {
    if FetchesFresh(bars, ticker, now, outcome) {
      forall d
        ensures ((other, d) in AfterFetch(bars, ticker, now, outcome) <==> (other, d) in bars)
        ensures (other, d) in bars ==> AfterFetch(bars, ticker, now, outcome)[(other, d)] == bars[(other, d)]
      {
        UpsertedFrame(bars, ticker, outcome.bars, (other, d));
      }
    }
  }

  // ---------------------------------------------------------------------------
  // analyze_stock
  // ---------------------------------------------------------------------------

  /** float(get_config(key)): None where float() would raise (a missing key or text float() refuses). */
  function ConfigReal(config: map<string, string>, key: string, parseFloat: string -> Option<real>): (r: Option<real>)
    ensures r.Some? <==> key in config && parseFloat(config[key]).Some?
    ensures r.Some? ==> r == parseFloat(config[key])
  {
    if key in config then parseFloat(config[key]) else None
  }

  /** The (buy, sell) thresholds analyze_stock reads, or None when either read raises. */
  function Thresholds(config: map<string, string>, parseFloat: string -> Option<real>): (r: Option<(real, real)>)
    ensures r.Some? <==> ConfigReal(config, BuyKey, parseFloat).Some? && ConfigReal(config, SellKey, parseFloat).Some?
    ensures r.Some? ==> r.value == (ConfigReal(config, BuyKey, parseFloat).value, ConfigReal(config, SellKey, parseFloat).value)
  {
    var buy := ConfigReal(config, BuyKey, parseFloat);
    var sell := ConfigReal(config, SellKey, parseFloat);
    if buy.Some? && sell.Some? then Some((buy.value, sell.value)) else None
  }

  /** The analysis of one ticker's frame: nothing without a frame or without thresholds. */
  function Verdict(ticker: string, df: Option<seq<Bar>>, sigma: seq<real> -> real, thresholds: Option<(real, real)>): (r: Option<Analysis>)
    requires forall xs :: sigma(xs) >= 0.0
    ensures r.Some? ==> df.Some? && thresholds.Some? && r.value.ticker == ticker
  {
    if df.None? || thresholds.None? then None
    else Classify(ticker, df, sigma, thresholds.value.0, thresholds.value.1)
  }

  /**
   * analyze_stock: fetch through the cache; no frame means no signal (before the
   * thresholds are read); otherwise read both thresholds, where `failed` stands
   * for the exception float() raises, and decide.
   */
  method AnalyzeStock(store: Store, ticker: string, now: int, outcome: FetchOutcome,
                      sigma: seq<real> -> real, parseFloat: string -> Option<real>)
    returns (r: Option<Analysis>, failed: bool, ghost df: Option<seq<Bar>>)
    requires store.Valid()
    requires forall xs :: sigma(xs) >= 0.0
    modifies store
    ensures store.Valid()
    ensures IsFetchedData(old(store.bars), ticker, now, outcome, df)
    ensures store.bars == AfterFetch(old(store.bars), ticker, now, outcome)
    ensures store.watchlist == old(store.watchlist) && store.config == old(store.config)
    ensures store.history == old(store.history)
    ensures failed <==> df.Some? && Thresholds(store.config, parseFloat).None?
    ensures r == Verdict(ticker, df, sigma, Thresholds(store.config, parseFloat))
  {
    var data := FetchAndCache(store, ticker, now, outcome);
    df := data;
    if data.None? {
      return None, false, df;
    }
    var buy := if BuyKey in store.config then parseFloat(store.config[BuyKey]) else None;
    var sell := if SellKey in store.config then parseFloat(store.config[SellKey]) else None;
    if buy.None? || sell.None? {
      return None, true, df;
    }
    r, failed := Classify(ticker, data, sigma, buy.value, sell.value), false;
  }

  // ---------------------------------------------------------------------------
  // check_all_stocks
  // ---------------------------------------------------------------------------

  /**
   * should_send_signal(ticker, signal, price, force): the de-duplication
   * policy, given the signal history and config as they stand when asked.
   */
  type Dedup = (seq<SignalRecord>, map<string, string>, string, Kind, real, bool) -> bool

  /** The signal_history row save_signal writes for an alert. */
  function RecordOf(a: Analysis, now: int): SignalRecord {
    SignalRecord(a.ticker, a.signal, a.price, a.rpp, now)
  }

  function Records(alerts: seq<Analysis>, now: int): (rs: seq<SignalRecord>)
    ensures |rs| == |alerts|
    ensures forall i :: 0 <= i < |alerts| ==> rs[i] == RecordOf(alerts[i], now)
  {
    seq(|alerts|, i requires 0 <= i < |alerts| => RecordOf(alerts[i], now))
  }

  /**
   * The alerts one run sends, given the verdicts in watchlist order: a signal
   * is sent when the policy approves it against the history as it stands,
   * including the rows this run has already saved.
   */
  function Dispatched(history: seq<SignalRecord>, config: map<string, string>, verdicts: seq<Option<Analysis>>,
                      shouldSend: Dedup, force: bool, now: int): seq<Analysis>
  {
    if verdicts == [] then []
    else
      var earlier := Dispatched(history, config, verdicts[..|verdicts| - 1], shouldSend, force, now);
      var v := verdicts[|verdicts| - 1];
      if v.Some? && shouldSend(history + Records(earlier, now), config, v.value.ticker, v.value.signal, v.value.price, force)
      then earlier + [v.value]
      else earlier
  }

  /** Only signals are sent, each at most once, and the policy saw each one before it went out. */
  lemma {:induction false} DispatchedSound(history: seq<SignalRecord>, config: map<string, string>, verdicts: seq<Option<Analysis>>,
                                           shouldSend: Dedup, force: bool, now: int)
    ensures var sent := Dispatched(history, config, verdicts, shouldSend, force, now);
      && |sent| <= |verdicts|
      && (forall a :: a in sent ==> Some(a) in verdicts)
      && (forall i :: 0 <= i < |sent| ==>
            shouldSend(history + Records(sent[..i], now), config, sent[i].ticker, sent[i].signal, sent[i].price, force))
  {
    if verdicts != [] {
      var init := verdicts[..|verdicts| - 1];
      DispatchedSound(history, config, init, shouldSend, force, now);
      var earlier := Dispatched(history, config, init, shouldSend, force, now);
      var sent := Dispatched(history, config, verdicts, shouldSend, force, now);
      assert forall v :: v in init ==> v in verdicts;
      forall i | 0 <= i < |sent|
        ensures shouldSend(history + Records(sent[..i], now), config, sent[i].ticker, sent[i].signal, sent[i].price, force)
      {
        if i < |earlier| {
          assert sent[..i] == earlier[..i];
          assert sent[i] == earlier[i];
        } else {
          assert sent[..i] == earlier;
        }
      }
    }
  }

  /**
   * Where each alert Dispatched sends comes from: strictly increasing positions
   * of `verdicts`, each holding that alert, so the alerts are the approved
   * signals in watchlist order and no verdict is sent twice.
   */
  function SentAt(history: seq<SignalRecord>, config: map<string, string>, verdicts: seq<Option<Analysis>>,
                  shouldSend: Dedup, force: bool, now: int): (idx: seq<nat>)
    ensures |idx| == |Dispatched(history, config, verdicts, shouldSend, force, now)|
    ensures forall i, j :: 0 <= i < j < |idx| ==> idx[i] < idx[j]
    ensures forall i :: 0 <= i < |idx| ==> idx[i] < |verdicts|
    ensures forall i :: 0 <= i < |idx| ==> verdicts[idx[i]] == Some(Dispatched(history, config, verdicts, shouldSend, force, now)[i])
  {
    if verdicts == [] then []
    else
      var n := |verdicts| - 1;
      var init := verdicts[..n];
      var earlier := Dispatched(history, config, init, shouldSend, force, now);
      var v := verdicts[n];
      var idx := SentAt(history, config, init, shouldSend, force, now);
      assert forall i :: 0 <= i < |idx| ==> init[idx[i]] == verdicts[idx[i]];
      if v.Some? && shouldSend(history + Records(earlier, now), config, v.value.ticker, v.value.signal, v.value.price, force)
      then
        assert Dispatched(history, config, verdicts, shouldSend, force, now) == earlier + [v.value];
        idx + [n]
      else
        assert Dispatched(history, config, verdicts, shouldSend, force, now) == earlier;
        idx
  }

  /** No two alerts of `sent` name the same ticker. */
  predicate OneAlertPerTicker(sent: seq<Analysis>) {
    forall i, j :: 0 <= i < j < |sent| ==> sent[i].ticker != sent[j].ticker
  }

  /** When no two signals of the run name the same ticker, neither do any two alerts sent. */
  lemma DispatchedOncePerTicker(history: seq<SignalRecord>, config: map<string, string>, verdicts: seq<Option<Analysis>>,
                                shouldSend: Dedup, force: bool, now: int)
    requires forall i, j :: 0 <= i < j < |verdicts| && verdicts[i].Some? && verdicts[j].Some? ==>
      verdicts[i].value.ticker != verdicts[j].value.ticker
    ensures OneAlertPerTicker(Dispatched(history, config, verdicts, shouldSend, force, now))
  {
    var sent := Dispatched(history, config, verdicts, shouldSend, force, now);
    var idx := SentAt(history, config, verdicts, shouldSend, force, now);
    forall i, j | 0 <= i < j < |sent|
      ensures sent[i].ticker != sent[j].ticker
    {
      assert verdicts[idx[i]] == Some(sent[i]) && verdicts[idx[j]] == Some(sent[j]);
    }
  }

  /** With a policy that approves everything, every signal of the run is sent. */
  lemma {:induction false} DispatchedPermissive(history: seq<SignalRecord>, config: map<string, string>, verdicts: seq<Option<Analysis>>,
                                                shouldSend: Dedup, force: bool, now: int)
    requires forall h, t, k, p :: shouldSend(h, config, t, k, p, force)
    ensures forall i :: 0 <= i < |verdicts| && verdicts[i].Some? ==>
      verdicts[i].value in Dispatched(history, config, verdicts, shouldSend, force, now)
  {
    if verdicts != [] {
      var init := verdicts[..|verdicts| - 1];
      DispatchedPermissive(history, config, init, shouldSend, force, now);
      forall i | 0 <= i < |verdicts| - 1 && verdicts[i].Some?
        ensures verdicts[i].value in Dispatched(history, config, verdicts, shouldSend, force, now)
      {
        assert init[i] == verdicts[i];
      }
    }
  }

  /** The outcome of each ticker of a run, ticker by ticker, under the analysis `judge`. */
  function Judged(tickers: seq<string>, frames: seq<Option<seq<Bar>>>,
                  judge: (string, Option<seq<Bar>>) -> Option<Analysis>): (vs: seq<Option<Analysis>>)
    requires |tickers| == |frames|
    ensures |vs| == |frames|
  {
    if frames == [] then []
    else
      var n := |frames| - 1;
      Judged(tickers[..n], frames[..n], judge) + [judge(tickers[n], frames[n])]
  }

  lemma {:induction false} JudgedPrefixAt(tickers: seq<string>, frames: seq<Option<seq<Bar>>>,
                                          judge: (string, Option<seq<Bar>>) -> Option<Analysis>, i: nat, k: nat)
    requires |tickers| == |frames| && i < k <= |frames|
    ensures Judged(tickers[..k], frames[..k], judge)[i] == judge(tickers[i], frames[i])
    decreases k
  {
    var ts, fs := tickers[..k], frames[..k];
    assert ts[k - 1] == tickers[k - 1] && fs[k - 1] == frames[k - 1];
    if i < k - 1 {
      assert ts[..k - 1] == tickers[..k - 1] && fs[..k - 1] == frames[..k - 1];
      JudgedPrefixAt(tickers, frames, judge, i, k - 1);
    }
  }

  lemma JudgedSnoc(tickers: seq<string>, frames: seq<Option<seq<Bar>>>, t: string, f: Option<seq<Bar>>,
                   judge: (string, Option<seq<Bar>>) -> Option<Analysis>)
    requires |tickers| == |frames|
    ensures Judged(tickers + [t], frames + [f], judge) == Judged(tickers, frames, judge) + [judge(t, f)]
  {
    assert (tickers + [t])[..|tickers|] == tickers;
    assert (frames + [f])[..|frames|] == frames;
  }

  /** The verdicts of a run: analyze_stock's decision on each ticker's frame. */
  function Verdicts(tickers: seq<string>, frames: seq<Option<seq<Bar>>>, sigma: seq<real> -> real,
                    thresholds: Option<(real, real)>): (vs: seq<Option<Analysis>>)
    requires |tickers| == |frames|
    requires forall xs :: sigma(xs) >= 0.0
    ensures |vs| == |frames|
  {
    Judged(tickers, frames, (t, f) => Verdict(t, f, sigma, thresholds))
  }

  /** Each verdict is the analysis of its own ticker's frame. */
  lemma VerdictsAt(tickers: seq<string>, frames: seq<Option<seq<Bar>>>, sigma: seq<real> -> real,
                   thresholds: Option<(real, real)>, i: nat)
    requires |tickers| == |frames| && i < |frames|
    requires forall xs :: sigma(xs) >= 0.0
    ensures Verdicts(tickers, frames, sigma, thresholds)[i] == Verdict(tickers[i], frames[i], sigma, thresholds)
  {
    assert tickers[..|frames|] == tickers && frames[..|frames|] == frames;
    JudgedPrefixAt(tickers, frames, (t, f) => Verdict(t, f, sigma, thresholds), i, |frames|);
  }

  /** Every signal of a run names its own ticker, so distinct tickers give signals about distinct tickers. */
  lemma VerdictsNameTickers(tickers: seq<string>, frames: seq<Option<seq<Bar>>>, sigma: seq<real> -> real,
                            thresholds: Option<(real, real)>)
    requires |tickers| == |frames|
    requires forall xs :: sigma(xs) >= 0.0
    requires forall a, b :: 0 <= a < b < |tickers| ==> tickers[a] != tickers[b]
    ensures var vs := Verdicts(tickers, frames, sigma, thresholds);
      forall i, j :: 0 <= i < j < |vs| && vs[i].Some? && vs[j].Some? ==> vs[i].value.ticker != vs[j].value.ticker
  {
    var vs := Verdicts(tickers, frames, sigma, thresholds);
    forall i, j | 0 <= i < j < |vs| && vs[i].Some? && vs[j].Some?
      ensures vs[i].value.ticker != vs[j].value.ticker
    {
      VerdictsAt(tickers, frames, sigma, thresholds, i);
      VerdictsAt(tickers, frames, sigma, thresholds, j);
    }
  }

  /** The bar table after the run has fetched for each ticker in turn. */
  function Refreshed(bars: map<BarKey, Bar>, tickers: seq<string>, provider: string -> FetchOutcome, now: int): map<BarKey, Bar> {
    if tickers == [] then bars
    else
      var t := tickers[|tickers| - 1];
      AfterFetch(Refreshed(bars, tickers[..|tickers| - 1], provider, now), t, now, provider(t))
  }

  /** Fetching for some tickers leaves the rows of every other ticker as they were. */
  lemma {:induction false} RefreshedOtherRows(bars: map<BarKey, Bar>, tickers: seq<string>, provider: string -> FetchOutcome, now: int, other: string)
    requires other !in tickers
    ensures SameRows(Refreshed(bars, tickers, provider, now), bars, other)
  {
    if tickers != [] {
      var init := tickers[..|tickers| - 1];
      var t := tickers[|tickers| - 1];
      assert other !in init by {
        assert forall x :: x in init ==> x in tickers;
      }
      RefreshedOtherRows(bars, init, provider, now, other);
      AfterFetchOtherRows(Refreshed(bars, init, provider, now), t, now, provider(t), other);
    }
  }

  /**
   * On a watchlist without repeats, each ticker's frame is what it would be on
   * the cache as the run found it: the fetches before it touched other rows only.
   */
  lemma FrameSeesStartingCache(bars: map<BarKey, Bar>, tickers: seq<string>, provider: string -> FetchOutcome,
                               now: int, i: nat, df: Option<seq<Bar>>)
    requires i < |tickers|
    requires forall a, b :: 0 <= a < b < |tickers| ==> tickers[a] != tickers[b]
    ensures IsFetchedData(Refreshed(bars, tickers[..i], provider, now), tickers[i], now, provider(tickers[i]), df)
        <==> IsFetchedData(bars, tickers[i], now, provider(tickers[i]), df)
  {
    var t := tickers[i];
    assert t !in tickers[..i];
    var current := Refreshed(bars, tickers[..i], provider, now);
    RefreshedOtherRows(bars, tickers[..i], provider, now, t);
    OwnRowsDecide(current, bars, t, now, Today(now) - CacheDays, df);
  }

  lemma VerdictsSnoc(tickers: seq<string>, frames: seq<Option<seq<Bar>>>, t: string, f: Option<seq<Bar>>,
                     sigma: seq<real> -> real, thresholds: Option<(real, real)>)
    requires |tickers| == |frames|
    requires forall xs :: sigma(xs) >= 0.0
    ensures Verdicts(tickers + [t], frames + [f], sigma, thresholds)
         == Verdicts(tickers, frames, sigma, thresholds) + [Verdict(t, f, sigma, thresholds)]
  {
    JudgedSnoc(tickers, frames, t, f, (t', f') => Verdict(t', f', sigma, thresholds));
  }

  lemma DispatchedSnoc(history: seq<SignalRecord>, config: map<string, string>, verdicts: seq<Option<Analysis>>,
                       v: Option<Analysis>, shouldSend: Dedup, force: bool, now: int)
    ensures var earlier := Dispatched(history, config, verdicts, shouldSend, force, now);
      Dispatched(history, config, verdicts + [v], shouldSend, force, now)
      == if v.Some? && shouldSend(history + Records(earlier, now), config, v.value.ticker, v.value.signal, v.value.price, force)
         then earlier + [v.value] else earlier
  {
    assert (verdicts + [v])[..|verdicts|] == verdicts;
  }

  lemma RefreshedSnoc(bars: map<BarKey, Bar>, tickers: seq<string>, t: string, provider: string -> FetchOutcome, now: int)
    ensures Refreshed(bars, tickers + [t], provider, now) == AfterFetch(Refreshed(bars, tickers, provider, now), t, now, provider(t))
  {
    assert (tickers + [t])[..|tickers|] == tickers;
  }

  /** Saving one more alert appends its row after the rows of the earlier ones. */
  lemma RecordsSnoc(history: seq<SignalRecord>, alerts: seq<Analysis>, a: Analysis, now: int)
    ensures history + Records(alerts + [a], now) == (history + Records(alerts, now)) + [RecordOf(a, now)]
  {
    assert Records(alerts + [a], now) == Records(alerts, now) + [RecordOf(a, now)];
  }

  /** Each frame of the run is what fetch_and_cache_stock_data returned on the cache as it then stood. */
  ghost predicate FramesFetched(bars: map<BarKey, Bar>, tickers: seq<string>, frames: seq<Option<seq<Bar>>>,
                                provider: string -> FetchOutcome, now: int)
    requires |frames| <= |tickers|
  {
    frames == [] ||
      var n := |frames| - 1;
      && FramesFetched(bars, tickers, frames[..n], provider, now)
      && IsFetchedData(Refreshed(bars, tickers[..n], provider, now), tickers[n], now, provider(tickers[n]), frames[n])
  }

  lemma FramesFetchedSnoc(bars: map<BarKey, Bar>, tickers: seq<string>, frames: seq<Option<seq<Bar>>>,
                          provider: string -> FetchOutcome, now: int, df: Option<seq<Bar>>)
    requires |frames| < |tickers|
    requires FramesFetched(bars, tickers, frames, provider, now)
    requires IsFetchedData(Refreshed(bars, tickers[..|frames|], provider, now), tickers[|frames|], now, provider(tickers[|frames|]), df)
    ensures FramesFetched(bars, tickers, frames + [df], provider, now)
  {
    assert (frames + [df])[..|frames|] == frames;
  }

  /** FramesFetched, frame by frame. */
  lemma {:induction false} FramesFetchedAt(bars: map<BarKey, Bar>, tickers: seq<string>, frames: seq<Option<seq<Bar>>>,
                                           provider: string -> FetchOutcome, now: int, i: nat)
    requires |frames| <= |tickers| && i < |frames|
    requires FramesFetched(bars, tickers, frames, provider, now)
    ensures IsFetchedData(Refreshed(bars, tickers[..i], provider, now), tickers[i], now, provider(tickers[i]), frames[i])
  {
    var n := |frames| - 1;
    if i < n {
      assert frames[..n][i] == frames[i];
      FramesFetchedAt(bars, tickers, frames[..n], provider, now, i);
    }
  }

  /**
   * The state of a run of check_all_stocks after the first |frames| tickers of
   * `order`: the frames each fetch returned, the bar table those fetches left,
   * the alerts sent so far and the history with their rows appended.
   */
  ghost predicate RunSoFar(bars0: map<BarKey, Bar>, history0: seq<SignalRecord>, config: map<string, string>,
                           order: seq<string>, frames: seq<Option<seq<Bar>>>, sent: seq<Analysis>,
                           bars: map<BarKey, Bar>, history: seq<SignalRecord>,
                           provider: string -> FetchOutcome, sigma: seq<real> -> real,
                           parseFloat: string -> Option<real>, shouldSend: Dedup, force: bool, now: int)
    requires forall xs :: sigma(xs) >= 0.0
  {
    && |frames| <= |order|
    && FramesFetched(bars0, order, frames, provider, now)
    && bars == Refreshed(bars0, order[..|frames|], provider, now)
    && sent == Dispatched(history0, config, Verdicts(order[..|frames|], frames, sigma, Thresholds(config, parseFloat)),
                          shouldSend, force, now)
    && history == history0 + Records(sent, now)
  }

  /** One more ticker: fetch, decide, and save and send the alert if the policy approves it. */
  lemma RunStep(bars0: map<BarKey, Bar>, history0: seq<SignalRecord>, config: map<string, string>,
                order: seq<string>, frames: seq<Option<seq<Bar>>>, sent: seq<Analysis>,
                bars: map<BarKey, Bar>, history: seq<SignalRecord>,
                provider: string -> FetchOutcome, sigma: seq<real> -> real,
                parseFloat: string -> Option<real>, shouldSend: Dedup, force: bool, now: int,
                df: Option<seq<Bar>>, v: Option<Analysis>, sent': seq<Analysis>, bars': map<BarKey, Bar>, history': seq<SignalRecord>)
    requires forall xs :: sigma(xs) >= 0.0
    requires RunSoFar(bars0, history0, config, order, frames, sent, bars, history, provider, sigma, parseFloat, shouldSend, force, now)
    requires |frames| < |order|
    requires IsFetchedData(bars, order[|frames|], now, provider(order[|frames|]), df)
    requires bars' == AfterFetch(bars, order[|frames|], now, provider(order[|frames|]))
    requires v == Verdict(order[|frames|], df, sigma, Thresholds(config, parseFloat))
    requires if v.Some? && shouldSend(history, config, v.value.ticker, v.value.signal, v.value.price, force)
             then sent' == sent + [v.value] && history' == history + [RecordOf(v.value, now)]
             else sent' == sent && history' == history
    ensures RunSoFar(bars0, history0, config, order, frames + [df], sent', bars', history', provider, sigma, parseFloat, shouldSend, force, now)
  {
    var i := |frames|;
    var thresholds := Thresholds(config, parseFloat);
    var verdicts := Verdicts(order[..i], frames, sigma, thresholds);
    assert order[..i + 1] == order[..i] + [order[i]];
    FramesFetchedSnoc(bars0, order, frames, provider, now, df);
    RefreshedSnoc(bars0, order[..i], order[i], provider, now);
    VerdictsSnoc(order[..i], frames, order[i], df, sigma, thresholds);
    assert Verdicts(order[..|frames + [df]|], frames + [df], sigma, thresholds) == verdicts + [v];
    DispatchedSnoc(history0, config, verdicts, v, shouldSend, force, now);
    if v.Some? && shouldSend(history, config, v.value.ticker, v.value.signal, v.value.price, force) {
      RecordsSnoc(history0, sent, v.value, now);
    }
  }

  /** The ticker column of get_watchlist's rows. */
  function Tickers(rows: seq<(string, Option<string>)>): (ts: seq<string>)
    ensures |ts| == |rows|
    ensures forall i :: 0 <= i < |rows| ==> ts[i] == rows[i].0
  {
    seq(|rows|, i requires 0 <= i < |rows| => rows[i].0)
  }

  /** get_watchlist's tickers: every watched ticker once, in ascending order. */
  method WatchlistOrder(store: Store) returns (rows: seq<(string, Option<string>)>, ghost order: seq<string>)
    ensures order == Tickers(rows)
    ensures forall a, b :: 0 <= a < b < |order| ==> LexLess(order[a], order[b])
    ensures (set i | 0 <= i < |order| :: order[i]) == store.watchlist.Keys
  {
    rows := store.GetWatchlist();
    order := Tickers(rows);
    assert (set i | 0 <= i < |order| :: order[i]) == (set i | 0 <= i < |rows| :: rows[i].0);
  }

  /** Ascending tickers hold no repeats. */
  lemma AscendingDistinct(order: seq<string>)
    requires forall a, b :: 0 <= a < b < |order| ==> LexLess(order[a], order[b])
    ensures forall a, b :: 0 <= a < b < |order| ==> order[a] != order[b]
  {
    forall a, b | 0 <= a < b < |order|
      ensures order[a] != order[b]
    {
      LexLessIrreflexive(order[a]);
    }
  }

  /**
   * In a run over the watchlist in ticker order, every ticker is analysed on the
   * frame fetch_and_cache_stock_data would return from the cache as the run
   * found it: no ticker's fetch disturbs a later ticker's rows.
   */
  lemma FramesFromStartingCache(bars: map<BarKey, Bar>, order: seq<string>, frames: seq<Option<seq<Bar>>>,
                                provider: string -> FetchOutcome, now: int, i: nat)
    requires |frames| <= |order| && i < |frames|
    requires forall a, b :: 0 <= a < b < |order| ==> LexLess(order[a], order[b])
    requires FramesFetched(bars, order, frames, provider, now)
    ensures IsFetchedData(bars, order[i], now, provider(order[i]), frames[i])
  {
    FramesFetchedAt(bars, order, frames, provider, now, i);
    AscendingDistinct(order);
    FrameSeesStartingCache(bars, order, provider, now, i, frames[i]);
  }

  /** Rows stamped `now` after a log whose last row is no later than `now` leave that still so. */
  lemma RecordsKeepClock(history: seq<SignalRecord>, alerts: seq<Analysis>, now: int)
    requires history == [] || Last(history).createdAt <= now
    ensures var h := history + Records(alerts, now); h == [] || Last(h).createdAt <= now
  {
    if alerts != [] {
      assert Last(history + Records(alerts, now)) == Records(alerts, now)[|alerts| - 1];
    }
  }

  /** A run over the watchlist in ticker order sends at most one alert per ticker. */
  lemma RunSendsOncePerTicker(bars0: map<BarKey, Bar>, history0: seq<SignalRecord>, config: map<string, string>,
                              order: seq<string>, frames: seq<Option<seq<Bar>>>, sent: seq<Analysis>,
                              bars: map<BarKey, Bar>, history: seq<SignalRecord>,
                              provider: string -> FetchOutcome, sigma: seq<real> -> real,
                              parseFloat: string -> Option<real>, shouldSend: Dedup, force: bool, now: int)
    requires forall xs :: sigma(xs) >= 0.0
    requires forall a, b :: 0 <= a < b < |order| ==> LexLess(order[a], order[b])
    requires RunSoFar(bars0, history0, config, order, frames, sent, bars, history, provider, sigma, parseFloat, shouldSend, force, now)
    ensures OneAlertPerTicker(sent)
  {
    var ts := order[..|frames|];
    AscendingDistinct(order);
    assert forall a, b :: 0 <= a < b < |ts| ==> ts[a] == order[a] && ts[b] == order[b];
    var thresholds := Thresholds(config, parseFloat);
    VerdictsNameTickers(ts, frames, sigma, thresholds);
    DispatchedOncePerTicker(history0, config, Verdicts(ts, frames, sigma, thresholds), shouldSend, force, now);
  }

  /**
   * Where a run over frames ends, when `raises` says whether reading the
   * thresholds raises: it runs to the end when they read, and otherwise stops
   * at the first ticker that has a frame, which is the last frame taken.
   */
  predicate StopsAtRaise(frames: seq<Option<seq<Bar>>>, raises: bool, completed: bool) {
    && (!raises ==> completed)
    && (raises ==>
          && (forall i :: 0 <= i < |frames| - 1 ==> frames[i].None?)
          && (completed <==> forall i :: 0 <= i < |frames| ==> frames[i].None?))
  }

  /** One more ticker: the run goes on past a frameless ticker and stops at a ticker whose analysis raises. */
  lemma StopsAtRaiseStep(frames: seq<Option<seq<Bar>>>, df: Option<seq<Bar>>, raises: bool, failed: bool)
    requires StopsAtRaise(frames, raises, true)
    requires failed <==> df.Some? && raises
    ensures StopsAtRaise(frames + [df], raises, !failed)
  {
    var fs := frames + [df];
    assert forall i :: 0 <= i < |frames| ==> fs[i] == frames[i];
    assert fs[|frames|] == df;
  }

  /**
   * One pass of check_all_stocks' loop: analyse the next ticker of `order`, and
   * save an approved signal before moving on. `failed` is analyze_stock raising.
   */
  method CheckTicker(store: Store, ticker: string, now: int, provider: string -> FetchOutcome, sigma: seq<real> -> real,
                     parseFloat: string -> Option<real>, shouldSend: Dedup, force: bool,
                     ghost bars0: map<BarKey, Bar>, ghost history0: seq<SignalRecord>, ghost order: seq<string>,
                     ghost frames: seq<Option<seq<Bar>>>, sent: seq<Analysis>)
    returns (sent': seq<Analysis>, failed: bool, ghost df: Option<seq<Bar>>)
    requires store.Valid()
    requires forall xs :: sigma(xs) >= 0.0
    requires |frames| < |order| && ticker == order[|frames|]
    requires history0 == [] || Last(history0).createdAt <= now
    requires RunSoFar(bars0, history0, store.config, order, frames, sent, store.bars, store.history,
                      provider, sigma, parseFloat, shouldSend, force, now)
    modifies store
    ensures store.Valid()
    ensures store.watchlist == old(store.watchlist) && store.config == old(store.config)
    ensures failed <==> df.Some? && Thresholds(store.config, parseFloat).None?
    ensures RunSoFar(bars0, history0, store.config, order, frames + [df], sent', store.bars, store.history,
                     provider, sigma, parseFloat, shouldSend, force, now)
  {
    ghost var bars, history := store.bars, store.history;
    RecordsKeepClock(history0, sent, now);
    var analysis;
    analysis, failed, df := AnalyzeStock(store, ticker, now, provider(ticker), sigma, parseFloat);
    sent' := sent;
    if !failed && analysis.Some? {
      var a := analysis.value;
      if shouldSend(store.history, store.config, a.ticker, a.signal, a.price, force) {
        store.SaveSignal(a.ticker, a.signal, a.price, a.rpp, now);
        sent' := sent + [a];
      }
    }
    RunStep(bars0, history0, store.config, order, frames, sent, bars, history,
            provider, sigma, parseFloat, shouldSend, force, now, df, analysis, sent', store.bars, store.history);
  }

  /**
   * The loop of check_all_stocks over the watchlist in ticker order: analyse
   * each ticker, ask the policy about each signal, and save every approved one
   * to the history before the next ticker (the Telegram send is not modelled).
   * The run stops where analyze_stock raises (`completed` false).
   */
  method CheckAllStocks(store: Store, now: int, provider: string -> FetchOutcome, sigma: seq<real> -> real,
                        parseFloat: string -> Option<real>, shouldSend: Dedup, force: bool)
    returns (sent: seq<Analysis>, completed: bool, ghost order: seq<string>, ghost frames: seq<Option<seq<Bar>>>)
    requires store.Valid()
    requires forall xs :: sigma(xs) >= 0.0
    requires store.history == [] || Last(store.history).createdAt <= now
    modifies store
    ensures store.Valid()
    ensures store.watchlist == old(store.watchlist) && store.config == old(store.config)
    ensures forall a, b :: 0 <= a < b < |order| ==> LexLess(order[a], order[b])
    ensures (set i | 0 <= i < |order| :: order[i]) == old(store.watchlist).Keys
    ensures |frames| <= |order|
    ensures completed ==> |frames| == |order|
    ensures !completed ==> frames != [] && frames[|frames| - 1].Some? && Thresholds(store.config, parseFloat).None?
    ensures StopsAtRaise(frames, Thresholds(store.config, parseFloat).None?, completed)
    ensures FramesFetched(old(store.bars), order, frames, provider, now)
    ensures store.bars == Refreshed(old(store.bars), order[..|frames|], provider, now)
    ensures sent == Dispatched(old(store.history), store.config,
                               Verdicts(order[..|frames|], frames, sigma, Thresholds(store.config, parseFloat)),
                               shouldSend, force, now)
    ensures store.history == old(store.history) + Records(sent, now)
    ensures OneAlertPerTicker(sent)
  {
    var rows;
    rows, order := WatchlistOrder(store);
    sent, completed, frames := [], true, [];
    var i := 0;
    while i < |rows|
      invariant 0 <= i <= |rows| && |frames| == i && order == Tickers(rows)
      invariant store.Valid()
      invariant store.watchlist == old(store.watchlist) && store.config == old(store.config)
      invariant StopsAtRaise(frames, Thresholds(store.config, parseFloat).None?, true)
      invariant RunSoFar(old(store.bars), old(store.history), store.config, order, frames, sent, store.bars, store.history,
                         provider, sigma, parseFloat, shouldSend, force, now)
    {
      var sent', failed, df := CheckTicker(store, rows[i].0, now, provider, sigma, parseFloat, shouldSend, force,
                                           old(store.bars), old(store.history), order, frames, sent);
      StopsAtRaiseStep(frames, df, Thresholds(store.config, parseFloat).None?, failed);
      frames := frames + [df];
      sent := sent';
      if failed {
        completed := false;
        break;
      }
      i := i + 1;
    }
    RunSendsOncePerTicker(old(store.bars), old(store.history), store.config, order, frames, sent, store.bars, store.history,
                          provider, sigma, parseFloat, shouldSend, force, now);
  }

  // ---------------------------------------------------------------------------
  // The admin commands that change settings
  // ---------------------------------------------------------------------------

  /** How a settings command ends: ignored for a non-admin, usage text, error text, or stored. */
  datatype Reply = Ignored | Usage | Rejected | Updated

  /** int(arg) must be at least one minute. */
  predicate ValidIntervalMinutes(minutes: int) {
    minutes >= 1
  }

  /** A threshold percentage outside [0, 100] raises ValueError. */
  predicate ValidThreshold(t: real) {
    !(t < 0.0 || t > 100.0)
  }

  /** A negative cooldown raises ValueError; zero switches repeats off. */
  predicate ValidCooldownHours(hours: real) {
    !(hours < 0.0)
  }

  /**
   * cmd_set_interval: a single argument parsed by int() (`parseInt`) that is at
   * least 1 is stored as str(minutes * 60) seconds; anything else leaves the
   * config alone. int() reads the stored text back as the same number of seconds.
   */
  method SetInterval(store: Store, admin: bool, args: seq<string>, parseInt: string -> Option<int>) returns (reply: Reply)
    requires store.Valid()
    modifies store
    ensures store.Valid()
    ensures reply == Ignored <==> !admin
    ensures reply == Usage <==> admin && |args| != 1
    ensures reply == Updated <==> admin && |args| == 1 && parseInt(args[0]).Some? && ValidIntervalMinutes(parseInt(args[0]).value)
    ensures reply == Updated ==>
      && store.config == old(store.config)[IntervalKey := NatText(parseInt(args[0]).value * 60)]
      && ParseNat(store.config[IntervalKey]) == Some(parseInt(args[0]).value * 60)
    ensures reply != Updated ==> store.config == old(store.config)
    ensures store.bars == old(store.bars) && store.watchlist == old(store.watchlist) && store.history == old(store.history)
  {
    if !admin {
      return Ignored;
    }
    if |args| != 1 {
      return Usage;
    }
    var minutes := parseInt(args[0]);
    if minutes.None? || minutes.value < 1 {
      return Rejected;
    }
    var seconds := minutes.value * 60;
    store.SetConfig(IntervalKey, NatText(seconds));
    ParseNatText(seconds);
    reply := Updated;
  }

  /**
   * The shared shape of cmd_set_buy and cmd_set_sell: float() of the single
   * argument, refused outside [0, 100], stored as str(threshold).
   */
  method SetThreshold(store: Store, key: string, admin: bool, args: seq<string>,
                      parseFloat: string -> Option<real>, showFloat: real -> string) returns (reply: Reply)
    requires store.Valid()
    modifies store
    ensures store.Valid()
    ensures reply == Ignored <==> !admin
    ensures reply == Usage <==> admin && |args| != 1
    ensures reply == Updated <==> admin && |args| == 1 && parseFloat(args[0]).Some? && ValidThreshold(parseFloat(args[0]).value)
    ensures reply == Updated ==> store.config == old(store.config)[key := showFloat(parseFloat(args[0]).value)]
    ensures reply != Updated ==> store.config == old(store.config)
    ensures store.bars == old(store.bars) && store.watchlist == old(store.watchlist) && store.history == old(store.history)
  {
    if !admin {
      return Ignored;
    }
    if |args| != 1 {
      return Usage;
    }
    var threshold := parseFloat(args[0]);
    if threshold.None? || threshold.value < 0.0 || threshold.value > 100.0 {
      return Rejected;
    }
    store.SetConfig(key, showFloat(threshold.value));
    reply := Updated;
  }

  /**
   * cmd_set_buy. When float() reads str() of the new value back unchanged, the
   * next analysis uses it as its buy threshold, and the sell threshold is untouched.
   */
  method SetBuy(store: Store, admin: bool, args: seq<string>,
                parseFloat: string -> Option<real>, showFloat: real -> string) returns (reply: Reply)
    requires store.Valid()
    modifies store
    ensures store.Valid()
    ensures reply == Ignored <==> !admin
    ensures reply == Usage <==> admin && |args| != 1
    ensures reply == Updated <==> admin && |args| == 1 && parseFloat(args[0]).Some? && ValidThreshold(parseFloat(args[0]).value)
    ensures reply == Updated ==> store.config == old(store.config)[BuyKey := showFloat(parseFloat(args[0]).value)]
    ensures reply == Updated && parseFloat(showFloat(parseFloat(args[0]).value)) == parseFloat(args[0]) ==>
      ConfigReal(store.config, BuyKey, parseFloat) == parseFloat(args[0])
    ensures ConfigReal(store.config, SellKey, parseFloat) == ConfigReal(old(store.config), SellKey, parseFloat)
    ensures reply != Updated ==> store.config == old(store.config)
    ensures store.bars == old(store.bars) && store.watchlist == old(store.watchlist) && store.history == old(store.history)
  {
    reply := SetThreshold(store, BuyKey, admin, args, parseFloat, showFloat);
  }

  /** cmd_set_sell, the mirror image of cmd_set_buy. */
  method SetSell(store: Store, admin: bool, args: seq<string>,
                 parseFloat: string -> Option<real>, showFloat: real -> string) returns (reply: Reply)
    requires store.Valid()
    modifies store
    ensures store.Valid()
    ensures reply == Ignored <==> !admin
    ensures reply == Usage <==> admin && |args| != 1
    ensures reply == Updated <==> admin && |args| == 1 && parseFloat(args[0]).Some? && ValidThreshold(parseFloat(args[0]).value)
    ensures reply == Updated ==> store.config == old(store.config)[SellKey := showFloat(parseFloat(args[0]).value)]
    ensures reply == Updated && parseFloat(showFloat(parseFloat(args[0]).value)) == parseFloat(args[0]) ==>
      ConfigReal(store.config, SellKey, parseFloat) == parseFloat(args[0])
    ensures ConfigReal(store.config, BuyKey, parseFloat) == ConfigReal(old(store.config), BuyKey, parseFloat)
    ensures reply != Updated ==> store.config == old(store.config)
    ensures store.bars == old(store.bars) && store.watchlist == old(store.watchlist) && store.history == old(store.history)
  {
    reply := SetThreshold(store, SellKey, admin, args, parseFloat, showFloat);
  }

  /** cmd_set_cooldown: float() of the single argument, refused when negative, stored as str(hours). */
  method SetCooldown(store: Store, admin: bool, args: seq<string>,
                     parseFloat: string -> Option<real>, showFloat: real -> string) returns (reply: Reply)
    requires store.Valid()
    modifies store
    ensures store.Valid()
    ensures reply == Ignored <==> !admin
    ensures reply == Usage <==> admin && |args| != 1
    ensures reply == Updated <==> admin && |args| == 1 && parseFloat(args[0]).Some? && ValidCooldownHours(parseFloat(args[0]).value)
    ensures reply == Updated ==> store.config == old(store.config)[CooldownKey := showFloat(parseFloat(args[0]).value)]
    ensures reply != Updated ==> store.config == old(store.config)
    ensures store.bars == old(store.bars) && store.watchlist == old(store.watchlist) && store.history == old(store.history)
  {
    if !admin {
      return Ignored;
    }
    if |args| != 1 {
      return Usage;
    }
    var hours := parseFloat(args[0]);
    if hours.None? || hours.value < 0.0 {
      return Rejected;
    }
    store.SetConfig(CooldownKey, showFloat(hours.value));
    reply := Updated;
  }

  /** The seeded interval reads back as the first bot's fixed period of 900 seconds. */
  lemma DefaultIntervalParses()
    ensures DefaultConfig[0].0 == IntervalKey
    ensures ParseNat(DefaultConfig[0].1) == Some(BotV1.CheckInterval)
  {
    ParseNatText(900);
    assert NatText(900) == DefaultConfig[0].1;
  }
}
