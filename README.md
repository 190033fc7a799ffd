# fat-wallet market alerts, modelled in Dafny

fat-wallet is a stock-alert bot. For every ticker on a watchlist it loads daily
price bars and computes two indicators:

- the Relative Price Position (RPP): where the last close sits, in percent,
  between the lowest low and the highest high of the last 180 bars;
- 20-bar Bollinger Bands: a 20-close moving average plus and minus two standard
  deviations.

A close below the lower band with an RPP under the buy threshold is a
'STRONG BUY'. A close above the upper band with an RPP over the sell threshold
is a 'STRONG SELL'.

There are two bots:

- The first bot (`market_bot.py`) fetches afresh on every check and uses fixed
  thresholds of 10 and 90.
- The second bot (`market_bot_v2.py`) keeps its state in SQLite (`database.py`).
  That state is a bar cache keyed by (ticker, date), the watchlist, a
  string-valued config table and the history of sent signals. It reads its
  thresholds from the config table, asks a de-duplication policy before it
  records and sends an alert, and has admin commands that validate and store
  new settings.

The project has one Dafny module per concern:

| file | module | models |
|---|---|---|
| `types.dfy` | `Market` | bars, verdict kinds, the analysis record, provider outcomes, history rows |
| `indicators.dfy` | `Indicators` | `calculate_rpp` and `calculate_bollinger_bands` (the same in both bots) |
| `classifier.dfy` | `Classifier` | the decision of `analyze_stock` on a frame and two thresholds |
| `market_bot.dfy` | `BotV1` | the first bot: `fetch_stock_data` and `analyze_stock` with 10/90 |
| `text.dfy` | `Text` | `str.upper()`, SQLite's binary text order, and `str(int)`/`int(str)` |
| `database.dfy` | `Database` | the SQLite store as a class `Store`, whose fields are its four tables |
| `market_bot_v2.dfy` | `BotV2` | fetch-through-cache, `analyze_stock`, the `check_all_stocks` loop and the settings commands |

Some inputs are parameters:

- the clock is an integer `now`, in seconds, and a bar date is a day number,
  `now / 86400`;
- the price provider is a function from ticker to `Fetched(bars)` or `Raised`;
- pandas' rolling standard deviation is a non-negative function `sigma` of the
  last 20 closes;
- Python's `float()` and `str()` on floats are the functions `parseFloat` and
  `showFloat`, and `int()` in `/set_interval` is `parseInt`;
- the de-duplication policy `should_send_signal` is an oracle, `shouldSend`.
  It sees the signal history and the config as they stand when it is asked.

## Model

| member | source | states |
|---|---|---|
| `Indicators.Tail` | market_bot_v2.py:59 | `df.tail(180) if len(df) >= 180 else df` is the last min(n, len) bars, as a suffix |
| `Indicators.MinLow` | market_bot_v2.py:61 | the result is the lowest low of the window, and some bar has it |
| `Indicators.MaxHigh` | market_bot_v2.py:62 | the result is the highest high of the window, and some bar has it |
| `Indicators.Position` | market_bot_v2.py:68 | the RPP formula, stated without division: score × (max − min) = (close − min) × 100 |
| `Indicators.CalculateRpp` | market_bot_v2.py:54-69 | (None, None) without data or below 20 bars; (None, close) on a flat 180-bar range; otherwise the close's position in that range |
| `Indicators.ScaledBounds` | market_bot_v2.py:68 | a scaled position of a value inside [0, d] lies in [0, 100] |
| `Indicators.PositionBounds` | market_bot_v2.py:68 | a price inside a non-empty range has a position in [0, 100] |
| `Indicators.RppInRange` | market_bot_v2.py:54-69 | whenever the last bar has low ≤ close ≤ high, the RPP score is in [0, 100] |
| `Indicators.FlatWindowHasNoRpp` | market_bot_v2.py:64-65 | a window with every low and high equal to p has no score, but still reports the close |
| `Indicators.Closes` | market_bot_v2.py:77 | the Close column, bar by bar |
| `Indicators.SumBetween` | market_bot_v2.py:78 | a sum of n values in [lo, hi] lies in [n·lo, n·hi] (used to bound the moving average) |
| `Indicators.CalculateBollingerBands` | market_bot_v2.py:72-89 | None below 20 bars; otherwise the middle band is the mean of the last 20 closes, the bands sit 2σ either side and are ordered, and the price is the last close |
| `Indicators.MiddleWithinCloses` | market_bot_v2.py:78 | the middle band lies between the lowest and highest of the last 20 closes |
| `Classifier.TakeSnapshot` | market_bot_v2.py:103-107 | both indicators exist iff there are at least 20 bars and the range is not flat; the snapshot carries the last close, the score and ordered bands |
| `Classifier.Decide` | market_bot_v2.py:109-136 | a signal reports the snapshot's price, score and bands, and carries the band trigger and then the RPP trigger of its branch |
| `Classifier.DecideIff` | market_bot_v2.py:112-122 | 'STRONG BUY' iff close < lower and RPP < buy; 'STRONG SELL' iff close > upper and RPP > sell; no signal iff neither holds; never both |
| `Classifier.Classify` | market_bot_v2.py:92-136 | a signal needs a frame of at least 20 bars and names the ticker; BUY and SELL each fire exactly on their condition |
| `Classifier.AlertMeetsRule` | market_bot_v2.py:112-122 | every alert's own fields satisfy its rule: a BUY's price is below its lower band with RPP under the threshold, and a SELL mirrors this |
| `Classifier.VerdictSideOfMean` | market_bot_v2.py:112-122 | a 'STRONG BUY' has its close below the 20-close mean and a 'STRONG SELL' above it |
| `Classifier.ExtremeThresholdsSilence` | market_bot_v2.py:112-122 | with a well-formed last bar, buy ≤ 0 and sell ≥ 100 silence every signal |
| `Classifier.BuyMonotone` | market_bot_v2.py:113 | raising the buy threshold never withdraws a 'STRONG BUY' |
| `Classifier.SellMonotone` | market_bot_v2.py:119 | lowering the sell threshold never withdraws a 'STRONG SELL' |
| `BotV1.FetchStockData` | market_bot.py:34-50 | None exactly when the provider raised or returned an empty frame, otherwise the frame |
| `BotV1.DecideFixed` | market_bot.py:129-157 | the fixed-threshold if/elif is the configurable decision at 10 and 90 |
| `BotV1.AnalyzeStock` | market_bot.py:110-157 | a signal needs a fetched frame of at least 20 bars and names the ticker |
| `BotV1.AnalyzeMatchesConfigurable` | market_bot.py:29-30 | the first bot decides exactly as the second would with thresholds 10 and 90 |
| `BotV1.FixedThresholdVerdicts` | market_bot.py:133-143 | 'STRONG BUY' iff below the lower band with RPP < 10, 'STRONG SELL' iff above the upper band with RPP > 90, nothing otherwise |
| `Text.Upper` | database.py:148 | `str.upper()` keeps the length and upper-cases each character |
| `Text.UpperIdempotent` | database.py:148 | an upper-cased ticker is upper case, so upper-casing it again changes nothing |
| `Text.LexLessIrreflexive` | database.py:136 | `ORDER BY ticker`'s order is irreflexive |
| `Text.LexLessTransitive` | database.py:136 | the order is transitive |
| `Text.LexLessTotal` | database.py:136 | of two distinct strings, one comes first |
| `Text.LexLeastExists` | database.py:136 | every non-empty set of tickers has a first one in that order |
| `Text.NatText` | database.py:128 | `str(n)` of a non-negative int is a non-empty string of digits |
| `Text.ParseNat` | market_bot_v2.py:566 | `int()` of stored text gives a number exactly when the text is a non-empty string of digits (the only text the bot stores there) |
| `Text.ParseNatText` | market_bot_v2.py:299-300 | `int(str(n)) == n`: a stored interval reads back as the number of seconds stored |
| `Database.DayShift` | database.py:188 | `now - timedelta(days)` moves the calendar day back by exactly `days` |
| `Database.InsertOrIgnoreKeeps` | database.py:83-87 | INSERT OR IGNORE never overwrites an existing row |
| `Database.InsertOrIgnoreKeys` | database.py:83-87 | afterwards the keys are the old keys plus the seeded keys |
| `Database.InsertOrIgnoreFirstWins` | database.py:83-87 | a new key takes the value of the first row that seeds it |
| `Database.InsertOrIgnoreIdempotent` | database.py:83-105 | seeding twice is seeding once |
| `Database.UpsertedFrame` | database.py:165-183 | saving a frame leaves every row outside (ticker, frame dates) present or absent and unchanged, as before |
| `Database.UpsertedKeys` | database.py:165-183 | no row is deleted, and a row for every (ticker, frame date) exists afterwards |
| `Database.UpsertedStores` | database.py:170-181 | INSERT OR REPLACE: the cache holds the last bar of the frame for each date |
| `Database.UpsertedKeyed` | database.py:165-183 | saving keeps every row filed under its own date |
| `Database.OwnRowsDecide` | database.py:186-234 | staleness and the cached read of a ticker depend on that ticker's rows alone |
| `Database.FreshCacheIsRead` | database.py:223-234 | a ticker that does not need an update has a cached frame for any look-back of zero days or more |
| `Database.LeastDay` | database.py:195 | every non-empty set of cached days has a first day (`ORDER BY date`) |
| `Database.NewestFirstExact` | database.py:247-269 | get_signal_history returns exactly the rows inside the window that match the ticker filter, and no others |
| `Database.NewestFirstDescending` | database.py:257 | when timestamps never decrease along the log, the rows come in `ORDER BY created_at DESC` |
| `Database.NewestFirstAppend` | database.py:237-269 | a newly saved signal that the query selects comes back first |
| `Database.Store.constructor` | database.py:23-72 | a new database has empty tables and satisfies the store invariant |
| `Database.Store.InitDatabase` | database.py:23-110 | config and watchlist are INSERT OR IGNORE of the default rows; bars and history are unchanged; the invariant is kept |
| `Database.Store.GetConfig` | database.py:112-118 | the stored text, or None exactly for a missing key |
| `Database.Store.SetConfig` | database.py:121-128 | INSERT OR REPLACE: the key now maps to the value, which get_config returns; the other tables are unchanged |
| `Database.Store.GetWatchlist` | database.py:132-137 | every watched ticker exactly once, strictly ascending, each with its name |
| `Database.Store.AddToWatchlist` | database.py:140-152 | adds the upper-cased ticker iff it is absent (UNIQUE); an existing ticker, its name included, is left unchanged |
| `Database.Store.RemoveFromWatchlist` | database.py:155-162 | deletes the upper-cased ticker; returns whether a row was deleted |
| `Database.Store.SaveStockData` | database.py:165-183 | the bar table becomes the upsert of the frame, and the store invariant is kept |
| `Database.Store.GetCachedStockData` | database.py:186-209 | None iff no bar is dated on or after the cutoff; otherwise exactly those bars, strictly ascending by date, each as cached |
| `Database.Store.GetLastCachedDate` | database.py:212-220 | None iff the ticker has no rows; otherwise its latest cached day |
| `Database.Store.NeedsUpdate` | database.py:223-234 | true iff no cached bar of the ticker is dated today or later (also with no rows at all) |
| `Database.Store.SaveSignal` | database.py:237-244 | appends exactly one row stamped `now`, keeping the log in `created_at` order; the other tables are unchanged |
| `Database.Store.GetSignalHistory` | database.py:247-269 | exactly the rows of the window (of the ticker, when one is given), in `created_at DESC` order |
| `Database.DefaultTickersUpper` | database.py:90-99 | the seeded tickers are already upper case |
| `BotV2.FetchAndCache` | market_bot_v2.py:24-51 | provider frame only for a stale ticker with a non-empty answer, which is then saved; otherwise the 180-day cached read; a fresh cache always yields a frame |
| `BotV2.AfterFetchOtherRows` | market_bot_v2.py:24-51 | one ticker's fetch leaves every other ticker's rows as they were |
| `BotV2.ConfigReal` | market_bot_v2.py:100-101 | `float(get_config(key))` fails exactly on a missing key or text that float() refuses |
| `BotV2.Thresholds` | market_bot_v2.py:100-101 | both thresholds, or None exactly when either read fails |
| `BotV2.Verdict` | market_bot_v2.py:92-136 | no signal without a frame or thresholds; a signal names its ticker |
| `BotV2.AnalyzeStock` | market_bot_v2.py:92-136 | fetches through the cache; fails exactly when a frame exists and a threshold read raises; otherwise the verdict on that frame |
| `BotV2.Records` | market_bot_v2.py:551-556 | one history row per sent alert, in order, stamped `now` |
| `BotV2.DispatchedSound` | market_bot_v2.py:536-562 | no more alerts than verdicts, each one a signal of the run, and the policy approved each against the history including the run's earlier rows |
| `BotV2.SentAt` | market_bot_v2.py:533-547 | the alerts are the approved signals in watchlist order: strictly increasing verdict positions, each holding its alert |
| `BotV2.DispatchedOncePerTicker` | market_bot_v2.py:533-547 | when no two signals of a run name the same ticker, no two alerts do |
| `BotV2.DispatchedPermissive` | market_bot_v2.py:536-562 | with a policy that approves everything (a forced check), every signal of the run is sent |
| `BotV2.Judged` | market_bot_v2.py:533-536 | one outcome per ticker of the run |
| `BotV2.JudgedPrefixAt` | market_bot_v2.py:533-536 | the i-th outcome of any prefix is the analysis of the i-th ticker and frame |
| `BotV2.JudgedSnoc` | market_bot_v2.py:533-536 | one more ticker adds exactly its outcome at the end |
| `BotV2.Verdicts` | market_bot_v2.py:533-536 | one verdict per ticker of the run |
| `BotV2.VerdictsAt` | market_bot_v2.py:536 | each verdict of a run is analyze_stock's decision on its own ticker's frame |
| `BotV2.VerdictsNameTickers` | market_bot_v2.py:533-536 | over distinct tickers, no two signals of a run name the same ticker |
| `BotV2.VerdictsSnoc` | market_bot_v2.py:533-536 | one more ticker appends exactly its verdict |
| `BotV2.DispatchedSnoc` | market_bot_v2.py:538-562 | one more verdict adds that alert iff it is a signal the policy approves |
| `BotV2.RefreshedSnoc` | market_bot_v2.py:533-536 | one more ticker applies exactly its fetch to the bar table |
| `BotV2.RecordsSnoc` | market_bot_v2.py:551-556 | saving one more alert appends its row after those of the earlier ones |
| `BotV2.RefreshedOtherRows` | market_bot_v2.py:533-536 | fetches for some tickers leave every other ticker's rows as they were |
| `BotV2.FrameSeesStartingCache` | market_bot_v2.py:533-536 | on a watchlist without repeats, each ticker's frame is what the cache as the run found it would give |
| `BotV2.FramesFetchedSnoc` | market_bot_v2.py:533-536 | the frames of a run extend by the frame fetched on the current cache |
| `BotV2.FramesFetchedAt` | market_bot_v2.py:533-536 | frame i is what fetch_and_cache_stock_data returned on the cache after the first i fetches |
| `BotV2.RunStep` | market_bot_v2.py:533-562 | one pass of the loop keeps the run invariant: frames, bar table, sent alerts and history all advance by one ticker |
| `BotV2.Tickers` | market_bot_v2.py:531-533 | the ticker column of the watchlist rows |
| `BotV2.WatchlistOrder` | market_bot_v2.py:531-533 | the run visits every watched ticker once, in ascending order |
| `BotV2.AscendingDistinct` | database.py:136 | an ascending ticker list holds no repeats |
| `BotV2.FramesFromStartingCache` | market_bot_v2.py:531-536 | every ticker of a run is analysed on the frame the starting cache and the provider give it |
| `BotV2.RecordsKeepClock` | database.py:237-244 | rows stamped `now` keep the log's last timestamp no later than `now` |
| `BotV2.RunSendsOncePerTicker` | market_bot_v2.py:531-562 | a run over the watchlist in ticker order sends at most one alert per ticker |
| `BotV2.StopsAtRaiseStep` | market_bot_v2.py:533-536 | a frameless ticker lets the run go on; a ticker with a frame whose threshold read raises ends it |
| `BotV2.CheckTicker` | market_bot_v2.py:536-562 | one ticker: analyse, ask the policy, save an approved signal; fails exactly when the ticker has a frame and a threshold read raises; the run invariant advances; config and watchlist are unchanged |
| `BotV2.CheckAllStocks` | market_bot_v2.py:523-564 | visits the watchlist in order; with readable thresholds it completes; otherwise it stops at the first ticker that has a frame, after analysing the frameless ones before it; bar table, sent alerts and history are exactly those of the run; at most one alert per ticker |
| `BotV2.SetInterval` | market_bot_v2.py:285-313 | ignored for non-admins; usage text unless there is exactly one argument; stored iff int() succeeds with ≥ 1 minute, as str(minutes × 60), which int() reads back |
| `BotV2.SetThreshold` | market_bot_v2.py:316-335 | stored iff float() succeeds and the value is in [0, 100]; otherwise the config is unchanged |
| `BotV2.SetBuy` | market_bot_v2.py:316-335 | ignored for non-admins; usage text unless there is exactly one argument; stored iff float() succeeds in [0, 100]; the next analysis reads the new buy threshold and the same sell threshold |
| `BotV2.SetSell` | market_bot_v2.py:338-357 | ignored for non-admins; usage text unless there is exactly one argument; stored iff float() succeeds in [0, 100]; the next analysis reads the new sell threshold and the same buy threshold |
| `BotV2.SetCooldown` | market_bot_v2.py:380-404 | stored iff float() succeeds and the value is not negative; otherwise the config is unchanged |
| `BotV2.DefaultIntervalParses` | database.py:77 | the seeded `check_interval` text reads back as the first bot's fixed 900-second period |

## Left out

- Telegram: sending messages, `format_signal_message`, reply texts and `is_admin`. `is_admin` is the boolean `admin`.
- asyncio: `monitor_stocks`, the monitor-task restart after `/set_interval`, and the closing `int(get_config('check_interval'))` print of `check_all_stocks`.
- Network access through yfinance, modelled as the provider function.
- The table DDL, the auto-increment ids and the `created_at`/`updated_at`/`added_at` columns of tables other than signal_history.
- `should_send_signal` (de-duplication) is not modelled. It is the oracle `shouldSend`, and `DispatchedSound`, `SentAt` and `RunSendsOncePerTicker` state what a run guarantees of any policy.
- Floating point. Prices are reals, so NaN, infinities and rounding are absent. A NaN threshold, which passes the source's `< 0 or > 100` test, has no counterpart.
- `sigma`: pandas' rolling standard deviation is an abstract non-negative function, not a formula.
- `str(float)` and `float(str)` are parameters (`showFloat`, `parseFloat`).
- BotV2.SetBuy: the stored threshold is promised to read back only when `parseFloat(showFloat(x))` gives x back.
- BotV2.SetSell: the same as SetBuy.
- `int()` in `/set_interval` is the parameter `parseInt`.
- Text.ParseNat: models `int()` only on plain digit strings. Signs, blanks and underscores, which `int()` accepts, are not covered.
- Text.Upper: `str.upper()` on ASCII letters only. Non-ASCII case mapping is not modelled.
- Time has no time zones. `created_at` is SQLite's UTC `CURRENT_TIMESTAMP`, but the cutoff of `get_signal_history` uses local `datetime.now()`. The model uses one clock `now` for both, and one `now` for a whole run of `check_all_stocks`.
- Order among history rows with equal `created_at` follows insertion order (newest first). SQLite does not promise any particular order for ties.
- A frame is a sequence of bars. The pandas index and column renaming in `get_cached_stock_data` are not modelled. The provider's dates are day numbers.
- Database.Store.SaveSignal: `created_at` is `CURRENT_TIMESTAMP`; the model takes the clock as never running backwards, so a caller's `now` is no earlier than the last row logged. A clock set back is not modelled.
- The tests (`test_bot.py`, `test_bot_v2.py`, `test_deduplication.py`) are not modelled.
