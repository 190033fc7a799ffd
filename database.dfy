/**
 * The SQLite store behind the second bot, with each table as a map or a
 * sequence: the bar cache keyed by (ticker, date), the watchlist keyed by
 * ticker, the string-valued config, and the append-only signal history.
 * The clock is an explicit `now` (seconds); bar dates are day numbers.
 */
module Database {
  import opened Market
  import opened Text

  const SecondsPerDay: int := 86400

  /** The calendar day of a timestamp: the date part of datetime.now(). */
  function Today(now: int): int {
    now / SecondsPerDay
  }

  /** Moving a timestamp back by whole days moves its day back by as many. */
  lemma DayShift(now: int, days: int)
    ensures Today(now - days * SecondsPerDay) == Today(now) - days
  {
  }

  /** The bar table's key: UNIQUE(ticker, date). */
  type BarKey = (string, int)

  /** The rows init_database seeds into config. */
  const DefaultConfig: seq<(string, string)> := [
    ("check_interval", "900"),
    ("rpp_buy_threshold", "10"),
    ("rpp_sell_threshold", "90"),
    ("admin_user_id", "1937651844")
  ]

  /** The rows init_database seeds into watchlist. */
  const DefaultWatchlist: seq<(string, Option<string>)> := [
    ("NVDA", Some("Nvidia")),
    ("GOOGL", Some("Google")),
    ("ASML", Some("ASML")),
    ("AAPL", Some("Apple")),
    ("AMZN", Some("Amazon")),
    ("ADS.DE", Some("Adidas")),
    ("V", Some("Visa")),
    ("KO", Some("Coca-Cola"))
  ]

  // ---------------------------------------------------------------------------
  // The tables' row semantics as functions on maps and sequences
  // ---------------------------------------------------------------------------

  /** INSERT OR IGNORE of each row in turn: a row whose key exists is skipped. */
  function InsertOrIgnore<K, V>(m: map<K, V>, rows: seq<(K, V)>): map<K, V>
  {
    if rows == [] then m
    else
      var before := InsertOrIgnore(m, rows[..|rows| - 1]);
      var row := rows[|rows| - 1];
      if row.0 in before then before else before[row.0 := row.1]
  }

  /** Existing keys keep their values: seeding never overwrites. */
  lemma {:induction false} InsertOrIgnoreKeeps<K, V>(m: map<K, V>, rows: seq<(K, V)>)
    ensures m.Keys <= InsertOrIgnore(m, rows).Keys
    ensures forall k :: k in m ==> InsertOrIgnore(m, rows)[k] == m[k]
  {
    if rows != [] {
      InsertOrIgnoreKeeps(m, rows[..|rows| - 1]);
    }
  }

  /** The key column of a sequence of rows. */
  function KeysOf<K, V>(rows: seq<(K, V)>): set<K> {
    set i | 0 <= i < |rows| :: rows[i].0
  }

  /** Every seeded key is present afterwards, and no other key is added. */
  lemma {:induction false} InsertOrIgnoreKeys<K, V>(m: map<K, V>, rows: seq<(K, V)>)
    ensures InsertOrIgnore(m, rows).Keys == m.Keys + KeysOf(rows)
  {
    if rows != [] {
      var init := rows[..|rows| - 1];
      InsertOrIgnoreKeys(m, init);
      assert KeysOf(rows) == KeysOf(init) + {rows[|rows| - 1].0} by {
        forall k | k in KeysOf(rows)
          ensures k in KeysOf(init) + {rows[|rows| - 1].0}
        {
          var i :| 0 <= i < |rows| && rows[i].0 == k;
          if i < |init| {
            assert init[i] == rows[i];
          }
        }
      }
    }
  }

  /** A key not in the map and first seeded by row i takes that row's value. */
  lemma {:induction false} InsertOrIgnoreFirstWins<K, V>(m: map<K, V>, rows: seq<(K, V)>, i: nat)
    requires i < |rows| && rows[i].0 !in m
    requires forall j :: 0 <= j < i ==> rows[j].0 != rows[i].0
    ensures rows[i].0 in InsertOrIgnore(m, rows)
    ensures InsertOrIgnore(m, rows)[rows[i].0] == rows[i].1
  {
    InsertOrIgnoreKeys(m, rows);
    var init := rows[..|rows| - 1];
    if i < |init| {
      InsertOrIgnoreFirstWins(m, init, i);
      InsertOrIgnoreKeys(m, init);
      assert rows[i].0 in InsertOrIgnore(m, init).Keys by {
        assert init[i].0 == rows[i].0;
      }
    } else {
      InsertOrIgnoreKeys(m, init);
      assert rows[i].0 !in InsertOrIgnore(m, init) by {
        forall j | 0 <= j < |init|
          ensures init[j].0 != rows[i].0
        {
          assert init[j] == rows[j];
        }
      }
    }
  }

  /** Seeding twice is seeding once: re-running init_database changes nothing. */
  lemma {:induction false} InsertOrIgnoreIdempotent<K, V>(m: map<K, V>, rows: seq<(K, V)>)
    ensures InsertOrIgnore(InsertOrIgnore(m, rows), rows) == InsertOrIgnore(m, rows)
  {
    var once := InsertOrIgnore(m, rows);
    InsertOrIgnoreKeys(m, rows);
    InsertOrIgnoreKeys(once, rows);
    InsertOrIgnoreKeeps(once, rows);
  }

  /** INSERT OR REPLACE of each bar in turn under (ticker, date). */
  function Upserted(bars: map<BarKey, Bar>, ticker: string, df: seq<Bar>): map<BarKey, Bar>
  {
    if df == [] then bars
    else Upserted(bars, ticker, df[..|df| - 1])[(ticker, df[|df| - 1].date) := df[|df| - 1]]
  }

  function DatesOf(s: seq<Bar>): set<int> {
    set i | 0 <= i < |s| :: s[i].date
  }

  /**
   * Saving a frame touches only the ticker's rows for the frame's dates: every
   * other row keeps its presence and its value.
   */
  lemma {:induction false} UpsertedFrame(bars: map<BarKey, Bar>, ticker: string, df: seq<Bar>, k: BarKey)
    requires k.0 != ticker || k.1 !in DatesOf(df)
    ensures k in Upserted(bars, ticker, df) <==> k in bars
    ensures k in bars ==> Upserted(bars, ticker, df)[k] == bars[k]
  {
    if df != [] {
      var init := df[..|df| - 1];
      assert DatesOf(init) <= DatesOf(df) by {
        forall d | d in DatesOf(init) ensures d in DatesOf(df) {
          var i :| 0 <= i < |init| && init[i].date == d;
          assert df[i] == init[i];
        }
      }
      UpsertedFrame(bars, ticker, init, k);
    }
  }

  /** No row is deleted, and the frame's rows are all present afterwards. */
  lemma {:induction false} UpsertedKeys(bars: map<BarKey, Bar>, ticker: string, df: seq<Bar>)
    ensures Upserted(bars, ticker, df).Keys == bars.Keys + set d | d in DatesOf(df) :: (ticker, d)
  {
    if df != [] {
      var init := df[..|df| - 1];
      UpsertedKeys(bars, ticker, init);
      assert DatesOf(df) == DatesOf(init) + {df[|df| - 1].date} by {
        forall d | d in DatesOf(df) ensures d in DatesOf(init) + {df[|df| - 1].date} {
          var i :| 0 <= i < |df| && df[i].date == d;
          if i < |init| {
            assert init[i] == df[i];
          }
        }
        forall d | d in DatesOf(init) ensures d in DatesOf(df) {
          var i :| 0 <= i < |init| && init[i].date == d;
          assert df[i] == init[i];
        }
      }
    }
  }

  /** A bar of the frame that no later bar of the frame replaces is what the cache holds for its date. */
  lemma {:induction false} UpsertedStores(bars: map<BarKey, Bar>, ticker: string, df: seq<Bar>, i: nat)
    requires i < |df|
    requires forall j :: i < j < |df| ==> df[j].date != df[i].date
    ensures (ticker, df[i].date) in Upserted(bars, ticker, df)
    ensures Upserted(bars, ticker, df)[(ticker, df[i].date)] == df[i]
  {
    if i < |df| - 1 {
      var init := df[..|df| - 1];
      assert init[i] == df[i];
      UpsertedStores(bars, ticker, init, i);
    }
  }

  /** Upserting keeps every row filed under its own date. */
  lemma {:induction false} UpsertedKeyed(bars: map<BarKey, Bar>, ticker: string, df: seq<Bar>)
    requires forall k :: k in bars ==> bars[k].date == k.1
    ensures var u := Upserted(bars, ticker, df); forall k :: k in u ==> u[k].date == k.1
  {
    if df != [] {
      UpsertedKeyed(bars, ticker, df[..|df| - 1]);
    }
  }

  /** The days for which the ticker has a cached bar. */
  function TickerDays(bars: map<BarKey, Bar>, ticker: string): set<int> {
    set k | k in bars && k.0 == ticker :: k.1
  }

  /** SELECT MAX(date) FROM stock_data WHERE ticker = ?: None when the ticker has no rows. */
  ghost predicate IsLastDate(bars: map<BarKey, Bar>, ticker: string, d: Option<int>) {
    var days := TickerDays(bars, ticker);
    && (d.None? <==> days == {})
    && (d.Some? ==> d.value in days && forall x :: x in days ==> x <= d.value)
  }

  /** No cached bar for the ticker is dated today or later. */
  predicate Stale(bars: map<BarKey, Bar>, ticker: string, now: int) {
    forall k :: k in bars && k.0 == ticker ==> k.1 < Today(now)
  }

  ghost predicate StrictlyAscending(s: seq<Bar>) {
    forall i, j :: 0 <= i < j < |s| ==> s[i].date < s[j].date
  }

  /** WHERE ticker = ? AND date >= ? */
  function CachedDays(bars: map<BarKey, Bar>, ticker: string, cutoff: int): set<int> {
    set k | k in bars && k.0 == ticker && k.1 >= cutoff :: k.1
  }

  /**
   * get_cached_stock_data: exactly the ticker's bars dated on or after `cutoff`,
   * in ascending date order, or None when there are none.
   */
  ghost predicate IsCachedRead(bars: map<BarKey, Bar>, ticker: string, cutoff: int, r: Option<seq<Bar>>) {
    var days := CachedDays(bars, ticker, cutoff);
    if days == {} then r.None?
    else
      && r.Some?
      && StrictlyAscending(r.value)
      && DatesOf(r.value) == days
      && forall i :: 0 <= i < |r.value| ==>
           (ticker, r.value[i].date) in bars && bars[(ticker, r.value[i].date)] == r.value[i]
  }

  /** The two tables hold the same rows for the ticker. */
  ghost predicate SameRows(b1: map<BarKey, Bar>, b2: map<BarKey, Bar>, ticker: string) {
    forall d :: ((ticker, d) in b1 <==> (ticker, d) in b2)
             && ((ticker, d) in b1 ==> b1[(ticker, d)] == b2[(ticker, d)])
  }

  /** Staleness and the cached read of a ticker depend on that ticker's rows alone. */
  lemma OwnRowsDecide(b1: map<BarKey, Bar>, b2: map<BarKey, Bar>, ticker: string, now: int, cutoff: int, r: Option<seq<Bar>>)
    requires SameRows(b1, b2, ticker)
    ensures Stale(b1, ticker, now) <==> Stale(b2, ticker, now)
    ensures IsCachedRead(b1, ticker, cutoff, r) <==> IsCachedRead(b2, ticker, cutoff, r)
  {
    forall k | k in b1 && k.0 == ticker ensures k in b2 {
      var (t, d) := k;
      assert (ticker, d) in b1;
    }
    forall k | k in b2 && k.0 == ticker ensures k in b1 {
      var (t, d) := k;
      assert (ticker, d) in b2;
    }
    var days1 := CachedDays(b1, ticker, cutoff);
    var days2 := CachedDays(b2, ticker, cutoff);
    assert days1 == days2 by {
      forall d | d in days1 ensures d in days2 {
        assert (ticker, d) in b2;
      }
      forall d | d in days2 ensures d in days1 {
        assert (ticker, d) in b1;
      }
    }
  }

  /**
   * A ticker whose cache already holds a bar dated today reads back a frame
   * for any look-back of zero days or more.
   */
  lemma FreshCacheIsRead(bars: map<BarKey, Bar>, ticker: string, now: int, days: int, r: Option<seq<Bar>>)
    requires !Stale(bars, ticker, now) && days >= 0
    requires IsCachedRead(bars, ticker, Today(now) - days, r)
    ensures r.Some?
  {
    var k :| k in bars && k.0 == ticker && k.1 >= Today(now);
    var cutoff := Today(now) - days;
    assert k.1 in CachedDays(bars, ticker, cutoff);
  }

  /** Every non-empty finite set of days has a first day. */
  lemma {:induction false} LeastDay(s: set<int>) returns (m: int)
    requires s != {}
    ensures m in s && forall x :: x in s ==> m <= x
  {
    assert (forall x :: x !in s) ==> s == {};
    var y :| y in s;
    if s == {y} {
      m := y;
    } else {
      var rest := s - {y};
      var r := LeastDay(rest);
      m := if y < r then y else r;
      forall x | x in s ensures m <= x {
        if x != y {
          assert x in rest;
        }
      }
    }
  }

  /** A signal_history row selected by get_signal_history: `if ticker:` filters only on a non-empty ticker. */
  predicate Selected(r: SignalRecord, ticker: Option<string>, cutoff: int) {
    (ticker.None? || ticker.value == "" || r.ticker == ticker.value) && r.createdAt >= cutoff
  }

  /** The selected rows, latest insertion first. */
  function NewestFirst(h: seq<SignalRecord>, ticker: Option<string>, cutoff: int): seq<SignalRecord> {
    if h == [] then []
    else NewestFirst(h[1..], ticker, cutoff) + (if Selected(h[0], ticker, cutoff) then [h[0]] else [])
  }

  /** Every row returned is a selected row of the history, and every selected row is returned. */
  lemma {:induction false} NewestFirstExact(h: seq<SignalRecord>, ticker: Option<string>, cutoff: int)
    ensures forall r :: r in NewestFirst(h, ticker, cutoff) <==> r in h && Selected(r, ticker, cutoff)
  {
    if h != [] {
      NewestFirstExact(h[1..], ticker, cutoff);
      assert h == [h[0]] + h[1..];
      forall r
        ensures r in NewestFirst(h, ticker, cutoff) <==> r in h && Selected(r, ticker, cutoff)
      {
        assert r in h <==> r == h[0] || r in h[1..];
      }
    }
  }

  /** ORDER BY created_at DESC */
  predicate Descending(rs: seq<SignalRecord>) {
    forall i, j :: 0 <= i < j < |rs| ==> rs[i].createdAt >= rs[j].createdAt
  }

  /** Timestamps never decrease along the log: CURRENT_TIMESTAMP of a clock that does not run backwards. */
  predicate Chronological(h: seq<SignalRecord>) {
    forall i, j :: 0 <= i < j < |h| ==> h[i].createdAt <= h[j].createdAt
  }

  /** With timestamps that never decrease along the log, the rows come newest first. */
  lemma {:induction false} NewestFirstDescending(h: seq<SignalRecord>, ticker: Option<string>, cutoff: int)
    requires Chronological(h)
    ensures Descending(NewestFirst(h, ticker, cutoff))
  {
    if h != [] {
      NewestFirstDescending(h[1..], ticker, cutoff);
      NewestFirstExact(h[1..], ticker, cutoff);
      var rest := NewestFirst(h[1..], ticker, cutoff);
      var r := NewestFirst(h, ticker, cutoff);
      forall i | 0 <= i < |rest|
        ensures rest[i].createdAt >= h[0].createdAt
      {
        assert rest[i] in h[1..];
        var k :| 0 <= k < |h[1..]| && h[1..][k] == rest[i];
        assert h[1..][k] == h[k + 1];
        assert 0 < k + 1 < |h|;
      }
      forall i, j | 0 <= i < j < |r|
        ensures r[i].createdAt >= r[j].createdAt
      {
        assert r[i] == rest[i];
        if j < |rest| {
          assert r[j] == rest[j];
          assert Descending(rest);
        } else {
          assert r[j] == h[0];
          assert rest[i].createdAt >= h[0].createdAt;
        }
      }
    }
  }

  /** A newly saved signal that the query selects comes back first. */
  lemma {:induction false} NewestFirstAppend(h: seq<SignalRecord>, rec: SignalRecord, ticker: Option<string>, cutoff: int)
    ensures NewestFirst(h + [rec], ticker, cutoff)
         == (if Selected(rec, ticker, cutoff) then [rec] else []) + NewestFirst(h, ticker, cutoff)
  {
    if h == [] {
      assert [rec][1..] == [];
    } else {
      assert (h + [rec])[1..] == h[1..] + [rec];
      NewestFirstAppend(h[1..], rec, ticker, cutoff);
    }
  }

  // ---------------------------------------------------------------------------
  // The database
  // ---------------------------------------------------------------------------

  class Store {
    /** stock_data */
    var bars: map<BarKey, Bar>
    /** watchlist: ticker -> optional display name */
    var watchlist: map<string, Option<string>>
    /** config: key -> value text */
    var config: map<string, string>
    /** signal_history, in insertion order */
    var history: seq<SignalRecord>

    /**
     * Every bar is filed under its own date; every watchlist ticker is upper
     * case; the signal log is in created_at order.
     */
    ghost predicate Valid()
      reads this
    {
      && (forall k :: k in bars ==> bars[k].date == k.1)
      && (forall t :: t in watchlist ==> IsUpper(t))
      && Chronological(history)
    }

    /** A new database file: every table exists and is empty. */
    constructor ()
      ensures Valid()
      ensures bars == map[] && watchlist == map[] && config == map[] && history == []
    {
      bars, watchlist, config, history := map[], map[], map[], [];
    }

    /** init_database: seed the default config and watchlist rows with INSERT OR IGNORE. */
    method InitDatabase()
      requires Valid()
      modifies this
      ensures Valid()
      ensures config == InsertOrIgnore(old(config), DefaultConfig)
      ensures watchlist == InsertOrIgnore(old(watchlist), DefaultWatchlist)
      ensures bars == old(bars) && history == old(history)
    {
      for i := 0 to |DefaultConfig|
        invariant config == InsertOrIgnore(old(config), DefaultConfig[..i])
        invariant bars == old(bars) && watchlist == old(watchlist) && history == old(history)
      {
        assert DefaultConfig[..i + 1][..i] == DefaultConfig[..i];
        var (key, value) := DefaultConfig[i];
        if key !in config {
          config := config[key := value];
        }
      }
      assert DefaultConfig[..|DefaultConfig|] == DefaultConfig;
      for i := 0 to |DefaultWatchlist|
        invariant watchlist == InsertOrIgnore(old(watchlist), DefaultWatchlist[..i])
        invariant forall t :: t in watchlist ==> IsUpper(t)
        invariant bars == old(bars) && config == InsertOrIgnore(old(config), DefaultConfig)
        invariant history == old(history)
      {
        assert DefaultWatchlist[..i + 1][..i] == DefaultWatchlist[..i];
        var (ticker, name) := DefaultWatchlist[i];
        DefaultTickersUpper(i);
        if ticker !in watchlist {
          watchlist := watchlist[ticker := name];
        }
      }
      assert DefaultWatchlist[..|DefaultWatchlist|] == DefaultWatchlist;
    }

    /** get_config: the stored text, or None for a missing key. */
    function GetConfig(key: string): (r: Option<string>)
      reads this
      ensures r.Some? <==> key in config
      ensures r.Some? ==> r.value == config[key]
    {
      if key in config then Some(config[key]) else None
    }

    /** set_config: INSERT OR REPLACE of one key; a later get_config returns the stored text. */
    method SetConfig(key: string, value: string)
      requires Valid()
      modifies this
      ensures Valid()
      ensures config == old(config)[key := value]
      ensures GetConfig(key) == Some(value)
      ensures bars == old(bars) && watchlist == old(watchlist) && history == old(history)
    {
      config := config[key := value];
    }

    /** get_watchlist: every (ticker, name) row, ordered by ticker. */
    method GetWatchlist() returns (rows: seq<(string, Option<string>)>)
      ensures forall i, j :: 0 <= i < j < |rows| ==> LexLess(rows[i].0, rows[j].0)
      ensures KeysOf(rows) == watchlist.Keys
      ensures forall i :: 0 <= i < |rows| ==> rows[i].0 in watchlist && rows[i].1 == watchlist[rows[i].0]
    {
      rows := [];
      var remaining := watchlist.Keys;
      while remaining != {}
        invariant remaining <= watchlist.Keys
        invariant forall i, j :: 0 <= i < j < |rows| ==> LexLess(rows[i].0, rows[j].0)
        invariant forall i, t :: 0 <= i < |rows| && t in remaining ==> LexLess(rows[i].0, t)
        invariant KeysOf(rows) == watchlist.Keys - remaining
        invariant forall i :: 0 <= i < |rows| ==> rows[i].0 in watchlist && rows[i].1 == watchlist[rows[i].0]
        decreases remaining
      {
        LexLeastExists(remaining);
        var t :| t in remaining && forall x :: x in remaining && x != t ==> LexLess(t, x);
        var row := (t, watchlist[t]);
        assert KeysOf(rows + [row]) == KeysOf(rows) + {t} by {
          assert forall i :: 0 <= i < |rows| ==> (rows + [row])[i] == rows[i];
          assert (rows + [row])[|rows|] == row;
        }
        rows := rows + [row];
        remaining := remaining - {t};
      }
    }

    /**
     * add_to_watchlist: upper-cases the ticker; a ticker already present is
     * refused (UNIQUE) and leaves the table, its name included, as it was.
     */
    method AddToWatchlist(ticker: string, name: Option<string>) returns (added: bool)
      requires Valid()
      modifies this
      ensures Valid()
      ensures added <==> Upper(ticker) !in old(watchlist)
      ensures watchlist == if added then old(watchlist)[Upper(ticker) := name] else old(watchlist)
      ensures bars == old(bars) && config == old(config) && history == old(history)
    {
      var key := Upper(ticker);
      UpperIdempotent(ticker);
      if key in watchlist {
        added := false;
      } else {
        watchlist := watchlist[key := name];
        added := true;
      }
    }

    /** remove_from_watchlist: deletes the upper-cased ticker; true iff a row was deleted. */
    method RemoveFromWatchlist(ticker: string) returns (removed: bool)
      requires Valid()
      modifies this
      ensures Valid()
      ensures removed <==> Upper(ticker) in old(watchlist)
      ensures watchlist == old(watchlist) - {Upper(ticker)}
      ensures bars == old(bars) && config == old(config) && history == old(history)
    {
      var key := Upper(ticker);
      removed := key in watchlist;
      watchlist := watchlist - {key};
    }

    /** save_stock_data: INSERT OR REPLACE of each row of the frame under (ticker, date). */
    method SaveStockData(ticker: string, df: seq<Bar>)
      requires Valid()
      modifies this
      ensures Valid()
      ensures bars == Upserted(old(bars), ticker, df)
      ensures watchlist == old(watchlist) && config == old(config) && history == old(history)
    {
      for i := 0 to |df|
        invariant bars == Upserted(old(bars), ticker, df[..i])
        invariant watchlist == old(watchlist) && config == old(config) && history == old(history)
      {
        assert df[..i + 1][..i] == df[..i];
        bars := bars[(ticker, df[i].date) := df[i]];
      }
      assert df[..|df|] == df;
      UpsertedKeyed(old(bars), ticker, df);
    }

    /** get_cached_stock_data: the ticker's bars of the last `days` calendar days, oldest first. */
    method GetCachedStockData(ticker: string, days: int, now: int) returns (r: Option<seq<Bar>>)
      requires Valid()
      ensures IsCachedRead(bars, ticker, Today(now) - days, r)
    {
      var cutoff := Today(now - days * SecondsPerDay);
      DayShift(now, days);
      var remaining := CachedDays(bars, ticker, cutoff);
      ghost var all := remaining;
      if remaining == {} {
        return None;
      }
      var out: seq<Bar> := [];
      while remaining != {}
        invariant remaining <= all
        invariant StrictlyAscending(out)
        invariant DatesOf(out) == all - remaining
        invariant forall i :: 0 <= i < |out| ==>
          (ticker, out[i].date) in bars && bars[(ticker, out[i].date)] == out[i]
        invariant forall i, d :: 0 <= i < |out| && d in remaining ==> out[i].date < d
        decreases remaining
      {
        ghost var least := LeastDay(remaining);
        var d :| d in remaining && forall x :: x in remaining ==> d <= x;
        assert (ticker, d) in bars;
        var bar := bars[(ticker, d)];
        assert bar.date == d;
        assert DatesOf(out + [bar]) == DatesOf(out) + {d} by {
          assert forall i :: 0 <= i < |out| ==> (out + [bar])[i] == out[i];
          assert (out + [bar])[|out|] == bar;
        }
        out := out + [bar];
        remaining := remaining - {d};
      }
      r := Some(out);
    }

    /** get_last_cached_date: the ticker's latest cached day, or None. */
    method GetLastCachedDate(ticker: string) returns (d: Option<int>)
      ensures IsLastDate(bars, ticker, d)
    {
      var days := TickerDays(bars, ticker);
      var remaining := days;
      d := None;
      while remaining != {}
        invariant remaining <= days
        invariant d.None? ==> remaining == days
        invariant d.Some? ==> d.value in days && forall x :: x in days - remaining ==> x <= d.value
        decreases remaining
      {
        assert (forall x :: x !in remaining) ==> remaining == {};
        var x :| x in remaining;
        assert days - (remaining - {x}) == (days - remaining) + {x};
        if d.None? || x > d.value {
          d := Some(x);
        }
        remaining := remaining - {x};
      }
      assert days - remaining == days;
    }

    /**
     * needs_update: true without a cached bar, else iff a whole day has passed
     * since midnight of the latest cached date; that is, iff no cached bar is
     * dated today or later.
     */
    method NeedsUpdate(ticker: string, now: int) returns (stale: bool)
      ensures stale == Stale(bars, ticker, now)
    {
      var last := GetLastCachedDate(ticker);
      if last.None? {
        forall k | k in bars && k.0 == ticker
          ensures k.1 in TickerDays(bars, ticker)
        {
        }
        return true;
      }
      DayShift(now, last.value);
      stale := (now - last.value * SecondsPerDay) / SecondsPerDay >= 1;
      assert (ticker, last.value) in bars;
      forall k | k in bars && k.0 == ticker
        ensures k.1 <= last.value
      {
        assert k.1 in TickerDays(bars, ticker);
      }
    }

    /** save_signal: append one row stamped `now`, which is no earlier than the rows already logged. */
    method SaveSignal(ticker: string, signal: Kind, price: real, rpp: real, now: int)
      requires Valid()
      requires history == [] || Last(history).createdAt <= now
      modifies this
      ensures Valid()
      ensures history == old(history) + [SignalRecord(ticker, signal, price, rpp, now)]
      ensures bars == old(bars) && watchlist == old(watchlist) && config == old(config)
    {
      history := history + [SignalRecord(ticker, signal, price, rpp, now)];
    }

    /** get_signal_history: rows of the last `days` days, newest first, filtered by ticker when one is given. */
    method GetSignalHistory(ticker: Option<string>, days: int, now: int) returns (rows: seq<SignalRecord>)
      requires Valid()
      ensures rows == NewestFirst(history, ticker, now - days * SecondsPerDay)
      ensures Descending(rows)
      ensures forall r :: r in rows <==> r in history && Selected(r, ticker, now - days * SecondsPerDay)
    {
      var cutoff := now - days * SecondsPerDay;
      rows := [];
      var i := |history|;
      while i > 0
        invariant 0 <= i <= |history|
        invariant rows == NewestFirst(history[i..], ticker, cutoff)
      {
        i := i - 1;
        assert history[i..][1..] == history[i + 1..];
        if Selected(history[i], ticker, cutoff) {
          rows := rows + [history[i]];
        }
      }
      assert history[0..] == history;
      NewestFirstDescending(history, ticker, cutoff);
      NewestFirstExact(history, ticker, cutoff);
    }
  }

  /** The seeded tickers are already upper case. */
  lemma DefaultTickersUpper(i: nat)
    requires i < |DefaultWatchlist|
    ensures IsUpper(DefaultWatchlist[i].0)
  {
    var t := DefaultWatchlist[i].0;
    assert forall j :: 0 <= j < |t| ==> !('a' <= t[j] <= 'z');
    assert Upper(t) == t;
  }
}
