/** The keyed candle table: importing replaces by key, loading cuts a half-open time range in order. */
module CandleStore {
  import opened Wrappers
  import opened IsoText
  import opened Ordering
  import opened Resampling

  /** Timestamps are stored and compared as text. */
  datatype Key = Key(symbol: string, timeframe: string, ts: string)

  /** A row's candle holds the timestamp that its key text parses to. */
  type Table = map<Key, Candle>

  ghost predicate Keyed(table: Table) {
    forall k :: k in table ==> IsoFormat(table[k].ts) == k.ts && FourDigitYear(table[k].ts)
  }

  ghost predicate Representable(df: seq<Candle>) {
    forall c <- df :: FourDigitYear(c.ts)
  }

  function KeyOf(symbol: string, timeframe: string, c: Candle): Key {
    Key(symbol, timeframe, IsoFormat(c.ts))
  }

  /** The row that survives for a timestamp: the last one written. */
  function LastAt(df: seq<Candle>, ts: string): Option<Candle> {
    if df == [] then None
    else if IsoFormat(df[|df| - 1].ts) == ts then Some(df[|df| - 1])
    else LastAt(df[..|df| - 1], ts)
  }

  /** `now` is `before` with the frame's rows written over it under their keys, and nothing else touched. */
  ghost predicate Upserted(before: Table, symbol: string, timeframe: string, df: seq<Candle>, now: Table) {
    forall k: Key ::
      var written := if k.symbol == symbol && k.timeframe == timeframe then LastAt(df, k.ts) else None;
      if written.Some? then k in now && now[k] == written.value
      else (k in now <==> k in before) && (k in now ==> now[k] == before[k])
  }

  /** An absent or empty bound adds no condition. */
  predicate Given(bound: Option<string>) {
    bound.Some? && bound.value != ""
  }

  predicate InRange(ts: string, start: Option<string>, end: Option<string>) {
    (Given(start) ==> !Less(ts, start.value)) && (Given(end) ==> Less(ts, end.value))
  }

  function Selected(
    table: Table, symbol: string, timeframe: string, start: Option<string>, end: Option<string>): set<Key>
  {
    set k | k in table && k.symbol == symbol && k.timeframe == timeframe && InRange(k.ts, start, end)
  }

  const BY_TEXT := (a: Key, b: Key) => !Less(b.ts, a.ts)

  function CandlesAt(table: Table, keys: seq<Key>): seq<Candle>
    requires forall k <- keys :: k in table
  {
    seq(|keys|, i requires 0 <= i < |keys| => table[keys[i]])
  }

  /** `df` is the frame the query returns. */
  ghost predicate Loaded(
    table: Table, symbol: string, timeframe: string, start: Option<string>, end: Option<string>, df: seq<Candle>)
  {
    exists keys ::
      Listing(Selected(table, symbol, timeframe, start, end), BY_TEXT, keys) && df == CandlesAt(table, keys)
  }

  lemma ByTextOrders()
    ensures TotalPreorder(BY_TEXT)
  {
    forall a: Key, b: Key
      ensures BY_TEXT(a, b) || BY_TEXT(b, a)
    {
      LessTotal(a.ts, b.ts);
    }
    forall a: Key, b: Key, c: Key | BY_TEXT(a, b) && BY_TEXT(b, c)
      ensures BY_TEXT(a, c)
    {
      LessTransitive(a.ts, b.ts, c.ts);
    }
  }

  lemma Unwritten(table: Table, symbol: string, timeframe: string)
    ensures Upserted(table, symbol, timeframe, [], table)
  {
  }

  /** One more row written over. */
  lemma UpsertOne(before: Table, symbol: string, timeframe: string, df: seq<Candle>, now: Table, c: Candle)
    requires Upserted(before, symbol, timeframe, df, now)
    ensures Upserted(before, symbol, timeframe, df + [c], now[KeyOf(symbol, timeframe, c) := c])
  {
    hide IsoFormat;
    assert (df + [c])[..|df|] == df;
  }

  class Database {
    var candles: Table

    constructor ()
      ensures candles == map[]
    {
      candles := map[];
    }

    method StoreCandles(symbol: string, timeframe: string, df: seq<Candle>)
      modifies this
      ensures Upserted(old(candles), symbol, timeframe, df, candles)
      ensures old(Keyed(candles)) && Representable(df) ==> Keyed(candles)
    {
      hide IsoFormat, FourDigitYear, Upserted;
      Unwritten(candles, symbol, timeframe);
      for i := 0 to |df|
        invariant Upserted(old(candles), symbol, timeframe, df[..i], candles)
        invariant old(Keyed(candles)) && Representable(df) ==> Keyed(candles)
      {
        UpsertOne(old(candles), symbol, timeframe, df[..i], candles, df[i]);
        assert df[..i] + [df[i]] == df[..i + 1];
        candles := candles[KeyOf(symbol, timeframe, df[i]) := df[i]];
      }
      assert df[..|df|] == df;
    }

    method LoadCandles(symbol: string, timeframe: string, start: Option<string>, end: Option<string>)
      returns (df: seq<Candle>)
      ensures Loaded(candles, symbol, timeframe, start, end, df)
    {
      ByTextOrders();
      var keys := ListMembers(Selected(candles, symbol, timeframe, start, end), BY_TEXT);
      df := CandlesAt(candles, keys);
    }
  }

  /** Rows of one series are told apart by their texts, so there is one frame a query can return. */
  lemma OneListing(
    table: Table, symbol: string, timeframe: string, start: Option<string>, end: Option<string>,
    a: seq<Key>, b: seq<Key>)
    requires Listing(Selected(table, symbol, timeframe, start, end), BY_TEXT, a)
    requires Listing(Selected(table, symbol, timeframe, start, end), BY_TEXT, b)
    ensures a == b
  {
    var members := Selected(table, symbol, timeframe, start, end);
    forall x, y | x in members && y in members && BY_TEXT(x, y) && BY_TEXT(y, x)
      ensures x == y
    {
      LessTotal(x.ts, y.ts);
    }
    ListingUnique(members, BY_TEXT, a, b);
  }

  /** An empty bound is no bound. */
  lemma EmptyBoundIsNone(table: Table, symbol: string, timeframe: string, bound: Option<string>, df: seq<Candle>)
    ensures Loaded(table, symbol, timeframe, Some(""), bound, df) <==> Loaded(table, symbol, timeframe, None, bound, df)
    ensures Loaded(table, symbol, timeframe, bound, Some(""), df) <==> Loaded(table, symbol, timeframe, bound, None, df)
  {
    hide Less;
    assert Selected(table, symbol, timeframe, Some(""), bound) == Selected(table, symbol, timeframe, None, bound);
    assert Selected(table, symbol, timeframe, bound, Some("")) == Selected(table, symbol, timeframe, bound, None);
  }

  lemma {:induction false} LastAtFinds(df: seq<Candle>, ts: string)
    requires forall i, j :: 0 <= i < j < |df| ==> IsoFormat(df[i].ts) != IsoFormat(df[j].ts)
    ensures forall c :: LastAt(df, ts) == Some(c) <==> c in df && IsoFormat(c.ts) == ts
  {
    hide IsoFormat;
    if df != [] {
      var front, last := df[..|df| - 1], df[|df| - 1];
      LastAtFinds(front, ts);
      assert forall c :: c in df <==> c in front || c == last;
      assert forall c :: c in front ==> IsoFormat(c.ts) != IsoFormat(last.ts);
    }
  }

  function KeysOf(symbol: string, timeframe: string, df: seq<Candle>): seq<Key> {
    seq(|df|, i requires 0 <= i < |df| => KeyOf(symbol, timeframe, df[i]))
  }

  /** Importing a frame with increasing timestamps into an empty series and loading the series gives the frame back. */
  lemma LoadAfterStore(
    before: Table, now: Table, symbol: string, timeframe: string, df: seq<Candle>, loaded: seq<Candle>)
    requires Upserted(before, symbol, timeframe, df, now)
    requires forall k :: k in before ==> k.symbol != symbol || k.timeframe != timeframe
    requires Increasing(Times(df)) && Representable(df)
    requires Loaded(now, symbol, timeframe, None, None, loaded)
    ensures loaded == df
  {
    hide IsoFormat, FourDigitYear, Less, Upserted;
    TimesIncrease(df);
    var members, keys := Selected(now, symbol, timeframe, None, None), KeysOf(symbol, timeframe, df);
    forall i, j | 0 <= i < j < |df|
      ensures Less(IsoFormat(df[i].ts), IsoFormat(df[j].ts)) && IsoFormat(df[i].ts) != IsoFormat(df[j].ts)
    {
      TextOrderIsTimeOrder(df[i].ts, df[j].ts);
    }
    forall k
      ensures k in keys <==> k in members
    {
      WrittenKeys(before, now, symbol, timeframe, df, k);
    }
    forall i, j | 0 <= i < j < |df|
      ensures BY_TEXT(keys[i], keys[j])
    {
      LessTotal(keys[i].ts, keys[j].ts);
    }
    forall i | 0 <= i < |df|
      ensures keys[i] in now && now[keys[i]] == df[i]
    {
      LastAtFinds(df, keys[i].ts);
      WrittenAt(before, now, symbol, timeframe, df, keys[i]);
    }
    var found := ListedKeys(now, symbol, timeframe, None, None, loaded);
    OneListing(now, symbol, timeframe, None, None, found, keys);
  }

  lemma WrittenAt(before: Table, now: Table, symbol: string, timeframe: string, df: seq<Candle>, k: Key)
    requires Upserted(before, symbol, timeframe, df, now) && k.symbol == symbol && k.timeframe == timeframe
    ensures LastAt(df, k.ts).Some? ==> k in now && now[k] == LastAt(df, k.ts).value
    ensures LastAt(df, k.ts).None? ==> (k in now <==> k in before)
  {
  }

  lemma WrittenKeys(before: Table, now: Table, symbol: string, timeframe: string, df: seq<Candle>, k: Key)
    requires Upserted(before, symbol, timeframe, df, now)
    requires forall k :: k in before ==> k.symbol != symbol || k.timeframe != timeframe
    requires forall i, j :: 0 <= i < j < |df| ==> IsoFormat(df[i].ts) != IsoFormat(df[j].ts)
    ensures k in KeysOf(symbol, timeframe, df) <==> k in Selected(now, symbol, timeframe, None, None)
  {
    hide IsoFormat, Upserted;
    if k.symbol == symbol && k.timeframe == timeframe {
      LastAtFinds(df, k.ts);
      WrittenAt(before, now, symbol, timeframe, df, k);
      var keys := KeysOf(symbol, timeframe, df);
      if i :| 0 <= i < |df| && keys[i] == k {
        assert df[i] in df;
      }
      if LastAt(df, k.ts).Some? {
        var i :| 0 <= i < |df| && df[i] == LastAt(df, k.ts).value;
        assert keys[i] == k;
      }
    }
  }

  /** Importing the same frame again changes nothing. */
  lemma StoreIsIdempotent(before: Table, once: Table, twice: Table, symbol: string, timeframe: string, df: seq<Candle>)
    requires Upserted(before, symbol, timeframe, df, once) && Upserted(once, symbol, timeframe, df, twice)
    ensures once == twice
  {
    hide IsoFormat;
  }

  /** Other series are not affected by an import. */
  lemma OtherSeriesUntouched(
    before: Table, now: Table, symbol: string, timeframe: string, df: seq<Candle>,
    other: string, otherFrame: string, start: Option<string>, end: Option<string>, loaded: seq<Candle>)
    requires Upserted(before, symbol, timeframe, df, now) && (other != symbol || otherFrame != timeframe)
    ensures Loaded(now, other, otherFrame, start, end, loaded)
       <==> Loaded(before, other, otherFrame, start, end, loaded)
  {
    hide Less, LastAt;
    assert Selected(now, other, otherFrame, start, end) == Selected(before, other, otherFrame, start, end);
    forall keys | Listing(Selected(now, other, otherFrame, start, end), BY_TEXT, keys)
      ensures CandlesAt(now, keys) == CandlesAt(before, keys)
    {
      assert forall k <- keys :: k in now && k in before && now[k] == before[k];
    }
  }

  /**
    Bounds written in the stored format cut by time: the frame holds exactly the candles of the
    series from `start` up to `end`, in strictly increasing time order.
   */
  lemma LoadsTimeRange(table: Table, symbol: string, timeframe: string, start: int, end: int, loaded: seq<Candle>)
    requires Keyed(table) && FourDigitYear(start) && FourDigitYear(end)
    requires Loaded(table, symbol, timeframe, Some(IsoFormat(start)), Some(IsoFormat(end)), loaded)
    ensures forall c :: c in loaded <==>
                          && KeyOf(symbol, timeframe, c) in table && table[KeyOf(symbol, timeframe, c)] == c
                          && start <= c.ts < end
    ensures Increasing(Times(loaded))
  {
    hide IsoFormat, FourDigitYear, Less;
    var keys := ListedKeys(table, symbol, timeframe, Some(IsoFormat(start)), Some(IsoFormat(end)), loaded);
    forall c
      ensures c in loaded <==>
                && KeyOf(symbol, timeframe, c) in table && table[KeyOf(symbol, timeframe, c)] == c
                && start <= c.ts < end
    {
      var k := KeyOf(symbol, timeframe, c);
      if k in table && table[k] == c {
        TimeBounds(c.ts, start, end);
        if k in keys {
          var i :| 0 <= i < |keys| && keys[i] == k;
          assert loaded[i] == c;
        }
      }
      if c in loaded {
        var i :| 0 <= i < |loaded| && loaded[i] == c;
        assert keys[i] in keys;
        TimeBounds(c.ts, start, end);
      }
    }
    TimesIncrease(loaded);
    forall i, j | 0 <= i < j < |loaded|
      ensures loaded[i].ts < loaded[j].ts
    {
      assert keys[i] in keys && keys[j] in keys;
      TextOrderIsTimeOrder(loaded[j].ts, loaded[i].ts);
    }
  }

  lemma TimeBounds(ts: int, start: int, end: int)
    requires FourDigitYear(ts) && FourDigitYear(start) && FourDigitYear(end)
    ensures InRange(IsoFormat(ts), Some(IsoFormat(start)), Some(IsoFormat(end))) <==> start <= ts < end
  {
    hide Less, FourDigitYear, IsoFormat;
    TextOrderIsTimeOrder(ts, start);
    TextOrderIsTimeOrder(ts, end);
  }

  /** Half-open ranges join: loading up to `mid` and from `mid` on gives the whole range, no candle lost or doubled. */
  lemma RangesJoin(
    table: Table, symbol: string, timeframe: string, start: Option<string>, mid: string, end: Option<string>,
    left: seq<Candle>, right: seq<Candle>, whole: seq<Candle>)
    requires Between(start, mid, end)
    requires Loaded(table, symbol, timeframe, start, Some(mid), left)
    requires Loaded(table, symbol, timeframe, Some(mid), end, right)
    requires Loaded(table, symbol, timeframe, start, end, whole)
    ensures left + right == whole
  {
    hide Between, Loaded, Listing, Selected, CandlesAt;
    var l := ListedKeys(table, symbol, timeframe, start, Some(mid), left);
    var r := ListedKeys(table, symbol, timeframe, Some(mid), end, right);
    var w := ListedKeys(table, symbol, timeframe, start, end, whole);
    KeysJoin(table, symbol, timeframe, start, mid, end, l, r);
    OneListing(table, symbol, timeframe, start, end, l + r, w);
    CandlesJoin(table, l, r);
  }

  lemma ListedKeys(
    table: Table, symbol: string, timeframe: string, start: Option<string>, end: Option<string>, df: seq<Candle>)
    returns (keys: seq<Key>)
    requires Loaded(table, symbol, timeframe, start, end, df)
    ensures Listing(Selected(table, symbol, timeframe, start, end), BY_TEXT, keys)
    ensures (forall k <- keys :: k in table) && df == CandlesAt(table, keys)
  {
    keys :| Listing(Selected(table, symbol, timeframe, start, end), BY_TEXT, keys) && df == CandlesAt(table, keys);
  }

  lemma CandlesJoin(table: Table, l: seq<Key>, r: seq<Key>)
    requires (forall k <- l :: k in table) && (forall k <- r :: k in table)
    ensures (forall k <- l + r :: k in table) && CandlesAt(table, l + r) == CandlesAt(table, l) + CandlesAt(table, r)
  {
  }

  predicate Between(start: Option<string>, mid: string, end: Option<string>) {
    mid != "" && (Given(start) ==> !Less(mid, start.value)) && (Given(end) ==> !Less(end.value, mid))
  }

  lemma KeysJoin(
    table: Table, symbol: string, timeframe: string, start: Option<string>, mid: string, end: Option<string>,
    l: seq<Key>, r: seq<Key>)
    requires Between(start, mid, end)
    requires Listing(Selected(table, symbol, timeframe, start, Some(mid)), BY_TEXT, l)
    requires Listing(Selected(table, symbol, timeframe, Some(mid), end), BY_TEXT, r)
    ensures Listing(Selected(table, symbol, timeframe, start, end), BY_TEXT, l + r)
  {
    hide Less, Between, InRange;
    forall k
      ensures k in l + r <==> k in Selected(table, symbol, timeframe, start, end)
    {
      MidBetween(k.ts, start, mid, end);
    }
    forall a: Key, b: Key | a in l && b in r
      ensures a != b && BY_TEXT(a, b)
    {
      MidSeparates(a.ts, b.ts, start, mid, end);
    }
    assert forall i :: 0 <= i < |l| ==> l[i] in l;
    assert forall i :: 0 <= i < |r| ==> r[i] in r;
  }

  lemma MidSeparates(a: string, b: string, start: Option<string>, mid: string, end: Option<string>)
    requires Between(start, mid, end) && InRange(a, start, Some(mid)) && InRange(b, Some(mid), end)
    ensures Less(a, b) && !Less(b, a)
  {
    hide Less;
    LessTotal(a, b);
    if !Less(a, b) {
      LessTransitive(mid, b, a);
    }
  }

  lemma MidBetween(ts: string, start: Option<string>, mid: string, end: Option<string>)
    requires Between(start, mid, end)
    ensures InRange(ts, start, end) <==> InRange(ts, start, Some(mid)) || InRange(ts, Some(mid), end)
  {
    hide Less;
    if Given(end) {
      LessTotal(ts, mid);
      LessTotal(ts, end.value);
      if !Less(ts, end.value) {
        LessTransitive(mid, end.value, ts);
      }
    }
    if Given(start) && !Less(ts, mid) {
      LessTransitive(start.value, mid, ts);
    }
  }
}
