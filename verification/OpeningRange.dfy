/** The NIFTY opening-range strategy: its indicators, its position and the orders it sends. */
module OpeningRange {
  import opened Wrappers
  import opened Numbers

  datatype Candle = Candle(high: real, low: real, close: real, volume: real)

  predicate ValidCandle(c: Candle) {
    c.low <= c.close <= c.high
  }

  // ---------- indicators ----------

  function Typical(c: Candle): real {
    (c.high + c.low + c.close) / 3.0
  }

  function PriceVolume(c: Candle): real {
    Typical(c) * c.volume
  }

  function SumPriceVolume(candles: seq<Candle>): real {
    if candles == [] then 0.0
    else SumPriceVolume(candles[..|candles| - 1]) + PriceVolume(candles[|candles| - 1])
  }

  function SumVolume(candles: seq<Candle>): real {
    if candles == [] then 0.0 else SumVolume(candles[..|candles| - 1]) + candles[|candles| - 1].volume
  }

  /** `None` is the source's NaN: no volume traded. */
  function Vwap(candles: seq<Candle>): Option<real> {
    if SumVolume(candles) != 0.0 then Some(SumPriceVolume(candles) / SumVolume(candles)) else None
  }

  function TrueRange(c: Candle, prevClose: real): real {
    MaxReal(c.high - c.low, MaxReal(Abs(c.high - prevClose), Abs(c.low - prevClose)))
  }

  function TrueRanges(candles: seq<Candle>): seq<real> {
    if |candles| <= 1 then []
    else TrueRanges(candles[..|candles| - 1]) + [TrueRange(candles[|candles| - 1], candles[|candles| - 2].close)]
  }

  /** The last `period` ranges, or all of them when there are fewer; a slice from -0 is the whole list. */
  function AtrWindow(candles: seq<Candle>, period: nat): seq<real> {
    var trs := TrueRanges(candles);
    if |trs| >= period > 0 then trs[|trs| - period..] else trs
  }

  function Sum(xs: seq<real>): real {
    if xs == [] then 0.0 else Sum(xs[..|xs| - 1]) + xs[|xs| - 1]
  }

  function Mean(xs: seq<real>): real {
    if xs == [] then 0.0 else Sum(xs) / |xs| as real
  }

  function Atr(candles: seq<Candle>, period: nat): real {
    Mean(AtrWindow(candles, period))
  }

  method ComputeVwap(candles: seq<Candle>) returns (vwap: Option<real>)
    ensures vwap == Vwap(candles)
  {
    var cumPv, cumV := 0.0, 0.0;
    for i := 0 to |candles|
      invariant cumPv == SumPriceVolume(candles[..i]) && cumV == SumVolume(candles[..i])
    {
      var c := candles[i];
      assert candles[..i + 1][..i] == candles[..i];
      cumPv := cumPv + PriceVolume(c);
      cumV := cumV + c.volume;
    }
    assert candles[..|candles|] == candles;
    vwap := if cumV != 0.0 then Some(cumPv / cumV) else None;
  }

  lemma NoRanges(candles: seq<Candle>)
    requires |candles| <= 1
    ensures TrueRanges(candles) == []
  {
  }

  lemma NextRange(candles: seq<Candle>, i: nat)
    requires 1 <= i < |candles|
    ensures TrueRanges(candles[..i + 1]) == TrueRanges(candles[..i]) + [TrueRange(candles[i], candles[i - 1].close)]
  {
    hide TrueRange;
    assert candles[..i + 1][..i] == candles[..i];
  }

  method ComputeAtr(candles: seq<Candle>, period: nat) returns (atr: real)
    ensures atr == Atr(candles, period)
  {
    hide Mean, TrueRange, TrueRanges;
    var trs: seq<real> := [];
    NoRanges(candles[..MinInt(1, |candles|)]);
    for i := 1 to MaxInt(1, |candles|)
      invariant trs == TrueRanges(candles[..MinInt(i, |candles|)])
    {
      NextRange(candles, i);
      trs := trs + [TrueRange(candles[i], candles[i - 1].close)];
    }
    assert candles[..|candles|] == candles;
    var window := if |trs| >= period > 0 then trs[|trs| - period..] else trs;
    atr := Mean(window);
  }

  /** A quotient lies where its numerator lies, in multiples of its denominator. */
  lemma QuotientBetween(s: real, n: real, lo: real, hi: real)
    requires n > 0.0 && lo * n <= s <= hi * n
    ensures lo <= s / n <= hi
  {
    QuotientAtLeast(s, n, lo);
    QuotientAtLeast(-s, n, -hi);
    assert -s / n == -(s / n);
  }

  /** `pv` is a weighted sum, of total weight `v`, of prices between `lo` and `hi`. */
  predicate Weighted(pv: real, v: real, lo: real, hi: real) {
    lo * v <= pv <= hi * v
  }

  lemma AddWeighted(pv: real, v: real, c: Candle, lo: real, hi: real)
    requires Weighted(pv, v, lo, hi) && c.volume >= 0.0 && lo <= c.low && ValidCandle(c) && c.high <= hi
    ensures Weighted(pv + PriceVolume(c), v + c.volume, lo, hi)
  {
    MulMono(lo, Typical(c), c.volume);
    MulMono(Typical(c), hi, c.volume);
    assert lo * (v + c.volume) == lo * v + lo * c.volume && hi * (v + c.volume) == hi * v + hi * c.volume;
  }

  lemma {:induction false} WeightedBetween(candles: seq<Candle>, lo: real, hi: real)
    requires forall c <- candles :: c.volume >= 0.0 && lo <= c.low && ValidCandle(c) && c.high <= hi
    ensures Weighted(SumPriceVolume(candles), SumVolume(candles), lo, hi)
  {
    hide PriceVolume, Weighted;
    if candles == [] {
      NothingWeighted(lo, hi);
    } else {
      var front, last := candles[..|candles| - 1], candles[|candles| - 1];
      assert forall c <- front :: c in candles;
      assert last in candles;
      WeightedBetween(front, lo, hi);
      AddWeighted(SumPriceVolume(front), SumVolume(front), last, lo, hi);
    }
  }

  lemma NothingWeighted(lo: real, hi: real)
    ensures Weighted(0.0, 0.0, lo, hi)
  {
  }

  /** VWAP lies between the lowest low and the highest high, in fact inside every band that holds all candles. */
  lemma VwapInsideRange(candles: seq<Candle>, lo: real, hi: real)
    requires forall c <- candles :: c.volume >= 0.0 && lo <= c.low && ValidCandle(c) && c.high <= hi
    ensures Vwap(candles).Some? ==> lo <= Vwap(candles).value <= hi
    ensures Vwap(candles).None? <==> forall c <- candles :: c.volume == 0.0
  {
    hide SumPriceVolume, SumVolume;
    WeightedBetween(candles, lo, hi);
    NoVolume(candles);
    var v := SumVolume(candles);
    if v > 0.0 {
      QuotientBetween(SumPriceVolume(candles), v, lo, hi);
    }
  }

  lemma {:induction false} NoVolume(candles: seq<Candle>)
    requires forall c <- candles :: c.volume >= 0.0
    ensures SumVolume(candles) >= 0.0
    ensures SumVolume(candles) == 0.0 <==> forall c <- candles :: c.volume == 0.0
  {
    if candles != [] {
      var front := candles[..|candles| - 1];
      assert forall c :: c in candles <==> c in front || c == candles[|candles| - 1];
      NoVolume(front);
    }
  }

  lemma {:induction false} SumBetween(xs: seq<real>, lo: real, hi: real)
    requires forall x <- xs :: lo <= x <= hi
    ensures lo * |xs| as real <= Sum(xs) <= hi * |xs| as real
  {
    if xs != [] {
      var front := xs[..|xs| - 1];
      assert forall x <- front :: x in xs;
      assert xs[|xs| - 1] in xs;
      SumBetween(front, lo, hi);
      assert |xs| as real == |front| as real + 1.0;
    }
  }

  lemma {:induction false} RangesCount(candles: seq<Candle>)
    ensures |TrueRanges(candles)| == if candles == [] then 0 else |candles| - 1
    ensures (forall c <- candles :: ValidCandle(c)) ==> forall x <- TrueRanges(candles) :: x >= 0.0
  {
    if |candles| > 1 {
      assert forall c <- candles[..|candles| - 1] :: c in candles;
      RangesCount(candles[..|candles| - 1]);
    }
  }

  /** ATR lies between the least and greatest true range of its window, and is never negative. */
  lemma AtrInsideWindow(candles: seq<Candle>, period: nat, lo: real, hi: real)
    requires forall c <- candles :: ValidCandle(c)
    requires AtrWindow(candles, period) != [] && forall x <- AtrWindow(candles, period) :: lo <= x <= hi
    ensures lo <= Atr(candles, period) <= hi && Atr(candles, period) >= 0.0
  {
    hide Sum, TrueRanges;
    var window := AtrWindow(candles, period);
    var n := |window| as real;
    RangesCount(candles);
    assert forall x <- window :: x in TrueRanges(candles);
    SumBetween(window, lo, hi);
    QuotientBetween(Sum(window), n, lo, hi);
    SumBetween(window, 0.0, MaxReal(hi, 0.0));
    QuotientBetween(Sum(window), n, 0.0, MaxReal(hi, 0.0));
  }

  /** Behind `on_bar`'s guard the window is exactly `period` ranges long. */
  lemma GuardFillsWindow(candles: seq<Candle>, period: nat)
    requires period > 0 && |candles| >= period + 1
    ensures |AtrWindow(candles, period)| == period
  {
    RangesCount(candles);
  }

  /** Money traded, three times over so as not to divide, summed from the front. */
  function ThreeTurnover(candles: seq<Candle>): real {
    if candles == [] then 0.0
    else (candles[0].high + candles[0].low + candles[0].close) * candles[0].volume + ThreeTurnover(candles[1..])
  }

  function Traded(candles: seq<Candle>): real {
    if candles == [] then 0.0 else candles[0].volume + Traded(candles[1..])
  }

  lemma {:induction false} SumsFromFront(candles: seq<Candle>, c: Candle)
    ensures Traded(candles + [c]) == Traded(candles) + c.volume
    ensures ThreeTurnover(candles + [c]) == ThreeTurnover(candles) + (c.high + c.low + c.close) * c.volume
  {
    if candles == [] {
      assert [c][1..] == [];
    } else {
      assert (candles + [c])[1..] == candles[1..] + [c];
      SumsFromFront(candles[1..], c);
    }
  }

  lemma {:induction false} VwapSums(candles: seq<Candle>)
    ensures SumVolume(candles) == Traded(candles) && 3.0 * SumPriceVolume(candles) == ThreeTurnover(candles)
  {
    if candles != [] {
      var front, c := candles[..|candles| - 1], candles[|candles| - 1];
      VwapSums(front);
      SumsFromFront(front, c);
      assert front + [c] == candles;
      ThriceTypical(c);
    }
  }

  lemma ThriceTypical(c: Candle)
    ensures 3.0 * PriceVolume(c) == (c.high + c.low + c.close) * c.volume
  {
    var sum := c.high + c.low + c.close;
    assert 3.0 * (sum / 3.0 * c.volume) == sum * c.volume;
  }

  /** VWAP times the volume is the turnover, each candle counting with the mean of its high, low and close. */
  lemma VwapIsTurnover(candles: seq<Candle>)
    ensures Vwap(candles).Some? <==> Traded(candles) != 0.0
    ensures Vwap(candles).Some? ==> 3.0 * Vwap(candles).value * Traded(candles) == ThreeTurnover(candles)
  {
    hide SumPriceVolume, SumVolume, Traded, ThreeTurnover;
    VwapSums(candles);
    var pv, v := SumPriceVolume(candles), SumVolume(candles);
    if v != 0.0 {
      var q := pv / v;
      assert q * v == pv;
      assert 3.0 * q * v == 3.0 * (q * v);
    }
  }

  /** The span from the previous close through the candle's low and high. */
  function Span(c: Candle, prevClose: real): real {
    MaxReal(c.high, prevClose) - MinReal(c.low, prevClose)
  }

  lemma TrueRangeIsSpan(c: Candle, prevClose: real)
    requires c.low <= c.high
    ensures TrueRange(c, prevClose) == Span(c, prevClose)
  {
  }

  /** The spans of candles `from` to the last, summed from the front. */
  function SpansFrom(candles: seq<Candle>, from: nat): real
    requires 0 < from <= |candles|
    decreases |candles| - from
  {
    if from == |candles| then 0.0 else Span(candles[from], candles[from - 1].close) + SpansFrom(candles, from + 1)
  }

  lemma {:induction false} RangeAt(candles: seq<Candle>, k: nat)
    requires k + 1 < |candles|
    ensures |TrueRanges(candles)| == |candles| - 1
    ensures TrueRanges(candles)[k] == TrueRange(candles[k + 1], candles[k].close)
  {
    hide TrueRange;
    RangesCount(candles);
    if k + 2 < |candles| {
      RangesCount(candles[..|candles| - 1]);
      RangeAt(candles[..|candles| - 1], k);
    } else {
      RangesCount(candles[..|candles| - 1]);
    }
  }

  lemma {:induction false} SumOfFront(x: real, xs: seq<real>)
    ensures Sum([x] + xs) == x + Sum(xs)
  {
    if xs == [] {
      assert [x][..0] == [];
    } else {
      var front := xs[..|xs| - 1];
      SumOfFront(x, front);
      assert ([x] + xs)[..|xs|] == [x] + front;
    }
  }

  lemma {:induction false} SpansSum(candles: seq<Candle>, from: nat)
    requires 0 < from <= |candles| && forall c <- candles :: c.low <= c.high
    ensures |TrueRanges(candles)| == |candles| - 1
    ensures Sum(TrueRanges(candles)[from - 1..]) == SpansFrom(candles, from)
    decreases |candles| - from
  {
    hide TrueRanges, TrueRange, Span;
    RangesCount(candles);
    if from < |candles| {
      var ranges := TrueRanges(candles);
      SpansSum(candles, from + 1);
      RangeAt(candles, from - 1);
      assert candles[from] in candles;
      TrueRangeIsSpan(candles[from], candles[from - 1].close);
      SumOfFront(ranges[from - 1], ranges[from..]);
      assert ranges[from - 1..] == [ranges[from - 1]] + ranges[from..];
    }
  }

  /** Behind the guard ATR is the mean span of the last `period` candles. */
  lemma AtrIsMeanSpan(candles: seq<Candle>, period: nat)
    requires period > 0 && |candles| >= period + 1 && forall c <- candles :: c.low <= c.high
    ensures Atr(candles, period) * period as real == SpansFrom(candles, |candles| - period)
  {
    hide Sum, TrueRanges, SpansFrom;
    SpansSum(candles, |candles| - period);
    GuardFillsWindow(candles, period);
    var total, n := Sum(AtrWindow(candles, period)), period as real;
    assert total / n * n == total;
  }

  // ---------- the strategy ----------

  datatype Side = Buy | Sell {
    function Opposite(): Side {
      if Buy? then Sell else Buy
    }

    function Sign(): int {
      if Buy? then 1 else -1
    }
  }

  datatype Order = Order(side: Side, qty: int)

  datatype Position = Position(side: Side, entry: real, sl: real, tp: real, qty: int)

  /** Times are seconds since midnight. */
  datatype Config = Config(
    squareOff: int, atrPeriod: nat, slMult: real, tpMult: real, qtyLots: int, lotSize: int, oneShot: bool)

  /** The strategy object's fields, and the orders its broker was sent so far. */
  datatype Desk = Desk(
    orbHigh: Option<real>, orbLow: Option<real>, longTaken: bool, shortTaken: bool,
    position: Option<Position>, orders: seq<Order>)

  datatype Event = Range(candles: seq<Candle>) | Bar(candles: seq<Candle>, now: int)

  function Highest(candles: seq<Candle>): real
    requires candles != []
  {
    if |candles| == 1 then candles[0].high
    else MaxReal(Highest(candles[..|candles| - 1]), candles[|candles| - 1].high)
  }

  function Lowest(candles: seq<Candle>): real
    requires candles != []
  {
    if |candles| == 1 then candles[0].low
    else MinReal(Lowest(candles[..|candles| - 1]), candles[|candles| - 1].low)
  }

  /** The range is the highest high and the lowest low, both reached. */
  lemma {:induction false} RangeIsReached(candles: seq<Candle>)
    requires candles != []
    ensures forall c <- candles :: Lowest(candles) <= c.low && c.high <= Highest(candles)
    ensures (exists c <- candles :: c.low == Lowest(candles)) && (exists c <- candles :: c.high == Highest(candles))
  {
    var last := candles[|candles| - 1];
    if |candles| > 1 {
      var front := candles[..|candles| - 1];
      RangeIsReached(front);
      assert forall c :: c in candles <==> c in front || c == last;
    } else {
      assert candles[0] in candles;
    }
  }

  /** A comparison with NaN is false. */
  predicate Above(price: real, vwap: Option<real>) {
    vwap.Some? && price > vwap.value
  }

  predicate Below(price: real, vwap: Option<real>) {
    vwap.Some? && price < vwap.value
  }

  predicate LongSignal(cfg: Config, d: Desk, close: real, vwap: Option<real>)
    requires d.orbHigh.Some?
  {
    !(cfg.oneShot && d.longTaken) && close > d.orbHigh.value && Above(close, vwap)
  }

  predicate ShortSignal(cfg: Config, d: Desk, close: real, vwap: Option<real>)
    requires d.orbLow.Some?
  {
    !(cfg.oneShot && d.shortTaken) && close < d.orbLow.value && Below(close, vwap)
  }

  /** The stop and the target of an entry, so many ATRs away on either side. */
  function StopPrice(cfg: Config, side: Side, price: real, atr: real): real {
    if side.Buy? then price - atr * cfg.slMult else price + atr * cfg.slMult
  }

  function TargetPrice(cfg: Config, side: Side, price: real, atr: real): real {
    if side.Buy? then price + atr * cfg.tpMult else price - atr * cfg.tpMult
  }

  function EntryQty(cfg: Config): int {
    cfg.qtyLots * cfg.lotSize
  }

  function Entered(cfg: Config, d: Desk, side: Side, price: real, atr: real): Desk {
    var sl, tp, qty := StopPrice(cfg, side, price, atr), TargetPrice(cfg, side, price, atr), EntryQty(cfg);
    d.(orders := d.orders + [Order(side, qty)], position := Some(Position(side, price, sl, tp, qty)))
  }

  function Exited(d: Desk): Desk
    requires d.position.Some?
  {
    var p := d.position.value;
    d.(orders := d.orders + [Order(p.side.Opposite(), p.qty)], position := None)
  }

  predicate HitsExit(p: Position, price: real) {
    || (p.side.Buy? && price <= p.sl) || (p.side.Sell? && price >= p.sl)
    || (p.side.Buy? && price >= p.tp) || (p.side.Sell? && price <= p.tp)
  }

  /** Both bounds of the range are set together. */
  predicate RangeSet(d: Desk) {
    d.orbHigh.Some? == d.orbLow.Some?
  }

  function OnRange(d: Desk, candles: seq<Candle>): Desk {
    if candles == [] then d else d.(orbHigh := Some(Highest(candles)), orbLow := Some(Lowest(candles)))
  }

  function OnBar(cfg: Config, d: Desk, candles: seq<Candle>, now: int): Desk
    requires RangeSet(d)
  {
    if now >= cfg.squareOff then if d.position.Some? then Exited(d) else d
    else if d.orbHigh.None? || |candles| < cfg.atrPeriod + 1 then d
    else
      var close, vwap, atr := candles[|candles| - 1].close, Vwap(candles), Atr(candles, cfg.atrPeriod);
      if d.position.None? then
        if LongSignal(cfg, d, close, vwap) then Entered(cfg, d, Buy, close, atr).(longTaken := true)
        else if ShortSignal(cfg, d, close, vwap) then Entered(cfg, d, Sell, close, atr).(shortTaken := true)
        else d
      else if HitsExit(d.position.value, close) then Exited(d)
      else d
  }

  function Step(cfg: Config, d: Desk, e: Event): (r: Desk)
    requires RangeSet(d)
    ensures RangeSet(r)
  {
    match e
    case Range(candles) => OnRange(d, candles)
    case Bar(candles, now) => OnBar(cfg, d, candles, now)
  }

  const FRESH := Desk(None, None, false, false, None, [])

  /** The object's whole life: any events, in any order. */
  function Run(cfg: Config, events: seq<Event>): (d: Desk)
    ensures RangeSet(d)
  {
    if events == [] then FRESH else Step(cfg, Run(cfg, events[..|events| - 1]), events[|events| - 1])
  }

  /** The bar comes before square-off, with a range set and enough candles. */
  predicate Trading(cfg: Config, d: Desk, candles: seq<Candle>, now: int) {
    now < cfg.squareOff && d.orbHigh.Some? && d.orbLow.Some? && |candles| > cfg.atrPeriod
  }

  /** An entry on a side: at the price, its stop and target so many ATRs away, its quantity lots times lot size. */
  predicate EntryAt(cfg: Config, p: Position, side: Side, price: real, atr: real) {
    && p.side == side && p.entry == price && p.qty == cfg.qtyLots * cfg.lotSize
    && match side
       case Buy => price - p.sl == atr * cfg.slMult && p.tp - price == atr * cfg.tpMult
       case Sell => p.sl - price == atr * cfg.slMult && price - p.tp == atr * cfg.tpMult
  }

  /**
    With nothing open a bar buys exactly when it closes above both the range and VWAP and buying is not
    spent, sells exactly when it closes below both and selling is not spent, and otherwise does nothing.
   */
  lemma EntersIff(cfg: Config, d: Desk, candles: seq<Candle>, now: int)
    requires RangeSet(d) && d.position.None?
    ensures var e, vwap := OnBar(cfg, d, candles, now), Vwap(candles);
            if !Trading(cfg, d, candles, now) || vwap.None? then e == d
            else
              var close, atr := candles[|candles| - 1].close, Atr(candles, cfg.atrPeriod);
              var buys := close > d.orbHigh.value && close > vwap.value && (cfg.oneShot ==> !d.longTaken);
              var sells := !buys && close < d.orbLow.value && close < vwap.value && (cfg.oneShot ==> !d.shortTaken);
              var side := if buys then Buy else Sell;
              if buys || sells then
                && e.position.Some? && EntryAt(cfg, e.position.value, side, close, atr)
                && e == d.(longTaken := d.longTaken || buys, shortTaken := d.shortTaken || sells,
                           orders := d.orders + [Order(side, e.position.value.qty)], position := e.position)
              else e == d
  {
    hide Vwap, Atr, Entered, EntryAt;
    if Trading(cfg, d, candles, now) {
      var close, atr := candles[|candles| - 1].close, Atr(candles, cfg.atrPeriod);
      EnteredIs(cfg, d, Buy, close, atr);
      EnteredIs(cfg, d, Sell, close, atr);
    }
  }

  lemma EnteredIs(cfg: Config, d: Desk, side: Side, price: real, atr: real)
    ensures var e := Entered(cfg, d, side, price, atr);
            && e.position.Some? && EntryAt(cfg, e.position.value, side, price, atr)
            && e == d.(orders := d.orders + [Order(side, e.position.value.qty)], position := e.position)
  {
  }

  /** An open position leaves at square-off or on a close not strictly inside its bracket, by the opposite order. */
  lemma LeavesIff(cfg: Config, d: Desk, candles: seq<Candle>, now: int)
    requires RangeSet(d) && d.position.Some?
    ensures var p, e := d.position.value, OnBar(cfg, d, candles, now);
            var leaves := now >= cfg.squareOff
                       || (&& Trading(cfg, d, candles, now)
                           && var close := candles[|candles| - 1].close;
                              !(if p.side.Buy? then p.sl < close < p.tp else p.tp < close < p.sl));
            if leaves then
              e == d.(position := None, orders := d.orders + [Order(if p.side.Buy? then Sell else Buy, p.qty)])
            else e == d
  {
    hide Vwap, Atr;
  }

  /** Candles set the range to their extremes and nothing else; no candles change nothing. */
  lemma RangeTaken(d: Desk, candles: seq<Candle>)
    ensures var e := OnRange(d, candles);
            if candles == [] then e == d
            else
              && e == d.(orbHigh := e.orbHigh, orbLow := e.orbLow) && e.orbHigh.Some? && e.orbLow.Some?
              && (forall c <- candles :: e.orbLow.value <= c.low && c.high <= e.orbHigh.value)
              && (exists c <- candles :: c.low == e.orbLow.value) && (exists c <- candles :: c.high == e.orbHigh.value)
  {
    hide Highest, Lowest;
    if candles != [] {
      RangeIsReached(candles);
    }
  }

  class Broker {
    var sent: seq<Order>

    constructor ()
      ensures sent == []
    {
      sent := [];
    }

    method PlaceOrder(side: Side, qty: int)
      modifies this
      ensures sent == old(sent) + [Order(side, qty)]
    {
      sent := sent + [Order(side, qty)];
    }
  }

  class NiftyORBStrategy {
    const cfg: Config
    const broker: Broker
    var orbHigh: Option<real>
    var orbLow: Option<real>
    var longTaken: bool
    var shortTaken: bool
    var position: Option<Position>

    ghost function View(): Desk
      reads this, broker
    {
      Desk(orbHigh, orbLow, longTaken, shortTaken, position, broker.sent)
    }

    constructor (cfg: Config, broker: Broker)
      requires broker.sent == []
      ensures this.cfg == cfg && this.broker == broker && View() == FRESH
    {
      this.cfg, this.broker := cfg, broker;
      orbHigh, orbLow, longTaken, shortTaken, position := None, None, false, false, None;
    }

    method ComputeOpeningRange(candles: seq<Candle>)
      modifies this
      ensures View() == OnRange(old(View()), candles)
    {
      if candles == [] {
        return;
      }
      var high, low := candles[0].high, candles[0].low;
      for i := 1 to |candles|
        invariant high == Highest(candles[..i]) && low == Lowest(candles[..i])
      {
        assert candles[..i + 1][..i] == candles[..i];
        high := MaxReal(high, candles[i].high);
        low := MinReal(low, candles[i].low);
      }
      assert candles[..|candles|] == candles;
      orbHigh, orbLow := Some(high), Some(low);
    }

    method HandleBar(candles: seq<Candle>, now: int)
      requires RangeSet(View())
      modifies this, broker
      ensures View() == OnBar(cfg, old(View()), candles, now)
    {
      if now >= cfg.squareOff {
        CloseAll();
        return;
      }
      if orbHigh.None? || |candles| < cfg.atrPeriod + 1 {
        return;
      }
      var last := candles[|candles| - 1];
      var vwap := ComputeVwap(candles);
      var atr := ComputeAtr(candles, cfg.atrPeriod);
      if position.None? {
        var longSignal := !(cfg.oneShot && longTaken) && last.close > orbHigh.value && Above(last.close, vwap);
        var shortSignal := !(cfg.oneShot && shortTaken) && last.close < orbLow.value && Below(last.close, vwap);
        if longSignal {
          Enter(Buy, last.close, atr);
          longTaken := true;
        } else if shortSignal {
          Enter(Sell, last.close, atr);
          shortTaken := true;
        }
      } else {
        ManagePosition(last.close);
      }
    }

    method Enter(side: Side, price: real, atr: real)
      modifies this, broker
      ensures View() == Entered(cfg, old(View()), side, price, atr)
    {
      var sl := if side.Buy? then price - atr * cfg.slMult else price + atr * cfg.slMult;
      var tp := if side.Buy? then price + atr * cfg.tpMult else price - atr * cfg.tpMult;
      var qty := cfg.qtyLots * cfg.lotSize;
      assert sl == StopPrice(cfg, side, price, atr) && tp == TargetPrice(cfg, side, price, atr) && qty == EntryQty(cfg);
      hide StopPrice, TargetPrice, EntryQty;
      broker.PlaceOrder(side, qty);
      position := Some(Position(side, price, sl, tp, qty));
    }

    method ManagePosition(price: real)
      requires position.Some?
      modifies this, broker
      ensures View() == if HitsExit(old(position).value, price) then Exited(old(View())) else old(View())
    {
      var p := position.value;
      var hitSl := (p.side.Buy? && price <= p.sl) || (p.side.Sell? && price >= p.sl);
      var hitTp := (p.side.Buy? && price >= p.tp) || (p.side.Sell? && price <= p.tp);
      if hitSl || hitTp {
        broker.PlaceOrder(p.side.Opposite(), p.qty);
        position := None;
      }
    }

    method CloseAll()
      modifies this, broker
      ensures View() == if old(position).Some? then Exited(old(View())) else old(View())
    {
      if position.Some? {
        var p := position.value;
        broker.PlaceOrder(p.side.Opposite(), p.qty);
        position := None;
      }
    }
  }

  // ---------- the order ledger ----------

  function NetQty(orders: seq<Order>): int {
    if orders == [] then 0
    else NetQty(orders[..|orders| - 1]) + orders[|orders| - 1].side.Sign() * orders[|orders| - 1].qty
  }

  function OpenQty(position: Option<Position>): int {
    if position.Some? then position.value.side.Sign() * position.value.qty else 0
  }

  /** Entries are the orders at even places. */
  function Entries(orders: seq<Order>, side: Side): nat {
    if orders == [] then 0
    else
      var last := |orders| - 1;
      Entries(orders[..last], side) + if last % 2 == 0 && orders[last].side == side then 1 else 0
  }

  /** Every second order undoes the one before it; an odd one out is the open position. */
  ghost predicate Alternates(orders: seq<Order>, position: Option<Position>) {
    && (forall i :: 0 <= i && 2 * i + 1 < |orders| ==>
          orders[2 * i + 1] == Order(orders[2 * i].side.Opposite(), orders[2 * i].qty))
    && (|orders| % 2 == 1 <==> position.Some?)
    && (position.Some? ==> orders[|orders| - 1] == Order(position.value.side, position.value.qty))
  }

  /** With one shot per direction, a taken flag is one entry on that side. */
  predicate Spent(d: Desk) {
    && Entries(d.orders, Buy) == (if d.longTaken then 1 else 0)
    && Entries(d.orders, Sell) == (if d.shortTaken then 1 else 0)
  }

  lemma EnterAlternates(orders: seq<Order>, p: Position)
    requires Alternates(orders, None)
    ensures Alternates(orders + [Order(p.side, p.qty)], Some(p))
  {
  }

  lemma EnterKeeps(cfg: Config, d: Desk, side: Side, price: real, atr: real)
    requires d.position.None? && Alternates(d.orders, d.position) && NetQty(d.orders) == 0
    ensures var e := Entered(cfg, d, side, price, atr);
            && Alternates(e.orders, e.position) && NetQty(e.orders) == OpenQty(e.position)
            && Entries(e.orders, side) == Entries(d.orders, side) + 1
            && Entries(e.orders, side.Opposite()) == Entries(d.orders, side.Opposite())
  {
    var e := Entered(cfg, d, side, price, atr);
    EnterAlternates(d.orders, e.position.value);
    assert |d.orders| % 2 == 0;
    hide Alternates;
    assert e.orders[..|e.orders| - 1] == d.orders;
  }

  lemma ExitKeeps(d: Desk)
    requires d.position.Some? && Alternates(d.orders, d.position) && NetQty(d.orders) == OpenQty(d.position)
    ensures var e := Exited(d);
            && Alternates(e.orders, e.position) && NetQty(e.orders) == 0
            && forall side :: Entries(e.orders, side) == Entries(d.orders, side)
  {
  }

  lemma StepKeepsLedger(cfg: Config, d: Desk, event: Event)
    requires RangeSet(d) && Alternates(d.orders, d.position) && NetQty(d.orders) == OpenQty(d.position)
    ensures var e := Step(cfg, d, event);
            && Alternates(e.orders, e.position) && NetQty(e.orders) == OpenQty(e.position)
            && (cfg.oneShot && Spent(d) ==> Spent(e))
  {
    hide Vwap, Atr, Alternates, NetQty, Entered, Exited;
    if event.Bar? {
      var Bar(candles, now) := event;
      if d.position.Some? {
        ExitKeeps(d);
        ExitFlags(d);
      } else if candles != [] {
        var close, atr := candles[|candles| - 1].close, Atr(candles, cfg.atrPeriod);
        EnterKeeps(cfg, d, Buy, close, atr);
        EnterKeeps(cfg, d, Sell, close, atr);
        EnterFlags(cfg, d, Buy, close, atr);
        EnterFlags(cfg, d, Sell, close, atr);
      }
    }
  }

  lemma ExitFlags(d: Desk)
    requires d.position.Some?
    ensures var e := Exited(d); e.longTaken == d.longTaken && e.shortTaken == d.shortTaken && e.position.None?
  {
  }

  lemma EnterFlags(cfg: Config, d: Desk, side: Side, price: real, atr: real)
    ensures var e := Entered(cfg, d, side, price, atr); e.longTaken == d.longTaken && e.shortTaken == d.shortTaken
  {
  }

  /**
    After any events: the quantities sent net to the open position, and entries and exits alternate.
    With one shot per direction the whole life of the object sees at most one entry on each side,
    so at most four orders.
   */
  lemma {:induction false} OrderLedger(cfg: Config, events: seq<Event>)
    ensures var d := Run(cfg, events);
            && Alternates(d.orders, d.position) && NetQty(d.orders) == OpenQty(d.position)
            && (cfg.oneShot ==> Spent(d) && |d.orders| <= 4)
  {
    hide Alternates, NetQty, Step;
    if events == [] {
      FreshLedger();
    } else {
      OrderLedger(cfg, events[..|events| - 1]);
      StepKeepsLedger(cfg, Run(cfg, events[..|events| - 1]), events[|events| - 1]);
    }
    EntriesCount(Run(cfg, events).orders);
  }

  lemma FreshLedger()
    ensures Alternates(FRESH.orders, FRESH.position) && NetQty(FRESH.orders) == OpenQty(FRESH.position) && Spent(FRESH)
  {
  }

  lemma {:induction false} EntriesCount(orders: seq<Order>)
    ensures Entries(orders, Buy) + Entries(orders, Sell) == (|orders| + 1) / 2
  {
    if orders != [] {
      EntriesCount(orders[..|orders| - 1]);
    }
  }

  /** Flat after every bar at or past the square-off time. */
  lemma FlatAfterSquareOff(cfg: Config, events: seq<Event>, candles: seq<Candle>, now: int)
    requires now >= cfg.squareOff
    ensures Run(cfg, events + [Bar(candles, now)]).position.None?
    ensures |Run(cfg, events + [Bar(candles, now)]).orders| % 2 == 0
  {
    var all := events + [Bar(candles, now)];
    assert all[..|all| - 1] == events;
    OrderLedger(cfg, all);
  }

  lemma {:induction false} LowestBelowHighest(candles: seq<Candle>)
    requires candles != [] && forall c <- candles :: ValidCandle(c)
    ensures Lowest(candles) <= Highest(candles)
  {
    assert candles[|candles| - 1] in candles;
    if |candles| > 1 {
      assert forall c <- candles[..|candles| - 1] :: c in candles;
      LowestBelowHighest(candles[..|candles| - 1]);
    }
  }

  predicate ValidEvent(e: Event) {
    forall c <- e.candles :: ValidCandle(c)
  }

  /** The bounds of the range are ordered, so a bar never signals both ways. */
  lemma {:induction false} SignalsExclude(cfg: Config, events: seq<Event>, close: real, vwap: Option<real>)
    requires forall e <- events :: ValidEvent(e)
    ensures var d := Run(cfg, events);
            d.orbHigh.Some? ==>
              && d.orbLow.value <= d.orbHigh.value
              && !(LongSignal(cfg, d, close, vwap) && ShortSignal(cfg, d, close, vwap))
  {
    hide Vwap, Atr;
    if events != [] {
      var last := events[|events| - 1];
      assert forall e <- events[..|events| - 1] :: e in events;
      SignalsExclude(cfg, events[..|events| - 1], close, vwap);
      assert last in events;
      if last.candles != [] {
        LowestBelowHighest(last.candles);
      }
    }
  }

  predicate Bracketed(p: Position) {
    if p.side.Buy? then p.sl <= p.entry <= p.tp else p.tp <= p.entry <= p.sl
  }

  lemma EntryIsBracketed(cfg: Config, d: Desk, side: Side, price: real, atr: real)
    requires cfg.slMult >= 0.0 && cfg.tpMult >= 0.0 && atr >= 0.0
    ensures Bracketed(Entered(cfg, d, side, price, atr).position.value)
  {
    MulMono(0.0, cfg.slMult, atr);
    MulMono(0.0, cfg.tpMult, atr);
  }

  lemma AtrNotNegative(candles: seq<Candle>, period: nat)
    requires forall c <- candles :: ValidCandle(c)
    ensures Atr(candles, period) >= 0.0
  {
    hide Sum, TrueRange;
    var window := AtrWindow(candles, period);
    RangesCount(candles);
    if window != [] {
      assert forall x <- window :: x in TrueRanges(candles);
      var hi := UpperBound(window);
      AtrInsideWindow(candles, period, 0.0, hi);
    }
  }

  lemma {:induction false} UpperBound(xs: seq<real>) returns (hi: real)
    ensures forall x <- xs :: x <= hi
  {
    if xs == [] {
      hi := 0.0;
    } else {
      var rest := UpperBound(xs[..|xs| - 1]);
      hi := MaxReal(rest, xs[|xs| - 1]);
      assert forall x :: x in xs <==> x in xs[..|xs| - 1] || x == xs[|xs| - 1];
    }
  }

  /** Over the object's life the open position always has its stop behind its entry and its target ahead of it. */
  lemma {:induction false} PositionIsBracketed(cfg: Config, events: seq<Event>)
    requires cfg.slMult >= 0.0 && cfg.tpMult >= 0.0 && forall e <- events :: ValidEvent(e)
    ensures Run(cfg, events).position.Some? ==> Bracketed(Run(cfg, events).position.value)
  {
    hide Vwap, Atr, Bracketed, LongSignal, ShortSignal, HitsExit;
    if events != [] {
      var last := events[|events| - 1];
      var d := Run(cfg, events[..|events| - 1]);
      assert forall e <- events[..|events| - 1] :: e in events;
      PositionIsBracketed(cfg, events[..|events| - 1]);
      assert last in events;
      if last.candles != [] {
        var close, atr := last.candles[|last.candles| - 1].close, Atr(last.candles, cfg.atrPeriod);
        AtrNotNegative(last.candles, cfg.atrPeriod);
        EntryIsBracketed(cfg, d, Buy, close, atr);
        EntryIsBracketed(cfg, d, Sell, close, atr);
      }
    }
  }

  /** A managed position leaves exactly when the close is no longer strictly between its stop and its target. */
  lemma LeavesBracketIff(p: Position, close: real)
    ensures HitsExit(p, close) <==> !(if p.side.Buy? then p.sl < close < p.tp else p.tp < close < p.sl)
  {
  }
}
