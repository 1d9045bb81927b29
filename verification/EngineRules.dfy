/**
  The rules of one bar in the terms of its data: prices, seconds, money and counts. What the
  engine computes through its helpers is tied here to what a reader of a chart would say.
 */
module EngineRules {
  import opened Wrappers
  import opened Numbers
  import opened Engine
  import opened EngineMoney

  /** The move from one price to another in the trade's favour. */
  function Gain(dir: Direction, from: real, to: real): real {
    match dir
    case Long => to - from
    case Short => from - to
  }

  /** `v` is the whole number nearest to `x`, the even one when there are two. */
  predicate RoundsTo(x: real, v: int) {
    -0.5 <= v as real - x <= 0.5 && (Abs(v as real - x) == 0.5 ==> v % 2 == 0)
  }

  lemma RoundsToOne(x: real, v: int, w: int)
    requires RoundsTo(x, v) && RoundsTo(x, w)
    ensures v == w
  {
  }

  /** That move as money: per unit, a hundredth of a lot being a hundredth of the contract size. */
  function Money(risk: RiskConfig, dir: Direction, from: real, to: real, vol: int): real {
    Gain(dir, from, to) * (vol as real / 100.0) * risk.contractSize
  }

  // ---------- exits ----------

  lemma PnlInPrices(risk: RiskConfig, dir: Direction, entry: real, exit: real, vol: int)
    ensures Pnl(risk, dir, entry, exit, vol) == Money(risk, dir, entry, exit, vol)
  {
    assert (exit - entry) * dir.Sign() == Gain(dir, entry, exit);
  }

  /** A bar keeps a position exactly when its whole range lies strictly between stop and target. */
  lemma KeptIffUntouched(risk: RiskConfig, bar: Bar, p: Position)
    ensures ManagePosition(risk, bar, p).Some?
       <==> match p.dir
            case Long => p.sl < bar.low && bar.high < p.tp
            case Short => p.tp < bar.low && bar.high < p.sl
  {
  }

  /** Otherwise it writes one row for all that is left: at the stop if the range reaches it, else at the target. */
  lemma ExitInPrices(risk: RiskConfig, bar: Bar, p: Position)
    requires ManagePosition(risk, bar, p).None?
    ensures var stopped := if p.dir.Long? then bar.low <= p.sl else bar.high >= p.sl;
            var exit := if stopped then p.sl else p.tp;
            ManageRows(risk, bar, p)
            == [Trade(p.entryTime, bar.ts, p.dir, p.entry, exit, p.vol, Money(risk, p.dir, p.entry, exit, p.vol),
                      if stopped then StopLoss else TakeProfit)]
  {
    hide Pnl, Money;
    PnlInPrices(risk, p.dir, p.entry, p.sl, p.vol);
    PnlInPrices(risk, p.dir, p.entry, p.tp, p.vol);
  }

  // ---------- a position that is kept ----------

  /** The close stands at least `t` ATRs in the trade's favour; without an ATR the move counts as none. */
  predicate Moved(bar: Bar, p: Position, t: real) {
    if bar.atr > 0.0 then Gain(p.dir, p.entry, bar.close) >= t * bar.atr else t <= 0.0
  }

  lemma ProfitInPrices(bar: Bar, p: Position, t: real)
    ensures ProfitAtr(bar, p) >= t <==> Moved(bar, p, t)
  {
    if bar.atr > 0.0 {
      assert (bar.close - p.entry) * p.dir.Sign() == Gain(p.dir, p.entry, bar.close);
      hide Direction.Sign;
      QuotientAtLeast((bar.close - p.entry) * p.dir.Sign(), bar.atr, t);
    }
  }

  /** The better of two stops. */
  function Better(dir: Direction, a: real, b: real): real {
    match dir
    case Long => MaxReal(a, b)
    case Short => MinReal(a, b)
  }

  /**
    The stop a kept position goes on with: the best of its old one, of so many ATRs beyond entry when
    the breakeven move is reached, and of so many ATRs behind the close when the trailing move is.
   */
  lemma StopInPrices(risk: RiskConfig, bar: Bar, p: Position)
    requires ManagePosition(risk, bar, p).Some?
    ensures var ahead, behind := risk.beLockAtr * bar.atr, risk.trailAtrMult * bar.atr;
            var lock := if p.dir.Long? then p.entry + ahead else p.entry - ahead;
            var trail := if p.dir.Long? then bar.close - behind else bar.close + behind;
            var locked :=
              if risk.useBreakeven && Moved(bar, p, risk.beTriggerAtr) then Better(p.dir, p.sl, lock) else p.sl;
            ManagePosition(risk, bar, p).value.sl
            == if risk.useTrailing && Moved(bar, p, risk.trailStartAtr) then Better(p.dir, locked, trail) else locked
  {
    hide ProfitAtr, Moved, HitStop, HitTarget, TakesPartial, PartialVolume;
    ProfitInPrices(bar, p, risk.beTriggerAtr);
    ProfitInPrices(bar, p, risk.trailStartAtr);
    LevelsInPrices(risk, bar, p);
    hide BreakevenLevel, TrailLevel;
  }

  lemma LevelsInPrices(risk: RiskConfig, bar: Bar, p: Position)
    ensures var ahead, behind := risk.beLockAtr * bar.atr, risk.trailAtrMult * bar.atr;
            && BreakevenLevel(risk, bar, p) == (if p.dir.Long? then p.entry + ahead else p.entry - ahead)
            && TrailLevel(risk, bar, p) == (if p.dir.Long? then bar.close - behind else bar.close + behind)
  {
    SignedProduct(p.dir, risk.beLockAtr, bar.atr);
    SignedProduct(p.dir, risk.trailAtrMult, bar.atr);
  }

  lemma SignedProduct(dir: Direction, a: real, b: real)
    ensures dir.Sign() * a * b == if dir.Long? then a * b else -(a * b)
  {
  }

  /** The part of the lots a partial close is meant to take. */
  function Share(risk: RiskConfig, vol: int): real {
    vol as real * risk.partialPct
  }

  /**
    A kept position is closed in part exactly when partial closes are on, none was taken yet, the move
    is reached and the share, rounded, is some of the lots and not all; the row is at the close.
   */
  lemma PartialInPrices(risk: RiskConfig, bar: Bar, p: Position)
    requires ManagePosition(risk, bar, p).Some?
    ensures var rows, kept := ManageRows(risk, bar, p), ManagePosition(risk, bar, p).value;
            var share := Share(risk, p.vol);
            var due := risk.usePartial && !p.partialDone && Moved(bar, p, risk.partialAtr);
            && (rows != [] <==> due && exists v :: RoundsTo(share, v) && 0 < v < p.vol)
            && (rows == [] ==> kept.vol == p.vol && kept.partialDone == p.partialDone)
            && (rows != [] ==>
                  var v := p.vol - kept.vol;
                  && RoundsTo(share, v) && kept.partialDone
                  && rows == [Trade(p.entryTime, bar.ts, p.dir, p.entry, bar.close, v,
                                    Money(risk, p.dir, p.entry, bar.close, v), Partial)])
  {
    hide ProfitAtr, Moved, HitStop, HitTarget, Pnl, Money, PartialVolume, RatchetedStop, RoundsTo, Share;
    var v, share := PartialVolume(risk, p.vol), Share(risk, p.vol);
    ProfitInPrices(bar, p, risk.partialAtr);
    PnlInPrices(risk, p.dir, p.entry, bar.close, v);
    ShareRounds(risk, p.vol);
    forall w | RoundsTo(share, w)
      ensures w == v
    {
      RoundsToOne(share, v, w);
    }
  }

  lemma ShareRounds(risk: RiskConfig, vol: int)
    ensures RoundsTo(Share(risk, vol), PartialVolume(risk, vol))
  {
    assert Lots(vol) * risk.partialPct * 100.0 == vol as real * risk.partialPct;
    hide Lots;
  }

  /** What an open position would make at the close, in prices. */
  lemma FloatingInPrices(risk: RiskConfig, bar: Bar, position: Option<Position>)
    ensures Floating(risk, bar, position)
         == match position
            case None => 0.0
            case Some(p) => Money(risk, p.dir, p.entry, bar.close, p.vol)
  {
    hide Pnl, Money;
    if position.Some? {
      var p := position.value;
      PnlInPrices(risk, p.dir, p.entry, bar.close, p.vol);
    }
  }

  // ---------- sizing ----------

  /** The volume is the lots that lose the risk money over the distance, to the nearest hundredth, at least 0.01. */
  lemma VolumeRounds(risk: RiskConfig, balance: real, distance: real)
    requires distance > 0.0
    ensures var lots := SizedLots(risk, balance, distance);
            && lots * (distance * risk.contractSize) == balance * (risk.riskPct / 100.0)
            && exists v :: RoundsTo(lots * 100.0, v) && Volume(risk, balance, distance) == MaxInt(1, v)
  {
    hide Round2, SizedLots;
    var v := Round2(SizedLots(risk, balance, distance));
    NearestHundredth(SizedLots(risk, balance, distance));
    assert Volume(risk, balance, distance) == MaxInt(1, v);
  }

  lemma NearestHundredth(x: real)
    ensures RoundsTo(x * 100.0, Round2(x))
  {
  }

  // ---------- days, hours and the session ----------

  /** Days change at midnight, hours on the hour. */
  lemma ClockOfBar(bar: Bar)
    ensures 0 <= bar.Hour() < 24
    ensures bar.Day() * 86400 + bar.Hour() * 3600 <= bar.ts < bar.Day() * 86400 + bar.Hour() * 3600 + 3600
  {
  }

  /** `second` of the day lies in the session from `start` up to `end` o'clock, over midnight when `end` is earlier. */
  predicate OpenAt(second: int, start: int, end: int) {
    if start <= end then start * 3600 <= second < end * 3600
    else second >= start * 3600 || second < end * 3600
  }

  lemma SessionInSeconds(bar: Bar, start: int, end: int)
    ensures InSession(bar.Hour(), start, end) <==> OpenAt(bar.ts % 86400, start, end)
  {
    var second, hour := bar.ts % 86400, bar.Hour();
    assert hour * 3600 <= second < hour * 3600 + 3600;
  }

  // ---------- entries ----------

  /** Half a spread above the close to buy, half below it to sell. */
  function Quote(risk: RiskConfig, bar: Bar, dir: Direction): real {
    if dir.Long? then bar.close + risk.spreadPrice / 2.0 else bar.close - risk.spreadPrice / 2.0
  }

  /** The strategy is asked on this bar. */
  ghost predicate Asked<S>(run: Backtest<S>, i: nat)
    requires 2 <= i < |run.bars|
  {
    && run.Managed(i, run.After(i)).position.None? && !run.After(i + 1).halted
    && OpenAt(run.bars[i].ts % 86400, run.risk.sessionStart, run.risk.sessionEnd)
  }

  /** The entry block on a state with nothing open. */
  lemma EnterRules<S>(run: Backtest<S>, i: nat, s: State<S>)
    requires i < |run.bars| && s.position.None?
    ensures var e, bar := run.Enter(i, s), run.bars[i];
            var asked := !s.halted && OpenAt(bar.ts % 86400, run.risk.sessionStart, run.risk.sessionEnd);
            var (next, signal) := run.strategy.next(i, run.bars, s.strat, run.risk.spreadPrice);
            && e.halted == s.halted && e.balance == s.balance
            && e.strat == (if asked then next else run.strategy.reset(s.strat))
            && (e.position.Some? <==>
                  asked && signal.Some? && Quote(run.risk, bar, signal.value.dir) != signal.value.sl)
            && (e.position.Some? ==>
                  var Signal(dir, sl, tp) := signal.value;
                  var entry := Quote(run.risk, bar, dir);
                  e.position.value
                  == Position(dir, entry, sl, tp, Volume(run.risk, s.balance, Abs(entry - sl)), bar.ts, false))
  {
    hide InSession, Volume, OpenAt, Open, Quote;
    SessionInSeconds(run.bars[i], run.risk.sessionStart, run.risk.sessionEnd);
    var signal := run.strategy.next(i, run.bars, s.strat, run.risk.spreadPrice).1;
    if signal.Some? {
      OpenInPrices(run.risk, run.bars[i], s.balance, signal.value);
    }
  }

  lemma OpenInPrices(risk: RiskConfig, bar: Bar, balance: real, signal: Signal)
    ensures var Signal(dir, sl, tp) := signal;
            var entry := Quote(risk, bar, dir);
            Open(risk, bar, balance, signal)
            == if entry == sl then None
               else Some(Position(dir, entry, sl, tp, Volume(risk, balance, Abs(entry - sl)), bar.ts, false))
  {
    hide Volume, EntryPrice, Quote;
    QuoteIs(risk, bar, signal.dir);
  }

  lemma QuoteIs(risk: RiskConfig, bar: Bar, dir: Direction)
    ensures EntryPrice(risk, bar, dir) == Quote(risk, bar, dir)
  {
  }

  lemma MarkedKeeps<S>(run: Backtest<S>, i: nat, s: State<S>)
    requires i < |run.bars|
    ensures var m := MarkAndCheck(run.risk, run.bars[i], run.Managed(i, s));
            m.strat == s.strat && m.position == run.Managed(i, s).position
  {
    hide ManageRows, ManagePosition, Floating, BreachesDailyLimit;
  }

  /**
    A bar enters exactly when nothing is open after its closes, the breaker is off, its time lies in
    the session, and the strategy gives a signal whose stop is not on the quote. The position is the
    signal's, at the quote, sized from the balance then.
   */
  lemma EntryIff<S>(run: Backtest<S>, i: nat)
    requires 2 <= i < |run.bars|
    ensures var e, bar := run.After(i + 1), run.bars[i];
            var signal := run.strategy.next(i, run.bars, run.After(i).strat, run.risk.spreadPrice).1;
            && (run.Opens(i) <==>
                  Asked(run, i) && signal.Some? && Quote(run.risk, bar, signal.value.dir) != signal.value.sl)
            && (run.Opens(i) ==>
                  var Signal(dir, sl, tp) := signal.value;
                  var entry := Quote(run.risk, bar, dir);
                  e.position.value
                  == Position(dir, entry, sl, tp, Volume(run.risk, e.balance, Abs(entry - sl)), bar.ts, false))
  {
    hide MarkAndCheck, Backtest.Enter, Backtest.Managed, OpenAt, Quote;
    var marked := MarkAndCheck(run.risk, run.bars[i], run.Managed(i, run.After(i)));
    assert run.After(i + 1) == run.Enter(i, marked);
    MarkedKeeps(run, i, run.After(i));
    if marked.position.None? {
      EnterRules(run, i, marked);
    } else {
      run.EnterKeepsOpen(i, marked);
    }
  }

  /** The strategy's state rests while a position is open, moves on when it is asked, and is reset otherwise. */
  lemma StrategySteps<S>(run: Backtest<S>, i: nat)
    requires 2 <= i < |run.bars|
    ensures var before, after := run.After(i).strat, run.After(i + 1).strat;
            after == if run.Managed(i, run.After(i)).position.Some? then before
                     else if Asked(run, i) then run.strategy.next(i, run.bars, before, run.risk.spreadPrice).0
                     else run.strategy.reset(before)
  {
    hide MarkAndCheck, Backtest.Enter, Backtest.Managed, OpenAt, Quote;
    var marked := MarkAndCheck(run.risk, run.bars[i], run.Managed(i, run.After(i)));
    assert run.After(i + 1) == run.Enter(i, marked);
    MarkedKeeps(run, i, run.After(i));
    if marked.position.None? {
      EnterRules(run, i, marked);
    } else {
      run.EnterKeepsOpen(i, marked);
    }
  }

  // ---------- the breaker ----------

  /** The breaker's test without its percentage, for every sign of the day's starting balance. */
  lemma BreachInMoney(risk: RiskConfig, balance: real, dayStart: real)
    ensures BreachesDailyLimit(risk, balance, dayStart)
       <==> var floor := dayStart - Abs(risk.dailyMaxLossPct) * dayStart / 100.0;
            && risk.useDailyLimit
            && if dayStart > 0.0 then balance <= floor
               else if dayStart < 0.0 then balance >= floor
               else risk.dailyMaxLossPct == 0.0
  {
    var limit := Abs(risk.dailyMaxLossPct) / 100.0;
    assert Abs(risk.dailyMaxLossPct) * dayStart / 100.0 == limit * dayStart;
    if dayStart > 0.0 {
      QuotientAtLeast(dayStart - balance, dayStart, limit);
      assert (dayStart - balance) / dayStart == -((balance - dayStart) / dayStart);
    } else if dayStart < 0.0 {
      QuotientAtLeast(balance - dayStart, -dayStart, limit);
      assert (balance - dayStart) / -dayStart == -((balance - dayStart) / dayStart);
    }
  }

  // ---------- the summary ----------

  /** The places of the rows with a property. */
  function Places(trades: seq<Trade>, has: Trade -> bool): set<int> {
    set i | 0 <= i < |trades| && has(trades[i])
  }

  function CountOf(trades: seq<Trade>, has: Trade -> bool): nat {
    |Places(trades, has)|
  }

  lemma PlacesGrow(trades: seq<Trade>, t: Trade, has: Trade -> bool)
    ensures |trades| !in Places(trades, has)
    ensures Places(trades + [t], has) == Places(trades, has) + if has(t) then {|trades|} else {}
  {
  }

  lemma {:induction false} FilterCount(trades: seq<Trade>, keep: Trade -> bool)
    ensures |Filter(trades, keep)| == CountOf(trades, keep)
  {
    if trades == [] {
      assert Places(trades, keep) == {};
    } else {
      hide Places;
      var front, last := trades[..|trades| - 1], trades[|trades| - 1];
      FilterCount(front, keep);
      PlacesGrow(front, last, keep);
      assert front + [last] == trades;
    }
  }

  lemma {:induction false} FilterTwice(trades: seq<Trade>, a: Trade -> bool, b: Trade -> bool, both: Trade -> bool)
    requires forall t :: both(t) <==> a(t) && b(t)
    ensures Filter(Filter(trades, a), b) == Filter(trades, both)
  {
    if trades != [] {
      var last := |trades| - 1;
      FilterTwice(trades[..last], a, b, both);
      var front := Filter(trades[..last], a);
      assert (front + [trades[last]])[..|front|] == front && front + [] == front;
    }
  }

  const ENDS := (t: Trade) => t.reason in {StopLoss, TakeProfit}
  const ENDS_IN_GAIN := (t: Trade) => t.reason in {StopLoss, TakeProfit} && t.pnl > 0.0

  /** The rows as money: gains and losses apart. */
  function Gained(trades: seq<Trade>): real {
    if trades == [] then 0.0 else Gained(trades[..|trades| - 1]) + MaxReal(trades[|trades| - 1].pnl, 0.0)
  }

  function Lost(trades: seq<Trade>): real {
    if trades == [] then 0.0 else Lost(trades[..|trades| - 1]) + MaxReal(-trades[|trades| - 1].pnl, 0.0)
  }

  lemma {:induction false} GainsAndLosses(trades: seq<Trade>)
    ensures SumPnl(Filter(trades, IS_WIN)) == Gained(trades) && -SumPnl(Filter(trades, IS_LOSS)) == Lost(trades)
    ensures SumPnl(trades) == Gained(trades) - Lost(trades)
    ensures Lost(trades) >= 0.0
  {
    if trades != [] {
      var last := |trades| - 1;
      GainsAndLosses(trades[..last]);
      SumPnlAppend(Filter(trades[..last], IS_WIN), if IS_WIN(trades[last]) then [trades[last]] else []);
      SumPnlAppend(Filter(trades[..last], IS_LOSS), if IS_LOSS(trades[last]) then [trades[last]] else []);
      SumPnlOfOne([trades[last]]);
    }
  }

  /** Every number of the summary but the drawdown, counted and summed from the rows. */
  lemma SummaryInCounts(trades: seq<Trade>, equity: seq<real>, risk: RiskConfig)
    requires equity == [] || equity[0] > 0.0
    ensures var s := Summarize(trades, equity, risk);
            var ended, gained := CountOf(trades, ENDS), CountOf(trades, ENDS_IN_GAIN);
            if trades == [] || equity == [] then s == Summary(0, 0, None, None, 0.0, 0.0, risk.startBalance)
            else
              && s.tradesTotal == |trades| && s.tradeCycles == ended
              && (s.winRatePct.None? <==> ended == 0)
              && (s.winRatePct.Some? ==> s.winRatePct.value * ended as real == 100.0 * gained as real)
              && (s.profitFactor.None? <==> Lost(trades) == 0.0)
              && (s.profitFactor.Some? ==> s.profitFactor.value * Lost(trades) == Gained(trades))
              && s.totalReturnPct * risk.startBalance == 100.0 * (Gained(trades) - Lost(trades))
              && s.finalBalance == risk.startBalance + Gained(trades) - Lost(trades)
  {
    hide SumPnl, Filter, MaxDrawdown, CountOf, Gained, Lost;
    if trades != [] && equity != [] {
      var closes := Filter(trades, IS_CLOSE);
      CountsOfFilters(trades);
      GainsAndLosses(trades);
      if closes != [] {
        PercentOf(|Filter(closes, IS_WIN)| as real, |closes| as real);
      }
      if Lost(trades) > 0.0 {
        QuotientTimesBack(Gained(trades), Lost(trades));
      }
      PercentOf(SumPnl(trades), risk.startBalance);
    }
  }

  lemma CountsOfFilters(trades: seq<Trade>)
    ensures |Filter(trades, IS_CLOSE)| == CountOf(trades, ENDS)
    ensures |Filter(Filter(trades, IS_CLOSE), IS_WIN)| == CountOf(trades, ENDS_IN_GAIN)
  {
    hide Filter, CountOf;
    FilterCount(trades, ENDS);
    FilterCount(trades, ENDS_IN_GAIN);
    FilterAlike(trades, IS_CLOSE, ENDS);
    FilterTwice(trades, IS_CLOSE, IS_WIN, ENDS_IN_GAIN);
  }

  lemma QuotientTimesBack(a: real, b: real)
    requires b > 0.0
    ensures a / b * b == a
  {
  }

  lemma {:induction false} FilterAlike(trades: seq<Trade>, a: Trade -> bool, b: Trade -> bool)
    requires forall t :: a(t) <==> b(t)
    ensures Filter(trades, a) == Filter(trades, b)
  {
    if trades != [] {
      FilterAlike(trades[..|trades| - 1], a, b);
    }
  }

  lemma PercentOf(part: real, whole: real)
    requires whole > 0.0
    ensures part / whole * 100.0 * whole == 100.0 * part
  {
    var q := part / whole;
    assert q * whole == part;
    assert q * 100.0 * whole == 100.0 * (q * whole);
  }
}
