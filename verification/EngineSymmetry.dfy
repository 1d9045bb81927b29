/** Long and short are mirror images: turning every price upside down turns the run upside down. */
module EngineSymmetry {
  import opened Wrappers
  import opened Engine

  function MirrorDir(d: Direction): Direction {
    if d.Long? then Short else Long
  }

  /** Prices negated, high and low swapped; times and ATR kept; the strategy's own columns are whatever it needs. */
  function MirrorBar(b: Bar, indicators: seq<real>): Bar {
    Bar(b.ts, -b.low, -b.high, -b.close, b.atr, indicators)
  }

  function MirrorPosition(p: Position): Position {
    p.(dir := MirrorDir(p.dir), entry := -p.entry, sl := -p.sl, tp := -p.tp)
  }

  function MirrorOpen(p: Option<Position>): Option<Position> {
    match p case None => None case Some(q) => Some(MirrorPosition(q))
  }

  function MirrorTrade(t: Trade): Trade {
    t.(dir := MirrorDir(t.dir), entryPrice := -t.entryPrice, exitPrice := -t.exitPrice)
  }

  function MirrorTrades(ts: seq<Trade>): (r: seq<Trade>)
    ensures |r| == |ts| && forall i :: 0 <= i < |ts| ==> r[i] == MirrorTrade(ts[i])
  {
    seq(|ts|, i requires 0 <= i < |ts| => MirrorTrade(ts[i]))
  }

  /** Only positions and ledger rows are mirrored; money, equity, day and halt are untouched. */
  function MirrorState<S>(s: State<S>): State<S> {
    s.(trades := MirrorTrades(s.trades), position := MirrorOpen(s.position))
  }

  function MirrorSignal(s: Option<Signal>): Option<Signal> {
    match s case None => None case Some(g) => Some(Signal(MirrorDir(g.dir), -g.sl, -g.tp))
  }

  /** `y` is the run whose bars are `x`'s upside down and whose strategy answers each bar with `x`'s signal mirrored. */
  ghost predicate Mirrored<S(!new)>(x: Backtest<S>, y: Backtest<S>) {
    && x.risk == y.risk && |x.bars| == |y.bars|
    && (forall i :: 0 <= i < |x.bars| ==> y.bars[i] == MirrorBar(x.bars[i], y.bars[i].indicators))
    && x.strategy.init == y.strategy.init
    && (forall s :: y.strategy.reset(s) == x.strategy.reset(s))
    && (forall i: nat, s: S, spread: real :: i < |x.bars| ==>
          y.strategy.next(i, y.bars, s, spread)
          == (x.strategy.next(i, x.bars, s, spread).0, MirrorSignal(x.strategy.next(i, x.bars, s, spread).1)))
  }

  lemma MirrorPnl(risk: RiskConfig, dir: Direction, entry: real, exit: real, vol: int)
    ensures Pnl(risk, MirrorDir(dir), -entry, -exit, vol) == Pnl(risk, dir, entry, exit, vol)
  {
    assert (-exit - -entry) * MirrorDir(dir).Sign() == (exit - entry) * dir.Sign();
  }

  lemma MirrorProfit(bar: Bar, ind: seq<real>, p: Position)
    ensures ProfitAtr(MirrorBar(bar, ind), MirrorPosition(p)) == ProfitAtr(bar, p)
  {
    assert (-bar.close - -p.entry) * MirrorDir(p.dir).Sign() == (bar.close - p.entry) * p.dir.Sign();
  }

  lemma MirrorRatchet(risk: RiskConfig, bar: Bar, ind: seq<real>, p: Position)
    ensures RatchetedStop(risk, MirrorBar(bar, ind), MirrorPosition(p)) == -RatchetedStop(risk, bar, p)
  {
    hide ProfitAtr, BreakevenLevel, TrailLevel;
    MirrorProfit(bar, ind, p);
    MirrorLevels(risk, bar, ind, p);
  }

  lemma MirrorLevels(risk: RiskConfig, bar: Bar, ind: seq<real>, p: Position)
    ensures BreakevenLevel(risk, MirrorBar(bar, ind), MirrorPosition(p)) == -BreakevenLevel(risk, bar, p)
    ensures TrailLevel(risk, MirrorBar(bar, ind), MirrorPosition(p)) == -TrailLevel(risk, bar, p)
  {
    var sign := p.dir.Sign();
    assert MirrorDir(p.dir).Sign() == -sign;
    hide Direction.Sign;
    NegatedProduct(sign, risk.beLockAtr, bar.atr);
    NegatedProduct(sign, risk.trailAtrMult, bar.atr);
  }

  lemma NegatedProduct(a: real, b: real, c: real)
    ensures -a * b * c == -(a * b * c)
  {
    assert -a * b == -(a * b);
  }

  lemma MirrorManagePosition(risk: RiskConfig, bar: Bar, ind: seq<real>, p: Position)
    ensures ManagePosition(risk, MirrorBar(bar, ind), MirrorPosition(p)) == MirrorOpen(ManagePosition(risk, bar, p))
  {
    hide ProfitAtr, RatchetedStop, PartialVolume, Lots;
    MirrorProfit(bar, ind, p);
    MirrorRatchet(risk, bar, ind, p);
  }

  lemma MirrorRows(risk: RiskConfig, bar: Bar, ind: seq<real>, p: Position)
    ensures ManageRows(risk, MirrorBar(bar, ind), MirrorPosition(p)) == MirrorTrades(ManageRows(risk, bar, p))
    ensures SumPnl(MirrorTrades(ManageRows(risk, bar, p))) == SumPnl(ManageRows(risk, bar, p))
  {
    hide ProfitAtr, PartialVolume, Pnl;
    MirrorProfit(bar, ind, p);
    MirrorPnl(risk, p.dir, p.entry, p.sl, p.vol);
    MirrorPnl(risk, p.dir, p.entry, p.tp, p.vol);
    MirrorPnl(risk, p.dir, p.entry, bar.close, PartialVolume(risk, p.vol));
    SumPnlOfOne(ManageRows(risk, bar, p));
    SumPnlOfOne(MirrorTrades(ManageRows(risk, bar, p)));
  }

  lemma MirrorManaged<S>(risk: RiskConfig, bar: Bar, ind: seq<real>, s: State<S>)
    ensures Manage(risk, MirrorBar(bar, ind), MirrorState(s)) == MirrorState(Manage(risk, bar, s))
  {
    hide ManageRows, ManagePosition;
    if s.position.Some? {
      MirrorManagePosition(risk, bar, ind, s.position.value);
      MirrorRows(risk, bar, ind, s.position.value);
      var rows := ManageRows(risk, bar, s.position.value);
      assert MirrorTrades(s.trades + rows) == MirrorTrades(s.trades) + MirrorTrades(rows);
    }
  }

  lemma MirrorMark<S>(risk: RiskConfig, bar: Bar, ind: seq<real>, s: State<S>)
    ensures MarkAndCheck(risk, MirrorBar(bar, ind), MirrorState(s)) == MirrorState(MarkAndCheck(risk, bar, s))
  {
    hide Pnl, BreachesDailyLimit;
    if s.position.Some? {
      var p := s.position.value;
      MirrorPnl(risk, p.dir, p.entry, bar.close, p.vol);
    }
  }

  lemma MirrorEntry(risk: RiskConfig, bar: Bar, ind: seq<real>, balance: real, g: Signal)
    ensures Open(risk, MirrorBar(bar, ind), balance, MirrorSignal(Some(g)).value)
         == MirrorOpen(Open(risk, bar, balance, g))
  {
    hide Volume;
    assert EntryPrice(risk, MirrorBar(bar, ind), MirrorDir(g.dir)) == -EntryPrice(risk, bar, g.dir);
  }

  lemma MirrorEnter<S(!new)>(x: Backtest<S>, y: Backtest<S>, i: nat, s: State<S>)
    requires Mirrored(x, y) && i < |x.bars|
    ensures y.Enter(i, MirrorState(s)) == MirrorState(x.Enter(i, s))
  {
    hide Open, InSession, MirrorTrades;
    var signal := x.strategy.next(i, x.bars, s.strat, x.risk.spreadPrice).1;
    if signal.Some? {
      MirrorEntry(x.risk, x.bars[i], y.bars[i].indicators, s.balance, signal.value);
    }
  }

  lemma MirrorStep<S(!new)>(x: Backtest<S>, y: Backtest<S>, i: nat, s: State<S>)
    requires Mirrored(x, y) && i < |x.bars|
    ensures y.Step(i, MirrorState(s)) == MirrorState(x.Step(i, s))
  {
    hide Manage, MarkAndCheck, Backtest.Enter, MirrorTrades;
    var bar, ind, m := x.bars[i], y.bars[i].indicators, x.Managed(i, s);
    MirrorManaged(x.risk, bar, ind, RollDay(bar, s));
    MirrorMark(x.risk, bar, ind, m);
    MirrorEnter(x, y, i, MarkAndCheck(x.risk, bar, m));
  }

  /** The mirrored run has the same equity, balance, volumes, reasons and pnl, with prices and directions mirrored. */
  lemma {:induction false} MirrorRun<S(!new)>(x: Backtest<S>, y: Backtest<S>, k: nat)
    requires Mirrored(x, y) && (k <= 2 || k <= |x.bars|)
    ensures y.After(k) == MirrorState(x.After(k))
  {
    hide Backtest.Step;
    if k <= 2 {
      assert MirrorState(x.Start()) == y.Start();
    } else {
      MirrorRun(x, y, k - 1);
      MirrorStep(x, y, k - 1, x.After(k - 1));
    }
  }

  /** A filter that looks at profit and reason only does not see the mirror. */
  lemma {:induction false} MirrorFilter(ts: seq<Trade>, keep: Trade -> bool)
    requires forall t :: keep(MirrorTrade(t)) == keep(t)
    ensures Filter(MirrorTrades(ts), keep) == MirrorTrades(Filter(ts, keep))
  {
    if ts != [] {
      var front := ts[..|ts| - 1];
      MirrorFilter(front, keep);
      assert MirrorTrades(ts)[..|ts| - 1] == MirrorTrades(front);
    }
  }

  lemma {:induction false} MirrorSum(ts: seq<Trade>)
    ensures SumPnl(MirrorTrades(ts)) == SumPnl(ts)
  {
    if ts != [] {
      MirrorSum(ts[..|ts| - 1]);
      assert MirrorTrades(ts)[..|ts| - 1] == MirrorTrades(ts[..|ts| - 1]);
    }
  }

  lemma MirrorReport(ts: seq<Trade>, equity: seq<real>, risk: RiskConfig)
    requires equity == [] || equity[0] > 0.0
    ensures Summarize(MirrorTrades(ts), equity, risk) == Summarize(ts, equity, risk)
  {
    hide MaxDrawdown, Filter, SumPnl, MirrorTrade;
    MirrorKeeps(IS_CLOSE);
    MirrorKeeps(IS_WIN);
    MirrorKeeps(IS_LOSS);
    MirrorFilter(ts, IS_CLOSE);
    MirrorFilter(ts, IS_WIN);
    MirrorFilter(ts, IS_LOSS);
    MirrorFilter(Filter(ts, IS_CLOSE), IS_WIN);
    MirrorSum(ts);
    MirrorSum(Filter(ts, IS_WIN));
    MirrorSum(Filter(ts, IS_LOSS));
  }

  /** The mirrored run is reported with the very same summary. */
  lemma MirrorSummary<S(!new)>(x: Backtest<S>, y: Backtest<S>)
    requires Mirrored(x, y)
    ensures var a, b := x.After(|x.bars|), y.After(|y.bars|);
            && (a.equity != [] ==> a.equity[0] > 0.0) && b.equity == a.equity
            && Summarize(b.trades, b.equity, y.risk) == Summarize(a.trades, a.equity, x.risk)
  {
    hide Backtest.After, Summarize, MirrorTrades;
    MirrorRun(x, y, |x.bars|);
    if |x.bars| >= 2 {
      x.EquityStartsAtBalance(|x.bars|);
    } else {
      ShortRun(x);
    }
    var a := x.After(|x.bars|);
    MirrorReport(a.trades, a.equity, x.risk);
  }

  lemma MirrorKeeps(keep: Trade -> bool)
    requires keep in {IS_CLOSE, IS_WIN, IS_LOSS}
    ensures forall t :: keep(MirrorTrade(t)) == keep(t)
  {
  }

  lemma ShortRun<S>(x: Backtest<S>)
    requires |x.bars| < 2
    ensures x.After(|x.bars|).equity == []
  {
  }
}
