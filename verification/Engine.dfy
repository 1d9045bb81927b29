/**
  The bar-by-bar broker simulation of `run_backtest`.

  A `Backtest` fixes the risk settings, the strategy and the bars; `After(k)` is
  the whole engine state once every bar with index below `k` has been processed.
  The first two bars only warm up the strategy, so the loop starts at index 2.
  Prices and money are reals; volumes are whole hundredths of a lot.
 */
module Engine {
  import opened Wrappers
  import opened Numbers

  datatype Direction = Long | Short {
    function Sign(): real {
      if Long? then 1.0 else -1.0
    }
  }

  datatype RiskFields = RiskFields(
    riskPct: real, spreadPrice: real, contractSize: real, startBalance: real,
    useBreakeven: bool, beTriggerAtr: real, beLockAtr: real,
    useTrailing: bool, trailStartAtr: real, trailAtrMult: real,
    usePartial: bool, partialAtr: real, partialPct: real,
    useDailyLimit: bool, dailyMaxLossPct: real,
    sessionStart: int, sessionEnd: int)

  const DEFAULT_RISK := RiskFields(
    1.0, 0.2, 100.0, 10000.0,
    true, 1.0, 0.1,
    true, 2.0, 3.0,
    true, 2.0, 0.5,
    true, 3.0,
    7, 19)

  /** Units per lot and the starting balance are positive; sizing and returns divide by them. */
  type RiskConfig = r: RiskFields | r.contractSize > 0.0 && r.startBalance > 0.0 witness DEFAULT_RISK

  /** One row of the indicator frame; `indicators` are the strategy's own columns. */
  datatype Bar = Bar(ts: int, high: real, low: real, close: real, atr: real, indicators: seq<real>) {
    /** Calendar day and hour of a naive timestamp in seconds. */
    function Day(): int { ts / 86400 }

    function Hour(): int { ts % 86400 / 3600 }
  }

  datatype Signal = Signal(dir: Direction, sl: real, tp: real)

  /** `next_signal` and `reset_state` update the strategy's own state, which the engine only carries. */
  datatype Strategy<!S> = Strategy(
    init: S,
    reset: S -> S,
    next: (nat, seq<Bar>, S, real) -> (S, Option<Signal>))

  datatype Position = Position(
    dir: Direction, entry: real, sl: real, tp: real, vol: int, entryTime: int, partialDone: bool)

  datatype Reason = StopLoss | TakeProfit | Partial

  datatype Trade = Trade(
    entryTime: int, exitTime: int, dir: Direction, entryPrice: real, exitPrice: real,
    vol: int, pnl: real, reason: Reason)

  datatype State<S> = State(
    strat: S, balance: real, equity: seq<real>, trades: seq<Trade>,
    position: Option<Position>, day: Option<int>, dayStart: real, halted: bool)

  predicate InSession(hour: int, start: int, end: int) {
    if start <= end then start <= hour < end else hour >= start || hour < end
  }

  function Lots(vol: int): real {
    vol as real / 100.0
  }

  function Pnl(risk: RiskConfig, dir: Direction, entry: real, exit: real, vol: int): real {
    (exit - entry) * dir.Sign() * Lots(vol) * risk.contractSize
  }

  // ---------- managing the open position ----------

  predicate HitStop(bar: Bar, p: Position) {
    if p.dir.Long? then bar.low <= p.sl else bar.high >= p.sl
  }

  predicate HitTarget(bar: Bar, p: Position) {
    if p.dir.Long? then bar.high >= p.tp else bar.low <= p.tp
  }

  /** Profit at the close in ATRs; 0 on a bar whose ATR is not positive. */
  function ProfitAtr(bar: Bar, p: Position): real {
    if bar.atr > 0.0 then (bar.close - p.entry) * p.dir.Sign() / bar.atr else 0.0
  }

  /** `a` protects the position better than `b`. */
  predicate Tighter(dir: Direction, a: real, b: real) {
    if dir.Long? then a > b else a < b
  }

  function BreakevenLevel(risk: RiskConfig, bar: Bar, p: Position): real {
    p.entry + p.dir.Sign() * risk.beLockAtr * bar.atr
  }

  function TrailLevel(risk: RiskConfig, bar: Bar, p: Position): real {
    bar.close - p.dir.Sign() * risk.trailAtrMult * bar.atr
  }

  function BreakevenStop(risk: RiskConfig, bar: Bar, p: Position): real {
    var be := BreakevenLevel(risk, bar, p);
    if risk.useBreakeven && ProfitAtr(bar, p) >= risk.beTriggerAtr && Tighter(p.dir, be, p.sl) then be else p.sl
  }

  function RatchetedStop(risk: RiskConfig, bar: Bar, p: Position): real {
    var sl, trail := BreakevenStop(risk, bar, p), TrailLevel(risk, bar, p);
    if risk.useTrailing && ProfitAtr(bar, p) >= risk.trailStartAtr && Tighter(p.dir, trail, sl) then trail else sl
  }

  function PartialVolume(risk: RiskConfig, vol: int): int {
    Round2(Lots(vol) * risk.partialPct)
  }

  predicate TakesPartial(risk: RiskConfig, bar: Bar, p: Position) {
    && risk.usePartial && !p.partialDone && ProfitAtr(bar, p) >= risk.partialAtr
    && 0 < PartialVolume(risk, p.vol) < p.vol
  }

  function CloseRow(risk: RiskConfig, bar: Bar, p: Position, exit: real, vol: int, reason: Reason): Trade {
    Trade(p.entryTime, bar.ts, p.dir, p.entry, exit, vol, Pnl(risk, p.dir, p.entry, exit, vol), reason)
  }

  /** The rows one bar writes for an open position. On an ambiguous bar the stop wins. */
  function ManageRows(risk: RiskConfig, bar: Bar, p: Position): seq<Trade> {
    if HitStop(bar, p) then [CloseRow(risk, bar, p, p.sl, p.vol, StopLoss)]
    else if HitTarget(bar, p) then [CloseRow(risk, bar, p, p.tp, p.vol, TakeProfit)]
    else if TakesPartial(risk, bar, p) then [CloseRow(risk, bar, p, bar.close, PartialVolume(risk, p.vol), Partial)]
    else []
  }

  function ManagePosition(risk: RiskConfig, bar: Bar, p: Position): Option<Position> {
    if HitStop(bar, p) || HitTarget(bar, p) then None
    else
      var held := p.(sl := RatchetedStop(risk, bar, p));
      Some(
        if TakesPartial(risk, bar, p) then held.(vol := p.vol - PartialVolume(risk, p.vol), partialDone := true)
        else held)
  }

  // ---------- one bar ----------

  function RollDay<S>(bar: Bar, s: State<S>): State<S> {
    if s.day == Some(bar.Day()) then s
    else s.(day := Some(bar.Day()), dayStart := s.balance, halted := false)
  }

  function SumPnl(trades: seq<Trade>): real {
    if trades == [] then 0.0 else SumPnl(trades[..|trades| - 1]) + trades[|trades| - 1].pnl
  }

  lemma SumPnlOfOne(rows: seq<Trade>)
    requires |rows| <= 1
    ensures SumPnl(rows) == if |rows| == 1 then rows[0].pnl else 0.0
  {
  }

  function Manage<S>(risk: RiskConfig, bar: Bar, s: State<S>): State<S> {
    match s.position
    case None => s
    case Some(p) =>
      var rows := ManageRows(risk, bar, p);
      s.(balance := s.balance + SumPnl(rows), trades := s.trades + rows, position := ManagePosition(risk, bar, p))
  }

  function Floating(risk: RiskConfig, bar: Bar, position: Option<Position>): real {
    match position
    case None => 0.0
    case Some(p) => Pnl(risk, p.dir, p.entry, bar.close, p.vol)
  }

  function DayResultPct(balance: real, dayStart: real): real {
    if dayStart != 0.0 then (balance - dayStart) / dayStart * 100.0 else 0.0
  }

  predicate BreachesDailyLimit(risk: RiskConfig, balance: real, dayStart: real) {
    risk.useDailyLimit && DayResultPct(balance, dayStart) <= -Abs(risk.dailyMaxLossPct)
  }

  function MarkAndCheck<S>(risk: RiskConfig, bar: Bar, s: State<S>): State<S> {
    s.(equity := s.equity + [s.balance + Floating(risk, bar, s.position)],
       halted := s.halted || BreachesDailyLimit(risk, s.balance, s.dayStart))
  }

  function EntryPrice(risk: RiskConfig, bar: Bar, dir: Direction): real {
    bar.close + risk.spreadPrice / 2.0 * dir.Sign()
  }

  /** Lots that lose the risk money over `distance`. */
  function SizedLots(risk: RiskConfig, balance: real, distance: real): (lots: real)
    requires distance > 0.0
    ensures lots * (distance * risk.contractSize) == balance * (risk.riskPct / 100.0)
  {
    MulPositive(distance, risk.contractSize);
    balance * (risk.riskPct / 100.0) / (distance * risk.contractSize)
  }

  /** These lots to the nearest hundredth, but never below the minimum lot. */
  function Volume(risk: RiskConfig, balance: real, distance: real): (vol: int)
    requires distance > 0.0
    ensures vol >= 1
    ensures vol > 1 ==>
              Abs(Lots(vol) * (distance * risk.contractSize) - balance * (risk.riskPct / 100.0))
              <= 0.005 * (distance * risk.contractSize)
  {
    var vol := Round2(SizedLots(risk, balance, distance));
    SizedWithin(risk, balance, distance, vol);
    MaxInt(1, vol)
  }

  lemma SizedWithin(risk: RiskConfig, balance: real, distance: real, vol: int)
    requires distance > 0.0 && vol == Round2(SizedLots(risk, balance, distance))
    ensures Abs(Lots(vol) * (distance * risk.contractSize) - balance * (risk.riskPct / 100.0))
         <= 0.005 * (distance * risk.contractSize)
  {
    hide SizedLots;
    MulPositive(distance, risk.contractSize);
    var money := balance * (risk.riskPct / 100.0);
    TimesClose(Lots(vol), SizedLots(risk, balance, distance), distance * risk.contractSize, money);
  }

  /** The position a signal opens; none when the stop sits exactly on the entry price. */
  function Open(risk: RiskConfig, bar: Bar, balance: real, signal: Signal): Option<Position> {
    var entry := EntryPrice(risk, bar, signal.dir);
    var distance := Abs(entry - signal.sl);
    if distance > 0.0 then
      Some(Position(signal.dir, entry, signal.sl, signal.tp, Volume(risk, balance, distance), bar.ts, false))
    else None
  }

  datatype Backtest<!S> = Backtest(risk: RiskConfig, strategy: Strategy<S>, bars: seq<Bar>) {
    function Enter(i: nat, s: State<S>): State<S>
      requires i < |bars|
    {
      if s.position.Some? then s
      else if s.halted || !InSession(bars[i].Hour(), risk.sessionStart, risk.sessionEnd) then
        s.(strat := strategy.reset(s.strat))
      else
        var (strat, signal) := strategy.next(i, bars, s.strat, risk.spreadPrice);
        match signal
        case None => s.(strat := strat)
        case Some(sig) => s.(strat := strat, position := Open(risk, bars[i], s.balance, sig))
    }

    /** The bar up to and including position management. */
    function Managed(i: nat, s: State<S>): State<S>
      requires i < |bars|
    {
      Manage(risk, bars[i], RollDay(bars[i], s))
    }

    function Step(i: nat, s: State<S>): State<S>
      requires i < |bars|
    {
      Enter(i, MarkAndCheck(risk, bars[i], Managed(i, s)))
    }

    function Start(): State<S> {
      State(strategy.init, risk.startBalance, [], [], None, None, risk.startBalance, false)
    }

    function After(k: nat): State<S>
      requires k <= 2 || k <= |bars|
    {
      if k <= 2 then Start() else Step(k - 1, After(k - 1))
    }

    /** The initial positions of all entries made on bars below `k`, oldest first. */
    function Openings(k: nat): seq<Position>
      requires k <= |bars|
    {
      if k <= 2 then []
      else Openings(k - 1) + if Opens(k - 1) then [After(k).position.value] else []
    }

    predicate Opens(i: nat)
      requires 2 <= i < |bars|
    {
      Managed(i, After(i)).position.None? && After(i + 1).position.Some?
    }

    lemma EnterKeepsOpen(i: nat, s: State<S>)
      requires i < |bars| && s.position.Some?
      ensures Enter(i, s) == s
    {
    }

    /** Entering a position changes neither money nor the records. */
    lemma StepEffects(i: nat, s: State<S>)
      requires i < |bars|
      ensures var e, marked := Step(i, s), MarkAndCheck(risk, bars[i], Managed(i, s));
              e == marked.(strat := e.strat, position := e.position)
      ensures Managed(i, s).position.Some? ==> Step(i, s).position == Managed(i, s).position
    {
      hide BreachesDailyLimit, Floating, Manage, Open;
    }

    /** One equity point per processed bar, and the first one is the untouched starting balance. */
    lemma {:induction false} EquityStartsAtBalance(k: nat)
      requires 2 <= k <= |bars|
      ensures |After(k).equity| == k - 2
      ensures k > 2 ==> After(k).equity[0] == risk.startBalance
    {
      hide Pnl, DayResultPct, ManagePosition, ManageRows, BreachesDailyLimit, Step;
      if k > 2 {
        EquityStartsAtBalance(k - 1);
        StepEffects(k - 1, After(k - 1));
      }
    }
  }

  // ---------- the loop itself ----------

  /** The management block of the loop body, on the variables it updates. */
  method ManageOpen(risk: RiskConfig, bar: Bar, p: Position, balance: real, trades: seq<Trade>)
    returns (balance': real, trades': seq<Trade>, position: Option<Position>)
    ensures balance' == balance + SumPnl(ManageRows(risk, bar, p))
    ensures trades' == trades + ManageRows(risk, bar, p)
    ensures position == ManagePosition(risk, bar, p)
  {
    hide Pnl, PartialVolume, ProfitAtr, HitStop, HitTarget, Tighter, Direction.Sign;
    SumPnlOfOne(ManageRows(risk, bar, p));
    balance', trades' := balance, trades;
    var hitSl := HitStop(bar, p);
    var hitTp := HitTarget(bar, p);
    if hitSl || hitTp {
      var exit := if hitSl then p.sl else p.tp;
      var pnl := Pnl(risk, p.dir, p.entry, exit, p.vol);
      balance' := balance + pnl;
      trades' := trades + [Trade(p.entryTime, bar.ts, p.dir, p.entry, exit, p.vol, pnl,
                                 if hitSl then StopLoss else TakeProfit)];
      position := None;
    } else {
      var profitAtr := ProfitAtr(bar, p);
      var sl, vol, partialDone := p.sl, p.vol, p.partialDone;
      if risk.useBreakeven && profitAtr >= risk.beTriggerAtr {
        var be := p.entry + p.dir.Sign() * risk.beLockAtr * bar.atr;
        assert be == BreakevenLevel(risk, bar, p);
        if Tighter(p.dir, be, sl) {
          sl := be;
        }
      }
      assert sl == BreakevenStop(risk, bar, p);
      if risk.useTrailing && profitAtr >= risk.trailStartAtr {
        var trail := bar.close - p.dir.Sign() * risk.trailAtrMult * bar.atr;
        assert trail == TrailLevel(risk, bar, p);
        if Tighter(p.dir, trail, sl) {
          sl := trail;
        }
      }
      if risk.usePartial && !partialDone && profitAtr >= risk.partialAtr {
        var closeVol := PartialVolume(risk, p.vol);
        if 0 < closeVol < p.vol {
          var pnl := Pnl(risk, p.dir, p.entry, bar.close, closeVol);
          balance' := balance + pnl;
          trades' := trades + [Trade(p.entryTime, bar.ts, p.dir, p.entry, bar.close, closeVol, pnl, Partial)];
          vol, partialDone := vol - closeVol, true;
        }
      }
      assert sl == RatchetedStop(risk, bar, p);
      position := Some(p.(sl := sl, vol := vol, partialDone := partialDone));
    }
  }

  /** The equity point and the breaker check of the loop body. */
  method MarkEquity<S>(risk: RiskConfig, bar: Bar, ghost s: State<S>, balance: real, equity: seq<real>,
                       position: Option<Position>, dayStart: real, halted: bool)
    returns (equity': seq<real>, halted': bool)
    requires s.balance == balance && s.equity == equity && s.position == position
    requires s.dayStart == dayStart && s.halted == halted
    ensures MarkAndCheck(risk, bar, s) == s.(equity := equity', halted := halted')
  {
    hide Floating, BreachesDailyLimit;
    equity', halted' := equity + [balance + Floating(risk, bar, position)], halted;
    if BreachesDailyLimit(risk, balance, dayStart) {
      halted' := true;
    }
  }

  /** The entry block of the loop body, reached only with no position open. */
  method SeekEntry<S>(run: Backtest<S>, i: nat, ghost s: State<S>, state: S, balance: real, halted: bool)
    returns (state': S, position: Option<Position>)
    requires i < |run.bars| && s.position.None?
    requires s.strat == state && s.balance == balance && s.halted == halted
    ensures run.Enter(i, s) == s.(strat := state', position := position)
  {
    var Backtest(risk, strategy, bars) := run;
    state', position := state, None;
    if halted || !InSession(bars[i].Hour(), risk.sessionStart, risk.sessionEnd) {
      state' := strategy.reset(state);
    } else {
      var (next, signal) := strategy.next(i, bars, state, risk.spreadPrice);
      state' := next;
      if signal.Some? {
        var sig := signal.value;
        var entry := EntryPrice(risk, bars[i], sig.dir);
        var distance := Abs(entry - sig.sl);
        if distance > 0.0 {
          var vol := Volume(risk, balance, distance);
          position := Some(Position(sig.dir, entry, sig.sl, sig.tp, vol, bars[i].ts, false));
        }
      }
    }
  }

  /** Fewer complete bars are refused. */
  const MIN_BARS := 50

  method RunBacktest<S>(bars: seq<Bar>, strategy: Strategy<S>, risk: RiskConfig)
    returns (trades: seq<Trade>, equity: seq<real>, summary: Option<Summary>)
    ensures |bars| < 50 ==> trades == [] && equity == [] && summary.None?
    ensures |bars| >= 50 ==>
              && trades == Backtest(risk, strategy, bars).After(|bars|).trades
              && equity == Backtest(risk, strategy, bars).After(|bars|).equity
              && equity != [] && equity[0] == risk.startBalance
              && summary == Some(Summarize(trades, equity, risk))
  {
    hide ManagePosition, ManageRows, MarkAndCheck, Backtest.Enter, Summarize, SumPnl;
    if |bars| < MIN_BARS {
      return [], [], None;
    }
    var run := Backtest(risk, strategy, bars);
    var state := strategy.init;
    var balance := risk.startBalance;
    equity, trades := [], [];
    var position: Option<Position> := None;
    var currentDay: Option<int>, dayStart, halted := None, balance, false;
    for i := 2 to |bars|
      invariant State(state, balance, equity, trades, position, currentDay, dayStart, halted) == run.After(i)
    {
      ghost var before := run.After(i);
      var bar := bars[i];
      if currentDay != Some(bar.Day()) {
        currentDay, dayStart, halted := Some(bar.Day()), balance, false;
      }
      ghost var rolled := RollDay(bar, before);
      if position.Some? {
        balance, trades, position := ManageOpen(risk, bar, position.value, balance, trades);
      }
      ghost var managed := Manage(risk, bar, rolled);
      assert State(state, balance, equity, trades, position, currentDay, dayStart, halted) == managed;

      equity, halted := MarkEquity(risk, bar, managed, balance, equity, position, dayStart, halted);
      ghost var marked := MarkAndCheck(risk, bar, managed);

      if position.None? {
        state, position := SeekEntry(run, i, marked, state, balance, halted);
      } else {
        run.EnterKeepsOpen(i, marked);
      }
    }
    run.EquityStartsAtBalance(|bars|);
    summary := Some(Summarize(trades, equity, risk));
  }

  // ---------- summarize ----------

  /** Ratios keep full precision; `None` is the source's NaN / None. */
  datatype Summary = Summary(
    tradesTotal: nat, tradeCycles: nat, winRatePct: Option<real>, profitFactor: Option<real>,
    totalReturnPct: real, maxDrawdownPct: real, finalBalance: real)

  function Filter(trades: seq<Trade>, keep: Trade -> bool): seq<Trade> {
    if trades == [] then []
    else Filter(trades[..|trades| - 1], keep) + if keep(trades[|trades| - 1]) then [trades[|trades| - 1]] else []
  }

  const IS_CLOSE := (t: Trade) => t.reason != Partial
  const IS_WIN := (t: Trade) => t.pnl > 0.0
  const IS_LOSS := (t: Trade) => t.pnl <= 0.0

  function ProfitFactor(trades: seq<Trade>): Option<real> {
    var grossWin, grossLoss := SumPnl(Filter(trades, IS_WIN)), -SumPnl(Filter(trades, IS_LOSS));
    if grossLoss > 0.0 then Some(grossWin / grossLoss) else None
  }

  /** `equity.cummax()` at `j`. */
  function RunningMax(equity: seq<real>, j: nat): (m: real)
    requires j < |equity|
    ensures m >= equity[0]
  {
    if j == 0 then equity[0] else MaxReal(RunningMax(equity, j - 1), equity[j])
  }

  /** Relative change from `peak` to `value`. */
  function Fall(peak: real, value: real): real
    requires peak > 0.0
  {
    (value - peak) / peak
  }

  /** The least of the first `n` points of `(equity - cummax) / cummax`. */
  function MaxDrawdown(equity: seq<real>, n: nat): real
    requires 0 < n <= |equity| && equity[0] > 0.0
  {
    var last := Fall(RunningMax(equity, n - 1), equity[n - 1]);
    if n == 1 then last else MinReal(MaxDrawdown(equity, n - 1), last)
  }

  function FinalBalance(trades: seq<Trade>, risk: RiskConfig): real {
    risk.startBalance + SumPnl(trades)
  }

  function Summarize(trades: seq<Trade>, equity: seq<real>, risk: RiskConfig): Summary
    requires equity == [] || equity[0] > 0.0
  {
    if trades == [] || equity == [] then Summary(0, 0, None, None, 0.0, 0.0, risk.startBalance)
    else
      var closes := Filter(trades, IS_CLOSE);
      var wins := |Filter(closes, IS_WIN)| as real;
      var final := FinalBalance(trades, risk);
      Summary(
        |trades|, |closes|,
        if closes == [] then None else Some(wins / |closes| as real * 100.0),
        ProfitFactor(trades),
        (final - risk.startBalance) / risk.startBalance * 100.0,
        MaxDrawdown(equity, |equity|) * 100.0,
        final)
  }
}
