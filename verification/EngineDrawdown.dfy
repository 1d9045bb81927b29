/** The running-maximum drawdown of `summarize` against the worst fall over all pairs of points. */
module EngineDrawdown {
  import opened Wrappers
  import opened Numbers
  import opened Engine

  lemma {:induction false} RunningMaxIsPeak(e: seq<real>, j: nat) returns (peak: nat)
    requires j < |e|
    ensures peak <= j && e[peak] == RunningMax(e, j)
    ensures forall i :: 0 <= i <= j ==> e[i] <= RunningMax(e, j)
  {
    if j == 0 || e[j] > RunningMax(e, j - 1) {
      peak := j;
      if j > 0 {
        var _ := RunningMaxIsPeak(e, j - 1);
      }
    } else {
      peak := RunningMaxIsPeak(e, j - 1);
    }
  }

  lemma FallOrder(peak: real, other: real, value: real)
    requires peak >= other > 0.0
    ensures value >= 0.0 ==> Fall(peak, value) <= Fall(other, value)
    ensures value < 0.0 ==> (Fall(peak, value) <= Fall(other, value) <==> peak == other)
  {
    var fall := (value - peak) / peak;
    var slack := value - other - fall * other;
    QuotientAtLeast(value - other, other, fall);
    assert slack * peak == value * (peak - other) by {
      assert fall * peak == value - peak;
      assert slack * peak == (value - other) * peak - (fall * peak) * other;
    }
    ProductSign(slack, peak);
    if peak > other {
      ProductSign(value, peak - other);
    }
  }

  lemma ProductSign(a: real, b: real)
    requires b > 0.0
    ensures a * b >= 0.0 <==> a >= 0.0
  {
  }

  lemma FallSign(peak: real, value: real)
    requires peak > 0.0
    ensures Fall(peak, value) >= 0.0 <==> value >= peak
    ensures Fall(peak, value) <= 0.0 <==> value <= peak
  {
    QuotientAtLeast(value - peak, peak, 0.0);
    QuotientAtLeast(peak - value, peak, 0.0);
    assert (peak - value) / peak == -((value - peak) / peak);
  }

  /** The drawdown is the least fall from a running maximum. */
  lemma {:induction false} DrawdownIsLeast(e: seq<real>, n: nat) returns (at: nat)
    requires 0 < n <= |e| && e[0] > 0.0
    ensures at < n && MaxDrawdown(e, n) == Fall(RunningMax(e, at), e[at])
    ensures forall j :: 0 <= j < n ==> MaxDrawdown(e, n) <= Fall(RunningMax(e, j), e[j])
  {
    at := n - 1;
    if n > 1 {
      var before := DrawdownIsLeast(e, n - 1);
      if MaxDrawdown(e, n - 1) <= Fall(RunningMax(e, n - 1), e[n - 1]) {
        at := before;
      }
    }
  }

  /** The fall the engine measures into point `j` is the worst of all falls into it from an earlier positive point. */
  ghost predicate WorstInto(e: seq<real>, j: nat)
    requires j < |e| && e[0] > 0.0
  {
    forall i :: 0 <= i <= j && e[i] > 0.0 ==> Fall(RunningMax(e, j), e[j]) <= Fall(e[i], e[j])
  }

  /**
    Exactly when that holds: the point is not negative, or every positive point up to it is the
    peak. An account driven below zero from a lower point than its peak falls further in relative
    terms than the peak shows.
   */
  lemma WorstIntoIff(e: seq<real>, j: nat)
    requires j < |e| && e[0] > 0.0
    ensures WorstInto(e, j) <==> (e[j] >= 0.0 || forall i :: 0 <= i <= j && e[i] > 0.0 ==> e[i] == RunningMax(e, j))
  {
    hide Fall;
    var _ := RunningMaxIsPeak(e, j);
    forall i | 0 <= i <= j && e[i] > 0.0
      ensures e[j] >= 0.0 ==> Fall(RunningMax(e, j), e[j]) <= Fall(e[i], e[j])
      ensures e[j] < 0.0 ==> (Fall(RunningMax(e, j), e[j]) <= Fall(e[i], e[j]) <==> e[i] == RunningMax(e, j))
    {
      FallOrder(RunningMax(e, j), e[i], e[j]);
    }
  }

  /** Comparing two falls is comparing cross products. */
  lemma FallCross(a: real, x: real, b: real, y: real)
    requires a > 0.0 && b > 0.0
    ensures Fall(a, x) <= Fall(b, y) <==> x * b <= y * a
  {
    var f, g := (x - a) / a, (y - b) / b;
    assert x == f * a + a && y == g * b + b;
    CrossOrder(f, g, a, b);
    assert x * b == f * (a * b) + a * b && y * a == g * (a * b) + a * b;
  }

  lemma CrossOrder(f: real, g: real, a: real, b: real)
    requires a > 0.0 && b > 0.0
    ensures f <= g <==> f * (a * b) <= g * (a * b)
  {
    MulPositive(a, b);
    ProductSign(g - f, a * b);
    assert (g - f) * (a * b) == g * (a * b) - f * (a * b);
  }

  /** The reported drawdown is at most the fall between every two points, the earlier one positive. */
  ghost predicate WorstOfAll(e: seq<real>)
    requires e != [] && e[0] > 0.0
  {
    forall i, j :: 0 <= i <= j < |e| && e[i] > 0.0 ==> MaxDrawdown(e, |e|) <= Fall(e[i], e[j])
  }

  /**
    Point `k` is negative, the account never stood at a positive value other than its first before
    it, and no other negative point falls further from any earlier positive one.
   */
  ghost predicate DeepestFromStart(e: seq<real>, k: nat)
    requires e != []
  {
    && k < |e| && e[k] < 0.0
    && (forall i :: 0 <= i <= k && e[i] > 0.0 ==> e[i] == e[0])
    && forall i, j :: 0 <= i <= j < |e| && e[i] > 0.0 > e[j] ==> e[k] * e[i] <= e[j] * e[0]
  }

  /** The drawdown is the fall between two of the points. */
  lemma DrawdownIsSomeFall(e: seq<real>) returns (from: nat, to: nat)
    requires e != [] && e[0] > 0.0
    ensures from <= to < |e| && e[from] == RunningMax(e, to) && MaxDrawdown(e, |e|) == Fall(e[from], e[to])
  {
    hide Fall;
    to := DrawdownIsLeast(e, |e|);
    from := RunningMaxIsPeak(e, to);
  }

  /** Without negative points it is the worst. */
  lemma WorstWithoutLoss(e: seq<real>)
    requires e != [] && e[0] > 0.0 && forall k :: 0 <= k < |e| ==> e[k] >= 0.0
    ensures WorstOfAll(e)
  {
    hide Fall;
    var _ := DrawdownIsLeast(e, |e|);
    forall i, j | 0 <= i <= j < |e| && e[i] > 0.0
      ensures MaxDrawdown(e, |e|) <= Fall(e[i], e[j])
    {
      WorstIntoIff(e, j);
    }
  }

  /** No pair falls further than the deepest point from the first value. */
  lemma DeepestPair(e: seq<real>, k: nat, i: nat, j: nat)
    requires e != [] && e[0] > 0.0 && DeepestFromStart(e, k) && i <= j < |e| && e[i] > 0.0
    ensures Fall(e[0], e[k]) <= Fall(e[i], e[j])
  {
    hide Fall;
    if e[j] < 0.0 {
      FallCross(e[0], e[k], e[i], e[j]);
    } else {
      BelowMinusOne(e[0], e[k]);
      BelowMinusOne(e[i], e[j]);
    }
  }

  /** With a deepest negative point that fell from the first value it is the worst. */
  lemma WorstFromStart(e: seq<real>, k: nat)
    requires e != [] && e[0] > 0.0 && DeepestFromStart(e, k)
    ensures WorstOfAll(e)
  {
    var _ := DrawdownIsLeast(e, |e|);
    var peak := RunningMaxIsPeak(e, k);
    assert RunningMax(e, k) == e[0];
    assert MaxDrawdown(e, |e|) <= Fall(e[0], e[k]);
    hide Fall, MaxDrawdown, RunningMax, DeepestFromStart;
    forall i, j | 0 <= i <= j < |e| && e[i] > 0.0
      ensures Fall(e[0], e[k]) <= Fall(e[i], e[j])
    {
      DeepestPair(e, k, i, j);
    }
  }

  /** When it is the worst and the account went negative, it is taken at a deepest point fallen from the first value. */
  lemma WorstMeansDeepest(e: seq<real>) returns (k: nat)
    requires e != [] && e[0] > 0.0 && WorstOfAll(e) && exists j :: 0 <= j < |e| && e[j] < 0.0
    ensures DeepestFromStart(e, k)
  {
    hide Fall;
    var from;
    from, k := DrawdownIsSomeFall(e);
    DrawdownBelowMinusOne(e);
    BelowMinusOne(e[from], e[k]);
    WorstIntoIff(e, k);
    assert WorstInto(e, k);
    assert e[0] == e[from];
    forall i, j | 0 <= i <= j < |e| && e[i] > 0.0 > e[j]
      ensures e[k] * e[i] <= e[j] * e[0]
    {
      FallCross(e[0], e[k], e[i], e[j]);
    }
  }

  /**
    For the whole curve: the reported drawdown is the worst fall over all pairs of earlier and later
    points exactly when the account never went negative, or fell deepest straight from its first value.
   */
  lemma DrawdownIsWorstFallIff(e: seq<real>)
    requires e != [] && e[0] > 0.0
    ensures WorstOfAll(e) <==> (forall k :: 0 <= k < |e| ==> e[k] >= 0.0) || exists k :: DeepestFromStart(e, k)
  {
    hide Fall, MaxDrawdown;
    if forall k :: 0 <= k < |e| ==> e[k] >= 0.0 {
      WorstWithoutLoss(e);
    } else if exists k :: DeepestFromStart(e, k) {
      var k :| DeepestFromStart(e, k);
      WorstFromStart(e, k);
    } else if WorstOfAll(e) {
      var k := WorstMeansDeepest(e);
    }
  }

  ghost predicate NeverFalls(e: seq<real>) {
    forall i, j :: 0 <= i < j < |e| ==> e[i] <= e[j]
  }

  /** The drawdown is never positive, and it is zero exactly when equity never falls. */
  lemma DrawdownZeroIffNeverFalls(e: seq<real>)
    requires e != [] && e[0] > 0.0
    ensures MaxDrawdown(e, |e|) <= 0.0
    ensures MaxDrawdown(e, |e|) == 0.0 <==> NeverFalls(e)
  {
    hide Fall;
    var at := DrawdownIsLeast(e, |e|);
    forall j | 0 <= j < |e|
      ensures Fall(RunningMax(e, j), e[j]) <= 0.0
      ensures Fall(RunningMax(e, j), e[j]) == 0.0 <==> forall i :: 0 <= i < j ==> e[i] <= e[j]
    {
      var peak := RunningMaxIsPeak(e, j);
      FallSign(RunningMax(e, j), e[j]);
    }
  }

  /** The drawdown falls below -100 % exactly when the account goes negative. */
  lemma DrawdownBelowMinusOne(e: seq<real>)
    requires e != [] && e[0] > 0.0
    ensures MaxDrawdown(e, |e|) < -1.0 <==> exists j :: 0 <= j < |e| && e[j] < 0.0
  {
    hide Fall;
    var at := DrawdownIsLeast(e, |e|);
    forall j | 0 <= j < |e|
      ensures Fall(RunningMax(e, j), e[j]) < -1.0 <==> e[j] < 0.0
    {
      BelowMinusOne(RunningMax(e, j), e[j]);
    }
  }

  lemma BelowMinusOne(peak: real, value: real)
    requires peak > 0.0
    ensures Fall(peak, value) < -1.0 <==> value < 0.0
  {
    QuotientAtLeast(value - peak, peak, -1.0);
  }

  // ---------- the number the summary reports ----------

  /** The drawdown the summary reports, in percent. */
  function Reported(trades: seq<Trade>, e: seq<real>, risk: RiskConfig): real
    requires e != [] && e[0] > 0.0
  {
    Summarize(trades, e, risk).maxDrawdownPct
  }

  /** It is at most the fall between every two points, the earlier one positive. */
  ghost predicate ReportsWorst(trades: seq<Trade>, e: seq<real>, risk: RiskConfig)
    requires e != [] && e[0] > 0.0
  {
    forall i, j :: 0 <= i <= j < |e| && e[i] > 0.0 ==> Reported(trades, e, risk) <= Fall(e[i], e[j]) * 100.0
  }

  /** With an empty ledger it is 0, otherwise the measured one. */
  lemma ReportedIs(trades: seq<Trade>, e: seq<real>, risk: RiskConfig)
    requires e != [] && e[0] > 0.0
    ensures Reported(trades, e, risk) == if trades == [] then 0.0 else MaxDrawdown(e, |e|) * 100.0
  {
  }

  /**
    The reported drawdown is the worst fall over all pairs of points exactly when: with an empty
    ledger, equity never falls at all, as when a position is still open at the last bar; otherwise,
    the account never went negative, or fell deepest straight from its first value.
   */
  lemma ReportedDrawdownIff(trades: seq<Trade>, e: seq<real>, risk: RiskConfig)
    requires e != [] && e[0] > 0.0
    ensures ReportsWorst(trades, e, risk)
       <==> if trades == [] then NeverFalls(e)
            else (forall k :: 0 <= k < |e| ==> e[k] >= 0.0) || exists k :: DeepestFromStart(e, k)
  {
    hide Reported, Fall, MaxDrawdown, DeepestFromStart;
    ReportedIs(trades, e, risk);
    if trades == [] {
      NothingReported(trades, e, risk);
    } else {
      DrawdownIsWorstFallIff(e);
      assert ReportsWorst(trades, e, risk) <==> WorstOfAll(e);
    }
  }

  lemma NothingReported(trades: seq<Trade>, e: seq<real>, risk: RiskConfig)
    requires e != [] && e[0] > 0.0 && Reported(trades, e, risk) == 0.0
    ensures ReportsWorst(trades, e, risk) <==> NeverFalls(e)
  {
    hide Reported, Fall;
    forall i, j | 0 <= i <= j < |e| && e[i] > 0.0
      ensures 0.0 <= Fall(e[i], e[j]) * 100.0 <==> e[i] <= e[j]
    {
      FallSign(e[i], e[j]);
    }
    if ReportsWorst(trades, e, risk) {
      forall i, j | 0 <= i < j < |e|
        ensures e[i] <= e[j]
      {
        assert Reported(trades, e, risk) <= Fall(e[0], e[i]) * 100.0;
        assert Reported(trades, e, risk) <= Fall(e[i], e[j]) * 100.0;
      }
    }
  }

  /** It is never positive, and zero exactly when the ledger is empty or equity never falls. */
  lemma ReportedZeroIff(trades: seq<Trade>, e: seq<real>, risk: RiskConfig)
    requires e != [] && e[0] > 0.0
    ensures Reported(trades, e, risk) <= 0.0
    ensures Reported(trades, e, risk) == 0.0 <==> trades == [] || NeverFalls(e)
  {
    hide Reported, MaxDrawdown;
    ReportedIs(trades, e, risk);
    DrawdownZeroIffNeverFalls(e);
  }

  /** It is below -100 exactly when the account went negative and some row was written. */
  lemma ReportedBelowIff(trades: seq<Trade>, e: seq<real>, risk: RiskConfig)
    requires e != [] && e[0] > 0.0
    ensures Reported(trades, e, risk) < -100.0 <==> trades != [] && exists j :: 0 <= j < |e| && e[j] < 0.0
  {
    hide Reported, MaxDrawdown;
    ReportedIs(trades, e, risk);
    DrawdownBelowMinusOne(e);
  }

  // ---------- runs on which it is not the worst fall ----------

  /** Settings and a strategy that put the whole account into one long position on the first bar. */
  const RECKLESS: RiskConfig :=
    RiskFields(200.0, 0.0, 1.0, 100.0, false, 1.0, 0.0, false, 1.0, 0.0, false, 1.0, 0.0, false, 0.0, 0, 24)

  const ALL_IN: Strategy<int> :=
    Strategy(0, s => s, (i, bars, s, spread) => (s, if i == 2 then Some(Signal(Long, 0.0, 1000.0)) else None))

  function FlatBar(ts: int, price: real): Bar {
    Bar(ts, price, price, price, 0.0, [])
  }

  /** Bars at 100 but for the last two. */
  function AllIn(price: real, last: real): Backtest<int> {
    Backtest(RECKLESS, ALL_IN,
             seq(MIN_BARS, i requires 0 <= i < MIN_BARS =>
               FlatBar(i, if i == 48 then price else if i == 49 then last else 100.0)))
  }

  const ALL_IN_POSITION := Position(Long, 100.0, 0.0, 1000.0, 200, 2, false)

  /** The state with that position open. */
  function Holding(equity: seq<real>): State<int> {
    State(0, 100.0, equity, [], Some(ALL_IN_POSITION), Some(0), 100.0, false)
  }

  /** One bar of that run with nothing open yet: the entry. */
  lemma AllInEnters(run: Backtest<int>)
    requires run.risk == RECKLESS && run.strategy == ALL_IN && |run.bars| > 2 && run.bars[2] == FlatBar(2, 100.0)
    ensures run.Step(2, run.Start()) == Holding([100.0])
  {
    var m := run.Managed(2, run.Start());
    assert m == State(0, 100.0, [], [], None, Some(0), 100.0, false);
    assert MarkAndCheck(RECKLESS, run.bars[2], m) == State(0, 100.0, [100.0], [], None, Some(0), 100.0, false);
    assert Round2(2.0) == 200;
    assert 100.0 * (200.0 / 100.0) / (100.0 * 1.0) == 2.0;
    assert Volume(RECKLESS, 100.0, 100.0) == 200;
  }

  /** A later bar that touches neither exit only marks the position. */
  lemma AllInHolds(run: Backtest<int>, i: nat, price: real, equity: seq<real>)
    requires run.risk == RECKLESS && i < |run.bars| && i < 86400
    requires run.bars[i] == FlatBar(i, price) && 0.0 < price < 1000.0
    ensures run.Step(i, Holding(equity)) == Holding(equity + [100.0 + (price - 100.0) * 2.0])
  {
    assert ManagePosition(RECKLESS, run.bars[i], ALL_IN_POSITION) == Some(ALL_IN_POSITION);
    assert ManageRows(RECKLESS, run.bars[i], ALL_IN_POSITION) == [];
    hide ManagePosition, ManageRows;
    assert Pnl(RECKLESS, Long, 100.0, price, 200) == (price - 100.0) * 2.0;
    assert run.Managed(i, Holding(equity)) == Holding(equity);
    hide Pnl, Backtest.Managed;
  }

  /** A bar at the stop price closes it for all there is and as much again. */
  lemma AllInStops(run: Backtest<int>, i: nat, equity: seq<real>)
    requires run.risk == RECKLESS && run.strategy == ALL_IN && 2 < i < |run.bars| && i < 86400
    requires run.bars[i] == FlatBar(i, 0.0)
    ensures var e := run.Step(i, Holding(equity)); e.trades != [] && e.equity == equity + [-100.0]
  {
    var p := ALL_IN_POSITION;
    assert Pnl(RECKLESS, Long, 100.0, 0.0, 200) == -200.0;
    hide Pnl;
    assert ManagePosition(RECKLESS, run.bars[i], p).None?;
    var rows := ManageRows(RECKLESS, run.bars[i], p);
    SumPnlOfOne(rows);
    assert |rows| == 1 && rows[0].pnl == -200.0;
    hide ManagePosition, ManageRows;
    var m := run.Managed(i, Holding(equity));
    assert m.balance == -100.0 && m.trades == rows && m.position.None? && m.equity == equity;
    run.StepEffects(i, Holding(equity));
  }

  function Hundreds(n: nat): seq<real> {
    seq(n, _ => 100.0)
  }

  lemma {:induction false} AllInWaits(price: real, last: real, k: nat)
    requires 3 <= k <= 48
    ensures AllIn(price, last).After(k) == Holding(Hundreds(k - 2))
  {
    hide Backtest.Step, Holding, ALL_IN, RECKLESS;
    var run := AllIn(price, last);
    if k == 3 {
      AllInEnters(run);
      assert Hundreds(1) == [100.0];
      assert run.After(3) == run.Step(2, run.Start());
    } else {
      AllInWaits(price, last, k - 1);
      AllInHolds(run, k - 1, 100.0, Hundreds(k - 3));
      assert Hundreds(k - 3) + [100.0] == Hundreds(k - 2);
    }
  }

  /** A curve that stays at its first value. */
  lemma {:induction false} LevelDrawdown(e: seq<real>, n: nat)
    requires 0 < n <= |e| && forall i :: 0 <= i < n ==> e[i] == 100.0
    ensures RunningMax(e, n - 1) == 100.0 && MaxDrawdown(e, n) == 0.0
  {
    if n > 1 {
      LevelDrawdown(e, n - 1);
    }
  }

  /**
    The engine does report less than the worst fall: here the account drops to 2 and is then stopped
    out at -100, which is reported as a drawdown of 200 % and is a fall of 5100 % from the 2.
   */
  lemma RunCanHideAFall() returns (run: Backtest<int>, s: State<int>)
    ensures |run.bars| >= MIN_BARS && s == run.After(|run.bars|)
    ensures s.trades != [] && |s.equity| == 48 && s.equity[0] == 100.0 && s.equity[46] == 2.0 && s.equity[47] == -100.0
    ensures Summarize(s.trades, s.equity, run.risk).maxDrawdownPct == -200.0
    ensures Fall(s.equity[46], s.equity[47]) * 100.0 == -5100.0
  {
    hide Backtest.Step, Holding;
    run := AllIn(51.0, 0.0);
    AllInWaits(51.0, 0.0, 48);
    AllInHolds(run, 48, 51.0, Hundreds(46));
    AllInStops(run, 49, Hundreds(46) + [2.0]);
    assert run.After(49) == Holding(Hundreds(46) + [2.0]);
    s := run.After(50);
    var e := s.equity;
    assert e == Hundreds(46) + [2.0] + [-100.0];
    ReportedIs(s.trades, e, run.risk);
    HiddenFall(e);
  }

  lemma HiddenFall(e: seq<real>)
    requires e == Hundreds(46) + [2.0] + [-100.0]
    ensures MaxDrawdown(e, |e|) == -2.0 && Fall(e[46], e[47]) == -51.0
  {
    LevelDrawdown(e, 46);
    assert RunningMax(e, 46) == RunningMax(e, 47) == 100.0;
    assert MaxDrawdown(e, 47) == -0.98;
  }

  /** And with a position still open at the end it reports no drawdown at all. */
  lemma RunCanReportNothing() returns (run: Backtest<int>, s: State<int>)
    ensures |run.bars| >= MIN_BARS && s == run.After(|run.bars|)
    ensures s.trades == [] && |s.equity| == 48 && s.equity[0] == 100.0 && s.equity[47] == 2.0
    ensures Summarize(s.trades, s.equity, run.risk).maxDrawdownPct == 0.0
    ensures Fall(s.equity[0], s.equity[47]) * 100.0 == -98.0
  {
    hide Backtest.Step;
    run := AllIn(100.0, 51.0);
    AllInWaits(100.0, 51.0, 48);
    AllInHolds(run, 48, 100.0, Hundreds(46));
    AllInHolds(run, 49, 51.0, Hundreds(46) + [100.0]);
    assert run.After(49) == Holding(Hundreds(46) + [100.0]);
    s := run.After(50);
    assert s == Holding(Hundreds(46) + [100.0] + [2.0]);
  }
}
