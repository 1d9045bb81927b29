/** The daily loss breaker: nothing is entered after it trips, and it bounds the realised loss of a day. */
module EngineBreaker {
  import opened Wrappers
  import opened Numbers
  import opened Engine
  import opened EngineLedger
  import opened EngineStops

  /** The stop is on the losing side of the entry price and the target on the winning side. */
  predicate Geometric(o: Position) {
    if o.dir.Long? then o.sl < o.entry < o.tp else o.tp < o.entry < o.sl
  }

  /** Money lost if `vol` of the position opened as `o` is stopped out at its initial stop. */
  function RiskOf(risk: RiskConfig, o: Position, vol: int): real {
    Abs(o.entry - o.sl) * Lots(vol) * risk.contractSize
  }

  function InitialRisk(risk: RiskConfig, o: Position): real {
    RiskOf(risk, o, o.vol)
  }

  /** The balance at which the breaker trips. */
  function Floor(risk: RiskConfig, dayStart: real): real {
    dayStart - Abs(risk.dailyMaxLossPct) / 100.0 * dayStart
  }

  lemma BreakerIsFloor(risk: RiskConfig, balance: real, dayStart: real)
    requires risk.useDailyLimit && dayStart > 0.0
    ensures BreachesDailyLimit(risk, balance, dayStart) <==> balance <= Floor(risk, dayStart)
  {
    var limit := Abs(risk.dailyMaxLossPct) / 100.0;
    QuotientAtLeast(dayStart - balance, dayStart, limit);
    assert (dayStart - balance) / dayStart == -((balance - dayStart) / dayStart);
  }

  lemma FloorBelowStart(risk: RiskConfig, dayStart: real)
    requires risk.dailyMaxLossPct != 0.0 && dayStart > 0.0
    ensures Floor(risk, dayStart) < dayStart
  {
    MulPositive(Abs(risk.dailyMaxLossPct) / 100.0, dayStart);
  }

  /** `p` is a later stage of the geometrically opened `o`: smaller, and its stop no looser. */
  predicate StageOf(o: Position, p: Position) {
    && Geometric(o)
    && p == o.(sl := p.sl, vol := p.vol, partialDone := p.partialDone)
    && !Tighter(o.dir, o.sl, p.sl) && 1 <= p.vol <= o.vol
  }

  /** The most that the partial closes taken on the way from `o` to `p` can have lost. */
  function PartialLoss(risk: RiskConfig, o: Position, p: Position): real {
    if PartialsGain(risk) then 0.0 else RiskOf(risk, o, o.vol) - RiskOf(risk, o, p.vol)
  }

  lemma RiskGrows(risk: RiskConfig, o: Position, a: int, b: int)
    requires 0 <= a <= b
    ensures 0.0 <= RiskOf(risk, o, a) <= RiskOf(risk, o, b)
    ensures RiskOf(risk, o, a) + RiskOf(risk, o, b - a) == RiskOf(risk, o, b)
  {
    var distance, x, y := Abs(o.entry - o.sl), Lots(a), Lots(b);
    MulMono(0.0, x, distance);
    MulMono(x, y, distance);
    MulMono(0.0, distance * x, risk.contractSize);
    MulMono(distance * x, distance * y, risk.contractSize);
    assert Lots(b - a) == y - x;
    assert distance * (y - x) == distance * y - distance * x;
    assert (distance * y - distance * x) * risk.contractSize
        == distance * y * risk.contractSize - distance * x * risk.contractSize;
  }

  /** Closed at a price its stop has not been passed by, a position loses at most the risk of the lots closed. */
  lemma LossBound(risk: RiskConfig, o: Position, p: Position, exit: real, vol: int)
    requires StageOf(o, p) && !Tighter(p.dir, p.sl, exit) && vol >= 0
    ensures Pnl(risk, p.dir, p.entry, exit, vol) >= -RiskOf(risk, o, vol)
  {
    ScaledLoss((exit - p.entry) * p.dir.Sign(), Abs(o.entry - o.sl), Lots(vol), risk.contractSize);
  }

  lemma ScaledLoss(gain: real, distance: real, lots: real, size: real)
    requires gain >= -distance && 0.0 <= lots && size > 0.0
    ensures gain * lots * size >= -(distance * lots * size)
  {
    MulMono(-distance, gain, lots);
    var got, worst := gain * lots, distance * lots;
    assert got >= -worst;
    MulMono(-worst, got, size);
  }

  /**
    One managed bar: a position kept loses no more than the risk of the lots it closes, and nothing
    where partial closes are taken in profit; one closed loses at most the rest of its initial risk.
   */
  lemma ManageLossBound(risk: RiskConfig, bar: Bar, o: Position, p: Position)
    requires StageOf(o, p) && (PartialsGain(risk) || Ordered(bar))
    ensures match ManagePosition(risk, bar, p)
            case Some(q) =>
              SumPnl(ManageRows(risk, bar, p)) >= PartialLoss(risk, o, p) - PartialLoss(risk, o, q) && StageOf(o, q)
            case None => SumPnl(ManageRows(risk, bar, p)) >= PartialLoss(risk, o, p) - InitialRisk(risk, o)
  {
    hide Pnl, RiskOf, RatchetedStop, PartialVolume, HitStop, HitTarget, ProfitAtr;
    ManageSplitsVolume(risk, bar, p);
    RatchetNeverLoosens(risk, bar, p);
    SumPnlOfOne(ManageRows(risk, bar, p));
    RiskGrows(risk, o, p.vol, o.vol);
    if HitStop(bar, p) {
      LossBound(risk, o, p, p.sl, p.vol);
    } else if HitTarget(bar, p) {
      PnlSign(risk, p.dir, p.entry, p.tp, p.vol);
    } else if PartialsGain(risk) {
      PartialGains(risk, bar, p);
    } else if TakesPartial(risk, bar, p) {
      CloseBeyondStop(bar, p);
      LossBound(risk, o, p, bar.close, PartialVolume(risk, p.vol));
      RiskGrows(risk, o, p.vol - PartialVolume(risk, p.vol), p.vol);
    }
  }

  lemma RiskIsPositive(risk: RiskConfig, o: Position)
    requires Geometric(o) && o.vol >= 1
    ensures InitialRisk(risk, o) > 0.0
  {
    MulPositive(Abs(o.entry - o.sl), Lots(o.vol));
    MulPositive(Abs(o.entry - o.sl) * Lots(o.vol), risk.contractSize);
  }

  /** The breaker is on, with a limit. */
  predicate Armed(risk: RiskConfig) {
    risk.useDailyLimit && risk.dailyMaxLossPct != 0.0
  }

  /** Partial closes below bar `k` are taken in profit, or at closes inside their bars and so beyond the stop. */
  ghost predicate PartialsBounded<S>(run: Backtest<S>, k: nat)
    requires k <= |run.bars|
  {
    PartialsGain(run.risk) || forall i :: 2 <= i < k ==> Ordered(run.bars[i])
  }

  ghost predicate AllGeometric(openings: seq<Position>) {
    forall o <- openings :: Geometric(o)
  }

  /** The open position is a stage of the last entry. */
  ghost predicate Tracked(openings: seq<Position>, position: Option<Position>) {
    match position
    case None => true
    case Some(p) => openings != [] && StageOf(openings[|openings| - 1], p)
  }

  /** `over` is how far the balance may stand over the floor, given the position open and the entries so far. */
  ghost predicate AboveFloor(risk: RiskConfig, openings: seq<Position>, position: Option<Position>, over: real) {
    match position
    case Some(p) => openings != [] && over > -PartialLoss(risk, openings[|openings| - 1], p)
    case None => over > 0.0 || (openings != [] && over >= -InitialRisk(risk, openings[|openings| - 1]))
  }

  /**
    The balance is below the floor by no more than the partial closes of the open position can have
    lost, or with none open by the initial risk of the last one; with new entries allowed it is above.
   */
  ghost predicate Contained<S>(risk: RiskConfig, openings: seq<Position>, s: State<S>) {
    s.dayStart > 0.0 ==>
      && AboveFloor(risk, openings, s.position, s.balance - Floor(risk, s.dayStart))
      && (s.halted || s.balance > Floor(risk, s.dayStart))
  }

  lemma PartialLossBounds(risk: RiskConfig, o: Position, p: Position)
    requires StageOf(o, p)
    ensures 0.0 <= PartialLoss(risk, o, p) && 0.0 <= RiskOf(risk, o, p.vol)
    ensures PartialLoss(risk, o, p) + RiskOf(risk, o, p.vol) <= InitialRisk(risk, o)
  {
    hide RiskOf;
    RiskGrows(risk, o, p.vol, o.vol);
  }

  lemma ManagedContained<S>(run: Backtest<S>, i: nat, s: State<S>, openings: seq<Position>)
    requires i < |run.bars| && Armed(run.risk) && (PartialsGain(run.risk) || Ordered(run.bars[i]))
    requires Tracked(openings, s.position) && Contained(run.risk, openings, s)
    ensures var m := run.Managed(i, s);
            && Tracked(openings, m.position)
            && (m.dayStart > 0.0 ==>
                  AboveFloor(run.risk, openings, m.position, m.balance - Floor(run.risk, m.dayStart)))
  {
    hide ManageRows, ManagePosition, InitialRisk, PartialLoss, PartialsGain, Floor, StageOf;
    var rolled := RollDay(run.bars[i], s);
    if rolled.dayStart > 0.0 {
      FloorBelowStart(run.risk, rolled.dayStart);
    }
    if s.position.Some? {
      PartialLossBounds(run.risk, openings[|openings| - 1], s.position.value);
      ManageLossBound(run.risk, run.bars[i], openings[|openings| - 1], s.position.value);
    }
  }

  /** The breaker check and the entry block, after management. */
  lemma StepContained<S>(run: Backtest<S>, i: nat, s: State<S>, openings: seq<Position>)
    requires i < |run.bars| && Armed(run.risk) && (PartialsGain(run.risk) || Ordered(run.bars[i]))
    requires Tracked(openings, s.position) && Contained(run.risk, openings, s)
    ensures var m, e := run.Managed(i, s), run.Step(i, s);
            if m.position.None? && e.position.Some? then Contained(run.risk, openings + [e.position.value], e)
            else Contained(run.risk, openings, e) && Tracked(openings, e.position)
  {
    hide Manage, Floating, InitialRisk, Floor, StageOf, DayResultPct, Open, BreachesDailyLimit;
    ManagedContained(run, i, s, openings);
    var m := run.Managed(i, s);
    if m.dayStart > 0.0 {
      BreakerIsFloor(run.risk, m.balance, m.dayStart);
    }
  }

  lemma {:induction false} BreakerInvariant<S>(run: Backtest<S>, k: nat)
    requires 2 <= k <= |run.bars| && Armed(run.risk) && PartialsBounded(run, k) && AllGeometric(run.Openings(k))
    ensures Contained(run.risk, run.Openings(k), run.After(k))
    ensures Tracked(run.Openings(k), run.After(k).position)
  {
    hide Backtest.Step, Backtest.Managed, Contained, InitialRisk, Floor, Geometric, PartialsGain, Ordered;
    if k == 2 {
      StartContained(run);
    } else {
      var i, s, openings := k - 1, run.After(k - 1), run.Openings(k - 1);
      assert openings + [] == openings;
      assert forall o <- openings :: o in run.Openings(k);
      BreakerInvariant(run, i);
      StepContained(run, i, s, openings);
      if run.Opens(i) {
        EntryIsFresh(run, i, s);
        assert Geometric(run.Openings(k)[|openings|]);
      }
    }
  }

  lemma StartContained<S>(run: Backtest<S>)
    requires Armed(run.risk)
    ensures Contained(run.risk, [], run.Start())
  {
  }

  /**
    The realised result of a day never falls below minus the limit by more than one position's
    initial risk: that of the last position opened. While one is open the balance is above the floor,
    but for what its partial closes may have lost. The day is the one of bar `k - 1`.
   */
  lemma DailyLossIsBounded<S>(run: Backtest<S>, k: nat)
    requires 2 < k <= |run.bars| && Armed(run.risk) && PartialsBounded(run, k) && AllGeometric(run.Openings(k))
    requires run.After(k).dayStart > 0.0
    ensures var s, openings := run.After(k), run.Openings(k);
            var limit := Abs(run.risk.dailyMaxLossPct) / 100.0 * s.dayStart;
            if openings == [] then s.balance - s.dayStart > -limit
            else s.balance - s.dayStart >= -limit - InitialRisk(run.risk, openings[|openings| - 1])
    ensures var s, openings := run.After(k), run.Openings(k);
            s.position.Some? ==>
              && openings != []
              && s.balance > Floor(run.risk, s.dayStart)
                           - PartialLoss(run.risk, openings[|openings| - 1], s.position.value)
  {
    hide Backtest.After, Backtest.Openings, InitialRisk, PartialLoss, Geometric, StageOf;
    BreakerInvariant(run, k);
    LedgerVolumes(run, k);
    var openings, s := run.Openings(k), run.After(k);
    if openings != [] {
      RiskIsPositive(run.risk, openings[|openings| - 1]);
      if s.position.Some? {
        PartialLossBounds(run.risk, openings[|openings| - 1], s.position.value);
      }
    }
  }

  lemma {:induction false} LedgerVolumes<S>(run: Backtest<S>, k: nat)
    requires 2 <= k <= |run.bars|
    ensures forall o <- run.Openings(k) :: o.vol >= 1
  {
    hide Backtest.Step, Backtest.Managed;
    if k > 2 {
      LedgerVolumes(run, k - 1);
      if run.Opens(k - 1) {
        EntryIsFresh(run, k - 1, run.After(k - 1));
      }
    }
  }

  /** The minimum lot over the stop distance, or the risk money plus half a hundredth of a lot over it. */
  function RiskCap(risk: RiskConfig, balance: real, o: Position): real {
    var unit := Abs(o.entry - o.sl) * risk.contractSize;
    MaxReal(0.01 * unit, balance * (risk.riskPct / 100.0) + 0.005 * unit)
  }

  /** Sizing keeps that risk to the configured money, up to half a hundredth of a lot, or to the minimum lot. */
  lemma EntryRiskIsSized<S>(run: Backtest<S>, i: nat)
    requires 2 <= i < |run.bars| && run.Opens(i)
    ensures var s, o := run.After(i + 1), run.After(i + 1).position.value;
            InitialRisk(run.risk, o) <= RiskCap(run.risk, s.balance, o)
  {
    hide Backtest.Step, Backtest.Managed, Volume, InitialRisk, RiskCap;
    EntryIsSized(run, i, run.After(i));
    SizedRisk(run.risk, run.After(i + 1).balance, run.After(i + 1).position.value);
  }

  lemma EntryIsSized<S>(run: Backtest<S>, i: nat, s: State<S>)
    requires i < |run.bars| && run.Managed(i, s).position.None? && run.Step(i, s).position.Some?
    ensures var e, o := run.Step(i, s), run.Step(i, s).position.value;
            Abs(o.entry - o.sl) > 0.0 && o.vol == Volume(run.risk, e.balance, Abs(o.entry - o.sl))
  {
    hide Manage, BreachesDailyLimit, Floating, Volume, EntryPrice;
  }

  lemma SizedRisk(risk: RiskConfig, balance: real, o: Position)
    requires Abs(o.entry - o.sl) > 0.0 && o.vol == Volume(risk, balance, Abs(o.entry - o.sl))
    ensures InitialRisk(risk, o) <= RiskCap(risk, balance, o)
  {
    hide Volume;
    var unit := Abs(o.entry - o.sl) * risk.contractSize;
    assert InitialRisk(risk, o) == Lots(o.vol) * unit;
  }

  /** The bar of the last entry made below bar `k`, when there is one. */
  function LastEntry<S>(run: Backtest<S>, k: nat): (i: nat)
    requires k <= |run.bars|
    ensures i == 0 || i < k
  {
    if k <= 2 then 0 else if run.Opens(k - 1) then k - 1 else LastEntry(run, k - 1)
  }

  lemma {:induction false} LastEntryIsLastOpened<S>(run: Backtest<S>, k: nat)
    requires k <= |run.bars| && run.Openings(k) != []
    ensures var i, openings := LastEntry(run, k), run.Openings(k);
            && 2 <= i < k && run.Opens(i) && run.After(i + 1).position == Some(openings[|openings| - 1])
            && InitialRisk(run.risk, openings[|openings| - 1])
            <= RiskCap(run.risk, run.After(i + 1).balance, openings[|openings| - 1])
  {
    hide Backtest.After, Backtest.Opens, InitialRisk, RiskCap;
    if run.Opens(k - 1) {
      EntryRiskIsSized(run, k - 1);
      EntryIsOpen(run, k - 1);
    } else {
      LastEntryIsLastOpened(run, k - 1);
    }
  }

  lemma EntryIsOpen<S>(run: Backtest<S>, i: nat)
    requires 2 <= i < |run.bars| && run.Opens(i)
    ensures run.After(i + 1).position.Some?
  {
  }

  /**
    What the sizing and the breaker promise together: the realised result of a day never falls
    below minus the limit by more than the risk the last entry was sized to, from the balance of
    the bar it was made on.
   */
  lemma DayLossIsSized<S>(run: Backtest<S>, k: nat)
    requires 2 < k <= |run.bars| && Armed(run.risk) && PartialsBounded(run, k) && AllGeometric(run.Openings(k))
    requires run.After(k).dayStart > 0.0
    ensures var s := run.After(k);
            var limit := Abs(run.risk.dailyMaxLossPct) / 100.0 * s.dayStart;
            if run.Openings(k) == [] then s.balance - s.dayStart > -limit
            else
              var entered := run.After(LastEntry(run, k) + 1);
              && entered.position.Some?
              && s.balance - s.dayStart >= -limit - RiskCap(run.risk, entered.balance, entered.position.value)
  {
    hide Backtest.After, Backtest.Openings, LastEntry, InitialRisk, RiskCap, Geometric;
    DailyLossIsBounded(run, k);
    if run.Openings(k) != [] {
      LastEntryIsLastOpened(run, k);
    }
  }

  /** A bar that keeps a position closes on the better side of the stop it started with, whatever the ratchets do. */
  lemma KeptInside(risk: RiskConfig, bar: Bar, p: Position)
    requires Ordered(bar) && ManagePosition(risk, bar, p).Some?
    ensures !Tighter(p.dir, p.sl, bar.close)
    ensures var q := ManagePosition(risk, bar, p).value; q.dir == p.dir && q.entry == p.entry
  {
    hide RatchetedStop, TakesPartial, PartialVolume;
    CloseBeyondStop(bar, p);
  }

  lemma StageVolume(o: Position, p: Position)
    requires StageOf(o, p)
    ensures p.vol >= 1
  {
  }

  /** The equity point of one bar, before anything is entered on it. */
  lemma MarkedContained<S>(run: Backtest<S>, i: nat, s: State<S>, openings: seq<Position>)
    requires i < |run.bars| && Armed(run.risk) && Ordered(run.bars[i])
    requires Tracked(openings, s.position) && Contained(run.risk, openings, s)
    requires run.Managed(i, s).dayStart > 0.0
    requires openings != [] ==> InitialRisk(run.risk, openings[|openings| - 1]) > 0.0
    ensures var m := run.Managed(i, s);
            var equity := m.balance + Floating(run.risk, run.bars[i], m.position);
            if openings == [] then equity > Floor(run.risk, m.dayStart)
            else equity >= Floor(run.risk, m.dayStart) - InitialRisk(run.risk, openings[|openings| - 1])
  {
    hide ManageRows, ManagePosition, Pnl, InitialRisk, RiskOf, PartialLoss, Floor, StageOf, Contained;
    ManagedContained(run, i, s, openings);
    var m := run.Managed(i, s);
    if m.position.Some? {
      var o, p := openings[|openings| - 1], m.position.value;
      StageVolume(o, p);
      KeptInside(run.risk, run.bars[i], s.position.value);
      LossBound(run.risk, o, s.position.value, run.bars[i].close, p.vol);
      PartialLossBounds(run.risk, o, p);
    }
  }

  /**
    The same for equity, floating loss included: over bars whose close lies between low and high,
    the equity point of bar `k - 1` is never below the day's floor by more than the risk the last
    entry before that bar was sized to.
   */
  lemma EquityLossIsSized<S>(run: Backtest<S>, k: nat)
    requires 2 < k <= |run.bars| && Armed(run.risk) && PartialsBounded(run, k)
    requires Ordered(run.bars[k - 1]) && AllGeometric(run.Openings(k - 1)) && run.After(k).dayStart > 0.0
    ensures var s := run.After(k);
            && |s.equity| == k - 2
            && if run.Openings(k - 1) == [] then s.equity[k - 3] > Floor(run.risk, s.dayStart)
               else
                 var entered := run.After(LastEntry(run, k - 1) + 1);
                 && entered.position.Some?
                 && s.equity[k - 3] >= Floor(run.risk, s.dayStart)
                                     - RiskCap(run.risk, entered.balance, entered.position.value)
  {
    hide Backtest.Managed, Backtest.Openings, Backtest.Step, LastEntry;
    hide InitialRisk, RiskCap, Geometric, Floor, Contained;
    var s := run.After(k - 1);
    run.EquityStartsAtBalance(k);
    run.EquityStartsAtBalance(k - 1);
    BreakerInvariant(run, k - 1);
    LedgerVolumes(run, k - 1);
    run.StepEffects(k - 1, s);
    var openings := run.Openings(k - 1);
    if openings != [] {
      RiskIsPositive(run.risk, openings[|openings| - 1]);
      LastEntryIsLastOpened(run, k - 1);
    }
    MarkedContained(run, k - 1, s, openings);
  }

  lemma HaltedStep<S>(run: Backtest<S>, i: nat, s: State<S>)
    requires i < |run.bars|
    ensures var m, e := run.Managed(i, s), run.Step(i, s);
            && e.day == Some(run.bars[i].Day())
            && (s.halted && s.day == e.day ==> e.halted)
            && (e.halted && m.position.None? ==> e.position.None?)
  {
    hide ManageRows, ManagePosition, Floating, BreachesDailyLimit, Open;
  }

  /** Once the breaker has tripped, it stays tripped and nothing is entered for the rest of that day. */
  lemma {:induction false} NoEntryAfterHalt<S>(run: Backtest<S>, k: nat, j: nat)
    requires 2 < k <= j <= |run.bars| && run.After(k).halted
    requires forall i :: k <= i < j ==> run.bars[i].Day() == run.bars[k - 1].Day()
    ensures !run.Opens(k - 1)
    ensures run.After(j).halted && run.After(j).day == Some(run.bars[k - 1].Day())
    ensures run.Openings(j) == run.Openings(k)
  {
    hide Backtest.Step, Backtest.Managed;
    HaltedStep(run, j - 1, run.After(j - 1));
    if j > k {
      NoEntryAfterHalt(run, k, j - 1);
    }
  }

  /** Bars `j` to `k - 1` are the current day so far: one calendar day, from its first processed bar. */
  ghost predicate DaySoFar(bars: seq<Bar>, j: nat, k: nat) {
    && 2 <= j < k <= |bars|
    && (forall i :: j <= i < k ==> bars[i].Day() == bars[j].Day())
    && (j == 2 || bars[j - 1].Day() != bars[j].Day())
  }

  /**
    The day is measured against the balance carried into it, and the breaker is on exactly when the
    balance after some bar of the day breached the limit.
   */
  lemma {:induction false} HaltedIffBreachedToday<S>(run: Backtest<S>, j: nat, k: nat)
    requires DaySoFar(run.bars, j, k)
    ensures run.After(k).dayStart == run.After(j).balance
    ensures run.After(k).halted <==>
              exists m :: j < m <= k && BreachesDailyLimit(run.risk, run.After(m).balance, run.After(j).balance)
  {
    hide BreachesDailyLimit, Backtest.Step;
    DayMarked(run, k - 1, run.After(k - 1));
    if k - 1 > j {
      HaltedIffBreachedToday(run, j, k - 1);
      HaltedStep(run, k - 2, run.After(k - 2));
    } else if j > 2 {
      HaltedStep(run, j - 1, run.After(j - 1));
    }
  }

  lemma DayMarked<S>(run: Backtest<S>, i: nat, s: State<S>)
    requires i < |run.bars|
    ensures var e, same := run.Step(i, s), s.day == Some(run.bars[i].Day());
            && e.dayStart == (if same then s.dayStart else s.balance)
            && (e.halted <==> (same && s.halted) || BreachesDailyLimit(run.risk, e.balance, e.dayStart))
  {
    hide ManageRows, ManagePosition, Floating, BreachesDailyLimit, Backtest.Step;
    run.StepEffects(i, s);
  }
}
