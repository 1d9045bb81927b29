/** What the stop of an open position guarantees: it stays inside the bar, never retreats, and locks breakeven. */
module EngineStops {
  import opened Numbers
  import opened Engine
  import opened EngineLedger
  import opened EngineRules

  predicate Ordered(bar: Bar) {
    bar.low <= bar.close <= bar.high
  }

  /** Ratchet settings under which no new stop can overtake the close. */
  predicate SaneRatchets(risk: RiskConfig) {
    && (risk.useBreakeven ==> risk.beTriggerAtr > 0.0 && risk.beLockAtr <= risk.beTriggerAtr)
    && (risk.useTrailing ==> risk.trailStartAtr > 0.0 && risk.trailAtrMult >= 0.0)
  }

  /** The close lies between stop and target; touching the stop is allowed, touching the target is not. */
  predicate InBand(close: real, p: Position) {
    if p.dir.Long? then p.sl <= close < p.tp else p.tp < close <= p.sl
  }

  /** Multiplying out a reached profit threshold. */
  lemma ReachedProfit(bar: Bar, p: Position, threshold: real)
    requires ProfitAtr(bar, p) >= threshold > 0.0
    ensures bar.atr > 0.0 && (bar.close - p.entry) * p.dir.Sign() >= threshold * bar.atr > 0.0
  {
    hide Direction.Sign;
    QuotientAtLeast((bar.close - p.entry) * p.dir.Sign(), bar.atr, threshold);
    MulPositive(threshold, bar.atr);
  }

  lemma RatchetNeverLoosens(risk: RiskConfig, bar: Bar, p: Position)
    ensures !Tighter(p.dir, p.sl, RatchetedStop(risk, bar, p))
  {
    hide ProfitAtr;
  }

  predicate BreakevenDue(risk: RiskConfig, bar: Bar, p: Position) {
    risk.useBreakeven && ProfitAtr(bar, p) >= risk.beTriggerAtr
  }

  predicate TrailDue(risk: RiskConfig, bar: Bar, p: Position) {
    risk.useTrailing && ProfitAtr(bar, p) >= risk.trailStartAtr
  }

  /**
    The new stop is the tightest of the old one and those due on this bar: the breakeven lock
    measured from entry and the trail measured from the close. The order they are tried in is
    immaterial.
   */
  lemma RatchetIsTightest(risk: RiskConfig, bar: Bar, p: Position)
    ensures var sl := RatchetedStop(risk, bar, p);
            var lock := p.entry + p.dir.Sign() * risk.beLockAtr * bar.atr;
            var trail := bar.close - p.dir.Sign() * risk.trailAtrMult * bar.atr;
            && !Tighter(p.dir, p.sl, sl)
            && (BreakevenDue(risk, bar, p) ==> !Tighter(p.dir, lock, sl))
            && (TrailDue(risk, bar, p) ==> !Tighter(p.dir, trail, sl))
            && (sl == p.sl || (BreakevenDue(risk, bar, p) && sl == lock) || (TrailDue(risk, bar, p) && sl == trail))
  {
    hide ProfitAtr;
  }

  /**
    A position is closed on a bar exactly when the bar touches one of its exits, and it is closed
    at the worst of those it touches, so an ambiguous bar is booked as the loss.
   */
  lemma ExitIsWorstTouched(risk: RiskConfig, bar: Bar, p: Position)
    requires p.vol >= 1 && Tighter(p.dir, p.tp, p.sl)
    ensures var stop := if p.dir.Long? then bar.low <= p.sl else bar.high >= p.sl;
            var target := if p.dir.Long? then bar.high >= p.tp else bar.low <= p.tp;
            && (ManagePosition(risk, bar, p).None? <==> stop || target)
            && (stop || target ==>
                  var rows := ManageRows(risk, bar, p);
                  var atStop, atTarget :=
                    Pnl(risk, p.dir, p.entry, p.sl, p.vol), Pnl(risk, p.dir, p.entry, p.tp, p.vol);
                  && |rows| == 1 && atStop < atTarget
                  && rows[0].pnl == (if stop then atStop else atTarget)
                  && (stop ==> rows[0].pnl <= atStop) && (target ==> rows[0].pnl <= atTarget))
  {
    hide Pnl, RatchetedStop, TakesPartial;
    PnlOrder(risk, p.dir, p.entry, p.sl, p.tp, p.vol);
  }

  lemma PnlOrder(risk: RiskConfig, dir: Direction, entry: real, worse: real, better: real, vol: int)
    requires vol >= 1 && Tighter(dir, better, worse)
    ensures Pnl(risk, dir, entry, worse, vol) < Pnl(risk, dir, entry, better, vol)
  {
    var a, b := (worse - entry) * dir.Sign(), (better - entry) * dir.Sign();
    MulStrict(a, b, Lots(vol));
    MulStrict(a * Lots(vol), b * Lots(vol), risk.contractSize);
  }

  lemma BreakevenBelowClose(risk: RiskConfig, bar: Bar, p: Position)
    requires SaneRatchets(risk) && BreakevenDue(risk, bar, p)
    ensures !Tighter(p.dir, BreakevenLevel(risk, bar, p), bar.close)
  {
    hide ProfitAtr, BreakevenLevel, TrailLevel;
    ReachedProfit(bar, p, risk.beTriggerAtr);
    ProfitInPrices(bar, p, risk.beTriggerAtr);
    LevelsInPrices(risk, bar, p);
    MulMono(risk.beLockAtr, risk.beTriggerAtr, bar.atr);
  }

  lemma TrailBelowClose(risk: RiskConfig, bar: Bar, p: Position)
    requires SaneRatchets(risk) && TrailDue(risk, bar, p)
    ensures !Tighter(p.dir, TrailLevel(risk, bar, p), bar.close)
  {
    hide ProfitAtr, BreakevenLevel, TrailLevel;
    ReachedProfit(bar, p, risk.trailStartAtr);
    LevelsInPrices(risk, bar, p);
    MulMono(0.0, risk.trailAtrMult, bar.atr);
  }

  lemma RatchetBelowClose(risk: RiskConfig, bar: Bar, p: Position)
    requires SaneRatchets(risk) && !Tighter(p.dir, p.sl, bar.close)
    ensures !Tighter(p.dir, RatchetedStop(risk, bar, p), bar.close)
  {
    hide ProfitAtr, BreakevenLevel, TrailLevel;
    if BreakevenDue(risk, bar, p) {
      BreakevenBelowClose(risk, bar, p);
    }
    if TrailDue(risk, bar, p) {
      TrailBelowClose(risk, bar, p);
    }
  }

  /** A managed bar that leaves the position open leaves the close inside the band of its new stop and target. */
  lemma ManagedBand(risk: RiskConfig, bar: Bar, p: Position)
    requires SaneRatchets(risk) && Ordered(bar)
    ensures match ManagePosition(risk, bar, p)
            case None => true
            case Some(q) => InBand(bar.close, q) && q == p.(sl := q.sl, vol := q.vol, partialDone := q.partialDone)
  {
    hide RatchetedStop, TakesPartial, PartialVolume;
    if ManagePosition(risk, bar, p).Some? {
      RatchetBelowClose(risk, bar, p);
    }
  }

  /** Over a whole run: after any bar that managed the position and kept it, the close is inside the band. */
  lemma StopBand<S>(run: Backtest<S>, k: nat)
    requires 2 < k <= |run.bars| && SaneRatchets(run.risk) && Ordered(run.bars[k - 1])
    requires run.After(k - 1).position.Some? && |run.Openings(k)| == |run.Openings(k - 1)|
    ensures run.After(k).position.Some? ==> InBand(run.bars[k - 1].close, run.After(k).position.value)
  {
    hide ManagePosition, ManageRows, BreachesDailyLimit, Floating, Backtest.Step;
    run.StepEffects(k - 1, run.After(k - 1));
    ManagedBand(run.risk, run.bars[k - 1], run.After(k - 1).position.value);
  }

  lemma {:induction false} OpeningsGrow<S>(run: Backtest<S>, i: nat, j: nat)
    requires 2 <= i <= j <= |run.bars|
    ensures |run.Openings(i)| <= |run.Openings(j)|
  {
    hide Backtest.Opens, Backtest.After;
    if i < j {
      OpeningsGrow(run, i, j - 1);
    }
  }

  /** `q` is a later stage of `p`: same trade, no more volume, a stop no looser. */
  predicate Follows(p: Position, q: Position) {
    && q == p.(sl := q.sl, vol := q.vol, partialDone := q.partialDone)
    && !Tighter(p.dir, p.sl, q.sl) && 1 <= q.vol <= p.vol
  }

  lemma FollowsOn(p: Position, q: Position, r: Position)
    requires Follows(p, q) && Follows(q, r)
    ensures Follows(p, r)
  {
  }

  lemma StepFollows<S>(run: Backtest<S>, i: nat, s: State<S>)
    requires i < |run.bars| && s.position.Some? && s.position.value.vol >= 1
    requires run.Managed(i, s).position.Some?
    ensures run.Step(i, s).position.Some? && Follows(s.position.value, run.Step(i, s).position.value)
  {
    hide ManagePosition, ManageRows, MarkAndCheck, Backtest.Step;
    run.StepEffects(i, s);
    ManageSplitsVolume(run.risk, run.bars[i], s.position.value);
    ManageTightens(run.risk, run.bars[i], s.position.value);
  }

  /** Between two bars of one position's life entry, target and direction are fixed, and the stop only tightens. */
  lemma {:induction false} StopNeverRetreats<S>(run: Backtest<S>, i: nat, j: nat)
    requires 2 <= i <= j <= |run.bars| && |run.Openings(i)| == |run.Openings(j)|
    requires run.After(i).position.Some? && run.After(j).position.Some?
    ensures Follows(run.After(i).position.value, run.After(j).position.value)
  {
    hide Follows, Backtest.After, Backtest.Openings, Backtest.Managed, Backtest.Step;
    LotsAreConserved(run, i);
    if i < j {
      OpeningsGrow(run, i, j - 1);
      OpeningsGrow(run, j - 1, j);
      StillOpen(run, j);
      StopNeverRetreats(run, i, j - 1);
      LotsAreConserved(run, j - 1);
      StepFollows(run, j - 1, run.After(j - 1));
      FollowsOn(run.After(i).position.value, run.After(j - 1).position.value, run.After(j).position.value);
    } else {
      FollowsItself(run.After(i).position.value);
    }
  }

  /** With no entry made on a bar, the position open after it was open before it and survived management. */
  lemma StillOpen<S>(run: Backtest<S>, k: nat)
    requires 2 < k <= |run.bars| && run.After(k).position.Some? && |run.Openings(k)| == |run.Openings(k - 1)|
    ensures run.After(k - 1).position.Some? && run.Managed(k - 1, run.After(k - 1)).position.Some?
    ensures run.After(k) == run.Step(k - 1, run.After(k - 1))
  {
    hide ManageRows, ManagePosition, Backtest.Step;
    assert !run.Opens(k - 1);
  }

  /** The bar's whole range lies strictly between the stop and the target. */
  predicate Inside(bar: Bar, p: Position) {
    match p.dir
    case Long => p.sl < bar.low && bar.high < p.tp
    case Short => p.tp < bar.low && bar.high < p.sl
  }

  /** A position open before a bar of a run is still open after it exactly when the bar stays inside its exits. */
  lemma SurvivesIffInside<S>(run: Backtest<S>, k: nat)
    requires 2 <= k < |run.bars| && run.After(k).position.Some?
    ensures run.After(k + 1).position.Some? && !run.Opens(k) <==> Inside(run.bars[k], run.After(k).position.value)
  {
    hide ManageRows, ManagePosition, MarkAndCheck, Backtest.Enter;
    KeptIffUntouched(run.risk, run.bars[k], run.After(k).position.value);
    run.StepEffects(k, run.After(k));
  }

  /** No bar in the life of a position reaches its target or the stop it had at any earlier time of that life. */
  lemma {:induction false} LifeInsideExits<S>(run: Backtest<S>, i: nat, j: nat, k: nat)
    requires 2 <= i <= k < j <= |run.bars| && |run.Openings(i)| == |run.Openings(j)|
    requires run.After(i).position.Some? && run.After(j).position.Some?
    ensures Inside(run.bars[k], run.After(i).position.value)
  {
    hide Backtest.After, Backtest.Openings, Backtest.Opens, Inside;
    AliveBetween(run, i, j, k);
    AliveBetween(run, i, j, k + 1);
    SurvivesIffInside(run, k);
    StopNeverRetreats(run, i, k);
    InsideLooser(run.bars[k], run.After(i).position.value, run.After(k).position.value);
  }

  lemma {:induction false} AliveBetween<S>(run: Backtest<S>, i: nat, j: nat, k: nat)
    requires 2 <= i <= k <= j <= |run.bars| && |run.Openings(i)| == |run.Openings(j)|
    requires run.After(j).position.Some?
    ensures run.After(k).position.Some? && |run.Openings(k)| == |run.Openings(i)|
    ensures i < k ==> !run.Opens(k - 1)
    decreases j - k
  {
    hide Backtest.After, Backtest.Opens;
    OpeningsGrow(run, i, k);
    OpeningsGrow(run, k, j);
    if k < j {
      AliveBetween(run, i, j, k + 1);
      StillOpen(run, k + 1);
    }
    if i < k {
      OpeningsGrow(run, i, k - 1);
    }
  }

  lemma InsideLooser(bar: Bar, p: Position, q: Position)
    requires Follows(p, q) && Inside(bar, q)
    ensures Inside(bar, p)
  {
  }

  lemma FollowsItself(p: Position)
    requires p.vol >= 1
    ensures Follows(p, p)
  {
  }

  lemma ManageTightens(risk: RiskConfig, bar: Bar, p: Position)
    ensures ManagePosition(risk, bar, p).Some? ==> !Tighter(p.dir, p.sl, ManagePosition(risk, bar, p).value.sl)
  {
    hide RatchetedStop, PartialVolume, ProfitAtr;
    RatchetNeverLoosens(risk, bar, p);
  }

  // ---------- no loss after breakeven ----------

  /** Neither exit of `p` can lose money. */
  predicate Locked(p: Position) {
    if p.dir.Long? then p.entry <= p.sl && p.entry <= p.tp else p.sl <= p.entry && p.tp <= p.entry
  }

  predicate TargetOnProfitSide(p: Position) {
    if p.dir.Long? then p.entry <= p.tp else p.tp <= p.entry
  }

  lemma PnlSign(risk: RiskConfig, dir: Direction, entry: real, exit: real, vol: int)
    requires vol >= 0 && (exit - entry) * dir.Sign() >= 0.0
    ensures Pnl(risk, dir, entry, exit, vol) >= 0.0
  {
    var gain, lots := (exit - entry) * dir.Sign(), Lots(vol);
    assert gain * lots >= 0.0;
    assert gain * lots * risk.contractSize >= 0.0;
  }

  /** Partial closes are taken in profit. */
  predicate PartialsGain(risk: RiskConfig) {
    risk.usePartial ==> risk.partialAtr > 0.0
  }

  /** A bar that does not touch the stop closes on the better side of it, when its close is inside it. */
  lemma CloseBeyondStop(bar: Bar, p: Position)
    requires Ordered(bar) && !HitStop(bar, p)
    ensures !Tighter(p.dir, p.sl, bar.close)
  {
  }

  /** No partial close loses money with a positive threshold, in profit, or beyond a locked stop. */
  lemma PartialGains(risk: RiskConfig, bar: Bar, p: Position)
    requires PartialsGain(risk) || ProfitAtr(bar, p) > 0.0 || (Ordered(bar) && Locked(p))
    ensures forall t <- ManageRows(risk, bar, p) :: t.reason.Partial? ==> t.pnl >= 0.0
    ensures ManagePosition(risk, bar, p).Some? ==> SumPnl(ManageRows(risk, bar, p)) >= 0.0
  {
    hide Pnl, PartialVolume, ProfitAtr, RatchetedStop, HitStop, HitTarget;
    SumPnlOfOne(ManageRows(risk, bar, p));
    if TakesPartial(risk, bar, p) && !HitStop(bar, p) {
      if PartialsGain(risk) {
        ReachedProfit(bar, p, risk.partialAtr);
      } else if ProfitAtr(bar, p) > 0.0 {
        ReachedProfit(bar, p, ProfitAtr(bar, p));
      } else {
        CloseBeyondStop(bar, p);
      }
      PnlSign(risk, p.dir, p.entry, bar.close, PartialVolume(risk, p.vol));
    }
  }

  lemma LockedStaysLocked(risk: RiskConfig, bar: Bar, p: Position)
    requires Locked(p) && p.vol >= 1 && (PartialsGain(risk) || Ordered(bar))
    ensures forall t <- ManageRows(risk, bar, p) :: t.pnl >= 0.0
    ensures ManagePosition(risk, bar, p).Some? ==> Locked(ManagePosition(risk, bar, p).value)
  {
    hide Pnl, PartialVolume, ProfitAtr, RatchetedStop;
    PartialGains(risk, bar, p);
    RatchetNeverLoosens(risk, bar, p);
    PnlSign(risk, p.dir, p.entry, if HitStop(bar, p) then p.sl else p.tp, p.vol);
  }

  /** Reaching the trigger on a bar that keeps the position moves the stop to entry or better. */
  lemma BreakevenLocks(risk: RiskConfig, bar: Bar, p: Position)
    requires risk.useBreakeven && ProfitAtr(bar, p) >= risk.beTriggerAtr > 0.0 && risk.beLockAtr >= 0.0
    requires TargetOnProfitSide(p)
    ensures ManagePosition(risk, bar, p).Some? ==> Locked(ManagePosition(risk, bar, p).value)
  {
    hide ProfitAtr, HitStop, HitTarget, TakesPartial, PartialVolume;
    ReachedProfit(bar, p, risk.beTriggerAtr);
    MulMono(0.0, risk.beLockAtr, bar.atr);
    LevelsInPrices(risk, bar, p);
    hide BreakevenLevel, TrailLevel;
  }

  predicate AllPartial(trades: seq<Trade>) {
    forall t <- trades :: t.reason.Partial?
  }

  /** From row `from` on, no row loses money up to and including the next SL or TP row. */
  ghost predicate NoLossUntilClosed(trades: seq<Trade>, from: nat) {
    forall m :: from <= m < |trades| && AllPartial(trades[from..m]) ==> trades[m].pnl >= 0.0
  }

  ghost predicate LockedSince<S>(s: State<S>, from: nat) {
    && from <= |s.trades|
    && NoLossUntilClosed(s.trades, from)
    && (AllPartial(s.trades[from..]) ==> s.position.Some? && Locked(s.position.value) && s.position.value.vol >= 1)
  }

  lemma AppendSlices(a: seq<Trade>, b: seq<Trade>, from: nat)
    requires from <= |a|
    ensures (a + b)[from..] == a[from..] + b && a[from..|a|] == a[from..]
    ensures forall m :: from <= m <= |a| ==> (a + b)[from..m] == a[from..m]
  {
  }

  lemma ManageKeepsLocked(risk: RiskConfig, bar: Bar, p: Position, trades: seq<Trade>, from: nat)
    requires from <= |trades| && NoLossUntilClosed(trades, from)
    requires AllPartial(trades[from..]) ==> Locked(p)
    requires p.vol >= 1 && (PartialsGain(risk) || Ordered(bar))
    ensures NoLossUntilClosed(trades + ManageRows(risk, bar, p), from)
    ensures AllPartial((trades + ManageRows(risk, bar, p))[from..]) ==>
              && ManagePosition(risk, bar, p).Some?
              && Locked(ManagePosition(risk, bar, p).value) && ManagePosition(risk, bar, p).value.vol >= 1
  {
    hide ManageRows, ManagePosition, Locked;
    var rows := ManageRows(risk, bar, p);
    var trades' := trades + rows;
    ManageSplitsVolume(risk, bar, p);
    AppendSlices(trades, rows, from);
    if AllPartial(trades[from..]) {
      LockedStaysLocked(risk, bar, p);
    }
    if AllPartial(trades'[from..]) {
      assert forall t <- trades[from..] :: t in trades'[from..];
      assert rows != [] ==> rows[0] in trades'[from..];
    }
  }

  lemma StepKeepsLocked<S>(run: Backtest<S>, i: nat, s: State<S>, from: nat)
    requires i < |run.bars| && LockedSince(s, from)
    requires s.position.Some? ==> s.position.value.vol >= 1
    requires PartialsGain(run.risk) || Ordered(run.bars[i])
    ensures LockedSince(run.Step(i, s), from)
  {
    hide ManageRows, ManagePosition, BreachesDailyLimit, Floating, Locked, NoLossUntilClosed, Backtest.Step;
    run.StepEffects(i, s);
    if s.position.Some? {
      ManageKeepsLocked(run.risk, run.bars[i], s.position.value, s.trades, from);
    }
  }

  lemma TriggerLocks<S>(run: Backtest<S>, i: nat, s: State<S>)
    requires i < |run.bars| && s.position.Some? && s.position.value.vol >= 1
    requires run.risk.useBreakeven && ProfitAtr(run.bars[i], s.position.value) >= run.risk.beTriggerAtr > 0.0
    requires run.risk.beLockAtr >= 0.0
    requires TargetOnProfitSide(s.position.value)
    requires ManagePosition(run.risk, run.bars[i], s.position.value).Some?
    ensures LockedSince(run.Step(i, s), |s.trades|)
  {
    hide ManageRows, ManagePosition, BreachesDailyLimit, Floating, Locked, NoLossUntilClosed, Backtest.Step;
    var p := s.position.value;
    run.StepEffects(i, s);
    BreakevenLocks(run.risk, run.bars[i], p);
    ManageSplitsVolume(run.risk, run.bars[i], p);
    PartialGains(run.risk, run.bars[i], p);
    FirstRows(s.trades, ManageRows(run.risk, run.bars[i], p));
  }

  lemma FirstRows(trades: seq<Trade>, rows: seq<Trade>)
    requires forall t <- rows :: t.pnl >= 0.0
    ensures NoLossUntilClosed(trades + rows, |trades|)
  {
  }

  /**
    No loss after breakeven. If bar `i` manages the open position, finds it at least the trigger in
    profit and keeps it, then on every later bar no row written for it since has lost money,
    whatever ATR, trailing and partial closes did in between.
   */
  lemma {:induction false} NoLossAfterBreakeven<S>(run: Backtest<S>, i: nat, k: nat)
    requires 2 <= i < k <= |run.bars|
    requires run.risk.useBreakeven && run.risk.beTriggerAtr > 0.0 && run.risk.beLockAtr >= 0.0
    requires PartialsGain(run.risk) || forall m :: i < m < k ==> Ordered(run.bars[m])
    requires run.After(i).position.Some? && TargetOnProfitSide(run.After(i).position.value)
    requires ProfitAtr(run.bars[i], run.After(i).position.value) >= run.risk.beTriggerAtr
    requires ManagePosition(run.risk, run.bars[i], run.After(i).position.value).Some?
    ensures LockedSince(run.After(k), |run.After(i).trades|)
  {
    hide ManagePosition, LockedSince, TargetOnProfitSide, ProfitAtr, Backtest.Step;
    LotsAreConserved(run, k - 1);
    if i == k - 1 {
      TriggerLocks(run, i, run.After(i));
    } else {
      NoLossAfterBreakeven(run, i, k - 1);
      StepKeepsLocked(run, k - 1, run.After(k - 1), |run.After(i).trades|);
    }
  }
}
