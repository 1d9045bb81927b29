/** When the engine enters, and what an entry costs. */
module EngineEntry {
  import opened Wrappers
  import opened Engine
  import opened EngineRules

  /**
    A session opens at its start, ends at its end and changes at no other hour, over midnight too. A
    window and the same window turned round split the day; a window of no length is never open.
   */
  lemma SessionsSplitDay(hour: int, start: int, end: int)
    requires 0 <= hour < 24 && 0 <= start < 24 && 0 <= end < 24
    ensures start != end ==> InSession(start, start, end) && !InSession(end, start, end)
    ensures hour != start && hour != end ==> (InSession(hour, start, end) <==> InSession((hour + 23) % 24, start, end))
    ensures start != end ==> (InSession(hour, start, end) <==> !InSession(hour, end, start))
    ensures start == end ==> !InSession(hour, start, end)
  {
  }

  /**
    An entry is made only inside the session, with the breaker off and nothing open, on the signal the
    strategy gave for this bar, with its stop and target unchanged.
   */
  lemma EntryFollowsSignal<S>(run: Backtest<S>, i: nat)
    requires 2 <= i < |run.bars| && run.Opens(i)
    ensures var e, bar := run.After(i + 1), run.bars[i];
            var signal := run.strategy.next(i, run.bars, run.After(i).strat, run.risk.spreadPrice).1;
            && OpenAt(bar.ts % 86400, run.risk.sessionStart, run.risk.sessionEnd) && !e.halted
            && signal.Some? && signal.value.dir == e.position.value.dir
            && signal.value.sl == e.position.value.sl && signal.value.tp == e.position.value.tp
            && e.position.value.entry != e.position.value.sl
  {
    hide Backtest.Step, Backtest.Managed, OpenAt, Quote, Volume;
    EntryIff(run, i);
  }

  /** An entry starts half a spread behind: marked at the same close, it has lost exactly that. */
  lemma EntryCostsHalfSpread<S>(run: Backtest<S>, i: nat)
    requires 2 <= i < |run.bars| && run.Opens(i)
    ensures var o := run.After(i + 1).position.value;
            Floating(run.risk, run.bars[i], Some(o))
            == -(run.risk.spreadPrice / 2.0 * Lots(o.vol) * run.risk.contractSize)
  {
    hide Backtest.Step, Backtest.Managed, Floating;
    EntryAtSpread(run, i, run.After(i));
    SpreadLoss(run.risk, run.bars[i], run.After(i + 1).position.value);
  }

  lemma EntryAtSpread<S>(run: Backtest<S>, i: nat, s: State<S>)
    requires i < |run.bars| && run.Managed(i, s).position.None? && run.Step(i, s).position.Some?
    ensures var o := run.Step(i, s).position.value; o.entry == EntryPrice(run.risk, run.bars[i], o.dir)
  {
    hide Volume, EntryPrice, BreachesDailyLimit, Floating, Manage;
  }

  lemma SpreadLoss(risk: RiskConfig, bar: Bar, o: Position)
    requires o.entry == EntryPrice(risk, bar, o.dir)
    ensures Floating(risk, bar, Some(o)) == -(risk.spreadPrice / 2.0 * Lots(o.vol) * risk.contractSize)
  {
    var half := risk.spreadPrice / 2.0;
    assert (bar.close - o.entry) * o.dir.Sign() == -half;
    assert -half * Lots(o.vol) * risk.contractSize == -(half * Lots(o.vol) * risk.contractSize);
  }
}
