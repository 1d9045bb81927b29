/** The engine never looks ahead: a causal strategy makes the whole run causal. */
module EngineCausality {
  import opened Engine

  /** The strategy reads no bar after the current one. */
  ghost predicate Causal<S(!new)>(strategy: Strategy<S>) {
    forall i: nat, a: seq<Bar>, b: seq<Bar>, s: S, spread: real ::
      i < |a| && i < |b| && a[..i + 1] == b[..i + 1] ==>
        strategy.next(i, a, s, spread) == strategy.next(i, b, s, spread)
  }

  lemma SameStep<S(!new)>(x: Backtest<S>, y: Backtest<S>, i: nat, s: State<S>)
    requires x.risk == y.risk && x.strategy == y.strategy && Causal(x.strategy)
    requires i < |x.bars| && i < |y.bars| && x.bars[..i + 1] == y.bars[..i + 1]
    ensures x.Managed(i, s) == y.Managed(i, s)
    ensures x.Step(i, s) == y.Step(i, s)
  {
    hide Manage, MarkAndCheck, Open;
    assert x.bars[i] == x.bars[..i + 1][i] == y.bars[..i + 1][i];
    var m := MarkAndCheck(x.risk, x.bars[i], x.Managed(i, s));
    assert x.strategy.next(i, x.bars, m.strat, x.risk.spreadPrice)
        == y.strategy.next(i, y.bars, m.strat, x.risk.spreadPrice);
  }

  /** Bars that agree up to `k` give the same engine state, strategy state, records and entries up to `k`. */
  lemma {:induction false} NoLookAhead<S(!new)>(x: Backtest<S>, y: Backtest<S>, k: nat)
    requires x.risk == y.risk && x.strategy == y.strategy && Causal(x.strategy)
    requires k <= |x.bars| && k <= |y.bars| && x.bars[..k] == y.bars[..k]
    ensures x.After(k) == y.After(k) && x.Openings(k) == y.Openings(k)
  {
    hide Causal, Backtest.Step, Backtest.Managed;
    if k > 2 {
      assert x.bars[..k - 1] == x.bars[..k][..k - 1] == y.bars[..k - 1];
      NoLookAhead(x, y, k - 1);
      SameStep(x, y, k - 1, x.After(k - 1));
    }
  }

  /** Records are only ever appended to. */
  lemma {:induction false} RecordsGrow<S>(run: Backtest<S>, i: nat, k: nat)
    requires 2 <= i <= k <= |run.bars|
    ensures run.After(i).trades <= run.After(k).trades
    ensures |run.After(k).equity| == k - 2
    ensures run.After(i).equity == run.After(k).equity[..i - 2]
  {
    hide ManageRows, ManagePosition, Floating, BreachesDailyLimit, Backtest.Step;
    run.EquityStartsAtBalance(k);
    if i < k {
      RecordsGrow(run, i, k - 1);
      run.StepEffects(k - 1, run.After(k - 1));
    } else {
      assert run.After(k).equity[..k - 2] == run.After(k).equity;
    }
  }

  /** Running on the first `k` bars gives a prefix of the run on all of them. */
  lemma PrefixRun<S(!new)>(run: Backtest<S>, k: nat)
    requires 2 <= k <= |run.bars| && Causal(run.strategy)
    ensures var short, end := Backtest(run.risk, run.strategy, run.bars[..k]).After(k), run.After(|run.bars|);
            short.trades <= end.trades && short.equity <= end.equity
  {
    hide Causal, Backtest.After, Backtest.Openings;
    var short := Backtest(run.risk, run.strategy, run.bars[..k]);
    assert short.bars[..k] == run.bars[..k];
    NoLookAhead(short, run, k);
    RecordsGrow(run, k, |run.bars|);
  }
}
