/** Money conservation over whole runs, and the second route `summarize` takes to it. */
module EngineMoney {
  import opened Numbers
  import opened Engine

  lemma {:induction false} SumPnlAppend(a: seq<Trade>, b: seq<Trade>)
    ensures SumPnl(a + b) == SumPnl(a) + SumPnl(b)
  {
    if b == [] {
      assert a + b == a;
    } else {
      SumPnlAppend(a, b[..|b| - 1]);
      assert (a + b)[..|a + b| - 1] == a + b[..|b| - 1];
    }
  }

  /** The balance is never more or less than the starting balance plus every ledger row. */
  lemma {:induction false} BalanceIsLedger<S>(run: Backtest<S>, k: nat)
    requires 2 <= k <= |run.bars|
    ensures run.After(k).balance == FinalBalance(run.After(k).trades, run.risk)
  {
    hide Pnl, ManagePosition, ManageRows, MarkAndCheck, Backtest.Step;
    if k > 2 {
      var s := run.After(k - 1);
      BalanceIsLedger(run, k - 1);
      EntryKeepsMoney(run, k - 1, s);
      if s.position.Some? {
        SumPnlAppend(s.trades, ManageRows(run.risk, run.bars[k - 1], s.position.value));
      }
    }
  }

  lemma EntryKeepsMoney<S>(run: Backtest<S>, i: nat, s: State<S>)
    requires i < |run.bars|
    ensures run.Step(i, s).balance == run.Managed(i, s).balance
    ensures run.Step(i, s).trades == run.Managed(i, s).trades
  {
    hide Pnl, Manage, Backtest.Step;
    run.StepEffects(i, s);
  }

  /**
    The equity point of bar `i` is the balance after that bar's closes plus what the position
    still open then would make at the close. An entry made later on the bar does not move it.
   */
  lemma {:induction false} EquityIsBalancePlusFloating<S>(run: Backtest<S>, k: nat, i: nat)
    requires 2 <= i < k <= |run.bars|
    ensures i - 2 < |run.After(k).equity|
    ensures run.After(k).equity[i - 2]
         == FinalBalance(run.After(i + 1).trades, run.risk)
          + Floating(run.risk, run.bars[i], run.Managed(i, run.After(i)).position)
  {
    hide Pnl, Floating, ManagePosition, ManageRows, Backtest.Step, FinalBalance;
    run.EquityStartsAtBalance(k);
    run.EquityStartsAtBalance(k - 1);
    run.StepEffects(k - 1, run.After(k - 1));
    if i < k - 1 {
      EquityIsBalancePlusFloating(run, k - 1, i);
    } else {
      BalanceIsLedger(run, k);
    }
  }

  lemma {:induction false} WinsPlusLosses(trades: seq<Trade>)
    ensures SumPnl(Filter(trades, IS_WIN)) + SumPnl(Filter(trades, IS_LOSS)) == SumPnl(trades)
    ensures SumPnl(Filter(trades, IS_WIN)) >= 0.0 >= SumPnl(Filter(trades, IS_LOSS))
  {
    if trades != [] {
      var last := |trades| - 1;
      WinsPlusLosses(trades[..last]);
      SumPnlAppend(Filter(trades[..last], IS_WIN), if IS_WIN(trades[last]) then [trades[last]] else []);
      SumPnlAppend(Filter(trades[..last], IS_LOSS), if IS_LOSS(trades[last]) then [trades[last]] else []);
      SumPnlOfOne([trades[last]]);
    }
  }

  /** With money lost somewhere, the profit factor exceeds 1 exactly when the account grew. */
  lemma ProfitFactorAgreesWithReturn(trades: seq<Trade>, equity: seq<real>, risk: RiskConfig)
    requires equity == [] || equity[0] > 0.0
    ensures var summary := Summarize(trades, equity, risk);
            summary.profitFactor.Some? ==>
              (summary.profitFactor.value > 1.0 <==> summary.totalReturnPct > 0.0)
              && (summary.profitFactor.value == 1.0 <==> summary.totalReturnPct == 0.0)
    ensures ProfitFactor(trades).None? <==> SumPnl(Filter(trades, IS_LOSS)) == 0.0
  {
    hide SumPnl, Filter, MaxDrawdown;
    WinsPlusLosses(trades);
    if trades != [] && equity != [] && SumPnl(Filter(trades, IS_LOSS)) < 0.0 {
      RatioAgainstOne(SumPnl(Filter(trades, IS_WIN)), -SumPnl(Filter(trades, IS_LOSS)));
      PercentSign(FinalBalance(trades, risk) - risk.startBalance, risk.startBalance);
    }
  }

  lemma RatioAgainstOne(win: real, loss: real)
    requires loss > 0.0
    ensures win / loss > 1.0 <==> win - loss > 0.0
    ensures win / loss == 1.0 <==> win - loss == 0.0
  {
    QuotientAtLeast(win, loss, 1.0);
  }

  lemma PercentSign(gain: real, start: real)
    requires start > 0.0
    ensures gain / start * 100.0 > 0.0 <==> gain > 0.0
    ensures gain / start * 100.0 == 0.0 <==> gain == 0.0
  {
    QuotientAtLeast(gain, start, 0.0);
  }

  /** What the run reports is its own cash account, whichever of the two ways it is counted. */
  lemma ReportedBalanceIsCash<S>(run: Backtest<S>)
    ensures var end := run.After(|run.bars|);
            (end.equity == [] || end.equity[0] == run.risk.startBalance)
            && Summarize(end.trades, end.equity, run.risk).finalBalance == end.balance
  {
    hide Backtest.Step, MaxDrawdown, ProfitFactor;
    if |run.bars| >= 2 {
      run.EquityStartsAtBalance(|run.bars|);
      BalanceIsLedger(run, |run.bars|);
    }
  }
}
