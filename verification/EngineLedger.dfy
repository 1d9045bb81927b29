/**
  The shape of the trade ledger: one cycle of rows per entry, and no lot is created or lost.

  A cycle belongs to the position as it was opened. It is an optional PARTIAL row followed, once
  the position is closed, by exactly one SL or TP row.
 */
module EngineLedger {
  import opened Wrappers
  import opened Engine

  function SumVol(trades: seq<Trade>): int {
    if trades == [] then 0 else SumVol(trades[..|trades| - 1]) + trades[|trades| - 1].vol
  }

  function SumOpened(openings: seq<Position>): int {
    if openings == [] then 0 else SumOpened(openings[..|openings| - 1]) + openings[|openings| - 1].vol
  }

  /** `t` closes some of the position opened as `o`, at the money its own prices and volume imply. */
  predicate RowOf(risk: RiskConfig, o: Position, t: Trade) {
    && t.entryTime == o.entryTime && t.dir == o.dir && t.entryPrice == o.entry
    && t.vol >= 1
    && t.pnl == Pnl(risk, o.dir, o.entry, t.exitPrice, t.vol)
    && (t.reason.TakeProfit? ==> t.exitPrice == o.tp)
  }

  /** `p` is what is left of the position opened as `o`; only stop, volume and the partial mark moved. */
  predicate OpenCycle(risk: RiskConfig, o: Position, rows: seq<Trade>, p: Position) {
    && !o.partialDone
    && p == o.(sl := p.sl, vol := p.vol, partialDone := p.partialDone)
    && p.vol >= 1
    && if rows == [] then !p.partialDone && p.vol == o.vol
       else
         && p.partialDone && |rows| == 1 && rows[0].reason.Partial? && RowOf(risk, o, rows[0])
         && rows[0].vol + p.vol == o.vol
  }

  predicate ClosedCycle(risk: RiskConfig, o: Position, rows: seq<Trade>) {
    && !o.partialDone
    && 1 <= |rows| <= 2
    && (forall t <- rows :: RowOf(risk, o, t))
    && !rows[|rows| - 1].reason.Partial?
    && (|rows| == 2 ==> rows[0].reason.Partial?)
    && o.vol == if |rows| == 2 then rows[0].vol + rows[1].vol else rows[0].vol
  }

  /** Number of rows in the last cycle of a ledger with no position open. */
  function LastCycle(trades: seq<Trade>): nat {
    if |trades| >= 2 && trades[|trades| - 2].reason.Partial? then 2 else 1
  }

  predicate Settled(risk: RiskConfig, openings: seq<Position>, trades: seq<Trade>) {
    if openings == [] then trades == []
    else
      var cut := |trades| - LastCycle(trades);
      && cut >= 0
      && ClosedCycle(risk, openings[|openings| - 1], trades[cut..])
      && Settled(risk, openings[..|openings| - 1], trades[..cut])
  }

  predicate Ledger(risk: RiskConfig, openings: seq<Position>, trades: seq<Trade>, open: Option<Position>) {
    match open
    case None => Settled(risk, openings, trades)
    case Some(p) =>
      var cut := |trades| - if p.partialDone then 1 else 0;
      && cut >= 0 && openings != []
      && OpenCycle(risk, openings[|openings| - 1], trades[cut..], p)
      && Settled(risk, openings[..|openings| - 1], trades[..cut])
  }

  /** One managed bar writes at most one row; it splits what is left of the position, or closes all of it. */
  lemma ManageSplitsVolume(risk: RiskConfig, bar: Bar, p: Position)
    requires p.vol >= 1
    ensures var rows, after := ManageRows(risk, bar, p), ManagePosition(risk, bar, p);
            && |rows| <= 1
            && (forall t <- rows :: RowOf(risk, p, t))
            && match after
               case None => |rows| == 1 && !rows[0].reason.Partial? && rows[0].vol == p.vol
               case Some(q) =>
                 && q == p.(sl := q.sl, vol := q.vol, partialDone := q.partialDone) && 1 <= q.vol <= p.vol
                 && if rows == [] then q.vol == p.vol && q.partialDone == p.partialDone
                    else rows[0].reason.Partial? && !p.partialDone && q.partialDone && rows[0].vol + q.vol == p.vol
  {
    hide RatchetedStop, Pnl, PartialVolume, ProfitAtr;
  }

  lemma ManageKeepsCycle(risk: RiskConfig, bar: Bar, o: Position, rows: seq<Trade>, p: Position)
    requires OpenCycle(risk, o, rows, p)
    ensures match ManagePosition(risk, bar, p)
            case None => ClosedCycle(risk, o, rows + ManageRows(risk, bar, p))
            case Some(q) => OpenCycle(risk, o, rows + ManageRows(risk, bar, p), q)
  {
    hide ManageRows, ManagePosition, Pnl;
    ManageSplitsVolume(risk, bar, p);
    var added := ManageRows(risk, bar, p);
    if added == [] {
      assert rows + added == rows;
    } else {
      assert RowOf(risk, p, added[0]);
      assert rows == [] ==> rows + added == added;
    }
  }

  lemma SettledEndsInClose(risk: RiskConfig, openings: seq<Position>, trades: seq<Trade>)
    requires Settled(risk, openings, trades) && trades != []
    ensures !trades[|trades| - 1].reason.Partial?
  {
    hide Pnl;
    var cut := |trades| - LastCycle(trades);
    assert trades[cut..][LastCycle(trades) - 1] == trades[|trades| - 1];
  }

  /** A closed cycle after a settled ledger settles it with one more entry. */
  lemma CloseLedger(risk: RiskConfig, openings: seq<Position>, head: seq<Trade>, tail: seq<Trade>)
    requires openings != [] && Settled(risk, openings[..|openings| - 1], head)
    requires ClosedCycle(risk, openings[|openings| - 1], tail)
    ensures Settled(risk, openings, head + tail)
  {
    hide RowOf;
    var trades := head + tail;
    if |tail| == 2 {
      assert trades[|trades| - 2] == tail[0];
    } else if head != [] {
      SettledEndsInClose(risk, openings[..|openings| - 1], head);
      assert trades[|trades| - 2] == head[|head| - 1];
    }
    assert LastCycle(trades) == |tail|;
    assert trades[..|head|] == head && trades[|head|..] == tail;
  }

  lemma HoldLedger(risk: RiskConfig, openings: seq<Position>, head: seq<Trade>, tail: seq<Trade>, p: Position)
    requires openings != [] && Settled(risk, openings[..|openings| - 1], head)
    requires OpenCycle(risk, openings[|openings| - 1], tail, p)
    ensures Ledger(risk, openings, head + tail, Some(p))
  {
    hide RowOf, Settled;
    assert (head + tail)[..|head|] == head && (head + tail)[|head|..] == tail;
  }

  /** Managing the open position extends its cycle, or ends it. */
  lemma ManageKeepsLedger(risk: RiskConfig, bar: Bar, openings: seq<Position>, trades: seq<Trade>, p: Position)
    requires Ledger(risk, openings, trades, Some(p))
    ensures Ledger(risk, openings, trades + ManageRows(risk, bar, p), ManagePosition(risk, bar, p))
  {
    hide ManageRows, ManagePosition, OpenCycle, ClosedCycle, Settled;
    var cut, rows := |trades| - if p.partialDone then 1 else 0, ManageRows(risk, bar, p);
    var head, tail := trades[..cut], trades[cut..];
    ManageKeepsCycle(risk, bar, openings[|openings| - 1], tail, p);
    assert trades + rows == head + (tail + rows);
    match ManagePosition(risk, bar, p) {
      case None => CloseLedger(risk, openings, head, tail + rows);
      case Some(q) => HoldLedger(risk, openings, head, tail + rows, q);
    }
  }

  lemma EntryKeepsLedger(risk: RiskConfig, openings: seq<Position>, trades: seq<Trade>, p: Position)
    requires Settled(risk, openings, trades) && !p.partialDone && p.vol >= 1
    ensures Ledger(risk, openings + [p], trades, Some(p))
  {
    hide Pnl;
    assert (openings + [p])[..|openings + [p]| - 1] == openings;
    assert trades[..|trades|] == trades;
  }

  /** What the entry block of one bar does to an engine with no position open. */
  lemma EntryIsFresh<S>(run: Backtest<S>, i: nat, s: State<S>)
    requires i < |run.bars| && run.Managed(i, s).position.None? && run.Step(i, s).position.Some?
    ensures var p := run.Step(i, s).position.value;
            !p.partialDone && p.vol >= 1 && p.entryTime == run.bars[i].ts
  {
    hide Manage, BreachesDailyLimit, Floating;
  }

  lemma ManagedKeepsLedger<S>(run: Backtest<S>, i: nat, s: State<S>, openings: seq<Position>)
    requires i < |run.bars| && Ledger(run.risk, openings, s.trades, s.position)
    ensures Ledger(run.risk, openings, run.Managed(i, s).trades, run.Managed(i, s).position)
  {
    hide Ledger, ManageRows, ManagePosition;
    if s.position.Some? {
      ManageKeepsLedger(run.risk, run.bars[i], openings, s.trades, s.position.value);
    }
  }

  /** The ledger of every run prefix parses into cycles, one per entry. */
  lemma {:induction false} LedgerShape<S>(run: Backtest<S>, k: nat)
    requires 2 <= k <= |run.bars|
    ensures Ledger(run.risk, run.Openings(k), run.After(k).trades, run.After(k).position)
  {
    hide OpenCycle, ClosedCycle, Manage, BreachesDailyLimit, Floating, Backtest.Managed, Backtest.Step;
    if k > 2 {
      var i, s := k - 1, run.After(k - 1);
      LedgerShape(run, i);
      ManagedKeepsLedger(run, i, s, run.Openings(i));
      run.StepEffects(i, s);
      assert run.Openings(i) + [] == run.Openings(i);
      if run.Opens(i) {
        EntryIsFresh(run, i, s);
        EntryKeepsLedger(run.risk, run.Openings(i), run.After(k).trades, run.After(k).position.value);
      }
    }
  }

  lemma {:induction false} SumVolAppend(a: seq<Trade>, b: seq<Trade>)
    ensures SumVol(a + b) == SumVol(a) + SumVol(b)
  {
    if b == [] {
      assert a + b == a;
    } else {
      SumVolAppend(a, b[..|b| - 1]);
      assert (a + b)[..|a + b| - 1] == a + b[..|b| - 1];
    }
  }

  lemma {:induction false} FilterAppend(a: seq<Trade>, b: seq<Trade>, keep: Trade -> bool)
    ensures Filter(a + b, keep) == Filter(a, keep) + Filter(b, keep)
  {
    if b == [] {
      assert a + b == a;
    } else {
      FilterAppend(a, b[..|b| - 1], keep);
      assert (a + b)[..|a + b| - 1] == a + b[..|b| - 1];
    }
  }

  lemma TotalsAppend(a: seq<Trade>, b: seq<Trade>)
    ensures SumVol(a + b) == SumVol(a) + SumVol(b)
    ensures |Filter(a + b, IS_CLOSE)| == |Filter(a, IS_CLOSE)| + |Filter(b, IS_CLOSE)|
  {
    SumVolAppend(a, b);
    FilterAppend(a, b, IS_CLOSE);
  }

  lemma RowTotals(t: Trade)
    ensures SumVol([t]) == t.vol
    ensures |Filter([t], IS_CLOSE)| == if t.reason.Partial? then 0 else 1
  {
    assert [t][..0] == [];
  }

  /** Volume and closing rows of one cycle. */
  lemma ClosedTotals(risk: RiskConfig, o: Position, rows: seq<Trade>)
    requires ClosedCycle(risk, o, rows)
    ensures SumVol(rows) == o.vol && |Filter(rows, IS_CLOSE)| == 1
  {
    hide RowOf, SumVol, Filter;
    RowTotals(rows[0]);
    if |rows| == 2 {
      RowTotals(rows[1]);
      TotalsAppend([rows[0]], [rows[1]]);
      assert rows == [rows[0]] + [rows[1]];
    } else {
      assert rows == [rows[0]];
    }
  }

  lemma OpenTotals(risk: RiskConfig, o: Position, rows: seq<Trade>, p: Position)
    requires OpenCycle(risk, o, rows, p)
    ensures p.vol >= 1 && SumVol(rows) + p.vol == o.vol && |Filter(rows, IS_CLOSE)| == 0
  {
    hide RowOf;
    if rows != [] {
      RowTotals(rows[0]);
      assert rows == [rows[0]];
    }
  }

  /** Taking the last cycle off a settled ledger. */
  lemma LastCycleOff(risk: RiskConfig, openings: seq<Position>, trades: seq<Trade>) returns (cut: nat)
    requires Settled(risk, openings, trades)
    ensures cut <= |trades|
    ensures if openings == [] then trades == []
            else
              && ClosedCycle(risk, openings[|openings| - 1], trades[cut..])
              && Settled(risk, openings[..|openings| - 1], trades[..cut])
  {
    hide ClosedCycle;
    cut := if openings == [] then 0 else |trades| - LastCycle(trades);
  }

  lemma {:induction false} SettledTotals(risk: RiskConfig, openings: seq<Position>, trades: seq<Trade>)
    requires Settled(risk, openings, trades)
    ensures SumOpened(openings) == SumVol(trades)
    ensures |Filter(trades, IS_CLOSE)| == |openings| && |trades| <= 2 * |openings|
  {
    hide Settled, RowOf;
    var cut := LastCycleOff(risk, openings, trades);
    if openings != [] {
      var head, tail := trades[..cut], trades[cut..];
      SettledTotals(risk, openings[..|openings| - 1], head);
      ClosedTotals(risk, openings[|openings| - 1], tail);
      TotalsAppend(head, tail);
      assert trades == head + tail;
    }
  }

  /**
    No lot is created or lost: everything opened is closed in the ledger or still open. Entries
    outnumber SL/TP rows by the position still open, and PARTIAL rows never outnumber entries.
   */
  lemma LotsAreConserved<S>(run: Backtest<S>, k: nat)
    requires 2 <= k <= |run.bars|
    ensures var end, openings := run.After(k), run.Openings(k);
            var closes := |Filter(end.trades, IS_CLOSE)|;
            && |end.trades| - closes <= |openings|
            && match end.position
               case None => SumOpened(openings) == SumVol(end.trades) && closes == |openings|
               case Some(p) =>
                 p.vol >= 1 && SumOpened(openings) == SumVol(end.trades) + p.vol && closes == |openings| - 1
  {
    hide Backtest.After, Backtest.Openings, ClosedCycle, OpenCycle, Settled;
    LedgerShape(run, k);
    var openings, end := run.Openings(k), run.After(k);
    match end.position {
      case None => SettledTotals(run.risk, openings, end.trades);
      case Some(p) =>
        var cut := |end.trades| - if p.partialDone then 1 else 0;
        var head, tail := end.trades[..cut], end.trades[cut..];
        SettledTotals(run.risk, openings[..|openings| - 1], head);
        OpenTotals(run.risk, openings[|openings| - 1], tail, p);
        TotalsAppend(head, tail);
        assert end.trades == head + tail;
    }
  }

  ghost predicate StrictlyIncreasing(bars: seq<Bar>) {
    forall i, j :: 0 <= i < j < |bars| ==> bars[i].ts < bars[j].ts
  }

  /**
    By time `now`: entry times increase from one entry to the next, and every row of an earlier
    entry is written no later than the next entry is made, while its own rows come strictly after it.
   */
  ghost predicate OneAtATime(openings: seq<Position>, trades: seq<Trade>, open: Option<Position>, now: int) {
    && (forall a, b :: 0 <= a < b < |openings| ==> openings[a].entryTime < openings[b].entryTime)
    && (forall t, o :: t in trades && o in openings ==>
          if t.entryTime < o.entryTime then t.exitTime <= o.entryTime else o.entryTime < t.exitTime)
    && (forall o :: o in openings ==> o.entryTime <= now)
    && (forall t :: t in trades ==> t.entryTime < t.exitTime <= now)
    && (open.Some? ==> openings != [] && open.value.entryTime == openings[|openings| - 1].entryTime)
  }

  lemma ManagedOneAtATime<S>(run: Backtest<S>, i: nat, s: State<S>, openings: seq<Position>, before: int)
    requires i < |run.bars| && before < run.bars[i].ts
    requires OneAtATime(openings, s.trades, s.position, before)
    requires s.position.Some? ==> s.position.value.vol >= 1
    ensures OneAtATime(openings, run.Managed(i, s).trades, run.Managed(i, s).position, run.bars[i].ts)
  {
    hide ManageRows, ManagePosition, Pnl;
    if s.position.Some? {
      ManageSplitsVolume(run.risk, run.bars[i], s.position.value);
      RowsAreStamped(run.risk, run.bars[i], s.position.value);
    }
  }

  lemma RowsAreStamped(risk: RiskConfig, bar: Bar, p: Position)
    ensures forall t <- ManageRows(risk, bar, p) :: t.entryTime == p.entryTime && t.exitTime == bar.ts
  {
    hide Pnl, PartialVolume, ProfitAtr;
  }

  lemma EntryOneAtATime(openings: seq<Position>, trades: seq<Trade>, p: Position, now: int)
    requires OneAtATime(openings, trades, None, now) && p.entryTime == now
    requires forall o :: o in openings ==> o.entryTime < now
    ensures OneAtATime(openings + [p], trades, Some(p), now)
  {
  }

  /** Positions never overlap in any run over bars in time order. */
  lemma {:induction false} PositionsNeverOverlap<S>(run: Backtest<S>, k: nat)
    requires 2 <= k <= |run.bars| && StrictlyIncreasing(run.bars)
    ensures OneAtATime(run.Openings(k), run.After(k).trades, run.After(k).position, run.bars[k - 1].ts)
  {
    hide Manage, BreachesDailyLimit, Floating, Backtest.Managed, Backtest.Step;
    if k > 2 {
      var i, s := k - 1, run.After(k - 1);
      PositionsNeverOverlap(run, i);
      LotsAreConserved(run, i);
      ManagedOneAtATime(run, i, s, run.Openings(i), run.bars[i - 1].ts);
      run.StepEffects(i, s);
      assert run.Openings(i) + [] == run.Openings(i);
      if run.Opens(i) {
        EntryIsFresh(run, i, s);
        EntryOneAtATime(run.Openings(i), run.After(k).trades, run.After(k).position.value, run.bars[i].ts);
      }
    }
  }
}
