/** OHLC resampling and the keyed candle store. */
module Resampling {
  import opened Numbers

  /** Timestamps in seconds; `ts` of a resampled candle is the start of its bin. */
  datatype Candle = Candle(ts: int, open: real, high: real, low: real, close: real, volume: real)

  /** Rules are in seconds; those in use all divide a day, so bins are anchored at midnight. */
  predicate MidnightAligned(rule: int) {
    rule > 0 && 86400 % rule == 0
  }

  function Bin(ts: int, rule: int): int
    requires rule > 0
  {
    ts / rule * rule
  }

  ghost predicate InOrder(c: seq<Candle>) {
    forall i, j :: 0 <= i < j < |c| ==> c[i].ts <= c[j].ts
  }

  // ---------- group by bin, then first / max / min / last / sum ----------

  /** The candles of one bin, in their order. */
  function InBin(c: seq<Candle>, rule: int, bin: int): seq<Candle>
    requires rule > 0
  {
    if c == [] then []
    else
      var last := c[|c| - 1];
      InBin(c[..|c| - 1], rule, bin) + if Bin(last.ts, rule) == bin then [last] else []
  }

  /** The bins that hold a candle, in order of first appearance; empty bins are dropped. */
  function Bins(c: seq<Candle>, rule: int): seq<int>
    requires rule > 0
  {
    if c == [] then []
    else
      var before, bin := Bins(c[..|c| - 1], rule), Bin(c[|c| - 1].ts, rule);
      if bin in before then before else before + [bin]
  }

  function Highest(c: seq<Candle>): real
    requires c != []
  {
    if |c| == 1 then c[0].high else MaxReal(Highest(c[..|c| - 1]), c[|c| - 1].high)
  }

  function Lowest(c: seq<Candle>): real
    requires c != []
  {
    if |c| == 1 then c[0].low else MinReal(Lowest(c[..|c| - 1]), c[|c| - 1].low)
  }

  function SumVolume(c: seq<Candle>): real {
    if c == [] then 0.0 else SumVolume(c[..|c| - 1]) + c[|c| - 1].volume
  }

  function Aggregate(bin: int, group: seq<Candle>): Candle
    requires group != []
  {
    Candle(bin, group[0].open, Highest(group), Lowest(group), group[|group| - 1].close, SumVolume(group))
  }

  lemma {:induction false} BinsAreInhabited(c: seq<Candle>, rule: int)
    requires rule > 0
    ensures forall bin :: bin in Bins(c, rule) <==> InBin(c, rule, bin) != []
  {
    if c != [] {
      BinsAreInhabited(c[..|c| - 1], rule);
    }
  }

  function Resample(c: seq<Candle>, rule: int): seq<Candle>
    requires rule > 0
  {
    BinsAreInhabited(c, rule);
    var bins := Bins(c, rule);
    seq(|bins|, i requires 0 <= i < |bins| =>
      assert bins[i] in bins;
      Aggregate(bins[i], InBin(c, rule, bins[i])))
  }

  // ---------- resampling as a fold ----------

  /** A candle moved to the start of its bin. */
  function Lift(c: Candle, rule: int): Candle
    requires rule > 0
  {
    c.(ts := Bin(c.ts, rule))
  }

  function Merge(a: Candle, b: Candle): Candle {
    Candle(a.ts, a.open, MaxReal(a.high, b.high), MinReal(a.low, b.low), b.close, a.volume + b.volume)
  }

  /** One more candle: merged into the last bar when it starts the same bin, else a bar of its own. */
  function Push(bars: seq<Candle>, c: Candle): seq<Candle> {
    if bars != [] && bars[|bars| - 1].ts == c.ts then bars[..|bars| - 1] + [Merge(bars[|bars| - 1], c)]
    else bars + [c]
  }

  function Folded(c: seq<Candle>, rule: int): seq<Candle>
    requires rule > 0
  {
    if c == [] then [] else Push(Folded(c[..|c| - 1], rule), Lift(c[|c| - 1], rule))
  }

  lemma BinMonotone(a: int, b: int, rule: int)
    requires rule > 0 && a <= b
    ensures Bin(a, rule) <= Bin(b, rule)
  {
    var p, q := a / rule, b / rule;
    assert p * rule <= a && b < q * rule + rule;
    assert (q + 1) * rule == q * rule + rule;
    MulCancel(p, q + 1, rule);
    MulInt(p, q, rule);
  }

  /** Bins anchored at the midnight of any day are the same bins when the rule divides a day. */
  lemma AnchorDoesNotMatter(ts: int, day: int, rule: int)
    requires MidnightAligned(rule)
    ensures day * 86400 + Bin(ts - day * 86400, rule) == Bin(ts, rule)
  {
    var perDay, q := 86400 / rule, (ts - day * 86400) / rule;
    assert perDay * rule == 86400;
    assert (day * perDay) * rule == day * (perDay * rule);
    assert (day * perDay + q) * rule == (day * perDay) * rule + q * rule;
    QuotientIs(ts, rule, day * perDay + q);
  }

  /** Binning coarsely forgets having been binned finely. */
  lemma BinOfBin(ts: int, r1: int, r2: int)
    requires r1 > 0 && r2 > 0 && r2 % r1 == 0
    ensures Bin(Bin(ts, r1), r2) == Bin(ts, r2)
  {
    var k, q, a := r2 / r1, ts / r2, ts / r1;
    assert r2 == k * r1;
    assert (q * k) * r1 == q * (k * r1);
    assert (a + 1) * r1 == a * r1 + r1;
    MulCancel(q * k, a + 1, r1);
    MulInt(q * k, a, r1);
    QuotientIs(a * r1, r2, q);
  }

  /** In time order the bin of the last candle is either the last bin so far or a new, later one. */
  lemma {:induction false} BinsIncrease(c: seq<Candle>, rule: int)
    requires rule > 0 && InOrder(c)
    ensures Increasing(Bins(c, rule))
    ensures c == [] ==> Bins(c, rule) == []
    ensures c != [] ==> Bins(c, rule) != [] && Bins(c, rule)[|Bins(c, rule)| - 1] == Bin(c[|c| - 1].ts, rule)
  {
    if |c| > 0 {
      var front := c[..|c| - 1];
      BinsIncrease(front, rule);
      if front != [] {
        BinMonotone(front[|front| - 1].ts, c[|c| - 1].ts, rule);
      }
    }
  }

  lemma AggregateOne(bin: int, x: Candle)
    ensures Aggregate(bin, [x]) == x.(ts := bin)
  {
    assert [x][..|[x]| - 1] == [];
    assert SumVolume([x]) == SumVolume([]) + x.volume;
  }

  lemma AggregateMore(bin: int, group: seq<Candle>, x: Candle)
    requires group != []
    ensures Aggregate(bin, group + [x]) == Merge(Aggregate(bin, group), x)
  {
  }

  ghost predicate Increasing(xs: seq<int>) {
    forall i, j :: 0 <= i < j < |xs| ==> xs[i] < xs[j]
  }

  function Times(c: seq<Candle>): seq<int> {
    seq(|c|, i requires 0 <= i < |c| => c[i].ts)
  }

  lemma TimesIncrease(c: seq<Candle>)
    ensures Increasing(Times(c)) <==> forall i, j :: 0 <= i < j < |c| ==> c[i].ts < c[j].ts
  {
    if Increasing(Times(c)) {
      forall i, j | 0 <= i < j < |c|
        ensures c[i].ts < c[j].ts
      {
        assert Times(c)[i] < Times(c)[j];
      }
    }
  }

  lemma ResampleAt(c: seq<Candle>, rule: int, i: nat)
    requires rule > 0 && i < |Bins(c, rule)|
    ensures InBin(c, rule, Bins(c, rule)[i]) != [] && |Resample(c, rule)| == |Bins(c, rule)|
    ensures Resample(c, rule)[i] == Aggregate(Bins(c, rule)[i], InBin(c, rule, Bins(c, rule)[i]))
  {
  }

  /** A candle in another bin leaves a bar as it was. */
  lemma OtherBinsStay(c: seq<Candle>, rule: int, i: nat)
    requires rule > 0 && c != []
    requires var bins := Bins(c[..|c| - 1], rule); i < |bins| && bins[i] != Bin(c[|c| - 1].ts, rule)
    ensures i < |Resample(c[..|c| - 1], rule)| && i < |Resample(c, rule)|
    ensures Resample(c, rule)[i] == Resample(c[..|c| - 1], rule)[i]
  {
    hide Resample, Aggregate, Bin;
    ResampleAt(c[..|c| - 1], rule, i);
    ResampleAt(c, rule, i);
    var group := InBin(c[..|c| - 1], rule, Bins(c[..|c| - 1], rule)[i]);
    assert group + [] == group;
  }

  lemma ExtendLastBin(c: seq<Candle>, rule: int)
    requires rule > 0 && c != [] && Increasing(Bins(c[..|c| - 1], rule))
    requires var bins := Bins(c[..|c| - 1], rule); bins != [] && bins[|bins| - 1] == Bin(c[|c| - 1].ts, rule)
    ensures Resample(c, rule) == Push(Resample(c[..|c| - 1], rule), Lift(c[|c| - 1], rule))
  {
    hide Resample, Aggregate, Bin, Merge, Lift;
    var front, last := c[..|c| - 1], c[|c| - 1];
    var bins := Bins(front, rule);
    var n := |bins| - 1;
    ResampleAt(front, rule, n);
    ResampleAt(c, rule, n);
    LiftMerges(bins[n], InBin(front, rule, bins[n]), last, rule);
    forall i | 0 <= i < n
      ensures Resample(c, rule)[i] == Resample(front, rule)[i]
    {
      OtherBinsStay(c, rule, i);
    }
  }

  lemma LiftMerges(bin: int, group: seq<Candle>, x: Candle, rule: int)
    requires rule > 0 && group != [] && bin == Bin(x.ts, rule)
    ensures Aggregate(bin, group + [x]) == Merge(Aggregate(bin, group), Lift(x, rule))
    ensures Aggregate(bin, group).ts == bin == Lift(x, rule).ts
    ensures Aggregate(bin, [x]) == Lift(x, rule)
  {
    hide Bin, Highest, Lowest, SumVolume;
    AggregateMore(bin, group, x);
    AggregateOne(bin, x);
  }

  lemma StartNewBin(c: seq<Candle>, rule: int)
    requires rule > 0 && c != [] && Bin(c[|c| - 1].ts, rule) !in Bins(c[..|c| - 1], rule)
    ensures Resample(c, rule) == Push(Resample(c[..|c| - 1], rule), Lift(c[|c| - 1], rule))
  {
    hide Resample, Aggregate, Bin, Merge, Lift;
    var front, last := c[..|c| - 1], c[|c| - 1];
    var bins, bin := Bins(front, rule), Bin(last.ts, rule);
    BinsAreInhabited(front, rule);
    assert InBin(c, rule, bin) == [last];
    ResampleAt(c, rule, |bins|);
    LiftMerges(bin, [last], last, rule);
    forall i | 0 <= i < |bins|
      ensures i < |Resample(front, rule)| && Resample(c, rule)[i] == Resample(front, rule)[i]
      ensures Resample(front, rule)[i].ts != bin
    {
      assert bins[i] in bins;
      OtherBinsStay(c, rule, i);
      ResampleAt(front, rule, i);
      LiftMergesTs(bins[i], InBin(front, rule, bins[i]));
    }
    ResampleLength(front, rule);
  }

  lemma LiftMergesTs(bin: int, group: seq<Candle>)
    requires group != []
    ensures Aggregate(bin, group).ts == bin
  {
  }

  lemma ResampleLength(c: seq<Candle>, rule: int)
    requires rule > 0
    ensures |Resample(c, rule)| == |Bins(c, rule)|
  {
  }

  /** On candles in time order, grouping and aggregating is the fold. */
  lemma {:induction false} ResampleIsFold(c: seq<Candle>, rule: int)
    requires rule > 0 && InOrder(c)
    ensures Resample(c, rule) == Folded(c, rule)
  {
    hide Resample, Push, Bin;
    if c == [] {
      ResampleNothing(rule);
    } else {
      var front, last := c[..|c| - 1], c[|c| - 1];
      ResampleIsFold(front, rule);
      BinsIncrease(front, rule);
      BinsIncrease(c, rule);
      if Bin(last.ts, rule) in Bins(front, rule) {
        ExtendLastBin(c, rule);
      } else {
        StartNewBin(c, rule);
      }
    }
  }

  lemma ResampleNothing(rule: int)
    requires rule > 0
    ensures Resample([], rule) == []
  {
  }

  // ---------- what resampling keeps ----------

  predicate ValidCandle(c: Candle) {
    c.low <= c.open <= c.high && c.low <= c.close <= c.high
  }

  /** Volume is conserved. */
  lemma {:induction false} FoldedVolume(c: seq<Candle>, rule: int)
    requires rule > 0
    ensures SumVolume(Folded(c, rule)) == SumVolume(c)
  {
    hide Bin, Push;
    if c != [] {
      FoldedVolume(c[..|c| - 1], rule);
      PushVolume(Folded(c[..|c| - 1], rule), Lift(c[|c| - 1], rule));
    }
  }

  lemma PushValid(bars: seq<Candle>, c: Candle)
    requires ValidCandle(c) && forall b <- bars :: ValidCandle(b)
    ensures forall b <- Push(bars, c) :: ValidCandle(b)
  {
    if bars != [] {
      var last := bars[|bars| - 1];
      assert last in bars;
      assert ValidCandle(Merge(last, c));
      assert forall b <- bars[..|bars| - 1] :: b in bars;
    }
  }

  /** Valid candles give valid bars. */
  lemma {:induction false} FoldedValid(c: seq<Candle>, rule: int)
    requires rule > 0 && forall x <- c :: ValidCandle(x)
    ensures forall b <- Folded(c, rule) :: ValidCandle(b)
  {
    hide Bin;
    if c != [] {
      assert forall x <- c[..|c| - 1] :: x in c;
      FoldedValid(c[..|c| - 1], rule);
      assert c[|c| - 1] in c;
      PushValid(Folded(c[..|c| - 1], rule), Lift(c[|c| - 1], rule));
    }
  }

  lemma PushRises(bars: seq<Candle>, c: Candle)
    requires Increasing(Times(bars)) && (bars != [] ==> bars[|bars| - 1].ts <= c.ts)
    ensures Increasing(Times(Push(bars, c))) && Push(bars, c) != [] && Push(bars, c)[|Push(bars, c)| - 1].ts == c.ts
  {
    TimesIncrease(bars);
    TimesIncrease(Push(bars, c));
  }

  /** Timestamps strictly increase, and the last one is the bin of the last candle. */
  lemma {:induction false} FoldedIncreases(c: seq<Candle>, rule: int)
    requires rule > 0 && InOrder(c)
    ensures Increasing(Times(Folded(c, rule)))
    ensures c == [] ==> Folded(c, rule) == []
    ensures c != [] ==> Folded(c, rule) != [] && Folded(c, rule)[|Folded(c, rule)| - 1].ts == Bin(c[|c| - 1].ts, rule)
  {
    hide Bin, Push, Times, Increasing;
    if c == [] {
      NothingRises();
    } else {
      var front := c[..|c| - 1];
      FoldedIncreases(front, rule);
      if front != [] {
        BinMonotone(front[|front| - 1].ts, c[|c| - 1].ts, rule);
      }
      PushRises(Folded(front, rule), Lift(c[|c| - 1], rule));
    }
  }

  lemma NothingRises()
    ensures Increasing(Times([]))
  {
  }

  lemma PushVolume(bars: seq<Candle>, c: Candle)
    ensures SumVolume(Push(bars, c)) == SumVolume(bars) + c.volume
  {
  }

  lemma PushTwice(bars: seq<Candle>, a: Candle, b: Candle)
    requires a.ts == b.ts
    ensures Push(Push(bars, a), b) == Push(bars, Merge(a, b))
  {
  }

  lemma LiftOfMerge(a: Candle, b: Candle, rule: int)
    requires rule > 0
    ensures Lift(Merge(a, b), rule) == Merge(Lift(a, rule), Lift(b, rule))
  {
    hide Bin;
  }

  lemma LiftTwice(c: Candle, r1: int, r2: int)
    requires r1 > 0 && r2 > 0 && r2 % r1 == 0
    ensures Lift(Lift(c, r1), r2) == Lift(c, r2)
  {
    hide Bin;
    BinOfBin(c.ts, r1, r2);
  }

  lemma FoldedLast(front: seq<Candle>, last: Candle, rule: int)
    requires rule > 0
    ensures Folded(front + [last], rule) == Push(Folded(front, rule), Lift(last, rule))
  {
    hide Bin, Push;
    assert (front + [last])[..|front|] == front;
  }

  /** Folding a frame that one more candle was pushed into. */
  lemma FoldPushed(bars: seq<Candle>, x: Candle, rule: int)
    requires rule > 0
    ensures Folded(Push(bars, x), rule) == Push(Folded(bars, rule), Lift(x, rule))
  {
    hide Bin, Folded, Merge;
    if bars != [] && bars[|bars| - 1].ts == x.ts {
      var front, last := bars[..|bars| - 1], bars[|bars| - 1];
      assert bars == front + [last];
      FoldedLast(front, last, rule);
      FoldedLast(front, Merge(last, x), rule);
      LiftOfMerge(last, x, rule);
      assert Lift(last, rule).ts == Lift(x, rule).ts;
      PushTwice(Folded(front, rule), Lift(last, rule), Lift(x, rule));
    } else {
      FoldedLast(bars, x, rule);
    }
  }

  lemma {:induction false} FoldedComposes(c: seq<Candle>, r1: int, r2: int)
    requires r1 > 0 && r2 > 0 && r2 % r1 == 0
    ensures Folded(Folded(c, r1), r2) == Folded(c, r2)
  {
    hide Bin, Push, Lift;
    if c != [] {
      var front, last := c[..|c| - 1], c[|c| - 1];
      FoldedComposes(front, r1, r2);
      FoldPushed(Folded(front, r1), Lift(last, r1), r2);
      LiftTwice(last, r1, r2);
    }
  }

  /** Resampling by a rule and then by a multiple of it is resampling by the multiple. */
  lemma ResampleComposes(c: seq<Candle>, r1: int, r2: int)
    requires MidnightAligned(r1) && MidnightAligned(r2) && r2 % r1 == 0 && InOrder(c)
    ensures Resample(Resample(c, r1), r2) == Resample(c, r2)
  {
    ResampleIsFold(c, r1);
    ResampleIsFold(c, r2);
    FoldedIncreases(c, r1);
    TimesIncrease(Folded(c, r1));
    ResampleIsFold(Folded(c, r1), r2);
    FoldedComposes(c, r1, r2);
  }

  /** What one resampled frame promises about its source. */
  lemma ResampleKeeps(c: seq<Candle>, rule: int)
    requires rule > 0 && InOrder(c)
    ensures var bars := Resample(c, rule);
            && SumVolume(bars) == SumVolume(c)
            && Increasing(Times(bars))
            && ((forall x <- c :: ValidCandle(x)) ==> forall b <- bars :: ValidCandle(b))
  {
    ResampleIsFold(c, rule);
    FoldedVolume(c, rule);
    FoldedIncreases(c, rule);
    if forall x <- c :: ValidCandle(x) {
      FoldedValid(c, rule);
    }
  }

  // ---------- what a bar says ----------

  lemma BinIs(ts: int, rule: int, bin: int)
    requires rule > 0
    ensures Bin(ts, rule) == bin <==> bin % rule == 0 && bin <= ts < bin + rule
  {
    var q := ts / rule;
    QuotientIs(q * rule, rule, q);
    if bin % rule == 0 && bin <= ts < bin + rule {
      assert bin / rule * rule == bin;
      QuotientIs(ts, rule, bin / rule);
    }
  }

  /** The candles of a bin stand at `from` to `to - 1`. */
  ghost predicate StandAt(c: seq<Candle>, rule: int, bin: int, from: nat, to: nat)
    requires rule > 0
  {
    from <= to <= |c| && forall k :: 0 <= k < |c| ==> (from <= k < to <==> Bin(c[k].ts, rule) == bin)
  }

  /** In time order they are a stretch of the frame. */
  lemma {:induction false} InBinIsStretch(c: seq<Candle>, rule: int, bin: int) returns (from: nat, to: nat)
    requires rule > 0 && InOrder(c)
    ensures StandAt(c, rule, bin, from, to) && from <= to <= |c| && InBin(c, rule, bin) == c[from..to]
  {
    hide Bin, StandAt;
    if c == [] {
      from, to := 0, 0;
      NothingStands(rule, bin);
    } else {
      var front, last := c[..|c| - 1], c[|c| - 1];
      var a, b := InBinIsStretch(front, rule, bin);
      assert front[a..b] == InBin(front, rule, bin);
      from, to := StretchGrows(front, last, rule, bin, a, b);
      assert front + [last] == c;
    }
  }

  lemma NothingStands(rule: int, bin: int)
    requires rule > 0
    ensures StandAt([], rule, bin, 0, 0)
  {
  }

  lemma StretchGrows(front: seq<Candle>, last: Candle, rule: int, bin: int, a: nat, b: nat) returns (from: nat, to: nat)
    requires rule > 0 && InOrder(front) && (front != [] ==> front[|front| - 1].ts <= last.ts)
    requires StandAt(front, rule, bin, a, b)
    ensures StandAt(front + [last], rule, bin, from, to) && from <= to <= |front| + 1
    ensures (front + [last])[from..to] == front[a..b] + if Bin(last.ts, rule) == bin then [last] else []
  {
    hide Bin;
    if Bin(last.ts, rule) == bin {
      StretchReachesEnd(front, last, rule, bin, a, b);
      from, to := if a < b then a else |front|, |front| + 1;
    } else {
      from, to := a, b;
    }
  }

  lemma StretchReachesEnd(front: seq<Candle>, last: Candle, rule: int, bin: int, from: nat, to: nat)
    requires rule > 0 && InOrder(front) && (front != [] ==> front[|front| - 1].ts <= last.ts)
    requires StandAt(front, rule, bin, from, to) && Bin(last.ts, rule) == bin
    ensures from < to ==> to == |front|
  {
    hide Bin;
    if from < to < |front| {
      BinMonotone(front[from].ts, front[|front| - 1].ts, rule);
      BinMonotone(front[|front| - 1].ts, last.ts, rule);
    }
  }

  lemma {:induction false} HighestIs(c: seq<Candle>)
    requires c != []
    ensures forall x <- c :: x.high <= Highest(c)
    ensures exists x <- c :: x.high == Highest(c)
  {
    var last := c[|c| - 1];
    if |c| > 1 {
      var front := c[..|c| - 1];
      HighestIs(front);
      assert forall x :: x in c <==> x in front || x == last;
    } else {
      assert c[0] in c;
    }
  }

  lemma {:induction false} LowestIs(c: seq<Candle>)
    requires c != []
    ensures forall x <- c :: Lowest(c) <= x.low
    ensures exists x <- c :: x.low == Lowest(c)
  {
    var last := c[|c| - 1];
    if |c| > 1 {
      var front := c[..|c| - 1];
      LowestIs(front);
      assert forall x :: x in c <==> x in front || x == last;
    } else {
      assert c[0] in c;
    }
  }

  /** Volume summed from the front. */
  function Traded(c: seq<Candle>): real {
    if c == [] then 0.0 else c[0].volume + Traded(c[1..])
  }

  lemma {:induction false} TradedAppend(c: seq<Candle>, x: Candle)
    ensures Traded(c + [x]) == Traded(c) + x.volume
  {
    if c == [] {
      assert [x][1..] == [];
    } else {
      assert (c + [x])[1..] == c[1..] + [x];
      TradedAppend(c[1..], x);
    }
  }

  lemma {:induction false} VolumeIsTraded(c: seq<Candle>)
    ensures SumVolume(c) == Traded(c)
  {
    if c != [] {
      VolumeIsTraded(c[..|c| - 1]);
      TradedAppend(c[..|c| - 1], c[|c| - 1]);
      assert c[..|c| - 1] + [c[|c| - 1]] == c;
    }
  }

  /** `bar` says of the candles `group` what a bar says: first open, last close, extremes and all the volume. */
  ghost predicate Summarises(bar: Candle, group: seq<Candle>) {
    && group != [] && bar.open == group[0].open && bar.close == group[|group| - 1].close
    && (forall x <- group :: bar.low <= x.low && x.high <= bar.high)
    && (exists x <- group :: x.low == bar.low) && (exists x <- group :: x.high == bar.high)
    && bar.volume == Traded(group)
  }

  /**
    Every bar summarises the stretch of candles stamped from its own timestamp, a multiple of the rule,
    up to one rule later: these and no others.
   */
  lemma BarSummarises(c: seq<Candle>, rule: int, i: nat) returns (from: nat, to: nat)
    requires rule > 0 && InOrder(c) && i < |Resample(c, rule)|
    ensures from < to <= |c| && Resample(c, rule)[i].ts % rule == 0
    ensures var start := Resample(c, rule)[i].ts;
            forall k :: 0 <= k < |c| ==> (from <= k < to <==> start <= c[k].ts < start + rule)
    ensures Summarises(Resample(c, rule)[i], c[from..to])
  {
    hide Resample, Bin, InBin, Bins, Highest, Lowest, SumVolume;
    ResampleLength(c, rule);
    ResampleAt(c, rule, i);
    var bin := Bins(c, rule)[i];
    from, to := InBinIsStretch(c, rule, bin);
    var group := InBin(c, rule, bin);
    HighestIs(group);
    LowestIs(group);
    VolumeIsTraded(group);
    assert c[from..to][0] == c[from];
    BinIs(c[from].ts, rule, bin);
    forall k | 0 <= k < |c|
      ensures Bin(c[k].ts, rule) == bin <==> bin <= c[k].ts < bin + rule
    {
      BinIs(c[k].ts, rule, bin);
    }
  }

  /** And every candle is in some bar. */
  lemma EveryCandleHasBar(c: seq<Candle>, rule: int, k: nat) returns (i: nat)
    requires rule > 0 && k < |c|
    ensures i < |Resample(c, rule)| && Resample(c, rule)[i].ts <= c[k].ts < Resample(c, rule)[i].ts + rule
  {
    hide Resample, Bin;
    var bin := Bin(c[k].ts, rule);
    InItsBin(c, rule, k);
    BinsAreInhabited(c, rule);
    i :| 0 <= i < |Bins(c, rule)| && Bins(c, rule)[i] == bin;
    ResampleLength(c, rule);
    ResampleAt(c, rule, i);
    LiftMergesTs(bin, InBin(c, rule, bin));
    BinIs(c[k].ts, rule, bin);
  }

  lemma {:induction false} InItsBin(c: seq<Candle>, rule: int, k: nat)
    requires rule > 0 && k < |c|
    ensures InBin(c, rule, Bin(c[k].ts, rule)) != []
  {
    hide Bin;
    if k < |c| - 1 {
      InItsBin(c[..|c| - 1], rule, k);
    }
  }

  /** The 15 and 30 minute, 1 and 4 hour and daily frames may be built step by step from any finer one of them. */
  lemma TimeframesChain(c: seq<Candle>)
    requires InOrder(c)
    ensures Resample(Resample(Resample(Resample(c, 900), 1800), 3600), 14_400) == Resample(c, 14_400)
    ensures Resample(Resample(c, 14_400), 86_400) == Resample(c, 86_400)
  {
    ResampleComposes(c, 900, 1800);
    ResampleComposes(c, 1800, 3600);
    ResampleComposes(c, 3600, 14_400);
    ResampleComposes(c, 14_400, 86_400);
  }
}
