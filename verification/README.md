# AT24 platform: a verified model

This project models the parts of the AT24 trading platform whose correctness is a matter of
arithmetic and state, and proves properties of them for all inputs and all runs.

| files | what they model |
|---|---|
| `Engine.dfy`, `EngineRules.dfy`, `EngineMoney.dfy`, `EngineLedger.dfy`, `EngineEntry.dfy`, `EngineStops.dfy`, `EngineBreaker.dfy`, `EngineCausality.dfy`, `EngineSymmetry.dfy`, `EngineDrawdown.dfy` | the backtest engine: the bar loop, stop and target resolution, breakeven and trailing ratchet, partial closes, the daily loss breaker, sizing and the summary |
| `VectorSearch.dfy` | the similarity query: validation, compilation to a parameterised query, SQL three-valued evaluation, ranking |
| `Repositories.dfy`, `RepositoryRefinement.dfy`, `Pagination.dfy`, `Identifiers.dfy` | the in-memory repository, the soft-deleting one, and paginated queries |
| `Resampling.dfy`, `CandleStore.dfy`, `IsoText.dfy` | OHLC resampling, the candle upsert, the range query over timestamps kept as text |
| `OpeningRange.dfy` | the NIFTY opening-range strategy, VWAP and ATR, and the orders sent |
| `CivilDates.dfy`, `AutomationSlots.dfy` | automation slots in IST and their UTC cron, on the calendar of section 21.4.1 of ECMA-262 |
| `DbHealth.dfy` | the single-flight cached database probe, as a protocol over calls and completions |
| `Ordering.dfy`, `Numbers.dfy`, `Wrappers.dfy` | sorted listings, arithmetic, `Option` and `Result` |

## How to read it

- **Engine.** `Backtest.After(k)` is the whole engine state after the bars below `k`, and
  `Openings(k)` the positions as they were entered. `RunBacktest` is the loop, proved equal to it.
  Prices and money are reals; volumes are whole hundredths of a lot; `round(_, 2)` is the nearest
  hundredth, ties to even. A strategy is any function of the bars and a state of its own. The
  contract size and the starting balance are positive.
- **Signal geometry.** The engine does not check that a signal's stop and target lie on the proper
  sides of the entry. Properties that need it ask it of the positions actually opened
  (`AllGeometric`, `TargetOnProfitSide`).
- **Databases.** A table is a map by primary key and has no order of its own; an answer is any
  listing that fits the sort, so rows that tie may come in any order. Cosine distance is any function.
- **Repositories.** The reference for `restore` and `hardDelete`, which the in-memory repository does not
  have, is that repository with a bin for deleted entities (`Reference`).
- **Clocks, identifiers and the environment** are parameters.

## Where the code and its comments differ

- The opening-range strategy is described as taking one trade per side per day. The taken flags
  are never reset, so it is one per side for the life of the object, which is what is proved.
- The knowledge contract describes `scope = user` rows as reaching only their owner. The verified
  branch of the query does not look at the owner; `PrivateRowsStayPrivateIff` gives the exact condition.
- `Date.UTC` reads the years 0 to 99 as 1900 to 1999, so a slot for such a day is put on another
  day; `SlotStaysInDayIff` and `SlotsADayApartIff` give the exact conditions.
- The probe assigns `inFlight` after calling the probe function. If issuing the query raises at
  once, the cleared promise is put back and never cleared again, so a later call can be answered from
  a probe long past; `SingleFlightIff` and `VerdictsAreFreshIff` give the exact conditions.
- A null in a patch is stored by the in-memory repository and ignored by the other one;
  `UpdateAgreesIff` gives the exact condition for one update and `SameAnswersIff` for whole runs.
- The summary reports a drawdown of 0 whenever no row was written, and an account below zero can have
  fallen further than the running-maximum drawdown shows; `ReportedDrawdownIff` gives the exact condition
  for the reported number and `WorstIntoIff` for the measured one point by point.
- Each page is a query of its own, sorted by one field, so rows that tie across a page boundary can be
  shown twice or not at all; `PagesPartitionIff` gives the exact condition.
- Range bounds are compared as text with ISO timestamps: a bound written with a blank instead of `T`
  loses its time of day (`DayBoundIsMidnight`, `BlankBoundCutsIff`).
- The engine's heading mentions money stops and targets; the loop has none.

## Model

| member | source | states |
|---|---|---|
| Numbers.Round2 | quant_engine/engine.py:102 | Rounding to two decimals is off by at most half a unit, and a tie goes to the even neighbour. |
| Engine.Volume | quant_engine/engine.py:136-137 | The volume is at least the minimum lot, and above it the money at risk over the stop distance is within half a hundredth of a lot of the configured risk money. |
| Engine.ManageOpen | quant_engine/engine.py:71-113 | The management block, updating balance, ledger and position in place, refines the per-bar specification the lemmas are about. |
| Engine.MarkEquity | quant_engine/engine.py:115-121 | The equity and breaker block refines the specification. |
| Engine.SeekEntry | quant_engine/engine.py:123-139 | The entry block, including the strategy's state updates, refines the specification whose rules `EngineRules.EntryIff` and `EngineRules.StrategySteps` give in prices and seconds. |
| Engine.RunBacktest | quant_engine/engine.py:45-142 | Under 50 bars nothing is run or reported. Otherwise the loop's ledger and equity curve are those of the state machine after all bars, and the summary is computed from them. |
| Engine.Backtest.StepEffects | quant_engine/engine.py:115-139 | After management a bar only appends an equity point, may trip the breaker, and may enter when nothing is open. |
| Engine.Backtest.EquityStartsAtBalance | quant_engine/engine.py:56-59 | One equity point per processed bar; the first is exactly the starting balance. |
| Engine.RunningMax | quant_engine/engine.py:156 | The running maximum never falls below the first point, so every divisor of the drawdown is positive. |
| EngineRules.KeptIffUntouched | quant_engine/engine.py:77-80 | A bar keeps a position exactly when its whole range lies strictly between stop and target. |
| EngineRules.ExitInPrices | quant_engine/engine.py:77-87 | Otherwise it writes one row for all that is left: at the stop if the range reaches it, else at the target, with the money of that move. |
| EngineRules.ProfitInPrices | quant_engine/engine.py:89 | The profit reaches a threshold exactly when the close stands that many ATRs in the trade's favour. |
| EngineRules.StopInPrices | quant_engine/engine.py:91-99 | The new stop is the best of the old one, so many ATRs beyond entry once the breakeven move is reached, and so many ATRs behind the close once the trailing move is. |
| EngineRules.PartialInPrices | quant_engine/engine.py:101-111 | A kept position is closed in part exactly when partial closes are on, none was taken, the move is reached and the rounded share is some but not all of the lots; the row is at the close for that share. |
| EngineRules.FloatingInPrices | quant_engine/engine.py:115 | The floating result is the move from entry to close in the trade's favour, times lots, times contract size. |
| EngineRules.VolumeRounds | quant_engine/engine.py:136-137 | The volume is the lots that lose the risk money over the stop distance, to the nearest hundredth, and at least 0.01. |
| EngineRules.ClockOfBar | quant_engine/engine.py:52-64 | Days change at midnight and hours on the hour. |
| EngineRules.SessionInSeconds | quant_engine/engine.py:39-42 | A bar is in session exactly when its second of the day lies from the start hour up to the end hour, over midnight when the end is earlier. |
| EngineRules.EntryIff | quant_engine/engine.py:123-139 | A bar enters exactly when nothing is open after its closes, the breaker is off, its time is in session and the strategy's signal has its stop off the quote; the position is the signal's, half a spread from the close, sized from the balance. |
| EngineRules.StrategySteps | quant_engine/engine.py:123-131 | The strategy's state rests while a position is open, moves on when it is asked, and is reset when halted or out of session. |
| EngineRules.BreachInMoney | quant_engine/engine.py:118-121 | The breaker's test in money, for a positive, negative or zero starting balance of the day, and only when the limit is on. |
| EngineRules.SummaryInCounts | quant_engine/engine.py:145-171 | Every number of the summary but the drawdown: rows, SL/TP rows, gaining SL/TP rows per hundred of them, gains over losses, their difference per hundred of the starting balance; zeros and nothing for an empty ledger. |
| EngineMoney.BalanceIsLedger | quant_engine/engine.py:83-86 | At every bar the balance is the starting balance plus the pnl of all ledger rows. |
| EngineMoney.EquityIsBalancePlusFloating | quant_engine/engine.py:115-116 | Each equity point is the cash account at that bar plus the floating result of the position open then; a later entry on the bar does not move it. |
| EngineMoney.WinsPlusLosses | quant_engine/engine.py:151-153 | Gross win minus gross loss is the net result, and neither is negative. |
| EngineMoney.ProfitFactorAgreesWithReturn | quant_engine/engine.py:153-160 | When some money was lost, the profit factor exceeds 1 exactly when the total return is positive, and is 1 exactly at zero; without losses there is none. |
| EngineMoney.ReportedBalanceIsCash | quant_engine/engine.py:159 | The balance recomputed by the summary is the loop's own balance. |
| EngineEntry.SessionsSplitDay | quant_engine/engine.py:39-42 | A session opens at its start, ends at its end and changes at no other hour; a session and the same one turned round split the hours of the day. |
| EngineEntry.EntryFollowsSignal | quant_engine/engine.py:123-139 | Entries happen only at seconds in session, with the breaker off, on the strategy's signal for that bar, with its stop and target, and never with the stop on the entry. |
| EngineEntry.EntryCostsHalfSpread | quant_engine/engine.py:133 | Marked at the same close, a fresh entry has lost exactly half the spread. |
| EngineLedger.ManageSplitsVolume | quant_engine/engine.py:80-111 | One managed bar writes at most one row; it closes all that is left of the position or splits it with at least 0.01 lot remaining. |
| EngineLedger.LedgerShape | quant_engine/engine.py:80-139 | The ledger of every run prefix parses into one cycle per entry: an optional PARTIAL row, then one SL or TP row, each priced from its own position; only the last cycle may be open. |
| EngineLedger.LotsAreConserved | quant_engine/engine.py:102-111 | Volume opened equals volume closed plus volume open; the open remainder is at least 0.01; entries minus SL/TP rows is 0 or 1; PARTIAL rows never outnumber entries. |
| EngineLedger.PositionsNeverOverlap | quant_engine/engine.py:123-139 | Over bars in time order, entry times increase, every row of an earlier entry is written no later than the next entry, and rows come strictly after their own entry. |
| EngineStops.RatchetIsTightest | quant_engine/engine.py:91-99 | The new stop is the tightest among the old one, the breakeven lock if due and the trail if due. |
| EngineStops.ExitIsWorstTouched | quant_engine/engine.py:77-87 | A position closes exactly when the bar's low or high reaches an exit, and at the worst exit reached. |
| EngineStops.ManagedBand | quant_engine/engine.py:88-113 | A managed bar that keeps the position leaves its close at or above the stop and below the target (mirrored for shorts). |
| EngineStops.StopBand | quant_engine/engine.py:71-113 | The same after any managed bar of any run. |
| EngineStops.StopNeverRetreats | quant_engine/engine.py:91-113 | Over the life of a position entry, target and direction are fixed, the stop never moves against it, the volume never grows. |
| EngineStops.SurvivesIffInside | quant_engine/engine.py:71-113 | In a run, an open position survives a bar exactly when the bar's range stays strictly inside its stop and target. |
| EngineStops.LifeInsideExits | quant_engine/engine.py:71-113 | No bar in the life of a position reaches its target or any stop it had had by then. |
| EngineStops.BreakevenLocks | quant_engine/engine.py:91-94 | Reaching the breakeven trigger on a bar that keeps the position puts the stop at entry or better. |
| EngineStops.NoLossAfterBreakeven | quant_engine/engine.py:80-113 | From then on no row of that position loses money, up to and including the one that closes it, on every later bar of every run, with partial closes off, a positive partial threshold, or over bars that close inside their range. |
| EngineBreaker.BreakerIsFloor | quant_engine/engine.py:118-121 | With a positive day-start balance the percentage test is a comparison of the balance with a floor. |
| EngineBreaker.HaltedIffBreachedToday | quant_engine/engine.py:64-66 | The day is measured from the balance carried into it, and entries are halted exactly when the balance after some bar of that day breached the limit. |
| EngineBreaker.NoEntryAfterHalt | quant_engine/engine.py:118-128 | Once halted, nothing is entered and the halt stays for the rest of the calendar day. |
| EngineBreaker.ManageLossBound | quant_engine/engine.py:80-113 | A bar that keeps a position loses at most the risk of the lots it closes, nothing with partial closes off or a positive threshold; one that closes it loses at most the rest of its initial risk. |
| EngineBreaker.DailyLossIsBounded | quant_engine/engine.py:118-139 | With partial closes off, a positive partial threshold, or over bars that close inside their range, the realised result of a day never falls below minus the limit by more than the initial risk of the last position opened; while a position is open the balance is above the floor but for its own partial closes. |
| EngineBreaker.EntryRiskIsSized | quant_engine/engine.py:134-139 | That initial risk is at most the minimum lot over the stop distance, or the risk money plus half a hundredth of a lot over it. |
| EngineBreaker.DayLossIsSized | quant_engine/engine.py:118-139 | Sizing and breaker together: the realised result of a day never falls below minus the limit by more than the risk money, or minimum lot, of the last entry. |
| EngineBreaker.EquityLossIsSized | quant_engine/engine.py:115-139 | The same for every equity point, floating loss included, on a bar that closes inside its range. |
| EngineCausality.NoLookAhead | quant_engine/engine.py:62-139 | Bars that agree up to k, and a strategy that reads no later bar, give the same engine and strategy state, ledger, equity and entries up to k. |
| EngineCausality.RecordsGrow | quant_engine/engine.py:85-116 | Ledger and equity curve are only appended to. |
| EngineCausality.PrefixRun | quant_engine/engine.py:62-139 | The run on a prefix of the bars gives a prefix of the ledger and equity of the whole run. |
| EngineSymmetry.MirrorRun | quant_engine/engine.py:71-139 | Negating prices and mirroring signals gives the same balance, equity, volumes, reasons and pnl with prices and directions mirrored, for every run. |
| EngineSymmetry.MirrorSummary | quant_engine/engine.py:145-171 | The mirrored run has the same summary. |
| EngineDrawdown.ReportedDrawdownIff | quant_engine/engine.py:145-168 | The drawdown in the summary is the worst fall over all pairs of points exactly when: with an empty ledger, equity never falls; otherwise, the account never went negative or fell deepest straight from its first value, the only positive one until then. |
| EngineDrawdown.DrawdownIsSomeFall | quant_engine/engine.py:156-157 | On any curve the measured drawdown is the fall from a running maximum to some later point. |
| EngineDrawdown.WorstIntoIff | quant_engine/engine.py:156-157 | Point by point, it is the worst fall into a point exactly when the point is not negative or every positive earlier point is the peak. |
| EngineDrawdown.RunCanHideAFall | quant_engine/engine.py:45-171 | A run of 50 bars with a closed row whose summary reports 200 % where equity fell by 5100 % from an earlier point. |
| EngineDrawdown.RunCanReportNothing | quant_engine/engine.py:45-148 | A run of 50 bars that ends with its position open, 98 % down, and reports a drawdown of 0. |
| EngineDrawdown.ReportedZeroIff | quant_engine/engine.py:145-168 | The reported drawdown is never positive, and zero exactly when the ledger is empty or equity never falls. |
| EngineDrawdown.ReportedBelowIff | quant_engine/engine.py:145-168 | It is below -100 % exactly when the account went negative and some row was written. |
| VectorQuery.EvalStable | frontend/repositories/VectorRepository.ts:151-243 | Pushing further arguments does not change what an already written condition means. |
| VectorQuery.AddCondition | frontend/repositories/VectorRepository.ts:161-172 | A condition pushed together with its arguments keeps every placeholder bound and every argument used, and narrows the rows by exactly its own truth. |
| VectorQuery.RowsAre | frontend/repositories/VectorRepository.ts:155-192 | Without scopes every chunk is a row; with them those whose knowledge row exists, next to it. |
| VectorSearch.CompileUnscoped | frontend/repositories/VectorRepository.ts:153-181 | Without scopes: blank identifiers are refused by name, every `$k` is the argument pushed for it, and the WHERE accepts exactly the live chunks of the given document and user. |
| VectorSearch.BranchMeaning | frontend/repositories/VectorRepository.ts:205-226 | Under three-valued logic the two branches are true exactly for verified rows and for the caller's own rows, over exactly the arguments 2 and up. |
| VectorSearch.EligibilityRule | frontend/repositories/VectorRepository.ts:153-243 | The whole rule in one formula over stored columns and parameters as given. |
| VectorSearch.IdsRule | frontend/repositories/VectorRepository.ts:160-233 | Which identifiers are refused on which path, all members of a list included. |
| VectorSearch.BlankIffTrimsAway | frontend/repositories/VectorRepository.ts:85-90 | An identifier is refused exactly when trimming both ends leaves nothing. |
| VectorSearch.SpaceCodes | frontend/repositories/VectorRepository.ts:86 | White space by code point. |
| VectorSearch.CompileScoped | frontend/repositories/VectorRepository.ts:182-243 | With scopes: the refusals in order, all placeholders exact, and the WHERE accepts exactly the rows of the eligibility rule (deletion, succession, expiry, scope, lifecycle, visibility, ownership, pin). |
| VectorSearch.AnswersAreTopEligible | frontend/repositories/VectorRepository.ts:235-260 | Any answer the database may give is the most similar eligible rows, best first, each once, as many as the limit allows, with no better row omitted. |
| VectorSearch.SearchSimilar | frontend/repositories/VectorRepository.ts:140-265 | Validation order with the error of each step, the first blank identifier refused by name, success exactly for 768 dimensions, a whole topK from 1 and valid identifiers; the top min(topK, 100) eligible rows, each result showing an eligible chunk's own columns and 1 minus its distance, most similar first, of the document and user asked for. |
| VectorSearch.ResultsShowRows | frontend/repositories/VectorRepository.ts:245-261 | Each result shows the chunk of its row, column by column. |
| VectorSearch.SelectedRowsPassRecheck | frontend/services/knowledge-loop/knowledge/retrieval.ts:79-88 | The re-check applied on hydration never drops a row the scoped query let through. |
| VectorSearch.RecheckRule | frontend/services/knowledge-loop/knowledge/retrieval.ts:79-88 | What the re-check asks of a row, status by status. |
| VectorSearch.PrivateRowsStayPrivateIff | frontend/repositories/VectorRepository.ts:205-225 | Private rows reach only their owner exactly when `user` is not among the requested scopes. |
| Repositories.MemoryRepository.constructor | frontend/repositories/BaseRepository.ts:16-20 | Seeding keeps the last item of each identifier, in the order the identifiers first appear. |
| Repositories.MemoryRepository.Update | frontend/repositories/BaseRepository.ts:63-78 | The in-place update refines the Map specification. |
| RepositoryModel.UpdatedFields | frontend/repositories/BaseRepository.ts:69-78 | An update sets each field the patch gives and the time, and keeps the others, the identifier and the creation time; the table's ignores nulls. |
| Repositories.PrismaRepository.FindMany | frontend/repositories/PrismaBaseRepository.ts:106-114 | The rows returned are a window of a sorted listing of exactly the matching rows. |
| Repositories.PrismaRepository.Create | frontend/repositories/PrismaBaseRepository.ts:125-134 | A duplicate key is refused and changes nothing; otherwise one live row is added. |
| Repositories.PrismaRepository.Delete | frontend/repositories/PrismaBaseRepository.ts:155-168 | A live row is only marked; a missing or already deleted one answers false. |
| Repositories.PrismaRepository.HardDelete | frontend/repositories/PrismaBaseRepository.ts:171-180 | The row is gone whether live or not; a missing one answers false. |
| Repositories.PrismaRepository.Restore | frontend/repositories/PrismaBaseRepository.ts:182-190 | The row is live again; a missing one is an error. |
| Repositories.PrismaRepository.Query | frontend/repositories/PrismaBaseRepository.ts:200-241 | The page and its counters are cut from one listing of the matching rows; an undefined filter value is no condition. |
| RepositoryRefinement.EmptyInStep | frontend/repositories/BaseRepository.ts:13-20 | Both repositories start out empty and in step. |
| RepositoryRefinement.NextSimulates | frontend/repositories/PrismaBaseRepository.ts:125-168 | Every operation keeps the Map equal to the live rows in creation order. |
| RepositoryRefinement.AnswersAgree | frontend/repositories/PrismaBaseRepository.ts:106-196 | Every operation is answered alike by both, `findAll` order included. |
| RepositoryRefinement.CommandAgrees | frontend/repositories/PrismaBaseRepository.ts:106-196 | The same for operations, restores and permanent removals against the Map with a bin for deleted entities, a restored one going back to its place by creation time. |
| RepositoryRefinement.ReferenceIsMap | frontend/repositories/BaseRepository.ts:41-86 | On the contract's own operations that reference is the in-memory repository. |
| RepositoryRefinement.SameAnswers | frontend/repositories/PrismaBaseRepository.ts:106-196 | Any run of operations, restores and permanent removals, in any order and however far apart, has exactly the answers of the reference, provided nulls in patches fall on nulls. |
| RepositoryRefinement.SameAnswersIff | frontend/repositories/PrismaBaseRepository.ts:106-196 | With fresh identifiers and rising creation times, the reference's answers are the table's exactly under that proviso. |
| RepositoryRefinement.RestoreUndoesDelete | frontend/repositories/PrismaBaseRepository.ts:155-190 | Deleting and restoring gives back the live view, the row at its old position with a new update time, and not found in between. |
| RepositoryRefinement.HardDeleteSimulates | frontend/repositories/PrismaBaseRepository.ts:171-180 | Permanent removal is the Map's delete on a live row and invisible on a deleted one. |
| RepositoryRefinement.UpdateAgreesIff | frontend/repositories/BaseRepository.ts:69-78 | The two agree on an update exactly when every null in the patch falls on a field that is null already. |
| Pagination.HasNextIffRowsRemain | frontend/repositories/PrismaBaseRepository.ts:202-239 | Whatever page and size are asked for, `hasNext` holds exactly when rows remain past the page. |
| Pagination.PageShowsMatchesOnly | frontend/repositories/PrismaBaseRepository.ts:210-213 | Pages show only matching rows, and no soft-deleted one unless asked for, whatever the filter says. |
| Pagination.MembersAre | frontend/repositories/PrismaBaseRepository.ts:210-213 | A query ranges over exactly the stored rows that carry every filter value given, live ones unless deleted rows are asked for. |
| Pagination.PageInSortOrder | frontend/repositories/PrismaBaseRepository.ts:215-225 | A page is newest first without a sort, otherwise upwards or downwards by the field as asked. |
| Pagination.JoinedInSortOrder | frontend/repositories/PrismaBaseRepository.ts:215-225 | So are pages that join up. |
| Pagination.PageNumbers | frontend/repositories/PrismaBaseRepository.ts:200-239 | The page asked for from 1, 20 items unless a size is asked for, cut to 1 to 100, the least number of pages that covers every row, and as many items as remain. |
| Pagination.PagesPartitionIff | frontend/repositories/PrismaBaseRepository.ts:200-239 | Over an unchanged table the pages 1 to totalPages join up to one sorted list with each row once, whatever order the database gives tied rows in each query, exactly when no tie straddles a page boundary. |
| Pagination.PagesPartition | frontend/repositories/PrismaBaseRepository.ts:200-239 | Without a tie across a boundary, pages fetched by queries of their own join up. |
| Pagination.TiedRowsCanRepeat | frontend/repositories/PrismaBaseRepository.ts:215-224 | With a tie across any boundary the database may give pages that show one row on both sides of it and do not join up. |
| Identifiers.Base36RoundTrip | frontend/repositories/BaseRepository.ts:22-30 | Reading a base-36 numeral back gives the number. |
| Identifiers.IdReadsBack | frontend/repositories/BaseRepository.ts:22-30 | An identifier comes apart into prefix, clock reading and count. |
| Identifiers.IdsDiffer | frontend/repositories/BaseRepository.ts:22-30 | Identifiers with different counters differ, whatever prefix and clock. |
| Identifiers.IdGenerator.GenerateId | frontend/repositories/BaseRepository.ts:22-30 | A new identifier differs from every one the counter could have given before. |
| Resampling.AnchorDoesNotMatter | quant_engine/data_import.py:10-17 | For rules that divide a day the bins are the same from whichever midnight they are counted. |
| Resampling.ResampleIsFold | quant_engine/data_import.py:13-17 | On rows in time order, grouping by bin and aggregating is folding the rows in one at a time. |
| Resampling.BarSummarises | quant_engine/data_import.py:13-17 | Every bar is the first open, last close, extremes and volume of exactly the candles stamped from its own timestamp, a multiple of the rule, up to one rule later. |
| Resampling.EveryCandleHasBar | quant_engine/data_import.py:13-17 | Every candle is in some bar. |
| Resampling.ResampleKeeps | quant_engine/data_import.py:13-17 | Volume is conserved, timestamps strictly increase, valid candles give valid bars. |
| Resampling.ResampleComposes | quant_engine/data_import.py:43-44 | Resampling by a rule and then by a multiple of it is resampling by the multiple. |
| Resampling.TimeframesChain | quant_engine/data_import.py:60-61 | The timeframes in use may be built from one another. |
| IsoText.TextOrderIsTimeOrder | quant_engine/data_import.py:22-73 | Comparing two stored timestamps as text is comparing the times. |
| IsoText.ParsesBack | quant_engine/data_import.py:22-74 | Reading a stored timestamp gives the time it was written from. |
| IsoText.DayBoundIsMidnight | quant_engine/data_import.py:70-73 | A bound that is a bare date, or a date and a time with a blank between them, cuts at midnight of the date whatever the time of day. |
| IsoText.BlankBoundCutsIff | quant_engine/data_import.py:70-73 | A bound with a blank cuts at its own time exactly when that time is midnight. |
| CandleStore.Database.StoreCandles | quant_engine/data_import.py:20-27 | Writing a frame replaces exactly its own keys, the last row of a timestamp winning. |
| CandleStore.Database.LoadCandles | quant_engine/data_import.py:64-76 | The frame returned lists exactly the rows of the series whose timestamp text lies in the half-open range of the bounds' texts, in text order; absent and empty bounds add no condition. |
| CandleStore.EmptyBoundIsNone | quant_engine/data_import.py:69-72 | An empty bound is no bound. |
| CandleStore.LoadsTimeRange | quant_engine/data_import.py:64-76 | With bounds in the stored format that is exactly the candles from start up to end, in strictly increasing time order. |
| CandleStore.LoadAfterStore | quant_engine/data_import.py:20-27 | Importing a frame into an empty series and loading the series gives the frame back. |
| CandleStore.StoreIsIdempotent | quant_engine/data_import.py:24-26 | Importing the same frame again changes nothing. |
| CandleStore.OtherSeriesUntouched | quant_engine/data_import.py:20-27 | Other symbols and timeframes are not affected. |
| CandleStore.RangesJoin | quant_engine/data_import.py:69-73 | Adjacent ranges, with any texts as bounds, join to the whole range, no candle lost or doubled. |
| OpeningRange.ComputeVwap | frontend/private-releases/cmu5qa1lz00006ktpb0n5ht9n.py:93-99 | The loop computes the volume-weighted mean of typical prices, or nothing without volume. |
| OpeningRange.ComputeAtr | frontend/private-releases/cmu5qa1lz00006ktpb0n5ht9n.py:102-108 | The loop computes the mean of the last true ranges. |
| OpeningRange.VwapInsideRange | frontend/private-releases/cmu5qa1lz00006ktpb0n5ht9n.py:93-99 | VWAP lies between the lowest low and the highest high, and is missing exactly when nothing traded. |
| OpeningRange.VwapIsTurnover | frontend/private-releases/cmu5qa1lz00006ktpb0n5ht9n.py:93-99 | VWAP times the volume is the turnover, each candle counting with the mean of its high, low and close. |
| OpeningRange.AtrIsMeanSpan | frontend/private-releases/cmu5qa1lz00006ktpb0n5ht9n.py:102-108 | Behind the guard ATR is the mean, over the last candles, of the span from the previous close through low and high. |
| OpeningRange.AtrInsideWindow | frontend/private-releases/cmu5qa1lz00006ktpb0n5ht9n.py:102-108 | ATR lies between the least and greatest true range of its window and is not negative. |
| OpeningRange.GuardFillsWindow | frontend/private-releases/cmu5qa1lz00006ktpb0n5ht9n.py:137-142 | Behind the guard of `on_bar` the window is exactly the period long. |
| OpeningRange.NiftyORBStrategy.ComputeOpeningRange | frontend/private-releases/cmu5qa1lz00006ktpb0n5ht9n.py:121-130 | The range becomes the highest high and lowest low, and stays as it was when no candle came. |
| OpeningRange.NiftyORBStrategy.HandleBar | frontend/private-releases/cmu5qa1lz00006ktpb0n5ht9n.py:132-162 | One bar updates fields and orders as the state machine says. |
| OpeningRange.RangeTaken | frontend/private-releases/cmu5qa1lz00006ktpb0n5ht9n.py:121-130 | Candles set the range to extremes that are reached, and nothing else; no candles change nothing. |
| OpeningRange.EntersIff | frontend/private-releases/cmu5qa1lz00006ktpb0n5ht9n.py:132-170 | A flat bar buys exactly when it closes above range and VWAP and buying is not spent, sells exactly when below both and selling is not spent; stop, target and quantity are as configured. |
| OpeningRange.LeavesIff | frontend/private-releases/cmu5qa1lz00006ktpb0n5ht9n.py:133-188 | An open position leaves exactly at square-off or on a close not strictly inside its bracket, by the opposite order. |
| OpeningRange.OrderLedger | frontend/private-releases/cmu5qa1lz00006ktpb0n5ht9n.py:132-188 | After any events the quantities sent net to the open position, entries and exits alternate, and with one shot on the object's life has at most one entry per side and four orders. |
| OpeningRange.FlatAfterSquareOff | frontend/private-releases/cmu5qa1lz00006ktpb0n5ht9n.py:133-135 | After any bar at or past square-off nothing is open and every entry has its exit. |
| OpeningRange.SignalsExclude | frontend/private-releases/cmu5qa1lz00006ktpb0n5ht9n.py:145-154 | The range is ordered, so long and short signals exclude each other. |
| OpeningRange.PositionIsBracketed | frontend/private-releases/cmu5qa1lz00006ktpb0n5ht9n.py:164-170 | An open position always has its entry between stop and target. |
| OpeningRange.LeavesBracketIff | frontend/private-releases/cmu5qa1lz00006ktpb0n5ht9n.py:172-180 | A managed position is closed exactly when the close is no longer strictly between its stop and its target. |
| CivilDates.YearLength | frontend/config/automation-slots.ts:102-106 | Consecutive years start 365 or 366 days apart by the leap rule. |
| CivilDates.EpochDay | frontend/config/automation-slots.ts:102-106 | Days are counted from 1 January 1970. |
| CivilDates.MonthLengths | frontend/config/automation-slots.ts:102-106 | The lengths of the months. |
| CivilDates.CivilRoundTrip | frontend/config/automation-slots.ts:102-106 | A day taken apart into year, month and date is put together to the same day. |
| CivilDates.CivilRoundTripBack | frontend/config/automation-slots.ts:102-106 | A real date made into a day comes apart into the same date. |
| AutomationSlots.SlotStaysInDayIff | frontend/config/automation-slots.ts:99-116 | The slot falls in the anchor's IST day exactly when the IST year is not 0 to 99, and then on the same weekday. |
| AutomationSlots.CronIsFiveAndAHalfHoursEarlier | frontend/config/automation-slots.ts:42-50 | The cron's UTC time is the slot's, five and a half hours earlier round the clock. |
| AutomationSlots.InstantShowsWallClock | frontend/config/automation-slots.ts:99-108 | The instant, five and a half hours on, shows the slot's wall-clock time of its day. |
| AutomationSlots.WeekdaysFollow | frontend/config/automation-slots.ts:111-116 | Weekdays follow one another from IST midnight to IST midnight, and 1 January 2000 was a Saturday. |
| AutomationSlots.InstantFiresCron | frontend/config/automation-slots.ts:42-108 | The slot's instant carries exactly the cron's UTC minute and hour. |
| AutomationSlots.OneFiringPerDay | frontend/config/automation-slots.ts:94-108 | Within one IST day the cron fires at the slot's instant and at no other time. |
| AutomationSlots.SlotIdempotent | frontend/config/automation-slots.ts:99-108 | Asking again from the instant itself changes nothing, for every anchor. |
| AutomationSlots.SlotsADayApartIff | frontend/config/automation-slots.ts:99-108 | On consecutive IST days the instants are exactly 86400000 ms apart, unless one of the days lies in the years 0 to 99 and the other does not, or the first is 29 February of the year 0, which gets the instant of the day after. |
| DbHealth.Health.IsDatabaseReachable | frontend/lib/db-health.ts:32-41 | The call up to its await steps the protocol and answers as it does. |
| DbHealth.Health.IsDatabaseReachableCached | frontend/lib/db-health.ts:45-57 | The synchronous reader steps the protocol and answers as it does. |
| DbHealth.Health.WarmDatabaseProbe | frontend/lib/db-health.ts:60-64 | The warm-up steps the protocol. |
| DbHealth.Health.ProbeEnd | frontend/lib/db-health.ts:20-28 | A settled query records its verdict and clears the flight. |
| ProbeSafety.SingleFlightIff | frontend/lib/db-health.ts:17-41 | In every interleaving at most one probe is pending and it is the one waited for, exactly as long as no query raised at once; after that no probe is ever started again. |
| ProbeSafety.ProbesStartWhenDue | frontend/lib/db-health.ts:32-64 | A probe is started exactly when none is promised and, for the readers, none completed in the last 30 s, for the warm-up, none completed at all. |
| ProbeSafety.NeverUnknownAgain | frontend/lib/db-health.ts:10-29 | The state never returns to unknown. |
| ProbeSafety.VerdictsAreFreshIff | frontend/lib/db-health.ts:32-41 | The reply to a call is the last verdict, under 30 s old, or a promise pending or completed under 30 s before, exactly unless an earlier query raised at once and its verdict has gone stale. |
| ProbeSafety.WaitEndsLater | frontend/lib/db-health.ts:37-40 | Whenever a call waits for a pending probe, the one completion it gets is recorded after the call. |
| ProbeSafety.CachedAnswersLast | frontend/lib/db-health.ts:45-57 | The synchronous reader answers with the last completed probe, one that raised at once included, and with the environment before the first. |
| ProbeSafety.WedgedAnswersDown | frontend/lib/db-health.ts:17-41 | After a query raised at once every call gets failure, at once or from the settled promise. |

## Left out

- Floating-point error, and the display rounding of the summary.
- Indicator computation and the dropping of incomplete rows: the model starts from the complete bars.
- Signal logic of the strategies: any function of the bars and a state of its own.
- A strategy's `direction` other than 1 and -1.
- NaN and missing values in candles; time zones of stored timestamps.
- SQL text itself: conditions are trees, columns and placeholders are names and numbers; the cosine distance of a zero vector.
- `storeEmbedding`: one parameterised update.
- Error translation, logging, transactions and the concrete field mappings of the repositories built on the base classes.
- Fractions of a second in timestamps.
- Page numbers and sizes that are not whole numbers.
- Broker calls that fail; candles are given to the strategy instead of fetched.
- Times outside the range a Date can hold, and the text of the cron expression around its two fields.
- The environment variable and the query behind the probe: the first is a parameter, the second an event.
- The Node engine, the MQL importer, the bots over external platforms, the UI, the bridge and the scripts.
