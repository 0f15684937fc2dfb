# tink-tr trade reconstruction, as a Dafny model

tink-tr is a trading assistant for a Tinkoff Invest brokerage account. It reconstructs round-trip
trades and their profit from the broker's operation history. It also sizes orders for a signal
bot and reads the results tables of a manual trading log. This project models the computing core
of those parts and proves what they promise.

- **`ProfitCalculator`** (`app/utils/profit_calculator.py`) is modelled as a `class` whose fields
  are the lot lists, completed trades, fee buffer, margin list and trading sessions. Its methods
  update those fields in place.
  - The operations are first sorted by date. Broker fees and variation-margin payments go to
    their two pools.
  - The buys and sells of each FIGI are then walked from its starting position. A position that
    changes sign closes a session; the crossing operation is split in proportion to quantity.
  - Each session is finalized when it is stored. It claims the unassigned fees (±300 s tolerance)
    and margin of its time window. Its net profit is gross minus fees plus margin.
  - The sessions become trades and their net profits are summed.
  - Every method is proved to leave exactly the state a pure specification function describes
    (`Reconstruct`, `SessionsForFigi`, `Finalize`, `Claim`, `CloseLots`, …). The properties are
    proved about those functions.
  - The older FIFO lot matching (`_process_buy_operation` and friends) is modelled in the same
    way. So are the weekly and monthly period splitters, the real-profit sum over a window and
    the starting-position analysis.
- **The signal bot** (`app/main.py`) covers:
  - the dashboard's pairing of full-size opposite trades into marks (`calc_trades`, which
    reverses its argument in place);
  - the buy and sell order sizes;
  - the retry delay around the exchange's clearing breaks.
- **The table scripts** (`improved_table_analyzer.py`, `analyze_table_data.py`) cover:
  - the Russian money-format and date cell parsers;
  - the row-folding loops that build the per-day records and the weekly lists;
  - the mock operations generated from the day records.
- **The account set-up script** (`m.py`) covers:
  - the `.env` lookup and update on the file's text, with a round trip and idempotence;
  - the brokerage-account filter and the account prompt.
- **`is_quantity_valid`** (`app/utils/quantity.py`) is modelled as well.

Modelling choices:

- **Time** is whole seconds since 0001-01-01 00:00 in the operation's own clock. The calendar
  (weekday, month starts, `strftime` of session ids) is computed from that.
- **Money** is `real`, so floating-point rounding is not modelled.
- **Quantities** are natural numbers.
- **Errors.** A `ZeroDivisionError` that the source would raise, from a buy or sell of quantity
  zero, is an explicit `Failure`. So are the `ValueError`s of `float()` and `int()`. When a whole
  run fails, the calculator's state is left unspecified: the source has by then already filed the
  fees and margin and stored the sessions of earlier FIGIs.

Behaviour of the code worth knowing when reading the model:

- **The crossing operation is split.** An operation whose position change crosses zero
  (`app/utils/profit_calculator.py:779-807`) puts the quantity that closes the old position into
  the closing session and only the remainder into a new session.
- **Entry and exit prices.** `_create_trade_from_session` (`app/utils/profit_calculator.py:1041-1042`)
  always takes the average sell price as the entry and the average buy price as the exit,
  whatever the direction.

## Model

| member | source | states |
|---|---|---|
| Calculator.ProfitCalculator.constructor | app/utils/profit_calculator.py:75-77 | a new calculator keeps the timezone offset and starts with no lots, trades, fees, margin or sessions |
| Calculator.ProfitCalculator.Reset | app/utils/profit_calculator.py:79-85 | all five collections are emptied and the lot bookkeeping is valid again |
| Calculator.ProfitCalculator.ProcessFeeOperation | app/utils/profit_calculator.py:491-498 | the fee buffer grows by exactly one unassigned entry holding the fee's absolute payment |
| Calculator.ProfitCalculator.ProcessMarginOperation | app/utils/profit_calculator.py:500-507 | the margin list grows by exactly one unassigned entry holding the signed payment |
| Calculator.ProfitCalculator.GetFeesForSession | app/utils/profit_calculator.py:934-964 | the buffer after the loop and the returned total are those of `Claim` on the window shifted back by the offset: eligible fees flagged, all others untouched, total = what got flagged |
| Calculator.ProfitCalculator.GetVariationMarginForSession | app/utils/profit_calculator.py:966-994 | the same for variation margin, with an exact time window |
| Calculator.ProfitCalculator.FinalizeSession | app/utils/profit_calculator.py:902-932 | the finalized session and both pools are those of `Finalize`, whose properties `Claims.FinalizeFacts` states |
| Calculator.ProfitCalculator.ProcessPositionChange | app/utils/profit_calculator.py:773-831 | fails exactly when the position rule fails (a zero quantity), leaving sessions and pools unchanged; otherwise returns the open session and stores the one closed at a sign change, finalized |
| Calculator.ProfitCalculator.CreateSessionsForFigi | app/utils/profit_calculator.py:740-771 | reports an error exactly when the FIGI's walk fails; otherwise the stored sessions grow by the FIGI's sessions finalized in order, and the pools are left as that finalization leaves them |
| Calculator.ProfitCalculator.CloseOldestLots | app/utils/profit_calculator.py:321-345 | the FIGI's lots, the trades appended, the quantity left and the exhausted flag are those of the FIFO matching `CloseLots`; other FIGIs untouched |
| Calculator.ProfitCalculator.ProcessBuyOperation | app/utils/profit_calculator.py:316-358 | the FIGI's lots and the new trades are those of `ProcessBuy`, and lot bookkeeping stays valid |
| Calculator.ProfitCalculator.HandleShortPosition | app/utils/profit_calculator.py:418-437 | the FIGI's lots become those of `HandleShort` (a short lot only when no buy lot is unprocessed) |
| Calculator.ProfitCalculator.ProcessSellOperation | app/utils/profit_calculator.py:360-398 | the FIGI's lots and the new trades are those of `ProcessSell`, and lot bookkeeping stays valid |
| Calculator.ProfitCalculator.GroupByFigi | app/utils/profit_calculator.py:730-733 | the FIGIs come out in order of first appearance, the group keys are exactly those FIGIs, and each group is that FIGI's operations in input order |
| Calculator.ProfitCalculator.GroupOperationsIntoSessions | app/utils/profit_calculator.py:713-738 | fails exactly when some FIGI's walk fails; otherwise the stored sessions are all FIGIs' sessions finalized in first-appearance order |
| Calculator.ProfitCalculator.ConvertSessionsToTrades | app/utils/profit_calculator.py:996-1001 | one trade is appended per stored session, in order |
| Calculator.ProfitCalculator.ClassifyOperations | app/utils/profit_calculator.py:122-137 | fees are appended to the fee buffer, margin to the margin list, buys and sells are returned in order, and the classification is that of `Reconstruction.Classify` |
| Calculator.ProfitCalculator.SumNetProfit | app/utils/profit_calculator.py:147 | the total is the sum of the trades' net profits |
| Calculator.ProfitCalculator.ProcessOperationsWithStartingPositions | app/utils/profit_calculator.py:103-149 | fails exactly when the whole-run specification `Reconstruct` fails; otherwise the trades, the total, the sorted operations, the stored sessions and both pools are all those of `Reconstruct` |
| Calculator.ProfitCalculator.ProcessOperations | app/utils/profit_calculator.py:91-101 | the same with no starting positions |
| Calculator.StoreExtends | app/utils/profit_calculator.py:806-807 | storing each session finalized as it closes leaves the same list and pools as finalizing all closed sessions in order |
| Calculator.WalkStepStored | app/utils/profit_calculator.py:747-763 | one step of the per-FIGI loop keeps the stored sessions and pools equal to finalizing the walk's closed sessions, or the whole walk fails |
| Calculator.SessionsOfFigisStep | app/utils/profit_calculator.py:736-738 | one more FIGI appends its sessions after the earlier FIGIs' sessions, or the whole grouping fails |
| Operations.SortByDate | app/utils/profit_calculator.py:121 | the sorted list is a permutation of the input |
| Operations.SortByDateSorted | app/utils/profit_calculator.py:121 | the result is ordered by date |
| Operations.SortSortedIdentity | app/utils/profit_calculator.py:742 | sorting a list that is already ordered by date returns it unchanged |
| Operations.FilterSortCommutes | app/utils/profit_calculator.py:121 | the sort is stable: filtering the sorted list equals sorting the filtered list |
| Operations.FilterMembers | app/utils/profit_calculator.py:133-137 | an operation is kept exactly when it was in the input and satisfies the test |
| Operations.FigiOrder | app/utils/profit_calculator.py:731-736 | the FIGIs listed are distinct, and a FIGI is listed exactly when some operation has it |
| Reconstruction.Classify | app/utils/profit_calculator.py:125-137 | the trading list is exactly the input's buys and sells in order; each fee and margin entry is a fee or margin operation, unassigned |
| Reconstruction.ClassifyKeepsRecognised | app/utils/profit_calculator.py:125-137 | when every operation type is recognised, each operation lands in exactly one of the three lists |
| Reconstruction.SessionsOfFigis | app/utils/profit_calculator.py:713-738 | every session produced has at least one operation |
| Reconstruction.SessionsOfFigisFails | app/utils/profit_calculator.py:735-738 | building the sessions fails exactly when some listed FIGI has a zero-quantity buy or sell |
| Reconstruction.ZeroTradeByFigi | app/utils/profit_calculator.py:730-738 | some FIGI's group has a zero-quantity trade exactly when the whole trading list has one |
| Reconstruction.ReconstructFailsIff | app/utils/profit_calculator.py:103-149 | the whole run fails exactly when the input has a buy or sell of quantity zero |
| Reconstruction.ReconstructFacts | app/utils/profit_calculator.py:103-149 | a successful run returns a date-sorted permutation of the input, one trade per session, total = sum of session net profits, and each pool's assigned amount equals the fees or margin charged to sessions |
| Reconstruction.Reconstruct | app/utils/profit_calculator.py:103-149 | the whole run, specified by `Reconstruction.ReconstructFailsIff` (fails exactly on a zero-quantity buy or sell) and `Reconstruction.ReconstructFacts` (sorted permutation, one trade per session, total = sum of session nets, pools assigned exactly the sessions' fees and margin) |
| Reconstruction.FinishTrades | app/utils/profit_calculator.py:143-149 | the trades mirror the finalized sessions one for one; each session keeps its records and has net = gross − fees + margin |
| Reconstruction.FinishConserves | app/utils/profit_calculator.py:934-994 | starting from unassigned pools, what got flagged as assigned is exactly what the sessions were charged; no pool entry is lost |
| Reconstruction.ResortIsIdentity | app/utils/profit_calculator.py:742 | the per-FIGI re-sort is a no-op on operations that were already sorted |
| Sessions.AddSlice | app/utils/profit_calculator.py:833-873 | adding a slice appends one record and moves the session's end time to the operation's date |
| Sessions.AddSliceTotals | app/utils/profit_calculator.py:833-873 | a buy slice raises the bought quantity and amount, a sell slice the sold ones, by exactly the slice |
| Sessions.SlicesSum | app/utils/profit_calculator.py:835-836 | the two proportional payment slices of one operation add up to its absolute payment |
| Sessions.CrossingSplits | app/utils/profit_calculator.py:779-807 | on a sign change the old session is closed with exactly the closing quantity and the new one opened with the rest; the two payments add up to the whole |
| Sessions.NoCrossingNoBoundary | app/utils/profit_calculator.py:809-829 | without a sign change no session is closed, and the step fails exactly on a zero quantity |
| Sessions.LandingOnZeroContinues | app/utils/profit_calculator.py:820-829 | reaching exactly zero is no boundary: the operation joins the open session |
| Sessions.FlatRestartDiscards | app/utils/profit_calculator.py:809-818 | from a flat position a fresh session starts and any open session is dropped unfinalized |
| Sessions.ChangePosition | app/utils/profit_calculator.py:773-831 | the step of `_process_position_change`, specified by `Sessions.CrossingSplits`, `Sessions.NoCrossingNoBoundary`, `Sessions.LandingOnZeroContinues` and `Sessions.FlatRestartDiscards`: split on a sign change, continue otherwise, start afresh from flat, fail on a zero quantity |
| Sessions.StepWalkFacts | app/utils/profit_calculator.py:747-763 | a step fails exactly on a zero-quantity buy or sell; otherwise the position moves by the signed quantity and earlier closed sessions are kept |
| Sessions.WalkFacts | app/utils/profit_calculator.py:744-763 | the walk fails exactly when a buy or sell has quantity zero, and otherwise ends at start + bought − sold with well-formed sessions |
| Sessions.StepWalkCases | app/utils/profit_calculator.py:751-763 | a non-trading operation leaves the walk unchanged; a buy or sell moves to start ± quantity |
| Sessions.StepKeepsFlatInvariant | app/utils/profit_calculator.py:773-831 | from a flat start, the open session holds the position and every closed session bought as much as it sold |
| Sessions.FlatStartBalanced | app/utils/profit_calculator.py:744-763 | a walk starting at zero closes only balanced sessions |
| Sessions.SessionsForFigiShape | app/utils/profit_calculator.py:765-771 | the result is the closed sessions, plus the open one only when it has both buys and sells |
| Sessions.SessionsForFigiFails | app/utils/profit_calculator.py:740-771 | a FIGI's sessions fail exactly when one of its buys or sells has quantity zero |
| Sessions.ZeroTradePermutation | app/utils/profit_calculator.py:742 | reordering the operations does not change whether a zero-quantity trade exists |
| Claims.Claim | app/utils/profit_calculator.py:934-994 | the pool keeps its length, and its assigned amount grows by exactly the returned total |
| Claims.ClaimPointwise | app/utils/profit_calculator.py:946-962 | exactly the eligible entries are flagged; all others are kept as they were |
| Claims.ClaimAtMostOnce | app/utils/profit_calculator.py:946-962 | an entry already assigned is never claimed again, and no entry's amount, date or operation changes |
| Claims.ClaimAgainFindsNothing | app/utils/profit_calculator.py:946-962 | a second claim over the same window finds nothing |
| Claims.FinalizeFacts | app/utils/profit_calculator.py:902-932 | gross = sell amount − buy amount, net = gross − fees + margin, the direction rule, and the pools gain exactly the fees and margin charged |
| Claims.Finalize | app/utils/profit_calculator.py:902-932 | the finalization of one session against the fee and margin pools, specified by `Claims.FinalizeFacts` |
| Claims.FinalizeAllConserves | app/utils/profit_calculator.py:934-994 | finalizing sessions in order flags exactly the fees and margin the sessions are charged, in total |
| Claims.FinalizeAllRecords | app/utils/profit_calculator.py:902-932 | each finalized session keeps its records and has net = gross − fees + margin |
| Trades.CorrectTimezone | app/utils/profit_calculator.py:87-89 | shifting the corrected time back by the offset gives the original time |
| Trades.TradeFromSessionFacts | app/utils/profit_calculator.py:1003-1054 | entry price × sold = sell amount, exit price × bought = buy amount, quantity = sold, ids of the first and last records, profits copied |
| Trades.TradeFromSession | app/utils/profit_calculator.py:1003-1054 | the trade built from a session, specified by `Trades.TradeFromSessionFacts`: average prices, quantity, ids, corrected times and profits taken from the session |
| Trades.TradesOfSessions | app/utils/profit_calculator.py:996-1001 | one trade per session, in order |
| Trades.TotalNetOfSessions | app/utils/profit_calculator.py:147 | the trades' net profits sum to the sessions' net profits |
| Fifo.FindOldestBuy | app/utils/profit_calculator.py:400-407 | the index of the first open buy lot, or none exactly when no buy lot is open |
| Fifo.FindOldestShort | app/utils/profit_calculator.py:409-416 | the index of the first open short lot, or none exactly when no short lot is open |
| Fifo.CreateTradeFacts | app/utils/profit_calculator.py:439-489 | entry = lot price, exit = operation price, gross by direction × quantity, id "entry_exit", no fees, times shifted by the offset |
| Fifo.CloseLots | app/utils/profit_calculator.py:321-345 | the lot list keeps its length; matching stops with nothing left, or with no open lot of that kind |
| Fifo.CloseLotsConserves | app/utils/profit_calculator.py:321-345 | the quantity traded plus the quantity left equals the quantity asked, and the open quantity falls by exactly what was traded |
| Fifo.CloseLotsValid | app/utils/profit_calculator.py:336-345 | lots stay valid: a processed lot is empty, and a buy lot is processed exactly when it is empty (a short lot opened by a zero-quantity sell is empty but not processed) |
| Fifo.CloseLotsFrame | app/utils/profit_calculator.py:321-345 | lots of the other kind are untouched, and no lot changes kind or operation |
| Fifo.CloseLotsStep | app/utils/profit_calculator.py:333-345 | one match takes min(remaining, lot quantity) from the oldest open lot |
| Fifo.ProcessBuyConserves | app/utils/profit_calculator.py:316-358 | the buy's quantity is split between closed shorts and a new buy lot; the short quantity open falls by what was traded |
| Fifo.ProcessSellFacts | app/utils/profit_calculator.py:360-398 | the sell closes at most its quantity of buys; a short lot is added when buys run out or there were no lots, and it holds the sell's full quantity |
| Fifo.ProcessBuy | app/utils/profit_calculator.py:316-358 | the buy step of the FIFO matching, specified by `Fifo.ProcessBuyConserves`: its quantity closes shorts and the rest becomes a buy lot |
| Fifo.HandleShort | app/utils/profit_calculator.py:418-437 | a short lot of the sell's full quantity unless a buy lot is unprocessed; its effect inside a sell is stated by `Fifo.ProcessSellFacts` |
| Fifo.ProcessSell | app/utils/profit_calculator.py:360-398 | the sell step of the FIFO matching, specified by `Fifo.ProcessSellFacts` |
| Fifo.SellShape | app/utils/profit_calculator.py:360-398 | with no lots the sell opens a short; otherwise it closes buys and adds a short only when they ran out |
| Analysis.ScenarioFacts | app/utils/profit_calculator.py:183-226 | three scenarios, the first from zero; each result is start ± quantity; no scenario changes sign strictly (positive to negative or back); a scenario is flagged `crosses_zero` only when its result is 0, and for a non-zero quantity exactly when its result is 0 |
| Analysis.AnalyzeStartingPositionsFacts | app/utils/profit_calculator.py:151-240 | a FIGI has an entry exactly when it has a buy or sell; the entry counts them and summarises the earliest |
| Analysis.AnalyzeStartingPositions | app/utils/profit_calculator.py:151-240 | the per-FIGI summary, specified by `Analysis.AnalyzeStartingPositionsFacts` |
| Periods.PeriodProfitRealIsWindowSum | app/utils/profit_calculator.py:525-568 | the real profit of a period is the sum of counted payments of the operations dated inside it |
| Periods.PeriodProfitRealSplit | app/utils/profit_calculator.py:546-568 | a window's real profit is the sum over two adjacent sub-windows |
| Periods.PeriodProfitRealEmpty | app/utils/profit_calculator.py:551-552 | a window without operations has real profit zero |
| Periods.PeriodProfitReal | app/utils/profit_calculator.py:525-568 | the real profit of a window, specified by `Periods.PeriodProfitRealIsWindowSum`, `Periods.PeriodProfitRealSplit` and `Periods.PeriodProfitRealEmpty` |
| Periods.StatisticsFacts | app/utils/profit_calculator.py:594-618 | ending = starting + net, trades counted, winners + losers ≤ trades, percentage relative to a positive starting balance, else zero |
| Periods.PeriodProfitFacts | app/utils/profit_calculator.py:570-618 | a period fails exactly when some buy or sell in its window has quantity zero; otherwise its net (= total) profit is the sum of the net profits of the sessions rebuilt from the window, it counts one trade per session, it keeps its window and starting balance, ends at the starting balance plus the net profit, has no more winners plus losers than trades, and its percentage is the net profit relative to a positive starting balance (0 otherwise) |
| Periods.PeriodProfitOf | app/utils/profit_calculator.py:570-618 | the profit record of a window, specified by `Periods.PeriodProfitFacts` |
| Periods.PeriodOpsMembers | app/utils/profit_calculator.py:587-590 | the period's operations are exactly the operations dated inside the window |
| Periods.ZeroTradeInWindow | app/utils/profit_calculator.py:587-593 | a window's reconstruction meets a zero-quantity buy or sell exactly when one of the operations dated inside the window is one |
| Periods.ChainPeriodsFailsIff | app/utils/profit_calculator.py:641-656 | the chained periods fail exactly when some window holds a buy or sell of quantity zero |
| Periods.WinningLosingDisjoint | app/utils/profit_calculator.py:603-604 | no trade counts as both winning and losing |
| Periods.ChainPeriodsFacts | app/utils/profit_calculator.py:641-656 | one period per window, each starting at its predecessor's ending balance |
| Periods.ChainPeriodsEndBalance | app/utils/profit_calculator.py:641-656 | the last period ends at the first starting balance plus all periods' net profit |
| Periods.WeekWindowsTile | app/utils/profit_calculator.py:633-656 | the weekly windows tile the range, each starting k weeks after the first Monday and lasting under a week |
| Periods.TilesAddUp | app/utils/profit_calculator.py:546-549 | over tiling windows the period real profits add up to the whole range's |
| Periods.MonthWindowsTile | app/utils/profit_calculator.py:673-711 | the monthly windows tile the range and each starts on the first of a month |
| Periods.TilesCover | app/utils/profit_calculator.py:641-656 | every instant of a tiled range lies in one of the windows |
| Periods.SortedBounds | app/utils/profit_calculator.py:625-630 | the first and last operations in date order are operations of the list and bound the dates of all of them |
| Periods.ChainOverTiles | app/utils/profit_calculator.py:641-656 | over windows tiling a range that holds every operation, the chain fails exactly on a zero-quantity buy or sell; otherwise the periods tile the range in order, chain their balances from zero, and the last ends at the total net profit |
| Periods.WeeklyAnalysis | app/utils/profit_calculator.py:620-658 | the weekly analysis, specified by `Periods.WeeklyAnalysisFacts` |
| Periods.WeeklyAnalysisFacts | app/utils/profit_calculator.py:620-658 | empty for no operations; fails exactly when some buy or sell has quantity zero; otherwise the first week starts at the Monday midnight of the earliest operation's week, weeks are one week apart and shorter than a week, they cover every operation and end at the latest, and balances chain from zero to the total net profit |
| Periods.MonthlyAnalysis | app/utils/profit_calculator.py:660-711 | the monthly analysis, specified by `Periods.MonthlyAnalysisFacts` |
| Periods.MonthlyAnalysisFacts | app/utils/profit_calculator.py:660-711 | empty for no operations; fails exactly when some buy or sell has quantity zero; otherwise the first month starts on the first of the earliest operation's month, every period starts on a first of the month right after its predecessor, they cover every operation and end at the latest, and balances chain from zero to the total net profit |
| Periods.MonthlyStartsBeforeFirst | app/utils/profit_calculator.py:674-680 | the first month starts no later than the first operation |
| Calendar.DaysInMonth | app/utils/profit_calculator.py:683-689 | every month has 28 to 31 days |
| Calendar.NextMonthStart | app/utils/profit_calculator.py:683-689 | the next month starts exactly this month's length later |
| Calendar.CivilOf | app/utils/profit_calculator.py:674-675 | the date of a day number is valid and has that day number |
| Calendar.CivilOfDayNumber | app/utils/profit_calculator.py:674-675 | a date's day number maps back to the same date |
| Calendar.WeekStart | app/utils/profit_calculator.py:634-639 | the week start is midnight (a multiple of a day) of the Monday of the time's week: the time's own midnight less its weekday in days, at most one week before the time |
| Quantity.IsQuantityValid | app/utils/quantity.py:4-8 | None exactly for a value that is neither int nor float |
| Quantity.ValidIffPositiveWhole | app/utils/quantity.py:4-8 | valid exactly when the value is a positive whole number |
| Quantity.QuantityExamples | app/utils/quantity.py:5-8 | 3.0 valid; 2.5, −1.0, 0.0 and int 0 invalid; anything else None |
| Signals.Reverse | app/main.py:313 | the array ends up as its old contents reversed |
| Signals.CalcTrades | app/main.py:312-347 | the caller's list ends up reversed in place, and the marks and income are those of the scan over it |
| Signals.ScanPrev | app/main.py:333-342 | `prev` is always the last full-size buy or sell seen |
| Signals.ScanNumbering | app/main.py:319-332 | marks are numbered 1, 2, 3, … in emission order and `num` is the next number |
| Signals.ScanEmits | app/main.py:335-342 | an operation adds a mark exactly when it is full-size and the last full-size one was the opposite direction of the same instrument |
| Signals.ScanIncome | app/main.py:319-347 | the income is the marks' results plus every commission and variation-margin payment |
| Signals.Scan | app/main.py:319-347 | the pairing scan of `calc_trades`, specified by `Signals.ScanPrev`, `Signals.ScanNumbering`, `Signals.ScanEmits` and `Signals.ScanIncome` |
| Signals.MarkResult | app/main.py:319-331 | a mark's result is half the sum of its two payments; it is Short exactly when the earlier one was a sale |
| Signals.Truncate | app/main.py:105 | `int` of a float truncates toward zero |
| Signals.BuyOrderFacts | app/main.py:117-141 | a buy is placed exactly below the limit with a known lot, and is the most whole lots that stay within the limit |
| Signals.SellOrderFacts | app/main.py:92-115 | a sell is placed exactly above minus the limit with a known lot, and is the most whole lots that stay within it |
| Signals.BuyOrder | app/main.py:117-141 | the buy sizing, specified by `Signals.BuyOrderFacts` |
| Signals.SellOrder | app/main.py:92-115 | the sell sizing, specified by `Signals.SellOrderFacts` |
| Signals.LotsFor | app/main.py:125-131 | `int(x / lot)` is the number of whole lots that fit in x |
| Signals.OrdersReachTarget | app/main.py:92-141 | with one-unit lots and a whole limit, orders land exactly on the limit |
| Signals.RetryDelay | app/main.py:184-200 | the delay is never negative |
| Signals.RetryDelayWaitsForReopening | app/main.py:184-200 | inside a clearing break the wait ends one second after reopening; otherwise it is ten seconds |
| Signals.RetryDelayBounded | app/main.py:184-200 | no wait exceeds 901 seconds |
| EnvFile.ReadLines | m.py:38-40 | splitting the translated text into lines: the lines concatenate back to that text |
| EnvFile.Universal | m.py:39-40 | text-mode reading turns "\r\n" and a lone "\r" into "\n": no carriage return survives, text without one is unchanged, and nothing grows |
| EnvFile.ReadLinesWellFormed | m.py:38-40 | only the last line read may lack its newline |
| EnvFile.ReadConcat | m.py:57-58 | reading back written well-formed lines gives the same lines |
| EnvFile.LookUpFirstMatch | m.py:22-31 | a value is found exactly when some line matches the key, and it comes from the first such line |
| EnvFile.GetEnvValue | m.py:22-31 | `get_env_value`, specified by `EnvFile.LookUpFirstMatch` (first matching line of the translated text) and `EnvFile.UpdateThenGet` |
| EnvFile.UpdateEnvFile | m.py:34-58 | the lines written are `UpdatedLines` of the file's lines, an empty list for a missing file |
| EnvFile.UpdatedLinesShape | m.py:44-55 | matching lines are replaced and the rest kept; the line count grows only when the key was absent, by one or two, with the new line last |
| EnvFile.UpdatedLines | m.py:44-55 | the lines `update_env_file` writes, specified by `EnvFile.UpdatedLinesShape` |
| EnvFile.NewContentNoReturn | m.py:57-58 | with a key and value free of carriage returns, the written text has none, so reading it back translates nothing |
| EnvFile.EnvLineFacts | m.py:47 | the new line strips to `key=value`, matches the key and yields the value |
| EnvFile.ReplacedNoMatch | m.py:44-50 | with no matching line, replacing changes nothing |
| EnvFile.ReplacedTwice | m.py:44-50 | replacing twice is replacing once |
| EnvFile.LookUpReplaced | m.py:44-50 | after replacing, the lookup returns the new value |
| EnvFile.WrittenBackFacts | m.py:52-58 | reading the written file gives the replaced lines, with the last line terminated and the new line appended when the key was absent |
| EnvFile.UpdateThenGet | m.py:22-58 | after an update, `get_env_value` of the new file returns the value written |
| EnvFile.UpdateIdempotent | m.py:34-58 | updating twice with the same key and value writes the same text as once |
| EnvFile.BrokerAccounts | m.py:73 | keeps exactly the accounts of type 1, each with its original index: every kept pair is (index, account) of a type-1 account, every type-1 account is kept, and the indices strictly increase (input order) |
| EnvFile.ChooseAccount | m.py:80-86 | non-integer input is rejected; an account is selected exactly when the typed number is in range, and it is the one at that number |
| Numbers.FloatOfPositiveDecimal | improved_table_analyzer.py:20-23 | `float` of digits.digits is the decimal they spell |
| Numbers.FloatOfNegativeDecimal | improved_table_analyzer.py:20-23 | the same with a leading minus |
| Numbers.IntOfRendered | analyze_table_data.py:73-75 | `int(str(n))` is n |
| Numbers.IntOfNegativeRendered | analyze_table_data.py:73-75 | `int('-' + str(n))` is −n |
| TableNumbers.RussianNumberBlank | improved_table_analyzer.py:11-12 | blank cells read as zero in both parser variants |
| TableNumbers.RussianNumberOfMoneyCell | improved_table_analyzer.py:9-23 | a "d d,dd ₽" cell reads as the decimal its digits spell |
| TableNumbers.RussianNumberExample | improved_table_analyzer.py:10 | "1 234,56 ₽" reads as 1234.56 |
| TableNumbers.RussianNumberVariantsAgree | analyze_table_data.py:9-23 | without no-break spaces the two variants agree |
| TableNumbers.NoBreakCell | analyze_table_data.py:15-21 | with a no-break-space separator one variant reads the number and the other reads 0.0 |
| TableNumbers.ParseRussianNumber | improved_table_analyzer.py:9-23 | the money-cell parser, specified by `TableNumbers.RussianNumberBlank`, `TableNumbers.RussianNumberOfMoneyCell` and `TableNumbers.RussianNumberExample` |
| TableNumbers.ParseRussianNumberNbsp | analyze_table_data.py:9-23 | the variant that also drops no-break spaces, specified by `TableNumbers.RussianNumberVariantsAgree` and `TableNumbers.NoBreakCell` |
| TableNumbers.FloatFailsOnTwoFields | improved_table_analyzer.py:20-23 | `float` refuses a dot after a field that is not all digits |
| TableNumbers.ParseDate | improved_table_analyzer.py:26-36 | every parsed date is a real calendar date |
| TableNumbers.ParseDateShape | improved_table_analyzer.py:31-34 | only day.month.year shapes parse |
| TableNumbers.ParseDateBlank | improved_table_analyzer.py:28-29 | a blank cell is no date |
| TableNumbers.ParseDateCell | improved_table_analyzer.py:26-36 | every date of a four-digit year, written as 'DD.MM.YYYYг.', parses back to itself |
| TableRows.TradeCountIsInt | improved_table_analyzer.py:119-120 | a digit cell counts as `int` reads it; any other cell counts zero |
| TableRows.SetField | improved_table_analyzer.py:103-131 | only the labelled field changes, to the parsed cell |
| TableRows.DateRecordsAreZero | improved_table_analyzer.py:85-100 | a date row opens one all-zero record per parsed date |
| TableRows.StepLineDates | improved_table_analyzer.py:76-131 | each line appends the dates it opens and changes none already there |
| TableRows.FoldLinesDates | improved_table_analyzer.py:75-131 | the day records are exactly one per parsed date cell, in order |
| TableRows.DataRowEffect | improved_table_analyzer.py:103-131 | a labelled row rewrites that field in the first five records from its five cells, and nothing else |
| TableRows.UnlabelledRowIsIgnored | improved_table_analyzer.py:103-131 | an unlabelled non-date row changes nothing |
| TableRows.ResultsFromFirst | improved_table_analyzer.py:62-69 | the search finds the first marker line, and none means there is no marker |
| TableRows.LinesBeforeResultsIgnored | improved_table_analyzer.py:62-69 | lines before the marker do not affect the day records |
| TableRows.PeriodNet | improved_table_analyzer.py:133-141 | total earnings − total commission is the sum over days of earnings − commission |
| TableRows.TotalsAppend | improved_table_analyzer.py:133-141 | the period totals are additive over days: for two runs of days put together, every total (clearings, trades, commission, earnings) is the sum of the two runs' totals |
| TableRows.FindResults | improved_table_analyzer.py:62-66 | the loop returns the first marker index, as `ResultsFrom` |
| TableRows.DateOfCell | improved_table_analyzer.py:88-90 | the date a cell contributes, as `CellDate` |
| TableRows.AppendDates | improved_table_analyzer.py:87-99 | the records grow by exactly `DateRecords` of the cells |
| TableRows.FillColumn | improved_table_analyzer.py:105-131 | the records are those of `ApplyRow` |
| TableRows.ApplyLine | improved_table_analyzer.py:76-131 | the records are those of `StepLine` |
| TableRows.ExtractDaily | improved_table_analyzer.py:75-131 | the day records after the marker are those of `FoldLines` |
| TableRows.ExtractPeriodData | improved_table_analyzer.py:53-141 | one period section yields an entry exactly as `ExtractPeriod` describes |
| WeeklyTable.CountsOf | analyze_table_data.py:73-75 | a converted list has one count per cell |
| WeeklyTable.CountsOfValues | analyze_table_data.py:73-75 | each count is what `int` makes of its cell, zero for a blank |
| WeeklyTable.CountsOfFailure | analyze_table_data.py:73-75 | the list fails exactly when some non-blank cell is not an integer |
| WeeklyTable.RowEntry | analyze_table_data.py:64-81 | a stored list has five entries, and it is integers exactly for the trade counts |
| WeeklyTable.TradeRowFailure | analyze_table_data.py:73-75 | a trade-count row fails exactly when a cell is refused by `int` |
| WeeklyTable.ScanWellFormed | analyze_table_data.py:57-81 | scanning keeps every list at five entries of the right kind |
| WeeklyTable.LaterRowOverwrites | analyze_table_data.py:64-81 | a later row with the same label replaces the earlier list |
| WeeklyTable.LinesBeforeMarkerIgnored | analyze_table_data.py:57-60 | lines before the marker are never read |
| WeeklyTable.StopsAtBlank | analyze_table_data.py:61-62 | after the marker, nothing past the first blank line matters |
| WeeklyTable.Scan | analyze_table_data.py:57-81 | the results-table scan, specified by `WeeklyTable.ScanWellFormed`, `WeeklyTable.LaterRowOverwrites`, `WeeklyTable.LinesBeforeMarkerIgnored` and `WeeklyTable.StopsAtBlank` |
| WeeklyTable.WeeklyNetByDay | analyze_table_data.py:181-184 | the weekly net is the sum over the five days of earnings − commission |
| WeeklyTable.ParseResults | analyze_table_data.py:54-81 | the loop's result is that of `Scan` from the start |
| MockOps.TradeOps | improved_table_analyzer.py:337-359 | k trades give 2k operations |
| MockOps.ClearingOp | improved_table_analyzer.py:371-391 | one operation exactly for a non-zero amount, paying that amount |
| MockOps.CommissionOp | improved_table_analyzer.py:361-369 | one operation exactly for a positive commission, paying minus it |
| MockOps.TradePaymentsScale | improved_table_analyzer.py:337-359 | k pairs pay k shares of the earnings, the lot price cancelling |
| MockOps.TradePaymentsSumToEarnings | improved_table_analyzer.py:337-359 | a day's buy/sell pairs pay exactly its earnings |
| MockOps.DayPaymentTotal | improved_table_analyzer.py:333-391 | a day's operations pay its earnings (when it traded) less a positive commission plus both clearings |
| MockOps.DaysPaymentTotal | improved_table_analyzer.py:332-391 | the operations of several days pay the sum of their day totals |
| MockOps.AppendTrades | improved_table_analyzer.py:340-359 | the loop appends exactly the day's trade pairs |
| MockOps.AppendDay | improved_table_analyzer.py:333-391 | the loop appends exactly the day's operations |
| MockOps.AppendDays | improved_table_analyzer.py:333-391 | the loop appends every day's operations in order |
| MockOps.AppendPeriods | improved_table_analyzer.py:332-391 | the loop appends every period's operations in order |
| MockOps.CreateMockOperations | improved_table_analyzer.py:327-446 | the result is the April operations followed by the May ones |
| MockOps.MockOperations | improved_table_analyzer.py:327-446 | the returned list, the April operations then the May ones; its payments are stated by `MockOps.MockOperationsTotal` |
| MockOps.MockOperationsTotal | improved_table_analyzer.py:327-446 | the generated operations pay, in total, every table day's earnings (when it traded) less a positive commission plus both clearing amounts, over April and May |

## Left out

- Time-zone localisation with `pytz` in `calculate_period_profit_real` (lines 533-543) is left out. Times are naive whole seconds in the operation's clock.
- The monthly splitter compares naive month starts with the operations' dates. The possible `TypeError` on aware datetimes is not modelled, since all times are naive integers here.
- `quotation_to_float`, the SDK's `OperationType` enum and its other members are left out. Prices and payments arrive as reals, and unknown types are one `OtherType`.
- Floating-point arithmetic is modelled as exact reals, so rounding and `inf`/`nan` are not captured.
- `float()` and `int()` are modelled on the decimal forms the tables hold: optional white space, a sign, ASCII digits and one dot. Exponents, underscores, `inf`, `nan` and non-ASCII digits are left out, and so is non-ASCII `upper()`.
- `strftime` is modelled only for the `%Y%m%d_%H%M%S` session identifiers.
- File reading and writing, `input`, `exit`, printing and logging, the broker API calls (`get_accounts`, order posting, instrument lookup), `asyncio` sleeping and task creation, and the FastAPI routes are left out. Their inputs and results are parameters, and the file is its text.
- Splitting a table file into period sections (`content.split(...)` on the section header, improved_table_analyzer.py lines 49-51) is left out. The model starts from one section's text.
- `extract_balance_progression` (improved_table_analyzer.py:293-324) returns hard-coded data and is left out.
- The regular-expression balance extraction of analyze_table_data.py (lines 43-51) and the printing in `analyze_profit_logic` are left out; only the weekly net it computes is modelled.
- The unused legacy helpers `_assign_fees_to_trades`, `_get_fees_for_trade_period`, `_get_variation_margin_for_trade`, `_process_single_operation`, `_get_fees_for_trade` and `_convert_operation_to_dict` are left out. The reconstruction never calls them.
- The `needed_quantity` parameter of `_find_oldest_buy` and `_find_oldest_short` is never read by the source and is dropped.
- Concurrency between the bot's handlers is left out. Each operation is modelled as one sequential call.
- Periods.WeekWindowsTile: the weeks tile the range only because time is whole seconds here. In the source a week ends at Sunday 23:59:59 (app/utils/profit_calculator.py:644-645) and broker timestamps carry microseconds, so an operation in the last fraction of that second lies in no week. The model does not capture that gap.
- Periods.MonthWindowsTile: the same holds for months, which end one second before the next month starts (app/utils/profit_calculator.py:689). An operation in the last fraction of that second lies in no month in the source.
- Periods.TilesAddUp: the weekly or monthly real profits add up to the whole range's only for whole-second times. Both period filters keep `start <= date <= end` (app/utils/profit_calculator.py:547 and 589), so in the source a payment dated inside a sub-second gap between two windows counts in neither.
- Periods.ChainOverTiles: the weekly and monthly periods cover every operation only for whole-second times. In the source an operation in a sub-second gap between windows is in no period, so its profit is missing and a zero-quantity trade there does not make the analysis fail.
- Periods.WeeklyAnalysisFacts: "every operation is covered" and "fails exactly on a zero-quantity buy or sell" rest on whole-second times, for the reason given for `Periods.WeekWindowsTile`.
- Periods.MonthlyAnalysisFacts: "every operation is covered" and "fails exactly on a zero-quantity buy or sell" rest on whole-second times, for the reason given for `Periods.MonthWindowsTile`.
- EnvFile.UpdateEnvFile: writing is modelled for a system whose line separator is "\n". On Windows, text-mode writing would turn each "\n" into "\r\n", which reading translates back.
- Analysis.ScenariosFor: the scenarios' human-readable `description` strings (app/utils/profit_calculator.py:188-223) are left out; the model keeps the starting position, the first operation's result and the `crosses_zero` flag of each scenario.
