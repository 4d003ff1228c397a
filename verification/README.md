# Verified model of the simulated trading engine

The repository is a paper-trading system in which agents propose trades and a risk node limits
them. Its published numbers rest on a simulated backtest and on offline programs that claim to
reproduce and re-judge it. This project models that simulation and those programs in Dafny and
proves the claims.

1. **Ledger, risk gate and replay.** The table of lots with its in-place updates
   (`Ledger`, `LedgerRows`, `LedgerTable`) and the positions read from it (`PositionList`), the
   gate in two steps (`RiskGate`), the replay with its mutable lot list and fused gate (`Lots`,
   `Replay`, `ReplayMachine`), one symbol's run as a fold (`Engine`), the refinement between run
   and replay, exact and with rounding columns (`Counterfactual`), what slippage costs
   (`Slippage`), and what the replay's limits, stops and spacing mean on a tape (`Limits`,
   `Stops`, `Spacing`).
2. **Run protocol.** One day as one transaction over all symbols (`DayTransaction`), the driver
   that works through the calendar under the spending cap (`BacktestDriver`, `Spending`), and
   every interleaving of commits, exceptions, kills, cap stops and resumes (`RunProtocol`).
3. **Causality and traceability.** What a decision may see (`MarketData`, `OpenPrices`,
   `Causality`), the trace collector (`Trace`), and the audit that rebuilds an explanation from
   it (`Explainer`, `TraceAudit`).
4. **Risk mathematics.** Order-statistic VaR and CVaR (`OrderStatistics`, `TailMean`), the Kupiec
   test and its power (`Kupiec`, `KupiecPower`), correlation (`Correlation`, `RawCorrelation`),
   RSI (`Rsi`, `WilderSums`), and the exact sign test (`Binomial`, `SignTest`).

`Trading`, `Dates`, `Reals` and `SortedText` hold shared vocabulary.

## Reading the model

- An imperative operation is a method of a class or a method with a loop, proved equal to a
  function on values; the properties are lemmas about that function.
- Money, prices and returns are exact reals. Where rounding is the point it is explicit: the
  NUMERIC columns are arbitrary functions within a given error of the identity, and the rounding
  guards of `var_max_qty` and `_tail_count` are modelled with their round-half-even rule.
- An uncaught error is a value: `None` for the oversell `ValueError`, for a `KeyError` on an
  unpriced model and for an empty acceptance region; `Invalid` for series of unequal or too short
  length.
- Agents and the language model are arbitrary functions of what they are shown.
- Assumed throughout: `as_of` increases strictly; a symbol is decided once a day; one process
  drives a backtest at a time; the calendar and the symbols are the same on resume; no calendar
  day is `date.min`; symbols are non-empty and upper case, so that `list_positions` looks up the
  symbol it is given; New York is 4 or 5 hours behind UTC; stored stamps have second granularity.

Where the code and its documentation disagree the model follows the code:

- `scripts/replay_risk_rules.py:174-177` says the first buy of a position is always allowed by
  the spacing rule. The code never clears `last_buy_day` when a position closes, so it is not;
  `Spacing.SpacingRefusesAPositionsFirstBuy` and `Spacing.SpacingRefusesTheBuyAfterAStop` are
  concrete tapes, the second within a row that a stop has just emptied, and
  `Spacing.FirstBuyRefusedExactlyWhen` is the exact condition for every such buy.
- `scripts/replay_risk_rules.py:235-236` measures the trailing stop from the highest price since
  the position was opened. The code starts one row later: `Stops.TrailingStopForgetsTheOpeningRow`
  is a tape where that matters, and `Stops.PeakIsHighestSinceOpening` says for every tape which
  rows count.
- `app/agent/indicators.py:65-66` calls a zero average loss "no losses in the window". The
  smoothing forgets nothing from period 2 on, so a loss before the window still keeps RSI below
  100: `Rsi.OldLossIsRemembered` is such a history, and
  `Rsi.RsiIsHundredExactlyWithoutLosses` says what a value of 100 does mean, for every period.
- The mirror law RSI(closes) + RSI(C - closes) = 100 fails on a flat history, where both values
  are 100; `Rsi.MirroredHistoriesAddToHundred` gives the sum for every input.

## Model

| member | source | states |
|---|---|---|
| Lots.SaleDropsOldestShares | scripts/replay_risk_rules.py:193-210 | Seen as a queue of single shares, a sale removes exactly its n oldest shares, so the lots left hold n fewer |
| Lots.SaleRealizesGainOnOldestShares | scripts/replay_risk_rules.py:193-210 | What a sale realizes is the price difference summed over those n oldest shares |
| Lots.SaleTouchesLotsInOrder | app/agent/backtest.py:174-214 | A sale closes a prefix of the lots whole and cuts at most the next one; its CLOSED rows are counted exactly |
| RiskGate.VarMaxQtyIsLargestWithinBudget | app/agent/risk_manager.py:152-157 | n shares, up to the cap of 20, are allowed exactly when n times VaR is within 20 times 2%, up to the ninth-digit rounding guard |
| RiskGate.VarMaxQtyRange | app/agent/risk_manager.py:152-157 | The limit lies in 0..20 and is the full cap whenever VaR is at most 2% |
| RiskGate.GateIsFusedMin | app/agent/risk_manager.py:74-250 | The two-step gate executes the same trade as the replay's single minimum over cap, limit and holding, for every proposal and position |
| RiskGate.BudgetOnlyShrinksBuys | app/agent/risk_manager.py:216-250 | The VaR budget leaves everything but a BUY alone and never enlarges or flips a BUY |
| RiskGate.GateKeepsPositionInRange | app/agent/risk_manager.py:74-250 | From a position in 0..20 a SELL never exceeds it, a BUY never passes 20, and a BUY leaves position times VaR within the budget |
| RiskGate.BudgetFlagMeansChangedTrade | app/agent/risk_manager.py:216-250 | The veto or scale flag, which triggers the explainer, is raised exactly when the budget changed the V1 ruling |
| RiskGate.RiskNode | app/agent/risk_manager.py:168-250 | The node's reassigned verdict, quantity, limit and appended flags are those of the specification |
| RiskGate.VerdictSaysWhatHappened | app/agent/risk_manager.py:74-250 | The verdict is VETO exactly when a proposed trade is held back altogether, SCALE, with the remaining quantity, exactly when less of it goes through, and APPROVE otherwise |
| RiskGate.FlagsSayWhatIsKnown | app/agent/risk_manager.py:216-222 | Over-budget is flagged exactly when there is a VaR and the position exceeds its limit, and an unavailable VaR exactly for too little history |
| RiskGate.FlaggedExactlyWhenAbove | app/agent/risk_manager.py:252-290 | A holding is flagged exactly when its correlation is known and above 0.8 |
| Ledger.ListingIsInsertionOrder | app/agent/backtest.py:156-164 | The rows that the open-lot query may return, ordered by opening time, can only come in one order: the order of insertion |
| Ledger.CloseLotsIsSellFifo | app/agent/backtest.py:174-214 | The loop of row updates and split inserts has the effect of a FIFO sale on the symbol's book, CLOSED rows and rounded P&L included |
| Ledger.TableRefinesBook | app/agent/backtest.py:122-214 | Recording a trade in the table and reading the book back equals trading on the book; the oversell error arises in both or in neither |
| Ledger.TradeKeepsTableSound | app/agent/backtest.py:122-214 | A trade keeps quantities positive and lots of a symbol in strictly increasing opening order, leaves rows of other keys untouched and only appends rows of its own |
| Ledger.TradeKeepsOtherBooks | app/agent/backtest.py:122-214 | No trade changes the book of another symbol or another backtest |
| LedgerRows.SaleWritesItsTerms | app/agent/backtest.py:174-214 | A SELL closes open rows of its key with its own price, time and P&L and keeps their other fields, splits at most one of them into a CLOSED row of the selling decision, and rewrites nothing else |
| LedgerRows.PurchaseWritesItsTerms | app/agent/backtest.py:143-154 | A BUY appends one open row with its own terms and rewrites nothing |
| LedgerTable.Table.TotalOpen | app/agent/backtest.py:166-172 | The sum over the listed lots is the number of shares the book holds |
| LedgerTable.Table.CloseListed | app/agent/backtest.py:174-214 | The in-place loop leaves the table the specification gives |
| LedgerTable.Table.Record | app/agent/runner.py:96-194 | The in-place ledger (the live and the backtest table share the algorithm) refuses exactly the oversell and otherwise holds the specification's table and book |
| PositionList.ListPositions | app/repository/backtest.py:36-84 | The positions list a wanted symbol exactly when its open lots hold shares, with that number, their average entry to four decimals and the oldest opening time |
| PositionList.Summarize | app/repository/backtest.py:60-83 | One symbol's summing loops give quantity, rounded average entry and earliest opening, and nothing exactly when no shares are held |
| PositionList.OpenRowsAreTheBook | app/repository/backtest.py:41-53 | The open rows the query returns for a symbol are exactly the lots of its book, in order |
| PositionList.Round4IsNear | app/repository/backtest.py:71 | The rounded average is within half of the fourth decimal |
| Dates.TradingDays | app/agent/backtest.py:112-119 | The calendar is every weekday of the window, each once, in increasing order |
| Dates.WeekdaysOfTheWeek | app/agent/backtest.py:112-119 | Day 1 is a Monday, five days of a week are weekdays, and weeks repeat |
| Dates.WeekdaysAdd | scripts/replay_risk_rules.py:185-190 | The elapsed weekdays of adjacent spans add up, each day counted once |
| Replay.ReplayStaysSound | scripts/replay_risk_rules.py:213-323 | Under any combination of optional rules every prefix keeps 0..20 shares in positive lots, and whatever row comes next, neither its exit nor its sale asks for more than is held |
| Replay.ClosedRowsBoundedByTrades | scripts/replay_risk_rules.py:193-210 | CLOSED rows plus open lots never exceed buys plus sells: a sale splits at most one lot |
| Replay.MarkToMarketIsCashFlow | scripts/replay_risk_rules.py:124-128 | After every tape, forced exits included, mark-to-market is sale proceeds less purchase cost and commissions plus held shares at the price, whatever the lot matching |
| Slippage.FillsAreOffByBasisPoints | app/agent/backtest.py:84-90 | A BUY fills above the price, and a SELL below it, by exactly the given ten-thousandths of the price |
| Slippage.FillsNeverFavour | app/agent/backtest.py:64-76 | For non-negative price and slippage a BUY never fills below the price nor a SELL above it |
| Slippage.DayFillsAreSlipped | scripts/replay_risk_rules.py:271-318 | Every fill of a row, a forced exit like any other, is at the row's price less slippage |
| Slippage.SlippageCostsItsShareOfTurnover | scripts/replay_risk_rules.py:213-323 | Over any tape and rules the fills bring in exactly that share of the turnover less than the same trades at the rows' own prices |
| Slippage.MarkToMarketLosesSlippage | scripts/replay_risk_rules.py:124-128 | Mark-to-market is the trades at the rows' own prices plus the held shares, less that share of the turnover |
| Slippage.RoundTripCostsTwiceTheSlippage | app/agent/backtest.py:605-624 | Buying n shares and selling them at one price realizes exactly minus twice their slippage, in the run and in the replay of its tape |
| Slippage.CountersCountFills | scripts/replay_risk_rules.py:213-323 | The counters of buys and sells and the position are those of the replay's fills |
| Slippage.EveryProposalIsTradedOrBlocked | scripts/replay_risk_rules.py:280-320 | Buys, sells and blocked rows together are the proposals plus the forced exits |
| ReplayMachine.Result.SellFifo | scripts/replay_risk_rules.py:193-210 | The while loop over the mutable lot list performs the specified sale |
| ReplayMachine.Result.ForceExit | scripts/replay_risk_rules.py:254-278 | Peak tracking, stop and trailing stop change the state exactly as specified |
| ReplayMachine.Result.Propose | scripts/replay_risk_rules.py:280-320 | The day's proposal passes cap, drawdown, spacing and budget exactly as specified |
| ReplayMachine.RunReplay | scripts/replay_risk_rules.py:213-323 | The mutating loop ends in the state of the fold over the tape |
| ReplayMachine.MaxDrawdown | scripts/compare_var_node.py:85-88 | The one-pass peak loop returns the largest fall from any day to the same or a later one |
| ReplayMachine.PathStats | scripts/compare_var_node.py:78-89 | Replaying every prefix from scratch gives the path of the single replay, its final value, largest fall and average holding |
| ReplayMachine.PathsAt | scripts/compare_var_node.py:78-84 | Day k of the curve and of the holding path is that of the replay of the first k + 1 rows |
| Engine.DayKeepsBookWithin | app/agent/backtest.py:605-624 | A day never hits the oversell error, keeps the book in 0..20 and moves it by exactly the executed quantity |
| Engine.RunStaysWithin | app/agent/backtest.py:421-633 | Over any run open plus closed shares equal the shares bought, and the position stays in 0..20 |
| Counterfactual.SaleDrift | scripts/replay_risk_rules.py:193-210 | Two sales on lists of lots that differ by rounding keep quantities and rows equal and P&L within the summed errors |
| Counterfactual.GatesAgree | scripts/replay_risk_rules.py:280-320 | Given the same holding, the replay's gate on the recorded row trades exactly what the risk node ordered |
| Counterfactual.DayStaysCoupled | app/agent/backtest.py:605-624 | One recorded day and one replayed row keep run and replay coupled: same quantities, order and rows, prices and P&L within the errors |
| Counterfactual.ReplayFollowsRun | scripts/replay_risk_rules.py:66-83 | For every stream of days and every slippage, with the budget or without it, the replay of the recorded tape stays coupled to the run, whatever the columns round |
| Counterfactual.ReplayReproducesRun | scripts/compare_var_node.py:114-123 | With exact columns and any slippage, replaying under the VaR rules ends with the run's open lots, realized P&L and CLOSED rows |
| Counterfactual.V1ReplayIsTheV1Run | scripts/compare_var_node.py:7-15 | With exact columns, V1 rules replayed over the tape of a VaR run give what a run without the budget would have done on the same market and proposals |
| Counterfactual.RecordedIsMarked | scripts/compare_var_node.py:116-118 | The recorded value computed from total quantity and cost equals marking each open lot |
| Counterfactual.DriftIsBounded | scripts/compare_var_node.py:114-123 | For a VaR run replayed under the budget and a V1 run replayed plainly, recorded and replayed mark-to-market differ by at most the entry error times shares bought, plus the fill error times shares sold, plus the row error times CLOSED rows |
| Counterfactual.Numeric4IsNear | app/agent/backtest.py:174-214 | Storing with four decimals is off by at most half of the fourth digit |
| Counterfactual.GatePassesSmallRuns | scripts/compare_var_node.py:121-123 | With four-decimal columns and opens of at most four decimals the 0.05 drift gate cannot fire while shares bought plus CLOSED rows are at most 1000 |
| Limits.TighterLimitsHoldLess | scripts/replay_risk_rules.py:283-309 | Pointwise smaller daily limits on one tape give pointwise smaller positions |
| Limits.VarHoldsNoMoreThanV1 | scripts/compare_var_node.py:26-29 | On every prefix the budget run holds no more than the V1 run |
| Limits.VarAveragesNoMoreThanV1 | scripts/compare_var_node.py:78-89 | Hence its average holding is no larger |
| Spacing.WaitingUnblocks | scripts/replay_risk_rules.py:147-190 | A buy the spacing rule allows today it also allows on any later day |
| Spacing.LastBuyIsLatest | scripts/replay_risk_rules.py:297-309 | After any tape the remembered buy day is that of the tape's latest purchase, whatever was closed since |
| Spacing.BlockedExactlyWhenBoughtRecently | scripts/replay_risk_rules.py:147-190 | Looking at that one day blocks exactly when any purchase of the tape is too recent |
| Spacing.SpacingRefusesAPositionsFirstBuy | scripts/replay_risk_rules.py:174-177 | A concrete tape on which the rule refuses the first buy of a new position |
| Spacing.SpacingRefusesTheBuyAfterAStop | scripts/replay_risk_rules.py:262-309 | A concrete tape on which a stop sells the position and the buy of the same row, which would open the next one, is refused |
| Spacing.FirstBuyRefusedExactlyWhen | scripts/replay_risk_rules.py:262-309 | After any tape of increasing days, on a row that finds no position or whose own forced exit just closed it, a buy is refused, and counted as blocked, exactly when some earlier purchase of the tape is too recent or the day's VaR limit allows no share |
| Stops.AverageDownMeansLossShare | scripts/replay_risk_rules.py:140-144 | The average entry is down by a percentage exactly when the lots together lose that share of their cost |
| Stops.PeakIsHighestSinceOpening | scripts/replay_risk_rules.py:254-278 | After any tape the recorded peak is the highest price since the row the position was opened on, that row excluded, and absent when the last row was flat |
| Stops.ForcedExitExactlyWhen | scripts/replay_risk_rules.py:262-278 | A position is closed by force on a row exactly when it loses the stop-loss share of its cost or the trailing test fires against that highest price, of whatever sign |
| Stops.TrailingStopForgetsTheOpeningRow | scripts/replay_risk_rules.py:235-236 | A concrete tape on which the price falls ten percent from the opening row and a five percent trailing stop keeps the position |
| Stops.DrawdownRefusesExactlyWhen | scripts/replay_risk_rules.py:287-291 | The drawdown rule refuses a buy below the cap exactly when the open position loses the given share of its cost |
| DayTransaction.WriteSymbolProgress | app/agent/backtest.py:490-624 | Although the gate reads committed rows and the trade goes to uncommitted ones, each symbol whose forecast fits gets exactly its own day, no other symbol changes, and nothing but the forecast is ever refused |
| DayTransaction.ForecastFailsExactlyWhen | app/agent/var_forecasts.py:25-30 | The CHECK on the position after a decision fails exactly for a BUY of a negative quantity larger than the position, with a VaR, below both limits |
| DayTransaction.DayRefusedOnlyByForecasts | app/agent/backtest.py:480-631 | From a sound committed state the day's transaction is aborted exactly when some symbol's forecast row fails its CHECK: the ledger refuses nothing |
| DayTransaction.OrdinaryProposalsGoThrough | app/agent/backtest.py:460-633 | If no proposed BUY has a negative quantity, every day of every calendar goes through |
| DayTransaction.StoreIsHistory | app/agent/backtest.py:460-633 | After any number of days that went through, each symbol's rows are the book of its own run, and the tape query returns the tape of that run |
| BacktestDriver.Backtest.RunDay | app/agent/backtest.py:480-631 | A day either publishes all its rows with a successful run row or leaves the database as it was, and fails only on an exception or a refused trade |
| BacktestDriver.Backtest.StartResume | app/agent/backtest.py:265-315 | A resume is accepted exactly for an unfinished backtest, with the stored window and equal required settings, without a partly written day, and continues with the days after the last recorded one |
| BacktestDriver.Mismatched | app/agent/backtest.py:257-288 | The listed keys are exactly the required settings whose stored and asked values differ |
| BacktestDriver.ResumeHasTheSameConfig | app/agent/backtest.py:257-288 | A resume is let through exactly when the window and the ten fixed settings agree, so any configuration derived from them is the same for both processes |
| BacktestDriver.Backtest.Finish | app/agent/backtest.py:226-246 | Status and merged usage are written only while the row says RUNNING; the tokens seen by the protocol grow by those of the process |
| BacktestDriver.Backtest.Drive | app/agent/backtest.py:460-633 | From a committed prefix the day loop ends with SUCCESS and the whole calendar, or with FAILED in a day that raised or whose forecasts fail their CHECK, or before a day at which the priced usage of its own days hit the cap or had no price; every begun day had passed that check, the process stays within the cap bound, its merged usage is recorded, the first day always begins, and without a cap, exceptions or failing forecasts it finishes |
| BacktestDriver.AnotherDayObeysCap | app/agent/backtest.py:460-470 | A day begun after the check keeps the priced usage of the process within the cap bound |
| BacktestDriver.Backtest.Resume | app/agent/backtest.py:318-371 | A resume is refused exactly on a successful backtest or with another window or other required settings, and otherwise does what the day loop does from the committed prefix: it begins a day if one is left, finishes if nothing stands in the way, and a finished one holds the rows of an uninterrupted run |
| BacktestDriver.NextDayExtendsThePrefix | app/agent/backtest.py:339-343 | The next calendar day of a committed prefix is refused only by the CHECK on a forecast, and committing it gives the next prefix |
| RunProtocol.ReachableStatesAreSound | app/agent/backtest.py:339-343 | The invariant (committed prefix, open transaction, process state, tokens) holds in every reachable state of every interleaving |
| RunProtocol.CrashesAndResumesChangeNothing | app/agent/backtest.py:318-371 | In every reachable state the committed days are a calendar prefix, each once, the rows are those of an uninterrupted run, no day is partly written, tokens are conserved, and only a forecast CHECK can refuse a write |
| RunProtocol.ResumeContinues | app/agent/backtest.py:290-311 | The filter on the last completed day gives exactly the days not yet committed |
| RunProtocol.SuccessIsFinal | app/agent/backtest.py:226-246 | Nothing that happens after SUCCESS changes the database |
| RunProtocol.SuccessStaysReachableExactlyWhen | app/agent/backtest.py:339-347 | From every sound state, whatever crashed before, further steps lead to SUCCESS exactly when no day of the calendar is refused by a forecast CHECK |
| RunProtocol.ReplayMatchesCommittedRows | scripts/compare_var_node.py:114-123 | After any crashes and resumes the committed rows of a symbol and the replay of the tape read back from the committed decisions are coupled |
| RunProtocol.V1ReplayIsCoupledToTheV1Backtest | scripts/compare_var_node.py:7-15 | Two backtests with equally many committed days, with and without the budget and each with its own crashes: the V1 replay of the first one's tape agrees with the second one's ledger in lots, order and CLOSED rows, and in prices and P&L within what any columns round |
| RunProtocol.V1ReplayMatchesTheV1Backtest | scripts/compare_var_node.py:7-15 | With columns that keep every value, two finished backtests agree exactly: the V1 replay of the first one's tape has the lots, realized P&L and CLOSED rows of the second one's ledger |
| Spending.PriceOf | app/agent/llm.py:84-96 | The price found is that of a longest listed prefix of the model name, and none exactly when no prefix matches |
| Spending.RatesArePerMillion | app/agent/llm.py:92-95 | A million input tokens cost the first rate and a million output tokens the second |
| Spending.MergeAddsCounts | app/agent/backtest.py:217-223 | Merging two usages adds the counts of every model |
| Spending.MergeAddsTokens | app/agent/backtest.py:217-223 | Merging keeps the total number of tokens |
| Spending.CostIsAdditive | app/agent/llm.py:84-96 | The cost of merged usage is the sum of the costs, and unpriced exactly when one of them is |
| Spending.AddUsage | app/agent/backtest.py:217-223 | The dictionary loops compute that merge |
| Spending.UsageCostUsd | app/agent/llm.py:84-96 | The accumulating loop computes the cost, or the KeyError |
| Spending.CheckCap | app/agent/backtest.py:460-470 | The check prices the merged usage: it stops exactly when a model has no price, or when spent plus the average day passes the cap, and never before the first day |
| Spending.NoCheckWithoutDaysOrCap | app/agent/backtest.py:460-461 | The check never stops a process before its first day, nor one without a cap |
| Spending.MergedUsageCostsItsDays | app/agent/llm.py:84-96 | Pricing the merged usage of a process gives the sum of its days' costs, and no price exactly when some day has none |
| Spending.GoOnExactlyWhen | app/agent/backtest.py:461-470 | A day may start exactly when all days so far are priced and their mean once more stays within the cap |
| Spending.CapBoundsSpending | app/agent/backtest.py:460-470 | If the last of at least two days passed the check, the priced merged usage exceeds the cap by at most that day's excess over the mean of the days before it |
| Spending.EqualDaysNeverCross | app/agent/backtest.py:460-470 | With equal daily costs up to the cap it never crosses the cap, and stops exactly when one more day would |
| MarketData.BarsClosedBefore | app/agent/data_sources.py:84-99 | The loop keeps exactly the bars whose session has closed, in order |
| MarketData.DecisionSeesEarlierSessions | app/agent/data_sources.py:84-99 | A decision at noon UTC of day D sees a bar exactly when its New York session day is before D |
| MarketData.AvailabilityLag | app/agent/data_sources.py:191-197 | A headline becomes available at or after its stamp and less than two days later |
| MarketData.ScanBoundsAreLossless | app/agent/data_sources.py:219-248 | Neither query's plain stamp bounds change its answer or its order, at any New York offset |
| MarketData.VisibleDateOnlyHeadlines | app/agent/data_sources.py:219-248 | With a three-day look-back the visible date-only headlines on D are exactly those dated D-3 to D-1 |
| MarketData.NoLookAhead | app/agent/data_sources.py:191-248 | A visible headline is dated before the decision day or carries a real time before the decision |
| MarketData.NewYorkDaysRunFromMidnight | app/agent/data_sources.py:84-99 | An instant belongs to the New York day that began at the last midnight shifted by the distance to UTC |
| MarketData.SessionClosesInTheEvening | app/agent/data_sources.py:84-99 | A session closes at 20:00 or 21:00 UTC of its day: never visible before, always after |
| MarketData.TimedHeadlinesAreVisibleByTheirStamp | app/agent/data_sources.py:191-248 | A headline with a real time is visible exactly when its stamp lies in the look-back and before the decision, and is retrieved by its New York date |
| MarketData.DatedHeadlinesAreRetrieved | app/agent/explainer.py:94-131 | A date-only headline is retrieved exactly for its own and the next day, from the day after its date on |
| OpenPrices.OpenPriceBook.OpenOn | app/agent/data_sources.py:338-351 | With or without the cache the answer is the open of the day's bar in the window's fetch, and None exactly when there is none |
| OpenPrices.FetchCoversWindow | app/agent/data_sources.py:338-351 | The single fetch, asked for a day after the window with a week of slack, contains every midnight-stamped bar of the window |
| OpenPrices.EverySessionHasItsOpen | app/agent/data_sources.py:338-351 | Every session with a bar in the window has an open, it is that of a bar of the same session, and the bar's own if all its bars share one |
| Causality.KnowledgeDecidesInputs | app/agent/data_sources.py:84-99 | What a day's decision is given, apart from the fill price, depends only on bars closed and headlines available by then |
| Causality.PricesDoNotMovePositions | app/agent/risk_manager.py:74-149 | Lots in order and quantity, CLOSED rows and their shares depend on no fill price, slippage or rounding: only on proposals and limits |
| Causality.DecisionsAreCausal | app/agent/backtest.py:460-523 | Two histories that agree on what is known at a day give the same decision, action and quantity, on that day and every earlier one |
| Causality.CommittedDecisionsAreCausal | app/agent/backtest.py:460-633 | In two backtests of several symbols, a symbol on whose market the same is known at a day gets the same action and quantity that day, and its committed decisions and rows through that day agree but for prices |
| Causality.ReturnsCompoundToTheLastClose | app/agent/risk_math.py:39-42 | There is one return per pair of neighbouring closes, and compounding them takes the first close to the last |
| Causality.RiskIsTheThirteenthWorstOf250 | app/agent/risk_manager.py:184-192 | The day's VaR is the thirteenth worst of the last 250 returns, and absent exactly with 250 bars or fewer |
| Trace.StepsAreNumberedByPosition | app/agent/trace.py:63-74 | After any callbacks step numbers equal positions, and open calls point to distinct LLM steps |
| Trace.OpenCallStays | app/agent/trace.py:76-111 | Events of other calls leave an open call, its position and the step it points to alone |
| Trace.EndCompletesItsOwnStep | app/agent/trace.py:89-111 | Whatever happens between a call's start and end, the step is still what the start appended when the end arrives, and the end changes exactly that step |
| Trace.WhatAnEndWrites | app/agent/trace.py:89-109 | Field by field, what an answer, an empty answer and an error leave in the step of their call |
| Trace.TraceRecorder.OnLlmEnd | app/agent/trace.py:89-104 | The in-place edits (duration, content, tool calls, token counts, model name or the requested one) are the specified ones, also for an unknown run id or a missing message |
| Explainer.Validate | app/agent/explainer.py:205-224 | The appending loops compute the specified citations and problems |
| Explainer.CitedInOrder | app/agent/explainer.py:210-218 | Citations come in the order of the drivers, each in its own order |
| Explainer.ProblemsSayWhatIsWrong | app/agent/explainer.py:205-224 | Exactly what is wrong is reported: unknown dates, citations not retrieved for their own date, and the missing dates |
| SortedText.SortedListsAll | app/agent/explainer.py:221-223 | The missing dates are listed each once, in increasing order |
| Explainer.ValidExactlyWhenGrounded | app/agent/explainer.py:205-224 | There are no problems exactly when every driver is about a known date, cites only what was retrieved for it, and every date has a driver |
| TraceAudit.OtherEventsDoNotMatter | app/agent/trace.py:52-127 | However other nodes' events interleave, the explainer's steps are those its own events alone would have recorded |
| TraceAudit.TraceRebuildsTheExplanation | app/agent/trace_audit.py:28-38 | For any tail, retrievals, reply and interleaving, the audit recovers the stored retrieved ids, citations, problems and validity |
| TraceAudit.StoredSays | app/agent/explainer.py:241-287 | What is stored: the retrieved ids of the first five tail dates, the citations and problems, and validity exactly for grounded and complete answers |
| OrderStatistics.CountSorted | app/agent/risk_math.py:50-57 | Sorting the losses changes no count |
| OrderStatistics.KthLargest | app/agent/risk_math.py:50-57 | Of the window's losses at least k are at or above the k-th largest and at most k-1 are above it |
| OrderStatistics.TailCountBetween | app/agent/risk_math.py:45-47 | k is the window share n(1-c) rounded up, with the ninth-digit guard, and at least 1 |
| OrderStatistics.VarIsTheTailQuantile | app/agent/risk_math.py:50-57 | VaR is one of the window's losses, at least k are no smaller, and fewer than n(1-c) are larger |
| OrderStatistics.CvarAtLeastVar | app/agent/risk_math.py:60-68 | CVaR is at least VaR |
| TailMean.CvarIsTheMeanOfTheTail | app/agent/risk_math.py:60-68 | k times CVaR is the sum of the losses in the labelled tail, and VaR, CVaR and tail are absent together, exactly with too few returns |
| TailMean.CvarIsVarPlusMeanExcess | app/agent/risk_math.py:60-68 | k times the gap between CVaR and VaR is the sum over the window's losses of what each exceeds VaR by |
| TailMean.OlderMovesDoNotMatter | app/agent/risk_math.py:50-68 | Only the last window of returns enters VaR and CVaR |
| OrderStatistics.TailIsTheVarTail | app/agent/risk_math.py:71-83 | The labelled tail is a sub-multiset of the window, its losses are the k largest in order, and its last entry is minus VaR |
| Kupiec.SelfIsLogConvex | app/agent/risk_math.py:169-190 | (m+1)^(m+1) / m^m grows with m, from Bernoulli's inequality |
| Kupiec.RatioRisesExactlyWhenUp | app/agent/risk_math.py:169-190 | When the likelihood ratio rises from x to x+1 breaches, in powers of counts only |
| Kupiec.RatioIsUnimodal | app/agent/risk_math.py:169-190 | Between two breach counts the ratio never falls below the smaller of the two |
| Kupiec.AcceptanceIsAnInterval | app/agent/risk_math.py:202-211 | For every sample size, rate and threshold the accepted counts are exactly those between the two reported ends, and none are reported exactly when none is accepted |
| KupiecPower.AcceptedExactlyWhen | app/agent/risk_math.py:202-211 | A count is accepted exactly when its ratio, counting for no more than 1, reaches the threshold |
| KupiecPower.RatioInPowers | app/agent/risk_math.py:169-190 | The likelihood ratio is p^x (1-p)^(n-x) n^n over x^x (n-x)^(n-x) |
| KupiecPower.ObservedRateIsAccepted | app/agent/risk_math.py:169-190 | At the observed rate itself the ratio is 1, so it is never rejected |
| KupiecPower.MassIsOne | app/agent/risk_math.py:214-219 | The binomial probabilities of all counts add to one, for every rate |
| KupiecPower.PmfStep | app/agent/risk_math.py:214-219 | One more day breaches with probability r: the recurrence that fixes the binomial probabilities |
| KupiecPower.PowerIsRejectionProbability | app/agent/risk_math.py:222-234 | One minus the range sum between the ends is the total probability of the counts the test rejects |
| Correlation.CauchySchwarz | app/agent/risk_math.py:138-149 | cov^2 is at most the product of the two sums of squares, for series of any length |
| Correlation.CorrelationIsBounded | app/agent/risk_math.py:138-149 | The value lies in -1..1; it is undefined exactly when a series is constant, and an error exactly for unequal or too short series |
| Correlation.CorrelationIsSymmetric | app/agent/risk_math.py:138-149 | Swapping the series changes nothing |
| Correlation.CorrelationIsScaleFree | app/agent/risk_math.py:138-149 | Shifting or positively scaling a series changes nothing |
| RawCorrelation.CorrelationInRawSums | app/agent/risk_math.py:138-149 | In raw sums: the value times the root of (n Saa - Sa^2)(n Sbb - Sb^2) is n Sab - Sa Sb |
| RawCorrelation.SelfAndMirror | app/agent/risk_math.py:138-149 | A non-constant series has correlation 1 with itself and -1 with its mirror image |
| Rsi.Rsi | app/agent/indicators.py:29-69 | The loops over changes and the smoothing compute the specified index, and None exactly below period + 1 closes |
| Rsi.WilderIsZeroExactlyWhen | app/agent/indicators.py:56-63 | A smoothed average of non-negative values is zero exactly when all are, or for period 1 when the last is |
| WilderSums.WilderIsWeighted | app/agent/indicators.py:56-63 | Wilder's average in closed form: the weight of every element in it |
| WilderSums.EqualValuesAverageToThemselves | app/agent/indicators.py:56-63 | A series of equal values averages to that value |
| WilderSums.LastElementCountsOncePerPeriod | app/agent/indicators.py:61-63 | Raising the last element by d raises the average by d over the period |
| WilderSums.RsiIsTheWeightedShare | app/agent/indicators.py:29-69 | RSI in closed form: 100 times the share of the weighted gains in weighted gains and losses, or 100 if nothing moved |
| Rsi.RsiIsHundredExactlyWithoutLosses | app/agent/indicators.py:65-69 | RSI lies in 0..100 and is 100 exactly when no change of the whole series is a loss (for period 1, the last change) |
| Rsi.OldLossIsRemembered | app/agent/indicators.py:56-66 | A history whose last two changes are gains and whose index with period 2 is 75, because of an earlier loss |
| Rsi.MirroredHistoriesAddToHundred | app/agent/indicators.py:41-69 | The index of the mirrored history is the complement, except that both are 100 exactly when nothing moved |
| Rsi.RsiIsScaleFree | app/agent/indicators.py:41-69 | Quoting prices in another unit changes nothing |
| Binomial.CombIsFactorialQuotient | scripts/eval_retrieval.py:30-37 | Pascal's recurrence gives n! / (k! (n-k)!) |
| Binomial.FlipsListAllOnce | scripts/eval_retrieval.py:30-37 | The reference list of coin flips holds every sequence of its length, each at one place |
| Binomial.FlipsAreBinomial | scripts/eval_retrieval.py:30-37 | Counting the listed coin-flip sequences by their heads gives the sums of binomial coefficients |
| SignTest.UnevenFlipsAreTails | scripts/eval_retrieval.py:30-37 | The flips at least as uneven as k are twice the lower tail, except on a tie, where they are all flips and twice the tail is more |
| SignTest.SignTestIsExact | scripts/eval_retrieval.py:30-37 | The p-value is the share of fair coin-flip sequences at least as uneven as observed, and the cap at 1 binds exactly on ties |
| SignTest.SignTestSymmetric | scripts/eval_retrieval.py:30-37 | It is symmetric, positive and at most 1, and 1 without observations |

## Left out

- LLM calls, prompts, reply parsing, Alpaca clients, psycopg, LangGraph scheduling and FastAPI: foreign code; agents and sources are arbitrary functions, and parsing is an arbitrary partial function.
- The SQL engine: queries are functions of the rows. The open-lot query's ORDER BY answer is a parameter of the ledger methods, constrained to what the query allows.
- Postgres full-text ranking and LIMIT: the retriever's ordered answer is arbitrary; only its window predicate is modelled.
- Binary floating point, Decimal precision, `erfc`, `lgamma`, normal quantiles, and parametric VaR and CVaR: the p-value cut is an arbitrary threshold on the likelihood ratio, and the square root any function that is one.
- Prices read by the live runner: `_record_paper_trade` is given an arbitrary price, and no claim is made that live fills follow the current price.
- Two processes resuming the same RUNNING backtest at once: the code allows it, and exactly-once days hold only for one driver.
- The resume log that `_start_resume` appends to the configuration; setting values are compared as texts.
- Other CHECK and NOT NULL constraints of the database than the forecast's on the position after a decision.
- Confidence, reasoning texts, opinions and snapshots stored with a decision: only what the ledger and the tape query read is modelled.
- PositionList.ListPositions: upper-cases ASCII letters only; the order of the returned list and its empty live-price fields are not in the answer.
- `list_decisions`, and the metrics computed from a finished backtest.
- The correlation matrix and `aligned_returns`, `sma`, and `parametric_var`: easy or library-bound members.
- A trace step's wall-clock `started_at`; a call's messages and allow-listed parameters are one text.
- Trace persistence, JSON conversion and the refusal to store keys; `completeness` and the audit's formatting.
- BacktestDriver.Backtest.Resume: exceptions are taken between symbols of a day; a raise in the middle of one symbol's writes rolls back to the same state. Kills at arbitrary points are in `RunProtocol`.
- ReplayMachine.Result.SellFifo: the lots are values in a sequence, so aliasing of lot objects between results is not captured.
- Explainer.Validate: problems are values carrying ids and dates, where the code formats each as a sentence.
- Rsi.Rsi: period 0, which divides by zero, is outside its precondition.
