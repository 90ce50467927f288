# Swing-trading backtest and SEC filing logic, modelled in Dafny

This project models the computational core of a swing-trading toolkit. There are
two sides: the backtest and its analyses, and the SEC-filing models.

**The backtest and its analyses**

- **Day-by-day trade simulator.** `Dash-App/app.py`, `trading_simulation`. Each
  trading day has two passes:
  - an exit pass over the open positions: the stop-loss first, then the profit
    targets PT1, PT2 and PT3, which can cascade within one bar, with a trailing stop;
  - an entry pass over the trade setups, gated by several checks: closed today,
    already open, observation date, business-day window, bar present, close in
    the entry band.

  Every fill goes into a ledger. At the end the ledger is stably sorted by date,
  then by ticker.
- **Trade standardisation.** `Dash-App/app.py` after the simulation, and
  `a2_standardize_executed_trades.py`.
  - Every ledger row is re-valued for a fixed position size.
  - The multiplier of an Initial row is forward-filled per ticker.
  - A closing row is scaled by its share of the three-share position.
  - The sign follows the cash flow.
  - The month name is added.
- **Outcome attribution.** `a3_analysis.py`, and `analyze_month` in
  `outcome_visuals.py`. Every Initial row of a month is followed to the next
  Initial row of its ticker. The closing actions in between are classified with a
  fixed payoff table, then counted and summed.
- **Profit and loss.** The summary in `build_graphs` of `Dash-App/app.py`. Per
  ticker it computes:
  - the average standardised entry;
  - realised P&L over the closing rows;
  - unrealised P&L from today's price;
  - the portfolio totals.

**The SEC-filing side**

- **Field validators.** The validators of `src/models/filing.py`: CIK zero-padding,
  form type, URL and quarter/year.
- **Filing record.** The SEC filing record of `src/edgar/models/edgar_filings.py`:
  - its chronological `__lt__`;
  - the 10-Q/10-K quarter rule;
  - `from_search_result` with the fiscal-period derivation;
  - `fiscal_period_display`.
- **Search criteria.** The criteria of `src/edgar/models/edgar_search_criteria.py`
  and of the older `edgar_online_search_criteria.py`:
  - date range and fiscal period exclude each other;
  - `for_fiscal_period`;
  - `matches_filing`.
- **Statement extractors.** The extractors of
  `src/edgar/sec_edgar_extraction/ingest_income_statement.py` and
  `ingest_balance_sheet.py`:
  - the comma-grouped amount reader;
  - the pre-order title search;
  - the section-text selection;
  - the error messages.

**Modelling conventions**

- Prices and dollar values are `real`.
- A pandas NaN or infinity is `None` in an `Option<real>`.
- A comparison with `None` is false, as a comparison with NaN is.
- Dates are `Calendar.Date` values: compared field by field, with weekdays taken
  from a day number.
- The business-day window counts Monday to Friday.
- Loops of the source are methods with loop invariants. Each method is proved
  equal to a specification function. The properties are proved about those
  functions.

Modules, one per file:

- `calendar`, `text`, `wrappers`, `sorting`: shared vocabulary.
- `trades`, `ledger`, `positions`, `simulator`: the backtest.
- `standardize`, `outcomes`, `pnl`: the analyses of its ledger.
- `filing_validators`, `sec_filings`, `search_criteria`, `online_search_criteria`,
  `amounts`, `statements`: the SEC side.

## Model

| member | source | states |
|---|---|---|
| Calendar.BeforeIsStrictTotalOrder | Dash-App/app.py:361-362 | date comparison is a strict total order (irreflexive, asymmetric, transitive, total) |
| Calendar.CountIsSizeOfBusinessDaySet | Dash-App/app.py:364-382 | the day-by-day business-day count equals the number of Monday-to-Friday days in (observation, current] |
| Calendar.CountIsMonotone | Dash-App/app.py:364-382 | the count never decreases as the current date advances, so a setup outside its window never becomes eligible again |
| Calendar.BusinessDaysSince | Dash-App/app.py:364-377 | the number of business days since observation is the size of the Monday-to-Friday set in (observation, current], and 0 when the current date is not after the observation day |
| Calendar.WeekHasFiveBusinessDays | Dash-App/app.py:364-382 | any seven consecutive days hold exactly five business days |
| Calendar.MonthNameIsInjective | a2_standardize_executed_trades.py:66-73 | two dates get the same month name exactly when their month numbers agree |
| Text.StrLeIsTotal | Dash-App/app.py:435 | string order on tickers is total |
| Text.StrLeIsTransitive | Dash-App/app.py:435 | string order on tickers is transitive |
| Text.StrLeIsAntisymmetric | Dash-App/app.py:435 | two tickers that are each at most the other are equal |
| Text.DigitsRoundTrip | src/edgar/models/edgar_filings.py:54-58 | the decimal text of a year reads back as that year |
| Trades.SideOf | Dash-App/app.py:394-410 | a setup is long exactly when its trade is "buy", short exactly when "short", otherwise it is never entered |
| Trades.EveryActionIsBuyXorSell | Dash-App/app.py:490-491 | every ledger action is in exactly one of the buy and sell lists |
| Trades.BarOn | Dash-App/app.py:236-241 | the bar found is in the table and has the date and ticker; none is found only when no such bar exists |
| Ledger.ChainsFromAppend | Dash-App/app.py:254-348 | two consistent runs of fills, the second starting from the holding the first leaves, make one consistent run |
| Positions.Open | Dash-App/app.py:412-426 | a new position is valid, holds 3 shares and has the setup's stop-loss as its stop |
| Positions.ExitStep | Dash-App/app.py:249-348 | a stop hit closes all open shares at the stop with 0 remaining and no target fill; otherwise targets fill in order, one share each, while the bar touches them; what stays open keeps the setup and has the closed shares removed |
| Positions.ManagePosition | Dash-App/app.py:240-348 | the step-by-step field updates of the source produce exactly `ExitStep` |
| Positions.StopOnlyTightens | Dash-App/app.py:300-301 | with targets beyond the entry, the trailing stop (entry after PT1, PT1 after PT2) never loosens: up for longs, down for shorts |
| Positions.CascadeChains | Dash-App/app.py:291-348 | target fills form a consistent share chain and leave `open - fills` shares, all on that date and ticker |
| Positions.ExitStepChains | Dash-App/app.py:249-348 | every exit step's fills chain from the open shares to what the remaining position holds (0 when deleted) |
| Simulator.Without | Dash-App/app.py:260 | deleting a key removes exactly that ticker from the key order and keeps it duplicate-free |
| Simulator.Put | Dash-App/app.py:413-426 | opening a position keeps at most one valid position per ticker and sets that ticker's entry |
| Simulator.Remove | Dash-App/app.py:283 | deleting a position keeps the book valid and removes exactly that ticker |
| Simulator.ExitTicker | Dash-App/app.py:228-348 | a ticker with no open position or no bar today is left unchanged; otherwise the log gains the exit step's fills and the ticker is deleted and marked closed today, or holds the step's remaining position; other tickers' positions are untouched; closed-today only grows |
| Simulator.ExitPass | Dash-App/app.py:227-231 | the exit pass over the key snapshot keeps the book valid |
| Simulator.EntrySetup | Dash-App/app.py:351-426 | a position opens exactly when the ticker is not closed today, not open, inside the window, has a bar, has a known side and closes in band; it is one Initial fill of 3 shares at the close |
| Simulator.InWindowOnObservationDay | Dash-App/app.py:360-380 | on its observation day a setup passes the window gate exactly when the window is not negative (the count is 0) |
| Simulator.InWindowNeverReopens | Dash-App/app.py:360-380 | a setup that has reached its observation day and fails the window gate fails it on every later day too |
| Simulator.EntryPass | Dash-App/app.py:351-426 | the entry pass keeps the book valid and does not change closed-today |
| Simulator.DayStep | Dash-App/app.py:221-426 | one trading day keeps at most one valid position per ticker |
| Simulator.RunDays | Dash-App/app.py:221-426 | after any number of days the book is valid |
| Simulator.SelectSetups | Dash-App/app.py:189-197 | "All" keeps the setup table as it is; another month keeps exactly the setups observed in that month; never more setups than given |
| Simulator.SelectSetupsKeepsOrder | Dash-App/app.py:189-197 | a named month keeps one setup per matching row, in the table's order |
| Simulator.UniqueDates | Dash-App/app.py:219 | every bar's date is listed, and only those |
| Simulator.ManageOpenPositions | Dash-App/app.py:226-348 | the exit loop over a copy of the keys, skipping deleted tickers, equals `ExitPass` |
| Simulator.EnterNewPositions | Dash-App/app.py:350-426 | the entry loop equals `EntryPass` |
| Simulator.TradingSimulation | Dash-App/app.py:179-436 | the whole simulation loop equals `Simulate` |
| Simulator.ExitTickerKeepsLedger | Dash-App/app.py:249-348 | after an exit step every ticker's ledger chain still ends at the shares its open position holds |
| Simulator.ExitPassKeepsLedger | Dash-App/app.py:227-348 | the same for the whole exit pass |
| Simulator.EntrySetupKeepsLedger | Dash-App/app.py:412-426 | the same for one entry |
| Simulator.EntryPassKeepsLedger | Dash-App/app.py:351-426 | the same for the whole entry pass |
| Simulator.RunDaysKeepsLedger | Dash-App/app.py:221-426 | the same after any number of days: a ticker has an open position exactly when its ledger chain leaves shares held |
| Simulator.EntrySetupSkipsClosed | Dash-App/app.py:355-356 | a ticker closed today gets no fill and no position from an entry check |
| Simulator.EntryPassSkipsClosed | Dash-App/app.py:223 | the same for the whole entry pass: no same-day re-entry |
| Simulator.ExitTickerRecordsClose | Dash-App/app.py:260-261 | a ticker whose position the exit step deletes is recorded as closed today |
| Simulator.ExitTickerKeepsDates | Dash-App/app.py:254-348 | exit fills carry the current date |
| Simulator.ExitPassKeepsDates | Dash-App/app.py:227-348 | no exit-pass fill is dated after the current date |
| Simulator.EntrySetupKeepsDates | Dash-App/app.py:413-420 | entry fills carry the current date |
| Simulator.EntryPassKeepsDates | Dash-App/app.py:351-426 | no entry-pass fill is dated after the current date |
| Simulator.RunDaysIsDated | Dash-App/app.py:221 | over increasing dates no fill is dated after the last day |
| Simulator.BarLeIsTotalPreorder | Dash-App/app.py:212 | the (Date, Ticker) price order is a total preorder |
| Simulator.DateTickerLeIsTotalPreorder | Dash-App/app.py:435 | the (Date, Ticker) ledger order is a total preorder |
| Simulator.UniqueDatesIncreasing | Dash-App/app.py:219 | the trading days of a date-sorted table are strictly increasing and end at the last bar's date |
| Simulator.SimulatedLedgerIsChained | Dash-App/app.py:428-436 | the returned ledger is sorted by (Date, Ticker), and every ticker's rows still form one unbroken share chain from zero |
| Sorting.SortIsSorted | Dash-App/app.py:435 | the insertion sort sorts by any total preorder |
| Sorting.SortIsStable | Dash-App/app.py:435 | rows with equal keys keep their original order |
| Sorting.WhereIsPositions | Dash-App/app.py:195 | the positions a boolean mask selects: exactly the rows satisfying the mask, in increasing order |
| Sorting.FilterIsWhere | Dash-App/app.py:195 | a boolean-mask selection is the masked rows, one per selected position, in table order |
| Standardize.MultiplierOf | Dash-App/app.py:446-447 | an Initial row's multiplier is `position_size / price`, and is not finite for a zero price |
| Standardize.LatestMultiplier | Dash-App/app.py:449 | a forward-filled multiplier only exists after an Initial row of the same ticker |
| Standardize.MonthColumn | Dash-App/app.py:479-486 | the month name is present exactly for months 1..12 and is that month's English name |
| Standardize.RowValue | Dash-App/app.py:459-476 | a value exists exactly for a finite multiplier on an Initial row or on a closing row of 1..3 shares (exact amounts: `Standardize.InitialRowIsPositionSize`, `Standardize.ClosingRowUsesLatestInitial`) |
| Standardize.StandardizedRow | Dash-App/app.py:442-497 | row i keeps the ledger row, has a month exactly for months 1..12, and has a value only under a finite multiplier (multiplier and value: `Standardize.LatestIsLastInitial`, `Standardize.ClosingRowUsesLatestInitial`, `Standardize.RowWithoutInitialHasNoValue`, `Standardize.ValueSignFollowsCashFlow`) |
| Standardize.StandardizeRows | Dash-App/app.py:442-497 | the row loop carrying each ticker's latest multiplier writes, in row order, one standardised row per ledger row |
| Standardize.StandardizeTrades | Dash-App/app.py:429-497 | fails exactly when the simulation executed no trade (the empty ledger has no `Action` column); otherwise one standardised row per ledger row, in row order |
| Standardize.StandardizeExecutedTrades | a2_standardize_executed_trades.py:19-85 | the same pass with $50 positions: one standardised row per ledger row, in ledger order |
| Standardize.LatestIsLastInitial | a2_standardize_executed_trades.py:31 | the forward fill yields the multiplier of the last Initial row of the ticker |
| Standardize.InitialRowIsPositionSize | a2_standardize_executed_trades.py:46-49 | an Initial row is worth exactly the position size: negative for Initial Buy, positive for Initial Short |
| Standardize.ClosingRowUsesLatestInitial | Dash-App/app.py:459-476 | a closing row uses the latest earlier Initial's multiplier times its price times shares/3; it has a value exactly for 1..3 shares |
| Standardize.RowWithoutInitialHasNoValue | a2_standardize_executed_trades.py:40-44 | a row with no earlier Initial row of its ticker has no multiplier and no value |
| Standardize.LatestIsPositive | a2_standardize_executed_trades.py:25 | with positive prices and size, every finite multiplier is positive |
| Standardize.ValueSignFollowsCashFlow | a2_standardize_executed_trades.py:78-85 | with positive prices a value is nonzero, and negative exactly for the buy-type actions |
| Outcomes.ClassifyLeg | a3_analysis.py:159-184 | failed (-27) exactly when the first closing action is the stop; succeeded only after PT1, and then the dollars are 13, 36, 49 or 74; unknown exactly at 0 |
| Outcomes.Classify | outcome_visuals.py:52-105 | the dollars are one of the six table values, -27 exactly when failed and 0 exactly when unknown; an empty episode or a non-Initial row gives unknown/0 |
| Outcomes.PayoffTableIsPerShareArithmetic | a3_analysis.py:158-213 | on every closing sequence the simulator records, the table value equals the per-share payoff of three $100 shares (-9% stop, +13/+23/+38% targets, stop trailing to entry then PT1); only the empty episode is unknown |
| Outcomes.ShortTableMirrorsLong | a3_analysis.py:188-213 | the short table is the long table under the Buy/Sell mirror of labels |
| Outcomes.Mirror | outcome_visuals.py:80-105 | the mirror swaps buy and sell actions and keeps Initial-ness |
| Outcomes.NextOpening | a3_analysis.py:137-142 | the episode ends at the first later opening of the same ticker, or at the end of the table |
| Outcomes.EpisodeActions | a3_analysis.py:132-153 | the episode's actions never include an Initial action |
| Outcomes.EpisodeIsTickerRowsInOrder | a3_analysis.py:132-153 | the episode's actions are those of the ticker's rows strictly between the opening and the next opening, one per row, in table order |
| Outcomes.Analysis | a3_analysis.py:115-125 | every record is of an Initial row and its dollars are table values; never more records than rows |
| Outcomes.AnalysisRecordsSelectedRows | a3_analysis.py:115-125 | exactly the selected Initial rows of the month get a record, built from the row and its episode |
| Outcomes.AnalysisFollowsSelectedRows | a3_analysis.py:115-125 | one record per selected row, in table order |
| Outcomes.AnalyzeMonth | outcome_visuals.py:14-115 | the driver loop with its `break` scan returns the records of `Analysis` on the (Ticker, Date)-sorted table |
| Outcomes.OutcomeCountsCoverRecords | a3_analysis.py:229-233 | the failed, succeeded and unknown counts add up to the number of records |
| Outcomes.OutcomeCounts | a3_analysis.py:229-233 | `value_counts` over the outcome column: one count per outcome (failed, succeeded, unknown), each the number of records with that outcome, together the number of records |
| Outcomes.ShortAndLongTotalsAddUp | a3_analysis.py:241-247 | the short total plus the long total equals the overall dollar total |
| Outcomes.AnalyzeApril | a3_analysis.py:83-247 | fails exactly when April has no record (the outcome column is missing); otherwise the April records, counts over exactly the three outcomes summing to the record count, and totals with short + long = all |
| Pnl.AverageEntry | Dash-App/app.py:596-599 | an average exists exactly when the initial shares do not sum to 0, and times those shares gives the summed initial value |
| Pnl.ClosingPnl | Dash-App/app.py:608-616 | a closing row's P&L is known exactly when its value is known and it closes a nonzero number of shares (amount: `Pnl.ClosingPnlIsCashFlow`) |
| Pnl.Realized | Dash-App/app.py:604-616 | no closing row gives 0 (amount over many rows: `Pnl.RealizedIsClosingCashFlow`) |
| Pnl.RealizedKnownIff | Dash-App/app.py:604-616 | the realised P&L is known exactly when there is no closing row, or the average entry and every closing row's value are known with nonzero shares |
| Pnl.UnrealizedFrom | Dash-App/app.py:617-637 | 0 with no shares open or an unlisted ticker; NaN exactly for a listed NaN close, a zero anchor or an unknown average (sign and zero: `Pnl.UnrealizedFollowsPriceMove`) |
| Pnl.QuoteOf | Dash-App/app.py:617-622 | a ticker absent from today's prices is unlisted; a listed one carries its close, NaN included |
| Pnl.TickerPnl | Dash-App/app.py:581-647 | a ticker gets a row exactly when it has an initial trade of the chosen type; the row is open exactly when shares remain, and total = realised + unrealised; the unrealised P&L is anchored at the LATEST chosen Initial trade (the corrected anchor of the finding below) |
| Pnl.RealizedPnl | Dash-App/app.py:604-616 | the accumulation loop equals `Realized` |
| Pnl.TickerSummary | Dash-App/app.py:582-647 | the per-ticker body equals `TickerPnl` (latest-Initial anchor) |
| Pnl.SummarizeTickers | Dash-App/app.py:578-647 | the groupby loop equals `Summary` (latest-Initial anchor) |
| Pnl.ProfitAndLoss | Dash-App/app.py:578-647 | the summary runs over the tickers in sorted order, each with its rows sorted by date (latest-Initial anchor) |
| Pnl.Summary | Dash-App/app.py:581-647 | no more summary rows than tickers: a ticker contributes at most one row (latest-Initial anchor) |
| Pnl.SummaryRowsAddUp | Dash-App/app.py:640-647 | every summary row belongs to a listed ticker, is open exactly when shares remain, and its total is realised + unrealised |
| Pnl.TotalsAddUp | Dash-App/app.py:651-653 | when every row is known, the total P&L column sum equals the realised sum plus the unrealised sum |
| Pnl.Totals | Dash-App/app.py:650-653 | the portfolio totals fail exactly for an empty summary (the frame has no columns); otherwise they are the three column sums, NaN skipped |
| Pnl.PortfolioTotalsAddUp | Dash-App/app.py:650-653 | the reported totals exist exactly when the summary has a row, and then, with every row known, total = realised + unrealised |
| Pnl.CapitalDeployedCountsEntries | Dash-App/app.py:655 | each Initial row of the chosen position type adds one position size to the capital deployed, other rows add nothing |
| Pnl.CapitalOfAllIsLongPlusShort | Dash-App/app.py:562-567 | the capital deployed for all positions is that for long positions plus that for short positions |
| Pnl.RealizedIsClosingCashFlow | Dash-App/app.py:605-616 | realised P&L equals the closing rows' signed cash flow plus the average entry times the shares closed, for longs and shorts alike |
| Pnl.ClosedEpisodeRealizedIsNetCashFlow | Dash-App/app.py:596-616 | for one fully closed three-share position, realised P&L is the net standardised cash flow: entry value plus closing values |
| Pnl.EpisodeRows | Dash-App/app.py:584-606 | in one position's rows the entry is the only initial trade and the rest are the closing trades |
| Pnl.UnrealizedOfTodaysQuote | Dash-App/app.py:617-647 | an open ticker missing from today's prices has 0 unrealised P&L; one listed with a NaN close has a NaN unrealised and total P&L |
| Pnl.UnrealizedVanishesAtEntryPrice | Dash-App/app.py:617-637 | unrealised P&L is 0 when today's price equals the open position's entry price |
| Pnl.UnrealizedFollowsPriceMove | Dash-App/app.py:630-637 | with shares open, unrealised P&L is positive exactly when the price moved in the position's favour, and 0 exactly when unchanged |
| Pnl.UnrealizedAsWritten | Dash-App/app.py:628 | the source's first-initial anchor agrees with the model whenever a ticker has a single initial trade |
| Pnl.ReentryAnchorCounterexample | Dash-App/app.py:627-637 | for a re-entered ticker the source's anchor reports 50 where the open position has made 0 |
| FilingValidators.ZFill | src/models/filing.py:53 | `zfill`: width-padded with leading zeros, the input kept as the suffix |
| FilingValidators.ValidateCik | src/models/filing.py:48-53 | accepted exactly for 1..10 ASCII digits; the result is 10 digits ending with the input |
| FilingValidators.CikNormalisationKeepsValue | src/models/filing.py:53 | padding keeps the numeric value, and validating again changes nothing |
| FilingValidators.ValidateFormType | src/models/filing.py:55-61 | accepted exactly for 10-K, 10-Q, 8-K, 20-F, 6-K, unchanged |
| FilingValidators.ValidateUrl | src/models/filing.py:63-68 | accepted exactly for the `https://www.sec.gov/` prefix, unchanged |
| FilingValidators.ValidatePeriod | src/models/filing.py:78-86 | accepted exactly for quarter Q1..Q4 and a 4-character year |
| Filings.ValidateFiscalQuarter | src/edgar/models/edgar_filings.py:148-158 | rejected exactly for a 10-Q without a truthy quarter or a 10-K with one |
| Filings.MakeFiling | src/edgar/models/edgar_filings.py:31-51 | a filing is constructed, unchanged, exactly when every field constraint holds, the URL having no line break; the quarter rule is checked only when a quarter is passed |
| Filings.SecUrlPatternRefusesLineBreak | src/edgar/models/edgar_filings.py:51 | a URL with the SEC prefix but a line break after it fails the URL pattern |
| Filings.OmittedQuarterIsNotValidated | src/edgar/models/edgar_filings.py:38-41 | a 10-Q built without a fiscal quarter is accepted, while one passed an explicit missing quarter is rejected |
| Filings.Less | src/edgar/models/edgar_filings.py:75-94 | the comparison gives no answer (the source raises) only for two quarterly filings of the same year |
| Filings.LessIsChronological | src/edgar/models/edgar_filings.py:75-94 | less exactly when: earlier year; or same year, quarterly before annual; or both quarterly with a smaller quarter; or both annual, submitted earlier |
| Filings.LessIsIrreflexiveAndAsymmetric | src/edgar/models/edgar_filings.py:75-94 | no filing is less than itself; if a < b then not b < a |
| Filings.LessIsTransitive | src/edgar/models/edgar_filings.py:75-94 | the order is transitive on valid filings |
| Filings.FiscalPeriodDisplay | src/edgar/models/edgar_filings.py:53-58 | "FY " then the year for a 10-K; the quarter, a space, then the year otherwise |
| Filings.DisplayIdentifiesPeriod | src/edgar/models/edgar_filings.py:53-58 | two valid filings display alike exactly when year, form and (for 10-Q) quarter agree |
| Filings.QuarterOfMonth | src/edgar/models/edgar_filings.py:134-135 | `(month-1)//3+1` is the quarter 1..4 containing the month |
| Filings.DerivedPeriod | src/edgar/models/edgar_filings.py:126-135 | the year is the given one unless missing or 0, else the filing year; a quarter exists exactly for a 10-Q; a given quarter becomes "Q" followed by it, and a derived one is the filing month's quarter |
| Filings.FromSearchResultFailsOnlyOnFields | src/edgar/models/edgar_search_criteria.py:168-191 | a search result converts exactly when CIK, name, form, derived year and URL are valid; the derived quarter always satisfies the 10-Q/10-K rule |
| Filings.FromSearchResult | src/edgar/models/edgar_search_criteria.py:168-191 | a converted filing is exactly the result's CIK, name, form, filing date, file number and URL with the derived fiscal year and quarter (when it converts: `Filings.FromSearchResultFailsOnlyOnFields`) |
| SearchCriteria.MakeCriteria | src/edgar/models/edgar_search_criteria.py:55-78 | constructed exactly when precisely one of date range and (truthy) fiscal year is given and the fields are valid, with the two source messages |
| SearchCriteria.ForFiscalPeriod | src/edgar/models/edgar_search_criteria.py:80-104 | constructed exactly for a valid CIK, year in 1900..2100 and quarter Q1..Q4; fiscal mode; 10-Q exactly when a quarter is given |
| SearchCriteria.MatchRequiresCikAndForm | src/edgar/models/edgar_search_criteria.py:205-206 | a match implies the same CIK and form type |
| SearchCriteria.MatchesFiling | src/edgar/models/edgar_search_criteria.py:196-217 | a match needs the same CIK and form (per mode: `SearchCriteria.FiscalMatch`, `SearchCriteria.DateRangeMatch`) |
| SearchCriteria.FiscalMatch | src/edgar/models/edgar_search_criteria.py:208-213 | in fiscal mode a match is exactly CIK, form and year equal, and the quarter equal when one is asked |
| SearchCriteria.DateRangeMatch | src/edgar/models/edgar_search_criteria.py:215-217 | in date mode a match is exactly CIK and form equal, start <= submission and, with an end, submission <= end |
| SearchCriteria.FiscalPeriodCriteriaSelectPeriod | src/edgar/models/edgar_search_criteria.py:80-104 | the fiscal-period criteria select exactly the company's 10-Q of that quarter, or its 10-K, of that year |
| OnlineSearch.ToOnlineFiling | src/edgar/models/edgar_online_search_criteria.py:112-129 | a result converts exactly when CIK, name, form and URL satisfy the record's patterns, the URL having no line break; the converted record is the result's CIK, name, form, filing date, file number and URL unchanged |
| OnlineSearch.MatchesOnlineFiling | src/edgar/models/edgar_online_search_criteria.py:131-151 | a match needs the same CIK and form |
| OnlineSearch.OnlineMatchByMode | src/edgar/models/edgar_online_search_criteria.py:131-151 | with a fiscal year, a match is exactly CIK and form equal; in date mode also the filing date within the range, open-ended without an end; with neither, CIK and form decide |
| OnlineSearch.NewerMatchRefinesOlder | src/edgar/models/edgar_online_search_criteria.py:131-151 | what the newer test accepts the older accepts; outside fiscal mode they agree |
| OnlineSearch.OnlineFiscalModeIgnoresYear | src/edgar/models/edgar_online_search_criteria.py:143-145 | in fiscal mode the older test accepts a filing of another year, which the newer rejects |
| Amounts.GroupRun | src/edgar/sec_edgar_extraction/ingest_income_statement.py:10 | the greedy `(?:,\d{3})*`: whole `,ddd` groups with no further group right after them |
| Amounts.AmountAt | src/edgar/sec_edgar_extraction/ingest_income_statement.py:10-12 | an amount is read exactly when a digit follows the label; it is a prefix made of digits and commas |
| Amounts.AmountAtIsGreedyMatch | src/edgar/sec_edgar_extraction/ingest_income_statement.py:10-12 | the match is greedy: one to three leading digits (fewer only when no digit follows), then whole `,ddd` groups, and no group right after it |
| Amounts.SearchFrom | src/edgar/sec_edgar_extraction/ingest_income_statement.py:10-13 | nothing is found exactly when no occurrence of the label from the start position on is followed by a digit; otherwise the amount after the leftmost such occurrence is read |
| Amounts.ExtractAmount | src/edgar/sec_edgar_extraction/ingest_balance_sheet.py:5-15 | None exactly when no occurrence of `label$` in the text is followed by a digit |
| Amounts.GroupedValue | src/edgar/sec_edgar_extraction/ingest_income_statement.py:12-13 | removing the commas of a thousands-grouped number gives digits of the same value |
| Amounts.ExtractReadsPrintedAmount | src/edgar/sec_edgar_extraction/ingest_income_statement.py:9-19 | a number printed with thousands separators after `label$` reads back as that number, whatever text comes before or after, as long as `label$` does not occur earlier and neither a digit nor a `,ddd` group follows the number |
| Amounts.ReadsPrintedAmountAlone | src/edgar/sec_edgar_extraction/ingest_income_statement.py:9-19 | the same for a text that is exactly `label$` and the printed number |
| Amounts.SearchFindsFirstMatch | src/edgar/sec_edgar_extraction/ingest_income_statement.py:10 | when the key does not occur before a position where it is followed by a number, the search reads that number |
| Amounts.AmountAtGrouped | src/edgar/sec_edgar_extraction/ingest_income_statement.py:10 | the number pattern matches a printed number whole when neither a digit nor a `,ddd` group follows it |
| Amounts.ReadsNetSales | tests/edgar/sec_edgar_extraction/test_ingest_income_statement.py:14-16 | "Net sales$95,359" reads 95359 |
| Amounts.ReadsNetIncome | tests/edgar/sec_edgar_extraction/test_ingest_income_statement.py:18-20 | "Net income$24,780" reads 24780 |
| Amounts.ReadsTotalAssets | tests/edgar/sec_edgar_extraction/test_ingest_balance_sheet.py:14-16 | "Total assets$331,233" reads 331233 |
| Amounts.ReadsIncomeStatementText | tests/edgar/sec_edgar_extraction/test_ingest_income_statement.py:22-49 | in the two-line text "Net sales$95,359\nNet income$24,780", net sales read 95359 although text follows, and net income read 24780 although another caption comes first |
| Amounts.NetSalesBeforeMoreText | tests/edgar/sec_edgar_extraction/test_ingest_income_statement.py:22-49 | the first line's figure, 95359, is read from the two-line text |
| Amounts.NetIncomeAfterOtherCaption | tests/edgar/sec_edgar_extraction/test_ingest_income_statement.py:22-49 | the second line's figure, 24780, is read from the two-line text |
| Amounts.ReadsCashAndEquivalents | tests/edgar/sec_edgar_extraction/test_ingest_balance_sheet.py:18-20 | "Cash and cash equivalents$28,162" reads 28162 |
| Amounts.UngroupedFigureIsTruncated | src/edgar/sec_edgar_extraction/ingest_income_statement.py:10-12 | an ungrouped run of four or more digits is read as its first three digits only |
| Amounts.UngroupedNetSales | src/edgar/sec_edgar_extraction/ingest_income_statement.py:9-13 | "Net sales$95359" reads 953 |
| Statements.Search | src/edgar/sec_edgar_extraction/ingest_income_statement.py:75-84 | any node found has a text matching the title pattern |
| Statements.FirstWithTitle | src/edgar/sec_edgar_extraction/ingest_balance_sheet.py:47-57 | the first node of a list with a matching title, and none exactly when no node matches |
| Statements.SearchIsFirstInPreOrder | src/edgar/sec_edgar_extraction/ingest_income_statement.py:65-84 | the recursive search returns the first matching node in pre-order, or none |
| Statements.SearchAllIsFirstInPreOrder | src/edgar/sec_edgar_extraction/ingest_balance_sheet.py:47-57 | the same for the search over a node's children list |
| Statements.FirstMention | src/edgar/sec_edgar_extraction/ingest_income_statement.py:43-47 | the first child whose lower-cased text contains the keyword, and none exactly when no child does |
| Statements.ReadSectionText | src/edgar/sec_edgar_extraction/ingest_income_statement.py:43-51 | the reading loop with `break` and the first-child fallback equals `SectionText` |
| Statements.SectionText | src/edgar/sec_edgar_extraction/ingest_income_statement.py:43-51 | no children give an empty text (which child supplies it: `Statements.SectionTextPrefersMention`, `Statements.SectionTextFallsBack`) |
| Statements.SectionTextPrefersMention | src/edgar/sec_edgar_extraction/ingest_balance_sheet.py:25-30 | the first child mentioning the keyword supplies the section text |
| Statements.SectionTextFallsBack | src/edgar/sec_edgar_extraction/ingest_balance_sheet.py:25-33 | with no mention, the first child's text is used (empty when there is no child) |
| Statements.StatementFigures | src/edgar/sec_edgar_extraction/ingest_income_statement.py:21-63 | fails exactly when no section is found or its text is empty, with "... section not found." or "No ... text found." respectively; otherwise the two figures are read from the section text by their captions (Net sales/Net income, Total assets/Cash and cash equivalents) |
| Statements.GetStatement | src/edgar/sec_edgar_extraction/ingest_balance_sheet.py:17-45 | `get_balance_sheet` / `get_income_statement` equal `StatementFigures` |
| Statements.FiguresComeFromMentioningChild | src/edgar/sec_edgar_extraction/ingest_income_statement.py:43-63 | a single child mentioning the keyword is where both figures are read from |
| Statements.IncomeTitleOfTheTests | tests/edgar/sec_edgar_extraction/test_ingest_income_statement.py:27 | the test document's "CONDENSED CONSOLIDATED STATEMENTS OF OPERATIONS" heading matches the income-statement pattern, ignoring case |
| Statements.BalanceTitleOfTheTests | tests/edgar/sec_edgar_extraction/test_ingest_balance_sheet.py:27 | the test document's "CONDENSED CONSOLIDATED BALANCE SHEETS" heading matches the balance-sheet pattern |

## Findings

| source | as written | input that shows it | evidently intended | confidence | as-written member | corrected member |
|---|---|---|---|---|---|---|
| Dash-App/app.py:627-637 | the unrealised P&L of an open position rescales the average standardised entry by today's price over the price of the ticker's FIRST Initial trade | ticker T: Initial Buy at 10 (value -50), Stop-Loss Sell at 9 (45), Initial Buy again at 20 (-50); today's price 20 | the anchor is the entry of the position still open (the latest Initial trade), so an unchanged price gives 0 | medium, not executed | Pnl.UnrealizedAsWritten, Pnl.ReentryAnchorCounterexample | Pnl.TickerPnl, Pnl.UnrealizedVanishesAtEntryPrice |

## Left out

- Floating point: prices and dollars are exact `real`, so rounding and the exact values of 1/3 and 2/3 are not modelled. NaN and infinities are `None`, or `Standardize.Multiplier` for the multiplier column.
- File and network I/O is left out: every `read_csv`/`to_csv`, the yfinance downloads, today's-price CSV. The setup, price and ledger tables and the current-price map are parameters.
- The Dash layout, callbacks, figures, cards and grid are left out. So are the printed warnings and `print` output, and the percentage that divides by the capital deployed.
- Date parsing (`pd.to_datetime`, `datetime.fromisoformat`, `strftime`) is not modelled: dates arrive as `Calendar.Date`, and timestamps as `Filings.Instant` (date and second of day).
- pandas `BDay`/`bdate_range` is a Monday-to-Friday count with no holiday calendar.
- Text handling is ASCII-only:
  - `str.isdigit`, `\d` and `str.lower()`/`re.IGNORECASE` cover ASCII only; Unicode digits and case folds outside ASCII are not modelled;
  - `\s` uses the `str.isspace` code points.
- Row selection of the source is simplified:
  - the setup row is kept inside the position instead of its row index into the filtered setup table;
  - the price lookup `set_index('Ticker')['Close']` is a map, one close per ticker (a NaN close is `None`); duplicate tickers in today's prices are not modelled.
- Pnl.TickerPnl, Pnl.TickerSummary, Pnl.SummarizeTickers, Pnl.ProfitAndLoss and Pnl.Summary use the corrected anchor of the finding (the latest chosen Initial trade), not the first one at `app.py:628`. The source's anchor is `Pnl.UnrealizedAsWritten`, and the two agree for any ticker with a single Initial trade.
- A zero anchor price makes today's price over it infinite or NaN in the source. Both are a missing value here, although pandas would sum an infinity.
- Pnl.ProfitAndLoss: per-ticker groups are sorted with the stable sort. The source's single-column `sort_values(by='Date')` is not guaranteed stable, so rows of one ticker on one date may come out in another order there.
- Pnl.CapitalDeployed: counts the Initial rows of the chosen type times the position size (see `Pnl.CapitalDeployedCountsEntries`, `Pnl.CapitalOfAllIsLongPlusShort`). The percentage of it that the dashboard shows is display arithmetic and is left out, as is the unused `closed_trades_tickers` list.
- Pydantic's aggregated validation messages are simplified to one message per failed field (the mode-exclusion messages are exact). A missing dictionary key (`KeyError`) is not modelled: search results carry every required field.
- `SecFiling.filing_age_days` reads the clock and is left out. The `display_name` lookup calls `company_mapping`, which is not part of this model.
- `get_financial_data` and the scraper/client calls in the criteria classes are network code and are not modelled.
- The metadata `get_income_statement`/`get_balance_sheet` pass through unchanged (filing identifiers, `IncomeStatementItems` fields other than the two figures) is not modelled.
- `a1_simulate_trades.py` (a data download and an older, commented-out simulator) is not part of this model.
- Outcomes.ClassifyLeg: the exact table row for each action pattern is stated only through `Outcomes.PayoffTableIsPerShareArithmetic`, on the sequences the simulator can record.
- Pnl.Summary: its own contract bounds only the number of rows. What each row holds is stated by `Pnl.SummaryRowsAddUp` and `Pnl.TickerPnl`.
- Positions.StopOnlyTightens: states only the direction in which the trailing stop moves. The exact stop for each number of open shares (stop-loss, entry, PT1) is part of `Positions.PositionValid`, which `Positions.ExitStep` keeps.
- Simulator.Simulate: has no contract of its own. What the returned ledger satisfies is stated by `Simulator.SimulatedLedgerIsChained`, and `Simulator.TradingSimulation` is proved equal to it.
