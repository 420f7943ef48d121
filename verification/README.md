# Verification of the fxlab paper broker and build agent

A Dafny model of four parts of the repository, each with the laws it is meant to keep.

**Paper broker** (`libs/broker/paper_broker_adapter.py`). An in-memory exchange: four order
indexes, a position book with weighted-average cost, a cash balance and fill lists.
`Orders.dfy` holds orders, fill conditions and the half-even partial fill; `Ledger.dfy` the
append-only fill history, the position book as a fold over it, and the accounting identities;
`Broker.dfy` the state machine and its invariant; `BrokerRuns.dfy` the tick loop as one
simultaneous step and the tick that raises; `BrokerTraces.dfy` what holds in every state that
a trace can reach, raising ticks included; `BrokerTheorems.dfy`, `TickPermutation.dfy` and
`OrderLife.dfy` the theorems over whole runs; `BrokerTicks.dfy` which orders one tick fills and
what it answers; `BrokerExamples.dfy` runs that show where the
promises end; `PaperBroker.dfy` the adapter object, every method proved to be a transition of
the state machine.

**Repair loop of the implementation step** (`build.py`). An untrusted agent rewrites files
round after round. `Journal.dfy` is the write journal and its rollback; `TestRuns.dfy` relates
the verdicts of the test files to what the output of a suite run names; `RepairRounds.dfy` is
the loop as a function of its state, with regression guard, promoted tests, attempt budget,
oscillation and stall checks; `RepairSteps.dfy` what each step of it does, and when a round ends
how; `RepairTheorems.dfy` what it guarantees over whole runs;
`RepairLoop.dfy` the session object that computes it in place.

**Accumulator merge** (`build.py`). `Accumulator.dfy` states the merge on documents (gaps and
statements); `AccumulatorOrder.dfy` says which definition of a name counts and which name comes
first; `AccumulatorMerge.dfy` is the line-splicing code proved to compute it;
`AccumulatorText.dfy` describes the result statement by statement and character by character;
`AccumulatorSeries.dfy` is about merging text after text, each read back by the parser, and
`AccumulatorExamples.dfy` has a parser for which all of this applies.

**Progress files** (`build.py`, and the older updater in `files/build.py`), character by
character. `Text.dfy` searches and strips lines; `Progress.dfy` is the printer, the parser,
both updaters and the repairer; `ProgressLines.dfy` is how the regular expressions match
printed lines; `ProgressRows.dfy` reads printed rows back; `ProgressUpdates.dfy` and
`ProgressRepair.dfy` say what the updaters and the repairer do to rows; `ProgressDamage.dfy` and
`ProgressHand.dfy` are about lines with any spacing and case; `ProgressRuns.dfy`,
`ProgressMeaning.dfy`, `ProgressPlan.dfy` and `ProgressResume.dfy` are the theorems about
sequences of updates; `ProgressFile.dfy` holds the program's own operations.

## Results that differ from what the code is meant to do

- A tick that meets a fill price that is not positive raises after it has updated the order
  and before it has recorded the fill. `BrokerRuns.TickKeepsExactly`: the ledger agrees after
  a tick if and only if every order that fires does so at a positive price;
  `BrokerExamples.FreeOrderIsUnrecorded` is a run that ends so. Such a tick breaks no more than
  that: completed orders may keep their request, and a fill list may lack a fill. All other
  indexes, the positions, cash, commission, equity and price protection stay exact in every
  trace, at any prices (`BrokerTraces.TraceStaysSturdy`, `BrokerTheorems.EquityOfEveryRun`,
  `MoneyOfEveryRun`).
- Cash plus cost basis misses the realized profit by exactly the cost misstated by fills that
  cross zero or reopen a flat symbol (`BrokerTheorems.CostIdentity`, `SlipExactly`); reopening
  always misstates it, by the whole value of the fill (`ReopeningSlip`), and
  `BrokerExamples.ReopeningRun` is a run that does. Equity at market prices is exact in every
  run (`EquityIdentity`).
- The journal cannot tell an absent file from an empty one. `Journal.RollbackRestores`: a
  rollback is exact if and only if no file that existed empty has been written since.
- The regression guard sees only what the output of a suite run names. A run that does not
  start, stops at a file that cannot be imported, or no longer finds a test file says nothing
  about the others, and the loop keeps such a round. `RepairTheorems.RunProtects`: the tests
  that passed at the start or were promoted in a kept round pass at the end if and only if
  those do that the last kept run was blind to. `TestRuns.SilenceProvesExactly` says which runs
  prove that nothing regressed, and `RepairTheorems.ConfigurationEscapes` is one agent answer,
  a broken runner configuration, after which the loop ends with a protected test broken and
  nothing rolled back.
- A merge that would not parse keeps the existing bodies.
  `AccumulatorSeries.MergeOnceOverridesExactly` gives the exact condition under which the
  proposal's bodies win, and `DecoratedIsKept` an instance.
- Merging a proposal into its own result can restore trailing white space that the first
  merge stripped. `AccumulatorSeries.MergeTwiceExactly` gives the exact condition,
  `AccumulatorExamples.SecondMergeRespaces` an instance, and from the second merge on nothing changes
  (`ThirdMergeChangesNothing`).
- Decorators stand before the line at which a statement starts, so a merge never moves them: a
  new symbol is appended without its decorators, and an updated one keeps the old ones
  (`AccumulatorSeries.GapsStay`, `ProposedGapsDoNotMatter`).
- The repairer does not recognise milestone ids that end in a letter, which the parser and the
  updaters accept, and gives their damaged steps the tag of another milestone.
  `ProgressRepair.RepairExactly` and `ProgressRuns.RepairedOldRun`: it restores the text if and
  only if no damaged step belongs to such a milestone. Only the tag text is wrong: what the
  parser reads back is right for every id, also when work goes on after the repair
  (`ProgressRuns.RepairedOldRunParses`), and `ProgressResume.LetteredIsMisfiled` shows both.
- A suite in which every test passes is red without naming a file when a gate of the run, such
  as the coverage threshold, fails; the loop ends there (`TestRuns.RedWithoutReport`,
  `RepairTheorems.NoVerdictIsBlind`).
- A step id outside S1 to S8 completes no step but marks the milestone done
  (`ProgressFile.UnknownStepClosesMilestone`), and after the last step of a milestone the
  header names no step, so work resumes at S4 (`ProgressResume.ResumeFromHeader`).

## Model

| member | source | states |
|---|---|---|
| Orders.HalfEven | libs/broker/paper_broker_adapter.py:496 | rounding moves a quantity by at most one half, and ties go to the even unit |
| Orders.FillIsPositive | libs/broker/paper_broker_adapter.py:494-498 | every fill makes progress, for any ratio |
| Orders.FillQuantityBounds | libs/broker/paper_broker_adapter.py:494-501 | a fill takes at least one unit or the whole remainder; it overshoots by at most half a unit, and never for a whole remainder |
| Orders.FillIsRoundedShare | libs/broker/paper_broker_adapter.py:494-498 | a fill is the share of the remainder rounded to the nearest unit, ties to even, or the whole remainder exactly when the share is at most one half |
| Orders.WorthOfBlend | libs/broker/paper_broker_adapter.py:503-510 | the volume-weighted average values all filled units at exactly what was paid |
| Orders.BlendWithin | libs/broker/paper_broker_adapter.py:503-510 | an average stays on the same side of a limit or stop as all of its fills |
| Ledger.MovedAccounting | libs/broker/paper_broker_adapter.py:669-721 | one fill changes book cost by the money paid plus the profit realized plus the misstated cost, and the quantity by the signed fill |
| Ledger.MovedExactly | libs/broker/paper_broker_adapter.py:685-721 | side by side: units that leave a side realize price less average and keep the average, units added realize nothing and are averaged in, crossing realizes exactly the old quantity, closing clears the average |
| Ledger.SymbolsInOrder | libs/broker/paper_broker_adapter.py:685-696 | positions stand in the order of the first fills of their symbols |
| Ledger.PositionIsNet | libs/broker/paper_broker_adapter.py:685-721 | every position is the signed sum of its symbol's fills |
| Ledger.BookCost | libs/broker/paper_broker_adapter.py:685-721 | book cost of any history = money paid + realized profit + misstated cost |
| Ledger.BookValue | libs/broker/paper_broker_adapter.py:365-389 | market value of the book = value of all fills at the same prices |
| Ledger.SumPermute | libs/broker/paper_broker_adapter.py:551-559 | money sums do not depend on the order of the fills |
| Broker.OpeningKeeps | libs/broker/paper_broker_adapter.py:102-140 | a new adapter satisfies the invariant |
| Broker.SubmitKeeps | libs/broker/paper_broker_adapter.py:239-282 | a submission keeps indexes, ledger and order soundness, also when the client id repeats |
| Broker.CancelKeeps | libs/broker/paper_broker_adapter.py:284-325 | a cancellation of any id keeps the invariant |
| Broker.FilledOrderSound | libs/broker/paper_broker_adapter.py:488-533 | a filled order is sound, keeps its identity, grows by the fill, and was filled at a price its limit or stop allows |
| Broker.SettleKeeps | libs/broker/paper_broker_adapter.py:512-563 | booking a fill at a positive price keeps all indexes and the whole ledger |
| Broker.ProcessAllKeeps | libs/broker/paper_broker_adapter.py:478-567 | the invariant holds at every point of a tick that does not raise |
| Broker.StepKeeps | libs/broker/paper_broker_adapter.py:239-612 | every legal operation keeps the invariant |
| Broker.RunKeeps | libs/broker/paper_broker_adapter.py:239-612 | every legal run keeps the invariant |
| BrokerRuns.ProcessAllAtOnce | libs/broker/paper_broker_adapter.py:478-567 | the sequential tick loop equals one simultaneous step on the state at its start |
| BrokerRuns.VisitsPending | libs/broker/paper_broker_adapter.py:470-476 | a tick visits exactly the pending orders, each once |
| BrokerRuns.OpenIdsInOrder | libs/broker/paper_broker_adapter.py:470-476 | a tick visits orders in the order of submission |
| BrokerRuns.FirstUnpayable | libs/broker/paper_broker_adapter.py:533-549 | a tick stops at the first order that fires at a price that is not positive; everything before it is settled |
| BrokerRuns.RaisesExactly | libs/contracts/execution.py:303-304 | a tick raises if and only if some order fires at a price that is not positive |
| BrokerRuns.TickKeepsExactly | libs/broker/paper_broker_adapter.py:533-549 | the whole invariant holds after a tick if and only if all firing prices are positive |
| BrokerTraces.TickStaysSturdy | libs/broker/paper_broker_adapter.py:478-567 | a tick that raises keeps every index but the removal of completed requests, sound orders and the whole ledger but the fill lists |
| BrokerTraces.TraceStaysSturdy | libs/broker/paper_broker_adapter.py:239-612 | the same after every trace of accepted calls |
| BrokerTraces.RequestNeverMissing | libs/broker/paper_broker_adapter.py:480-482 | in every such trace the skip for a missing request is never taken, and every visited order is open |
| BrokerTheorems.RunRefinesFillLog | libs/broker/paper_broker_adapter.py:494-559 | in every run filled quantity, average price, net positions, commission and cash are the folds over the fill history |
| BrokerTheorems.CostIdentity | libs/broker/paper_broker_adapter.py:551-559 | whenever the money agrees with the fill history: cash + cost basis = initial equity + realized profit - commission + exactly the cost misstated by crossing or reopening fills |
| BrokerTheorems.SlipExactly | libs/broker/paper_broker_adapter.py:712-721 | a fill misstates cost if and only if it crosses zero or reopens a flat symbol at another price than the kept average |
| Ledger.FlatHasNoAverage | libs/broker/paper_broker_adapter.py:697-706 | in every history a flat symbol has average 0 |
| BrokerTheorems.ReopeningSlip | libs/broker/paper_broker_adapter.py:712-721 | reopening a flat symbol misstates cost by exactly the value of the fill, always |
| BrokerTheorems.EquityIdentity | libs/broker/paper_broker_adapter.py:391-409 | whenever the money agrees with the fill history: reported equity = initial equity + gain of every fill at current prices - commission, also across zero |
| BrokerTheorems.EquityOfEveryRun | libs/broker/paper_broker_adapter.py:365-409 | both identities after every trace of valid requests under fresh ids, at any prices and with ticks that raise |
| BrokerTheorems.MoneyOfEveryRun | libs/broker/paper_broker_adapter.py:488-559 | for the same traces: net quantities, commission and cash are folds over the fills, and every fill and average respects its limit or stop |
| BrokerTheorems.TickConservesEquity | libs/broker/paper_broker_adapter.py:454-567 | a tick changes equity by the commissions of its fills only, also when it raises after some of them |
| TickPermutation.TickOrderIrrelevant | libs/broker/paper_broker_adapter.py:470-567 | any order of processing gives the same orders, pending requests, fill lists, cash, commission and net quantities |
| BrokerExamples.CostBasisDependsOnOrder | libs/broker/paper_broker_adapter.py:697-721 | two orders of one tick of a reachable state end with equal quantities, different averages and different realized profits |
| BrokerExamples.FreeOrderIsUnrecorded | libs/broker/paper_broker_adapter.py:533-549 | a market order at price 0 makes the tick raise and stays filled without a record |
| BrokerExamples.ReopeningRun | libs/broker/paper_broker_adapter.py:712-721 | buying, closing and reopening at one price leaves the cost basis wrong by that price |
| TickPermutation.EventsOfOrder | libs/broker/paper_broker_adapter.py:478-549 | a tick fills each order at most once, and exactly if it fires (`BrokerTicks.FiresExactly` says when that is) |
| BrokerTicks.FiresExactly | libs/broker/paper_broker_adapter.py:618-648 | in every state of a trace an order fires if and only if it is open, its symbol has a price and its limit or stop allows that price |
| BrokerTicks.TickFillsExactly | libs/broker/paper_broker_adapter.py:454-567 | after a tick that does not raise an order is filled more if and only if it could trade; it then has one more fill, at the current price, by the specified share, and every other order is as it was |
| BrokerTicks.ValidTickFillsExactly | libs/broker/paper_broker_adapter.py:454-567 | in a valid state: an order is filled more if and only if it is pending, its symbol has a price and its limit or stop allows it |
| BrokerTicks.TickAnswersExactly | libs/broker/paper_broker_adapter.py:470-567 | the answer of a tick holds the new states of exactly the orders that gained a fill, each once, in the order of submission |
| OrderLife.OrdersEvolve | libs/broker/paper_broker_adapter.py:297-325 | over any trace without clear, raising ticks included, terminal orders never change, filled quantity never falls, identity fields never change |
| OrderLife.OrdersOfEveryRun | libs/broker/paper_broker_adapter.py:618-667 | in every run: indexes agree, open means not cancelled and not filled, averages respect limits and stops, stop-limit orders never fill |
| OrderLife.NoRunOverfills | libs/broker/paper_broker_adapter.py:494-501 | no trace fills more than half a unit too much, and nothing too much for whole orders |
| OrderLife.PositiveRunsAreLegal | libs/contracts/execution.py:164-190 | with positive prices no tick of a trace of valid requests under fresh ids raises |
| OrderLife.FreshRunsAreAccepted | libs/contracts/execution.py:164-190 | at any prices every such trace meets the assumptions of the theorems about traces |
| OrderLife.RepeatsAreHarmless | libs/broker/paper_broker_adapter.py:252-256 | deleting every re-submission of a seen client id from a trace leaves the final state unchanged |
| OrderLife.CompletesWithinUnits | libs/broker/paper_broker_adapter.py:494-501 | an order that keeps firing is filled within ceil(remaining) ticks, for any ratio |
| OrderLife.HalfOfWhole | libs/broker/paper_broker_adapter.py:496 | half of a whole remainder, rounded half to even, leaves at most half of the rest |
| OrderLife.CompletesWithinHalvings | libs/broker/paper_broker_adapter.py:494-501 | at ratio one half a whole order of q >= 2 units is filled within floor(log2(q - 1)) + 2 ticks |
| PaperBroker.Adapter.constructor | libs/broker/paper_broker_adapter.py:102-140 | a new adapter is valid and in the opening state |
| PaperBroker.Adapter.SubmitOrder | libs/broker/paper_broker_adapter.py:239-282 | submission is the transition; the answer is the stored order, echoing the request if it is new; all other orders, money and positions stay, and a repeated client id changes nothing |
| PaperBroker.Adapter.CancelOrder | libs/broker/paper_broker_adapter.py:284-325 | cancellation is the transition; not found exactly for unknown ids; only an open order changes, to cancelled, and nothing else does |
| PaperBroker.Adapter.UpdatePosition | libs/broker/paper_broker_adapter.py:669-721 | the in-place branches compute the position function, which `Ledger.MovedExactly` describes case by case |
| PaperBroker.Adapter.PendingIds | libs/broker/paper_broker_adapter.py:470-476 | the loop collects the open orders in insertion order |
| PaperBroker.Adapter.SettleFill | libs/broker/paper_broker_adapter.py:533-563 | recording, position, cash and removal together are the booking of one fill |
| PaperBroker.Adapter.ProcessOrder | libs/broker/paper_broker_adapter.py:478-565 | one loop iteration is one step of the specified tick, including the raising one |
| PaperBroker.Adapter.ProcessPendingOrders | libs/broker/paper_broker_adapter.py:454-567 | the tick loop is the tick transition from any usable state; if it did not raise, exactly the orders that could trade have more filled; a valid adapter stays valid if and only if it did not raise |
| PaperBroker.Adapter.UpdateMarketPrice | libs/broker/paper_broker_adapter.py:573-581 | the symbol has the given price, all other prices and everything else stay |
| PaperBroker.Adapter.ClearAll | libs/broker/paper_broker_adapter.py:604-612 | clear empties orders, requests, fills, positions and history, restores the initial cash and keeps the prices |
| PaperBroker.Adapter.ListOpenOrders | libs/broker/paper_broker_adapter.py:344-346 | lists exactly the orders that are not terminal, in the order of submission; in a valid state one for every pending request |
| PaperBroker.Adapter.GetPositions | libs/broker/paper_broker_adapter.py:365-389 | one snapshot for each position that is not flat, in order of first fills, with its quantity, average, price, value, cost and profits; they add up to the reported market value |
| PaperBroker.Adapter.GetAccount | libs/broker/paper_broker_adapter.py:391-409 | equity is initial equity plus the gain of every fill less commission; the daily profit is its unrealized part |
| Journal.UndoAt | build.py:2773-2786 | undoing records puts every touched path to the content of its earliest record and leaves all others alone |
| Journal.RollbackRestores | build.py:2740-2786 | after any journaled writes and inner rollbacks since ts, rolling back to ts restores everything, if and only if no existing empty file was written |
| Journal.EmptyFileIsLost | build.py:2781-2784 | an existing empty file that is written and rolled back is deleted |
| TestRuns.ReportExactly | build.py:2719-2731 | the output names a test file if and only if it fails and the run is not blind to it |
| TestRuns.RedWithoutReport | build.py:5995-5998 | a red run names no file if and only if it did not start, found no test, or failed its gate with all tests passing |
| TestRuns.GuardIsExact | build.py:5957-5968 | when the guard finds nothing, the tests that passed at the start or were promoted pass if and only if those do that the run was blind to |
| TestRuns.SilenceProvesExactly | build.py:5957-5968 | finding no regression proves that there is none, for every verdict of the tests, if and only if the run is blind to no protected test or names a watched one in any case |
| RepairRounds.AttemptIsUndone | build.py:2840-2856 | an attempt that breaks tests at risk leaves the files as before it, up to empty files; otherwise its writes stay |
| RepairRounds.AttemptKeepsBudget | build.py:5765-5803 | calls per test file are its attempts cut off at the limit, and only exhausted files are abandoned |
| RepairRounds.TriedKeeps | build.py:5704-5942 | a file is skipped exactly when tooling is missing, called for exactly within its budget, promoted exactly when it failed at the baseline and its own run is green; the round stays undoable |
| RepairRounds.JudgedKeeps | build.py:5946-6023 | a regression is rolled back to the start of the round; otherwise the guard is silent, and a red suite without a report has its own end |
| RepairRounds.RoundKeeps | build.py:5593-6041 | a round that is kept leaves the guard silent; one that is not leaves the files of its start, up to empty ones |
| RepairSteps.CallWritesExactly | build.py:4538-4557 | after a call every path of the answer holds its last content, all other paths are as before, and the journal has one record for each file of the answer, in order, with the content before that write |
| RepairSteps.TriedExactly | build.py:5704-5942 | a test file gets one attempt if that makes it green or is its last, two if the first leaves it red and one more is left, none if it is green, unreadable, without tooling or used up; and it is abandoned exactly when an attempt would exceed the limit |
| RepairSteps.JudgedExactly | build.py:5946-6041 | how a judged round ends, as six if-and-only-ifs over the named files, the files left to repair and the two counts before |
| RepairSteps.RoundExactly | build.py:5593-6041 | a green, repeated or unreported suite ends a round at once; otherwise the batch fix, if any, is followed by the first ten failing files in order, and the state then is judged |
| RepairSteps.RunIsRounds | build.py:5567-5604 | the loop runs rounds until one does not go on, and at most the maximum number |
| RepairSteps.OscillatesExactly | build.py:5605-5629 | a round of a run ends in an oscillation if and only if the suite is red and names, skipped files aside, exactly what it named in an earlier round |
| RepairSteps.StallsExactly | build.py:6000-6023 | a round of a run stalls if and only if the number of files left to repair has not dropped in two rounds |
| RepairTheorems.RunProtects | build.py:5475-5990 | whatever the agent writes, the tests that passed at the start or were promoted in a kept round pass at the end, if and only if those do that the last kept run was blind to |
| RepairTheorems.RunIsBounded | build.py:5567-5629 | per-file calls stay within the budget, abandoned files have used it up, recorded failing sets are distinct, all calls are bounded |
| RepairTheorems.NoVerdictIsBlind | build.py:5995-5998 | a loop that ends on a red suite without a report was blind to every test, or all collected tests pass |
| RepairTheorems.ConfigurationEscapes | build.py:4611-4622 | whatever configuration the project has, one agent answer ends the loop with a test broken that passed at the start, and nothing rolled back |
| RepairLoop.Session.constructor | build.py:5475-5480 | a session starts with empty bookkeeping |
| RepairLoop.Session.JournaledWrite | build.py:4765-4778 | a write records time, path and previous content first, and changes that path only |
| RepairLoop.Session.RollbackWritesSince | build.py:2773-2786 | the backwards loop undoes the records since the time stamp, and counts them |
| RepairLoop.Session.CallAgent | build.py:4538-4557 | every file of the answer is journaled and written, and the paths are reported, in order (`RepairSteps.CallWritesExactly` says what the files are then) |
| RepairLoop.Session.Attempt | build.py:2840-2856 | the blast-radius check with its rollback is the specified attempt |
| RepairLoop.Session.AttemptAndRetry | build.py:5802-5934 | first attempt, retries and the limit between them are the specified repair; the answer is that of the file's own run |
| RepairLoop.Session.RepairFile | build.py:5704-5942 | the body of the inner loop is the specified treatment of one test file |
| RepairLoop.Session.RepairFiles | build.py:5704-5944 | the inner loop treats the first ten failing files in order |
| RepairLoop.Session.RecordFingerprint | build.py:5605-5629 | failing sets are recorded once, and a repeat is reported exactly |
| RepairLoop.Session.Judge | build.py:5946-6041 | guard, rollback and convergence checks are the specified end of a round |
| RepairLoop.Session.Round | build.py:5593-6041 | one iteration is the specified round |
| RepairLoop.Session.Run | build.py:5418-6041 | the loop computes the specified run; if the last kept run was whole, every protected test passes by its own verdict |
| Accumulator.MergeOverrides | build.py:2986-3035 | the symbol table of the result is the existing one overridden by the proposal's: nothing is lost, the proposal's bodies win |
| Accumulator.MergeRenders | build.py:3031-3035 | the merged text is the updated text stripped at its end, then the new symbols |
| AccumulatorOrder.NamesExactly | build.py:2944-2960 | the names of a file are those it defines, each once, in the order of first definition |
| AccumulatorText.MergeKeepsExactly | build.py:2986-3020 | an existing statement keeps its place, its gap and its name; its body is that of the last definition in the proposal, or its own if the proposal has none; only the end of the file loses white space |
| AccumulatorText.MergeAddsInOrder | build.py:3022-3035 | merge and fallback append exactly the symbols that only the proposal defines, each once, with its last body, in the order in which the proposal first defines them |
| AccumulatorText.TakesUnique | build.py:2986-3020 | exactly one file is the existing one with each statement that the proposal defines replaced |
| AccumulatorText.MergedText | build.py:3031-3035 | character by character: that file stripped at its end, then the new symbols with the merge comment or blank lines before them |
| AccumulatorText.AddOnlyText | build.py:3044-3049 | character by character, the fallback: the existing text stripped at its end, then the new symbols with blank lines before them |
| AccumulatorText.StripEndIsRStrip | build.py:3031 | stripping the list of lines is stripping the joined text |
| AccumulatorText.MergeReturns | build.py:3028-3051 | which text is returned: the old one if nothing is proposed, the merge if it parses, else the fallback if there is a new symbol, else the old one |
| AccumulatorSeries.MergeFile | build.py:2934-3051 | the merge of two texts, with the existing text returned when either does not parse or nothing changes |
| AccumulatorSeries.MergeOnceOverridesExactly | build.py:2986-3051 | one merge gives every name of the proposal its body, if and only if the merged text parses or the files agree on shared names; the result parses |
| AccumulatorSeries.SeriesOverrides | build.py:2897-2932 | if every merged text parses, a series gives each name the body of the last proposal that has it |
| AccumulatorSeries.NoNameIsLost | build.py:2905-2908 | whatever parses, no name is lost in a series and no other appears |
| AccumulatorSeries.MergeTwiceExactly | build.py:2986-3035 | merging a proposal again changes at most trailing white space, if and only if the first merge did not strip a proposed last body before appending, or restoring it does not parse |
| AccumulatorSeries.FallbackTwiceExactly | build.py:3037-3049 | after a fallback, merging again keeps the symbols if and only if it falls back again or the files agree; falling back again keeps the text |
| AccumulatorSeries.ThirdMergeChangesNothing | build.py:2897-3051 | from the second merge on, the same proposal changes nothing, fallback or not |
| AccumulatorSeries.DecoratedIsKept | build.py:3037-3044 | the override fails for a decorated function that becomes an assignment |
| AccumulatorExamples.ByLinesReads | build.py:2934-2942 | a parser of one-line statements meets the hypotheses about merges of texts |
| AccumulatorExamples.SecondMergeRespaces | build.py:3031-3034 | for it, a second merge of one proposal changes the text again |
| AccumulatorSeries.GapsStay | build.py:2993-2996 | existing gaps stay and new symbols get only the separators, so decorators are neither moved nor added |
| AccumulatorSeries.ProposedGapsDoNotMatter | build.py:3022-3026 | what a proposal has between its statements has no effect |
| AccumulatorMerge.DocRendersSource | build.py:2965-2966 | reading a source as gaps and statements loses no line |
| AccumulatorMerge.DocOfAt | build.py:2944-2996 | the statements of a document are those of the parser: names, lines, and the lines before each |
| AccumulatorMerge.DocOfEnds | build.py:3016-3020 | a document has one statement for each of the parser's and ends in the lines after the last one |
| AccumulatorMerge.SymbolSpans | build.py:2944-2960 | the names defined, each once and in the order of first definition, each with the span of its last definition |
| AccumulatorMerge.UpdateExisting | build.py:2986-3020 | the cursor loop produces the text of the updated document and the set of names in both files |
| AccumulatorMerge.NewBlocks | build.py:3022-3026 | the blocks are the bodies of exactly the new names, in order |
| AccumulatorMerge.AppendBlocks | build.py:3031-3034 | the blocks are appended with the separators of the merge comment |
| AccumulatorMerge.Merge | build.py:2934-3051 | the whole operation, with its unparseable, unchanged and fallback outcomes, is the specified merge, whose order and text `AccumulatorText` describes |
| AccumulatorMerge.NothingToDo | build.py:3028-3029 | the input is returned unchanged exactly when the proposal names no symbol |
| AccumulatorMerge.AddOnlyKeepsExisting | build.py:3037-3049 | in the fallback existing bodies win and new names are added |
| ProgressLines.FieldParsed | build.py:759-768 | the lazy label match finds exactly the label and status that were printed |
| ProgressLines.SubCell | build.py:2462-2467 | a substitution rewrites a printed line if and only if it has that tag and an open status, and then only the status |
| ProgressRows.ReadRow | build.py:778-810 | the parser reads every printed row as what the row means |
| ProgressRows.ParsePrinted | build.py:772-821 | parsing a printed file gives the meaning of its rows: printer and parser agree |
| ProgressHand.StatusAnyCase | build.py:759-768 | status words are recognised in any case, whatever follows |
| ProgressHand.ReadsMilestone | build.py:759-763 | a milestone line is read with any spacing and case |
| ProgressHand.ReadsStep | build.py:764-768 | a step line is read with any indentation, spacing, case, owner and step number |
| ProgressHand.ReadsHeader | build.py:769-782 | a header is read with any blanks, its key in lower case and its value stripped |
| ProgressHand.EntriesAreMilestones | build.py:783-812 | every file has as many entries as milestone lines, so steps above the first milestone are not read |
| ProgressUpdates.AdvancePrintedRow | build.py:2459-2503 | both updaters turn every printed row into the print of the row it is meant to become, and rows stay readable |
| ProgressMeaning.ParseAfterAdvance | build.py:2445-2503 | parsing after an update is the update of the parsed file: that step done, the next in progress, headers new, nothing else changed |
| ProgressMeaning.LinesAfterAdvance | build.py:2459-2503 | the text of every line after an update: the completed step done and the next in progress if unfinished, the milestone done with its last step, headers new, every other line as it was |
| ProgressRepair.RepairDamaged | build.py:6501-6514 | a damaged line becomes the step line of the milestone it stands below |
| ProgressDamage.RepairsTagless | build.py:6498-6514 | a line of a step label and any status word, in any case and spacing, gets the tag of the milestone and keeps label and word |
| ProgressDamage.RepairsOnlyTagless | build.py:6498-6514 | and no other line is changed |
| ProgressRepair.RepairExactly | build.py:6476-6522 | repairing gives every damaged row its own tag back if and only if none belongs to a lettered milestone |
| ProgressRepair.RepairTwice | build.py:6476-6522 | repairing any file a second time changes nothing |
| ProgressRuns.RunPrinted | build.py:2445-2503 | any sequence of updates acts row by row and keeps every row readable |
| ProgressRuns.OldRow | files/build.py:2087-2138 | under the old updater a row loses its tag exactly when a step that was open is completed, and is otherwise as under the corrected one |
| ProgressRuns.RepairedOldRun | files/build.py:2087-2138 | old updates followed by one repair give, character by character, the corrected updater's file, if and only if no lettered milestone's step lost its tag |
| ProgressRuns.RepairParses | build.py:806-810 | for all files, ids and updates the repaired file parses to the state of the corrected updater's file |
| ProgressRuns.RepairedOldRunParses | build.py:6476-6522 | the same when the corrected updater goes on after the repair |
| ProgressPlan.RunFromBootstrap | build.py:6713-6732 | from the bootstrap, every in-order run leaves exactly the file of its step counts, milestones in any interleaving |
| ProgressPlan.EveryRunIsReadable | build.py:761-821 | after every such run the parser finds each milestone's completed steps done, the next in progress, finished milestones done and all others untouched |
| ProgressPlan.OldRunFromBootstrap | build.py:6476-6522 | from the bootstrap, repair restores the text if and only if every milestone worked on has an id without letter |
| ProgressPlan.OldRunReadsBack | build.py:6713-6732 | from the bootstrap of any plan, switching from the old updater to the corrected one after a repair reads back exactly the completed steps, at any point |
| ProgressResume.MilestonesGood | build.py:6686-6700 | the repository's milestones meet the assumptions of these theorems |
| ProgressResume.OldRunIsRepairable | build.py:6453-6522 | for them, repair always restores the text |
| ProgressResume.LetteredIsMisfiled | build.py:6490-6494 | for a lettered milestone one completed step gets the wrong tag text, and the parsed state is right |
| ProgressResume.ResumeFromHeader | build.py:2055-2072 | the header an update writes names the next step, and none after the last one |
| ProgressResume.FirstNumberCounts | build.py:2055-2072 | the first step number of a description counts, after S or STEP in any case; a number that is no step gives S4 |
| ProgressResume.ResumeAfterUpdate | build.py:2470-2500 | after one update by either updater of any well-formed file, the parsed header resumes at the step behind the completed one |
| ProgressResume.ResumeAfterRun | build.py:2059-2072 | a new file resumes at S1, and after every run the parsed header resumes at the step behind the one completed last |
| ProgressFile.AppendGoal | build.py:6729-6731 | the inner loop appends the milestone line and its eight step lines, all not started |
| ProgressFile.Bootstrap | build.py:6720-6732 | six heading lines, then exactly the bootstrap rows |
| ProgressFile.ParseProgress | build.py:771-821 | the loop with its pending milestone computes the parse; no file gives nothing |
| ProgressFile.RepairLines | build.py:6476-6518 | the loop computes the repair and counts the lines that differ |
| ProgressFile.UpdateIsAdvance | build.py:2471-2475 | for S1 to S8 both updaters are the ones of the theorems |
| ProgressFile.NextStepIs | build.py:2470-2475 | the next step is the one behind the given id in the sequence, in any case; the last step and unknown ids have none |
| ProgressFile.File.Rewrite | build.py:2462-2500 | the successive substitutions rewrite every line as specified, and the answer is the step behind the completed one, or none |
| ProgressFile.File.AdvanceStep | build.py:2445-2503 | a missing file is left alone; otherwise the file is the specified update and the answer is the step behind the completed one, none after the last and for unknown ids |
| ProgressFile.File.OldAdvanceStep | files/build.py:2073-2139 | the same for the old updater |
| ProgressFile.File.RepairProgress | build.py:6471-6522 | the file holds the repaired lines afterwards, and the answer counts the lines that differ |
| ProgressFile.UnknownStepClosesMilestone | build.py:2471-2475 | a step id outside the sequence marks its open milestone done |
| ProgressFile.UnknownStepCompletesNone | build.py:2462-2467 | and completes no step |

## Left out

Paper broker:

- Decimal precision: quantities and prices are exact reals, so the 28-digit rounding of the two divisions is not modelled.
- Time stamps, correlation ids and random fill ids are not modelled; a new broker order id is a parameter that must be fresh.
- Position objects are values in a map, so aliasing of an in-place updated position is not captured.
- A raised validation error is a flag of the tick; nothing after it in the tick happens.
- Connecting, time-outs, diagnostics, single-order and fill-list getters and counters would only add easy members.

Repair loop:

- RepairLoop.Session.Run: the batch call for a shared root cause is not counted against any test file's budget, as in the code.
- A run of the suite is modelled by whether it starts, which files it finds, which can be imported, which then succeed and whether its gate is met; output that names further files is not modelled. Runs of one or several files are arbitrary functions of the files.
- The agent, the blast-radius and repair-surface heuristics and the tooling check are arbitrary functions; tests are deterministic functions of the files.
- The clock is taken to grow between any two readings, so no record of an earlier round carries the time stamp of a later one.
- Writes that bypass the journal (package markers, the archive rename, automatic installs) and the structural fix that makes them are taken to have no effect; path redirection and protected files are part of the arbitrary agent answer.
- Lessons, golden baselines, build logs and reports are output only.

Accumulator merge:

- The Python parser is a parameter that reports the disjoint spans and names of statements, no span ending in a blank line; several statements on one line are not modelled. The results about series assume that it reads a rendered merge back if that parses, and new symbols behind a text that parses always.
- A text is its list of lines; its trailing newline is not modelled.
- The conftest merge and the redirects around it are regular-expression heuristics.

Progress files:

- White space, digits and letter case are those of ASCII.
- A file is its list of lines; a white-space match that begins in the line before is modelled by whether a line is the first, and the trailing newline of the file is not modelled.
- ProgressMeaning.ParseAfterAdvance: files consist of printed rows, damaged step rows and untagged lines that are empty or start with a hash sign, with free ids, statuses, labels that hold no bracket, no underscore and no two blanks in a row, and header values that hold no bracket; for hand-edited lines only reading (`ProgressHand`) and repairing (`ProgressDamage`) are covered, not updating.
- ProgressFile.UnknownStepClosesMilestone: step ids with brackets in them are not covered.
- The sync of headers that the repair's description mentions is not in its code, so there is nothing to model.

The rest of the repository:

- Model calls, prompts, menus, virtual environments, git, docker and environment handling are input and output.
- The other contracts, health grading, migration and environment scripts and the front end are schemas, small tables or probes that would only add easy members.
