# Auto-trade engine: a verified model

A Dafny 4.11 model of the parts of the auto-trading backend whose correctness depends on
order, repetition and interleaving: a retrying signal queue that feeds per-strategy trading
machines, the lifecycle commands around a strategy, the reconciliation of position rows
with an exchange, the funding ledger, live paper catch-up, the distribution of the account
net, and the timed second-factor protocols. The database is class fields and maps, the
exchange and every clock are inputs, prices are exact `real`s and times are integers.

`dafny verify dfyconfig.toml` checks everything. One module per component:

| file | component |
|---|---|
| `Common.dfy` | shared vocabulary, position states |
| `Lifecycle.dfy` | strategy config, run state, revisions, promotion |
| `SignalDesk.dfy` | one strategy's trading machine |
| `SignalQueue.dfy` | the work queue, its drain, and whole runs of queue and desks |
| `DeskPosition.dfy` | the desk's view of the position table |
| `ExchangeSync.dfy` | bringing position rows in line with an exchange snapshot |
| `PositionClose.dfy` | interleaved closers of one position row |
| `LockOrder.dfy` | row lock and order-queue lock |
| `PartialTp.dfy` | take-profit rungs inferred from REST |
| `ClosePrice.dfy` | close price inferred from trades |
| `FundingSync.dfy` | funding ledger sync and windowed sums |
| `FundingLedger.dfy` | several symbols in one funding ledger |
| `LivePaper.dfy` | incremental paper-trade catch-up |
| `AccountNet.dfy` | per-trade nets of an account |
| `Lockout.dfy` | second-factor lockout |
| `StepUp.dfy` | single-use step-up tokens |

How the pieces are built: state that the source changes in place is a class whose methods
are proved equal to a specification function on values (`View() == Step(old(View()), ...)`);
the theorems are about runs of those functions, for every sequence of steps. Beside them,
what each operation means is stated on its inputs and results alone, without the functions
that define it: which failures are retried, when a position is closed and an order sent, which
price a row carries, what the ledger amounts to, whose token is let through.

## Findings

Where a promise of the source turned out not to hold as stated, the model keeps the code,
shows a concrete failing input, and proves the exact condition.

1. Funding sync loses payments in two ways. (a) While the ledger is empty every sync restarts the
   backfill thirty days before itself, so with any tag a payment that shows up between a first
   sync of an empty exchange and a second one much later is never stored
   (`EmptyStartSkipsAPayment`). After each sync the ledger holds every visible row from the first
   backfill start on if and only if no row visible when the first rows came in lay before that
   sync's own start (`AlwaysGapFreeIff`); that is so if, until rows come in, syncs follow each
   other within the backfill less the lateness of rows (`PromptSyncsMissNothing`). (b) Given that,
   all runs are gap-free if and only if the exchange tags rows with no symbol or with the very
   symbol the cursor asks for (`GapFreeIffTagMatches`). The Binance adapter passes the exchange's
   own symbol through (app/services/execution/ccxt_adapter.py:1563-1593) while the cursor asks for
   the linear-perpetual form, so the cursor never finds a row (`ForeignTagSkipsAPayment`).
2. A second exchange sync of the same snapshot changes nothing unless the first one created a
   row from a take-profit or stop-loss in (0, 1e-9] away from the entry price
   (`SecondSyncChangesNothing`); from the second sync on nothing ever changes
   (`ThirdSyncChangesNothing`).
3. The comment at app/services/auto_trade/service.py:5907-5912 says a cancelled take-profit order is rejected because
   the position never shrank. That holds only while nothing else shrank it
   (`CancelledRungIsRejectedIff`); after an earlier rung filled, a merely cancelled rung can be
   accepted (`CancelledRungCanPassAfterAnEarlierFill`).
4. `_persist_runtime_position` writes the status without looking at the row, and the partial
   take-profit reconcile calls it itself: the callback of its unlocked middle phase writes the
   context that was read in the first phase (app/services/auto_trade/service.py:5961-5966, 6105).
   A step reopens a closed row exactly when it is such a write of a context that is not closed
   (`StepKeepsClosedIff`), and a closed row is closed for good exactly when no later step is one
   (`ClosedForGoodIff`). A driving reconciler does reopen a row that another process closed, and
   the row is then closed over REST a second time (`DrivingReconcilerReopensARow`).
5. Switching a stopped paper profile clears the watermark "to replay the full backlog on next
   play", but play sets the watermark to now, so no backlog is replayed (`BacklogIsNotReplayed`).
6. Sessions do not flush by themselves (app/db/session.py:21-26), and an attempt at a row of a
   stopped strategy marks the row and adds an event without a flush
   (app/services/auto_trade/service.py:4262-4277). A drain whose marks its selects cannot see ends
   if and only if fewer rows are due than a batch holds (`DrainUnseen`); otherwise every round
   polls the first batch again and counts another attempt on each row, past max_attempts
   (`UnseenAttemptsGrow`). As many due rows of one stopped strategy as a batch holds are such a
   queue (`StoppedStrategyLoopsForever`).
7. A step-up token is single-use if and only if it does not outlive its marker
   (`SingleUseIffLifetimeWithinTtl`); the default lifetime equals the marker's.
8. The kill-switch loads the config without a lock, and the locking read of its pause does not
   reload it (app/services/auto_trade/service.py:2961, 2342-2346, with sessions that keep loaded
   values). If the strategy was stopped when it was loaded and was started before the trip is
   written, it ends up running although latched (`StaleTripLeavesALatchedStrategyRunning`), and the
   entry path does not look at the latch (`LatchedStrategyCanTrade`). A trip keeps the run
   invariant if and only if the strategy was running when loaded or is stopped when written
   (`StaleTripIsSafeIff`).
9. The account-net distribution is exact for amounts of any sign, not only non-negative ones,
   and the n-th queue attempt is spaced as promised on any clock, not only a non-decreasing one.

## Model

| member | source | states |
|---|---|---|
| `SignalQueue.Scheduler.EnqueueFor` | app/services/auto_trade/service.py:4081-4099 | one pending row per (history, config); a second request is refused by the unique constraint and changes nothing |
| `SignalQueue.Scheduler.Enqueue` | app/services/auto_trade/service.py:4058-4115 | every enabled and running config of the profile has a row for the report afterwards, new rows are exactly fresh rows of such configs, old rows are kept, uniqueness is kept |
| `SignalQueue.WhoIsTold` | app/services/auto_trade/service.py:4058-4099 | in terms of config and row fields: the rows a report gets are for the enabled, running configs of its profile, pending at once and not tried yet |
| `SignalQueue.Scheduler.Select` | app/services/auto_trade/service.py:4139-4149 | the first due, unlocked rows in (next_retry_at, id) order, as many as the batch size allows, read from what the database shows |
| `SignalQueue.BatchIsFirstDue` | app/services/auto_trade/service.py:4139-4149 | the same in terms of row fields: every selected row is pending, due and unlocked, earlier retry times come first and equal ones by id, and a due row is left out only behind a full batch |
| `SignalQueue.Scheduler.HandleItem` | app/services/auto_trade/service.py:4154-4201 | one attempt: the row is counted, given to its desk and marked; what the mark means is in the next rows |
| `SignalQueue.AttemptHonoursTheAnswer` | app/services/auto_trade/service.py:6262-6279 | the desk of the row's config is asked about the row's report; the row is pending again iff the failure is retryable and attempts are left, with a delay of interval times the attempts so far; dead iff the answer was dead, not retryable or the last one allowed; completed iff the report completed or was skipped; no other row and desk changes |
| `SignalQueue.DrainHonoursAnswers` | app/services/auto_trade/service.py:4153-4206 | over a whole pass every row is marked as the answer to its own attempt deserves |
| `SignalQueue.CountersCountAnswers` | app/services/auto_trade/service.py:4150-4190 | the counters are the answers of the pass counted: completed and skipped apart, errors the raised ones, retried and dead the rest |
| `SignalQueue.RowsFollowTheirAnswers` | app/services/auto_trade/service.py:6262-6279 | over every interleaving from an empty queue: all answers but the last were retryable failures, and the row is pending, completed or dead exactly as the last answer and the attempts left require; no report is dropped without cause |
| `SignalQueue.Scheduler.HandleBatch` | app/services/auto_trade/service.py:4153-4219 | after a batch, the queue, desks and counters are those of one pass over the rows handled so far as they were seen, exactly the batch is no longer due, and select order is kept |
| `SignalQueue.Scheduler.Drain` | app/services/auto_trade/service.py:4117-4225 | terminates although other sessions may hold different rows and write rows before every select (finitely often); no row gets more than one attempt, each was due when selected, the result equals one pass over the handled rows without batches, and nothing due is left that was free at the last select. If nobody else acts, those are exactly the rows due at the start, in select order. That marks are visible is a precondition; the other case is the next rows |
| `SignalQueue.Scheduler.OthersCommit` | app/services/auto_trade/service.py:4139-4149 | rows written by other sessions appear in the next select, except on rows this drain holds, and do not change what the drain has done |
| `SignalQueue.Scheduler.DrainUnseen` | app/services/auto_trade/service.py:4138-4222 | the drain loop with marks that its selects do not see: every round polls the first batch again, and the loop ends if and only if fewer rows are due than a batch holds |
| `SignalQueue.UnseenAttemptsGrow` | app/services/auto_trade/service.py:4155-4157 | after n such rounds every row of the batch has n more attempts, without regard to max_attempts |
| `SignalQueue.StoppedStrategyLoopsForever` | app/services/auto_trade/service.py:4262-4277 | a concrete queue on which that happens for ever: a full batch of due rows of one stopped strategy, whatever the answers |
| `SignalQueue.OthersCommute` | app/services/auto_trade/service.py:4154-4206 | writes to rows that were not handled commute with the handling of the others |
| `SignalQueue.NotDueAgain` | app/services/auto_trade/service.py:6262-6279 | with a positive interval no marking leaves a row due at the same time, which is what makes the drain end |
| `SignalQueue.BatchIsUnique` | app/services/auto_trade/service.py:4139-4147 | the rows determine the batch: two selects of the same rows agree on every prefix |
| `SignalQueue.SameBatch` | app/db/session.py:21-26 | two selects of the same stored rows return the same sequence, of as many rows as are due up to the limit |
| `SignalQueue.DrainAccountsForAll` | app/services/auto_trade/service.py:4128-4225 | polled = completed + skipped + retried + dead = rows handled, and errors are at most retried + dead |
| `SignalQueue.CountersMatchRows` | app/services/auto_trade/service.py:4164-4206 | retried counts the rows left pending, dead the rows left dead, completed plus skipped the rows left completed |
| `SignalQueue.DrainLeavesNoneProcessing` | app/services/auto_trade/service.py:4154-4206 | no handled row stays in processing and no other row is touched |
| `SignalQueue.DrainIsARun` | app/services/auto_trade/service.py:4117-4225 | a drain is a run of single attempts, each at a row that is still due when its turn comes |
| `SignalQueue.AttemptsAreBoundedAndSpaced` | app/services/auto_trade/service.py:6262-6279 | over every interleaving of queueing, attempts and desk events: attempts never exceed max_attempts, and the n-th comes at least interval * n(n-1)/2 after the first |
| `SignalQueue.DeskRun` | app/services/auto_trade/service.py:4158-4163 | whatever the queue does, each desk goes through exactly the sub-run that concerns it |
| `SignalQueue.QueueEntriesAreAllowed` | app/services/auto_trade/service.py:4262-4277 | in every run of the whole queue every entry order was sent by an enabled, running, unlatched strategy that is live or on a demo account |
| `SignalQueue.QueueDecisionsIncrease` | app/services/auto_trade/service.py:4320-4339 | a desk's completed decisions are for strictly increasing histories although the queue is ordered by retry time |
| `SignalQueue.QueueConfirmedCloseIsEarned` | app/services/auto_trade/service.py:5187-5288 | for a desk behind any queue, a confirmed close of an announced position rests on enough distinct reports since its opening |
| `SignalDesk.Machine.ProcessQueueItem` | app/services/auto_trade/service.py:4227-4497 | guards in source order, which of them record the history as processed, and the trading decision, as one specification function |
| `SignalDesk.Machine.ProcessSignal` | app/services/auto_trade/service.py:4464-4497 | sync, then entry or position handling, then the history is recorded unless the attempt raised |
| `SignalDesk.Machine.WithoutPosition` | app/services/auto_trade/service.py:4499-5065 | the entry gates with their streak effects, and the order, emergency close, opening, or a raise before or after the row was added |
| `SignalDesk.Machine.WithPosition` | app/services/auto_trade/service.py:5067-5314 | hold, streak, fast close and confirmed close; an attempt that raises keeps the counted streak |
| `SignalDesk.GuardsDoNotTrade` | app/services/auto_trade/service.py:4234-4462 | a report that fails a guard changes at most the processed mark and never completes |
| `SignalDesk.GuardsDecide` | app/services/auto_trade/service.py:4234-4462 | which guard gives skipped, dead or a retry, and exactly which skips record the history as processed |
| `SignalDesk.CompletedMeansDecided` | app/services/auto_trade/service.py:4464-4497 | an attempt completes only past every guard, and then its history is the processed one |
| `SignalDesk.DecisionsIncrease` | app/services/auto_trade/service.py:4320-4339 | along every run, retries included, the histories whose decision completes are strictly increasing and bounded by the processed mark |
| `SignalDesk.NoSecondDecision` | app/services/auto_trade/service.py:4320-4339 | no attempt, first or retried, reaches the trading code with a history at or below a decided one |
| `SignalDesk.EntriesAreAllowed` | app/services/auto_trade/service.py:4513-4532 | every entry order of every run (attempts, lifecycle commands, outside closes and syncs interleaved) was sent while enabled, running, not latched, and live or demo, although the entry path never reads the latch |
| `SignalDesk.EveryDecisionIsLogged` | app/services/auto_trade/service.py:4473-4497 | the log only grows, and no completed decision is missing from it |
| `SignalDesk.OpeningsSendOrders` | app/services/auto_trade/service.py:4906-5020 | no position is announced as opened without exactly one recorded entry order of that report and side |
| `SignalDesk.NeutralAndSameSideSettle` | app/services/auto_trade/service.py:5107-5141 | with an open position every neutral or same-side report starts the streak over and is logged as such, so an unbroken stretch in the log has none in between |
| `SignalDesk.PositionEndsIff` | app/services/auto_trade/service.py:5067-5314 | a report ends a position iff the exchange is flat, or the report is against it, the ladder is not engaged, its confidence reaches the fast threshold or it completes the streak, and the close goes through; otherwise the position stays on the side of the exchange; no order either way |
| `SignalDesk.ReportAgainstPosition` | app/services/auto_trade/service.py:5187-5314 | below both thresholds the streak is exactly one higher; at one of them the position is closed with its reason, the pause applied and the history recorded, or the attempt raises, keeps the count and records nothing |
| `SignalDesk.ReportWithPosition` | app/services/auto_trade/service.py:5067-5186 | every other report with a position completes, resets the streak and is recorded |
| `SignalDesk.OrderIffGatesPass` | app/services/auto_trade/service.py:4499-5020 | without a position an entry order is sent iff every gate passes and the leverage is set, exactly one, and a position follows only an order that filled |
| `SignalDesk.EntryOutcome` | app/services/auto_trade/service.py:4499-5065 | when the entry path completes or raises, and which gates reset the streak |
| `SignalDesk.EnoughReportsClose` | app/services/auto_trade/service.py:5187-5288 | the other half of the confirmation rule: an unbroken run of opposite reports closes the position with the very report that reaches confirm_reports_required, and with none before it |
| `SignalDesk.RecountOnlyAtThreshold` | app/services/auto_trade/service.py:5189-5194 | a retried close counts a history twice only after the threshold has been reached by distinct ones |
| `SignalDesk.RunKeepsStreak` | app/services/auto_trade/service.py:5107-5229 | the streak is backed by distinct histories up to the threshold in every reachable state |
| `SignalDesk.ConfirmedCloseIsEarned` | app/services/auto_trade/service.py:5187-5288 | a position opened with an announcement and closed as opposite_confirmed was preceded since its opening by an unbroken stretch of opposite, low-confidence reports from at least confirm_reports_required distinct histories |
| `SignalDesk.SafeFromCreation` | app/services/auto_trade/service.py:1221-1308 | from the creation of a strategy on, through any commands, reports and outside events: every order was allowed, decisions increase, and every confirmed close was earned |
| `SignalDesk.LatchedStrategyCanTrade` | app/services/auto_trade/service.py:4499-4532 | a strategy that runs although latched sends an order when the gates pass: nothing on the entry path reads the latch |
| `Lifecycle.Strategy.constructor` | app/services/auto_trade/service.py:1221-1308 | a new config is stopped, in sandbox with its clock set, and has revision 1 |
| `Lifecycle.Strategy.RecordRevision` | app/services/auto_trade/service.py:1433-1466 | the content is appended under the next number unless its hash equals the newest one |
| `Lifecycle.Strategy.ApplyRiskConfig` | app/services/auto_trade/service.py:1802-1868 | a risk block replaces the risk row, no block leaves it |
| `Lifecycle.Strategy.WriteContent` | app/services/auto_trade/service.py:1380-1400 | every content field is written, optional ones only if they were sent |
| `Lifecycle.Strategy.Upsert` | app/services/auto_trade/service.py:1310-1422 | accepted exactly when valid and the profile does not change under a running strategy or an open position; disabling stops; the content is recorded |
| `Lifecycle.Strategy.RollbackTo` | app/services/auto_trade/service.py:1468-1509 | re-saves a revision's content through the same path, or is refused |
| `Lifecycle.Strategy.Run` | app/services/auto_trade/service.py:2163-2222 | starting is refused for disabled configs and for non-live ones on real accounts, and clears the latch |
| `Lifecycle.Strategy.RunInBulk` | app/services/auto_trade/service.py:2256-2287 | per config the same as starting or stopping it, skipping configs already in that state |
| `Lifecycle.Strategy.Pause` | app/services/auto_trade/service.py:2342-2375 | stops a running config and reports whether it did |
| `Lifecycle.Strategy.TripKillSwitch` | app/services/auto_trade/service.py:2954-3011 | pauses and latches risk-off, and does nothing if the position is not open |
| `Lifecycle.Strategy.PromoteStrategy` | app/services/auto_trade/service.py:2018-2109 | only from sandbox, only through the gate; a refusal is logged |
| `Lifecycle.Strategy.DemoteStrategy` | app/services/auto_trade/service.py:2111-2161 | live to sandbox with a fresh clock, stopped and logged |
| `Lifecycle.Strategy.ApplyRiskFromBatch` | app/services/auto_trade/service.py:1870-1897 | the batch write of the risk row, without a revision |
| `Lifecycle.RunsAreSafe` | app/services/auto_trade/service.py:2177-2207 | in every run of commands, running implies enabled, not latched, and live or demo |
| `Lifecycle.StepKeepsSafe` | app/services/auto_trade/service.py:1380-1385 | every single command keeps that |
| `Lifecycle.LatchHoldsUntilRestart` | app/services/auto_trade/service.py:2198-2204 | a latched strategy is unlatched exactly by an accepted start |
| `Lifecycle.RunsAfterIff` | app/services/auto_trade/service.py:2163-2222 | exactly when a strategy runs after each command: starts need enabled and live or demo; stop, pause, trip, demotion and disabling save stop it |
| `Lifecycle.LatchedAfterIff` | app/services/auto_trade/service.py:2954-3011 | only a trip of an open position latches, only an accepted start unlatches |
| `Lifecycle.CreatedInSandbox` | app/services/auto_trade/service.py:1221-1308 | every field of a new config |
| `Lifecycle.SaveWrites` | app/services/auto_trade/service.py:1310-1422 | when a save is accepted, what it writes field by field, and that it touches nothing else |
| `Lifecycle.RiskBatchWrites` | app/services/auto_trade/service.py:1870-1897 | the batch write replaces the risk row and nothing else |
| `Lifecycle.StageMoves` | app/services/auto_trade/service.py:2018-2161 | every promotion attempt in sandbox is logged with its decision, a demotion restarts the clock and stops, nothing else moves stage, clock or trail |
| `Lifecycle.TransitionTable` | app/services/auto_trade/promotion/state_machine.py:61-84 | the whole table by targets: live only from validation by a passed gate, rejected and archived final |
| `Lifecycle.FreshTripIsAtomic` | app/services/auto_trade/service.py:2342-2348 | a trip whose config was not changed since it was loaded is the atomic command |
| `Lifecycle.StaleTripIsSafeIff` | app/services/auto_trade/service.py:2961-3011 | a trip that loaded the config before other commands keeps the run invariant if and only if the strategy was running then or is stopped now; without a start in between it always does |
| `Lifecycle.StaleTripLeavesALatchedStrategyRunning` | app/services/auto_trade/service.py:2961-3011 | loaded while stopped, started, tripped: running although latched |
| `Lifecycle.HistoryIsAppendOnly` | app/services/auto_trade/service.py:1433-1466 | over every run revisions are numbered 1 to n, neighbours differ, earlier ones are never rewritten, the account never changes, and only the risk block can differ from the newest revision |
| `Lifecycle.CreationStartsHistory` | app/services/auto_trade/service.py:1306-1308 | creation establishes the history invariant |
| `Lifecycle.SaveIsRecorded` | app/services/auto_trade/service.py:1420-1422 | after every accepted save the newest snapshot is the live content, and a revision was added exactly if the content changed |
| `Lifecycle.RollbackRestores` | app/services/auto_trade/service.py:1468-1509 | accepted exactly when the profile may change; restores the snapshot, keeping the current risk block if the snapshot has none; touches nothing but content, run flag and history |
| `Lifecycle.RollbackUndoesSave` | app/services/auto_trade/service.py:1476-1482 | saving and rolling back to the revision before gives the content before |
| `Lifecycle.PromotionsAreEarned` | app/services/auto_trade/service.py:1930-1943 | in every run the audit trail folds to the stage, the sandbox clock is the last entry into sandbox, the creation-time fallback is unreachable, and every promotion had served the required days since the last entry |
| `Lifecycle.LiveOnlyThroughTheGate` | app/services/auto_trade/promotion/kpi_gate.py:70-140 | a step makes a strategy live if and only if it is a promotion whose gate is open for the tenure since the last entry |
| `Lifecycle.PromotionNeedsTheFigures` | app/services/auto_trade/promotion/kpi_gate.py:70-140 | the gate in figures, defaults included: ten trades and the required ones, days since the last entry, win rate and drawdown |
| `ExchangeSync.Positions.Sync` | app/services/auto_trade/service.py:5352-5584 | the new table, the newest open row as result, and a changed flag that is true exactly when the table changed |
| `ExchangeSync.Positions.CloseRows` | app/services/auto_trade/service.py:5394-5413 | exactly the given rows are closed, as missing or as duplicates, the rest is untouched |
| `ExchangeSync.Positions.Refresh` | app/services/auto_trade/service.py:5501-5571 | the newest row brought in line, changed exactly if the row differs |
| `ExchangeSync.Positions.RefreshIdentity` | app/services/auto_trade/service.py:5501-5519 | owner, symbol, side and state, with an exact changed flag |
| `ExchangeSync.Positions.RefreshAmounts` | app/services/auto_trade/service.py:5520-5545 | quantities, entry price and leverage within tolerance, with an exact changed flag |
| `ExchangeSync.Positions.RefreshLevels` | app/services/auto_trade/service.py:5546-5571 | take-profit, stop-loss and raw answer, with an exact changed flag |
| `ExchangeSync.Positions.Top` | app/services/auto_trade/service.py:5362-5381 | the open row with the highest id |
| `ExchangeSync.OpenAfter` | app/services/auto_trade/service.py:5388-5584 | which rows of the account are open after a sync, in every case |
| `ExchangeSync.SyncConverges` | app/services/auto_trade/service.py:5388-5584 | a flat exchange leaves no open row; a live one leaves exactly one, whose side matches and whose quantity and entry agree within tolerance, for any number of duplicates before |
| `ExchangeSync.SyncTouchesOnlyOpenRows` | app/services/auto_trade/service.py:5362-5378 | no row disappears, other accounts and closed rows are untouched, closed ones end with size zero |
| `ExchangeSync.WhichRowIsOpen` | app/services/auto_trade/service.py:5362-5455 | in terms of row fields: with a live position the open row is the newest open one, or a new one iff there was none and an entry or mark price is known |
| `ExchangeSync.EntryPriceIsTheExchanges` | app/services/auto_trade/service.py:5417-5422 | the open row's entry is the exchange's entry price within tolerance, the mark price only if there is no entry price, and unchanged if there is neither; a price within tolerance is not rewritten |
| `ExchangeSync.SizeIsTheExchanges` | app/services/auto_trade/service.py:5445-5477 | side, quantities, original quantity, size, state and open history of a refreshed and of a created row |
| `ExchangeSync.LeverageIsRounded` | app/services/auto_trade/service.py:5423-5424 | the leverage is rounded to nearest with halves to even, at least one, or the config value if the exchange gives none |
| `ExchangeSync.LevelsFollowTheExchange` | app/services/auto_trade/service.py:5546-5571 | take-profit, stop-loss and raw answer of a refreshed and of a created row |
| `ExchangeSync.EndedRowsSayWhy` | app/services/auto_trade/service.py:5394-5413 | exactly which rows end, with reason and close price of each case: already_closed_on_exchange with the mark price, deduplicated_on_exchange_sync with none |
| `ExchangeSync.RefreshIsIdempotent` | app/services/auto_trade/service.py:5501-5571 | refreshing twice is refreshing once |
| `ExchangeSync.SecondSyncChangesNothing` | app/services/auto_trade/service.py:5426-5571 | a second sync of the same snapshot is without effect if and only if the first did not create a row with a level within tolerance of zero |
| `ExchangeSync.ThirdSyncChangesNothing` | app/services/auto_trade/service.py:5426-5571 | from the second sync on repetition has no effect, without exception |
| `ExchangeSync.TinyTakeProfitIsRewritten` | app/services/auto_trade/service.py:5458-5459 | the exception occurs: a concrete snapshot |
| `DeskPosition.TableSyncIsDeskSync` | app/services/auto_trade/service.py:4464-4471 | syncing the table and then looking at the newest open row gives what the desk's own sync gives, for the desk's call and for callers that close missing rows |
| `PositionClose.StoredRow.MarkClosed` | app/services/auto_trade/service.py:3509-3522 | state, status and reason of a closed row |
| `PositionClose.StoredRow.MergeContext` | app/services/auto_trade/service.py:583-591 | state from the context, status derived from it |
| `PositionClose.StoredRow.CloseViaRest` | app/services/auto_trade/service.py:5730-5753 | closes only a row that is not closed, says whether it did, and leaves it closed |
| `PositionClose.StoredRow.PersistPartial` | app/services/auto_trade/service.py:6010-6027 | a row closed meanwhile is left alone |
| `PositionClose.StoredRow.CloseByKillSwitch` | app/services/auto_trade/service.py:2954-2970 | an open row is closed as kill-switch if the close works, any other is left alone |
| `PositionClose.StepKeepsInv` | app/services/auto_trade/service.py:5730-5742 | for any number of processes: the lock has one holder, and what the holder read is still true |
| `PositionClose.StepKeepsClosedIff` | app/services/auto_trade/service.py:717-728 | a step reopens a closed row if and only if it is an unchecked write (the runtime persist, or the reconcile's own callback) of an open context |
| `PositionClose.ClosedIsAbsorbing` | app/services/auto_trade/service.py:5730-5771 | over every interleaving of REST close, three-phase partial reconcile with its callback, kill-switch, manual flatten, signal close and exchange sync, closed stays closed, provided no unchecked write puts an open context over a closed row (NeverReopens) |
| `PositionClose.ClosedForGoodIff` | app/services/auto_trade/service.py:717-728 | a row that is closed at some point is closed at every later point if and only if no later step is an unchecked write of an open context |
| `PositionClose.AtMostOneRestClose` | app/services/auto_trade/service.py:5730-5771 | whatever the number of replicas, a position gets at most one REST close, provided no unchecked write puts an open context over a closed row (NeverReopens) |
| `PositionClose.DrivingReconcilerReopensARow` | app/services/auto_trade/service.py:5961-5982 | the hypothesis is needed: a reconciler in its middle phase reopens a row that another one closed, with the very context it had read, and the row is closed over REST twice |
| `PositionClose.JobsLeaveClosedRows` | app/services/auto_trade/service.py:5362-5378 | none of the locked jobs changes a row it finds closed |
| `PositionClose.ClosersClose` | app/services/auto_trade/service.py:5730-5771 | what each locked job does to the row it finds: a closer closes an open row with its own reason, everything else is left |
| `PositionClose.CommitDoesTheJob` | app/services/auto_trade/service.py:5730-5771 | in every reachable state the commit of the lock holder does its job to the row as it is now, and only an open row sends a partial reconcile on to its middle phase |
| `PositionClose.PhasesFollow` | app/services/auto_trade/service.py:5957-6027 | a partial reconcile persists the context it ended with, and only if it advanced |
| `PositionClose.UncheckedWrites` | app/services/auto_trade/service.py:717-728 | a flatten that works closes as manual; a runtime write shows its context, closed or not, whatever the row was |
| `PositionClose.RuntimePersistAllowsASecondClose` | app/services/auto_trade/service.py:717-728 | the same through any other caller of the runtime persist |
| `LockOrder.ReconcilerIsOrdered` | app/services/auto_trade/service.py:5807-5830 | the three-phase reconciler takes locks in rank order, because it gives the row back before asking for the queue |
| `LockOrder.WorkerIsOrdered` | app/services/auto_trade/service.py:5957-5972 | so does a queue worker that writes any number of rows |
| `LockOrder.WorkerTakesItsLocks` | app/services/auto_trade/service.py:5957-5972 | a worker holds its queue from first to last and takes each row as often as it writes it |
| `LockOrder.ReconcilerTakesItsLocks` | app/services/auto_trade/service.py:5807-5830 | a reconciler takes its queue once and its row twice, or three times with a callback, and no other lock |
| `LockOrder.StepKeepsInv` | app/services/auto_trade/service.py:5807-5830 | a lock is owned by its one holder |
| `LockOrder.NoCircularWait` | app/services/auto_trade/service.py:5957-5972 | no schedule of ordered processes reaches a set of processes waiting for each other |
| `LockOrder.EverybodyCanFinish` | app/services/auto_trade/service.py:6010-6018 | from every reachable state some schedule runs all processes to their end |
| `LockOrder.MixNeverDeadlocks` | app/services/auto_trade/service.py:5807-5830 | both, for any mix of reconcilers and workers over any positions and accounts |
| `LockOrder.KeepingTheRowDeadlocks` | app/services/auto_trade/service.py:5807-5814 | a reconciler that kept the row would deadlock with one worker after two steps |
| `PartialTp.Filled` | app/services/auto_trade/service.py:5862-5894 | exactly the intermediate, live, vanished rungs, in ladder order |
| `PartialTp.AcceptFills` | app/services/auto_trade/service.py:5862-5922 | the accepted rungs are the longest covered prefix of the vanished ones |
| `PartialTp.Accept` | app/services/auto_trade/service.py:5913-5922 | the breaking loop, against the same specification |
| `PartialTp.AcceptanceIsExact` | app/services/auto_trade/service.py:5913-5922 | a rung is accepted if and only if the cumulative nominal up to it is at most twice (observed close + tolerance) |
| `PartialTp.NominalIsThePercentage` | app/services/auto_trade/service.py:5915-5917 | the cumulative nominal is the sum of the percentages of the original quantity; a ladder of 100 percent is all of it |
| `PartialTp.AcceptanceInPercent` | app/services/auto_trade/service.py:5911-5922 | accepted iff half of the percentage up to the rung is gone from the position, up to the tolerance |
| `PartialTp.WhichRungsVanished` | app/services/auto_trade/service.py:5862-5894 | a rung counts as vanished iff it is not the last, is open or pending, and its order id is set and not among the open orders |
| `PartialTp.RoundedFillsAreAccepted` | app/services/auto_trade/service.py:5898-5922 | if every rung executed its nominal truncated to the step and each nominal is at least a step, all are accepted |
| `PartialTp.CancelledRungIsRejectedIff` | app/services/auto_trade/service.py:5907-5922 | nothing is accepted if and only if the first nominal exceeds twice the observed close plus tolerance |
| `PartialTp.NoShrinkNoFill` | app/services/auto_trade/service.py:5907-5922 | a position that did not shrink confirms no rung above twice the tolerance |
| `PartialTp.CancelledRungCanPassAfterAnEarlierFill` | app/services/auto_trade/service.py:5907-5922 | a concrete ladder in which a cancelled rung is accepted |
| `ClosePrice.CandidatesSortAndFilter` | app/services/auto_trade/service.py:6497-6510 | the candidates are exactly the usable exit trades, newest first |
| `ClosePrice.WhichTradesCount` | app/services/auto_trade/service.py:6497-6504 | a long position is left by sells and a short one by buys above the tolerance |
| `ClosePrice.SameTimeKeepsOrder` | app/services/auto_trade/service.py:6507-6510 | the sort is stable: trades of one time stay in the order they came |
| `ClosePrice.Match` | app/services/auto_trade/service.py:6511-6533 | the matching loop consumes a newest-first prefix, all but the last in full, and stops only when covered or out of trades |
| `ClosePrice.MatchedIsCapped` | app/services/auto_trade/service.py:6514-6533 | matched + remaining = target and matched never exceeds it |
| `ClosePrice.CostIsExact` | app/services/auto_trade/service.py:6520-6527 | every consumed trade counts at its own price in full, the last one only for what was uncovered |
| `ClosePrice.EachTradeCountsOnce` | app/services/auto_trade/service.py:6528-6532 | each consumed trade counts once in fees, reported results and hits |
| `ClosePrice.ResultFollowsThePrice` | app/services/auto_trade/service.py:6604-6615 | a long position gains what the price rose, a short one what it fell |
| `ClosePrice.CostIsBetween` | app/services/auto_trade/service.py:6520-6533 | the weighted cost lies between the costs at the extreme prices |
| `ClosePrice.InferredPriceIsBetween` | app/services/auto_trade/service.py:6534-6536 | the inferred price lies between the smallest and largest consumed price |
| `ClosePrice.InferClose` | app/services/auto_trade/service.py:6475-6551 | when a price is inferred at all, and which one |
| `FundingSync.IncomeSync.ComputeSince` | app/services/auto_trade/income_sync.py:169-181 | newest row of the symbol minus the overlap, or the backfill start |
| `FundingSync.CursorIsNewestLessOverlap` | app/services/auto_trade/income_sync.py:169-181 | exactly where a sync starts: five minutes before the symbol's newest row, or thirty days back |
| `FundingSync.IncomeSync.UpsertIncomeRows` | app/services/auto_trade/income_sync.py:183-244 | the ledger with every identified row written by its id, and how many |
| `FundingSync.IncomeSync.SyncSymbolIncome` | app/services/auto_trade/income_sync.py:129-167 | the ledger and the count after at most ten pages |
| `FundingSync.UpsertMerges` | app/services/auto_trade/income_sync.py:193-244 | an upsert changes exactly the rows of the page |
| `FundingSync.OtherIdsUntouched` | app/services/auto_trade/income_sync.py:193-244 | for any page: ids it does not have are untouched and a row without id is never stored |
| `FundingSync.LastRowCounts` | app/services/auto_trade/income_sync.py:193-244 | for any page: the last row of an id is stored with its amount, its time or the present, its tag or the symbol asked for |
| `FundingSync.WritableCounts` | app/services/auto_trade/income_sync.py:193-244 | the reported count is the number of rows with an id |
| `FundingSync.SyncWritesOldest` | app/services/auto_trade/income_sync.py:140-166 | however the pages fall, a sync writes an unbroken run of the oldest rows from its start: all there are, or as many as ten pages carry |
| `FundingSync.SyncCountsItsRows` | app/services/auto_trade/income_sync.py:140-166 | the count a sync reports is the number of rows of that run |
| `FundingSync.SyncCarriesTenPages` | app/services/auto_trade/income_sync.py:140-166 | the capacity of a sync is ten pages |
| `FundingSync.SyncsLeaveNoGap` | app/services/auto_trade/income_sync.py:129-181 | if, until rows come in, syncs follow each other within the backfill less the lateness of rows, then after each sync of an evolving exchange the ledger holds every visible row from the first backfill start to its newest row |
| `FundingSync.AlwaysGapFreeIff` | app/services/auto_trade/income_sync.py:169-181 | after each sync the ledger is without a gap from the first backfill start if and only if no row visible at the first sync that caught one lay before that sync's own backfill start |
| `FundingSync.PromptSyncsMissNothing` | app/services/auto_trade/income_sync.py:179-180 | prompt syncs of an empty ledger miss nothing |
| `FundingSync.EmptyUntilFirstCatch` | app/services/auto_trade/income_sync.py:169-181 | the ledger is empty exactly as long as no sync sees a row from its backfill start on |
| `FundingSync.EmptyStartSkipsAPayment` | app/services/auto_trade/income_sync.py:179-180 | with any tag: a first sync of an empty exchange, then sixty days without one, and a payment of day 1 is never stored |
| `FundingSync.SyncRewritesNothing` | app/services/auto_trade/income_sync.py:193-244 | a further sync leaves every stored income, symbol and time as it was |
| `FundingSync.SyncMakesProgress` | app/services/auto_trade/income_sync.py:140-166 | the page cap delays but never stalls |
| `FundingSync.ForeignTagSkipsAPayment` | app/services/auto_trade/income_sync.py:172-181 | under a foreign tag two syncs sixty days apart skip a payment |
| `FundingSync.GapFreeIffTagMatches` | app/services/auto_trade/income_sync.py:172-208 | every run that missed nothing before its first rows is gap-free after each sync if and only if the tag is absent or the symbol asked for |
| `FundingSync.AdjacentWindowsAdd` | app/services/auto_trade/income_sync.py:46-73 | adjacent windows attribute every payment to exactly one of them |
| `FundingSync.LedgerSaysWhatWasPaid` | app/services/auto_trade/income_sync.py:193-244 | after each sync of a run that missed nothing the ledger has every payment from the first backfill start to its newest row with the exchange's amount and time, and nothing the exchange did not report |
| `FundingSync.FundingIsWhatWasPaid` | app/services/auto_trade/income_sync.py:46-73 | for every period from the first backfill start on that the ledger has reached, the funding sum is the sum of the amounts the exchange reports for it |
| `FundingLedger.SymbolsDoNotInterfere` | app/services/auto_trade/income_sync.py:169-208 | however syncs of several symbols are interleaved over one ledger, each symbol's rows are what its own syncs alone would have stored |
| `FundingLedger.EachSymbolIsGapFreeIff` | app/services/auto_trade/income_sync.py:129-181 | beside any other symbols, a symbol's rows are without a gap at every point if and only if its own syncs missed nothing before their first rows |
| `FundingLedger.EachSymbolSumsWhatWasPaid` | app/services/auto_trade/income_sync.py:46-73 | the same for one symbol of a ledger that any other symbols share |
| `FundingSync.ComputeFunding` | app/services/auto_trade/income_sync.py:63-73 | the sum over the half-open window, in any row order |
| `LivePaper.Profile.constructor` | app/services/live_paper.py:53-68 | a new profile is stopped, at revision 1, with no watermark |
| `LivePaper.Profile.CatchUp` | app/services/live_paper.py:249-300 | inserts and watermark of one catch-up, also when it breaks off part-way |
| `LivePaper.Profile.PollProfile` | app/services/live_paper.py:176-222 | a running profile catches up, and a failing one still commits its inserts |
| `LivePaper.Profile.SetRunning` | app/services/live_paper.py:123-155 | starting sets the watermark to now, anything else leaves it |
| `LivePaper.Profile.SwitchStrategy` | app/services/live_paper.py:70-121 | the old strategy catches up, then a new revision starts; a replay that fails aborts the switch with nothing committed |
| `LivePaper.ReplayContents` | app/services/live_paper.py:262-298 | the table after a catch-up is the old one plus exactly the due rows whose key was free, each once |
| `LivePaper.RunKeepsProgress` | app/services/live_paper.py:249-300 | over any polls keys stay distinct, no row is lost and the watermark never goes back |
| `LivePaper.IncrementalEqualsOneShot` | app/services/live_paper.py:249-300 | any sequence of polls, failing ones included, that ends in a success stores exactly what one catch-up at the last time stores |
| `LivePaper.StoredIffClosedInTime` | app/services/live_paper.py:262-298 | after any polls that end in a success a row is stored iff it was before, or it is a closed trade of the replay, ended after the watermark and by now, with its own result, whose key was free |
| `LivePaper.WatermarkIsTheNewestEnd` | app/services/live_paper.py:262-300 | the watermark is the newest end among the trades taken, or where it was |
| `LivePaper.WhenTheWatermarkMoves` | app/services/live_paper.py:94-121 | a poll that breaks off leaves the watermark; a switch opens a revision and sets it to now if running and to none if not |
| `LivePaper.BacklogIsNotReplayed` | app/services/live_paper.py:94-96 | after a switch while stopped and a start, no trade closed before the start is ever stored |
| `AccountNet.GroupBySymbol` | app/services/auto_trade/health.py:254-256 | each symbol once, with exactly its fills in order |
| `AccountNet.GroupsAreExact` | app/services/auto_trade/health.py:254-256 | a group has its symbol's fills, each as often as it was filled |
| `AccountNet.SymbolsAreTraded` | app/services/auto_trade/health.py:254-256 | a symbol is listed iff it was traded |
| `AccountNet.SymbolsKeepOrder` | app/services/auto_trade/health.py:254-259 | symbols are listed in order of first appearance |
| `AccountNet.GroupsKeepOrder` | app/services/auto_trade/health.py:254-256 | fills of a group keep their order |
| `AccountNet.ClosesAreFillsWithAResult` | app/services/auto_trade/health.py:269-273 | the closes are the fills with a result other than zero, each as often as it was filled |
| `AccountNet.ClosesKeepOrder` | app/services/auto_trade/health.py:269-273 | closes keep the order of the fills |
| `AccountNet.NetOverIsSum` | app/services/auto_trade/health.py:257-265 | the account net is the sum of one net per symbol |
| `AccountNet.Totals` | app/services/auto_trade/health.py:257-268 | the account net and the gross of all fills |
| `AccountNet.AccountTradesForHealth` | app/services/auto_trade/health.py:252-298 | one net per closing fill, and they add up to the account net |
| `AccountNet.Distribution` | app/services/auto_trade/health.py:276-298 | each close's own result less its share of the adjustment |
| `AccountNet.EachCloseBearsItsShare` | app/services/auto_trade/health.py:281-287 | each close bears the adjustment in proportion to its quantity, or all the same if the closes have none |
| `AccountNet.RegroupConserves` | app/services/auto_trade/health.py:254-268 | grouping loses nothing: the symbol totals add up to the total of all fills |
| `AccountNet.ClosesCarryTheGross` | app/services/auto_trade/health.py:269-273 | leaving out fills without a result leaves the gross as it is |
| `AccountNet.SharesAreOneWhole` | app/services/auto_trade/health.py:281-286 | both weightings hand out exactly one whole |
| `AccountNet.NetsSumToAccountTotal` | app/services/auto_trade/health.py:254-298 | for any fills with a close, in both weightings, the distributed nets sum exactly to the account net |
| `Lockout.TotpFactor.Enroll` | app/services/totp.py:65-89 | a fresh enrolment is pending and keeps the failure count and the cool-down |
| `Lockout.TotpFactor.Verify` | app/services/totp.py:91-135 | when a code is looked at, when it is accepted, that a right one clears counter and cool-down and confirms, that a wrong one counts or starts the cool-down, and what happens to recovery codes |
| `Lockout.TotpFactor.Disable` | app/services/totp.py:142-148 | removes the enrolment and its recovery codes |
| `Lockout.EmailFactor.SendEnrollmentCode` | app/services/email_2fa.py:66-80 | an existing row is not touched |
| `Lockout.EmailFactor.Verify` | app/services/email_2fa.py:89-131 | the same lockout, and a right code confirms only a call that asks for it |
| `Lockout.EmailFactor.Disable` | app/services/email_2fa.py:134-139 | removes the enrolment |
| `Lockout.RunInvariant` | app/services/totp.py:109-135 | along every run without success or disable, compared codes are spaced so that a full set of failures is followed by the cool-down |
| `Lockout.FailuresStayBelowLimit` | app/services/totp.py:77-84 | stored failures stay below the limit and enrolling again resets nothing |
| `Lockout.ThrottleBound` | app/services/totp.py:109-135 | any span of length D sees at most max_attempts * (D / lockout + 1) compared codes |
| `Lockout.BoundIsTight` | app/services/totp.py:125-133 | the bound is met by a burst at one instant |
| `StepUp.Mint` | app/core/auth.py:77-95 | a minted token is acceptable exactly before its expiry |
| `StepUp.Gate.ConsumeId` | app/api/deps.py:34-48 | set-if-absent with expiry, failing closed whatever the store does |
| `StepUp.Gate.RequireStepUp` | app/api/deps.py:82-120 | every decision, told from the request and the markers alone, and that no marker changes before the subject matched |
| `StepUp.AuthorizedIff` | app/api/deps.py:97-120 | an action is authorized iff the user has a factor and presents a step-up token of their own, in time, with an id no live marker names, and the store answered; exactly when and which marker is written |
| `StepUp.OthersCannotSpendAToken` | app/api/deps.py:109-119 | over every run: requests by other users neither use a token nor burn it |
| `StepUp.MarkerOutlivesToken` | app/api/deps.py:34-48 | once accepted, the id stays marked until the token can no longer be accepted, store failures included |
| `StepUp.SingleUseIffLifetimeWithinTtl` | app/core/auth.py:77-95 | at most one use in every run if and only if the lifetime does not exceed the marker's |
| `StepUp.OutlivingToken` | app/core/auth.py:77-95 | a concrete run with two uses of a longer token |
| `StepUp.DefaultTokenIsSingleUse` | app/api/deps.py:109-119 | the default lifetime authorizes at most one action in any run |

## Left out

- HTTP endpoints, ORM and SQL, Redis and job-runner wiring, e-mail, messaging and exchange clients: each is an input or a map.
- Event payloads, log lines, order metadata and the started/stopped time stamps of a config: written, never read by the logic modelled here.
- Sizing, order placement, overlay arithmetic and the risk engine inside the entry path: only the gates and their state effects are kept; the risk engine is an input that passes, blocks or raises.
- `MultiTPEngine`, the order queue, the stream manager, `check_pre_trade`, `compute_realized_breakdown` and the backtest are inputs or functions handed in.
- Health score, classification, merged drawdown, analysis normalisation, admin paging: would only add easy members.
- Password hashing, token signatures, encryption and one-time-code arithmetic: whether a code or signature is right is a boolean input.
- Floating-point rounding, column precision and time zones: exact reals and integer times. A token's last second follows section 4.1.4 of RFC 7519.
- SQLite, on which the row locks are no-ops: the interleavings are those of a database with row locks.
- Rows older than the state column (status closed with an open state): runs start from consistent rows.
- A config deleted while rows refer to it is modelled as a queue row without a desk. That commands on one config are atomic is an assumption; the kill-switch is the exception and is also modelled in two steps.
- Exchange sync sees one snapshot per call; emitted events are not modelled. Rows of all positions of an account are synced, one row at a time is followed in the interleaving machine.
- SignalDesk.ConfirmedCloseIsEarned: opposite is judged against the position's side at the time of each report, since a sync may change the side; with an unchanged side it is the side of the opening. Thresholds are assumed fixed during the run.
- SignalDesk.Machine.WithoutPosition: last_trend, last_signal_at and last_signal_confidence_pct are not modelled; no decision reads them.
- SignalQueue.Scheduler.Drain: requires that marks are visible to the next select (SignalQueue.Scheduler.DrainUnseen is the drain where none is); a session in which some attempts flush and others do not is not modelled, nor the switched-off scheduler and the text of errors.
- SignalQueue.Scheduler.DrainUnseen: states what has happened after any number of rounds, since a loop that never ends has no last state.
- FundingSync.SyncsLeaveNoGap: assumes distinct ids and times, oldest-first pages of at least two rows, no row appearing later than the overlap, fewer rows in an overlap window than one sync carries, and prompt syncs until rows come in.
- FundingSync.FundingIsWhatWasPaid: assumes what FundingSync.AlwaysGapFreeIff assumes and that nothing was missed; a period the ledger has not reached yet is not covered.
- FundingLedger.SymbolsDoNotInterfere: transaction ids of different symbols are assumed to differ, and rows to be stored under the symbol asked for.
- FundingSync.IncomeSync.SyncSymbolIncome: one account, one exchange and one income type; asset, trade id, info and raw columns are not modelled.
- Lifecycle.Strategy.Upsert: whether profile, account, exchange and leverage ceiling are valid is one boolean input, the result of the position sync another.
- Lifecycle.Strategy.TripKillSwitch: one atomic step on a config that was just loaded; the trip on a config loaded earlier is Lifecycle.Tripped with its own rows.
- Lifecycle.HistoryIsAppendOnly: takes the content hash as injective.
- ClosePrice.InferClose: the fee conversion and the extraction of a trade's own result are taken from the trade as given.
- PositionClose.StoredRow.MergeContext: status and state only; quantities, levels and histories of the context are not modelled.
- PositionClose.StoredRow.MarkClosed: close time, close price and the zeroed quantity are not modelled.
- StepUp.Gate.RequireStepUp: whether the user has a second factor is an input.
