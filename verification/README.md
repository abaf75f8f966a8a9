# A verified model of the trading engine

This project models five connected parts of the engine and proves properties of them.

1. **Execution.** `ExecutionLedger`, `ExecutionCoordinator`, `ProtectionManager`,
   `ExecutionConsumer` and the paper adapter, as classes whose methods are proved equal to
   functions on their state (`CoordinatorSpec`, `ConsumerSpec`). The database is the replay of a log of
   committed transactions; the log also holds every call of `adapter.submit_order`. A crash cuts
   the log at any event and restarts everything else, so a property of all runs holds at every
   crash point. A remote exchange is an arbitrary script of answers. Runs are command sequences over the whole
   process (`ExecutionSafety.Run`): coordinator, gate, consumer, restarts and crashes.
2. **Money.** `RiskGate` sizes a position, `PaperExecutionEngine` runs it; the loss budget joins the two.
3. **The feed.** `BybitPublicFeed` message by message, refined by "last snapshot plus every later delta"
   and, for trades, by "everything ever recorded, sorted once".
4. **The value area** of `VolumeProfileCalculator`, with its greedy loop.
5. **Algorithms that must not look ahead.** Swings, fair-value gaps, liquidity pools, the replay cutoff and
   order-flow aggregation.

Code that changes state is a class or a method with loops, proved against functions; what the source promises is proved
about those functions. What an operation answers is also stated in the fields of its inputs alone, without the functions that
compute it, mostly in lemmas whose names end in `Exactly`. Money and prices are reals, value-area levels are bin indices, clocks are parameters.

## What the proofs found

Each of these is a lemma; where the source misses a promise, the exact condition or the failing family is stated with it.

- A complete fill is protected in PAPER only: everywhere else it is SUBMITTED with the gate READY and no stop or target
  (`ReadyGate.FilledRunIsUnprotected`); `SubmittedProtectedExactly` says which answers are protected. `reconcile` and a
  reconciled timeout open the gate without looking at protection (`ReconcileOpensExactly`, `TimeoutOpensExactly`), while
  `recover` answers True only with it (`RecoversExactly`).
- A child order is sent once in a process (`OnceOnly.OncePerProcess`), but again after a restart when the exchange does not
  show it, although its order row is on disk (`StopSentTwiceFromEmpty`); `ChildSentExactly` says when.
- Fill ids: two reports with the same step, price and time collide (`FillRows.CollidingFillsDiverge`);
  `ReportExact` and, over runs, `FillAccounting.RunningMaximum` give the exact condition.
- A second entry order on a symbol overwrites the position quantity and invalidates the derived state
  (`FillRows.SecondOrderDiverges`); `ReportKeepsDerivedState` and `FillAccounting.DerivedStateExactly` say exactly when it stays valid.
- `record_confirmed_fill` does not refresh the in-memory recovery flag: a complete fill reopens the next process, and this
  one only if its flag was READY (`FillRows.MatchReopensAfterRestart`).
- `ProtectionManager.verify` takes a take-profit's trigger for a stop (`ProtectionAnswers.ConfirmedWithoutStop`);
  `StopConfirmedExactly` says which answer of the exchange decides.
- A raw reduce-only order under a child's id is amended when it is smaller, but kept when it is larger, so protection is then not
  for the filled quantity (`StrayOrders.LargerStopSlipsIn`); `PaperRuns.SubmittedExactly` is the exact condition.
- `ExecutionConsumer.submit` answering False for a full queue leaves a row that can run after a restart
  (`ConsumerRuns.FullQueueRefusalIsRecovered` says exactly when, `RefusedThenQueued` is a run).
- The loss budget needs slippage up to 100% and a multiplier of at least 1
  (`PaperEngine.SmallMultiplierOverruns`, `LargeSlippageOverruns`); `LossBoundExact` is the exact bound.
- After a missed id no delta brings the order book back on the same connection, and a snapshot does so only without ids or with
  exactly the missed ones (`BookRefinement.ComesBackExactly`).
- `detect_fvgs` counts shown candles, `update_fvg_fills` counts all of them
  (`Gaps.ScanStartsBehindTheGap`, `Gaps.HiddenCandlesFillAGap`); `analyze`, which filters first, never meets the mismatch
  (`Gaps.AnalyzeScansBehindTheGap`).
- A hole in a volume profile can stop the value area short (`VolumeProfile.GapLosesTarget`);
  `TargetMetExactly` says when.

## Layout

`Optional`, `Arithmetic`, `Extremes`, `Sums`, `Sorting` are shared. Execution: `ExecutionModel`, `ExecutionAdapter`,
`CoordinatorSpec`, `ConsumerSpec` (functions), `Ledger`, `Exchange`, `Coordinator`, `Consumer` (classes),
`ExecutionSafety`, `EntryGate`, `OnceOnly`, `FillRows`, `CommandReports`, `FillAccounting`, `ReadyGate`, `ConsumerRuns`,
`PaperProtection`, `PaperRuns`, `StrayOrders`, `ProtectionAnswers` (runs). Money: `Risk`, `PaperEngine`. Feed: `FeedModel`, `Feed`, `BookRefinement`,
`TradeWindow`. The rest: `VolumeProfile`, `ValueAreaCalculator`, `CandleView`, `Swings`, `Gaps`, `Pools`, `Replay`, `OrderFlow`.
`dafny verify dfyconfig.toml` checks everything.

## Model

| member | source | states |
|---|---|---|
| `LedgerState.Ledger.constructor` | brain/execution/lifecycle.py:147-158 | A ledger reopened on the database that a history of committed transactions leaves behind; its in-memory recovery flag starts READY. |
| `LedgerState.Ledger.PersistOrder` | brain/execution/lifecycle.py:287-329 | One transaction: the order row is inserted or overwritten, nothing else changes. |
| `LedgerState.Ledger.PersistIntent` | brain/execution/lifecycle.py:331-341 | One transaction: an existing intent row keeps its creation time, only status and payload are overwritten. |
| `LedgerState.Ledger.PersistIntentOrderTransition` | brain/execution/lifecycle.py:343-380 | Two transactions, the order row first, so a crash between them leaves an order without its intent transition. |
| `LedgerState.Ledger.UpdateIntentStatus` | brain/execution/lifecycle.py:411-423 | Only an existing row changes, and only its status. |
| `LedgerState.Ledger.RecordProtection` | brain/execution/lifecycle.py:690-724 | The protection row of a child order is inserted or overwritten. |
| `LedgerState.Ledger.RecordReconciliation` | brain/execution/lifecycle.py:460-486 | Appends the row and sets the in-memory flag: READY only for MATCH and OK. |
| `LedgerState.Ledger.RecordConfirmedFill` | brain/execution/lifecycle.py:611-639 | Fill, position and reconciliation row in one transaction; a fill id already taken drops the fill but still writes the position; the in-memory flag stays. |
| `LedgerState.Ledger.RecordKillSwitch` | brain/execution/lifecycle.py:508-516 | Appends a kill-switch row. |
| `LedgerState.Ledger.RecoveryState` | brain/execution/lifecycle.py:488-497 | READY exactly when there is no reconciliation row, or the latest one is MATCH or OK and this process has not recorded a worse one since. |
| `LedgerState.Ledger.KillSwitchState` | brain/execution/lifecycle.py:518-523 | Killed exactly when the latest kill-switch row says KILLED. |
| `LedgerState.Ledger.FilledQuantity` | brain/execution/lifecycle.py:608-609 | The sum of the fills booked for one order id. |
| `LedgerState.Ledger.ValidateDerivedState` | brain/execution/lifecycle.py:534-546 | Passes exactly when every open position row equals the fills summed over its symbol, within 1e-9. |
| `Exchange.ExchangeAdapter.SubmitOrder` | brain/execution/paper_adapter.py:12-24 | The paper book answers a known id with the stored order, fills a new entry at once in full, rests reduce-only orders and refuses other modes; a scripted adapter may answer anything. |
| `Exchange.ExchangeAdapter.AmendOrder` | brain/execution/adapter.py:92-96 | Replaces a known order, raises for an unknown one. |
| `Exchange.ExchangeAdapter.GetOrder` | brain/execution/adapter.py:98-99 | Looks an order up by client id. |
| `Exchange.ExchangeAdapter.Reconcile` | brain/execution/reconciliation.py:6-37 | MATCH exactly when the expected position is there with its side, quantity and price and no other is, or neither expects nor holds any; the status and the symbol it is recorded under. |
| `ExecutionAdapter.CallsExactly` | brain/execution/paper_adapter.py:12-24 | Every call of a scripted exchange takes the next answer of its script; the paper book gives back a known order, rests a reduce-only one, fills an entry in full at its price as its only position, refuses other modes, and amends only what it holds. |
| `ExecutionAdapter.ReconciledExactly` | brain/execution/reconciliation.py:6-37 | MATCH if and only if nothing is expected and nothing there, or every position is on the expected symbol and the last of them agrees in side, in quantity within 1e-9 and, when both are known, in price within 1e-9. |
| `CoordinatorObject.CreatePlan` | brain/execution/protection.py:22-52 | The planned stop and take-profit children of a filled entry, or the ValueError of a missing stop, target or quantity. |
| `CoordinatorObject.Verify` | brain/execution/protection.py:54-62 | True exactly when some live child has a trigger price, some live child is a take-profit, and no live child is smaller than the filled quantity. |
| `CoordinatorObject.Coordinator.constructor` | brain/execution/coordinator.py:29-37 | A fresh coordinator takes its recovery state from the ledger and remembers no request. |
| `CoordinatorObject.Coordinator.SubmitIntent` | brain/execution/coordinator.py:55-158 | The whole new state and outcome of submit_intent, refusals in source order, write-ahead before the one call of the exchange, timeout and unknown handling after it; `EntryGate.EntrySentExactly` says in fields when the call is made. |
| `CoordinatorObject.Coordinator.Admit` | brain/execution/coordinator.py:58-82 | The refusals that depend on the exchange: health, account state and balance (`EntryGate.BalanceRefusals`). |
| `CoordinatorObject.Coordinator.Transmit` | brain/execution/coordinator.py:83-126 | Intent and order rows are committed, then the exchange is called once. |
| `CoordinatorObject.Coordinator.ResolveTimeout` | brain/execution/coordinator.py:127-150 | After a timeout or lost connection the order is looked up: found is RECONCILED, everything else records UNKNOWN and enters RECOVERY. |
| `CoordinatorObject.Coordinator.Settle` | brain/execution/coordinator.py:151-158 | SUBMITTED only after the fill was booked and protection confirmed. |
| `CoordinatorObject.Coordinator.ProcessConfirmedFill` | brain/execution/coordinator.py:160-187 | A cumulative report books its increment over the ledger; a regression or a missing price books nothing and enters RECOVERY. |
| `CoordinatorObject.Coordinator.SynchronizeProtection` | brain/execution/coordinator.py:189-217 | Every planned child is looked up, amended or submitted in order; any recoverable failure records UNKNOWN and enters RECOVERY. |
| `CoordinatorObject.Coordinator.PlaceChild` | brain/execution/coordinator.py:195-211 | One child ends up live in the exchange with at least the filled quantity, or the attempt raises. |
| `CoordinatorObject.Coordinator.SubmitOrderRequest` | brain/execution/coordinator.py:256-296 | Reduce-only requests: refused by the static checks, looked up instead of sent when the id is in the request set, otherwise remembered, written and sent once. |
| `CoordinatorObject.Coordinator.Recover` | brain/execution/coordinator.py:219-246 | Rebuilds an entry from the exchange; every recoverable failure records UNKNOWN. |
| `CoordinatorObject.Coordinator.Reconcile` | brain/execution/coordinator.py:248-254 | Records what the adapter reports and re-reads the recovery state; MATCH may clear RECOVERY without any protection check. |
| `EntryGate.OrderExactly` | brain/execution/model.py:148-215 | The entry order of an intent: BUY for LONG and SELL otherwise, MARKET, its quantity, and a client id of exactly the eleven fields that are hashed. |
| `EntryGate.EntrySentExactly` | brain/execution/coordinator.py:55-126 | For an id in neither the request set nor the order table an entry reaches the exchange if and only if: READY, not killed, approved, LIVE enabled with keys, no kill switch, not stale, positive levels, notional within each positive limit, leverage within its limit, healthy exchange, and a balance of at least notional / max(leverage, 1), non-finite ones only in PAPER and SHADOW and not negative; otherwise nothing is written. |
| `EntryGate.BalanceRefusals` | brain/execution/coordinator.py:108-115 | A finite balance below the margin is INSUFFICIENT_BALANCE; a missing, negative or, outside PAPER and SHADOW, non-finite one is ACCOUNT_STATE_INVALID. |
| `EntryGate.ReasonsAreTrue` | brain/execution/coordinator.py:55-81 | The reason of a refusal made before the exchange is asked is true of the intent and the configuration. |
| `EntryGate.KnownIdExactly` | brain/execution/coordinator.py:83-100 | A known id is looked up and never sent: DUPLICATE when found, otherwise refused, and when only the order table knows it the gate closes with an UNKNOWN row. |
| `EntryGate.ReplyDecides` | brain/execution/coordinator.py:126-158 | REJECTED and UNKNOWN orders are answered as such; timeout, lost connection, transport error and ValueError are resolved by one lookup into RECONCILED or UNKNOWN; any other exception is raised on. |
| `FillRows.ReportedExactly` | brain/execution/coordinator.py:160-187 | One report, in its own fields: nothing new, a closed gate (regression or no price), an error (price or symbol), or one transaction with the increment as fill, the whole quantity as position and MATCH only when FILLED. |
| `ProtectionAnswers.PlanExactly` | brain/execution/protection.py:22-52 | A plan exists if and only if the intent is approved with its stop positive and on the losing side, the quantity positive and within the intent and every target positive; it is a stop on the other side and one take-profit per target, written out field by field. |
| `ProtectionAnswers.SynchronizedExactly` | brain/execution/coordinator.py:189-217 | True without fills or once protection is confirmed; a caught failure answers False and closes the gate with an UNKNOWN row; anything else is raised. |
| `ProtectionAnswers.ConfirmedExactly` | brain/execution/coordinator.py:191-214 | Confirmed if and only if the plan exists, every child was placed, and the live reduce-only children of the entry that the exchange confirmed include one with a trigger and one take-profit, none smaller than the quantity. |
| `ProtectionAnswers.PlacedExactly` | brain/execution/coordinator.py:204-211 | A child is placed, and recorded, if and only if what was obtained for it is live and no smaller than the quantity. |
| `ProtectionAnswers.ObtainedExactly` | brain/execution/coordinator.py:195-203 | What is obtained for a child: the order found when it is large enough, the amended one when it is too small, what the raw request returns when none is found. |
| `ConsumerObject.ExecutionConsumer.Create` | brain/runtime/execution_consumer.py:13-26 | A queue of non-positive size is refused; otherwise an empty, stopped consumer. |
| `ConsumerObject.ExecutionConsumer.Submit` | brain/runtime/execution_consumer.py:69-84 | Persists before it queues; False leaves the row PERSISTED when the queue is full. |
| `ConsumerObject.ExecutionConsumer.ConsumeOne` | brain/runtime/execution_consumer.py:86-105 | One turn: PROCESSING, submit_intent, final status; an exception stops the consumer. |
| `ConsumerObject.ExecutionConsumer.Start` | brain/runtime/execution_consumer.py:28-36 | Runs the recovery pass over the listed rows once, not when already running. |
| `ConsumerObject.ExecutionConsumer.RecoverPersistedIntent` | brain/runtime/execution_consumer.py:46-67 | One row: UNKNOWN, FAILED, REJECTED, EXPIRED, or RECOVERED and queued. |
| `ExecutionSafety.EntrySubmittedAtMostOnce` | brain/execution/coordinator.py:83-126 | In every run, with any exchange answers, crashes and restarts, an entry id reaches adapter.submit_order at most once, and only after its order row is on disk. |
| `ExecutionSafety.RowsStay` | brain/execution/lifecycle.py:287-329 | Order, intent, fill and kill rows are never deleted, at any later event of any log. |
| `ExecutionSafety.RecoveryGate` | brain/execution/coordinator.py:43-57 | READY implies a MATCH or OK (or no) latest reconciliation, and after an unresolved row no entry is submitted before a later MATCH or OK row, across restarts. |
| `ExecutionSafety.UnknownClosesTheGate` | brain/execution/coordinator.py:127-158 | Whenever submit_intent answers UNKNOWN the gate is closed, in this process and, by the latest row, for the next. |
| `ExecutionSafety.NothingSentAfterUnknown` | brain/execution/coordinator.py:43-57 | After an UNKNOWN answer no entry reaches the exchange before a MATCH or OK row is written, whatever commands, restarts and crashes follow. |
| `ExecutionSafety.RecoveryMeaning` | brain/execution/coordinator.py:219-246 | recover() answers True with the gate open on a MATCH row and False with the gate closed. |
| `ReadyGate.RecoversExactly` | brain/execution/coordinator.py:219-246 | recover() answers True if and only if the exchange knows the order, its fill could be booked, protection was confirmed for all that is booked of it, and the position that the exchange shows equals the booked total. |
| `ExecutionSafety.RequestCloses` | brain/execution/coordinator.py:256-296 | An UNKNOWN answer to a protection request closes the gate too. |
| `ExecutionSafety.GoodRowBetween` | brain/execution/lifecycle.py:488-497 | A database that looks good after a bad reconciliation row has a good row written in between. |
| `ExecutionSafety.KilledLedgerSubmitsNothing` | brain/execution/coordinator.py:58-59 | After a KILLED row no entry is submitted before a RESET row. |
| `ExecutionSafety.KilledAtEveryEvent` | brain/execution/lifecycle.py:508-523 | Without a confirmed reset every event of every crash-cut log of a killed process still finds the ledger killed. |
| `ExecutionSafety.KillLatch` | brain/risk/gate.py:114-119 | A killed gate stays killed through any commands, crashes and rebuilt gates without a confirmed reset: no evaluation approves and every submission is refused unsent. |
| `ExecutionSafety.DrawdownKills` | brain/risk/gate.py:344-356 | An evaluation that sees drawdown at the limit kills the gate and the ledger. |
| `ExecutionSafety.SecondGateApproves` | brain/risk/gate.py:114-119 | Over a killed ledger another gate approves if and only if its own flag is clear and the input is otherwise admissible; every submission is refused unsent. |
| `ExecutionSafety.RunKeeps` | brain/execution/coordinator.py:43-57 | The invariant of a whole process (database equals its log, write-ahead holds, every fill row books the increment over the ledger, READY only on a good latest row with nothing unresolved in memory, gate flag equals the ledger) survives every sequence of commands and crashes. |
| `ReadyGate.SubmittedProtectedExactly` | brain/execution/coordinator.py:151-158 | For every exchange and mode: a SUBMITTED entry with fills booked had its protection confirmed for exactly the booked quantity if and only if the answer was PARTIALLY_FILLED, or FILLED in PAPER; otherwise nothing happened beyond the fill. |
| `ReadyGate.CompleteFillIsUnprotected` | brain/execution/coordinator.py:151-158 | Outside PAPER every complete fill ahead of the ledger is SUBMITTED with the gate READY on a good row, the position open, no protection row written and the exchange not asked again. |
| `ReadyGate.FilledRunIsUnprotected` | brain/execution/coordinator.py:151-158 | The run: from an empty ledger outside PAPER, an exchange that fills any acceptable intent at once leaves READY, an open position, and no stop or target ever sent or recorded. |
| `ReadyGate.ReconcileOpensExactly` | brain/execution/coordinator.py:248-254 | reconcile() leaves the gate READY if and only if the status is MATCH or OK; protections, positions and fills stay as they are. |
| `ReadyGate.TimeoutOpensExactly` | brain/execution/coordinator.py:127-150 | After a timeout the answer is RECONCILED, with the gate READY, if and only if the lookup finds the order; its fill is not booked and nothing is protected. |
| `ReadyGate.RestartOpensExactly` | brain/execution/lifecycle.py:488-497 | A new process is READY if and only if there is no reconciliation row or the latest is MATCH or OK; its request set is empty. |
| `ReadyGate.RecoverFailsExactly` | brain/execution/coordinator.py:219-246 | A failure that recover() catches is False with an UNKNOWN row and a closed gate; others are raised. |
| `OnceOnly.OncePerProcess` | brain/execution/coordinator.py:256-296 | On any database, with any exchange, over any commands without a restart, every id handed to adapter.submit_order is handed once, entries and children alike. |
| `OnceOnly.ChildSentExactly` | brain/execution/coordinator.py:197-203 | A child is sent if and only if the lookup answers None, it passes the static checks, its id is not in the request set and the exchange is healthy; the order row on disk plays no part. |
| `OnceOnly.RequestSentExactly` | brain/execution/coordinator.py:256-276 | A raw request is sent if and only if it is reduce-only with positive quantity and leverage within the limit, LIVE is enabled with keys, its id is not in the request set and the exchange is healthy. |
| `OnceOnly.RequestDecides` | brain/execution/coordinator.py:270-296 | What the reply makes of a sent request: REJECTED, UNKNOWN or SUBMITTED by its status, or RECONCILED or UNKNOWN by one lookup. |
| `OnceOnly.RequestRefusedExactly` | brain/execution/coordinator.py:256-272 | What a request that is not sent is answered: direct entry, disabled mode, invalid order, duplicate with the order found, or unavailable exchange. |
| `OnceOnly.StopSentTwice` | brain/execution/coordinator.py:189-217 | From any reachable process with an exchange that never shows an order: a crash anywhere in a synchronization after the stop went out, and the next synchronization sends it again. |
| `OnceOnly.StopSentTwiceFromEmpty` | brain/execution/coordinator.py:189-217 | The same as a run from an empty ledger. |
| `FillRows.ReportExact` | brain/execution/lifecycle.py:611-639 | One bookable report moves the ledger total to the maximum of the two quantities if and only if it is not ahead or its fill id is free; other orders are untouched. |
| `FillRows.UnbookableReport` | brain/execution/coordinator.py:160-176 | A report that is not ahead books nothing; a regression also enters RECOVERY with a bad latest row. |
| `FillRows.CollidingFillsDiverge` | brain/execution/lifecycle.py:242-245 | Two reports with equal step, price and time share a fill id: the position row moves on, the fills do not, and the derived state is invalid. |
| `FillRows.MatchReopensAfterRestart` | brain/execution/lifecycle.py:488-497 | After the report of a complete fill a restarted process is READY, and the running one if and only if its in-memory flag was. |
| `FillRows.ReportKeepsDerivedState` | brain/execution/lifecycle.py:534-546 | One report ahead of the ledger leaves the derived state valid if and only if every other row was valid and the fills of other orders on its symbol, plus its own increment when its fill id is taken, are within tolerance. |
| `FillRows.SecondOrderDiverges` | brain/execution/lifecycle.py:611-639 | From an empty fill history, a second order on a symbol whose first order filled more than the tolerance invalidates the derived state. |
| `FillRows.MaximumExactly` | brain/execution/lifecycle.py:611-639 | In any reachable log every ledger total is, at every event, the largest quantity written for its order, if and only if no fill row was written under a taken fill id. |
| `FillAccounting.RunningMaximum` | brain/execution/coordinator.py:160-187 | Over every run of every command (submissions, recoveries, consumer turns, crashes at any event, restarts) with any exchange answers, the largest quantity written for an order is the largest cumulative quantity reported for it and not cut off; at every crash point the totals never exceed the largest written, and equal it for all orders if and only if no fill id was taken. |
| `FillAccounting.TickingHoldsMaximum` | brain/execution/coordinator.py:160-187 | With increasing report times no fill id is ever taken, so the total of an order is the largest cumulative quantity reported. |
| `FillAccounting.DerivedStateExactly` | brain/execution/lifecycle.py:534-546 | At every crash point of every run without a taken fill id, _validate_derived_state passes if and only if, for each position row, the fills of orders other than the last one on that symbol are within tolerance. |
| `FillAccounting.DerivedStateAlwaysValid` | brain/execution/lifecycle.py:534-546 | So with one entry order per symbol and increasing report times every database at every crash point passes, whatever the exchange. |
| `PaperRuns.SubmittedExactly` | brain/execution/coordinator.py:151-158 | From any state of a paper run SUBMITTED means FILLED in full and booked at exactly its quantity; stop and target rest at exactly that quantity if and only if the stop id and the id of some target were free before, or held an order that amending turns into the planned one; a calm book always is. |
| `PaperRuns.PaperSubmissionsExactly` | brain/execution/paper_adapter.py:12-24 | The same equivalence from an empty ledger and book through any paper run with arbitrary raw reduce-only requests, restarts and crashes. |
| `PaperRuns.PaperSubmissionsAreProtected` | brain/execution/paper_adapter.py:12-24 | When the raw requests of the run are calm, every SUBMITTED entry is filled, booked and protected at exactly its quantity. |
| `PaperRuns.ChildRestsExactly` | brain/execution/coordinator.py:195-207 | A planned child rests as planned after it was obtained if and only if its id was free or held a calm order: a smaller one is amended to the plan, a larger or different one is kept. |
| `PaperProtection.RequestKeepsPaper` | brain/execution/coordinator.py:256-296 | A raw reduce-only request keeps the paper invariant, and the calm one too when its order is calm. |
| `PaperProtection.PlacePaper` | brain/execution/coordinator.py:189-217 | Placing a plan leaves each child exactly as the book before decides, and every other order untouched. |
| `StrayOrders.LargerStopSlipsIn` | brain/execution/coordinator.py:195-207 | From an empty paper process: one raw request for a larger stop, then any acceptable intent, which is SUBMITTED, filled and booked without a stop for its quantity. |
| `PaperRuns.RunPaper` | brain/execution/coordinator.py:189-217 | The paper invariant holds after every command of every paper run, raw requests included: entries filled in full, every other order reduce-only, every booked fill has an order row. |
| `PaperRuns.PlanShape` | brain/execution/protection.py:22-52 | A plan is the stop first, then one target for each target price and no other, each live, reduce-only and for the whole quantity, with distinct ids. |
| `ProtectionAnswers.StopConfirmedExactly` | brain/execution/protection.py:54-62 | When protection is confirmed, by any exchange, every confirmed order is the answer for the planned child in its place; unless a target was answered with a stop, a live stop is among them if and only if the answer for the stop id is one. |
| `ProtectionAnswers.ConfirmedWithoutStop` | brain/execution/protection.py:54-62 | An exchange that answers every lookup with one live take-profit gets every plan confirmed, with no stop order at all: its trigger price passes for a stop. |
| `PaperRuns.FreshFill` | brain/execution/coordinator.py:160-187 | A filled entry that the ledger has never seen is booked at its full quantity. |
| `ConsumerRuns.AcceptedNeverLost` | brain/runtime/execution_consumer.py:69-84 | An intent whose submit returned True keeps its row through all later commands, crashes and restarts. |
| `ConsumerRuns.AcceptExactly` | brain/runtime/execution_consumer.py:69-84 | submit() while stopped, unapproved or seen changes nothing; otherwise the row is PERSISTED first, and only with room in the queue is the intent queued, remembered and its row QUEUED. |
| `ConsumerRuns.TurnExactly` | brain/runtime/execution_consumer.py:86-105 | One turn: the row PROCESSING, then the outcome of submit_intent, status by status; an exception stops the consumer, an id that cannot be formed ends its task. |
| `ConsumerRuns.RowDecidedExactly` | brain/runtime/execution_consumer.py:46-67 | The status and queueing of one row of the recovery pass, in its order of checks. |
| `ConsumerRuns.ListedExactly` | brain/execution/lifecycle.py:393-409 | The pass sees every row that is CREATED, PERSISTED, QUEUED, RECOVERED, PROCESSING or APPROVED, once, oldest first. |
| `ConsumerRuns.RecoveryPass` | brain/runtime/execution_consumer.py:46-67 | The pass queues exactly the first eligible rows in order and gives every other row the status that the old database alone decides. |
| `ConsumerRuns.StartDecidesEveryRow` | brain/runtime/execution_consumer.py:46-67 | After a fresh start on any log no recoverable row is undecided and queued ids are within capacity without an order row; at the venue that wrote the rows they are distinct. |
| `ConsumerRuns.RestartQueuesDistinctIds` | brain/runtime/execution_consumer.py:46-67 | From an empty ledger, through any run at one exchange and mode, a restart there queues distinct ids without order rows. |
| `ConsumerRuns.AcceptedIsDecidedAfterRestart` | brain/execution/lifecycle.py:393-409 | End to end: accepted, then any commands and crashes, then a restart with any configuration, exchange and capacity; the row is found and queued or decided. |
| `ConsumerRuns.FullQueueRefusalIsRecovered` | brain/runtime/execution_consumer.py:78-84 | submit returning False for a full queue is not final: the next start queues the intent if and only if it has no order row, is not stale and fewer eligible rows than the capacity are listed before it. |
| `ConsumerRuns.RefusedThenQueued` | brain/runtime/execution_consumer.py:78-84 | A run that gets there: the queue is full, the second intent is refused, the first is consumed, and a restart queues the second. |
| `Risk.RiskGate.constructor` | brain/risk/gate.py:75-119 | A gate starts killed exactly when its ledger is. |
| `Risk.RiskGate.Create` | brain/risk/gate.py:121-143 | An invalid configuration is refused, all others give a gate. |
| `Risk.RiskGate.Kill` | brain/risk/gate.py:150-156 | Latches, audits and writes a KILLED row. |
| `Risk.RiskGate.Reset` | brain/risk/gate.py:158-166 | Only a confirmed reset with a non-blank reason unlatches and writes a RESET row; any other changes nothing. |
| `Risk.RiskGate.Evaluate` | brain/risk/gate.py:180-431 | The whole result and new state of an evaluation, including the kill latched by drawdown; the numbers are those of `SizeExactly`. |
| `Risk.NoRejectionMeansAdmissible` | brain/risk/gate.py:196-356 | The rejection list is empty if and only if every condition of the gate holds. |
| `Risk.ApprovalMeaning` | brain/risk/gate.py:358-431 | Approved if and only if every condition holds and the size reaches the minimum; an approved size stays within the risk budget. |
| `Risk.SizeWithinBudget` | brain/risk/gate.py:370-395 | The size never exceeds the budget or the maximum, and unless capped it is the largest multiple of the step that fits. |
| `Risk.ApprovedExactly` | brain/risk/gate.py:196-431 | Approved if and only if every condition, written out in the inputs, holds and some multiple of the step (any quantity without one) is at least the minimum and costs at most account * percent / 100 when stopped, fees and slippage included. |
| `Risk.SizeExactly` | brain/risk/gate.py:215-397 | risk_usd * 100 is account * percent; an approved size lies between minimum and maximum, size * multiplier * (stop distance + two fees + slippage) * 100 is at most account * percent, and unless capped the size is on the step grid and one step more would reach it. |
| `Risk.RejectionsExactly` | brain/risk/gate.py:196-395 | Each of the 17 reasons is given if and only if its own condition holds. |
| `PaperEngine.PaperExecutionEngine.Create` | brain/execution/paper.py:32-38 | Negative fee or slippage rates are refused. |
| `PaperEngine.PaperExecutionEngine.OpenPosition` | brain/execution/paper.py:40-61 | Opens exactly the intents the source accepts, at the slipped price with the fee booked as loss; a refusal changes nothing. |
| `PaperEngine.PaperExecutionEngine.UpdatePrice` | brain/execution/paper.py:63-90 | Stop before target 2 before target 1: one event closes at most one lot; `LongUpdateExactly` and `ShortUpdateExactly` give the prices. |
| `PaperEngine.PaperExecutionEngine.TrailStop` | brain/execution/paper.py:92-105 | Moves the stop only of an OPEN position and only with the trade. |
| `PaperEngine.PaperExecutionEngine.Close` | brain/execution/paper.py:107-114 | Closes everything that remains at the given price. |
| `PaperEngine.OpenedExactly` | brain/execution/paper.py:40-61 | What open() accepts, written out, and the position it leaves: entry * (1 + slippage) for LONG and (1 - slippage) otherwise, everything remaining, the fee lost. |
| `PaperEngine.LongUpdateExactly` | brain/execution/paper.py:63-90 | LONG: at or below the stop everything closes at the stop; above it, at or over target 2 everything at the price; below target 2 and at or over target 1 half at target 1; otherwise, and only then, nothing closes. Status, remainder and P&L of each case. |
| `PaperEngine.ShortUpdateExactly` | brain/execution/paper.py:63-90 | The mirror image for SHORT. |
| `PaperEngine.TrailAndCloseExactly` | brain/execution/paper.py:92-114 | A stop moves exactly when the position is OPEN and the stop goes with the trade; close() books the move times what remains. |
| `PaperEngine.LotsAreAtStopOrTarget` | brain/execution/paper.py:63-114 | Over every run each closed lot was closed at the stop that was hit, at the price given to close(), or at or beyond a target on the profitable side. |
| `PaperEngine.Conservation` | brain/execution/paper.py:57-114 | Over every run closed lots plus remaining equal the quantity, remaining stays within bounds, and realized P&L is its start plus the signed sum over closed lots. |
| `PaperEngine.RemainingShrinks` | brain/execution/paper.py:63-114 | No event of a run increases the remaining quantity. |
| `PaperEngine.FrozenWhenFlat` | brain/execution/paper.py:63-114 | Once nothing remains, realized P&L never changes again. |
| `PaperEngine.NoWorseThanTheStop` | brain/execution/paper.py:63-105 | Without close() every closed lot gains at least what the initial stop would. |
| `PaperEngine.LossBoundExact` | brain/execution/paper.py:40-105 | Realized P&L stays above -budget in every state reachable by updates and trails if and only if quantity times unit loss fits the budget. |
| `PaperEngine.UnitLossWithinUnitRisk` | brain/risk/gate.py:374-381 | The unit loss of the simulator is within the unit risk that the gate divides by. |
| `PaperEngine.LossBudget` | brain/risk/gate.py:370-397 | End to end: a position sized by the gate and opened at its entry never realizes less than -account * percent / 100, for slippage up to 100% and multiplier at least 1. |
| `PaperEngine.SmallMultiplierOverruns` | brain/risk/gate.py:382-384 | With a multiplier below 1 and no costs or step, a stopped position always overruns the budget. |
| `PaperEngine.LargeSlippageOverruns` | brain/execution/paper.py:47-57 | With slippage above 100% the entry fee alone can overrun the budget. |
| `BybitPublicFeed.BybitFeed.ResetState` | market/bybit/public_ws.py:210-222 | A reconnect drops the book and nothing else. |
| `BybitPublicFeed.BybitFeed.MarkDisconnected` | market/bybit/public_ws.py:224-232 | Clears and invalidates the book, incomplete quality. |
| `BybitPublicFeed.BybitFeed.Invalidate` | market/bybit/public_ws.py:234-246 | Invalid and not ready, continuity read off the reason. |
| `BybitPublicFeed.BybitFeed.Admits` | market/bybit/public_ws.py:266-326 | A message is refused with the first failing check of the source; a refusal leaves the levels alone. |
| `BybitPublicFeed.BybitFeed.ApplyOrderbook` | market/bybit/public_ws.py:260-399 | The whole new state after a snapshot or delta, accepted, refused or crossed. |
| `BybitPublicFeed.BybitFeed.ProcessTrade` | market/bybit/public_ws.py:401-456 | The whole new state after one trade: duplicate, refused, unrecorded or recorded and windowed. |
| `BybitPublicFeed.BybitFeed.ProcessMessage` | market/bybit/public_ws.py:458-586 | The whole new state after any message of any topic. |
| `BybitPublicFeed.BybitFeed.Quality` | market/bybit/public_ws.py:90-113 | The grade, in the order of checks of the source. |
| `BybitPublicFeed.CrossedByExtremes` | market/bybit/public_ws.py:378-381 | Comparing the best bid with the best ask finds exactly the books in which some bid is at or above some ask. |
| `BookRefinement.SnapshotQuotes` | market/bybit/public_ws.py:323-347 | A snapshot side holds, at each price, the last positive quantity quoted. |
| `BookRefinement.DeltaQuotes` | market/bybit/public_ws.py:349-376 | A delta gives each price its last quoted quantity, zero removing it, and leaves unnamed prices alone. |
| `BookRefinement.TakenExactly` | market/bybit/public_ws.py:260-399 | A book message is taken if and only if its number is absent or the successor, its previous number absent or the last one, it is a two-sided snapshot or a delta on a ready book, its levels are sensible and the new sides do not cross. |
| `BookRefinement.InvalidExactly` | market/bybit/public_ws.py:234-246 | Whatever the reason, levels, number and time stay; the book is invalid and not ready, and the reason alone decides the continuity. |
| `BookRefinement.BookAfterExactly` | market/bybit/public_ws.py:234-399 | Number, time and state after a taken message; after any other a reason that is true of it, the continuity that goes with it, and the levels unless crossed left alone. |
| `BookRefinement.EventsExactly` | market/bybit/public_ws.py:210-232 | A connection starts an empty book and the end of one empties and invalidates it; a ready book makes its best bid the price; unreadable messages spoil the book. |
| `BookRefinement.ReadyBookIsBuilt` | market/bybit/public_ws.py:260-399 | Over every event sequence a ready book is some accepted snapshot with every later book message applied and none skipped, price by price, with consecutive ids up to last_sequence. |
| `BookRefinement.ReadyBookIsOrderly` | market/bybit/public_ws.py:376-399 | A ready book has positive quantities, every bid below every ask, and HEALTHY continuity. |
| `BookRefinement.ValidMeansInStep` | market/bybit/public_ws.py:90-113 | quality() answers DATA_VALID only with such a book, fresh, and with price, open interest and funding present. |
| `BookRefinement.GradedExactly` | market/bybit/public_ws.py:90-113 | The grade written out: invalid, stale by the age of each observation, valid with everything present on a ready book, incomplete otherwise. |
| `BookRefinement.KlineExactly` | market/bybit/public_ws.py:500-543 | A kline sets the candle time of its interval, and the confirmed time only when it is confirmed. |
| `BookRefinement.OpenInterestExactly` | market/bybit/public_ws.py:548-559 | Open interest with a time: the first value observed at that time stands; a negative value or time spoils the book. |
| `BookRefinement.FundingExactly` | market/bybit/public_ws.py:560-570 | Funding with a time: the first value observed at it stands; without one it is taken and has no time. |
| `BookRefinement.TickerInOrder` | market/bybit/public_ws.py:545-586 | The fields of a ticker are taken in order up to the first that raises, and what was taken before stays. |
| `BookRefinement.HealsExactly` | market/bybit/public_ws.py:272-347 | An out-of-step book becomes ready at a message if and only if it is a usable, uncrossed snapshot with both sides whose ids are absent or the very next ones. |
| `BookRefinement.ComesBackExactly` | market/bybit/public_ws.py:272-347 | After a missed id the book comes back on the same connection if and only if such a snapshot arrives, over every message sequence. |
| `BookRefinement.GapIsReached` | market/bybit/public_ws.py:272-287 | A snapshot and then a message numbered past its successor lead there. |
| `TradeWindow.TruncateEarly` | market/bybit/public_ws.py:448-452 | Truncating before an insertion leaves the same window as truncating after it. |
| `TradeWindow.JudgedExactly` | market/bybit/public_ws.py:401-440 | A trade is recorded, with its own id, time, price, quantity and side, if and only if its id is new, its time neither negative nor before the latest, price and quantity positive and its side BUY or SELL; the other verdicts name a condition that is true. |
| `TradeWindow.TradedExactly` | market/bybit/public_ws.py:401-456 | A recorded trade enters ids, window and price; any other only counts and, unless a repeat, spoils the book. |
| `TradeWindow.LessExactly` | market/bybit/public_ws.py:448-448 | Ids are compared like Python strings: the first differing character decides, then the length. |
| `TradeWindow.DecimalExactly` | market/bybit/public_ws.py:407-412 | The running number of a made-up id is its decimal numeral, without leading zeros. |
| `TradeWindow.TradesAreTheNewest` | market/bybit/public_ws.py:401-456 | After any events the window equals one sort of all trades ever recorded cut to the last 5000, strictly increasing by (timestamp, id), no id twice. |
| `TradeWindow.DroppedAreOlder` | market/bybit/public_ws.py:448-452 | Everything dropped from the window is before everything in it by timestamp, then id. |
| `ValueAreaCalculator.VisibleConfirmed` | market/indicators.py:6-21 | Confirmed candles up to the cutoff, the last one per time, in time order. |
| `VolumeProfile.VisibleInOrder` | market/indicators.py:6-21 | Visible candles strictly increase in time, are all shown, and no shown time is left out. |
| `VolumeProfile.HiddenCandlesDoNotCount` | market/indicators.py:6-21 | Unconfirmed and later candles have no influence, wherever they stand. |
| `VolumeProfile.VisibleExactly` | market/indicators.py:6-21 | A candle is visible if and only if it is confirmed, up to the cutoff, and the last such candle given for its time. |
| `VolumeProfile.RecentAreTheLast` | market/indicators.py:131-131 | The lookback keeps the last candles of that order. |
| `ValueAreaCalculator.VolumeProfileCalculator.Calculate` | market/indicators.py:130-162 | Raised for a negative volume, invalid for a malformed candle (whichever comes first), incomplete without volume, else the levels. |
| `ValueAreaCalculator.GrowArea` | market/indicators.py:149-157 | The loop terminates with the run that the greedy rule defines. |
| `VolumeProfile.BinsHoldEveryVolume` | market/indicators.py:134-143 | The bins hold exactly the volume of the candles. |
| `VolumeProfile.BinsExactly` | market/indicators.py:134-143 | Bin b exists if and only if some visible candle has b * size * 3 <= high + low + close < (b + 1) * size * 3, and it holds exactly the volume of those candles. |
| `VolumeProfile.AreaIsGreedy` | market/indicators.py:149-157 | Every bin of the value area was taken while the run missed the target, with no heavier bin on the other side, and above the POC with no equal one either. |
| `VolumeProfile.AreaOf` | market/indicators.py:147-157 | The value area is an unbroken run of occupied bins around the POC; it meets the target or both neighbours are empty; without one of its end bins it would have missed the target. |
| `VolumeProfile.TargetMetExactly` | market/indicators.py:148-157 | The target is met if and only if the whole block of occupied bins around the POC holds it. |
| `VolumeProfile.GapFreeMeetsTarget` | market/indicators.py:146-157 | On a gap-free profile the target is always met. |
| `VolumeProfile.GapLosesTarget` | market/indicators.py:151-154 | With a hole beside the POC the loop stops short of its target. |
| `VolumeProfile.SinglePeakIsOptimal` | market/indicators.py:148-157 | On a gap-free single-peaked profile no included bin is lighter than an excluded one, and no smaller set of bins, contiguous or not, holds the target. |
| `ValueAreaCalculator.ProfileMeaning` | market/indicators.py:145-162 | The same guarantees for the value area that calculate() returns, in terms of the candles. |
| `ValueAreaCalculator.LevelsExactly` | market/indicators.py:144-162 | In terms of the candles: no levels without volume; the POC is the lowest price band holding the most volume, the LVN the lowest holding the least. |
| `ValueAreaCalculator.CheckExactly` | market/indicators.py:134-142 | The first candle that is malformed or of negative volume decides between invalid data and the error. |
| `CandleView.VisibleCandles` | brain/structure/engine.py:154-165 | Confirmed candles of the symbol up to the cutoff, in input order. |
| `CandleView.VisibleExactly` | brain/structure/engine.py:154-165 | A candle is shown as often as it is given if it is confirmed, not past the cutoff and of no other symbol, and otherwise not at all. |
| `CandleView.EarlierCutoffShowsPrefix` | brain/structure/engine.py:154-165 | On time-ordered candles an earlier cutoff shows a prefix of what a later one, or none, shows. |
| `Swings.MarketStructureEngine.DetectSwings` | brain/structure/engine.py:173-279 | The swings of the visible candles in index order, HIGH before LOW. |
| `Swings.DetectedExactly` | brain/structure/engine.py:215-275 | A point is reported if and only if it has swing_strength candles on both sides, is strictly beyond the left ones and not beaten by the right ones, at its own high or low. |
| `Swings.SwingsNeverRepaint` | brain/structure/engine.py:201-279 | Appending candles keeps every swing as a prefix and adds only swings whose right side was not complete before. |
| `Swings.CutoffShowsPrefix` | brain/structure/engine.py:173-279 | Swings at an earlier cutoff are a prefix of those at a later one, or at none. |
| `Swings.SwingsAreSpaced` | brain/structure/engine.py:215-275 | Two swings of one kind are more than swing_strength candles apart. |
| `Gaps.FairValueGapEngine.DetectFvgs` | brain/fvg/engine.py:328-472 | The gaps of the visible candles in index order: exactly those of `DetectedExactly`. |
| `Gaps.FairValueGapEngine.UpdateFvgFills` | brain/fvg/engine.py:480-604 | The early-exit scan gives every gap exactly its closed form clamp((upper - lowest later low) / size), or the mirror image. |
| `Gaps.DetectedAreProper` | brain/fvg/engine.py:358-470 | Every gap has positive size, the edges of its two neighbours and at least the configured relative size. |
| `Gaps.DetectedExactly` | brain/fvg/engine.py:358-470 | A gap is reported if and only if it is BULLISH from the left high up to the right low, or else BEARISH from the right high up to the left low, at least minPct of its lower edge wide, created with the right candle, and unfilled. |
| `Gaps.GapsNeverRepaint` | brain/fvg/engine.py:352-472 | Gaps found on a prefix are a prefix of those on the extension. |
| `Gaps.CutoffShowsPrefix` | brain/fvg/engine.py:328-350 | Gaps at an earlier cutoff are a prefix of those at a later one, or at none. |
| `Gaps.FillsOnlyGrow` | brain/fvg/engine.py:480-604 | More candles and a later cutoff never lower a fill, and a filled gap stays filled. |
| `Gaps.FilledExactly` | brain/fvg/engine.py:520-580 | Filled if and only if some later candle reached the far edge. |
| `Gaps.FillIsDeepest` | brain/fvg/engine.py:520-590 | The fill times the size is how far the deepest later candle came back into the gap, between nothing and all of it. |
| `Gaps.ScannedExactly` | brain/fvg/engine.py:497-520 | The scan reads exactly the confirmed candles from its raw start index that the cutoff admits. |
| `Gaps.ScanStartsBehindTheGap` | brain/fvg/engine.py:497-510 | Detection counts shown candles, the scan counts all of them and ignores symbols: it reads exactly the shown candles behind the gap if and only if no hidden candle stands before its start and none behind is hidden by its symbol alone. |
| `Gaps.AnalyzeScansBehindTheGap` | brain/fvg/engine.py:757-772 | analyze() filters once and hands the same list to both, so its scan reads exactly the shown candles behind every gap. |
| `Gaps.HiddenCandlesFillAGap` | brain/fvg/engine.py:497-510 | With two unconfirmed candles in front, a fresh gap is reported filled by a candle that made it. |
| `Pools.LiquidityEngine.DetectPools` | brain/liquidity/engine.py:321-469 | The pools of the greedy clusters of highs and of lows. |
| `Pools.LiquidityEngine.Match` | brain/liquidity/engine.py:345-387 | The inner loop puts a touch into the first group with a near head, else opens a group. |
| `Pools.NearIsSymmetric` | brain/liquidity/engine.py:295-313 | Nearness does not depend on the order of its arguments. |
| `Pools.ClustersAreSound` | brain/liquidity/engine.py:335-387 | Members ascend, are near their head and near no earlier head. |
| `Pools.ClustersArePartition` | brain/liquidity/engine.py:335-387 | Every candle index stands in exactly one place of exactly one group. |
| `Pools.HeadsAreApart` | brain/liquidity/engine.py:335-387 | Group heads are pairwise not near. |
| `Pools.ClustersExtend` | brain/liquidity/engine.py:335-387 | Appending candles only extends groups at their ends; new groups come last. |
| `Pools.PoolsOnlyGrow` | brain/liquidity/engine.py:335-469 | Appending never removes a pool, keeps its first index, and only grows its touches and last index. |
| `Pools.PoolsHaveTheirOwnStart` | brain/liquidity/engine.py:335-469 | Pools of one side have different first indices. |
| `Pools.DetectedExactly` | brain/liquidity/engine.py:295-469 | Without groups: a price leads if it is close to no earlier leading price; its members are the prices from it on that are close to it and to no earlier leading one; every lead with enough members, and nothing else, is a pool, at the mean of their prices, with the last of their indices and their number. |
| `Replay.RawBybitReplayHarness.EventsForCutoff` | market/replay/harness.py:73-92 | The selection and both kinds of diagnostics at a cutoff. |
| `Replay.OrderedIsSorted` | market/replay/harness.py:79-79 | The order is the input sorted by (event time, received time, position), nothing lost. |
| `Replay.EarlierCutoffIsAPrefix` | market/replay/harness.py:73-92 | The selection at an earlier cutoff is a prefix of that at a later one, or at none. |
| `Replay.OnlyThePastCounts` | market/replay/harness.py:79-90 | The selection depends only on the events up to the cutoff in their input order. |
| `Replay.FutureEventsDoNotMatter` | market/replay/harness.py:73-92 | Later events can be put anywhere in the input without changing the selection. |
| `Replay.SelectionIsExact` | market/replay/harness.py:80-90 | Fingerprints in the selection are distinct and every message in time is there. |
| `Replay.NothingVanishes` | market/replay/harness.py:82-91 | Every event up to the cutoff is selected or reported as a duplicate. |
| `Replay.DisorderExactly` | market/replay/harness.py:76-78 | An out-of-order diagnostic is given for exactly the positions within the cutoff whose time is below that of the position before. |
| `Replay.RepeatsExactly` | market/replay/harness.py:82-89 | A duplicate diagnostic is given for exactly the ordered events whose message an earlier one within the cutoff has brought. |
| `OrderFlow.OrderFlowEngine.RememberTrade` | market/orderflow/engine.py:36-48 | The first values of an id stand; unusable trades are not remembered. |
| `OrderFlow.OrderFlowEngine.Analyze` | market/orderflow/engine.py:50-139 | Volumes over the current ids (`CurrentExactly`), cumulative delta over every stored trade that cutoff and symbol count, and the grades derived from them. |
| `OrderFlow.CurrentExactly` | market/orderflow/engine.py:59-69 | An id is current if and only if some given trade has it, with a side, a time and a quantity of at least 0, not past the cutoff and of no other symbol. |
| `OrderFlow.NoLookAhead` | market/orderflow/engine.py:59-82 | A call with a cutoff stores and counts what a call without one does on the trades up to the cutoff: same ids, same volumes, same count. |
| `OrderFlow.VolumesBySide` | market/orderflow/engine.py:71-92 | The volumes are the summed quantities of the BUY and of the SELL records, the signed volume their difference. |
| `OrderFlow.GradesExactly` | market/orderflow/engine.py:94-126 | Bias by which volume is larger; strong from three to one on, weak below three to two; the ratio is infinite exactly when only bought. |
| `OrderFlow.GivenExactly` | market/orderflow/engine.py:59-69 | What the calls let through: each trade that some call was given, not past its cutoff and of no other symbol. |
| `OrderFlow.StoredExactly` | market/orderflow/engine.py:36-92 | After any calls the store holds, for each id let through, the values of its first usable trade, and a cutoff counts it exactly when its time and symbol fit. |
| `OrderFlow.EachTradeCountsOnce` | market/orderflow/engine.py:36-92 | Over any calls with overlapping windows, cutoffs and symbols the store holds one record per distinct id let through, with first-seen values, and the cumulative delta is the net volume over the counted ones. |
| `OrderFlow.FutureTradesDoNotCount` | market/orderflow/engine.py:63-92 | When repeats agree, the cumulative delta at a cutoff is the net volume over what had happened by then, although later trades are already stored. |
| `OrderFlow.OrderDoesNotMatter` | market/orderflow/engine.py:36-92 | When repeats agree, order, repetition and the division into calls do not matter. |
| `OrderFlow.DisagreementMatters` | market/orderflow/engine.py:47-47 | When repeats disagree, whichever came first is counted. |

## Left out

- FillAccounting.DerivedStateExactly: assumes that no fill id was taken and that no order is reported under two symbols; `FillRows.ReportKeepsDerivedState` is the exact condition for one report without these.
- CoordinatorObject.Verify: the stop price, target price and reason of `ProtectionResult`.
- CoordinatorObject.Coordinator.Recover: `restore_protection_identity`.
- Exchange.ExchangeAdapter.Reconcile: the discrepancy list and the stale orders of the result.
- BybitPublicFeed.BybitFeed.ProcessTrade: price statistics, `last_update` and `last_event_time`.
- ValueAreaCalculator.VolumeProfileCalculator.Calculate: `sample_count`, `bin_count`, `lookback` and event times of the result.
- Pools.LiquidityEngine.DetectPools: the name, creation time and symbol of a pool.
- ExecutionSafety.KillLatch: one gate per process in the runs; `SecondGateApproves` says what another gate does.
- ExecutionSafety.EntrySubmittedAtMostOnce: covers entries across restarts; children are once-only within a process (`OnceOnly.OncePerProcess`).
- BybitPublicFeed.BybitFeed.Quality: the reason strings are not modelled.
- BybitPublicFeed.BybitFeed.ProcessMessage: candle contents, 24h volume, `last_update`, `last_event_time` and derived OI, funding and price statistics are not part of the state, nor is a book timestamp that does not convert.
- A ledger without a database, SQL failures, audit tables, order timestamps, metadata, margin mode and fees on fill rows.
- Upper-casing of symbols and exchange names is assumed done; SHA-256 client ids are an injective constructor, JSON fingerprints are the text itself.
- Float rounding, `round(..., 12)`, overflow and non-finite inputs to the gate; the gate's positive reasons and metadata.
- asyncio scheduling, cancellation and `stop()`: one consumer turn is one step.
- Sorting and filtering of candles before `detect_pools`; candles whose prices do not convert in the swing, gap and pool engines.
- How `_trade_id` builds an id when none is given, and order-flow fields that do not convert.
- Configuration errors of the analysis engines, which raise in their constructors, are preconditions of the constructors here.
- Scoring engines, exchange REST adapters, the websocket loop, dashboards, alerts and scripts: mapping or I/O with easy claims.
