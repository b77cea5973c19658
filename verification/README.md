# Gold token backend: a verified model

The backend mints tokens against physical gold. An order starts a saga, a row that a worker moves
through a fixed set of states while it reserves bars and drives a proposal on the chain; the last
step of a saga stages one event in an outbox; a relay drains the outbox to a stream; consumers
settle the order and log the mint in the wallet. Around that pipeline stand a price oracle, a rate
limiter and the ledgers of the fee, vault and treasury services.

This project models those parts in Dafny and proves what the parts keep together.
`dafny verify dfyconfig.toml` checks all of it.

## How the system is modelled

Every SQL statement, foreign call and channel operation is one atomic step with exactly the
condition written in the code. What a call outside the model answered is part of the step that made
it, so a run is a sequence of steps, and every chain client, failing database or broker, crash and
interleaving is one choice of steps. A statement can take effect and still be reported as failed.

Code that changes state in place is written that way: classes with the tables as fields, whose
methods are each proved to perform the step of the state machine they stand for. The state machines
carry the theorems over whole runs.

| files | part |
|---|---|
| `MintSaga`, `SagaSafety`, `LostWrites`, `SagaWorker`, `Scheduling` | the mint saga: its steps, what every run keeps, what lost writes can break, the worker, fairness and progress |
| `StubChain`, `MintPipeline`, `MintSupply` | sagas against the in-memory chain: outcomes and conservation of the minted supply |
| `OutboxRelay`, `Delivery`, `Settlement`, `SettlementRuns`, `SettlementProgress`, `StubSettlement` | outbox to stream, redelivery, settling orders and wallet rows end to end for any chain client and with the in-memory one |
| `OrderIntake`, `IntakeRuns` | creating orders under retries |
| `Median`, `Candles`, `PriceHub` | price aggregation, candles at three granularities, the broadcast hub |
| `RateLimits` | the rate limiter and its cleanup |
| `Fees`, `VaultLedger`, `VaultReplay`, `Treasury` | fee tiers and charges, the vault inventory and its movement log, reserves and settlements |
| `Amounts`, `Hex` | gram, wei and hexadecimal texts |
| `Wrappers`, `Arithmetic`, `Decimal` | shared helpers |

Assumptions, stated as part of the steps: one saga worker and one relay, distinct allocation IDs
(the unique index `uq_saga_allocation` in `backend/migrations/0001_mintburn_initial.sql`, under which
a ready-to-mint event that is delivered again creates no second saga), one confirmation per order,
one strictly increasing clock, and a broker that remembers every Msg-Id.

## What turned out not to hold

Some properties one would expect of the code fail. For each there is a failing case, as a run or as
an input, and a theorem that says exactly when the property holds.

- A compensation gives the bars back before it records the failure. If that write is lost the saga
  goes on without its bars and can complete: `LostWrites.CompletedWithoutBars`. Runs without such a
  step are exactly those that keep every saga backed (`SagaSafety.BackedThroughoutExactly`); against
  the in-memory chain they cannot lead to a completed mint (`MintSupply.CompletedMintsAreBacked`).
- With a chain that refuses to execute a proposal twice, as `contracts/src/MintController.sol` does,
  a lost write after an execution ends in a failed saga whose mint went through:
  `LostWrites.ExecutedMintAnnouncedFailed`, exactly when as in `SagaSafety.ExecutedOutcomeExactly`.
- An approval count that cannot be read writes nothing, so the oldest pending saga keeps the queue
  to itself: `Scheduling.UnreadableCountStalls`. A saga can be picked again ahead of a waiting one
  exactly if its step did not write (`Scheduling.PickedAgainExactly`).
- The 256th approval wraps the one-byte counter, and an executing saga then fails:
  `MintSupply.EnoughApprovalsFail`, exactly when as in `MintSupply.ExecutableExactly`.
- A failed fallback lookup answers a retried order with success and a zero order:
  `IntakeRuns.SuccessWithoutOrder`, and nothing else does (`OrderIntake.UnnamedSuccessExactly`).
- The comment that a failed confirmation is confirmed on the next retry is not what the code does.
  The retry finds the row and returns it, and the order is stranded: `IntakeRuns.OrderStrandedForever`.
  When an order can still be dispatched is exact in `OrderIntake.DispatchableExactly`.
- A second handler run that read the order before the first one wrote stamps it again:
  `SettlementRuns.SettledOrderRestamped`, exactly when as in `Settlement.RestampedExactly` and
  `Settlement.TimeFinalExactly`.
- A message whose acknowledgement is lost can be processed again (`Delivery.LostAckProcessesAgain`),
  exactly when as in `Delivery.ProcessedTwiceExactly`. For fees this means another ledger row for
  every run that takes effect: `Fees.ChargedOncePerLandedRun`.
- An order whose event fails at all five deliveries stays unsettled, and only such an order
  (`SettlementProgress.StrandedExactly`).
- One interval's failed candle upsert, which is only logged, makes the granularities disagree
  (`Candles.FailedUpsertDisagrees`), exactly when as in `Candles.RollUpAgreesExactly`.
- `HexToBytes32` panics on more than 64 hex digits: `Hex.HexNormalForm`, which is exact.
- A change of place that is not written down, and two overlapping transfers of one bar, part the
  movement log from the inventory (`VaultReplay.UnstoredMovement`, `VaultReplay.OverlapBreaksTheLog`),
  exactly when as in `VaultReplay.LogReplaysInventory`.
- With a negative rate and a minimum below one negative wei, splitting an order can save more than
  rounding. The update handler admits such tiers. Which tiers do, given the range of amounts they
  charge, is exact in `Fees.SplittingLosesLittleExactly`.

Two places where code and schema disagree, in which the model follows the code: the vault service
writes bars with status `available`, which the CHECK of the first migration does not list, and
confirming an order does not consult the order transition table.

## Model

| member | source | states |
|---|---|---|
| `SagaSafety.RunConsistent` | backend/services/mint-burn/internal/saga/orchestrator.go:140-310 | at every point of every run each settled saga has exactly one outbox event, a pending one has none, the event says executed exactly if the saga completed and carries the saga's own order, amount, hash and address, and no two sagas share an allocation |
| `SagaSafety.StepConsistent` | backend/services/mint-burn/internal/repo/repo.go:126-170 | every step keeps that, whatever the calls answer and whether or not its write lands |
| `SagaSafety.StepFollowsTable` | backend/services/mint-burn/internal/domain/saga.go:106-120 | every persisted state change is an edge of the transition table, though compensation never consults it, and requests never change |
| `SagaSafety.SettledForever` | backend/services/mint-burn/internal/saga/orchestrator.go:101-310 | between any two points of a run a settled saga's row and all staged events stay as they are |
| `SagaSafety.AbortsOnlyWithoutApprovals` | backend/services/mint-burn/internal/saga/orchestrator.go:179-200 | a handler gives up without a write exactly when the approval count cannot be read; the transition check never refuses |
| `SagaSafety.ReleasedThroughoutExactly` | backend/services/mint-burn/internal/saga/orchestrator.go:147-310 | in any run no failed saga holds a bar at any point exactly if no failure is recorded over bars whose release failed |
| `SagaSafety.FailedSagasHoldNothing` | backend/services/mint-burn/internal/saga/orchestrator.go:276-310 | so if every release succeeds, no failed saga holds a bar, even one left by a failing reservation |
| `SagaSafety.StepReleases` | backend/services/mint-burn/internal/saga/orchestrator.go:276-292 | one step of that: a step that leaves no unreleased bars behind keeps failed sagas free of bars |
| `SagaSafety.BackingLostExactly` | backend/services/mint-burn/internal/saga/orchestrator.go:276-310 | a step leaves some saga going on without its bars exactly if it releases bars and the write recording the failure is lost |
| `SagaSafety.BackedThroughoutExactly` | backend/services/mint-burn/internal/saga/orchestrator.go:147-310 | in any run every saga going on holds its bars at every point exactly if there is no such step |
| `SagaSafety.ExecutedOutcomeExactly` | backend/services/mint-burn/internal/saga/orchestrator.go:202-234 | with any chain client, at every point of every run: a saga is completed exactly if an accepted execution of its mint was recorded, and failed although executed exactly if an execution's write was lost and a later refusal was recorded |
| `SagaSafety.ExecutedMintCanFail` | backend/services/mint-burn/internal/saga/orchestrator.go:202-234 | from any state with an executing saga, a lost write and a refused retry end it failed |
| `LostWrites.ExecutedMintAnnouncedFailed` | backend/services/mint-burn/internal/saga/orchestrator.go:202-234 | a whole run from an empty database in which the chain executed the mint and the outbox announces its failure |
| `LostWrites.CompletedWithoutBars` | backend/services/mint-burn/internal/saga/orchestrator.go:276-310 | a whole run from an empty database that completes a mint holding none of its bars |
| `SagaWorker.SagaStore.constructor` | backend/services/mint-burn/internal/repo/repo.go:62-62 | starts from the empty tables |
| `SagaWorker.SagaStore.Create` | backend/services/mint-burn/internal/repo/repo.go:64-74 | inserts the row unless the allocation is taken or the write fails |
| `SagaWorker.SagaStore.NextPending` | backend/services/mint-burn/internal/repo/repo.go:93-119 | some oldest eligible row, or none exactly if no row is eligible |
| `SagaWorker.SagaStore.UpdateState` | backend/services/mint-burn/internal/repo/repo.go:121-161 | the row is replaced and stamped if the statement lands |
| `SagaWorker.SagaStore.UpdateStateAndEnqueue` | backend/services/mint-burn/internal/repo/repo.go:126-170 | row and outbox change together or not at all, whichever statement fails |
| `SagaWorker.SagaStore.ReserveBars` | backend/services/mint-burn/internal/repo/repo.go:234-246 | holds what was reserved under the allocation, also what a failing reservation left |
| `SagaWorker.SagaStore.ReleaseAllocation` | backend/services/mint-burn/internal/repo/repo.go:248-252 | a successful release drops exactly the allocation's bars |
| `SagaWorker.OldestExists` | backend/services/mint-burn/internal/repo/repo.go:93-119 | if a row is eligible, some eligible row is oldest |
| `SagaWorker.Orchestrator.CreateMintSaga` | backend/services/mint-burn/internal/saga/orchestrator.go:59-83 | performs the accepting step |
| `SagaWorker.Orchestrator.Advance` | backend/services/mint-burn/internal/saga/orchestrator.go:253-269 | persists the new state if the table has the edge, and otherwise writes nothing |
| `SagaWorker.Orchestrator.Compensate` | backend/services/mint-burn/internal/saga/orchestrator.go:276-310 | releases first, whatever the write does, then stages state and failure event together |
| `SagaWorker.Orchestrator.OnCreated` | backend/services/mint-burn/internal/saga/orchestrator.go:140-145 | performs the step of a created saga |
| `SagaWorker.Orchestrator.OnReservingBars` | backend/services/mint-burn/internal/saga/orchestrator.go:147-155 | performs the reservation step |
| `SagaWorker.Orchestrator.OnProposing` | backend/services/mint-burn/internal/saga/orchestrator.go:157-177 | performs the proposal step |
| `SagaWorker.Orchestrator.OnAwaitingApprovals` | backend/services/mint-burn/internal/saga/orchestrator.go:179-200 | performs the approval step: deadline first, then the count, then the threshold |
| `SagaWorker.Orchestrator.OnExecuting` | backend/services/mint-burn/internal/saga/orchestrator.go:202-234 | performs the execution step |
| `SagaWorker.Orchestrator.Step` | backend/services/mint-burn/internal/saga/orchestrator.go:116-134 | every state is handled by the step of the state machine, and the error result says whether it wrote |
| `SagaWorker.Orchestrator.TickOnce` | backend/services/mint-burn/internal/saga/orchestrator.go:101-113 | a tick is one enabled step of the state machine on an oldest eligible saga, or nothing if none is eligible |
| `Scheduling.NoSagaOvertakesTwice` | backend/services/mint-burn/internal/repo/repo.go:93-119 | no saga is stepped twice, the first time with a write, while another already pending saga is not stepped in between |
| `Scheduling.PickedAgainExactly` | backend/services/mint-burn/internal/repo/repo.go:93-119 | while another saga waits, the saga just stepped can be picked again ahead of it exactly if its step did not write |
| `Scheduling.UnreadableCountStalls` | backend/services/mint-burn/internal/saga/orchestrator.go:188-192 | without a write the oldest pending saga stays the only one any later tick can pick, however old settled rows are |
| `Scheduling.EverySagaEnds` | backend/services/mint-burn/internal/saga/orchestrator.go:101-234 | in any run that steps a saga only past its deadline, the saga takes at most four writing steps, whatever fails to write in between and whatever other sagas do |
| `Scheduling.AllSettleWithinFourTicksEach` | backend/services/mint-burn/internal/repo/repo.go:93-119 | of N sagas past their deadlines all are settled once 4N steps were writes on them, among any lost writes, unreadable counts and newly accepted sagas; without new sagas every write counts; until all are settled a tick after the backoff finds one |
| `StubChain.StubClient.constructor` | backend/services/mint-burn/internal/chain/mint_controller.go:88-90 | starts with no proposals |
| `StubChain.StubClient.NextHash` | backend/services/mint-burn/internal/chain/mint_controller.go:92-95 | numbers transactions one by one |
| `StubChain.StubClient.ProposeMint` | backend/services/mint-burn/internal/chain/mint_controller.go:97-104 | a fresh proposal under the allocation, replacing any earlier one |
| `StubChain.StubClient.ExecuteMint` | backend/services/mint-burn/internal/chain/mint_controller.go:106-117 | executes a proposal with enough approvals and otherwise changes nothing |
| `StubChain.StubClient.ApprovalCount` | backend/services/mint-burn/internal/chain/mint_controller.go:106-132 | never fails, and counts at least three exactly where an execution would be accepted, an unknown proposal included |
| `StubChain.StubClient.AddApproval` | backend/services/mint-burn/internal/chain/mint_controller.go:134-134 | adds one, modulo 256 |
| `StubChain.Itoa` | backend/services/mint-burn/internal/chain/mint_controller.go:137-149 | the buffer loop prints the decimal digits of any non-negative 64-bit number within its 20 bytes |
| `StubChain.TxHashInjective` | backend/services/mint-burn/internal/chain/mint_controller.go:92-95 | different transaction numbers give different hashes |
| `MintPipeline.Tick` | backend/services/mint-burn/internal/saga/orchestrator.go:101-234 | worker and client together perform one move of the combined state machine |
| `MintPipeline.PlayAgrees` | backend/services/mint-burn/internal/saga/orchestrator.go:157-234 | database and chain keep agreeing on every saga through lost writes, re-run handlers and approvals at any time |
| `MintPipeline.OutcomesMatchTheChain` | backend/services/mint-burn/internal/chain/mint_controller.go:97-134 | a saga in execution can only complete, a failed one's proposal was never executed, a completed one names the execution the chain recorded, and no two name the same |
| `MintPipeline.SameTxSameSaga` | backend/services/mint-burn/internal/saga/orchestrator.go:202-234 | one execution belongs to one saga |
| `MintSupply.ExecutedSupplyIsAccounted` | backend/services/mint-burn/internal/chain/mint_controller.go:106-117 | the executed total is the sum over completed sagas plus the executing ones whose call landed |
| `MintSupply.CompletedMintsAreBacked` | backend/services/mint-burn/internal/saga/orchestrator.go:147-234 | against this chain a completed or executing saga still holds every bar it reserved |
| `MintSupply.ApprovalKeepsExecutable` | backend/services/mint-burn/internal/chain/mint_controller.go:134-134 | an approval leaves an executing saga executable exactly if it does not wrap the counter |
| `MintSupply.ExecutableExactly` | backend/services/mint-burn/internal/chain/mint_controller.go:106-134 | after any number of approvals a proposal can be executed exactly if their number modulo 256 is at least three |
| `MintSupply.EnoughApprovalsFail` | backend/services/mint-burn/internal/chain/mint_controller.go:106-134 | so some number of approvals makes the next step of an executing saga fail it |
| `MintSupply.LowThresholdFails` | backend/services/mint-burn/internal/saga/orchestrator.go:192-234 | a saga with the approvals its own threshold asks for fails in execution exactly if the chain counts fewer than it requires, and completes otherwise |
| `OutboxRelay.StreamIsOutboxPrefix` | backend/services/mint-burn/internal/outbox/relay.go:58-84 | whatever calls fail, before or after taking effect, and whenever it crashes: the stream is the outbox up to some row, marked rows are on it, and at most the last streamed row is unmarked |
| `OutboxRelay.OldestRowGoesOut` | backend/services/mint-burn/internal/outbox/relay.go:58-84 | after any failure an undisturbed publish and mark sends the oldest unmarked row |
| `OutboxRelay.DrainKeepsOrder` | backend/services/mint-burn/internal/outbox/relay.go:58-84 | a drain is made of such acts and never reorders the stream |
| `OutboxRelay.OutboxRelay.FetchUnpublished` | backend/services/mint-burn/internal/repo/repo.go:193-217 | the scan returns unmarked rows in creation order and leaves out only later ones, and those only at the limit |
| `OutboxRelay.OutboxRelay.PublishRaw` | backend/pkg/events/nats.go:135-144 | a landed publish appears once under its Msg-Id |
| `OutboxRelay.OutboxRelay.MarkPublished` | backend/services/mint-burn/internal/repo/repo.go:219-224 | marks the row if the statement lands |
| `OutboxRelay.OutboxRelay.Drain` | backend/services/mint-burn/internal/outbox/relay.go:58-84 | the loop stops at the first failure and publishes before it marks |
| `Delivery.DecidingAttempt` | backend/pkg/events/nats.go:163-198 | the first attempt whose answer arrives and asks for no retry, or the fifth, decides between acknowledged, terminated and dropped |
| `Delivery.ProcessedWithinFive` | backend/pkg/events/nats.go:148-198 | a message is processed at least once exactly if one of the attempts up to there succeeds, and is settled after five in any case |
| `Delivery.ProcessedTwiceExactly` | backend/pkg/events/nats.go:163-198 | a message is processed more than once exactly if the acknowledgement of a success is lost and a later attempt that is still made succeeds too |
| `Delivery.AnsweredMeansOnce` | backend/pkg/events/nats.go:163-198 | so if every answer arrives it is processed at most once, namely when it is acknowledged |
| `Delivery.LostAckProcessesAgain` | backend/pkg/events/nats.go:164-168 | and a first success whose acknowledgement is lost, followed by a second, is processed again whatever comes later |
| `Delivery.PermanentSurvivesWrapping` | backend/pkg/events/nats.go:16-41 | marking an error makes it permanent through any number of wrappers, and wrapping alone never does |
| `Settlement.OrdersFollowTheirSagas` | backend/services/order/internal/events/consumer.go:121-164 | with any chain client and any failures, for every delivery schedule with duplicates and overlapping handlers: orders end as their one saga ended, for the order's own amount and address, and every wallet row is the mint of a completed saga, one row per mint |
| `Settlement.MovesLinked` | backend/services/order/internal/events/consumer.go:83-164 | the invariant over saga table, outbox, stream, handlers, orders and wallet log behind it |
| `Settlement.SettledOrderStays` | backend/services/order/internal/events/consumer.go:121-164 | no move changes a settled order's status, although late handlers still write |
| `Settlement.SettledOrderStaysForever` | backend/services/order/internal/events/consumer.go:121-164 | nor does any run |
| `Settlement.RestampedExactly` | backend/services/order/internal/events/consumer.go:121-164 | a settled order's completion time changes exactly by the saved write of a handler that had read the order before it was settled, at another time |
| `Settlement.TimeStaysExactly` | backend/services/order/internal/events/consumer.go:121-164 | over a run it stays exactly if there is no such write |
| `Settlement.TimeFinalExactly` | backend/services/order/internal/events/consumer.go:121-164 | it is final, whatever follows, exactly if no handler that read the order is still to write |
| `SettlementRuns.SettledOrderRestamped` | backend/services/order/internal/events/consumer.go:143-164 | a whole run from nothing, with one event delivered twice, in which that happens |
| `Settlement.DeliveredMintIsLoggedExactly` | backend/services/wallet/internal/repo/repo.go:94-106 | an executed mint delivered to a known wallet leaves its own row exactly if its hash was new to the log or stood there with its amount |
| `Settlement.DeliveredMintIsLogged` | backend/services/wallet/internal/repo/repo.go:94-106 | where the saga table agrees with the in-memory chain, which never repeats a hash, it always does |
| `StubSettlement.EveryDeliveredMintIsLogged` | backend/services/wallet/internal/repo/repo.go:94-106 | so it does after every run of the whole system whose saga steps that chain answered |
| `SettlementProgress.OrderCanStillSettle` | backend/services/order/internal/events/consumer.go:121-164 | after any run, once its saga is settled an order can still be settled, and then as its saga was: the relay can always ship the event and an undisturbed handler settles it |
| `SettlementProgress.StrandedExactly` | backend/pkg/events/nats.go:148-198 | the event of an unsettled order leaves it unsettled for good exactly if none of its five deliveries reaches the database and saves |
| `Settlement.UndisturbedHandler` | backend/services/order/internal/events/consumer.go:121-164 | a handler run is a read followed by its own write |
| `Settlement.OrderTable.Update` | backend/services/order/internal/repo/repo.go:100-122 | replaces exactly the columns the statement names |
| `Settlement.Consumer.CompleteOrder` | backend/services/order/internal/events/consumer.go:121-141 | completes an unsettled order, leaves a settled one, and asks for redelivery exactly on error |
| `Settlement.Consumer.FailOrder` | backend/services/order/internal/events/consumer.go:143-164 | the same for failures, with the reason |
| `Settlement.TransactionLog.Create` | backend/services/wallet/internal/repo/repo.go:94-106 | inserts a row unless the transaction has one |
| `OrderIntake.RetriesAreIdempotent` | backend/services/order/internal/http/handlers.go:144-254 | however requests interleave: one row per user and key, every response that names an order names that row, and at most one message is dispatched for it, after confirmation and of its kind |
| `OrderIntake.UnnamedSuccessExactly` | backend/services/order/internal/http/handlers.go:219-225 | a success that names no order comes exactly from a failed fallback lookup |
| `IntakeRuns.SuccessWithoutOrder` | backend/services/order/internal/http/handlers.go:144-225 | a whole run of two racing requests that ends in one |
| `OrderIntake.NobodysOrderStays` | backend/services/order/internal/http/handlers.go:154-159 | an order that no request is still to confirm or dispatch stays as it is through every further run, retries included |
| `OrderIntake.DispatchableExactly` | backend/services/order/internal/http/handlers.go:247-251 | some further run dispatches an order exactly if it was dispatched already or a request is in charge of it, and confirms it likewise |
| `OrderIntake.AloneDispatchesExactly` | backend/services/order/internal/http/handlers.go:144-254 | an undisturbed request dispatches its order exactly if the order is new and valid and insert, update and publish go through |
| `IntakeRuns.OrderStrandedForever` | backend/services/order/internal/http/handlers.go:247-254 | a whole run whose only confirmation fails: the retry answers with the order, which no run ever confirms or dispatches |
| `OrderIntake.MovesSound` | backend/services/order/internal/repo/repo.go:37-71 | the invariant behind both |
| `OrderIntake.OrderService.Create` | backend/services/order/internal/repo/repo.go:37-56 | inserts under the unique key, or reports a duplicate or an error |
| `OrderIntake.OrderService.ConfirmOrder` | backend/services/order/internal/http/handlers.go:358-418 | updates first and dispatches one message only after an acknowledged update |
| `OrderIntake.OrderService.CreateOrder` | backend/services/order/internal/http/handlers.go:144-254 | the handler performs the steps of one request, with other requests' rows arriving between lookup and insert |
| `Median.FetchMedian` | backend/services/price-oracle/internal/oracle/oracle.go:168-221 | nothing if no provider gave a positive price, else the middle of the sorted positive ones, labelled in arrival order |
| `Median.JoinProviders` | backend/services/price-oracle/internal/oracle/oracle.go:223-232 | the names, comma separated |
| `Median.PriceWithinExactly` | backend/services/price-oracle/internal/oracle/oracle.go:206-208 | the price lies in a range exactly if at most half the accepted values, rounded down, are below it and more than that are not above it |
| `Median.FewOutliersHarmless` | backend/services/price-oracle/internal/oracle/oracle.go:193-221 | fewer than half the accepted values outside a range leave the price inside |
| `Median.ArrivalOrderIrrelevant` | backend/services/price-oracle/internal/oracle/oracle.go:193-208 | the same answers in another order give the same price |
| `Median.SortSorts` | backend/services/price-oracle/internal/oracle/oracle.go:206-207 | sorting orders the values and loses none |
| `Candles.BucketsTile` | backend/services/price-oracle/internal/repo/repo.go:128-146 | the buckets of an interval tile the timeline and contain exactly the times given them |
| `Candles.StoredIsBatch` | backend/services/price-oracle/internal/repo/repo.go:71-92 | each stored candle is first, maximum, minimum and last of its bucket's samples, and exists exactly if there are any |
| `Candles.RollUpAgreesExactly` | backend/services/price-oracle/internal/repo/repo.go:71-92 | for samples in time order the finer candles of a coarser bucket roll up to exactly the stored coarser one if and only if the prices stored for the two intervals have the same first, maximum, minimum and last |
| `Candles.RollUpAgrees` | backend/services/price-oracle/internal/repo/repo.go:71-92 | so they do if no sample of the bucket was stored for one of the two only |
| `Candles.FailedUpsertDisagrees` | backend/services/price-oracle/internal/oracle/oracle.go:130-138 | two fetches, the second with a failed upsert of the hour, after which the two disagree |
| `Candles.CandleStore.UpsertCandle` | backend/services/price-oracle/internal/repo/repo.go:71-92 | the upsert changes the one row of its bucket as written, or fails for an unsupported interval |
| `Candles.CandleStore.Record` | backend/services/price-oracle/internal/oracle/oracle.go:130-138 | the three upserts of a fetch, each failing on its own |
| `PriceHub.HubIsSafe` | backend/services/price-oracle/internal/oracle/hub.go:30-89 | under any interleaving no send on a closed channel, no second close, bounded buffers, in-order subsequences for each client, and after shutdown every channel ever handed out is closed |
| `PriceHub.KeepingUpMissesNothing` | backend/services/price-oracle/internal/oracle/hub.go:77-87 | a step makes a client miss one message exactly if the message is offered to its full buffer, and none otherwise |
| `PriceHub.EverythingUnlessFull` | backend/services/price-oracle/internal/oracle/hub.go:30-89 | over any run a client was given the whole stretch of the log it was subscribed for, in order, exactly if it was never offered a message with a full buffer, and otherwise misses exactly as many |
| `PriceHub.RunningHub.Subscribe` | backend/services/price-oracle/internal/oracle/hub.go:33-43 | performs the subscribing step; a stopped hub hands out a closed channel |
| `PriceHub.RunningHub.RemoveClient` | backend/services/price-oracle/internal/oracle/hub.go:45-52 | closes a channel once, however often it is called |
| `PriceHub.RunningHub.Broadcast` | backend/services/price-oracle/internal/oracle/hub.go:55-61 | queues the message or drops it when the queue is full |
| `PriceHub.RunningHub.SendToAll` | backend/services/price-oracle/internal/oracle/hub.go:77-87 | offers the message to every client, in any order, without waiting |
| `PriceHub.RunningHub.Shutdown` | backend/services/price-oracle/internal/oracle/hub.go:65-76 | closes every channel and keeps the hub sound |
| `RateLimits.CleanupUnnoticed` | backend/pkg/httputil/ratelimit.go:63-105 | cleanups at arbitrary moments give the same decisions as none |
| `RateLimits.RateGuarantee` | backend/pkg/httputil/ratelimit.go:82-105 | any interval of length L admits fewer than rate * (L / window + 2) requests of a client, for any rate (below one it counts as one), with cleanups anywhere |
| `RateLimits.RateLimiter.constructor` | backend/pkg/httputil/ratelimit.go:39-51 | starts with no visitors |
| `RateLimits.RateLimiter.Allow` | backend/pkg/httputil/ratelimit.go:82-105 | the decision and the new entry |
| `RateLimits.RateLimiter.Cleanup` | backend/pkg/httputil/ratelimit.go:63-80 | drops exactly the entries older than twice the window |
| `Fees.SelectionUniqueExactly` | backend/services/fee/internal/repo/repo.go:99-122 | tier selection is independent of row order for all amounts exactly if active tiers of one operation and arena do not overlap |
| `Fees.SelectionExists` | backend/services/fee/internal/repo/repo.go:99-122 | the lookup always has an answer |
| `Fees.QuotedFeeIsCharged` | backend/services/fee/internal/events/consumer.go:48-90 | the fee quoted is the fee recorded for the same operation, arena and amount, and one exists exactly if the other does |
| `Fees.SplittingLosesLittle` | backend/services/fee/internal/http/handlers.go:137-143 | splitting an amount into k parts lowers the total fee by at most k - 1 wei if the rate is not negative or the minimum is at least -1 |
| `Fees.ShareAboveMinimum` | backend/services/fee/internal/http/handlers.go:137-143 | and also wherever the share of the whole stays above the minimum |
| `Fees.SplittingLosesLittleExactly` | backend/services/fee/internal/http/handlers.go:137-143 | over the splits whose parts and whole lie in the tier's range: a tier has that property exactly if its rate is not negative, or its minimum is at least -1, or it is bounded and its largest amount saves at most one wei by being split in two |
| `Fees.FeeService.FindTier` | backend/services/fee/internal/repo/repo.go:99-122 | any matching active tier, one of the exact arena if there is one |
| `Fees.FeeService.Calculate` | backend/services/fee/internal/http/handlers.go:107-152 | the quote and every error response |
| `Fees.FeeService.HandleOrderCreated` | backend/services/fee/internal/events/consumer.go:48-124 | the ledger row for a chargeable order, none for a malformed one, a missing tier or a failed lookup, and redelivery only after a failed insert |
| `Fees.ChargedOncePerLandedRun` | backend/services/fee/internal/events/consumer.go:48-103 | an order with a tier is charged the same fee once for every handler run whose lookup answered and whose insert took effect, so redelivery can charge it again |
| `VaultReplay.LogReplaysInventory` | backend/services/vault/internal/http/handlers.go:133-304 | however requests overlap, for one bar or many, and whatever fails: the movement log chains and replays to exactly the inventory at every point of a run exactly if no step parts them |
| `VaultReplay.StepAgreesExactly` | backend/services/vault/internal/http/handlers.go:133-304 | the steps that part them: a new bar or place nobody will write down, a stored movement that does not start where the log has the bar, or a bar's last pending movement that leaves the log short of it |
| `VaultReplay.SeparateRequestsAgree` | backend/services/vault/internal/http/handlers.go:133-304 | if requests for one bar do not overlap, these are exactly the unacknowledged or unstored changes of place |
| `VaultLedger.WeightConserved` | backend/services/vault/internal/repo/repo.go:56-72 | whatever overlaps or fails, the total weight changes only by ingests |
| `VaultLedger.OnlyAvailableBarsMove` | backend/services/vault/internal/repo/repo.go:162-179 | a bar changes vaults only by a move, only while available, and its weight moves with it |
| `VaultReplay.OverlapBreaksTheLog` | backend/services/vault/internal/http/handlers.go:264-304 | two overlapping transfers of one bar leave the log naming the wrong vault |
| `VaultReplay.UnstoredMovement` | backend/services/vault/internal/http/handlers.go:291-302 | an ignored failure to store a movement leaves the log behind |
| `VaultLedger.VaultService.constructor` | backend/services/vault/internal/http/handlers.go:35-49 | starts with an empty inventory and log |
| `VaultLedger.VaultService.Ingest` | backend/services/vault/internal/repo/repo.go:56-72 | adds an available bar unless the serial exists |
| `VaultLedger.VaultService.UpdateVault` | backend/services/vault/internal/repo/repo.go:162-179 | moves an available bar and tells allocated from missing, except when the second look fails |
| `VaultLedger.VaultService.IngestBar` | backend/services/vault/internal/http/handlers.go:85-177 | performs the ingest steps and answers each error case |
| `VaultLedger.VaultService.TransferBar` | backend/services/vault/internal/http/handlers.go:241-319 | performs the transfer steps and answers each error case |
| `Treasury.SerialInCommitOrder` | backend/services/treasury/internal/repo/repo.go:346-367 | however transactions overlap and wherever they roll back, the books are those of the committed settlements applied one by one in commit order |
| `Treasury.BalancesFollowTheLog` | backend/services/treasury/internal/repo/repo.go:87-123 | each balance is its initial value plus the signed sum of recorded settlements and never negative, and the log is what committed |
| `Treasury.AppliedBalanced` | backend/services/treasury/internal/repo/repo.go:87-123 | one settlement keeps that |
| `Treasury.RequestBalanced` | backend/services/treasury/internal/http/handlers.go:184-255 | so does every well-formed request, whatever fails |
| `Treasury.ReconcileOkExactly` | backend/services/treasury/internal/http/handlers.go:279-289 | reconciliation is ok exactly if the reported balance is what the settlements say, and otherwise logs the difference |
| `Treasury.ReconcileAfterAnyRun` | backend/services/treasury/internal/http/handlers.go:258-339 | the same against what committed over any run |
| `Treasury.Tx.Credit` | backend/services/treasury/internal/repo/repo.go:87-100 | adds to an existing account or reports it missing |
| `Treasury.Tx.Debit` | backend/services/treasury/internal/repo/repo.go:102-123 | takes from an account that covers the amount and tells the two refusals apart |
| `Treasury.Tx.Create` | backend/services/treasury/internal/repo/repo.go:173-186 | adds the settlement row |
| `Treasury.TreasuryService.ApplyManualSettlement` | backend/services/treasury/internal/repo/repo.go:346-367 | balance and settlement change together or not at all, wherever it fails |
| `Treasury.TreasuryService.CreateSettlement` | backend/services/treasury/internal/http/handlers.go:184-255 | validates, applies once, and answers by the repository's error |
| `Treasury.TreasuryService.Reconcile` | backend/services/treasury/internal/http/handlers.go:258-339 | stores and returns the comparison, or an error without a row |
| `Amounts.GramsToWei` | backend/services/fee/internal/http/handlers.go:276-300 | the padding loop computes the fee service's wei value |
| `Amounts.FeeParserTruncates` | backend/services/fee/internal/http/handlers.go:276-300 | any plain decimal, with or without a point, is truncated by less than one wei |
| `Amounts.PointOptional` | backend/services/fee/internal/http/handlers.go:276-300 | a missing point changes nothing |
| `Amounts.DisplayedBalanceParses` | frontend-web/lib/utils.ts:80-91 | parsing a displayed balance gives it back cut to four decimals, negative ones included |
| `Amounts.CanonicalGramsRoundTrip` | frontend-web/lib/utils.ts:80-91 | a canonical amount with four decimals survives conversion to wei and display |
| `Amounts.OrderAndFeeAgreeToOneWei` | backend/services/order/internal/http/handlers.go:460-480 | whenever the order service accepts a plain decimal, with or without a point, its wei value and the fee service's differ by at most one |
| `Hex.Bytes32RoundTrip` | backend/services/por/internal/chain/reserve_oracle.go:334-348 | parsing undoes printing on all 32-byte values |
| `Hex.HexNormalForm` | backend/services/por/internal/chain/reserve_oracle.go:334-348 | which texts parse, which panic, and that printing a parsed one gives its lower-case, left-padded form |
| `Hex.HexToBytes32` | backend/services/por/internal/chain/reserve_oracle.go:339-348 | the copy into the tail of a zeroed buffer |
| `Hex.AddressRoundTrip` | backend/services/mint-burn/internal/events/parse.go:17-29 | parsing undoes the executed event's printing, and accepts exactly forty hex digits with an optional prefix |

## Left out

- Burn sagas: their step does nothing and no code creates them.
- The bar allocator: reservations and releases are placeholders in the source, so what they answer is part of a step.
- The retry limit in the saga configuration: the worker never reads it.
- Several saga workers or relays: the row lock of the next-pending query is not held across a step, and updates do not compare the old state.
- Clock readings within a step: a step has one time, although a handler reads the clock more than once.
- UUIDs: rows are numbered, and fresh numbers stand for fresh IDs.
- The deduplication window of the broker: it never forgets a Msg-Id.
- Proposal fields that no decision reads: bar serial hashes, jurisdiction and proposal time.
- The text of the timeout error: its duration is not part of the recorded message.
- `SagaWorker.Orchestrator.Step`: does not tell a write that landed but was reported as failed from one reported as done; the worker only logs the difference.
- `Candles.RollUpAgreesExactly`: prices are real numbers, so the rounding of the price columns to eight decimals is not modelled.
- `Median.FetchMedian`: prices are real numbers without NaN or infinity, and the library sort is represented by insertion.
- `Amounts.OrderAndFeeAgreeToOneWei`: each 256-bit rounding is a bounded relative error, and only plain decimals are covered, not exponents, other bases or infinities.
- `Amounts.DisplayedBalanceParses`: balances are decimal texts with an optional sign, not every text that the client's integer type accepts.
- `Treasury.SerialInCommitOrder`: the event-driven credits and debits of the treasury, which are not de-duplicated, are not part of the runs; an update waits for a row lock by not being enabled.
- NUMERIC(78,0) overflow in fee, vault and treasury columns.
- The order transition table: neither confirming nor settling an order consults it.
- The client address taken from request headers by the rate limiter.
- Event publication by the fee, vault and treasury handlers, whose failure they ignore.
- KYC review, notifications, audits, authentication, CORS, the admin proxy and configuration.
- The Ethereum client, ABI packing, signing, price provider requests, mail and webhooks.
- The web client except its display of balances.
