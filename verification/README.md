# Money path of a wallet platform, verified

A Dafny model of the part of the platform that moves money: the event-sourced wallet with optimistic
concurrency and snapshots, the transfer saga that runs over it, the transactional outbox with its worker, the
deduplicating consumers, and the read model. The sequential code is written as classes and loops
(`Wallet`, `EventStore`, `SnapshotStore`, `WalletService`, `Transaction`, `TransactionService`, `SagaHandler`,
`OutboxRepository`, `OutboxWorker`, `NotificationService`, `QueryService`). Every method is proved equal to a
function of the old state, and the lemmas named `Answers` say of that function, field by field and code by
code, what a caller is told and what is left behind whatever fails. The serial theorems are proved of those functions. The step models split a call
into its database statements, and `OutboxSteps.FlushIsARun`, `WalletRuns.ExecuteIsARun` and
`TransactionRuns.InitiateIsARun` show that a call with any failures is one of their runs.

| file | contents |
|---|---|
| Base, Sums, Messages, Streams | identifiers and results; sums over maps; outbox rows; repeats, partitions, rewinding reads |
| Wallets, EventStores, WalletServices | the aggregate, the two tables, the service run serially |
| WalletSteps, WalletRuns | the service run by any number of clients, one database statement per step; the calls as such runs |
| Balances | overdraft, reservations, int64 |
| Transactions, TransactionSteps, Approvals, TransactionRuns | the transaction service; the same with interleaved, failing steps; which call stored a transaction; the calls as such runs |
| SagaHandlers, Saga, Reservations, SagaFailures | the wallet's consumer; the whole saga as a state machine; what it does to reservations; its steps stopping half way |
| Outbox, OutboxSteps, Delivery | the worker; any number of workers; outbox to effects, exactly once |
| Duplicates, Notifications | the exact number of effects, and the money they move, when operations fail half way |
| Journeys | one transfer from end to end when nothing fails |
| Query, QueryFailures | the read model; the same when its operations fail |

## How the system is modelled

- Ids are drawn by the caller and opaque. A collision with a primary key is an error the code returns. Only
  `OutboxSteps` assumes that none happens: rows enter its outbox with ids and created_at values of their own.
- Every database operation may fail (`DbFaults`, `TxFaults`, `Faults`), and so may the broker and the sender
  (`Publication`, `Notifications.Faults`). A write has three fates: it works, it fails without effect, or it
  reports an error although it took effect (`Base.Fate`). Reads may fail. A failing row scan is a failing read.
- `WalletSteps` splits a call into load snapshot, load events, read the maximal version, insert and commit,
  save snapshot. The insert aborts when `(wallet_id, version)` or the id is taken, which is what the unique
  keys give under read committed isolation.
- In `Saga`, wallet commands, transaction calls and deliveries are single steps. `WalletSteps.Linearizable`
  justifies this for the wallet commands; for deliveries it is an assumption, see below. Any operation may
  fail. `Saga` has the runs in which no delivery stops between its wallet append and its mark and no release
  between its append and its notice, `SagaFailures` has all runs. Events may be delivered in any order, any
  number of times, also to no avail.
- The repository has no consumer that completes a transaction on FundsReserved and nothing calls
  `ReleaseReservation`. `Saga.Step` has both as steps under the documented guards: completion needs the
  transfer's FundsReserved, release needs a transfer that FAILED while reserved and was not released yet.
- The source wallet is reserved and never debited, so the conserved quantity is the available balance.

## Where code and documentation differ

- docs/adr/004 and docs/adr/002 promise that the state change and the outbox row share one database
  transaction. The code writes them in two statements. `TransactionSteps.LifecycleAndOutboxAgree` says exactly
  which transactions lose a row.
- docs/adr/002 speaks of a debit of the source. The code reserves and never debits.
- docs/adr/002 promises FundsReleased on any failure path. A refused reservation emits nothing.
- A failed idempotency-key lookup is treated as a missing key; the unique index keeps the promise.
- A second snapshot keeps the stored currency and user. This is harmless because no event after the first
  changes them (`EventStores.UpsertKeepsSound`).

## Properties that fail as stated, and when they hold

Each line names the exact condition and then a failing input.

- No overdraft: `Release` has no guard. It holds exactly when no release is below minus the available balance
  (`Balances.OverdraftExactly`). A release of -100 on a new wallet fails it (`Balances.OverdraftHappens`).
  Nothing in the repository calls `ReleaseReservation`.
- `0 <= Reserved <= BalanceCents`: exactly when reserves and releases are matched (`Balances.SaneExactly`). A
  release of 100 on a new wallet fails it (`Balances.OverReleaseHappens`). In every saga run in
  which no step stops half way it holds (`Reservations.ReservedIsHeld`).
- int64: for every log, the 64-bit program is exact exactly when every balance, reservation and available
  balance of every prefix is in the int64 range (`Balances.Int64Exactly`). With matched reserves and releases
  it is enough that no balance exceeds 2^63-1 (`Balances.Int64Matched`). Two deposits of 2^63-1 give a balance
  of -2 (`Balances.OverflowHappens`), two releases of 2^63-1 a reservation of 2
  (`Balances.ReservedOverflowHappens`).
- Outbox order: it survives a saved row exactly when no row with a later created_at was published or fetched
  before (`OutboxSteps.OrderSurvivesExactly`). Such a state is reachable (`OutboxSteps.OvertakingHappens`).
- Effects exactly once: an event has one effect if it is marked and one more for every attempt that stopped
  unmarked after its effect (`Duplicates.ExactDuplicates`, `Notifications.ExactDuplicates`). A credit whose
  mark fails is credited again by the next delivery, and the money doubles (`Duplicates.CreditedTwice`).
- Balance equals statement: a delivery, whatever fails in it, keeps them equal exactly when the record is
  skipped, or its balance is not read or not written, or it moves nothing, or it reaches both with an entry id
  of its own; a creation exactly when it is not written or the wallet's statement sums to zero
  (`Query.AgreementSurvivesExactly`). The wallet service's payloads carry no entry id
  (services/wallet/internal/domain/outbox.go:45-49), so its second deposit already fails it
  (`Query.DisagreementHappens`). With entry ids a failed append to the statement does
  (`QueryFailures.AppendIsLost`).
- Projected balances are those of the marked events: exactly up to the deposits and withdrawals of attempts
  that stopped unmarked and to what repeated creations wiped out (`QueryFailures.BalanceWithFailures`). A
  creation whose mark failed and that comes again after a deposit resets the balance to 0, with both events
  marked (`QueryFailures.CreationWipesOut`).
- Statistics are those of the marked events: a failed read of the statistics is taken for a missing row and the
  call succeeds (services/query/internal/application/query_service.go:189-192). They stay right exactly when
  nothing is written, or the event is marked and the read worked or the row was empty, or it is not marked and
  an unread row is overwritten with what it held (`QueryFailures.StatisticsSurviveExactly`). So two consumers
  that succeed on the same records can differ for good (`QueryFailures.StatisticsAreLost`).

## Model

| member | source | states |
|---|---|---|
| Wallets.ReplayConcat | services/wallet/internal/domain/wallet.go:120-125 | replaying a concatenation is replaying the parts in turn, from any state |
| Wallets.Wallet.NewWallet | services/wallet/internal/domain/wallet.go:24-40 | refused iff the currency is empty; otherwise one WalletCreated change at version 1 and the wallet it replays to |
| Wallets.Wallet.Deposit | services/wallet/internal/domain/wallet.go:42-57 | InvalidArgument iff not positive; otherwise the balance grows by the amount and one event with amount and description is emitted at the next version; the live fields stay the replay of the emitted changes |
| Wallets.Wallet.Withdraw | services/wallet/internal/domain/wallet.go:59-77 | InvalidArgument iff not positive, InsufficientFunds iff positive and above what is available; otherwise one event, field by field; the replay invariant is kept |
| Wallets.Wallet.Reserve | services/wallet/internal/domain/wallet.go:79-94 | InsufficientFunds iff above what is available, with no sign check; otherwise one event, field by field; the replay invariant is kept |
| Wallets.Wallet.Release | services/wallet/internal/domain/wallet.go:96-106 | never refused; one event, field by field; the replay invariant is kept |
| Wallets.Wallet.Reconstitute | services/wallet/internal/domain/wallet.go:120-125 | the loop leaves exactly the replay of the events and keeps the uncommitted changes |
| Wallets.Wallet.ApplyToFields | services/wallet/internal/domain/wallet.go:133-162 | the in-place update is the pure transition for each event type |
| Wallets.LogFacts | services/wallet/internal/domain/wallet.go:133-140 | the replayed version is the log length, and id, user and currency are those of the first event |
| EventStores.EventStore.AppendEvents | services/wallet/internal/adapters/outbound/postgres/event_store.go:23-58 | conflict iff the maximal version is not the expected one; otherwise all events are inserted or none, with every way the transaction can fail |
| EventStores.RollbackIsFinal | services/wallet/internal/adapters/outbound/postgres/event_store.go:43-52 | after a failed insert the whole append fails |
| EventStores.InsertAllAppends | services/wallet/internal/adapters/outbound/postgres/event_store.go:43-52 | the inserts go through iff every event meets a free id and version, and then each log has grown by exactly its events in order |
| EventStores.MaxVersionIsMax | services/wallet/internal/adapters/outbound/postgres/event_store.go:30-36 | the version read is the greatest stored one, 0 for none |
| EventStores.EventStore.LoadEvents | services/wallet/internal/adapters/outbound/postgres/event_store.go:60-89 | the row loop returns the selected rows, or the read error |
| EventStores.EventsAfterSelects | services/wallet/internal/adapters/outbound/postgres/event_store.go:61-67 | the selection is the rows past the version, each as often as stored, in version order |
| EventStores.SnapshotStore.SaveSnapshot | services/wallet/internal/adapters/outbound/postgres/event_store.go:99-114 | upsert that on conflict writes balance, reserved and version only, or fails |
| EventStores.SnapshotStore.LoadSnapshot | services/wallet/internal/adapters/outbound/postgres/event_store.go:116-133 | not found iff no row; internal iff the read fails; otherwise a wallet with the stored fields |
| EventStores.UpsertKeepsSound | services/wallet/internal/adapters/outbound/postgres/event_store.go:99-114 | saving the replay of any prefix, older or newer, keeps every snapshot sound and equals a plain overwrite |
| EventStores.LoadIsFullReplay | services/wallet/internal/application/wallet_service.go:127-148 | snapshot plus suffix is the full replay, and the not-found test holds iff the log is empty |
| WalletServices.ExecuteAppendsOne | services/wallet/internal/application/wallet_service.go:67-125 | a command succeeds iff the wallet exists, the guard accepts and the id is free; it appends one event to one log |
| WalletServices.CreateStartsLog | services/wallet/internal/application/wallet_service.go:27-38 | creation succeeds iff the currency is given, the log is empty and the id is free |
| WalletServices.CommandAnswers | services/wallet/internal/application/wallet_service.go:67-208 | whatever fails: the code of every refusal, when the event is in the log, what it contains, and when the call answers success |
| WalletServices.CreationAnswers | services/wallet/internal/application/wallet_service.go:27-38 | the same of a creation |
| WalletServices.PersistRefuses | services/wallet/internal/application/wallet_service.go:73-83 | Conflict iff the log is no longer at the version the changes were decided on, and then nothing is written |
| WalletServices.WrittenExactly | services/wallet/internal/application/wallet_service.go:27-125 | the logs that sequences of calls can write are exactly the valid ones with distinct event ids |
| WalletServices.WalletService.CreateWallet | services/wallet/internal/application/wallet_service.go:27-38 | the whole new table and reply under any failure, keeping logs valid and snapshots sound |
| WalletServices.WalletService.GetBalance | services/wallet/internal/application/wallet_service.go:47-59 | not found iff the log is empty, internal iff it cannot be read; otherwise the fields of the full replay |
| WalletServices.WalletService.Deposit | services/wallet/internal/application/wallet_service.go:67-92 | the whole new table and the reply under any failure, each refusal with its code, a success with balance and version; a failed snapshot leaves the event and reports an error |
| WalletServices.WalletService.Withdraw | services/wallet/internal/application/wallet_service.go:100-125 | as Deposit, for withdrawals |
| WalletServices.WalletService.ReserveForTransaction | services/wallet/internal/application/wallet_service.go:150-166 | as Deposit, for reservations |
| WalletServices.WalletService.CreditForTransaction | services/wallet/internal/application/wallet_service.go:168-185 | a credit is a deposit described as saga credit |
| WalletServices.WalletService.ReleaseReservation | services/wallet/internal/application/wallet_service.go:187-201 | as Deposit, for releases |
| WalletServices.WalletService.Load | services/wallet/internal/application/wallet_service.go:127-148 | the object loaded is the full replay, snapshot readable or not; what it replays are the events past the snapshot; not found iff the log is empty |
| WalletServices.WalletService.MaybeSnapshot | services/wallet/internal/application/wallet_service.go:203-208 | a snapshot is saved on multiples of 50, and its error is returned |
| WalletServices.LoadReplaysTheRemainder | services/wallet/internal/application/wallet_service.go:203-208 | in serial failure-free runs a load replays exactly (log length mod 50) events |
| WalletSteps.NoLostUpdate | services/wallet/internal/adapters/outbound/postgres/event_store.go:23-58 | in every interleaving, versions are exactly 1..n, event v was validated on precisely the v-1 before it, and snapshots are sound |
| WalletSteps.LoadSeesWholeLog | services/wallet/internal/application/wallet_service.go:127-148 | in any interleaving a load is the full replay as of LoadEvents and reports not found iff that log is empty |
| WalletSteps.Linearizable | services/wallet/internal/application/wallet_service.go:47-148 | a successful reply is the state of the entire log at one moment inside the call, at which the call's own event was appended |
| WalletSteps.RepliesStayTrue | services/wallet/internal/application/wallet_service.go:47-125 | a reply remains the replay of the first version events for ever |
| WalletRuns.ExecuteIsARun | services/wallet/internal/application/wallet_service.go:67-125 | a sequential command with any failures is a run of the steps, with the same table, snapshots and reply |
| WalletRuns.CreateIsARun | services/wallet/internal/application/wallet_service.go:27-38 | so is a creation |
| WalletRuns.ReadIsARun | services/wallet/internal/application/wallet_service.go:47-59 | so is a balance query |
| Balances.OverdraftExactly | services/wallet/internal/domain/wallet.go:59-110 | no prefix is overdrawn iff every release is at least minus what is available |
| Balances.OverdraftHappens | services/wallet/internal/domain/wallet.go:96-106 | some calls the service accepts overdraw a wallet |
| Balances.NeverOverdrawn | services/wallet/internal/domain/wallet.go:59-110 | in any interleaving, with non-negative releases, no prefix of any log is overdrawn |
| Balances.SaneExactly | services/wallet/internal/domain/wallet.go:79-110 | reserved stays within 0 and the balance iff reserves and releases are matched |
| Balances.OverReleaseHappens | services/wallet/internal/domain/wallet.go:96-106 | some calls the service accepts make a reservation negative without an overdraft |
| Balances.Int64Exactly | services/wallet/internal/domain/wallet.go:108-162 | for every log, the wrapped computation is exact on every prefix iff every balance, reservation and available balance is in range |
| Balances.ExactAcceptsTheSame | services/wallet/internal/domain/wallet.go:59-94 | where the 64-bit program is exact it accepts and refuses the same commands |
| Balances.Int64Matched | services/wallet/internal/domain/wallet.go:108-162 | with matched reserves and releases the balances alone decide |
| Balances.Int64Safe | services/wallet/internal/domain/wallet.go:108-162 | deposits and credits totalling at most 2^63-1, with matched reserves and releases, keep every computed value exact and in range |
| Balances.RunsStayInRange | services/wallet/internal/application/wallet_service.go:67-148 | the same in every run of any clients, for the log, the snapshot and every state a client holds |
| Balances.OverflowHappens | services/wallet/internal/domain/wallet.go:42-57 | two deposits leave the 64-bit program with a balance of -2 |
| Balances.ReservedOverflowHappens | services/wallet/internal/domain/wallet.go:96-106 | two releases wrap the reservation although every balance fits |
| Transactions.Transaction.NewTransaction | services/transaction/internal/domain/transaction.go:33-53 | accepted iff the amount is positive and the wallets differ; starts PENDING |
| Transactions.Transaction.Complete | services/transaction/internal/domain/transaction.go:55-58 | only the status changes |
| Transactions.Transaction.Fail | services/transaction/internal/domain/transaction.go:60-64 | only status and reason change |
| Transactions.TransactionService.InitiateTransfer | services/transaction/internal/application/transaction_service.go:36-96 | the whole new store and reply on every path and under any failure, including the row left behind when the outbox insert fails |
| Transactions.TransactionService.CompleteTransaction | services/transaction/internal/application/transaction_service.go:98-130 | not found, conflict, or the updated row with its message; what is left at each failure |
| Transactions.TransactionService.FailTransaction | services/transaction/internal/application/transaction_service.go:132-163 | not found, conflict, or the updated row with reason and message; what is left at each failure |
| Transactions.InsertKeepsIndex | services/transaction/internal/adapters/outbound/postgres/repos.go:51-62 | the partial unique index stays exact |
| Transactions.InitiateAnswers | services/transaction/internal/application/transaction_service.go:36-96 | whatever fails: every refusal with its code, the stored row, the key and the message field by field, and the reply with id and status |
| Transactions.StoredExactly | services/transaction/internal/application/transaction_service.go:36-85 | a transfer is stored iff its key and id are free, its terms are valid, the fraud check neither rejects it nor is unavailable, and the insert takes effect |
| Transactions.SuccessIsStored | services/transaction/internal/application/transaction_service.go:36-96 | a success names a stored transaction of this key with its status, announced if it is new |
| Transactions.SettleAnswers | services/transaction/internal/application/transaction_service.go:98-163 | whatever fails: NotFound, Conflict, the row and the message field by field, and the reply |
| Transactions.SuccessIsAnnounced | services/transaction/internal/application/transaction_service.go:98-163 | success iff pending, the message id is free and nothing fails; then the status moved and the message is in the outbox |
| TransactionSteps.LifecycleAndOutboxAgree | services/transaction/internal/application/transaction_service.go:83-89 | in every run: the initiated row is missing iff a call stands or stopped between its writes; the final row is there iff the status is final and its call was not torn; rows are unique and match |
| TransactionSteps.AgreeWithoutTears | services/transaction/internal/application/transaction_service.go:36-163 | without such failures: exactly one initiated row, and the one final row the status names |
| TransactionSteps.FinalIsForever | services/transaction/internal/application/transaction_service.go:98-163 | rows persist, terms never change, COMPLETED and FAILED are absorbing |
| TransactionSteps.OneTransactionPerKey | services/transaction/migrations/000001_create_tables.up.sql:18 | in every interleaving a non-empty key has at most one transaction |
| TransactionSteps.SameKeySameReply | services/transaction/internal/application/transaction_service.go:36-96 | all successful replies for a key, at any moments, carry the same id |
| Approvals.StoredWasApproved | services/transaction/internal/application/transaction_service.go:52-85 | in every run each stored transaction was stored by a call whose terms were valid and that the fraud check did not reject |
| TransactionRuns.InitiateIsARun | services/transaction/internal/application/transaction_service.go:36-96 | a sequential InitiateTransfer with any failures is a run of the steps, with the same store and reply, torn exactly when its message is lost |
| SagaHandlers.SagaHandler.Handle | services/wallet/internal/adapters/inbound/kafka/saga_handler.go:48-80 | the table, the marks and the notices after any delivery with any failure |
| SagaHandlers.SagaHandler.HandleTransactionInitiated | services/wallet/internal/adapters/inbound/kafka/saga_handler.go:82-110 | reserve on the source, then the notice; what is left at each failure |
| SagaHandlers.SagaHandler.HandleTransactionCompleted | services/wallet/internal/adapters/inbound/kafka/saga_handler.go:112-136 | credit to the destination, then the notice; what is left at each failure |
| SagaHandlers.DeliveryAnswers | services/wallet/internal/adapters/inbound/kafka/saga_handler.go:48-136 | whatever is delivered and fails: the wallet event, the notice with key and time, the mark and the reply, field by field |
| SagaHandlers.ActsExactly | services/wallet/internal/adapters/inbound/kafka/saga_handler.go:48-136 | a delivery acts on a wallet iff the event is new, initiates or completes a transfer, and the wallet exists and allows it |
| Saga.Conservation | services/wallet/internal/adapters/inbound/kafka/saga_handler.go:82-136 | in every run in which no step stops half way, available balances plus amounts in flight equal external deposits minus withdrawals |
| Saga.WalletLedger | services/wallet/internal/adapters/inbound/kafka/saga_handler.go:82-136 | wallet by wallet: available is own cash minus transfers reserved or completed plus transfers credited |
| Saga.TransferSafety | services/wallet/internal/adapters/inbound/kafka/saga_handler.go:48-80 | at most one reservation, one credit, one release, all of the positive amount; credit only after reservation; never credit and release |
| Saga.LogsHoldTheReservations | services/wallet/internal/application/wallet_service.go:150-201 | the source's log and no other holds exactly the reservation and release on record |
| Saga.DeliveriesActOnce | services/wallet/internal/adapters/inbound/kafka/saga_handler.go:58-79 | over every run, however often an event is delivered: one delivery acted if it is marked, none if it is not |
| SagaFailures.MoneyWithFailures | services/wallet/internal/adapters/inbound/kafka/saga_handler.go:58-136 | in every run, whatever fails: the available total is external cash plus the saga steps carried through plus exactly those that stopped half way |
| SagaFailures.LedgerWithFailures | services/wallet/internal/adapters/inbound/kafka/saga_handler.go:58-136 | the same wallet by wallet |
| SagaFailures.ActingExactly | services/wallet/internal/adapters/inbound/kafka/saga_handler.go:58-79 | in every run, whatever fails: the deliveries of an event that acted are those that stopped half way plus one if it is marked |
| SagaFailures.CreditedOnlyIfReserved | services/wallet/internal/adapters/inbound/kafka/saga_handler.go:112-136 | in every run, whatever fails: a transfer is credited only with its reservation in the source's log, for its own positive amount |
| SagaFailures.NeverOverdrawnWithFailures | services/wallet/internal/domain/wallet.go:59-110 | in every run, whatever fails, no prefix of any log is overdrawn |
| Reservations.ReservedIsHeld | services/wallet/internal/domain/wallet.go:79-106 | in every run in which no step stops half way, each wallet's reservation is the sum its transfers hold, and every prefix has it between 0 and the balance, with no assumption on releases |
| Reservations.SagaIsMatched | services/wallet/internal/domain/wallet.go:79-162 | in every such run reserves and releases are matched, no prefix is overdrawn, and the 64-bit program is exact while deposits and credits fit |
| Journeys.TransferGoesThrough | services/transaction/internal/application/transaction_service.go:36-130 | from any reachable state, an acceptable transfer that is initiated, delivered, completed and delivered moves exactly its amount and ends COMPLETED |
| Journeys.TransferIsGivenBack | services/transaction/internal/application/transaction_service.go:132-163 | abandoned and released instead, it gives back balance and reservation and ends FAILED with the reason |
| Outbox.OutboxRepository.Save | services/wallet/internal/adapters/outbound/postgres/outbox_repo.go:32-42 | refused when the id is taken, may fail otherwise; the row joins in created_at order |
| Outbox.OutboxRepository.FetchUnpublished | services/wallet/internal/adapters/outbound/postgres/outbox_repo.go:44-72 | the row loop returns the oldest unpublished rows, or the read error |
| Outbox.OutboxRepository.MarkPublished | services/wallet/internal/adapters/outbound/postgres/outbox_repo.go:74-82 | row by row: published afterwards iff published before or of this id and the update took effect; messages and order stay |
| Outbox.FetchIsGood | services/transaction/internal/adapters/outbound/postgres/repos.go:135-163 | a batch is unpublished, in order, within the limit, and skips no older unpublished row |
| Outbox.OutboxWorker.Flush | services/wallet/internal/adapters/outbound/kafka/outbox_worker.go:56-104 | rows and topic after a flush with any fetch, publish and mark outcomes |
| Outbox.Drains | services/wallet/internal/adapters/outbound/kafka/outbox_worker.go:56-90 | failure-free flushes publish the pending rows in order, once each, 100 at a time |
| Outbox.DrainedExactlyWhen | services/wallet/internal/adapters/outbound/kafka/outbox_worker.go:56-90 | n pending rows are drained iff there were at least ceil(n/100) failure-free flushes |
| OutboxSteps.OutboxOrder | services/transaction/internal/adapters/outbound/kafka/outbox_worker.go:56-104 | with any workers and failures the topic without repeats is a prefix of the rows in created_at order |
| OutboxSteps.OrderSurvivesExactly | services/wallet/internal/adapters/outbound/postgres/outbox_repo.go:44-49 | a saved row leaves every continuation in order iff nothing newer was published or fetched before |
| OutboxSteps.OvertakingHappens | services/wallet/internal/adapters/outbound/kafka/outbox_worker.go:56-61 | a run reaches a state in which a late row breaks the order |
| OutboxSteps.FlushIsARun | services/transaction/internal/adapters/outbound/kafka/outbox_worker.go:63-90 | a flush with any outcomes is a sequence of the worker steps |
| Delivery.EachKeyInOutboxOrder | services/wallet/internal/adapters/outbound/kafka/outbox_worker.go:63-90 | per key, the distinct delivered events are a prefix of the outbox rows in order |
| Delivery.ExactlyOnce | services/wallet/internal/adapters/inbound/kafka/saga_handler.go:58-79 | duplicated topic through the deduplicating handler equals handling each distinct event once, per key in outbox order |
| Delivery.AtMostOnce | services/wallet/internal/adapters/inbound/kafka/saga_handler.go:58-79 | with refusals and any failure outside the window, no event is effective twice, and it is marked iff it was effective |
| Duplicates.ExactDuplicates | services/wallet/internal/adapters/inbound/kafka/saga_handler.go:58-79 | for every event id, with any failures: effects equal the attempts that stopped unmarked after one, plus one if marked |
| Duplicates.LogsCountEffects | services/wallet/internal/adapters/inbound/kafka/saga_handler.go:82-136 | each log holds its earlier events and one for every effect that asked for it, whatever the events |
| Duplicates.DuplicatesInLog | services/wallet/internal/adapters/inbound/kafka/saga_handler.go:66-79 | if one event alone asks for such a payload, the log counts its unmarked attempts plus one if marked |
| Duplicates.ReservationDuplicates | services/wallet/internal/adapters/inbound/kafka/saga_handler.go:82-110 | the law for TransactionInitiated: reserves for the transfer in the source's log |
| Duplicates.CreditDuplicates | services/wallet/internal/adapters/inbound/kafka/saga_handler.go:112-136 | the law for TransactionCompleted: deposits of the amount in the destination's log |
| Duplicates.MoneyWithFailures | services/wallet/internal/adapters/inbound/kafka/saga_handler.go:66-79 | with any failures, a wallet's available balance moved by its marked events once each plus exactly the unmarked attempts |
| Duplicates.CreditedTwice | services/wallet/internal/adapters/inbound/kafka/saga_handler.go:112-136 | a credit whose mark fails is paid twice |
| Notifications.NotificationService.Handle | services/notification/internal/application/notification_service.go:29-68 | what is sent and marked by an attempt with any failure |
| Notifications.NotificationService.FlattenPayload | services/notification/internal/application/notification_service.go:70-82 | the loop keeps strings and renders everything else as JSON, key by key |
| Notifications.AttemptAnswers | services/notification/internal/application/notification_service.go:29-68 | whatever fails: when a notification goes out, that it carries the event type and the payload key by key, the mark and the reply |
| Notifications.ExactDuplicates | services/notification/internal/application/notification_service.go:39-67 | notifications for an event equal the attempts that sent and ended unmarked plus one if marked |
| Notifications.NothingAfterTheMark | services/notification/internal/application/notification_service.go:39-45 | nothing is sent after the mark, and the mark stays |
| Notifications.SentWasDelivered | services/notification/internal/application/notification_service.go:47-67 | everything that ever went out carries a delivered record |
| Query.QueryService.HandleEvent | services/query/internal/application/query_service.go:51-87 | the whole new view and error for any record under any failure |
| Query.QueryService.HandleFundsMoved | services/query/internal/application/query_service.go:108-178 | not found without a balance row; otherwise balance and statement move together, or the balance alone when the append fails |
| Query.QueryService.HandleTransactionCompleted | services/query/internal/application/query_service.go:180-199 | a missing or unreadable row counts as zero; one transaction and its amount are added |
| Query.DeliveryAnswers | services/query/internal/application/query_service.go:51-199 | whatever is delivered and fails: balance row, statement entry and statistics field by field, the mark and the reply |
| Query.AgreementSurvivesExactly | services/query/internal/application/query_service.go:108-178 | whatever fails: balance and statement keep agreeing iff the record is skipped, is not written, moves nothing, or reaches both with its own entry id; a creation iff it is not written or the statement sums to zero |
| Query.DisagreementHappens | services/query/internal/application/query_service.go:108-142 | two deposits without entry ids leave balance and statement apart |
| QueryFailures.RefinesWriteModel | services/query/internal/application/query_service.go:51-178 | after any log prefix got through, with arbitrary redelivery and failures that leave nothing behind, the projected row is the replay of the events, at the version of the last deposit or withdrawal |
| QueryFailures.Convergence | services/query/internal/application/query_service.go:89-199 | deliveries with the same processed events give the same balances and statistics, if each attempt goes through or leaves nothing behind |
| QueryFailures.BalancesMatchStatements | services/query/internal/adapters/outbound/postgres/repos.go:91-101 | under the same condition every balance is deposits minus withdrawals over the wallet's statement |
| QueryFailures.ExactDuplicates | services/query/internal/application/query_service.go:51-87 | for every event id, whatever fails: its rows were written by the attempts that stopped unmarked, plus once if it is marked |
| QueryFailures.BalanceWithFailures | services/query/internal/application/query_service.go:89-178 | whatever fails: a balance is the marked moves once each plus the unmarked ones minus what repeated creations wiped out |
| QueryFailures.StatementIsDelivered | services/query/internal/application/query_service.go:134-177 | every statement row repeats the fields of a delivered deposit or withdrawal |
| QueryFailures.StatisticsSurviveExactly | services/query/internal/application/query_service.go:180-199 | whatever fails: the statistics stay the sums of the marked events iff nothing is written, or a marked event was read right or had nothing to lose, or an unmarked one rewrote the same row |
| QueryFailures.StatisticsAreLost | services/query/internal/application/query_service.go:180-199 | two consumers that succeed on the same records show different statistics |
| QueryFailures.AppendIsLost | services/query/internal/application/query_service.go:108-142 | a failed append leaves balance and statement apart |
| QueryFailures.CreationWipesOut | services/query/internal/application/query_service.go:89-106 | a creation whose mark failed resets the balance when it comes again |

## Left out

- Delivery.ExactlyOnce: assumes every delivery is handled through to its mark; `Duplicates.ExactDuplicates` counts what failures add and `Delivery.AtMostOnce` covers refusals.
- OutboxSteps.OutboxOrder: assumes distinct created_at values and rows that become visible in that order; `OutboxSteps.OrderSurvivesExactly` says when one late row breaks it.
- QueryFailures.RefinesWriteModel: the wallet service publishes only saga notices, without event_id and version in the payload, so the record stream of the theorem is the documented one, not one the services emit.
- QueryFailures.Convergence: each attempt goes through or leaves nothing behind; attempts that stop half way and swallowed read errors are excluded, `QueryFailures.BalanceWithFailures` and `QueryFailures.StatisticsSurviveExactly` are exact about them.
- QueryFailures.BalancesMatchStatements: the same condition; `Query.AgreementSurvivesExactly` is exact without it.
- TransactionSteps.LifecycleAndOutboxAgree: completing and failing a transaction is one step, possibly torn; two such calls interleaved on one transaction are not modelled, and the UPDATE has no status guard.
- Saga.Conservation: no step stops half way (`SagaFailures.MoneyWithFailures` has the law for all runs), and one consumer handles an event at a time, as a consumer group does between rebalances; two that handle it at once can both pass `IsProcessed` and both act.
- Saga.WalletLedger: the same two assumptions.
- Saga.TransferSafety: the same two assumptions.
- Saga.LogsHoldTheReservations: the same two assumptions.
- Saga.DeliveriesActOnce: the same two assumptions; `SagaFailures.ActingExactly` drops the first.
- Reservations.ReservedIsHeld: the same two assumptions.
- Reservations.SagaIsMatched: the same two assumptions.
- SagaFailures.ActingExactly: one consumer handles an event at a time.
- Duplicates.ExactDuplicates: one consumer handles an event at a time.
- Kafka offset commits: a record whose handler fails is skipped while later ones are committed, so no claim is made that every event is eventually handled.
- Timestamps other than created_at, JSON encoding, uuid parsing of headers, logging, metrics, tracing.
- Fraud rules: the decision is an arbitrary input of a transfer.
- Circuit breaker and backoff timing: a publish is any number of copies followed by success or failure.
- The read queries of the query service, pagination, and GetTransaction: single lookups.
- Compensate: no service method calls it.
- Identity, gateway, generated protobuf code and deployment: not on the money path.
