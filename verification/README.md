# Stellar Disbursement Platform: a verified model of its data layer

This project models how the platform's backend moves disbursements, payments, receiver wallets and verifications through
their lives, and proves what holds over every run. `dafny verify dfyconfig.toml` checks all of it.

## What is modelled

- `Statuses`, `StateMachines`: the three transition tables and the generic engine that builds and asks them.
- `Tables`, `Lifecycle`: the rows, the SQL statements as functions on tables, and one event per transaction. `Step` relates
  the tables before and after a transaction; a transaction that returns an error relates a state to itself.
- `Invariants`, `Steps`, `Runs`, `Batches`: the joint invariant of all tables, the proof that every event keeps it, what
  follows for whole runs from empty tables, and the draining of the send queue.
- `Database`: the tables as one mutable object. Each method is a statement or a transaction, with its loops, early returns
  and roll-back, and is proved equal to the function or `Step` it implements.
- `Registrations`: when a REGISTERED wallet has an address, over one step and over runs, and what follows for sending.
- `Matching`, `Feasibility`, `Criteria`, `Uploads`: the bulk upload. `Uploaded` is the exact relation of a successful
  upload; `ProcessAll` is proved to end in it, to succeed exactly when some state satisfies it, and to succeed exactly
  when `GoesThrough`, a criterion on the tables and the file alone, holds.
- `Payouts`, `Replays`: whom a disbursement pays, and what a second upload of the same file does.
- `PaymentEffects`, `WalletEffects`, `UploadEffects`, `UploadConditions`: what each transaction does to each row and when an
  upload succeeds, told by the columns alone. They are a second description beside the set-based functions of `Tables` and
  `Lifecycle`, and are proved to agree with them on all tables.
- `Rotation`: a small ledger with reserves, and the operation list that rotates the distribution account.
- `CircleTransfers`, `QueryBuilders`, `ShortUrls`, `Statistics`: idempotency keys, the SQL builder, short codes, figures.

Ids come from a counter instead of random UUIDs, amounts are integers in stroops, bcrypt hashes are symbolic, time is an
integer that events advance, and an empty string stands for NULL. Iteration over a Go map is iteration in an arbitrary order.

## Where the code differs from what one might expect

- The payment table lists FAILED to PENDING as the retry edge; the retry statement moves FAILED to READY. Histories are
  proved to contain the latter and never the former.
- The data layer does not enforce that a REGISTERED wallet has an address: the update statement registers a wallet
  without asking for one, and `RegisteringWithoutAddress` is a run that does so. No caller does: the registration handler
  (backend/internal/serve/httphandler/verify_receiver_registration_handler.go:250), the wallet services
  (backend/internal/services/wallet_creation_from_submitter_service.go:245-258 and wallet_provisioning_service.go:72 beside
  it) and the receiver handler (backend/internal/serve/httphandler/receiver_handler.go:231-234) pass an address, and a file
  with a blank one is refused (backend/internal/serve/validators/disbursement_instructions_validator.go:69-73).
  `RegisteredAlwaysIff` says exactly when the property holds over a run, and `RegisteredAlways` that it holds with such
  callers. A PENDING payment has an address in any case, because sending validates the destination.
- A Circle request that succeeded blocks a new one: the unique index counts every request that is not failed. A fresh key
  after completion is therefore answered exactly when all requests of the payment failed.
- The comment on the upload says that an existing wallet that is not REGISTERED is invited again; the statement does so only
  for READY wallets.
- Setting the page of a query twice leaves more parameters than placeholders.

## Model

| member | source | states |
|---|---|---|
| StateMachines.StateMachine.constructor | backend/internal/data/statemachine.go:17-31 | the nested transition map built by the loop answers yes for a pair of states exactly when the list contains that transition, for any list |
| StateMachines.StateMachine.TransitionTo | backend/internal/data/statemachine.go:33-46 | the state changes exactly when the table allows it; a refused transition leaves it |
| StateMachines.PaymentTransition | backend/internal/data/payments_state_machine.go:39-58 | a payment status accepts a target exactly along the payment table |
| StateMachines.DisbursementTransition | backend/internal/data/dibursements_state_machine.go:21-54 | a disbursement status accepts a target exactly along the disbursement table |
| StateMachines.WalletTransition | backend/internal/data/receiver_wallets_state_machine.go:18-34 | a receiver-wallet status accepts a target exactly along the wallet table |
| StateMachines.PaymentSourceStatuses | backend/internal/data/payments_state_machine.go:81-90 | the collected statuses are the exact preimage of the target under the payment table |
| StateMachines.DisbursementSourceStatuses | backend/internal/data/dibursements_state_machine.go:31-40 | the collected statuses are the exact preimage of the target under the disbursement table |
| StateMachines.PaymentTableIsEdge | backend/internal/data/payments_state_machine.go:44-63 | the listed transitions are exactly the moves described case by case, and the status list is complete |
| StateMachines.DisbursementTableIsEdge | backend/internal/data/dibursements_state_machine.go:26-54 | the same for disbursements |
| StateMachines.SourcesByTarget | backend/internal/data/payments_state_machine.go:44-63 | target by target, which statuses may move to it, for payments, disbursements and wallets |
| Databases.Database.Restore | backend/db/db.go:96-117 | rolling back puts back every table a transaction began with |
| Databases.Database.UpdatePaymentStatusByDisbursementID | backend/internal/data/payments.go:409-432 | the set-based update gives the table obtained by asking the machine for each row of the disbursement: rows that may move do, each with one new last history entry, and the rows that refuse stay |
| Databases.Database.UpdatePaymentStatuses | backend/internal/data/payments.go:503-536 | all rows move or none: it succeeds exactly when every transition is allowed, and then every listed row and no other has moved once |
| Databases.Database.UpdatePayment | backend/internal/data/payments.go:539-573 | succeeds exactly when the row exists, a transaction id is given and the transition is allowed; moves that row only |
| Databases.Database.InsertAllPayments | backend/internal/data/payments.go:371-407 | validates every row before inserting any; on success each row is stored once, in order, under a fresh id |
| Databases.Database.RetryFailedPayments | backend/internal/data/payments.go:575-625 | under rollback, succeeds exactly when e-mail and ids are given, the ids are pairwise different and every one is FAILED; then exactly those become READY with a cleared transaction id |
| Databases.Database.CancelPaymentsWithinPeriodDays | backend/internal/data/payments.go:694-725 | cancels exactly the READY payments whose newest READY entry is not younger than the cutoff |
| Databases.Database.CancelPayment | backend/internal/services/payment_management_service.go:33-61 | cancels a READY payment; a missing or other payment is an error and changes nothing |
| Databases.Database.CreateDirectPayment | backend/internal/data/payments.go:779-817 | adds one READY payment of a READY or REGISTERED wallet's receiver; an invalid amount or wallet changes nothing |
| Databases.Database.Ordered | backend/internal/data/payments.go:257-283 | ORDER BY: the selected rows, each once, in query order with ties in any order |
| Databases.Database.GetBatchForUpdate | backend/internal/data/payments.go:252-303 | the answer is the first batchSize eligible payments in the combined order, disbursement payments before direct ones; a size below one is an error |
| Databases.Database.SendPaymentsReadyToPay | backend/internal/services/payment_to_submitter_service.go:76-187 | a batch splits exactly into rows that can be sent, which become PENDING, and rows that cannot, which become FAILED; no transition check fails on the way |
| Databases.Database.SyncPaymentWithTransaction | backend/internal/services/payment_from_submitter_service.go:96-141 | the payment takes the result of its transaction, and its disbursement completes when that was its last unsent payment |
| Databases.Database.UpdatePaymentStatus | backend/internal/data/payments.go:728-777 | writes any status on any existing row, with one last history entry and the hash only when given; on a PENDING payment with a final status it is the reconciliation step of the lifecycle |
| Databases.Database.UpdateDisbursementStatus | backend/internal/data/disbursements.go:288-322 | succeeds exactly when the disbursement exists and may move, and appends one history entry |
| Databases.Database.CompleteDisbursements | backend/internal/data/disbursements.go:433-469 | completes exactly the listed started disbursements none of whose payments is other than SUCCESS |
| Databases.Database.CompleteIfNecessary | backend/internal/data/disbursements.go:494-515 | completes exactly the started disbursements all of whose payments are SUCCESS or CANCELED |
| Databases.Database.StartDisbursement | backend/internal/services/disbursement_management_service.go:198-265 | starts a READY or resumes a PAUSED disbursement together with its payments and wallets, registering only wallets with an address; otherwise nothing changes |
| Databases.Database.PauseDisbursement | backend/internal/services/disbursement_management_service.go:355-386 | pauses a STARTED disbursement together with its READY payments; otherwise nothing changes |
| Databases.Database.DeleteDisbursement | backend/internal/serve/httphandler/disbursement_handler.go:219-262 | deletes a not yet started disbursement with its drafts, or, when a payment is left, nothing |
| Databases.Database.InsertReceiver | backend/internal/data/receivers.go:315-348 | refused exactly when it has no contact or its phone or e-mail is taken up to letter case; otherwise stored under a fresh id |
| Databases.Database.UpdateReceiver | backend/internal/data/receivers.go:351-397 | writes only the given contacts; refused exactly when they are invalid or taken by another receiver |
| Databases.Database.GetOrInsertReceiverWallet | backend/internal/data/receivers_wallet.go:485-498 | inserts a DRAFT wallet with a one-entry history; refused exactly when receiver and provider already have one |
| Databases.Database.UpdateWalletStatusByDisbursementID | backend/internal/data/receivers_wallet.go:532-566 | moves exactly the wallets that the disbursement pays and that have the source status, for REGISTERED only those with an address; a disallowed transition changes nothing |
| Databases.Database.UpdateWallet | backend/internal/data/receivers_wallet.go:696-790 | the outcome is the first check that fails, and on success only supplied fields change and the history gains a first entry |
| PaymentEffects.MoveEffect | backend/internal/data/payments.go:503-573 | row by row: a listed payment gets the status, one new last history entry and the update time, the hash exactly when one is given, and keeps every other column; an unlisted row stays |
| PaymentEffects.BulkMoveEffect | backend/internal/data/payments.go:409-432 | a payment moves exactly when it is of the disbursement and its transition is listed, keeping its hash; every other row stays |
| PaymentEffects.RetryEffect | backend/internal/data/payments.go:575-625 | with e-mail and different ids that are all FAILED every listed payment becomes READY with an empty hash and no other row changes; otherwise nothing changes |
| PaymentEffects.CancelEffect | backend/internal/services/payment_management_service.go:33-61 | only a READY payment is canceled, it keeps its hash, and no other row changes |
| PaymentEffects.AutoCancelEffect | backend/internal/data/payments.go:694-725 | in a reachable state exactly the READY payments whose last entry is at least the period old are canceled; every other row stays |
| PaymentEffects.ReconcileEffect | backend/internal/data/payments.go:728-777 | a PENDING payment takes the result, and the hash when one is given; every other row stays |
| PaymentEffects.CompletionEffect | backend/internal/data/disbursements.go:494-515 | a STARTED disbursement completes, with one new last entry, exactly when each of its payments is SUCCESS or CANCELED; every other row stays |
| PaymentEffects.StrictCompletionEffect | backend/internal/data/disbursements.go:433-469 | a listed STARTED disbursement completes exactly when each of its payments is SUCCESS; every other row stays |
| PaymentEffects.SyncPaymentEffect | backend/internal/services/payment_from_submitter_service.go:96-141 | a payment that can take the result gets its status and exactly the given hash; a refused result changes nothing |
| PaymentEffects.SyncDisbursementEffect | backend/internal/services/payment_from_submitter_service.go:125-141 | the payment's STARTED disbursement completes exactly when a success leaves it with SUCCESS payments only; no other disbursement changes |
| PaymentEffects.SendingEffect | backend/internal/services/payment_to_submitter_service.go:76-187 | only READY payments on REGISTERED wallets, direct or of STARTED disbursements, are ever taken; a taken one becomes PENDING with valid amount and address and FAILED otherwise; every other row stays |
| PaymentEffects.SendingTakesAll | backend/internal/data/payments.go:252-303 | a batch has at most its size, and a smaller one has taken every payment that waits |
| PaymentEffects.NoneLeftWaiting | backend/internal/data/payments.go:252-303 | after a batch that did not fill up no READY payment that could be taken is left |
| PaymentEffects.SendingOrder | backend/internal/data/payments.go:257-296 | a payment is taken before one that has to wait: disbursement before direct, by disbursement, longest untouched first |
| PaymentEffects.StartPaymentEffect | backend/internal/services/disbursement_management_service.go:246-250 | a start moves exactly the DRAFT and PAUSED payments of a READY or PAUSED disbursement to READY, with their hashes kept |
| PaymentEffects.StartDisbursementEffect | backend/internal/services/disbursement_management_service.go:198-265 | a start writes the status and one history entry of its own disbursement, and is refused without effect from any other status |
| PaymentEffects.PauseEffect | backend/internal/services/disbursement_management_service.go:355-386 | a pause moves exactly the READY payments of a STARTED disbursement and that disbursement, and is refused without effect otherwise |
| PaymentEffects.DeleteEffect | backend/internal/serve/httphandler/disbursement_handler.go:219-262 | in a reachable state a DRAFT or READY disbursement is deleted with all its payments and nothing else, and any other is not |
| WalletEffects.InsertDisbursementEffect | backend/internal/serve/httphandler/disbursement_handler.go:168-185 | the new disbursement is DRAFT, without file, with the provider, asset, contact type and verification field of the request |
| PaymentEffects.DirectPaymentEffect | backend/internal/data/payments.go:779-817 | the new payment is for the receiver of the given wallet, with the given asset and amount, READY; refused without effect for a wallet that is neither READY nor REGISTERED or an invalid amount |
| WalletEffects.BulkWalletEffect | backend/internal/data/receivers_wallet.go:532-566 | a wallet moves exactly when the disbursement pays it and it has the source status and, for REGISTERED, an address; any other keeps its whole row |
| WalletEffects.StartWalletEffect | backend/internal/services/disbursement_management_service.go:251-258 | a start readies or registers the DRAFT and READY wallets that its own payments go to, and no wallet of another disbursement changes |
| WalletEffects.UnregisterEffect | backend/internal/data/receivers_wallet.go:801-868 | a REGISTERED wallet that is not user-managed and has no payment in progress becomes READY without address, memo and invitation; otherwise nothing changes |
| WalletEffects.UpdateWalletEffect | backend/internal/data/receivers_wallet.go:696-790 | which updates are accepted, column by column what an accepted one writes, and that no other row changes |
| WalletEffects.UpdateWalletRefusals | backend/internal/data/receivers_wallet.go:696-790 | each error is returned only for its own reason |
| WalletEffects.LowerEqualIff | backend/db/migrations/sdp-migrations/2024-09-04.0-alter-receivers-table-indexes.sql:11-19 | the unique indexes identify exactly the texts that differ in the case of letters only |
| WalletEffects.InsertReceiverEffect | backend/internal/data/receivers.go:315-348 | a receiver is stored exactly when it has a contact of the right format that no other receiver has up to letter case |
| WalletEffects.UpdateReceiverEffect | backend/internal/data/receivers.go:351-397 | the given contacts are written exactly when they are valid and free among the other receivers |
| WalletEffects.InviteEffect | backend/internal/data/receivers_wallet.go:637-654 | exactly the READY wallets among the given ones get the time, and nothing else changes |
| WalletEffects.InsertWalletEffect | backend/internal/data/receivers_wallet.go:485-498 | a DRAFT wallet without address, memo and invitation is added exactly when the receiver exists and has none for the provider |
| WalletEffects.UpsertEffect | backend/internal/data/receiver_verification.go:182-216 | the user's value replaces any stored one, the confirmation stays, and no other verification changes |
| WalletEffects.ConfirmEffect | backend/internal/data/receiver_verification.go:250-302 | an existing verification gets the confirmation time and keeps its value; a missing one changes nothing |
| Invariants.MoveTogetherOk | backend/internal/services/disbursement_management_service.go:198-265 | starting and pausing keep payments and disbursement in agreement |
| Invariants.NothingSurvivesReupload | backend/internal/data/payments.go:348-368 | before the start every payment of a disbursement is a draft, so a re-upload deletes them all |
| Invariants.UploadKeepsPayments | backend/internal/data/disbursement_instructions.go:139-157 | an upload keeps the payment invariant; no payment is ever added to a started disbursement |
| Invariants.CompletionOk | backend/internal/data/disbursements.go:494-515 | completing keeps the invariant and freezes what it completes |
| Invariants.WalletRowsOk | backend/internal/data/receivers_wallet.go:541-553 | one appended or prepended history entry keeps wallet histories valley-shaped in time |
| Steps.UnregisterKeepsAddresses | backend/internal/data/receivers_wallet.go:801-850 | the unregister step never clears the address of a wallet with payments in progress |
| Steps.StepKeepsInv | backend/db/db.go:96-117 | every transaction, successful or not, keeps the joint invariant of all tables and leaves completed disbursements alone |
| Runs.InvAlways | backend/db/db.go:96-117 | the joint invariant holds in every state of every run from empty tables |
| Runs.PendingPaymentsHaveAnAddress | backend/internal/data/payments.go:252-303 | in every reachable state the wallet of a PENDING payment has an address |
| Runs.AddressesAreNeverShared | backend/db/migrations/sdp-migrations/2025-07-02.0-add-wallet-per-receiver-unique-constaint.sql:28-52 | in every reachable state no address belongs to wallets of two receivers |
| Runs.CompletedForever | backend/internal/data/disbursements.go:433-515 | once COMPLETED, a disbursement's row, the set of its payments and their rows never change again, and each payment is SUCCESS or CANCELED |
| Runs.StrictCompletionIsLenient | backend/internal/data/disbursements.go:433-515 | the strict query completes a disbursement exactly when it is listed, the lenient query would complete it, and none of its payments is CANCELED |
| Runs.StartReadiesEverything | backend/internal/services/disbursement_management_service.go:246-262 | starting a READY disbursement makes all its payments READY and leaves no DRAFT wallet: each is READY, or REGISTERED when its address is known |
| Runs.ResumingUndoesPausing | backend/internal/services/disbursement_management_service.go:355-386 | while paused no payment of the disbursement is READY; resuming restores the status of every payment and touches no other disbursement's payments |
| Runs.DraftIffNotStarted | backend/internal/data/payments.go:348-432 | in every reachable state a disbursement's payment is DRAFT exactly when the disbursement is DRAFT or READY, and PAUSED only when it is PAUSED |
| Runs.ReuploadReplacesEverything | backend/internal/data/disbursement_instructions.go:139-157 | after a successful upload the disbursement's payments are exactly the drafts of the last file, and other disbursements' payments are untouched |
| Runs.HistoryTellsTheLife | backend/internal/data/payments.go:409-432 | every payment history ends in the current status; SUCCESS and CANCELED only end it, SUCCESS follows PENDING, PENDING follows READY, and FAILED is followed only by READY |
| Runs.StaleIffLastEntryOld | backend/internal/data/payments.go:694-725 | the query on the newest READY entry selects exactly the READY payments whose last entry is old enough |
| Runs.CanceledOnlyAfterUninterruptedWait | backend/internal/data/payments.go:694-725 | a payment canceled automatically was READY with the same history at every moment of the whole period, so a retry or resumption restarts the window |
| Runs.RetryIsAllOrNothing | backend/internal/data/payments.go:582-623 | the number of updated rows equals the length of the id list exactly when the ids are pairwise different and all FAILED |
| Runs.WalletHistoriesAreValleys | backend/internal/data/receivers_wallet.go:728-733 | over any run wallet timestamps fall and then rise, and a newest entry with the current status is at one of the two ends |
| Runs.StepKeepsConfirmed | backend/internal/data/disbursement_instructions.go:343-368 | no transaction but a user's deliberate overwrite changes the hash of a confirmed verification or its being confirmed |
| Runs.ConfirmedValueNeverChanges | backend/internal/data/disbursement_instructions.go:312-371 | over any run without such an overwrite the hash of a confirmed verification never changes |
| Batches.EligibleAfterDispatch | backend/internal/services/payment_to_submitter_service.go:76-121 | dispatching a batch removes exactly the batch from the eligible payments |
| Batches.DrainCount | backend/internal/data/payments.go:252-303 | after k rounds of size b, max(0, n - k*b) of n eligible payments are left |
| Batches.DrainedAfterCeiling | backend/internal/data/payments.go:252-303 | after ceil(n/b) rounds none is left |
| Batches.MovedExactlyOnce | backend/internal/data/payments.go:503-536 | while draining, every payment eligible at the start is moved exactly once, to PENDING or FAILED, and no other payment is touched |
| Batches.DisbursementPaymentsGoFirst | backend/internal/data/payments.go:286-296 | a round that takes a direct payment leaves no disbursement payment eligible |
| Registrations.UpdateKeepsRegisteredIff | backend/internal/data/receivers_wallet.go:696-790 | a single-row update keeps "REGISTERED implies an address" exactly when it does not register a wallet for which neither it nor the row has an address |
| Registrations.UploadKeepsRegisteredIff | backend/internal/data/disbursement_instructions.go:163-211 | an upload keeps it exactly when every instruction that registers a wallet supplies an address, told from the tables and the file before the upload |
| Registrations.StepKeepsRegisteredIff | backend/db/db.go:96-117 | any transaction that takes effect keeps it exactly when it is neither such an update nor such an upload; no other transaction can break it |
| Registrations.RegisteredAlwaysIff | backend/internal/data/receivers_wallet.go:696-790 | over any run, every REGISTERED wallet has had an address in all states exactly when no transaction registered a wallet blank |
| Registrations.RegisteredAlways | backend/internal/serve/httphandler/verify_receiver_registration_handler.go:243-261 | when registering updates and registering files supply addresses, as all callers do, every REGISTERED wallet of every reachable state has an address |
| Registrations.RegisteringWithoutAddress | backend/internal/data/receivers_wallet.go:696-790 | a run from empty tables that ends with a REGISTERED wallet without address, through the update statement alone |
| Registrations.NothingFailsIff | backend/internal/services/payment_to_submitter_service.go:145-187 | in a reachable state a batch becomes PENDING as a whole exactly when the wallet of each of its payments has an address |
| Registrations.NothingFails | backend/internal/services/payment_to_submitter_service.go:145-187 | with callers that supply addresses, every batch of every reachable state becomes PENDING as a whole |
| Registrations.DrainedToPending | backend/internal/services/payment_to_submitter_service.go:76-121 | and ceil(n/b) rounds of sending turn exactly the n eligible payments PENDING, once each, and change nothing else |
| Matching.MatchIsUnique | backend/db/migrations/sdp-migrations/2024-09-04.0-alter-receivers-table-indexes.sql:11-19 | unique indexes and contact formats leave at most one receiver per contact |
| Matching.CountForcesBijection | backend/internal/data/disbursement_instructions.go:256-275 | as many receivers found as instructions given forces instructions and receivers into a bijection |
| Matching.CountMismatchMeansClash | backend/internal/data/disbursement_instructions.go:263-265 | the count differs exactly when two instructions reach the same receiver |
| Matching.ReconciledIsUploaded | backend/internal/data/disbursement_instructions.go:226-275 | after reconciliation every instruction has its receiver, missing ones were created from their own instruction, and no other receiver appeared |
| Matching.ContactLeadsToOwn | backend/internal/data/disbursement_instructions.go:330-341 | looking an instruction up by its receiver's contact finds the receiver's own instruction |
| Uploads.ResolveContacts | backend/internal/data/disbursement_instructions.go:229-236 | succeeds exactly when every instruction has one contact, and lists them in order |
| Uploads.IndexByContact | backend/internal/data/disbursement_instructions.go:243-251 | succeeds exactly when every receiver found has a contact of the registration's type; the map leads each such contact to a receiver that has it |
| Uploads.CreateReceiverFromInstructionIfNeeded | backend/internal/data/disbursement_instructions.go:278-310 | a known contact changes nothing; an unknown one inserts its receiver, or fails when the contact is taken |
| Uploads.CreateMissingReceivers | backend/internal/data/disbursement_instructions.go:253-258 | inserts a receiver for each unknown contact; it fails only when no plan for the receivers exists |
| Uploads.ReconcileExistingReceiversWithInstructions | backend/internal/data/disbursement_instructions.go:226-275 | succeeds exactly when some set of receivers can serve the instructions one to one, and returns the receivers in bijection with the instructions |
| Uploads.FindReceiverByInstruction | backend/internal/data/disbursement_instructions.go:452-464 | finds a receiver the contact matches, in any map order, or reports truly that none matches |
| Uploads.ProcessReceiverWallets | backend/internal/data/disbursement_instructions.go:373-413 | every receiver ends with its one wallet for the provider, stored or new; READY ones are invited again and no other wallet changes |
| Uploads.RegisterSuppliedWallet | backend/internal/data/disbursement_instructions.go:171-208 | registers, skips or refuses one wallet, and says exactly when |
| Uploads.RegisterSuppliedWallets | backend/internal/data/disbursement_instructions.go:163-211 | succeeds exactly when all registrations together are possible, and then every wallet has its supplied address |
| Uploads.ProcessReceiverVerification | backend/internal/data/disbursement_instructions.go:343-368 | missing values are inserted unless blank, matching ones kept, others replaced unless confirmed; a confirmed mismatch aborts |
| Uploads.ProcessReceiverVerifications | backend/internal/data/disbursement_instructions.go:312-371 | succeeds exactly when every receiver is found by its contact and every verification can take its value; then each stored value is that of the receiver's own instruction, whatever the map order |
| Uploads.CreatePayments | backend/internal/data/disbursement_instructions.go:415-441 | succeeds exactly when all amounts are valid; then there is one draft per instruction, for its own receiver and that receiver's wallet |
| Uploads.ProcessAll | backend/internal/data/disbursement_instructions.go:106-160 | ends in a state related to the first by the exact upload relation; succeeds exactly when the criterion on tables and file holds, and exactly when such a state exists |
| Uploads.PostDisbursementInstructions | backend/internal/serve/httphandler/disbursement_handler.go:301-345 | the whole upload takes effect or nothing does; it succeeds exactly when the criterion holds, and fails only when no outcome would satisfy the upload relation |
| UploadConditions.UploadSucceedsIff | backend/internal/data/disbursement_instructions.go:106-160 | in a reachable state an upload succeeds exactly under the conditions on the columns of file and tables: limits, amounts, one contact each, contacts found or free up to letter case, addresses and memos that can be stored and are shared by nobody, values that agree or are unconfirmed |
| UploadEffects.UploadReceiversEffect | backend/internal/data/disbursement_instructions.go:226-310 | after any successful upload of a run each instruction names exactly one receiver, no two the same, missing ones have the columns of the file, and stored ones are unchanged |
| UploadEffects.UploadVerificationsEffect | backend/internal/data/disbursement_instructions.go:312-371 | the stored hash of each receiver of the file is that of its instruction, an existing confirmation stays, and no other verification changes |
| UploadEffects.UploadWalletsEffect | backend/internal/data/disbursement_instructions.go:163-211 | each receiver of the file has one wallet of the provider, registered with the address and memo of the file when it was DRAFT or READY, invited again when READY; no other wallet changes |
| UploadEffects.UploadPaymentsEffect | backend/internal/data/disbursement_instructions.go:139-157 | one draft per instruction with every column as the file and the disbursement say, no other payment of the disbursement, and every other payment unchanged |
| UploadEffects.UploadDisbursementEffect | backend/internal/data/disbursement_instructions.go:149-157 | the disbursement was DRAFT or READY and becomes READY with the file and one history entry; no other disbursement changes |
| Feasibility.NoPlanForUntyped | backend/internal/data/disbursement_instructions.go:244-249 | a receiver without contact of the type rules out every successful outcome |
| Feasibility.NoPlanWhenTaken | backend/internal/data/disbursement_instructions.go:278-310 | a taken contact of a missing receiver rules out every successful outcome |
| Feasibility.NoPlanForClash | backend/internal/data/disbursement_instructions.go:263-265 | two instructions for one receiver rule out every successful outcome |
| Feasibility.NextRegisters | backend/internal/data/disbursement_instructions.go:184-208 | while all registrations together are possible, the next one in the loop neither mismatches nor collides |
| Feasibility.RegistrationTransfers | backend/internal/data/disbursement_instructions.go:163-211 | if any successful outcome exists, the registrations are possible with the ids this run has chosen |
| Feasibility.PossibleMidway | backend/internal/data/disbursement_instructions.go:121-137 | if any successful outcome exists, the third step of this run goes through |
| Criteria.PlannableIffResolves | backend/internal/data/disbursement_instructions.go:226-310 | receivers can be found or made for all instructions exactly when each has one contact, no two contacts agree up to letter case, and each is the typed contact of a stored receiver or taken by none |
| Criteria.VerifiableIff | backend/internal/data/disbursement_instructions.go:312-371 | the verification loop can finish exactly when each stored value agrees or is unconfirmed, and each missing one is not blank and belongs to a contact of the type |
| Criteria.RegistersIff | backend/internal/data/disbursement_instructions.go:163-211 | the registration loop can finish exactly when each wallet can take its address and memo and no address would end up with two receivers, told from the tables before the upload |
| Criteria.ThirdStepIff | backend/internal/data/disbursement_instructions.go:128-137 | the third step of this run goes through exactly when the criterion on the tables and the file holds, whatever ids were chosen |
| Payouts.EachReceiverPaidOnce | backend/internal/data/disbursement_instructions.go:415-441 | a successful upload leaves one payment per instruction: for the one receiver its contact names, through that receiver's wallet of the provider, with its amount and the disbursement's asset, and no two for one receiver |
| Payouts.NobodyIsPaidTwice | backend/internal/data/disbursement_instructions.go:256-275 | in every reachable state no two payments of one disbursement are for the same receiver |
| Replays.SameFileAgainIff | backend/internal/data/disbursement_instructions.go:106-160 | right after a successful upload the same upload goes through again exactly when every contact of the file is of the disbursement's type |
| Replays.SameFileAgainRenumbers | backend/internal/data/disbursement_instructions.go:106-160 | the second upload of the same file leaves receivers, wallets and verifications as they are and replaces the payments by the same ones under new ids |
| Feasibility.ReachableIsInPlace | backend/db/migrations/sdp-migrations/2023-01-27.3-create-receiver-wallets-table.sql:6-15 | every reachable state meets what an upload asks of the tables |
| Rotation.BuildMergeAccountsOperations | backend/cmd/distribution_account_cmd_service.go:130-176 | for any iteration order of the balance map, the list transfers each credit asset once in that order and ends with the merge |
| Rotation.RotationOperations | backend/cmd/distribution_account_cmd_service.go:82-112 | the produced list, on every ledger whose old account has the reported balances, goes through exactly when that account can pay the funding and keep its reserve, and then replaces the old account by an identical new one |
| Rotation.OneTransfer | backend/cmd/distribution_account_cmd_service.go:141-166 | one asset moves across completely, or fails exactly when the new account cannot hold one more trustline |
| Rotation.TransfersApply | backend/cmd/distribution_account_cmd_service.go:137-167 | all transfers go through exactly when the new account covers the reserve of the last trustline |
| Rotation.RotationSucceedsIff | backend/cmd/distribution_account_cmd_service.go:101-176 | for any order and funding, the plan succeeds exactly when the funding covers 1 + 0.5 n and leaves the old account its own reserve; then the old account is gone and the new one holds exactly what it held |
| Rotation.OwnFundingSuffices | backend/cmd/distribution_account_cmd_service.go:114-128 | with the funding the service computes, success depends only on the old account's native balance, with the exact bound |
| Rotation.ApplyConserves | backend/cmd/distribution_account_cmd_service.go:130-176 | no operation of the ledger creates or destroys any amount of any asset |
| Rotation.TransactionConserves | backend/cmd/distribution_account_cmd_service.go:101-107 | each asset's total is conserved by the whole transaction |
| CircleTransfers.BuildSetClause | backend/internal/data/query_builder.go:118-147 | the clause is empty exactly when all fields are zero, and running it merges the update into the row without clearing anything |
| CircleTransfers.ClauseMerges | backend/internal/data/query_builder.go:118-147 | field by field the update's value wins where it is not zero |
| CircleTransfers.CircleTransferRequests.GetIncompleteByPaymentID | backend/internal/data/circle_transfer_requests.go:114-124 | returns the newest request of the payment without completion time, or reports truly that there is none |
| CircleTransfers.CircleTransferRequests.Insert | backend/internal/data/circle_transfer_requests.go:91-112 | refused exactly when a request of the payment is not failed; otherwise a fresh key |
| CircleTransfers.CircleTransferRequests.GetOrInsert | backend/internal/data/circle_transfer_requests.go:62-89 | answers with the key under way, else with a fresh one, else fails |
| CircleTransfers.CircleTransferRequests.UpdateRequest | backend/internal/data/circle_transfer_requests.go:216-249 | merges the update into the row, or refuses it for an empty clause, a missing row or a violated constraint |
| CircleTransfers.OneRequestUnderWay | backend/internal/data/circle_transfer_requests.go:62-124 | at every moment of a run a payment has at most one request without completion time |
| CircleTransfers.AskEffect | backend/internal/data/circle_transfer_requests.go:62-112 | which key is answered and which row is added, case by case on the payment's requests |
| CircleTransfers.ChangeEffect | backend/internal/data/circle_transfer_requests.go:216-249 | which updates are accepted, field by field what an accepted one writes, and that no other row changes |
| CircleTransfers.RunGrows | backend/internal/data/circle_transfer_requests.go:216-249 | completion is never undone and no request disappears |
| CircleTransfers.SameKeyUntilCompletion | backend/internal/data/circle_transfer_requests.go:62-89 | an answered key stays the answer until its request is completed |
| CircleTransfers.FreshKeyIffAllFailed | backend/db/migrations/sdp-migrations/2024-06-24.0-add-circle-transfers-table.sql:16-16 | after completion asking again yields a key never used before exactly when every request of the payment failed, and an error otherwise |
| CircleTransfers.NoKeyAfterSuccess | backend/db/migrations/sdp-migrations/2024-06-24.0-add-circle-transfers-table.sql:16-16 | a run after which asking again fails, because a transfer succeeded |
| QueryBuilders.QueryBuilder.constructor | backend/internal/data/query_builder.go:24-28 | a new builder has the base query and no clause |
| QueryBuilders.QueryBuilder.AddPagination | backend/internal/data/query_builder.go:69-76 | sets the clause and appends two parameters for a positive page and limit |
| QueryBuilders.QueryBuilder.Build | backend/internal/data/query_builder.go:79-100 | clauses and parameters in SQL order, whatever the order of the calls |
| QueryBuilders.OneMoreCall | backend/internal/data/query_builder.go:32-76 | after any calls each further call writes its own clause, spelled out, and no other; a page needs a positive number and limit |
| QueryBuilders.TextInOrder | backend/internal/data/query_builder.go:79-100 | the clauses that are there follow the base query in the order of SQL, and so do their values |
| QueryBuilders.BindConcat | backend/internal/data/query_builder.go:79-100 | a fragment that uses up its values leaves the next fragment its own |
| QueryBuilders.BalancedIff | backend/internal/data/query_builder.go:69-100 | the built text has as many placeholders as parameters exactly when at most one call set a page |
| QueryBuilders.EveryPlaceholderItsValue | backend/internal/data/query_builder.go:32-100 | every condition is bound to its own values and the page to its limit and offset, whatever the order of the calls |
| QueryBuilders.PagesConcatenate | backend/internal/data/payments.go:654-691 | over a fixed ordered result pages 1 to k concatenate to the first k * limit rows, each once |
| ShortUrls.UrlShortener.GetOriginalURL | backend/internal/data/url_shortener.go:40-51 | looks a code up, or reports truly that it is unknown |
| ShortUrls.UrlShortener.GetOrCreateShortCode | backend/internal/data/url_shortener.go:53-92 | returns the URL's code, or the first free one of five generated codes; an exhausted call leaves the table unchanged |
| ShortUrls.CallEffect | backend/internal/data/url_shortener.go:53-92 | a URL with a code keeps it; another gets the first free generated code and only that row is added; with none free nothing changes |
| ShortUrls.AlwaysOneCodePerUrl | backend/internal/data/url_shortener.go:53-92 | over any run each URL has at most one code |
| ShortUrls.NeverRepointed | backend/internal/data/url_shortener.go:53-92 | a code is never re-pointed and never removed |
| ShortUrls.AnswersAgree | backend/internal/data/url_shortener.go:40-92 | a code that was answered looks up to its URL, and every later request for that URL answers the same code |
| ShortUrls.AnswersDiffer | backend/internal/data/url_shortener.go:53-92 | different URLs are never answered the same code |
| Statistics.GroupByDisbursement | backend/internal/data/disbursements.go:192-209 | the groups are the sums over each disbursement's rows, in any row order |
| Statistics.PopulateStatistics | backend/internal/data/disbursements.go:182-247 | each disbursement gets the sums of its own payments, and one without payments gets none |
| Statistics.CountsPartition | backend/internal/data/disbursements.go:192-209 | sent + failed + canceled + remaining = total = number of rows, and the disbursed amount is at most the total amount |
| Statistics.CountsOfDisbursement | backend/internal/data/disbursements.go:192-209 | each count is the number of the disbursement's payments with the statuses it stands for |
| Statistics.AmountsOfDisbursement | backend/internal/data/disbursements.go:192-209 | the disbursed amount is the sum over the SUCCESS payments of the disbursement, and the total amount the sum over all |
| Statistics.TwoLevelsAgree | backend/internal/data/receivers.go:210-236 | grouping a receiver's payments by asset and summing the groups gives the flat sums over all of the receiver's payments |
| Statistics.MovesConserveTotals | backend/internal/data/payments.go:409-432 | status changes conserve every disbursement's number of payments and total amount |
| Statistics.CompletedFiguresAreFinal | backend/internal/data/disbursements.go:192-209 | from completion on the figures are frozen, with nothing failed and nothing remaining |
| Statistics.UploadedFiguresMatchTheFile | backend/internal/data/disbursement_instructions.go:415-441 | after an upload there are as many payments as instructions and the amounts add up to those in the file |

## Left out

- Databases.Database.StartDisbursement: the wallet-enabled, approval-workflow and balance checks are calls into other tables and services; the model starts whatever passes the transition check.
- Databases.Database.CreateDirectPayment: the resolution of asset, receiver and wallet, the asset support and balance checks are not modelled; the wallet is given.
- Databases.Database.SendPaymentsReadyToPay: models the Stellar dispatcher; the asset code and issuer checks, the transactions inserted for the submitter and the Circle dispatchers are not modelled.
- Databases.Database.UpdatePaymentStatus: the method takes any payment and status, but only its use on PENDING payments with SUCCESS or FAILED is an event of the runs; the Circle dispatchers also use it on READY payments (backend/internal/services/paymentdispatchers/circle_payment_transfer_dispatcher.go:86 and 150), and histories with those moves are not covered.
- Databases.Database.UpdatePayment: the sender address and the status message are not modelled.
- Databases.Database.SyncPaymentWithTransaction: one transaction of the batch around it is modelled, without sender address and status message.
- Databases.Database.InsertAllPayments: of the validations of a row only that of the amount is modelled; receiver, type, asset and wallet ids are given by the types.
- Databases.Database.InsertDisbursement: the refusal of a duplicate name is not modelled.
- Databases.Database.UpsertVerificationValue: the reset of the attempts and the confirming user are not modelled.
- Databases.Database.UpdateWalletStatusToReady: the cleared one-time password, memo type and SEP-24 columns are not modelled.
- CircleTransfers.CircleTransferRequests.UpdateRequest: response body, source wallet and last attempt time are not modelled.
- Statistics.PopulateStatistics: the average amount and the rounding to two decimals are not modelled.
- Databases.Database.UpdateWallet: one-time passwords, SEP-24 transaction ids and memo types are not modelled.
- Databases.Database.UpdateReceiver: external ids are not modelled.
- Databases.Database.ConfirmVerification: attempts, failure times, channel and who confirmed are not modelled.
- Uploads.PostDisbursementInstructions: parsing and validating the file is not modelled, but for the contact formats it guarantees (a phone number has no '@', an e-mail has one), which are required of the instructions.
- Rotation.RotationSucceedsIff: transaction fees, issuer authorization, sponsorship, liabilities and the ledger's limit of 100 operations per transaction are not modelled, so a list of 3n + 2 operations for 33 or more assets with a balance, which the ledger refuses, counts as accepted; balances are exact reals.
- CircleTransfers.SameKeyUntilCompletion: updates are taken to set a completion time exactly with a final status, as every caller does.
- Concurrency, isolation levels and row locks: each transaction is one atomic step, and SKIP LOCKED skips nothing.
- Deleting a receiver with all its rows by contact (receivers.go:460-512) is a maintenance operation that also removes payments of completed disbursements.
- Status messages and user ids in histories, names of receivers beyond insertion, and external payment ids.
- The automatic cancellation period is counted in days of equal length, without calendars or time zones.
- HTTP handlers beyond their transactions, the submitter, Horizon and Circle clients, messages, metrics, the scheduler, tenants and the frontend: plumbing around the modelled core.
- Bridge onboarding, Kenyan bank conversion and the remaining validators: easy or floating-point code.
