# RapidPay money movement, modelled in Dafny

RapidPay moves money between payment cards. Four services cooperate over a message bus, a Redis cache and their own databases:

- **Card management** keeps the cards: balance, optional credit limit and used credit. It also keeps an append-only log of balance movements.
- **Authorization** admits a transfer. It takes a per-sender lock, then checks the amount against the payment fee, checks that both cards are active, checks a rolling fraud window and checks the sender's funds. It also keeps a log of card authorizations.
- **Transaction** keeps one record per transfer and drives the saga:
  `TransactionAuthorized → WithdrawFunds → FundsWithdrawn → DepositFunds → TransactionCompleted`,
  with the compensation branch `TransactionFailed → RefundRequested → TransactionRefunded`.
- **Shared** code holds the funds rule, the cache-key builders, the `Result<T>` envelope and the string constants.

The model shares one abstract world between the services:

- a card store (`Ledger.CardStore`);
- an authorization store (`Authorization.AuthStore`);
- a transaction store (`Transactions.TransactionStore`);
- the cache with its lock set (`Caching.Cache`);
- an outbox of published events (`Contracts.Bus`).

Every handler is a method over these objects. Its `fault` parameter names the call that throws, if any (a call of its `try` block, where it has one), so each of those exception paths is a branch of the method; the exceptions left out are listed under "Left out".

Conventions:

- Money is an `int` counting units of 0.0001; the databases store `decimal(18,4)`.
- C#'s lifted `null` arithmetic on the nullable credit fields is written out with `Option`.
- Database transactions keep a snapshot taken at `BeginTransaction`; `Rollback` restores it. As SQL Server's provider does, `Rollback` of a transaction already committed or rolled back throws, while the disposal that ends `await using` rolls back only a transaction still open.

The ledger arithmetic and the saga are specified by functions (`Ledger.Withdrawn`, `Ledger.Deposited`, `Fraud.FraudCheck`, `Authorization.LastAuthorization`). The methods are proved against those functions. The lemmas state what the functions guarantee:

- net position is conserved by a refund;
- the fee is the only money that leaves a completed transfer;
- the funds check is monotone;
- cache keys never collide;
- a repeat transfer inside the window is a duplicate.

`saga.dfy` composes the handlers into whole transfers and proves end-to-end facts about them.

## Model

| member | source | states |
|---|---|---|
| Funds.AvailableFunds | RapidPay.Shared/Helpers/FundsHelper.cs:8-9 | available funds are never below the balance; they are the balance plus the unused credit when credit remains, and the balance alone when the credit line is absent or over-used |
| Funds.HasSufficientFunds | RapidPay.Shared/Helpers/FundsHelper.cs:5-11 | true exactly when the amount fits in the balance or the excess fits in the unused credit (null fields read as 0); always true when the amount is at most the balance; with no credit line, true iff balance ≥ amount |
| Funds.SufficientFundsMonotoneInAmount | RapidPay.Shared/Helpers/FundsHelper.cs:10 | if an amount passes, every smaller amount passes |
| Funds.SufficientFundsMonotoneInBalance | RapidPay.Shared/Helpers/FundsHelper.cs:9-10 | raising the balance never turns a pass into a refusal |
| Constants.StatusNamesDistinct | RapidPay.Shared/Constants/TransactionType.cs:5-11 | two statuses have the same stored name exactly when they are the same status |
| Constants.LogTypeNamesDistinct | RapidPay.Shared/Constants/TransactionStatus.cs:5-9 | two log kinds have the same stored name exactly when they are the same kind |
| Constants.ReasonNamesDistinct | RapidPay.Shared/Constants/Reasons.cs:5-11 | two reasons have the same text exactly when they are the same reason |
| CacheKeys.PrefixedKeyInjective | Shared.Infrastructure/Caching/CacheKeys.cs:5-7 | two keys "card:" + n + suffix with the same suffix are equal only for the same card number |
| CacheKeys.CardDataInjective | Shared.Infrastructure/Caching/CacheKeys.cs:5 | different cards have different data keys |
| CacheKeys.CardStatusInjective | Shared.Infrastructure/Caching/CacheKeys.cs:6 | different cards have different status keys |
| CacheKeys.TransactionFraudInjective | Shared.Infrastructure/Caching/CacheKeys.cs:7 | different cards have different fraud-window keys |
| CacheKeys.KeyKindsDistinct | Shared.Infrastructure/Caching/CacheKeys.cs:5-8 | a data, status or fraud key never equals a key of another kind, for any two card numbers, and none equals the fee key |
| Contracts.Result.Success | RapidPay.Shared/Contracts/Messaging/Result.cs:5-6 | the envelope carries the data and an empty error; it reports success exactly when the data is present, so `Success(null)` reports failure |
| Contracts.Result.Failure | RapidPay.Shared/Contracts/Messaging/Result.cs:5-7 | the envelope carries no data and the given error, and never reports success |
| Caching.RemoveByScore | RapidPay.Shared/Contracts/Caching/ICacheService.cs:7 | a member survives exactly when its score lies outside [min, max], and keeps its score |
| Caching.Cache.Set | Shared.Infrastructure/Caching/RedisCacheService.cs:15-23 | the key now holds the value with the given expiry; no other key and no lock changes |
| Caching.Cache.RemoveRangeByScore | RapidPay.Shared/Contracts/Caching/ICacheService.cs:7 | the sorted set at the key loses exactly its members scored in [min, max]; other keys are unchanged |
| Caching.Cache.AddToSortedSet | RapidPay.Shared/Contracts/Caching/ICacheService.cs:9 | the sorted set at the key gains the member at the score; other keys are unchanged |
| Caching.Cache.AcquireLock | RapidPay.Shared/Contracts/Caching/ICacheService.cs:10 | the lock is granted exactly when it was free, and is held afterwards |
| Caching.Cache.ReleaseLock | RapidPay.Shared/Contracts/Caching/ICacheService.cs:11 | the lock is free afterwards; other locks and all entries are unchanged |
| Caching.LockMutualExclusion | RapidPay.Shared/Contracts/Caching/ICacheService.cs:10 | of two acquisitions of a free lock, the first succeeds and the second fails |
| Ledger.LiftedAdd | RapidPay.CardManagement/Infrastructure/Repositories/CardRepository.cs:46 | adding to a null used credit leaves it null; adding to a value adds |
| Ledger.Withdrawn | RapidPay.CardManagement/Infrastructure/Repositories/CardRepository.cs:38-47 | number and limit never change; an amount within the balance lowers only the balance; a larger one empties the balance; when used credit has a value, net position (balance − used credit) drops by exactly the amount; a healthy card that passes the funds check stays healthy |
| Ledger.Deposited | RapidPay.CardManagement/Infrastructure/Repositories/CardRepository.cs:54-75 | the balance never drops; with no credit drawn, only a positive amount − fee is added to the balance; with credit drawn, the debt is repaid first: a net amount within it leaves the balance alone, one that covers it clears the used credit to 0 before the rest reaches the balance, and net position moves by exactly amount − fee; a negative net grows the used credit; a non-negative net keeps a healthy card healthy |
| Ledger.RefundRestoresNet | RapidPay.CardManagement/Infrastructure/Repositories/CardRepository.cs:38-75 | a withdrawal followed by a fee-free deposit of the same amount restores net position |
| Ledger.RefundRestoresCleanCard | RapidPay.CardManagement/Infrastructure/Repositories/CardRepository.cs:38-75 | on a card with no used credit, withdrawal and refund restore balance and used credit exactly |
| Ledger.RefundRepaysCreditFirst | RapidPay.CardManagement/Infrastructure/Repositories/CardRepository.cs:65-75 | a refund after an overdraft repays credit first, so the card's fields differ from the start even though net position is restored |
| Ledger.NullUsedCreditLosesOverdraft | RapidPay.CardManagement/Infrastructure/Repositories/CardRepository.cs:42-47 | with a null used credit, an overdraft empties the balance and records no debt |
| Ledger.RepositoryScenarios | RapidPay.CardManagement.UnitTests/Infrastructure/Commands/Repositories/CardRepositoryTests.cs:105-257 | the repository's unit-test cards end with the balances and used credit the tests assert |
| Ledger.CardStore.GetByNumber | RapidPay.CardManagement/Infrastructure/Repositories/CardRepository.cs:10-13 | a card is found exactly when one is stored under the number, and it carries that number |
| Ledger.CardStore.Add | RapidPay.CardManagement/Infrastructure/Repositories/CardRepository.cs:15-20 | the card is inserted exactly when its number is new, since the number is a unique index; the store stays keyed by number |
| Ledger.CardStore.Update | RapidPay.CardManagement/Infrastructure/Repositories/CardRepository.cs:22-26 | the card, which must already be stored, replaces the one stored under its number; others are unchanged |
| Ledger.CardStore.Withdraw | RapidPay.CardManagement/Infrastructure/Repositories/CardRepository.cs:28-52 | succeeds exactly when the card exists and passes the funds check; then the card becomes `Withdrawn` of it, otherwise nothing changes |
| Ledger.CardStore.Deposit | RapidPay.CardManagement/Infrastructure/Repositories/CardRepository.cs:54-80 | succeeds exactly when the card exists; then the card becomes `Deposited` of it with the fee, otherwise nothing changes |
| Ledger.CardStore.AppendLog | RapidPay.CardManagement/Infrastructure/Repositories/CardTransactionRepository.cs:8-12 | the log gains exactly the entry at its end; cards are unchanged |
| Ledger.CardStore.BeginTransaction | RapidPay.CardManagement/Application/EventHandlers/WithdrawFundsEventHandler.cs:25 | the current cards and logs are kept as the rollback point |
| Ledger.CardStore.Commit | RapidPay.CardManagement/Application/EventHandlers/WithdrawFundsEventHandler.cs:59 | the changes stay and the rollback point is dropped |
| Ledger.CardStore.Rollback | RapidPay.CardManagement/Application/EventHandlers/WithdrawFundsEventHandler.cs:71 | throws exactly when no transaction is open, and then changes nothing; otherwise cards and logs return to the rollback point |
| Ledger.CardStore.Dispose | RapidPay.CardManagement/Application/EventHandlers/WithdrawFundsEventHandler.cs:25 | an open transaction is rolled back to its point; a finished one leaves cards and logs as they are |
| CardCommands.NewCard | RapidPay.CardManagement/Infrastructure/Commands/Handlers/CreateCardHandler.cs:22-28 | the new card has the given number, balance and limit and zero used credit, and is healthy when its inputs are non-negative |
| CardCommands.CreateCard | RapidPay.CardManagement/Infrastructure/Commands/Handlers/CreateCardHandler.cs:18-59 | a new number is stored, then one `CardUpdated` with the card is published, then one Initial log entry for the opening balance is appended; the card is returned only when all three happened; a refused or failed add writes nothing and rethrows |
| CardCommands.UpdatedCard | RapidPay.CardManagement/Infrastructure/Commands/Handlers/UpdateCardHandler.cs:37-47 | a field takes the requested value when one is given; a field changes only when a different value is requested; number and used credit never change |
| CardCommands.UpdatedCardIdempotent | RapidPay.CardManagement/Infrastructure/Commands/Handlers/UpdateCardHandler.cs:37-47 | applying the same update twice equals applying it once |
| CardCommands.UpdatedCardUnchangedWhenNothingDiffers | RapidPay.CardManagement/Infrastructure/Commands/Handlers/UpdateCardHandler.cs:37-52 | the update leaves the card as it was exactly when no requested value differs from the current one |
| CardCommands.UpdateCard | RapidPay.CardManagement/Infrastructure/Commands/Handlers/UpdateCardHandler.cs:17-85 | an empty request or an unknown card fails without any write; an effective change is stored and published as `CardUpdated`; a changed balance is logged as an Update of new − old; true exactly when the change went through every call that was made; exceptions give false and are not rethrown |
| CardCommands.GetCard | RapidPay.CardManagement/Infrastructure/Queries/Handlers/GetCardHandler.cs:19-43 | a cache hit is answered as cached with no write; a miss reads the store and caches the card with the expiry; an unknown card gives null and writes nothing; the answer always equals what the cache holds afterwards; an exception from the cache read, the store read or the cache write reaches the caller exactly when that call is made, with the cache unchanged |
| CardCommands.MergeCardData | RapidPay.CardManagement/Application/EventHandlers/CardUpdatedEventHandler.cs:27-38 | with nothing cached, the event is taken verbatim; otherwise the balance comes from the event, and credit limit and used credit come from the event when present and from the cache otherwise |
| CardCommands.MergeCardDataIdempotent | RapidPay.CardManagement/Application/EventHandlers/CardUpdatedEventHandler.cs:27-38 | merging the same event into its own result changes nothing |
| CardCommands.MergeCompleteEvent | RapidPay.CardManagement/Application/EventHandlers/CardUpdatedEventHandler.cs:27-38 | an event with both credit fields present overwrites the cached card entirely |
| CardCommands.ConsumeCardUpdated | RapidPay.CardManagement/Application/EventHandlers/CardUpdatedEventHandler.cs:18-49 | exactly the card's data key is overwritten with the merge and the expiry; a failing cache leaves everything unchanged and is rethrown |
| CardEvents.RefundingFailure | RapidPay.CardManagement/Application/EventHandlers/DepositFundsEventHandler.cs:80-90 | the failure asks for a refund and names the sender and the amount |
| CardEvents.ConsumeWithdrawFunds | RapidPay.CardManagement/Application/EventHandlers/WithdrawFundsEventHandler.cs:21-85 | as written: a refused withdrawal rolls back, releases the lock and reports InsufficientFunds with no refund; a committed one debits the sender, logs −amount, keeps the lock and hands over with `FundsWithdrawn`; the lock is released exactly when the debit was not committed, unless the refusal's own release throws; a failure of the refusal's rollback is caught and reported; a failure after the refusal's rollback or after the commit escapes with nothing published; any other failure reports ServerError and asks for a refund exactly when the withdrawal itself was accepted, even if it was then rolled back |
| CardEvents.ConsumeWithdrawFundsCorrected | RapidPay.CardManagement/Application/EventHandlers/WithdrawFundsEventHandler.cs:27-83 | like the handler, but every failure publishes exactly one ServerError event, which asks for a refund exactly when the debit was committed |
| CardEvents.ConsumeDepositFunds | RapidPay.CardManagement/Application/EventHandlers/DepositFundsEventHandler.cs:21-78 | as written: a missing fee or an unknown recipient is reported (FeeNotFound, InvalidRecipient) with a refund to the sender; a committed deposit credits the recipient less the fee, logs the gross amount and publishes `TransactionCompleted`; the sender is refunded exactly when the recipient was not credited; a failure to publish after the commit escapes exactly then, with nothing published |
| CardEvents.ConsumeDepositFundsCorrected | RapidPay.CardManagement/Application/EventHandlers/DepositFundsEventHandler.cs:23-78 | like the handler, but a failure after the commit publishes a ServerError failure that asks for no refund |
| CardEvents.SendFailedEvent | RapidPay.CardManagement/Application/EventHandlers/DepositFundsEventHandler.cs:80-90 | publishes one refund-bearing failure for the sender, or nothing if publishing throws |
| CardEvents.ConsumeRefundRequested | RapidPay.CardManagement/Application/EventHandlers/RefundRequestedEventHandler.cs:16-48 | the named card is credited the full amount with no fee; a Refund entry is logged and `TransactionRefunded` is published only after the credit; an unknown card or an exception publishes nothing |
| Fraud.Pruned | RapidPay.Authorization/Infrastructure/Handlers/AuthorizeTransactionHandler.cs:146 | the window keeps exactly the entries scored outside [0, now − period] |
| Fraud.FraudCheck | RapidPay.Authorization/Infrastructure/Handlers/AuthorizeTransactionHandler.cs:141-162 | a duplicate exactly when the pruned window holds an entry with the same recipient and amount; a duplicate adds nothing, otherwise the transfer is added at score now |
| Fraud.RepeatWithinWindowIsDuplicate | RapidPay.Authorization/Infrastructure/Handlers/AuthorizeTransactionHandler.cs:141-162 | after a transfer is admitted to the window, the same transfer within the period is a duplicate |
| Fraud.AfterWindowNotDuplicate | RapidPay.Authorization/Infrastructure/Handlers/AuthorizeTransactionHandler.cs:146-161 | once every entry is older than the period, nothing is a duplicate |
| Fraud.DifferentTransferNotBlocked | RapidPay.Authorization/Infrastructure/Handlers/AuthorizeTransactionHandler.cs:150 | a transfer to another recipient or of another amount is not blocked by an entry |
| Authorization.LastAuthorization | RapidPay.Authorization/Infrastructure/Repositories/AuthLogRepository.cs:15-21 | found exactly when the card has a log entry; the result is one of the card's entries, with the latest creation time |
| Authorization.LastAuthorizationIgnoresOthers | RapidPay.Authorization/Infrastructure/Repositories/AuthLogRepository.cs:15-21 | entries appended for other cards do not change a card's latest entry |
| Authorization.LastAuthorizationOfAppended | RapidPay.Authorization/Infrastructure/Handlers/AuthorizeCardHandler.cs:46-50 | an entry appended no earlier than all others becomes its card's latest |
| Authorization.AppendedForOthersKeepsLast | RapidPay.Authorization/Infrastructure/Repositories/AuthLogRepository.cs:15-21 | appending entries for one card keeps every other card's latest entry |
| Authorization.AuthStore.AddLog | RapidPay.Authorization/Infrastructure/Repositories/AuthLogRepository.cs:9-13 | the log only grows, by the one entry at its end |
| Authorization.AuthStore.SetCardStatus | RapidPay.Authorization/Infrastructure/Handlers/AuthorizeCardHandler.cs:83-100 | afterwards exactly one row exists for the card, with the decision, whether it was inserted or updated; other rows and the log are unchanged |
| Authorization.AuthorizeCard | RapidPay.Authorization/Infrastructure/Handlers/AuthorizeCardHandler.cs:25-64 | a card whose latest entry approves is approved with no writes; an unknown card gets a CardNotFound entry and is refused with no row or cache change; a known card is approved, logged as Authorized, upserted and cached with the expiry; any exception gives false; a card unknown to card management is never newly approved |
| Authorization.EnsureCardActive | RapidPay.Authorization/Infrastructure/Handlers/AuthorizeTransactionHandler.cs:88-111 | a cached status is answered as is with no write; a stored row is answered and cached; otherwise `AuthorizeCard` decides; an active answer is backed by the card's records afterwards; only this card's status key, row and log change |
| Authorization.ConsumeCardUpdated | RapidPay.Authorization/Application/EventHandlers/CardUpdatedEventHandler.cs:23-48 | with a stored row, the status key is set to the row's value with the expiry and nothing else changes; without one, the card is authorized; the event's balance and credit are ignored; failures change nothing and are rethrown |
| Admission.FeeAcceptable | RapidPay.Authorization/Infrastructure/Handlers/AuthorizeTransactionHandler.cs:134-139 | a missing or zero fee refuses; a positive fee accepts exactly the amounts above it |
| Admission.FetchCardData | RapidPay.Authorization/Infrastructure/Handlers/AuthorizeTransactionHandler.cs:113-132 | cached card data is used as is; on a miss the data is the card service's answer when the lookup succeeds, and null otherwise |
| Admission.IsDuplicateTransaction | RapidPay.Authorization/Infrastructure/Handlers/AuthorizeTransactionHandler.cs:141-162 | the verdict and the sender's new window are those of `FraudCheck`; no other key or lock changes |
| Admission.StatusChecks | RapidPay.Authorization/Infrastructure/Handlers/AuthorizeTransactionHandler.cs:44-50 | passing means both cards' records say active; two cached active statuses pass with nothing written; only the two cards' status keys and rows change |
| Admission.AdmissionChecks | RapidPay.Authorization/Infrastructure/Handlers/AuthorizeTransactionHandler.cs:42-66 | the fraud window is left unchanged unless the amount, the fee and both status checks pass; once they do, the window becomes exactly what the duplicate check leaves and the verdict is exactly: no duplicate, no data fault, sender data that passes the funds check and recipient data found; passing means a positive amount above the fee, two active cards and no match in the pruned window; with both statuses cached as active the window check is reached |
| Admission.FraudWriteKeepsStatuses | RapidPay.Authorization/Infrastructure/Handlers/AuthorizeTransactionHandler.cs:44-59 | writing the sender's fraud window keeps both cards' statuses and data |
| Admission.SenderStaysActive | RapidPay.Authorization/Infrastructure/Handlers/AuthorizeTransactionHandler.cs:44-45 | checking the recipient's status keeps the sender active |
| Admission.StatusKeysApart | Shared.Infrastructure/Caching/CacheKeys.cs:6-7 | the sender's fraud key is neither card's status key |
| Admission.DataKeysUntouched | Shared.Infrastructure/Caching/CacheKeys.cs:5-7 | writes to status and fraud keys leave both cards' data keys alone |
| Admission.AuthorizeTransaction | RapidPay.Authorization/Infrastructure/Handlers/AuthorizeTransactionHandler.cs:28-86 | a held lock refuses with nothing changed; every refusal after acquiring releases the lock; an admission keeps the lock and publishes exactly one `TransactionAuthorized`; the fraud window is touched only under a newly taken lock after the amount, fee and status checks pass, and then it is what the duplicate check leaves and admission is exactly: no duplicate, no data or publish fault, and funds; admission implies every check passed, and with cached active statuses and no fault every passing transfer is admitted |
| Transactions.TransactionStore.GetById | RapidPay.Transaction/Infrastructure/Repositories/TransactionRepository.cs:14-17 | found exactly when a record with the id is stored, and it carries that id |
| Transactions.TransactionStore.Add | RapidPay.Transaction/Infrastructure/Repositories/TransactionRepository.cs:8-12 | a record with a new id is stored under its id; a repeated id is refused; every stored transfer keeps its parties, amount and creation time |
| Transactions.TransactionStore.UpdateStatus | RapidPay.Transaction/Infrastructure/Repositories/TransactionRepository.cs:19-31 | an existing record gets the status and update time; an unknown id changes and inserts nothing; other records are untouched; every record keeps its id, parties, amount and creation time |
| Transactions.TransactionStore.BeginTransaction | RapidPay.Transaction/Application/EventHandlers/TransactionAuthorizedEventHandler.cs:20 | the records are kept as the rollback point |
| Transactions.TransactionStore.Commit | RapidPay.Transaction/Application/EventHandlers/TransactionAuthorizedEventHandler.cs:35 | the changes stay and the rollback point is dropped |
| Transactions.TransactionStore.Rollback | RapidPay.Transaction/Application/EventHandlers/TransactionAuthorizedEventHandler.cs:47 | throws exactly when no transaction is open, and then changes nothing; otherwise the records return to the rollback point |
| Transactions.TransactionStore.Dispose | RapidPay.Transaction/Application/EventHandlers/TransactionAuthorizedEventHandler.cs:20 | an open transaction is rolled back to its point; a finished one leaves the records as they are |
| Transactions.ConsumeTransactionAuthorized | RapidPay.Transaction/Application/EventHandlers/TransactionAuthorizedEventHandler.cs:17-58 | as written: a new transfer is recorded as Authorized and committed before `WithdrawFunds` with the same fields is published; a failure before the commit leaves the records as they were and publishes a ServerError failure with no refund; a failure to publish after the commit keeps the record and escapes exactly then, with nothing published; stored transfers keep their parties and amounts |
| Transactions.ConsumeTransactionAuthorizedCorrected | RapidPay.Transaction/Application/EventHandlers/TransactionAuthorizedEventHandler.cs:22-56 | like the handler, but a failure after the commit keeps the record and still publishes the ServerError failure with no refund |
| Transactions.ConsumeFundsWithdrawn | RapidPay.Transaction/Application/EventHandlers/FundsWithdrawnEventHandler.cs:14-43 | the record becomes Withdrawn and `DepositFunds` goes to the recipient on the sender's behalf; on failure the sender's amount is asked back |
| Transactions.FailedStatus | RapidPay.Transaction/Application/EventHandlers/TransactionFailedEventHandler.cs:20-22 | RefundPending exactly when a refund is needed, Failed otherwise |
| Transactions.ConsumeTransactionFailed | RapidPay.Transaction/Application/EventHandlers/TransactionFailedEventHandler.cs:14-38 | the record takes the failed status; a refund is requested exactly when one is needed and both card and amount are named, and the status update went through |
| Transactions.ConsumeTransactionCompleted | RapidPay.Transaction/Application/EventHandlers/TransactionCompletedEventHandler.cs:13-25 | the record becomes Completed whatever its status was; nothing is published |
| Transactions.ConsumeTransactionRefunded | RapidPay.Transaction/Application/EventHandlers/TransactionRefundedEventHandler.cs:13-25 | the record becomes Refunded whatever its status was; nothing is published |
| Saga.DebitPhase | RapidPay.CardManagement/Application/EventHandlers/WithdrawFundsEventHandler.cs:31-67 | a fundable transfer is recorded, the sender is debited and logged, and the deposit is requested; the lock stays held |
| Saga.Transfer | RapidPay.CardManagement/Application/EventHandlers/DepositFundsEventHandler.cs:21-61 | a transfer with no failures debits the sender the amount, credits the recipient the amount less the fee, logs both, ends Completed, and leaves the sender's lock held |
| Saga.TransferMovesAmountLessFee | RapidPay.CardManagement/Infrastructure/Repositories/CardRepository.cs:38-75 | the sender's net position drops by the amount, the recipient's rises by amount − fee, so the pair loses exactly the fee |
| Saga.TransferToUnknownRecipient | RapidPay.CardManagement/Application/EventHandlers/DepositFundsEventHandler.cs:38-44 | a transfer to an unknown card ends Refunded, with six events in order and the lock still held; when the sender's used credit is not null and the amount is non-negative, the sender's net position is restored |
| Saga.WithdrawLogFailureRefundsUnpaidAmount | RapidPay.CardManagement/Application/EventHandlers/WithdrawFundsEventHandler.cs:48-83 | as written: when the withdrawal log write throws, the debit is rolled back yet the sender is refunded the fee-free amount; when the sender's used credit is not null, the net position ends raised by the amount |
| Saga.WithdrawLogFailureCorrected | RapidPay.CardManagement/Application/EventHandlers/WithdrawFundsEventHandler.cs:48-83 | corrected: the same failure leaves the sender's card and log as they were, ends the transfer Failed with no refund, and releases the lock |
| Saga.CompletionLostAfterDeposit | RapidPay.CardManagement/Application/EventHandlers/DepositFundsEventHandler.cs:55-66 | as written: when the completion event fails after the commit, the recipient keeps the credit, the handler's exception escapes and no event is published |
| Saga.CompletionLostAfterDepositCorrected | RapidPay.CardManagement/Application/EventHandlers/DepositFundsEventHandler.cs:55-76 | corrected: the same failure keeps the recipient's credit and ends the transfer Failed with one failure event and no refund |
| Saga.WithdrawnFundsStranded | RapidPay.CardManagement/Application/EventHandlers/WithdrawFundsEventHandler.cs:59-72 | as written: when `FundsWithdrawn` fails after the commit, the sender stays debited and locked, the exception escapes and no event asks for a refund |
| Saga.WithdrawnFundsRefundedCorrected | RapidPay.CardManagement/Application/EventHandlers/WithdrawFundsEventHandler.cs:59-83 | corrected: the same failure refunds the sender, ends the transfer Refunded and releases the lock; when the sender's used credit is not null and the amount is non-negative, the net position is restored |
| Saga.RefundPhase | RapidPay.CardManagement/Application/EventHandlers/RefundRequestedEventHandler.cs:16-48 | a refund-bearing failure with no faults requests the refund, credits the card the amount with no fee, logs it, publishes `TransactionRefunded` and ends the record Refunded |
| Saga.AuthorizedRecordStranded | RapidPay.Transaction/Application/EventHandlers/TransactionAuthorizedEventHandler.cs:35-47 | as written: when `WithdrawFunds` fails after the commit, the record stays Authorized, the exception escapes and no event is published |
| Saga.AuthorizedRecordFailedCorrected | RapidPay.Transaction/Application/EventHandlers/TransactionAuthorizedEventHandler.cs:35-56 | corrected: the same failure ends the record Failed with one failure event and no refund |
| Saga.LateCompletionOverwritesRefund | RapidPay.Transaction/Application/EventHandlers/TransactionCompletedEventHandler.cs:19 | a Completed event arriving for a Refunded transfer overwrites its status |

## Left out

- Controllers, request validation, JWT authentication (`TokenService`, `AuthController`), service start-up and dependency wiring are not part of this model.
- Fee generation (`FeeUpdaterService`) is left out because it draws random floating-point fees on a timer. The fee is whatever the cache holds under "fee", and a missing fee reads as 0.
- `FeeUpdatedEventHandler` and `GetCardQueryEventHandler` are thin forwarders and are not modelled. The card-management answer seen by authorization is a map `CardService` from number to `Result`. An absent number stands for the null that `CardManagementService` returns when the request fails.
- Time, cache expiry, transaction ids and the clock are parameters. Entries never expire and locks have no time-to-live; nothing in the model lets time pass.
- Concurrency, at-least-once redelivery and broker ordering are not modelled. Each handler runs to completion on its own, and the saga lemmas run the handlers in order.
- An exception is modelled as a fault that stops one named call before it has any effect. Calls made inside a `catch` block are taken to succeed, except its `RollbackAsync`, which throws when the transaction is already committed or rolled back. An exception that escapes a consumer is returned as `escaped`; what the broker then does with the message (retry, error queue) is not modelled.
- A commit that throws is taken to leave the transaction open, so the catch block's rollback succeeds after it.
- `BeginTransactionAsync` throwing is not modelled (WithdrawFundsEventHandler.cs:25, DepositFundsEventHandler.cs:24, TransactionAuthorizedEventHandler.cs:20). It is called before the `try` block, so its exception would leave the consumer with nothing changed and nothing published.
- Logging calls (`LogError`) are taken to succeed.
- JSON serialization of cache values is not modelled; the cache holds typed values.
- Amounts are exact integers in units of 0.0001, matching `decimal(18,4)`. Rounding of wider decimals on save is not modelled.
- `CacheKeys.CardLock` is not defined in `CacheKeys.cs`. Locks are modelled as a separate set of card numbers in the cache, assuming lock keys are injective and distinct from every other key kind.
- `AcquireLockAsync` has no implementation here; it is assumed to be set-if-absent.
- `ICardRepository` declares a two-parameter `DepositAsync`, but the handler passes a fee; the three-parameter form in `CardRepository.cs` is modelled.
- The unit tests for `FundsWithdrawnEventHandler` and `TransactionAuthorizedEventHandler` expect the sender's lock to be released. The handlers do not do this, and the model follows the handlers: after a successful transfer the sender's lock stays held (`Saga.Transfer`).
- Transactions.TransactionStore.UpdateStatus: `UpdatedAt` is a non-nullable `DateTime`; the model writes `None` for its default value before the first update.
- Authorization.LastAuthorization: ties in creation time are resolved in favour of the entry appended last. The database query leaves the order of ties unspecified.
- Authorization log entries and card logs carry no database id, and `CardAuthorization` is reduced to its `IsActive` flag.
- Authorization.ConsumeCardUpdated: the `AuthorizeCardCommand` it sends is run in place through the mediator, as `AuthorizeCard`, and its outcome is not rethrown. A failing status write is counted as completed only on that path.

## Findings

| source | as written | input that shows it | evidently intended | confidence | as-written member | corrected member |
|---|---|---|---|---|---|---|
| RapidPay.CardManagement/Application/EventHandlers/DepositFundsEventHandler.cs:55-74 | once the deposit is committed, a throwing `TransactionCompleted` publish sends control to the catch, whose `RollbackAsync` on the committed transaction throws, so the failure built with `NeedRefund = !isFundsDeposited` for exactly this case is never published and the transfer record never leaves Withdrawn | a deposit to a known card with a fee set, whose `TransactionCompletedEvent` publish throws | after the commit, skip the rollback and publish the failure without a refund | not executed | Saga.CompletionLostAfterDeposit | CardEvents.ConsumeDepositFundsCorrected |
| RapidPay.CardManagement/Application/EventHandlers/WithdrawFundsEventHandler.cs:59-83 | once the withdrawal is committed, a throwing `FundsWithdrawn` publish sends control to the catch, whose `RollbackAsync` on the committed transaction throws, so the lock is not released and no refund-bearing failure is published: the sender stays debited | a withdrawal the sender can afford, whose `FundsWithdrawnEvent` publish throws | after the commit, skip the rollback, release the lock and publish the refund-bearing failure | not executed | Saga.WithdrawnFundsStranded | CardEvents.ConsumeWithdrawFundsCorrected |
| RapidPay.Transaction/Application/EventHandlers/TransactionAuthorizedEventHandler.cs:35-56 | once the record is committed, a throwing `WithdrawFunds` publish sends control to the catch, whose `RollbackAsync` throws, so no failure is published and the record stays Authorized | a new transfer whose `WithdrawFundsEvent` publish throws | after the commit, skip the rollback and publish the failure | not executed | Saga.AuthorizedRecordStranded | Transactions.ConsumeTransactionAuthorizedCorrected |
| RapidPay.CardManagement/Application/EventHandlers/WithdrawFundsEventHandler.cs:48-59 | `needRefund` is set to true as soon as `WithdrawAsync` succeeds, before the log write and the commit; if either throws, the catch rolls the debit back but still publishes a failure with `NeedRefund = true`, so the saga refunds money that never left the card | a withdrawal of a positive amount the sender can afford, whose `CardTransactionRepository.AddAsync` throws | a refund only when the debit was committed | not executed | Saga.WithdrawLogFailureRefundsUnpaidAmount | CardEvents.ConsumeWithdrawFundsCorrected |
