# Fraud-detection admission pipeline, modelled in Dafny

This project models the transaction admission pipeline of `fraud-detection-service`. A
`processTransaction` call first checks the Redis idempotency cache, then the stored
transactions by business id. For a new transaction it then:

- looks up the customer's daily limit;
- approves iff `currentDailySpent + impact <= dailyMaxAmount`;
- saves the limit (on approval) and the transaction;
- caches the response;
- publishes a `TransactionEvent` to Kafka.

Events Kafka did not acknowledge wait in the outbox table, which `OutboxScheduler` sweeps
oldest first.

The pieces of the model:

- **Processor, as functions.** `FraudProcessing` (`fraud_service.dfy`) gives all three
  revisions of the processor as functions from the stores before a call, plus what the
  environment does during it (`Env`), to the stores after it and the call's result:
  - `ProcessInitial`: service/FraudService.java;
  - `ProcessDbOnly`: service/FraudServiceImpl.java;
  - `ProcessTransaction` and `LatestAsWritten`: service/impl/FraudServiceImpl.java.

  The environment covers store failures, timeouts, Kafka acknowledgement and the clock.
  `Stores` holds the transaction table (business id → row), the limit table (customer id →
  limit), the Redis keyspace, the outbox table, the topic and a log of collaborator calls. The
  call log records the store statements that run (are subscribed), in order, not the Java
  method invocations a Mockito `verify` counts. The two differ in `handleApprovedTransaction`:
  `transactionRepository.save(transaction)` is invoked eagerly as the argument of `.then(...)`,
  but its INSERT runs only after the limit save succeeds, and only then does the log record
  `SaveTransaction`.
- **Processor, as an object.** `FraudServiceObjects.FraudServiceImpl`
  (`fraud_service_impl.dfy`) models `ProcessTransaction`, the latest revision with the
  publish failure absorbed into the outbox: an object whose methods mutate a
  `TransactionEntity`, save through the repositories, and roll the tables back on failure.
  Its `SendTransactionEvent` is the commented-out producer method (send, and stage a FAILED
  outbox row when Kafka does not acknowledge), not the live `sendToKafka`, whose error
  propagates; the as-written flow is the function `LatestAsWritten` only. Each method is
  proved to move the state exactly as the matching function says.
- **Properties.** `FraudProperties` and `FraudRevisions` prove what the processor
  guarantees:
  - the decision rule;
  - spent never exceeds the maximum;
  - a rejection or a duplicate never touches the ledger;
  - a failure leaves the tables unchanged;
  - replay gives the same answer;
  - at-least-once delivery of the event;
  - cache consistency;
  - the test scenarios.
- **Outbox.** `Outbox` (`outbox.dfy`) models the outbox table, `OutboxRepository` and
  `OutboxScheduler`. `ProcessFailedEvents` is a loop proved against the sweep
  specification `Swept`.
- **Supporting modules:**
  - `Idempotency`: the prefixed Redis store;
  - `EnumValidation`: `ValueInEnumValidator`;
  - `ExceptionHandling`: `GlobalExceptionHandler`;
  - `TransactionStatuses`: the status table;
  - `TransactionEntities`: the `isNew` flag.

Decisions the model makes explicit:

- **Whole-call transaction.** `processTransaction` is `@Transactional` and returns a `Mono`, so the
  whole reactive chain runs in one reactive transaction. The tables (transactions, limits,
  outbox rows) keep a call's writes only when the call succeeds. Any error rolls them back,
  which also makes the approve branch's two saves atomic. The Redis SET, the Kafka send, the
  outbox's id sequence and the counter that stands for the transactions' UUID keys are outside
  that transaction and are not undone.
- **Unwrapped read errors.** Read errors of the cache GET and of `findByTransactionId`
  happen before `executeProcessing`, whose `onErrorResume` does the wrapping. So they
  escape unwrapped, and the catch-all handler answers 500 `SYSTEM_ERROR`/"99".
- **The missing publish method.** `sendTransactionEvent`, which the latest revision calls,
  is commented out in `fraud-detection-service/src/main/java/com/jchacon/banking/frauddetection/producer/FraudEventProducer.java:47-55`.
  - `LatestAsWritten` takes the call as a plain Kafka send, whose error `Mono.when`
    propagates.
  - `ProcessTransaction` takes the commented-out body: on a send failure the event is saved
    to the outbox as a FAILED row with `retryCount` 0.
  - The rest of the model uses `ProcessTransaction` (see Findings).
- **Amounts and timeouts.** Amounts are integer cents. The 2 s lookup timeout is
  `limitLookupOk`. The 5 s flow timeout is `withinDeadline`, taken as firing after the
  flow's side effects.
- **Two behaviours of the code that a reader may not expect:**
  - a retried outbox row keeps its `errorMessage`;
  - a builder-built entity starts with `isNew == false`, because Lombok's `@Builder`
    ignores a field initializer without `@Builder.Default`. `isNew()` is still true while
    the id is null.

## Model

| member | source | states |
|---|---|---|
| TransactionStatuses.Name | fraud-detection-service/src/main/java/com/jchacon/banking/frauddetection/model/enums/TransactionStatus.java:6-11 | no contract of its own; NameRoundTrip and FromName state that it names each constant distinctly |
| TransactionStatuses.Description | fraud-detection-service/src/main/java/com/jchacon/banking/frauddetection/model/enums/TransactionStatus.java:7-13 | no contract of its own; RejectionsShareDescription and ApprovedRow/RejectedRow state the descriptions used as status columns |
| TransactionStatuses.ResponseCode | fraud-detection-service/src/main/java/com/jchacon/banking/frauddetection/model/enums/TransactionStatus.java:7-11 | each status's response code is two digits: 00, 51, 34, 96, 14 |
| TransactionStatuses.FromName | fraud-detection-service/src/main/java/com/jchacon/banking/frauddetection/model/enums/TransactionStatus.java:6-11 | valueOf: a constant found by name has that name |
| TransactionStatuses.FromResponseCode | fraud-detection-service/src/main/java/com/jchacon/banking/frauddetection/model/enums/TransactionStatus.java:7-11 | a constant found by code has that code |
| TransactionStatuses.NameRoundTrip | fraud-detection-service/src/main/java/com/jchacon/banking/frauddetection/model/enums/TransactionStatus.java:6-11 | a status is recovered from its enum name (`name()` is injective) |
| TransactionStatuses.ResponseCodeRoundTrip | fraud-detection-service/src/main/java/com/jchacon/banking/frauddetection/model/enums/TransactionStatus.java:7-11 | a status is recovered from its response code |
| TransactionStatuses.ResponseCodesDistinct | fraud-detection-service/src/main/java/com/jchacon/banking/frauddetection/model/enums/TransactionStatus.java:7-11 | the five response codes are pairwise distinct |
| TransactionStatuses.RejectionsShareDescription | fraud-detection-service/src/main/java/com/jchacon/banking/frauddetection/model/enums/TransactionStatus.java:8-11 | both rejection constants are described "REJECTED", with codes "51" and "34" |
| EnumValidation.ToUpper | fraud-detection-service/src/main/java/com/jchacon/banking/frauddetection/validation/ValueInEnumValidator.java:25 | upper-casing keeps the length and maps each character to its upper case |
| EnumValidation.ToUpperIsUpper | fraud-detection-service/src/main/java/com/jchacon/banking/frauddetection/validation/ValueInEnumValidator.java:25 | the upper-cased value has no lower-case letter |
| EnumValidation.ToUpperIdempotent | fraud-detection-service/src/main/java/com/jchacon/banking/frauddetection/validation/ValueInEnumValidator.java:25 | upper-casing twice is upper-casing once |
| EnumValidation.ToUpperFixesUpper | fraud-detection-service/src/main/java/com/jchacon/banking/frauddetection/validation/ValueInEnumValidator.java:25 | a string with no lower-case letter is its own upper case |
| EnumValidation.Accepts | fraud-detection-service/src/main/java/com/jchacon/banking/frauddetection/validation/ValueInEnumValidator.java:20-26 | no contract of its own; AcceptsIffMatchesIgnoringCase and AcceptsIsCaseInsensitive state what it accepts |
| EnumValidation.AcceptsIffMatchesIgnoringCase | fraud-detection-service/src/main/java/com/jchacon/banking/frauddetection/validation/ValueInEnumValidator.java:20-26 | a null value is valid; a non-null one is valid iff it equals, ignoring case, one of the accepted upper-case names |
| EnumValidation.AcceptsIsCaseInsensitive | fraud-detection-service/src/main/java/com/jchacon/banking/frauddetection/validation/ValueInEnumValidator.java:25 | two values equal ignoring case get the same verdict |
| EnumValidation.OperationTypeNamesAreUpper | fraud-detection-service/src/main/java/com/jchacon/banking/frauddetection/model/enums/OperationType.java:6-11 | the accepted operation-type names are their own upper case |
| EnumValidation.DebitAcceptedInAnyCase | fraud-detection-service/src/main/java/com/jchacon/banking/frauddetection/validation/ValueInEnumValidator.java:20-26 | "debit", "DEBIT" and null pass the OperationType check |
| EnumValidation.RefundRejected | fraud-detection-service/src/main/java/com/jchacon/banking/frauddetection/validation/ValueInEnumValidator.java:25 | "refund" fails the OperationType check |
| EnumValidation.CurrencyCheckedIgnoringCase | fraud-detection-service/src/main/java/com/jchacon/banking/frauddetection/model/ProcessTransactionRequestDTO.java:40-42 | "usd" and "Pen" pass the CurrencyType check, "gbp" fails it |
| EnumValidation.ValueInEnumValidator.constructor | fraud-detection-service/src/main/java/com/jchacon/banking/frauddetection/validation/ValueInEnumValidator.java:10 | the accepted list starts null |
| EnumValidation.ValueInEnumValidator.Initialize | fraud-detection-service/src/main/java/com/jchacon/banking/frauddetection/validation/ValueInEnumValidator.java:12-18 | the accepted list becomes exactly the enum constant names |
| EnumValidation.ValueInEnumValidator.IsValid | fraud-detection-service/src/main/java/com/jchacon/banking/frauddetection/validation/ValueInEnumValidator.java:20-26 | null is valid; otherwise valid iff the upper-cased value is in the accepted list |
| ExceptionHandling.HandleException | fraud-detection-service/src/main/java/com/jchacon/banking/frauddetection/controller/GlobalExceptionHandler.java:22-75 | business → 400, the status's name and code (both recoverable) and the exception's message; technical → 500 "TECHNICAL_ERROR"/"96" with its message; validation → 400 "INVALID_INPUT"/"99" with the joined field errors; a ResponseStatusException keeps its status, gets "HTTP_ERROR_" + the status and its reason, else its message; any other failure → 500 "SYSTEM_ERROR"/"99" with the generic message |
| ExceptionHandling.CodeIdentifiesFailure | fraud-detection-service/src/main/java/com/jchacon/banking/frauddetection/controller/GlobalExceptionHandler.java:22-64 | equal body codes mean the same handler, the same business status, the same framework HTTP status |
| ExceptionHandling.JoinFieldErrors | fraud-detection-service/src/main/java/com/jchacon/banking/frauddetection/controller/GlobalExceptionHandler.java:39-42 | no contract of its own; JoinFieldErrorsAppend states the separator law and HandleException where the details go |
| ExceptionHandling.JoinFieldErrorsAppend | fraud-detection-service/src/main/java/com/jchacon/banking/frauddetection/controller/GlobalExceptionHandler.java:39-42 | the details of two non-empty error lists are joined with exactly one ", " |
| ExceptionHandling.DecimalString | fraud-detection-service/src/main/java/com/jchacon/banking/frauddetection/controller/GlobalExceptionHandler.java:60 | the status value is rendered with at least one digit and digits only |
| ExceptionHandling.ParseDecimalString | fraud-detection-service/src/main/java/com/jchacon/banking/frauddetection/controller/GlobalExceptionHandler.java:60 | the rendered status value reads back as the status value |
| ExceptionHandling.ValidationExample | fraud-detection-service/src/test/java/com/jchacon/banking/frauddetection/controller/TransactionControllerTest.java:78-100 | a validation failure on the amount answers 400 INVALID_INPUT / "99" with "amount: message" |
| ExceptionHandling.NotFoundExample | fraud-detection-service/src/main/java/com/jchacon/banking/frauddetection/controller/GlobalExceptionHandler.java:56-61 | a framework 404 keeps status 404 and gets the code "HTTP_ERROR_404" |
| FraudDomain.MapRequestToEntity | fraud-detection-service/src/main/java/com/jchacon/banking/frauddetection/service/impl/FraudServiceImpl.java:173-190 | the entity holds each of the twelve request fields unchanged and the correlation id, and has no id, status, code or description |
| FraudDomain.DecidedRowKeepsRequest | fraud-detection-service/src/main/java/com/jchacon/banking/frauddetection/service/impl/FraudServiceImpl.java:173-190 | the request read back from the mapped entity, and from the approved or rejected row saved for it, is the request itself; the correlation id survives the decision |
| FraudDomain.MapToResponseDTO | fraud-detection-service/src/main/java/com/jchacon/banking/frauddetection/service/impl/FraudServiceImpl.java:195-204 | no contract of its own; ResponseAndEventAgree states its field copies, and StoredRowIsReturned and NewTransactionIsDecided what it answers |
| FraudDomain.MapToEvent | fraud-detection-service/src/main/java/com/jchacon/banking/frauddetection/service/impl/FraudServiceImpl.java:206-216 | no contract of its own; ResponseAndEventAgree states its field copies, and ApprovedOrRejectedEventIsDelivered what is published |
| FraudDomain.ValidRequestRaisesSpent | fraud-detection-service/src/main/java/com/jchacon/banking/frauddetection/model/ProcessTransactionRequestDTO.java:35-38 | for a request whose amount passed @Positive/@DecimalMin the projected spend is strictly above the current spend, whatever the operation type |
| FraudDomain.ParseOperationType | fraud-detection-service/src/main/java/com/jchacon/banking/frauddetection/service/impl/FraudServiceImpl.java:124 | valueOf succeeds iff the name is one of the four constants, and returns the constant of that name |
| FraudDomain.ParseNameRoundTrip | fraud-detection-service/src/main/java/com/jchacon/banking/frauddetection/model/enums/OperationType.java:6-11 | valueOf(name()) is the constant itself |
| FraudDomain.UpperNameFixed | fraud-detection-service/src/main/java/com/jchacon/banking/frauddetection/service/impl/FraudServiceImpl.java:124 | upper-casing a constant's name leaves it unchanged |
| FraudDomain.ResponseAndEventAgree | fraud-detection-service/src/main/java/com/jchacon/banking/frauddetection/service/impl/FraudServiceImpl.java:195-215 | the response and the event copy transaction id, status and code from the same row; the event also copies customer, amount and correlation id |
| FraudDomain.CalculateLimitImpact | fraud-detection-service/src/main/java/com/jchacon/banking/frauddetection/service/impl/FraudServiceImpl.java:123-136 | an impact exists iff the upper-cased operation type names an OperationType, and it is the amount |
| FraudDomain.ImpactIsAmountForEveryType | fraud-detection-service/src/main/java/com/jchacon/banking/frauddetection/service/impl/FraudServiceImpl.java:123-136 | DEBIT, CREDIT, TRANSFER and CASH_WITHDRAWAL, in any case, all consume exactly the amount |
| FraudDomain.ValidatedOperationTypeHasImpact | fraud-detection-service/src/main/java/com/jchacon/banking/frauddetection/service/FraudServiceImpl.java:100-113 | an operation type that passed @ValueInEnum never makes valueOf throw |
| FraudDomain.Decide | fraud-detection-service/src/main/java/com/jchacon/banking/frauddetection/service/impl/FraudServiceImpl.java:88-94 | projected = spent + impact; reject iff projected > max (strictly) |
| FraudDomain.ExactlyAtMaximumIsApproved | fraud-detection-service/src/main/java/com/jchacon/banking/frauddetection/service/impl/FraudServiceImpl.java:90 | a spend landing exactly on the maximum is approved |
| FraudDomain.ApprovedRow | fraud-detection-service/src/main/java/com/jchacon/banking/frauddetection/service/impl/FraudServiceImpl.java:144-146 | approval sets APPROVED / "00" and its description and changes nothing else |
| FraudDomain.RejectedRow | fraud-detection-service/src/main/java/com/jchacon/banking/frauddetection/service/impl/FraudServiceImpl.java:163-165 | rejection sets REJECTED / "51" and its description and changes nothing else |
| TransactionEntities.TransactionEntity.constructor | fraud-detection-service/src/main/java/com/jchacon/banking/frauddetection/entity/TransactionEntity.java:79-80 | the no-args entity starts with the flag set and every column null |
| TransactionEntities.TransactionEntity.Build | fraud-detection-service/src/main/java/com/jchacon/banking/frauddetection/service/impl/FraudServiceImpl.java:175-189 | the builder's entity has the given columns and the flag cleared |
| TransactionEntities.TransactionEntity.SetAsNotNew | fraud-detection-service/src/main/java/com/jchacon/banking/frauddetection/entity/TransactionEntity.java:90-93 | returns the same object, clears the flag, changes no column, and afterwards isNew() iff the id is null |
| TransactionEntities.IdlessEntityIsNew | fraud-detection-service/src/main/java/com/jchacon/banking/frauddetection/entity/TransactionEntity.java:82-85 | an entity without an id is new |
| TransactionEntities.LoadedEntityNewnessFollowsFlag | fraud-detection-service/src/main/java/com/jchacon/banking/frauddetection/entity/TransactionEntity.java:82-85 | an entity with an id is new iff its flag is set |
| TransactionEntities.NewnessAcrossLifecycle | fraud-detection-service/src/main/java/com/jchacon/banking/frauddetection/entity/TransactionEntity.java:79-93 | built: new; given an id: not new; loaded with an id: new until setAsNotNew |
| Idempotency.CacheKey | fraud-detection-service/src/main/java/com/jchacon/banking/frauddetection/service/impl/IdempotencyServiceImpl.java:27-39 | every key is "idempotency:txn:" followed by the transaction id |
| Idempotency.CacheKeyInjective | fraud-detection-service/src/main/java/com/jchacon/banking/frauddetection/service/impl/IdempotencyServiceImpl.java:27 | distinct transaction ids never share a key |
| Idempotency.DeserializeSerialize | fraud-detection-service/src/main/java/com/jchacon/banking/frauddetection/service/impl/IdempotencyServiceImpl.java:43-53 | a stored response reads back unchanged |
| Idempotency.CachedResponse | fraud-detection-service/src/main/java/com/jchacon/banking/frauddetection/service/impl/IdempotencyServiceImpl.java:38-49 | a response is found iff the key is present and readable, and it is the stored one |
| Idempotency.ReadAfterWrite | fraud-detection-service/src/main/java/com/jchacon/banking/frauddetection/service/impl/IdempotencyServiceImpl.java:52-56 | after markAsProcessed(k, r) lands, getCachedResponse(k) is r |
| Idempotency.MarkTouchesOnlyItsKey | fraud-detection-service/src/main/java/com/jchacon/banking/frauddetection/service/impl/IdempotencyServiceImpl.java:54-55 | markAsProcessed on one id leaves every other id's answer unchanged |
| Idempotency.MalformedIsDuplicateButNotCached | fraud-detection-service/src/main/java/com/jchacon/banking/frauddetection/service/impl/IdempotencyServiceImpl.java:30-48 | a present but unreadable value reads back as absent, so `IsDuplicate` and `GetCachedResponse` disagree |
| Idempotency.IdempotencyServiceImpl.constructor | fraud-detection-service/src/main/java/com/jchacon/banking/frauddetection/service/impl/IdempotencyServiceImpl.java:21 | the service starts on the given keyspace |
| Idempotency.IdempotencyServiceImpl.IsDuplicate | fraud-detection-service/src/main/java/com/jchacon/banking/frauddetection/service/impl/IdempotencyServiceImpl.java:30-35 | true iff the prefixed key is present |
| Idempotency.IdempotencyServiceImpl.GetCachedResponse | fraud-detection-service/src/main/java/com/jchacon/banking/frauddetection/service/impl/IdempotencyServiceImpl.java:38-49 | the response iff the key holds readable JSON, else empty |
| Idempotency.IdempotencyServiceImpl.MarkAsProcessed | fraud-detection-service/src/main/java/com/jchacon/banking/frauddetection/service/impl/IdempotencyServiceImpl.java:52-62 | never fails; when the SET lands the key reads back the response; no other key changes |
| Idempotency.IdempotencyServiceImpl.Expire | fraud-detection-service/src/main/java/com/jchacon/banking/frauddetection/service/impl/IdempotencyServiceImpl.java:55 | the TTL's expiry removes exactly the one key |
| Outbox.StatusNamesDistinct | fraud-detection-service/src/main/java/com/jchacon/banking/frauddetection/model/enums/OutboxEventStatus.java:7-11 | the five status names are distinct |
| Outbox.OnlyFatalCodeDiffersFromName | fraud-detection-service/src/main/java/com/jchacon/banking/frauddetection/model/enums/OutboxEventStatus.java:7-11 | only FATAL_ERROR's code ("FATAL") differs from its name, and the scheduler stores the name |
| Outbox.WithStatus | fraud-detection-service/src/main/java/com/jchacon/banking/frauddetection/config/OutboxScheduler.java:34 | exactly the rows whose status column equals the queried status |
| Outbox.InsertByCreatedAt | fraud-detection-service/src/main/java/com/jchacon/banking/frauddetection/config/OutboxScheduler.java:34 | inserting into a createdAt-sorted list keeps it sorted and adds only the row |
| Outbox.SortByCreatedAt | fraud-detection-service/src/main/java/com/jchacon/banking/frauddetection/config/OutboxScheduler.java:34 | the result is sorted by createdAt |
| Outbox.RemoveId | fraud-detection-service/src/main/java/com/jchacon/banking/frauddetection/config/OutboxScheduler.java:45 | delete keeps exactly the rows with another id |
| Outbox.ReplaceId | fraud-detection-service/src/main/java/com/jchacon/banking/frauddetection/config/OutboxScheduler.java:58 | save of a stored row overwrites the row with its id, position by position, and keeps every other row |
| Outbox.ByStatusOldestFirst | fraud-detection-service/src/main/java/com/jchacon/banking/frauddetection/config/OutboxScheduler.java:34 | the query returns exactly the rows with the status, a permutation of them, sorted by createdAt |
| Outbox.InsertCounts | fraud-detection-service/src/main/java/com/jchacon/banking/frauddetection/config/OutboxScheduler.java:34 | the ordered insert keeps the rows' multiset |
| Outbox.SortCounts | fraud-detection-service/src/main/java/com/jchacon/banking/frauddetection/config/OutboxScheduler.java:34 | sorting by createdAt keeps the rows' multiset |
| Outbox.RemoveIdKeepsUniqueIds | fraud-detection-service/src/main/java/com/jchacon/banking/frauddetection/config/OutboxScheduler.java:45 | deleting by id keeps ids unique and removes exactly that id |
| Outbox.ReplaceIdKeepsUniqueIds | fraud-detection-service/src/main/java/com/jchacon/banking/frauddetection/config/OutboxScheduler.java:58 | saving an existing row keeps ids unique |
| Outbox.Retried | fraud-detection-service/src/main/java/com/jchacon/banking/frauddetection/config/OutboxScheduler.java:50-57 | one more failure counted; FATAL_ERROR at ten or more, status unchanged below; other fields unchanged |
| Outbox.RetryStep | fraud-detection-service/src/main/java/com/jchacon/banking/frauddetection/config/OutboxScheduler.java:39-60 | retryEvent errors exactly when the row was not delivered and the save failed |
| Outbox.DeliveredRowIsDeleted | fraud-detection-service/src/main/java/com/jchacon/banking/frauddetection/config/OutboxScheduler.java:43-45 | a successful resend deletes that row and keeps every other |
| Outbox.FailedRowIsCounted | fraud-detection-service/src/main/java/com/jchacon/banking/frauddetection/config/OutboxScheduler.java:48-58 | a failed resend saves the row with exactly one more failure, keeping every other row |
| Outbox.UnreadablePayloadIsASendFailure | fraud-detection-service/src/main/java/com/jchacon/banking/frauddetection/config/OutboxScheduler.java:40-48 | a payload that does not deserialise takes the send-failure branch |
| Outbox.FailedDeleteKeepsDeliveredRow | fraud-detection-service/src/main/java/com/jchacon/banking/frauddetection/config/OutboxScheduler.java:43-48 | when the delete after an acknowledged send fails, the row is counted as a failure |
| Outbox.TenthFailureIsFatal | fraud-detection-service/src/main/java/com/jchacon/banking/frauddetection/config/OutboxScheduler.java:54-57 | a FAILED row becomes FATAL_ERROR iff its new count reaches ten, else stays FAILED |
| Outbox.HaltedWithin | fraud-detection-service/src/main/java/com/jchacon/banking/frauddetection/config/OutboxScheduler.java:35 | no contract of its own; HaltedSweepStays states that an error ends the sweep |
| Outbox.AttemptedWithin | fraud-detection-service/src/main/java/com/jchacon/banking/frauddetection/config/OutboxScheduler.java:34-35 | no contract of its own; AttemptsFollowBatch and SweptAttemptsOldestFirst state the order of attempts |
| Outbox.TableAfter | fraud-detection-service/src/main/java/com/jchacon/banking/frauddetection/config/OutboxScheduler.java:39-60 | no contract of its own; SweepOnlyCountsFailures, SweepKeepsOtherRows and SweepKeepsUniqueIds state how the table evolves |
| Outbox.Swept | fraud-detection-service/src/main/java/com/jchacon/banking/frauddetection/config/OutboxScheduler.java:32-37 | no contract of its own; the Swept* lemmas and ProcessFailedEvents' ensures state what one sweep does |
| Outbox.HaltedSweepStays | fraud-detection-service/src/main/java/com/jchacon/banking/frauddetection/config/OutboxScheduler.java:35 | once a retry errors, concatMap attempts nothing more |
| Outbox.AttemptsFollowBatch | fraud-detection-service/src/main/java/com/jchacon/banking/frauddetection/config/OutboxScheduler.java:35 | rows are attempted one at a time in query order, all unless a retry errored |
| Outbox.SweepOnlyCountsFailures | fraud-detection-service/src/main/java/com/jchacon/banking/frauddetection/config/OutboxScheduler.java:34-58 | every row after a sweep prefix was there before or is a FAILED row with one more failure |
| Outbox.SweepKeepsOtherRows | fraud-detection-service/src/main/java/com/jchacon/banking/frauddetection/config/OutboxScheduler.java:34 | rows that are not FAILED survive every sweep prefix |
| Outbox.SweepKeepsUniqueIds | fraud-detection-service/src/main/java/com/jchacon/banking/frauddetection/config/OutboxScheduler.java:45-58 | unique ids survive every sweep prefix |
| Outbox.SweptKeepsUniqueIds | fraud-detection-service/src/main/java/com/jchacon/banking/frauddetection/config/OutboxScheduler.java:33-37 | a whole sweep keeps ids unique |
| Outbox.SweptLeavesOtherRows | fraud-detection-service/src/main/java/com/jchacon/banking/frauddetection/config/OutboxScheduler.java:34 | a FATAL_ERROR (or any non-FAILED) row is never picked up again; only FAILED rows are attempted |
| Outbox.SweptRetryCountsGrowByAtMostOne | fraud-detection-service/src/main/java/com/jchacon/banking/frauddetection/config/OutboxScheduler.java:50 | each row's counter grows by at most one per sweep; id, payload and createdAt never change |
| Outbox.SweptKeepsRetriesWithinCeiling | fraud-detection-service/src/main/java/com/jchacon/banking/frauddetection/config/OutboxScheduler.java:54-57 | FAILED rows below ten and FATAL_ERROR rows at ten or more stay so |
| Outbox.SweptAttemptsOldestFirst | fraud-detection-service/src/main/java/com/jchacon/banking/frauddetection/config/OutboxScheduler.java:34-35 | the attempted rows are a prefix of the FAILED rows, oldest first, and all of them unless a save failed |
| Outbox.RetryLosesOnlyDelivered | fraud-detection-service/src/main/java/com/jchacon/banking/frauddetection/config/OutboxScheduler.java:43-58 | one retry removes a row's id from the table only by delivering that row: read, acknowledged and deleted |
| Outbox.SweepLosesOnlyDelivered | fraud-detection-service/src/main/java/com/jchacon/banking/frauddetection/config/OutboxScheduler.java:34-58 | after the first n retries every original id is still in the table, or a retry that ran among them delivered its row |
| Outbox.SweptLosesOnlyDelivered | fraud-detection-service/src/main/java/com/jchacon/banking/frauddetection/config/OutboxScheduler.java:32-58 | a whole sweep drops a row only when a retry that ran read it, had Kafka acknowledge it and deleted it; every other id stays |
| Outbox.DeliveriesRemoveAttempted | fraud-detection-service/src/main/java/com/jchacon/banking/frauddetection/config/OutboxScheduler.java:43-45 | with healthy sends and deletes, each prefix removes exactly the rows attempted |
| Outbox.HealthySweepDrainsOutbox | fraud-detection-service/src/main/java/com/jchacon/banking/frauddetection/config/OutboxScheduler.java:33-47 | with healthy sends and deletes, no FAILED row remains |
| Outbox.OutboxRepository.constructor | fraud-detection-service/src/main/java/com/jchacon/banking/frauddetection/config/OutboxScheduler.java:24 | the repository holds the given table and sequence |
| Outbox.OutboxRepository.FindByStatusOrderByCreatedAtAsc | fraud-detection-service/src/main/java/com/jchacon/banking/frauddetection/config/OutboxScheduler.java:34 | the rows with the status, sorted by createdAt, and only those |
| Outbox.OutboxRepository.Delete | fraud-detection-service/src/main/java/com/jchacon/banking/frauddetection/config/OutboxScheduler.java:45 | the row with the entity's id is removed when the statement succeeds |
| Outbox.OutboxRepository.Save | fraud-detection-service/src/main/java/com/jchacon/banking/frauddetection/config/OutboxScheduler.java:58 | the row with the entity's id is replaced when the statement succeeds |
| Outbox.OutboxRepository.Insert | fraud-detection-service/src/main/java/com/jchacon/banking/frauddetection/producer/FraudEventProducer.java:85-108 | a new row gets the next id and is appended; ids stay unique |
| Outbox.OutboxScheduler.constructor | fraud-detection-service/src/main/java/com/jchacon/banking/frauddetection/config/OutboxScheduler.java:24 | the scheduler works on the given repository |
| Outbox.OutboxScheduler.RetryEvent | fraud-detection-service/src/main/java/com/jchacon/banking/frauddetection/config/OutboxScheduler.java:39-60 | the table moves as RetryStep says, and is unchanged when the Mono errors |
| Outbox.OutboxScheduler.ProcessFailedEvents | fraud-detection-service/src/main/java/com/jchacon/banking/frauddetection/config/OutboxScheduler.java:32-37 | the table and the rows attempted are exactly those of the sweep Swept |
| FraudProcessing.ProcessTransaction | fraud-detection-service/src/main/java/com/jchacon/banking/frauddetection/service/impl/FraudServiceImpl.java:46-61 | no contract of its own; CachedResponseIsReturned, StoredRowIsReturned, NewTransactionIsDecided, FailureLeavesTables, KeepsWithinLimits, TransactionsAreWriteOnce, ReplayReturnsFirstAnswer and LostPublishIsStaged specify it |
| FraudProcessing.LatestAsWritten | fraud-detection-service/src/main/java/com/jchacon/banking/frauddetection/service/impl/FraudServiceImpl.java:79-118 | no contract of its own; LostPublishCachesUnrecordedDecision states what the as-written publish step does |
| FraudProcessing.ProcessInitial | fraud-detection-service/src/main/java/com/jchacon/banking/frauddetection/service/FraudService.java:35-80 | no contract of its own; the Initial* lemmas specify it |
| FraudProcessing.ProcessDbOnly | fraud-detection-service/src/main/java/com/jchacon/banking/frauddetection/service/FraudServiceImpl.java:40-95 | no contract of its own; the Second* lemmas specify it |
| FraudProcessing.ExecuteProcessing | fraud-detection-service/src/main/java/com/jchacon/banking/frauddetection/service/impl/FraudServiceImpl.java:79-118 | no contract of its own; ExecutionEffects and CacheStaysConsistent specify it, and FraudServiceObjects.FraudServiceImpl.ExecuteProcessing is proved to compute it |
| FraudProcessing.Evaluate | fraud-detection-service/src/main/java/com/jchacon/banking/frauddetection/service/impl/FraudServiceImpl.java:83-95 | no contract of its own; EvaluateDecides, EvaluateFailures, EvaluateChargesWithinMaximum, EvaluateKeepsWithinLimits and EvaluateSavesOneRow specify it |
| FraudProcessing.FetchFromDbAndMap | fraud-detection-service/src/main/java/com/jchacon/banking/frauddetection/service/impl/FraudServiceImpl.java:66-73 | no contract of its own; StoredRowIsReturned and SecondStoredRowIsReturned specify it |
| FraudProcessing.ResolveCachedThenStored | fraud-detection-service/src/main/java/com/jchacon/banking/frauddetection/service/impl/FraudServiceImpl.java:55-60 | no contract of its own; CachedResponseIsReturned, StoredRowIsReturned and DuplicateNeverReachesLedger specify it |
| FraudProcessing.HandleApprovedTransaction | fraud-detection-service/src/main/java/com/jchacon/banking/frauddetection/service/impl/FraudServiceImpl.java:138-158 | no contract of its own; ApprovalSavesLimitFirst and EvaluateDecides specify it |
| FraudProcessing.HandleRejectedTransaction | fraud-detection-service/src/main/java/com/jchacon/banking/frauddetection/service/impl/FraudServiceImpl.java:160-168 | no contract of its own; RejectionSavesOnlyTransaction and RejectionNeverSavesLimit specify it |
| FraudProcessing.InsertTransaction | fraud-detection-service/src/main/java/com/jchacon/banking/frauddetection/service/impl/FraudServiceImpl.java:152-167 | no contract of its own; EvaluateSavesOneRow and TransactionsAreWriteOnce specify it |
| FraudProcessing.Send | fraud-detection-service/src/main/java/com/jchacon/banking/frauddetection/producer/FraudEventProducer.java:36-42 | no contract of its own; SecondAnswersOnlyAfterPublish and ApprovedOrRejectedEventIsDelivered state what reaches the topic |
| FraudProcessing.Cache | fraud-detection-service/src/main/java/com/jchacon/banking/frauddetection/service/impl/FraudServiceImpl.java:100-102 | no contract of its own; CacheStaysConsistent and ReplayReturnsFirstAnswer state what the SET leaves in Redis |
| FraudProcessing.SendOrStage | fraud-detection-service/src/main/java/com/jchacon/banking/frauddetection/producer/FraudEventProducer.java:47-55 | no contract of its own; ApprovedOrRejectedEventIsDelivered and LostPublishIsStaged specify it |
| FraudProcessing.Delivered | fraud-detection-service/src/main/java/com/jchacon/banking/frauddetection/producer/FraudEventProducer.java:47-55 | no contract of its own; the publish step fails only when neither Kafka nor the outbox took the event, as ExecuteProcessing's result uses it |
| FraudProcessing.Finish | fraud-detection-service/src/main/java/com/jchacon/banking/frauddetection/service/impl/FraudServiceImpl.java:46 | on success the tables keep the call's writes; on failure they are restored; cache, topic and log stay |
| FraudProcessing.StagedRow | fraud-detection-service/src/main/java/com/jchacon/banking/frauddetection/producer/FraudEventProducer.java:85-96 | the staged row is FAILED with no retries yet and carries the event |
| FraudProperties.EvaluateDecides | fraud-detection-service/src/main/java/com/jchacon/banking/frauddetection/service/impl/FraudServiceImpl.java:83-95 | with the stores answering, REJECTED/"51" iff projected > max, APPROVED/"00" otherwise; the limit is charged only on approval; the row is saved with the next id |
| FraudProperties.EvaluateFailures | fraud-detection-service/src/main/java/com/jchacon/banking/frauddetection/service/impl/FraudServiceImpl.java:109-117 | evaluation fails only with the business or the technical error; the business error exactly when the lookup found no limit |
| FraudProperties.ApprovalSavesLimitFirst | fraud-detection-service/src/main/java/com/jchacon/banking/frauddetection/service/impl/FraudServiceImpl.java:149-155 | on approval: find the limit, save it with spent = projected, then save the transaction |
| FraudProperties.RejectionSavesOnlyTransaction | fraud-detection-service/src/main/java/com/jchacon/banking/frauddetection/service/impl/FraudServiceImpl.java:160-168 | on rejection only the transaction is saved and the limits are unchanged |
| FraudProperties.EvaluateChargesWithinMaximum | fraud-detection-service/src/main/java/com/jchacon/banking/frauddetection/service/impl/FraudServiceImpl.java:88-95 | evaluation changes the limits only by charging the customer within the maximum, and never with a non-APPROVED row |
| FraudProperties.EvaluateKeepsWithinLimits | fraud-detection-service/src/main/java/com/jchacon/banking/frauddetection/service/impl/FraudServiceImpl.java:88-95 | spent ≤ max for every customer survives evaluation |
| FraudProperties.EvaluateSavesOneRow | fraud-detection-service/src/main/java/com/jchacon/banking/frauddetection/service/impl/FraudServiceImpl.java:155-167 | a successful evaluation adds exactly one row under the request's transaction id |
| FraudProperties.CachedResponseIsReturned | fraud-detection-service/src/main/java/com/jchacon/banking/frauddetection/service/impl/FraudServiceImpl.java:55-60 | a cache hit is returned as is, with only the cache consulted |
| FraudProperties.StoredRowIsReturned | fraud-detection-service/src/main/java/com/jchacon/banking/frauddetection/service/impl/FraudServiceImpl.java:58-72 | on a miss, a stored row is mapped and returned, and the limits are never read |
| FraudProperties.DuplicateNeverReachesLedger | fraud-detection-service/src/main/java/com/jchacon/banking/frauddetection/service/impl/FraudServiceImpl.java:55-60 | a duplicate id changes no table, cache or topic and never calls findById on the limit |
| FraudProperties.FailureLeavesTables | fraud-detection-service/src/main/java/com/jchacon/banking/frauddetection/service/impl/FraudServiceImpl.java:46 | a failed call leaves transactions, limits and outbox as they were |
| FraudProperties.LedgerChangesOnlyOnApproval | fraud-detection-service/src/main/java/com/jchacon/banking/frauddetection/service/impl/FraudServiceImpl.java:85-95 | the limits change only in a call answering APPROVED/"00", only by charging that customer with the amount, within the maximum |
| FraudProperties.KeepsWithinLimits | fraud-detection-service/src/main/java/com/jchacon/banking/frauddetection/service/impl/FraudServiceImpl.java:47-118 | spent ≤ max for every customer is an invariant of processTransaction |
| FraudProperties.TransactionsAreWriteOnce | fraud-detection-service/src/main/java/com/jchacon/banking/frauddetection/service/impl/FraudServiceImpl.java:47-118 | stored rows never change and only the request's id is added |
| FraudProperties.NewTransactionIsDecided | fraud-detection-service/src/main/java/com/jchacon/banking/frauddetection/service/impl/FraudServiceImpl.java:79-118 | a new, validated transaction answers REJECTED/"51" iff spent + amount > max, else APPROVED/"00" with spent charged; the answer is the stored row |
| FraudProperties.MissingCustomerIsRejected | fraud-detection-service/src/main/java/com/jchacon/banking/frauddetection/service/impl/FraudServiceImpl.java:109-112 | no limit row gives BusinessException(CUSTOMER_NOT_FOUND) and no writes |
| FraudProperties.LookupTimeoutIsTechnical | fraud-detection-service/src/main/java/com/jchacon/banking/frauddetection/service/impl/FraudServiceImpl.java:84 | a lookup timeout gives the TechnicalException and no writes |
| FraudProperties.FailuresAreClassified | fraud-detection-service/src/main/java/com/jchacon/banking/frauddetection/service/impl/FraudServiceImpl.java:55-117 | failures are a store read error (exactly when a read before processing failed), the missing customer, or the technical error |
| FraudProperties.FailuresAsHttp | fraud-detection-service/src/main/java/com/jchacon/banking/frauddetection/controller/GlobalExceptionHandler.java:22-64 | those failures answer 500 SYSTEM_ERROR/"99", 500 TECHNICAL_ERROR/"96", 400 CUSTOMER_NOT_FOUND/"14" |
| FraudProperties.ApprovedOrRejectedEventIsDelivered | fraud-detection-service/src/main/java/com/jchacon/banking/frauddetection/producer/FraudEventProducer.java:47-55 | a new transaction answered Ok has its row stored and its event sent to the topic by this call or staged by it as a new FAILED outbox row |
| FraudProperties.CacheStaysConsistent | fraud-detection-service/src/main/java/com/jchacon/banking/frauddetection/service/impl/FraudServiceImpl.java:97-106 | every cached response is the mapping of its stored row, after any call that succeeds or leaves the cache alone; only a late technical failure breaks it |
| FraudProperties.ExecutionEffects | fraud-detection-service/src/main/java/com/jchacon/banking/frauddetection/service/impl/FraudServiceImpl.java:97-106 | after a successful save only the SET and the publish follow; a failed save ends the flow |
| FraudProperties.ReplayReturnsFirstAnswer | fraud-detection-service/src/main/java/com/jchacon/banking/frauddetection/service/impl/FraudServiceImpl.java:55-60 | replaying a request answered Ok gets the same answer and changes no table |
| FraudProperties.ApprovesWithinLimit | fraud-detection-service/src/test/java/com/jchacon/banking/frauddetection/service/FraudServiceImplTest.java:67-88 | 100.00 on 0.00 of 500.00 is APPROVED/"00" and spent becomes 100.00 |
| FraudProperties.RejectionNeverSavesLimit | fraud-detection-service/src/main/java/com/jchacon/banking/frauddetection/service/impl/FraudServiceImpl.java:160-168 | a rejected new transaction never saves a limit, whatever happens after the decision |
| FraudProperties.RejectsOverLimit | fraud-detection-service/src/test/java/com/jchacon/banking/frauddetection/service/FraudServiceImplTest.java:90-112 | 100.00 on 450.00 of 500.00 is REJECTED/"51" and the limit is never saved |
| FraudProperties.StoredTransactionShortCircuits | fraud-detection-service/src/test/java/com/jchacon/banking/frauddetection/service/FraudServiceImplTest.java:114-134 | a stored TXN-100 is returned and the limit is never looked up |
| FraudProperties.LostPublishCachesUnrecordedDecision | fraud-detection-service/src/main/java/com/jchacon/banking/frauddetection/service/impl/FraudServiceImpl.java:100-105 | as written, a lost publish fails the call and rolls the row back, yet the decision is cached and a retry is answered with it |
| FraudProperties.LostPublishIsStaged | fraud-detection-service/src/main/java/com/jchacon/banking/frauddetection/service/impl/FraudServiceImpl.java:100-105 | with the failure absorbed, the call answers its decision, keeps its row, stages the event and keeps the cache consistent |
| FraudRevisions.InitialStoredRowIsReturned | fraud-detection-service/src/main/java/com/jchacon/banking/frauddetection/service/FraudService.java:41-51 | a stored row is returned with only findByTransactionId called |
| FraudRevisions.InitialDecides | fraud-detection-service/src/main/java/com/jchacon/banking/frauddetection/service/FraudService.java:58-112 | REJECTED/"51" iff spent + amount > max, else APPROVED/"00" with spent = spent + amount, for any operation type |
| FraudRevisions.InitialFailures | fraud-detection-service/src/main/java/com/jchacon/banking/frauddetection/service/FraudService.java:71-79 | no cache, topic or outbox effect; failures leave the tables; the business error exactly when the limit is missing |
| FraudRevisions.InitialKeepsWithinLimits | fraud-detection-service/src/main/java/com/jchacon/banking/frauddetection/service/FraudService.java:63-68 | spent ≤ max survives every call |
| FraudRevisions.SecondStoredRowIsReturned | fraud-detection-service/src/main/java/com/jchacon/banking/frauddetection/service/FraudServiceImpl.java:47-56 | a stored row is returned with only findByTransactionId called |
| FraudRevisions.SecondDecidesAndPublishes | fraud-detection-service/src/main/java/com/jchacon/banking/frauddetection/service/FraudServiceImpl.java:63-95 | the decision iff as above, and the event is on the topic when the response is produced |
| FraudRevisions.SecondAnswersOnlyAfterPublish | fraud-detection-service/src/main/java/com/jchacon/banking/frauddetection/service/FraudServiceImpl.java:80-94 | Ok implies the event was published; a lost publish gives an error and no table change |
| FraudRevisions.SecondKeepsWithinLimits | fraud-detection-service/src/main/java/com/jchacon/banking/frauddetection/service/FraudServiceImpl.java:70-77 | spent ≤ max survives every call |
| FraudServiceObjects.FraudServiceImpl.constructor | fraud-detection-service/src/main/java/com/jchacon/banking/frauddetection/service/impl/FraudServiceImpl.java:31-38 | the service is wired to the given stores |
| FraudServiceObjects.FraudServiceImpl.ProcessTransaction | fraud-detection-service/src/main/java/com/jchacon/banking/frauddetection/service/impl/FraudServiceImpl.java:46-61 | the new state and the result are exactly those of FraudProcessing.ProcessTransaction |
| FraudServiceObjects.FraudServiceImpl.FetchFromDbAndMap | fraud-detection-service/src/main/java/com/jchacon/banking/frauddetection/service/impl/FraudServiceImpl.java:66-73 | answers or proceeds exactly as FraudProcessing.FetchFromDbAndMap |
| FraudServiceObjects.FraudServiceImpl.ExecuteProcessing | fraud-detection-service/src/main/java/com/jchacon/banking/frauddetection/service/impl/FraudServiceImpl.java:79-118 | state and result exactly as FraudProcessing.ExecuteProcessing; the outbox stays valid |
| FraudServiceObjects.FraudServiceImpl.CheckLimit | fraud-detection-service/src/main/java/com/jchacon/banking/frauddetection/service/impl/FraudServiceImpl.java:83-95 | state and saved row exactly as FraudProcessing.Evaluate with the entity's impact |
| FraudServiceObjects.FraudServiceImpl.HandleApprovedTransaction | fraud-detection-service/src/main/java/com/jchacon/banking/frauddetection/service/impl/FraudServiceImpl.java:138-158 | the entity becomes the saved APPROVED row; state as FraudProcessing.HandleApprovedTransaction |
| FraudServiceObjects.FraudServiceImpl.HandleRejectedTransaction | fraud-detection-service/src/main/java/com/jchacon/banking/frauddetection/service/impl/FraudServiceImpl.java:160-168 | the entity becomes the saved REJECTED row; state as FraudProcessing.HandleRejectedTransaction |
| FraudServiceObjects.FraudServiceImpl.Save | fraud-detection-service/src/main/java/com/jchacon/banking/frauddetection/service/impl/FraudServiceImpl.java:155 | the INSERT gives the entity the next id; state as FraudProcessing.InsertTransaction |
| FraudServiceObjects.FraudServiceImpl.SendTransactionEvent | fraud-detection-service/src/main/java/com/jchacon/banking/frauddetection/producer/FraudEventProducer.java:47-55 | state exactly as FraudProcessing.SendOrStage; the outbox stays valid |

## Left out

- Kafka delivery itself is left out. The producer's retries with backoff and jitter are
  timing behaviour, so a send is an oracle (`Env.published`, `Attempt.sendOk`). The
  record key and the topic name are not modelled.
- The Reactor timeouts (2 s, 5 s) and the `@Scheduled` interval are environment flags, not
  clocks. The model does not say which side effects happened before a deadline fires; it
  takes all of them as done.
- Concurrent requests on one limit row, and concurrent sweeps, are left out; the model is
  sequential.
- Jackson is an abstract round-tripping pair. A value is either readable JSON or
  `Malformed`/`Unreadable`; serialisation of a response or of an event never fails.
- Timestamps (`createdAt` on the response, the event's timestamp, `updatedAt`) and
  BigDecimal scale are left out. Amounts are integer cents.
- `toUpperCase` is modelled on ASCII letters only, without locale-specific or Unicode case
  mapping.
- `ChannelType`/`CurrencyType` beyond their names, the other request annotations, the
  controller, security, tracing, the notification service, and the repository interfaces
  (they are maps here) are left out.
- `HttpStatus.valueOf` throwing for an unknown status code is not modelled; any code is
  kept as is.
- The order of outbox rows with equal `createdAt` is the table order; the database
  guarantees no particular order for ties.
- A transaction row's key is a UUID the database generates (`TransactionEntity.id`). The model
  draws it from the counter `nextSurrogate`, so distinct inserts get distinct keys, and takes no
  other property of UUIDs. That counter and the outbox's `Long` id sequence are not rolled
  back with the transaction.
- The two older revisions are modelled as functions only. Their handlers' mutations are the
  same as those of the latest revision's object model.
- Outbox.OutboxScheduler.RetryEvent: the row's `errorMessage` is not updated on a retry,
  because the code does not update it.
- FraudProcessing.SendOrStage: the serialisation of the event in `saveToOutbox` is taken to
  succeed. When `writeValueAsString` throws, the commented-out body resumes with an empty
  Mono, so the call answers Ok while the event is neither sent nor staged. That silent drop is
  not modelled, and FraudProperties.ApprovedOrRejectedEventIsDelivered holds only without it.
- FraudProperties.CacheStaysConsistent is stated only for calls that succeed or leave the
  cache alone. A call that fails after its SET has landed (a lost publish, or the deadline)
  leaves the cache ahead of the rolled-back ledger.

## Findings

| source | as written | input that shows it | evidently intended | confidence | as-written member | corrected member |
|---|---|---|---|---|---|---|
| fraud-detection-service/src/main/java/com/jchacon/banking/frauddetection/service/impl/FraudServiceImpl.java:100-105 | `Mono.when(markAsProcessed, sendTransactionEvent)` propagates a publish error. It becomes a TechnicalException, and the transaction's rows are rolled back. The SET of the approved response has already landed in Redis. | a new transaction, every store answering, Kafka not acknowledging, the SET landing. The call fails with 500 TECHNICAL_ERROR and nothing is recorded or charged. A retry of the same request gets the cached APPROVED response from Redis. | a Kafka failure has no effect on the client's response: the event goes to the outbox and the decision stands (the comment at line 105 and the commented-out `sendTransactionEvent`) | not executed | FraudProperties.LostPublishCachesUnrecordedDecision (over FraudProcessing.LatestAsWritten) | FraudProperties.LostPublishIsStaged (over FraudProcessing.ProcessTransaction) |
