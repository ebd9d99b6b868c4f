/**
 * The transaction processor of the three revisions, as functions from the stores before one
 * processTransaction call (and what the environment does during it) to the stores after it and
 * the call's result.
 *
 * The database tables (transactions, customer limits, outbox rows) take part in the
 * @Transactional scope of processTransaction: they keep the call's writes only when it
 * succeeds. The Redis cache, the Kafka topic and the id counters are outside that scope.
 */
module FraudProcessing {
  import opened Wrappers
  import opened TransactionStatuses
  import opened FraudDomain
  import opened ExceptionHandling
  import Idempotency
  import Outbox

  /** The interactions with the collaborators, in the order they happen (what a test verifies on its mocks). */
  datatype Call =
    | CacheGet(transactionId: string)
    | FindTransaction(transactionId: string)
    | FindLimit(customerId: string)
    | SaveLimit(limit: CustomerLimit)
    | SaveTransaction(row: TransactionRow)
    | CacheSet(transactionId: string)
    | Publish(event: TransactionEvent)
    | OutboxInsert(transactionId: string)

  /**
   * What the environment does during one call: which store operations answer, whether the
   * limit lookup beats its 2 s timeout, whether Kafka acknowledges the event (after the
   * producer's own retries), whether the whole flow beats its 5 s timeout, the broker's error
   * message and the clock.
   */
  datatype Env = Env(
    cacheReadOk: bool,
    dbReadOk: bool,
    limitLookupOk: bool,
    limitSaveOk: bool,
    txnSaveOk: bool,
    cacheWriteLands: bool,
    published: bool,
    publishError: string,
    outboxSaveOk: bool,
    withinDeadline: bool,
    now: int)

  /**
   * Everything the processor reads or writes: the transactions by business id, the customer
   * limits by customer id, the counter the UUID keys are drawn from, the Redis keyspace, the
   * outbox table with its next id, the events Kafka acknowledged, and the call log.
   */
  datatype Stores = Stores(
    transactions: map<string, TransactionRow>,
    limits: map<string, CustomerLimit>,
    nextSurrogate: nat,
    cache: map<string, Idempotency.CachedValue>,
    outbox: seq<Outbox.OutboxRow>,
    nextOutboxId: nat,
    topic: seq<TransactionEvent>,
    calls: seq<Call>)

  const TechnicalMessage: string := "Service temporarily unavailable due to System issues"
  const CustomerNotFoundMessage: string := "Customer not found in system"

  /** The TechnicalException every non-business failure inside executeProcessing becomes. */
  const TechnicalError: Failure := TechnicalFailure(TechnicalMessage)

  /** The BusinessException for a customer without a limit row. */
  const CustomerMissing: Failure := BusinessFailure(CustomerNotFound, CustomerNotFoundMessage)

  /** A Redis or database read error before executeProcessing: it escapes unwrapped. */
  const StoreUnavailable: Failure := UnexpectedFailure("store unavailable")

  datatype Outcome = Outcome(stores: Stores, result: Result<Response, Failure>)

  function Record(s: Stores, c: Call): Stores {
    s.(calls := s.calls + [c])
  }

  /** The transaction manager's rollback: the tables as they were; cache, topic, id counters and log as they are. */
  function RolledBack(before: Stores, s: Stores): Stores {
    s.(transactions := before.transactions, limits := before.limits, outbox := before.outbox)
  }

  /** The end of processTransaction: commit on success, roll back on failure. */
  function Finish(before: Stores, s: Stores, result: Result<Response, Failure>): (o: Outcome)
    ensures o.result == result
    ensures result.Ok? ==> o.stores == s
    ensures result.Err? ==> (o.stores.transactions == before.transactions && o.stores.limits == before.limits &&
                             o.stores.outbox == before.outbox)
    ensures o.stores.cache == s.cache && o.stores.topic == s.topic && o.stores.calls == s.calls
  {
    if result.Ok? then Outcome(s, result) else Outcome(RolledBack(before, s), result)
  }

  /** The stores after executeProcessing's saves, and the saved row or the failure. */
  datatype Saved = Saved(stores: Stores, row: Result<TransactionRow, Failure>)

  /** transactionRepository.save of a new entity: an INSERT that assigns the next surrogate id. */
  function InsertTransaction(s: Stores, row: TransactionRow, env: Env): Saved {
    var s1 := Record(s, SaveTransaction(row));
    if !env.txnSaveOk then Saved(s1, Err(TechnicalError))
    else
      var saved := row.(id := Some(s.nextSurrogate));
      Saved(s1.(transactions := s1.transactions[row.transactionId := saved], nextSurrogate := s.nextSurrogate + 1), Ok(saved))
  }

  /** handleRejectedTransaction: REJECTED / "51" on the entity, and only the transaction is saved. */
  function HandleRejectedTransaction(s: Stores, entity: TransactionRow, env: Env): Saved {
    InsertTransaction(s, RejectedRow(entity), env)
  }

  /** handleApprovedTransaction: APPROVED / "00" on the entity, spent := projected, then save the limit and the transaction. */
  function HandleApprovedTransaction(s: Stores, entity: TransactionRow, limit: CustomerLimit, projected: int, env: Env): Saved {
    var charged := limit.(currentDailySpent := projected);
    var s1 := Record(s, SaveLimit(charged));
    if !env.limitSaveOk then Saved(s1, Err(TechnicalError))
    else InsertTransaction(s1.(limits := s1.limits[entity.customerId := charged]), ApprovedRow(entity), env)
  }

  /**
   * The evaluation all revisions share: findById on the customer's limit, then the decision on
   * projected = spent + impact and the matching handler. `impact` is None where valueOf on
   * the operation type throws.
   */
  function Evaluate(s: Stores, entity: TransactionRow, impact: Option<int>, env: Env): Saved {
    var s1 := Record(s, FindLimit(entity.customerId));
    if !env.limitLookupOk then Saved(s1, Err(TechnicalError))
    else if entity.customerId !in s.limits then Saved(s1, Err(CustomerMissing))
    else if impact.None? then Saved(s1, Err(TechnicalError))
    else
      var limit := s.limits[entity.customerId];
      match Decide(limit, impact.value)
      case Reject(_) => HandleRejectedTransaction(s1, entity, env)
      case Approve(projected) => HandleApprovedTransaction(s1, entity, limit, projected, env)
  }

  /** How an idempotency check ends: with the call's outcome, or by letting processing go ahead. */
  datatype Resolution = Answered(outcome: Outcome) | Proceed(stores: Stores)

  /** findByTransactionId: a stored row for the same business id is mapped and returned. */
  function FetchFromDbAndMap(s: Stores, transactionId: string, env: Env): Resolution {
    var s1 := Record(s, FindTransaction(transactionId));
    if !env.dbReadOk then Answered(Outcome(s1, Err(StoreUnavailable)))
    else if transactionId in s.transactions then Answered(Outcome(s1, Ok(MapToResponseDTO(s.transactions[transactionId]))))
    else Proceed(s1)
  }

  /** getCachedResponse, then findByTransactionId on a miss. */
  function ResolveCachedThenStored(s: Stores, transactionId: string, env: Env): Resolution {
    var s1 := Record(s, CacheGet(transactionId));
    if !env.cacheReadOk then Answered(Outcome(s1, Err(StoreUnavailable)))
    else
      match Idempotency.CachedResponse(s.cache, transactionId)
      case Some(cached) => Answered(Outcome(s1, Ok(cached)))
      case None => FetchFromDbAndMap(s1, transactionId, env)
  }

  /** Turns the saved row into the call's result without a publish step. */
  function Answer(saved: Saved): Result<Response, Failure> {
    match saved.row
    case Ok(row) => Ok(MapToResponseDTO(row))
    case Err(f) => Err(f)
  }

  /** service/FraudService.java: database idempotency, the limit check on the amount itself, no publish. */
  function ProcessInitial(s: Stores, request: ProcessTransactionRequest, correlationId: string, env: Env): Outcome {
    match FetchFromDbAndMap(s, request.transactionId, env)
    case Answered(o) => o
    case Proceed(s1) =>
      var entity := MapRequestToEntity(request, correlationId);
      var saved := Evaluate(s1, entity, Some(entity.amount), env);
      Finish(s, saved.stores, Answer(saved))
  }

  /** Acknowledged events reach the topic. */
  function Send(s: Stores, event: TransactionEvent, env: Env): Stores {
    var s1 := Record(s, Publish(event));
    if env.published then s1.(topic := s1.topic + [event]) else s1
  }

  /**
   * service/FraudServiceImpl.java: database idempotency, the impact switch, and the event sent
   * before the response; a failed send is not a BusinessException, so it becomes a
   * TechnicalException, as does the 5 s timeout.
   */
  function ProcessDbOnly(s: Stores, request: ProcessTransactionRequest, correlationId: string, env: Env): Outcome {
    match FetchFromDbAndMap(s, request.transactionId, env)
    case Answered(o) => o
    case Proceed(s1) =>
      var entity := MapRequestToEntity(request, correlationId);
      var saved := Evaluate(s1, entity, CalculateLimitImpact(entity), env);
      if saved.row.Err? then Finish(s, saved.stores, Err(saved.row.error))
      else
        var row := saved.row.value;
        var s2 := Send(saved.stores, MapToEvent(row), env);
        Finish(s, s2, if env.published && env.withinDeadline then Ok(MapToResponseDTO(row)) else Err(TechnicalError))
  }

  /** markAsProcessed inside Mono.when: the SET lands or is swallowed. */
  function Cache(s: Stores, row: TransactionRow, response: Response, env: Env): Stores {
    Record(s, CacheSet(row.transactionId)).(cache := Idempotency.MarkedStore(s.cache, row.transactionId, response, env.cacheWriteLands))
  }

  /**
   * service/impl/FraudServiceImpl.java as written: cache, then database, then evaluation; after
   * the saves, Mono.when(markAsProcessed, publish) propagates a publish failure, which becomes a
   * TechnicalException.
   */
  function LatestAsWritten(s: Stores, request: ProcessTransactionRequest, correlationId: string, env: Env): Outcome {
    match ResolveCachedThenStored(s, request.transactionId, env)
    case Answered(o) => o
    case Proceed(s1) =>
      var entity := MapRequestToEntity(request, correlationId);
      var saved := Evaluate(s1, entity, CalculateLimitImpact(entity), env);
      if saved.row.Err? then Finish(s, saved.stores, Err(saved.row.error))
      else
        var row := saved.row.value;
        var response := MapToResponseDTO(row);
        var s2 := Send(Cache(saved.stores, row, response, env), MapToEvent(row), env);
        Finish(s, s2, if env.published && env.withinDeadline then Ok(response) else Err(TechnicalError))
  }

  /** The outbox row staged for an event Kafka did not acknowledge: FAILED, no retries yet. */
  function StagedRow(id: nat, event: TransactionEvent, env: Env): (row: Outbox.OutboxRow)
    ensures row.status == Outbox.StatusName(Outbox.Failed) && row.retryCount == 0
    ensures Outbox.Deserialize(row.payload) == Some(event) && row.transactionId == event.transactionId
  {
    Outbox.OutboxRow(id, event.transactionId, Outbox.Serialized(event), Outbox.StatusName(Outbox.Failed), env.publishError, 0, env.now)
  }

  /**
   * The publish step as the producer's sendTransactionEvent intends it: an event Kafka did not
   * acknowledge is saved to the outbox instead.
   */
  function SendOrStage(s: Stores, event: TransactionEvent, env: Env): Stores {
    var s1 := Send(s, event, env);
    if env.published then s1
    else
      var s2 := Record(s1, OutboxInsert(event.transactionId));
      if !env.outboxSaveOk then s2
      else s2.(outbox := s2.outbox + [StagedRow(s2.nextOutboxId, event, env)], nextOutboxId := s2.nextOutboxId + 1)
  }

  /** The publish step fails only when the event reached neither Kafka nor the outbox. */
  predicate Delivered(env: Env) {
    env.published || env.outboxSaveOk
  }

  /**
   * executeProcessing with the publish failure absorbed into the outbox, before the transaction
   * manager commits or rolls back.
   */
  function ExecuteProcessing(s: Stores, request: ProcessTransactionRequest, correlationId: string, env: Env): Outcome {
    var entity := MapRequestToEntity(request, correlationId);
    var saved := Evaluate(s, entity, CalculateLimitImpact(entity), env);
    if saved.row.Err? then Outcome(saved.stores, Err(saved.row.error))
    else
      var row := saved.row.value;
      var response := MapToResponseDTO(row);
      var s1 := SendOrStage(Cache(saved.stores, row, response, env), MapToEvent(row), env);
      Outcome(s1, if Delivered(env) && env.withinDeadline then Ok(response) else Err(TechnicalError))
  }

  /** service/impl/FraudServiceImpl.java with the publish failure absorbed into the outbox. */
  function ProcessTransaction(s: Stores, request: ProcessTransactionRequest, correlationId: string, env: Env): Outcome {
    match ResolveCachedThenStored(s, request.transactionId, env)
    case Answered(o) => o
    case Proceed(s1) =>
      var o := ExecuteProcessing(s1, request, correlationId, env);
      Finish(s, o.stores, o.result)
  }
}
