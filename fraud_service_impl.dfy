/**
 * service/impl/FraudServiceImpl.java as an object over its collaborators: the transaction and
 * limit tables, the counter standing for the UUID keys, the topic and the call log are fields;
 * the Redis cache and the outbox table are the idempotency service and the outbox repository.
 * Each method is proved to move the state exactly as the functions in FraudProcessing say
 * (with the publish failure absorbed into the outbox).
 */
module FraudServiceObjects {
  import opened Wrappers
  import opened TransactionStatuses
  import opened FraudDomain
  import opened ExceptionHandling
  import opened FraudProcessing
  import opened TransactionEntities
  import Idempotency
  import Outbox

  class FraudServiceImpl {
    var transactions: map<string, TransactionRow>
    var limits: map<string, CustomerLimit>
    var nextSurrogate: nat
    var topic: seq<TransactionEvent>
    var calls: seq<Call>
    const idempotency: Idempotency.IdempotencyServiceImpl
    const outbox: Outbox.OutboxRepository

    /** Everything the processor reads or writes, as one value. */
    function State(): Stores
      reads this, idempotency, outbox
    {
      Stores(transactions, limits, nextSurrogate, idempotency.store, outbox.rows, outbox.nextId, topic, calls)
    }

    ghost predicate Valid()
      reads this, outbox
    {
      outbox.Valid()
    }

    constructor (initial: Stores, idempotency: Idempotency.IdempotencyServiceImpl, outbox: Outbox.OutboxRepository)
      requires idempotency.store == initial.cache
      requires outbox.Valid() && outbox.rows == initial.outbox && outbox.nextId == initial.nextOutboxId
      ensures this.idempotency == idempotency && this.outbox == outbox
      ensures State() == initial && Valid()
    {
      transactions := initial.transactions;
      limits := initial.limits;
      nextSurrogate := initial.nextSurrogate;
      topic := initial.topic;
      calls := initial.calls;
      this.idempotency := idempotency;
      this.outbox := outbox;
    }

    /**
     * processTransaction: the cache, then the stored rows, then executeProcessing; the tables
     * keep the writes only when the call succeeds.
     */
    method ProcessTransaction(request: ProcessTransactionRequest, correlationId: string, env: Env)
      returns (result: Result<Response, Failure>)
      requires Valid()
      modifies this, idempotency, outbox
      ensures Valid()
      ensures State() == FraudProcessing.ProcessTransaction(old(State()), request, correlationId, env).stores
      ensures result == FraudProcessing.ProcessTransaction(old(State()), request, correlationId, env).result
    {
      var transactionId := request.transactionId;
      calls := calls + [CacheGet(transactionId)];
      if !env.cacheReadOk {
        return Err(StoreUnavailable);
      }
      var cached := idempotency.GetCachedResponse(transactionId);
      if cached.Some? {
        return Ok(cached.value);
      }
      var stored := FetchFromDbAndMap(transactionId, env);
      if stored.Some? {
        return stored.value;
      }
      var committed, limitsBefore, outboxBefore := transactions, limits, outbox.rows;
      result := ExecuteProcessing(request, correlationId, env);
      if result.Err? {
        transactions, limits, outbox.rows := committed, limitsBefore, outboxBefore;
      }
    }

    /** fetchFromDbAndMap: the mapped stored row, a read failure, or None to go ahead. */
    method FetchFromDbAndMap(transactionId: string, env: Env) returns (answer: Option<Result<Response, Failure>>)
      modifies this
      ensures var r := FraudProcessing.FetchFromDbAndMap(old(State()), transactionId, env);
        (answer.Some? <==> r.Answered?) &&
        (r.Answered? ==> State() == r.outcome.stores && answer.value == r.outcome.result) &&
        (r.Proceed? ==> State() == r.stores)
    {
      calls := calls + [FindTransaction(transactionId)];
      if !env.dbReadOk {
        return Some(Err(StoreUnavailable));
      }
      if transactionId in transactions {
        return Some(Ok(MapToResponseDTO(transactions[transactionId])));
      }
      return None;
    }

    /**
     * executeProcessing: look the limit up, decide, save through the matching handler, then
     * cache the response and publish (or stage) the event.
     */
    method ExecuteProcessing(request: ProcessTransactionRequest, correlationId: string, env: Env)
      returns (result: Result<Response, Failure>)
      requires Valid()
      modifies this, idempotency, outbox
      ensures Valid() && outbox.nextId >= old(outbox.nextId)
      ensures State() == FraudProcessing.ExecuteProcessing(old(State()), request, correlationId, env).stores
      ensures result == FraudProcessing.ExecuteProcessing(old(State()), request, correlationId, env).result
    {
      var transaction := new TransactionEntity.Build(MapRequestToEntity(request, correlationId));
      var saved := CheckLimit(transaction, env);
      if saved.Err? {
        return Err(saved.error);
      }
      var row := saved.value;
      var response := MapToResponseDTO(row);
      calls := calls + [CacheSet(row.transactionId)];
      idempotency.MarkAsProcessed(row.transactionId, response, env.cacheWriteLands);
      SendTransactionEvent(MapToEvent(row), env);
      result := if Delivered(env) && env.withinDeadline then Ok(response) else Err(TechnicalError);
    }

    /**
     * executeProcessing up to the saved entity: findById on the limit, the impact, the decision
     * on projected = spent + impact and the matching handler.
     */
    method CheckLimit(transaction: TransactionEntity, env: Env) returns (saved: Result<TransactionRow, Failure>)
      modifies this, transaction
      ensures var r := Evaluate(old(State()), old(transaction.Columns()), CalculateLimitImpact(old(transaction.Columns())), env);
        State() == r.stores && saved == r.row
    {
      calls := calls + [FindLimit(transaction.customerId)];
      if !env.limitLookupOk {
        return Err(TechnicalError);
      }
      if transaction.customerId !in limits {
        return Err(CustomerMissing);
      }
      var limit := limits[transaction.customerId];
      var impact := CalculateLimitImpact(transaction.Columns());
      if impact.None? {
        return Err(TechnicalError);
      }
      var projected := limit.currentDailySpent + impact.value;
      if projected > limit.dailyMaxAmount {
        saved := HandleRejectedTransaction(transaction, env);
      } else {
        saved := HandleApprovedTransaction(transaction, limit, projected, env);
      }
    }

    /** handleApprovedTransaction: mark the entity APPROVED, charge the limit, save the limit, then the transaction. */
    method HandleApprovedTransaction(transaction: TransactionEntity, limit: CustomerLimit, projected: int, env: Env)
      returns (saved: Result<TransactionRow, Failure>)
      modifies this, transaction
      ensures var r := FraudProcessing.HandleApprovedTransaction(old(State()), old(transaction.Columns()), limit, projected, env);
        State() == r.stores && saved == r.row
      ensures saved.Ok? ==> transaction.Columns() == saved.value
    {
      transaction.status := Description(Approved);
      transaction.responseCode := ResponseCode(Approved);
      transaction.description := ApprovedDescription;
      var charged := limit.(currentDailySpent := projected);
      calls := calls + [SaveLimit(charged)];
      if !env.limitSaveOk {
        return Err(TechnicalError);
      }
      limits := limits[transaction.customerId := charged];
      saved := Save(transaction, env);
    }

    /** handleRejectedTransaction: mark the entity REJECTED and save only the transaction. */
    method HandleRejectedTransaction(transaction: TransactionEntity, env: Env) returns (saved: Result<TransactionRow, Failure>)
      modifies this, transaction
      ensures var r := FraudProcessing.HandleRejectedTransaction(old(State()), old(transaction.Columns()), env);
        State() == r.stores && saved == r.row
      ensures saved.Ok? ==> transaction.Columns() == saved.value
    {
      transaction.status := Description(RejectedLimit);
      transaction.responseCode := ResponseCode(RejectedLimit);
      transaction.description := RejectedDescription;
      saved := Save(transaction, env);
    }

    /** transactionRepository.save of a new entity: the INSERT assigns the next id to the entity. */
    method Save(transaction: TransactionEntity, env: Env) returns (saved: Result<TransactionRow, Failure>)
      modifies this, transaction
      ensures var r := InsertTransaction(old(State()), old(transaction.Columns()), env);
        State() == r.stores && saved == r.row
      ensures saved.Ok? ==> transaction.Columns() == saved.value
    {
      calls := calls + [SaveTransaction(transaction.Columns())];
      if !env.txnSaveOk {
        return Err(TechnicalError);
      }
      transaction.id := Some(nextSurrogate);
      transactions := transactions[transaction.transactionId := transaction.Columns()];
      nextSurrogate := nextSurrogate + 1;
      saved := Ok(transaction.Columns());
    }

    /** The publish step: Kafka, or a FAILED outbox row when Kafka does not acknowledge. */
    method SendTransactionEvent(event: TransactionEvent, env: Env)
      requires Valid()
      modifies this, outbox
      ensures Valid() && outbox.nextId >= old(outbox.nextId)
      ensures State() == SendOrStage(old(State()), event, env)
    {
      calls := calls + [Publish(event)];
      if env.published {
        topic := topic + [event];
        return;
      }
      calls := calls + [OutboxInsert(event.transactionId)];
      var staged := outbox.Insert(StagedRow(outbox.nextId, event, env), env.outboxSaveOk);
    }
  }
}
