/**
 * What the processor guarantees, proved over the three revisions' specifications.
 */
module FraudProperties {
  import opened Wrappers
  import opened TransactionStatuses
  import opened FraudDomain
  import opened ExceptionHandling
  import opened FraudProcessing
  import Idempotency
  import Outbox
  import EnumValidation

  /** Every customer's spent is within the daily maximum. */
  predicate WithinLimits(limits: map<string, CustomerLimit>) {
    forall c :: c in limits ==> limits[c].currentDailySpent <= limits[c].dailyMaxAmount
  }

  /** The limit row of `customerId` charged with `impact`. */
  function Charged(limits: map<string, CustomerLimit>, customerId: string, impact: int): map<string, CustomerLimit>
    requires customerId in limits
  {
    limits[customerId := limits[customerId].(currentDailySpent := limits[customerId].currentDailySpent + impact)]
  }

  // ---- The shared evaluation step ----

  /**
   * With the stores answering, evaluation decides strictly on projected = spent + impact: it
   * records REJECTED / "51" and leaves the limits alone when projected exceeds the maximum, and
   * otherwise records APPROVED / "00" and sets the customer's spent to projected.
   */
  lemma EvaluateDecides(s: Stores, entity: TransactionRow, impact: int, env: Env)
    requires env.limitLookupOk && env.limitSaveOk && env.txnSaveOk
    requires entity.customerId in s.limits
    ensures var saved := Evaluate(s, entity, Some(impact), env);
      var limit := s.limits[entity.customerId];
      var rejected := limit.currentDailySpent + impact > limit.dailyMaxAmount;
      saved.row.Ok? &&
      saved.row.value.id == Some(s.nextSurrogate) &&
      (saved.row.value.status == "REJECTED" <==> rejected) &&
      (saved.row.value.status == "APPROVED" <==> !rejected) &&
      saved.row.value.responseCode == (if rejected then "51" else "00") &&
      saved.row.value == (if rejected then RejectedRow(entity) else ApprovedRow(entity)).(id := Some(s.nextSurrogate)) &&
      saved.stores.limits == (if rejected then s.limits else Charged(s.limits, entity.customerId, impact)) &&
      saved.stores.transactions == s.transactions[entity.transactionId := saved.row.value]
  {
  }

  /**
   * Evaluation fails with the business error exactly when the lookup answered and found no
   * limit row; every other failure is the technical error.
   */
  lemma EvaluateFailures(s: Stores, entity: TransactionRow, impact: Option<int>, env: Env)
    ensures var saved := Evaluate(s, entity, impact, env);
      saved.row.Err? ==> saved.row.error in {CustomerMissing, TechnicalError}
    ensures var saved := Evaluate(s, entity, impact, env);
      saved.row == Err(CustomerMissing) <==> env.limitLookupOk && entity.customerId !in s.limits
  {
  }

  /** On approval the limit is saved before the transaction. */
  lemma ApprovalSavesLimitFirst(s: Stores, entity: TransactionRow, impact: int, env: Env)
    requires env.limitLookupOk && env.limitSaveOk && env.txnSaveOk
    requires entity.customerId in s.limits
    requires s.limits[entity.customerId].currentDailySpent + impact <= s.limits[entity.customerId].dailyMaxAmount
    ensures var limit := s.limits[entity.customerId];
      Evaluate(s, entity, Some(impact), env).stores.calls ==
        s.calls + [FindLimit(entity.customerId), SaveLimit(limit.(currentDailySpent := limit.currentDailySpent + impact)),
                   SaveTransaction(ApprovedRow(entity))]
  {
  }

  /** On rejection only the transaction is saved. */
  lemma RejectionSavesOnlyTransaction(s: Stores, entity: TransactionRow, impact: int, env: Env)
    requires env.limitLookupOk
    requires entity.customerId in s.limits
    requires s.limits[entity.customerId].currentDailySpent + impact > s.limits[entity.customerId].dailyMaxAmount
    ensures Evaluate(s, entity, Some(impact), env).stores.calls ==
      s.calls + [FindLimit(entity.customerId), SaveTransaction(RejectedRow(entity))]
    ensures Evaluate(s, entity, Some(impact), env).stores.limits == s.limits
  {
  }

  /**
   * Evaluation changes the limits only by charging the entity's customer with the impact, only
   * when the charge stays within the maximum, and never while saving a row other than APPROVED.
   */
  lemma EvaluateChargesWithinMaximum(s: Stores, entity: TransactionRow, impact: Option<int>, env: Env)
    ensures var saved := Evaluate(s, entity, impact, env);
      saved.stores.limits == s.limits ||
      (impact.Some? && entity.customerId in s.limits &&
       saved.stores.limits == Charged(s.limits, entity.customerId, impact.value) &&
       s.limits[entity.customerId].currentDailySpent + impact.value <= s.limits[entity.customerId].dailyMaxAmount &&
       (saved.row.Ok? ==> saved.row.value.status == "APPROVED" && saved.row.value.responseCode == "00"))
  {
  }

  /** So the ledger invariant survives evaluation. */
  lemma EvaluateKeepsWithinLimits(s: Stores, entity: TransactionRow, impact: Option<int>, env: Env)
    requires WithinLimits(s.limits)
    ensures WithinLimits(Evaluate(s, entity, impact, env).stores.limits)
  {
    EvaluateChargesWithinMaximum(s, entity, impact, env);
  }

  // ---- service/impl/FraudServiceImpl.java (publish failures staged in the outbox) ----

  /** The request's transaction id is neither cached nor stored, and both lookups answered. */
  predicate IsNewTransaction(s: Stores, transactionId: string, env: Env) {
    env.cacheReadOk && Idempotency.CachedResponse(s.cache, transactionId).None? &&
    env.dbReadOk && transactionId !in s.transactions
  }

  /** A cached response is returned as it is; neither the transactions nor the limits are consulted. */
  lemma CachedResponseIsReturned(s: Stores, request: ProcessTransactionRequest, correlationId: string, env: Env, cached: Response)
    requires env.cacheReadOk && Idempotency.CachedResponse(s.cache, request.transactionId) == Some(cached)
    ensures ProcessTransaction(s, request, correlationId, env) == Outcome(Record(s, CacheGet(request.transactionId)), Ok(cached))
  {
  }

  /** On a cache miss a stored row for the same id is mapped and returned, and the limits are never read. */
  lemma StoredRowIsReturned(s: Stores, request: ProcessTransactionRequest, correlationId: string, env: Env)
    requires env.cacheReadOk && Idempotency.CachedResponse(s.cache, request.transactionId).None?
    requires env.dbReadOk && request.transactionId in s.transactions
    ensures var out := ProcessTransaction(s, request, correlationId, env);
      out.result == Ok(MapToResponseDTO(s.transactions[request.transactionId])) &&
      out.stores == s.(calls := s.calls + [CacheGet(request.transactionId), FindTransaction(request.transactionId)])
  {
  }

  /** A duplicate id never reaches the ledger: nothing is written and the limit store is never read. */
  lemma DuplicateNeverReachesLedger(s: Stores, request: ProcessTransactionRequest, correlationId: string, env: Env)
    requires request.transactionId in s.transactions
    ensures var out := ProcessTransaction(s, request, correlationId, env);
      out.stores.transactions == s.transactions && out.stores.limits == s.limits && out.stores.outbox == s.outbox &&
      out.stores.cache == s.cache && out.stores.topic == s.topic &&
      out.stores.calls[..|s.calls|] == s.calls && |out.stores.calls| <= |s.calls| + 2 &&
      forall i :: |s.calls| <= i < |out.stores.calls| ==> !out.stores.calls[i].FindLimit?
  {
  }

  /** A failed call leaves every table as it was. */
  lemma FailureLeavesTables(s: Stores, request: ProcessTransactionRequest, correlationId: string, env: Env)
    ensures var out := ProcessTransaction(s, request, correlationId, env);
      out.result.Err? ==> out.stores.transactions == s.transactions && out.stores.limits == s.limits && out.stores.outbox == s.outbox
  {
  }

  /**
   * The ledger changes only by charging the request's customer with the request's amount, and
   * only in a call that answers APPROVED; so a rejection, a duplicate or a failure never touches
   * it, and a call never pushes spent above the maximum.
   */
  lemma LedgerChangesOnlyOnApproval(s: Stores, request: ProcessTransactionRequest, correlationId: string, env: Env)
    ensures var out := ProcessTransaction(s, request, correlationId, env);
      out.stores.limits == s.limits ||
      (out.result.Ok? && out.result.value.status == "APPROVED" && out.result.value.responseCode == "00" &&
       request.customerId in s.limits &&
       out.stores.limits == Charged(s.limits, request.customerId, request.amount) &&
       out.stores.limits[request.customerId].currentDailySpent <= out.stores.limits[request.customerId].dailyMaxAmount)
  {
    match ResolveCachedThenStored(s, request.transactionId, env)
    case Answered(o) =>
    case Proceed(s1) =>
      var entity := MapRequestToEntity(request, correlationId);
      EvaluateChargesWithinMaximum(s1, entity, CalculateLimitImpact(entity), env);
  }

  lemma KeepsWithinLimits(s: Stores, request: ProcessTransactionRequest, correlationId: string, env: Env)
    requires WithinLimits(s.limits)
    ensures WithinLimits(ProcessTransaction(s, request, correlationId, env).stores.limits)
  {
    LedgerChangesOnlyOnApproval(s, request, correlationId, env);
  }

  /** Transaction rows are written once: existing rows never change and only the request's id is added. */
  lemma TransactionsAreWriteOnce(s: Stores, request: ProcessTransactionRequest, correlationId: string, env: Env)
    ensures var out := ProcessTransaction(s, request, correlationId, env);
      (forall k :: k in s.transactions ==> k in out.stores.transactions && out.stores.transactions[k] == s.transactions[k]) &&
      (forall k :: k in out.stores.transactions ==> k in s.transactions || k == request.transactionId)
  {
  }

  /**
   * A new transaction with every store answering, a customer on file and an operation type
   * that passed validation is decided strictly on projected = spent + amount: REJECTED / "51"
   * with the limits unchanged when projected exceeds the maximum, APPROVED / "00" with spent
   * set to projected otherwise; the response carries the new surrogate id and the stored row.
   */
  lemma NewTransactionIsDecided(s: Stores, request: ProcessTransactionRequest, correlationId: string, env: Env)
    requires IsNewTransaction(s, request.transactionId, env)
    requires env.limitLookupOk && env.limitSaveOk && env.txnSaveOk && Delivered(env) && env.withinDeadline
    requires request.customerId in s.limits
    requires EnumValidation.Accepts(EnumValidation.OperationTypeNames, Some(request.operationType))
    ensures var out := ProcessTransaction(s, request, correlationId, env);
      var limit := s.limits[request.customerId];
      var rejected := limit.currentDailySpent + request.amount > limit.dailyMaxAmount;
      out.result.Ok? &&
      (out.result.value.status == "REJECTED" <==> rejected) &&
      (out.result.value.status == "APPROVED" <==> !rejected) &&
      out.result.value.responseCode == (if rejected then "51" else "00") &&
      out.result.value.id == Some(s.nextSurrogate) &&
      request.transactionId in out.stores.transactions &&
      out.result.value == MapToResponseDTO(out.stores.transactions[request.transactionId]) &&
      out.stores.limits == (if rejected then s.limits else Charged(s.limits, request.customerId, request.amount))
  {
    var s1 := s.(calls := s.calls + [CacheGet(request.transactionId), FindTransaction(request.transactionId)]);
    assert ResolveCachedThenStored(s, request.transactionId, env) == Proceed(s1);
    var entity := MapRequestToEntity(request, correlationId);
    ValidatedOperationTypeHasImpact(entity);
    EvaluateDecides(s1, entity, request.amount, env);
  }

  /** A new transaction whose customer has no limit row fails with the business error and writes nothing. */
  lemma MissingCustomerIsRejected(s: Stores, request: ProcessTransactionRequest, correlationId: string, env: Env)
    requires IsNewTransaction(s, request.transactionId, env)
    requires env.limitLookupOk && request.customerId !in s.limits
    ensures var out := ProcessTransaction(s, request, correlationId, env);
      out.result == Err(CustomerMissing) &&
      out.stores.transactions == s.transactions && out.stores.limits == s.limits && out.stores.outbox == s.outbox &&
      out.stores.cache == s.cache && out.stores.topic == s.topic
  {
  }

  /** A new transaction whose limit lookup times out fails with the technical error. */
  lemma LookupTimeoutIsTechnical(s: Stores, request: ProcessTransactionRequest, correlationId: string, env: Env)
    requires IsNewTransaction(s, request.transactionId, env)
    requires !env.limitLookupOk
    ensures var out := ProcessTransaction(s, request, correlationId, env);
      out.result == Err(TechnicalError) && out.stores.transactions == s.transactions && out.stores.limits == s.limits
  {
  }

  /** The failures a call can end with: a store read, the missing customer, or the technical error. */
  lemma FailuresAreClassified(s: Stores, request: ProcessTransactionRequest, correlationId: string, env: Env)
    ensures var out := ProcessTransaction(s, request, correlationId, env);
      out.result.Err? ==> out.result.error in {StoreUnavailable, CustomerMissing, TechnicalError}
    ensures var out := ProcessTransaction(s, request, correlationId, env);
      out.result == Err(StoreUnavailable) <==> !env.cacheReadOk || (Idempotency.CachedResponse(s.cache, request.transactionId).None? && !env.dbReadOk)
  {
    match ResolveCachedThenStored(s, request.transactionId, env)
    case Answered(o) =>
    case Proceed(s1) =>
      var entity := MapRequestToEntity(request, correlationId);
      EvaluateFailures(s1, entity, CalculateLimitImpact(entity), env);
  }

  /** How GlobalExceptionHandler renders each of those failures. */
  lemma FailuresAsHttp()
    ensures HandleException(StoreUnavailable) == ErrorResponse(500, "SYSTEM_ERROR", GenericMessage, "99")
    ensures HandleException(TechnicalError) == ErrorResponse(500, "TECHNICAL_ERROR", TechnicalMessage, "96")
    ensures HandleException(CustomerMissing) == ErrorResponse(400, "CUSTOMER_NOT_FOUND", CustomerNotFoundMessage, "14")
  {
  }

  /**
   * The event a saved row is published as reached Kafka during this call, or this call staged it
   * in the outbox for the scheduler. Only what the call added counts, so an equal event left by an
   * earlier call does not.
   */
  predicate EventDelivered(before: Stores, out: Stores, event: TransactionEvent) {
    (|before.topic| <= |out.topic| && event in out.topic[|before.topic|..]) ||
    exists i :: |before.outbox| <= i < |out.outbox| &&
      out.outbox[i].status == Outbox.StatusName(Outbox.Failed) && out.outbox[i].retryCount == 0 &&
      Outbox.Deserialize(out.outbox[i].payload) == Some(event)
  }

  /**
   * At-least-once: a new transaction answered Ok has its row saved and that row's event either
   * acknowledged by Kafka or staged as a FAILED outbox row with no retries yet.
   */
  lemma ApprovedOrRejectedEventIsDelivered(s: Stores, request: ProcessTransactionRequest, correlationId: string, env: Env)
    requires IsNewTransaction(s, request.transactionId, env)
    ensures var out := ProcessTransaction(s, request, correlationId, env);
      out.result.Ok? ==>
        request.transactionId in out.stores.transactions &&
        out.result.value == MapToResponseDTO(out.stores.transactions[request.transactionId]) &&
        EventDelivered(s, out.stores, MapToEvent(out.stores.transactions[request.transactionId]))
  {
    var out := ProcessTransaction(s, request, correlationId, env);
    var s1 := s.(calls := s.calls + [CacheGet(request.transactionId), FindTransaction(request.transactionId)]);
    assert ResolveCachedThenStored(s, request.transactionId, env) == Proceed(s1);
    var entity := MapRequestToEntity(request, correlationId);
    var saved := Evaluate(s1, entity, CalculateLimitImpact(entity), env);
    if out.result.Ok? {
      var row := saved.row.value;
      var s2 := Cache(saved.stores, row, MapToResponseDTO(row), env);
      if !env.published {
        var s3 := Record(Send(s2, MapToEvent(row), env), OutboxInsert(row.transactionId));
        var staged := StagedRow(s3.nextOutboxId, MapToEvent(row), env);
        assert out.stores.outbox[|s3.outbox|] == staged;
      }
    }
  }

  /** Every response in the cache is the mapping of the stored row with the same transaction id. */
  ghost predicate CacheConsistent(s: Stores) {
    forall transactionId {:trigger Idempotency.CachedResponse(s.cache, transactionId)} ::
      Idempotency.CachedResponse(s.cache, transactionId).Some? ==>
        transactionId in s.transactions &&
        Idempotency.CachedResponse(s.cache, transactionId).value == MapToResponseDTO(s.transactions[transactionId])
  }

  /** A successful evaluation adds exactly the entity's row, under its transaction id. */
  lemma EvaluateSavesOneRow(s: Stores, entity: TransactionRow, impact: Option<int>, env: Env)
    ensures var saved := Evaluate(s, entity, impact, env);
      saved.row.Ok? ==>
        saved.row.value.transactionId == entity.transactionId &&
        saved.stores.transactions == s.transactions[entity.transactionId := saved.row.value]
  {
  }

  /**
   * A call keeps the cache consistent with the transactions whenever it succeeds or leaves the
   * cache alone; the cache changes in a failed call only when the failure is the technical error
   * raised after the saves (a lost publish or the deadline), with the SET already landed.
   */
  lemma CacheStaysConsistent(s: Stores, request: ProcessTransactionRequest, correlationId: string, env: Env)
    requires CacheConsistent(s)
    ensures var out := ProcessTransaction(s, request, correlationId, env);
      out.result.Ok? || out.stores.cache == s.cache ==> CacheConsistent(out.stores)
    ensures var out := ProcessTransaction(s, request, correlationId, env);
      out.result.Err? && out.stores.cache != s.cache ==>
        out.result.error == TechnicalError && !(Delivered(env) && env.withinDeadline) && env.cacheWriteLands
  {
    var tid := request.transactionId;
    var out := ProcessTransaction(s, request, correlationId, env);
    match ResolveCachedThenStored(s, tid, env)
    case Answered(o) =>
    case Proceed(s1) =>
      var entity := MapRequestToEntity(request, correlationId);
      var saved := Evaluate(s1, entity, CalculateLimitImpact(entity), env);
      var o := ExecuteProcessing(s1, request, correlationId, env);
      assert out == Finish(s, o.stores, o.result);
      EvaluateSavesOneRow(s1, entity, CalculateLimitImpact(entity), env);
      ExecutionEffects(s1, request, correlationId, env);
      if saved.row.Ok? {
        var row := saved.row.value;
        var response := MapToResponseDTO(row);
        if out.result.Ok? || out.stores.cache == s.cache {
          forall t | Idempotency.CachedResponse(out.stores.cache, t).Some?
            ensures t in out.stores.transactions &&
              Idempotency.CachedResponse(out.stores.cache, t).value == MapToResponseDTO(out.stores.transactions[t])
          {
            if t == tid {
              if env.cacheWriteLands {
                Idempotency.ReadAfterWrite(s.cache, tid, response);
              }
            } else {
              Idempotency.MarkTouchesOnlyItsKey(s.cache, tid, response, env.cacheWriteLands, t);
            }
          }
        }
      }
  }

  /** What executeProcessing does after a successful evaluation, and that a failed one ends it. */
  lemma ExecutionEffects(s: Stores, request: ProcessTransactionRequest, correlationId: string, env: Env)
    ensures var entity := MapRequestToEntity(request, correlationId);
      var saved := Evaluate(s, entity, CalculateLimitImpact(entity), env);
      var o := ExecuteProcessing(s, request, correlationId, env);
      saved.stores.cache == s.cache && saved.stores.topic == s.topic && saved.stores.outbox == s.outbox &&
      (saved.row.Err? ==> o == Outcome(saved.stores, Err(saved.row.error))) &&
      (saved.row.Ok? ==>
        o.stores.transactions == saved.stores.transactions && o.stores.limits == saved.stores.limits &&
        o.stores.cache == Idempotency.MarkedStore(s.cache, request.transactionId, MapToResponseDTO(saved.row.value), env.cacheWriteLands) &&
        o.result == (if Delivered(env) && env.withinDeadline then Ok(MapToResponseDTO(saved.row.value)) else Err(TechnicalError)))
  {
  }

  /**
   * Replaying a request that was answered Ok returns the same answer (from the cache when the
   * SET landed, from the stored row otherwise) and changes no table.
   */
  lemma ReplayReturnsFirstAnswer(s: Stores, request: ProcessTransactionRequest, correlationId: string, env: Env,
                                 replayCorrelationId: string, replayEnv: Env)
    requires IsNewTransaction(s, request.transactionId, env)
    requires replayEnv.cacheReadOk && replayEnv.dbReadOk
    ensures var first := ProcessTransaction(s, request, correlationId, env);
      var replay := ProcessTransaction(first.stores, request, replayCorrelationId, replayEnv);
      first.result.Ok? ==>
        replay.result == first.result &&
        replay.stores.transactions == first.stores.transactions && replay.stores.limits == first.stores.limits &&
        replay.stores.outbox == first.stores.outbox && replay.stores.topic == first.stores.topic
  {
    var tid := request.transactionId;
    var first := ProcessTransaction(s, request, correlationId, env);
    var s1 := s.(calls := s.calls + [CacheGet(tid), FindTransaction(tid)]);
    assert ResolveCachedThenStored(s, tid, env) == Proceed(s1);
    var entity := MapRequestToEntity(request, correlationId);
    var saved := Evaluate(s1, entity, CalculateLimitImpact(entity), env);
    EvaluateSavesOneRow(s1, entity, CalculateLimitImpact(entity), env);
    if first.result.Ok? {
      var response := MapToResponseDTO(saved.row.value);
      assert first.stores.cache == Idempotency.MarkedStore(s.cache, tid, response, env.cacheWriteLands);
      if env.cacheWriteLands {
        Idempotency.ReadAfterWrite(s.cache, tid, response);
      }
      DuplicateNeverReachesLedger(first.stores, request, replayCorrelationId, replayEnv);
    }
  }

  // ---- The service tests' scenarios, with amounts in cents ----

  function Request(transactionId: string, customerId: string, amount: int, operationType: string): ProcessTransactionRequest {
    ProcessTransactionRequest(transactionId, "ACC-1", customerId, amount, "USD", operationType, "M-1", "Shop", "5411", "T-1", "10.0.0.1", "POS")
  }

  /** Every store answers and Kafka acknowledges. */
  const Healthy: Env := Env(true, true, true, true, true, true, true, "", true, true, 0)

  function Fresh(limits: map<string, CustomerLimit>): Stores {
    Stores(map[], limits, 1, map[], [], 1, [], [])
  }

  /** 100.00 against 0.00 spent of 500.00: APPROVED / "00" and spent becomes 100.00. */
  lemma ApprovesWithinLimit()
    ensures var out := ProcessTransaction(Fresh(map["CUST-777" := CustomerLimit("CUST-777", 50000, 0)]),
                                          Request("TXN-100", "CUST-777", 10000, "DEBIT"), "corr-1", Healthy);
      out.result.Ok? && out.result.value.status == "APPROVED" && out.result.value.responseCode == "00" &&
      out.stores.limits["CUST-777"].currentDailySpent == 10000
  {
    EnumValidation.DebitAcceptedInAnyCase();
    NewTransactionIsDecided(Fresh(map["CUST-777" := CustomerLimit("CUST-777", 50000, 0)]),
                            Request("TXN-100", "CUST-777", 10000, "DEBIT"), "corr-1", Healthy);
  }

  /** A rejected new transaction never saves a limit, whatever happens after the decision. */
  lemma RejectionNeverSavesLimit(s: Stores, request: ProcessTransactionRequest, correlationId: string, env: Env)
    requires IsNewTransaction(s, request.transactionId, env)
    requires env.limitLookupOk && request.customerId in s.limits
    requires EnumValidation.Accepts(EnumValidation.OperationTypeNames, Some(request.operationType))
    requires s.limits[request.customerId].currentDailySpent + request.amount > s.limits[request.customerId].dailyMaxAmount
    ensures var out := ProcessTransaction(s, request, correlationId, env);
      out.stores.limits == s.limits && out.stores.calls[..|s.calls|] == s.calls &&
      forall i :: |s.calls| <= i < |out.stores.calls| ==> !out.stores.calls[i].SaveLimit?
  {
    var tid := request.transactionId;
    var s1 := s.(calls := s.calls + [CacheGet(tid), FindTransaction(tid)]);
    assert ResolveCachedThenStored(s, tid, env) == Proceed(s1);
    var entity := MapRequestToEntity(request, correlationId);
    ValidatedOperationTypeHasImpact(entity);
    RejectionSavesOnlyTransaction(s1, entity, request.amount, env);
  }

  /** 100.00 against 450.00 spent of 500.00: REJECTED / "51" and the limit is never saved. */
  lemma RejectsOverLimit()
    ensures var s := Fresh(map["CUST-777" := CustomerLimit("CUST-777", 50000, 45000)]);
      var out := ProcessTransaction(s, Request("TXN-100", "CUST-777", 10000, "DEBIT"), "corr-1", Healthy);
      out.result.Ok? && out.result.value.status == "REJECTED" && out.result.value.responseCode == "51" &&
      out.stores.limits == s.limits &&
      forall i :: 0 <= i < |out.stores.calls| ==> !out.stores.calls[i].SaveLimit?
  {
    var s := Fresh(map["CUST-777" := CustomerLimit("CUST-777", 50000, 45000)]);
    var request := Request("TXN-100", "CUST-777", 10000, "DEBIT");
    EnumValidation.DebitAcceptedInAnyCase();
    NewTransactionIsDecided(s, request, "corr-1", Healthy);
    RejectionNeverSavesLimit(s, request, "corr-1", Healthy);
  }

  /** A stored TXN-100 is returned and the limit store is never read. */
  lemma StoredTransactionShortCircuits()
    ensures var existing := NullRow("TXN-100").(status := "APPROVED", responseCode := "00");
      var s := Fresh(map["CUST-777" := CustomerLimit("CUST-777", 50000, 0)]).(transactions := map["TXN-100" := existing]);
      var out := ProcessTransaction(s, Request("TXN-100", "CUST-777", 10000, "DEBIT"), "corr-1", Healthy);
      out.result.Ok? && out.result.value.transactionId == "TXN-100" &&
      forall i :: 0 <= i < |out.stores.calls| ==> !out.stores.calls[i].FindLimit?
  {
    var existing := NullRow("TXN-100").(status := "APPROVED", responseCode := "00");
    var s := Fresh(map["CUST-777" := CustomerLimit("CUST-777", 50000, 0)]).(transactions := map["TXN-100" := existing]);
    StoredRowIsReturned(s, Request("TXN-100", "CUST-777", 10000, "DEBIT"), "corr-1", Healthy);
  }

  /** A row built with only a transaction id. */
  function NullRow(transactionId: string): TransactionRow {
    TransactionRow(None, transactionId, "", "", "", 0, "", "", "", "", "", "", "", "", "", "", "")
  }

  // ---- The lost publish ----

  /**
   * As written, a new transaction whose event Kafka does not acknowledge fails with the
   * technical error and its rows are rolled back, yet the response was SET in Redis beside the
   * send; so the cache holds a decision the ledger never recorded, and a retry of the same
   * request is answered with it.
   */
  lemma LostPublishCachesUnrecordedDecision(s: Stores, request: ProcessTransactionRequest, correlationId: string, env: Env,
                                            retryEnv: Env)
    requires IsNewTransaction(s, request.transactionId, env)
    requires env.limitLookupOk && env.limitSaveOk && env.txnSaveOk && !env.published && env.cacheWriteLands
    requires request.customerId in s.limits
    requires EnumValidation.Accepts(EnumValidation.OperationTypeNames, Some(request.operationType))
    requires retryEnv.cacheReadOk
    ensures var out := LatestAsWritten(s, request, correlationId, env);
      var retry := LatestAsWritten(out.stores, request, correlationId, retryEnv);
      out.result == Err(TechnicalError) &&
      request.transactionId !in out.stores.transactions && out.stores.limits == s.limits &&
      Idempotency.CachedResponse(out.stores.cache, request.transactionId).Some? &&
      retry.result == Ok(Idempotency.CachedResponse(out.stores.cache, request.transactionId).value) &&
      request.transactionId !in retry.stores.transactions &&
      !CacheConsistent(out.stores)
  {
    var tid := request.transactionId;
    var out := LatestAsWritten(s, request, correlationId, env);
    var s1 := s.(calls := s.calls + [CacheGet(tid), FindTransaction(tid)]);
    assert ResolveCachedThenStored(s, tid, env) == Proceed(s1);
    var entity := MapRequestToEntity(request, correlationId);
    ValidatedOperationTypeHasImpact(entity);
    EvaluateDecides(s1, entity, request.amount, env);
    var saved := Evaluate(s1, entity, Some(request.amount), env);
    var response := MapToResponseDTO(saved.row.value);
    assert out.stores.cache == Idempotency.MarkedStore(s.cache, tid, response, true);
    Idempotency.ReadAfterWrite(s.cache, tid, response);
  }

  /**
   * With the failure absorbed, the same call answers with its decision, keeps its rows and
   * stages the event in the outbox, and the cache stays consistent with the ledger.
   */
  lemma LostPublishIsStaged(s: Stores, request: ProcessTransactionRequest, correlationId: string, env: Env)
    requires IsNewTransaction(s, request.transactionId, env)
    requires env.limitLookupOk && env.limitSaveOk && env.txnSaveOk && !env.published
    requires env.outboxSaveOk && env.withinDeadline
    requires request.customerId in s.limits
    requires EnumValidation.Accepts(EnumValidation.OperationTypeNames, Some(request.operationType))
    requires CacheConsistent(s)
    ensures var out := ProcessTransaction(s, request, correlationId, env);
      out.result.Ok? && request.transactionId in out.stores.transactions &&
      out.result.value == MapToResponseDTO(out.stores.transactions[request.transactionId]) &&
      MapToEvent(out.stores.transactions[request.transactionId]) !in out.stores.topic[|s.topic|..] &&
      EventDelivered(s, out.stores, MapToEvent(out.stores.transactions[request.transactionId])) &&
      CacheConsistent(out.stores)
  {
    NewTransactionIsDecided(s, request, correlationId, env);
    ApprovedOrRejectedEventIsDelivered(s, request, correlationId, env);
    CacheStaysConsistent(s, request, correlationId, env);
  }
}
