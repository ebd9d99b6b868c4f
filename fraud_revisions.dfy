/**
 * The two earlier revisions of the processor: service/FraudService.java (no cache, no publish,
 * the amount itself as the impact) and service/FraudServiceImpl.java (no cache, the event sent
 * before the response).
 */
module FraudRevisions {
  import opened Wrappers
  import opened FraudDomain
  import opened FraudProcessing
  import opened FraudProperties
  import EnumValidation

  // ---- service/FraudService.java ----

  /** A stored row for the same id is returned and the limits are never read. */
  lemma InitialStoredRowIsReturned(s: Stores, request: ProcessTransactionRequest, correlationId: string, env: Env)
    requires env.dbReadOk && request.transactionId in s.transactions
    ensures ProcessInitial(s, request, correlationId, env) ==
      Outcome(s.(calls := s.calls + [FindTransaction(request.transactionId)]),
              Ok(MapToResponseDTO(s.transactions[request.transactionId])))
  {
  }

  /**
   * A new transaction with the stores answering and its customer on file is decided on
   * spent + amount, whatever its operation type says.
   */
  lemma InitialDecides(s: Stores, request: ProcessTransactionRequest, correlationId: string, env: Env)
    requires env.dbReadOk && request.transactionId !in s.transactions
    requires env.limitLookupOk && env.limitSaveOk && env.txnSaveOk
    requires request.customerId in s.limits
    ensures var out := ProcessInitial(s, request, correlationId, env);
      var limit := s.limits[request.customerId];
      var rejected := limit.currentDailySpent + request.amount > limit.dailyMaxAmount;
      out.result.Ok? &&
      (out.result.value.status == "REJECTED" <==> rejected) &&
      (out.result.value.status == "APPROVED" <==> !rejected) &&
      out.result.value.responseCode == (if rejected then "51" else "00") &&
      request.transactionId in out.stores.transactions &&
      out.result.value == MapToResponseDTO(out.stores.transactions[request.transactionId]) &&
      out.stores.limits == (if rejected then s.limits else Charged(s.limits, request.customerId, request.amount))
  {
    var s1 := s.(calls := s.calls + [FindTransaction(request.transactionId)]);
    assert FetchFromDbAndMap(s, request.transactionId, env) == Proceed(s1);
    EvaluateDecides(s1, MapRequestToEntity(request, correlationId), request.amount, env);
  }

  /**
   * The first revision never touches the cache, Kafka or the outbox; a failure leaves the tables
   * as they were, and is the business error exactly when the lookup found no limit row.
   */
  lemma InitialFailures(s: Stores, request: ProcessTransactionRequest, correlationId: string, env: Env)
    ensures var out := ProcessInitial(s, request, correlationId, env);
      out.stores.cache == s.cache && out.stores.topic == s.topic && out.stores.outbox == s.outbox
    ensures var out := ProcessInitial(s, request, correlationId, env);
      out.result.Err? ==>
        out.stores.transactions == s.transactions && out.stores.limits == s.limits &&
        out.result.error in {StoreUnavailable, CustomerMissing, TechnicalError}
    ensures var out := ProcessInitial(s, request, correlationId, env);
      out.result == Err(CustomerMissing) <==>
        env.dbReadOk && request.transactionId !in s.transactions && env.limitLookupOk && request.customerId !in s.limits
  {
    match FetchFromDbAndMap(s, request.transactionId, env)
    case Answered(o) =>
    case Proceed(s1) =>
      var entity := MapRequestToEntity(request, correlationId);
      EvaluateFailures(s1, entity, Some(entity.amount), env);
  }

  lemma InitialKeepsWithinLimits(s: Stores, request: ProcessTransactionRequest, correlationId: string, env: Env)
    requires WithinLimits(s.limits)
    ensures WithinLimits(ProcessInitial(s, request, correlationId, env).stores.limits)
  {
    match FetchFromDbAndMap(s, request.transactionId, env)
    case Answered(o) =>
    case Proceed(s1) =>
      var entity := MapRequestToEntity(request, correlationId);
      EvaluateKeepsWithinLimits(s1, entity, Some(entity.amount), env);
  }

  // ---- service/FraudServiceImpl.java ----

  /** A stored row for the same id is returned and the limits are never read. */
  lemma SecondStoredRowIsReturned(s: Stores, request: ProcessTransactionRequest, correlationId: string, env: Env)
    requires env.dbReadOk && request.transactionId in s.transactions
    ensures ProcessDbOnly(s, request, correlationId, env) ==
      Outcome(s.(calls := s.calls + [FindTransaction(request.transactionId)]),
              Ok(MapToResponseDTO(s.transactions[request.transactionId])))
  {
  }

  /**
   * A new transaction with the stores answering, Kafka acknowledging in time, its customer on
   * file and a validated operation type is decided on spent + amount, and its event is on the
   * topic before the response is returned.
   */
  lemma SecondDecidesAndPublishes(s: Stores, request: ProcessTransactionRequest, correlationId: string, env: Env)
    requires env.dbReadOk && request.transactionId !in s.transactions
    requires env.limitLookupOk && env.limitSaveOk && env.txnSaveOk && env.published && env.withinDeadline
    requires request.customerId in s.limits
    requires EnumValidation.Accepts(EnumValidation.OperationTypeNames, Some(request.operationType))
    ensures var out := ProcessDbOnly(s, request, correlationId, env);
      var limit := s.limits[request.customerId];
      var rejected := limit.currentDailySpent + request.amount > limit.dailyMaxAmount;
      out.result.Ok? &&
      (out.result.value.status == "REJECTED" <==> rejected) &&
      (out.result.value.status == "APPROVED" <==> !rejected) &&
      out.result.value.responseCode == (if rejected then "51" else "00") &&
      request.transactionId in out.stores.transactions &&
      out.result.value == MapToResponseDTO(out.stores.transactions[request.transactionId]) &&
      out.stores.topic == s.topic + [MapToEvent(out.stores.transactions[request.transactionId])] &&
      out.stores.limits == (if rejected then s.limits else Charged(s.limits, request.customerId, request.amount))
  {
    var s1 := s.(calls := s.calls + [FindTransaction(request.transactionId)]);
    assert FetchFromDbAndMap(s, request.transactionId, env) == Proceed(s1);
    var entity := MapRequestToEntity(request, correlationId);
    ValidatedOperationTypeHasImpact(entity);
    EvaluateDecides(s1, entity, request.amount, env);
  }

  /**
   * Publish before response: a new transaction is answered Ok only with its event on the topic;
   * when Kafka does not acknowledge, the call fails with the technical error and no table keeps
   * its writes.
   */
  lemma SecondAnswersOnlyAfterPublish(s: Stores, request: ProcessTransactionRequest, correlationId: string, env: Env)
    requires env.dbReadOk && request.transactionId !in s.transactions
    ensures var out := ProcessDbOnly(s, request, correlationId, env);
      out.result.Ok? ==>
        env.published && request.transactionId in out.stores.transactions &&
        MapToEvent(out.stores.transactions[request.transactionId]) in out.stores.topic
    ensures var out := ProcessDbOnly(s, request, correlationId, env);
      !env.published ==>
        out.result.Err? && out.result.error in {CustomerMissing, TechnicalError} &&
        out.stores.transactions == s.transactions && out.stores.limits == s.limits && out.stores.topic == s.topic
  {
    var s1 := s.(calls := s.calls + [FindTransaction(request.transactionId)]);
    assert FetchFromDbAndMap(s, request.transactionId, env) == Proceed(s1);
    var entity := MapRequestToEntity(request, correlationId);
    EvaluateSavesOneRow(s1, entity, CalculateLimitImpact(entity), env);
    EvaluateFailures(s1, entity, CalculateLimitImpact(entity), env);
  }

  lemma SecondKeepsWithinLimits(s: Stores, request: ProcessTransactionRequest, correlationId: string, env: Env)
    requires WithinLimits(s.limits)
    ensures WithinLimits(ProcessDbOnly(s, request, correlationId, env).stores.limits)
  {
    match FetchFromDbAndMap(s, request.transactionId, env)
    case Answered(o) =>
    case Proceed(s1) =>
      var entity := MapRequestToEntity(request, correlationId);
      EvaluateKeepsWithinLimits(s1, entity, CalculateLimitImpact(entity), env);
  }
}
