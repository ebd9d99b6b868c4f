/**
 * The values the admission pipeline passes around: the validated request, the persisted
 * transaction row, the customer's limit row, the response DTO and the Kafka event, with the
 * pure mappings between them and the limit rule. Amounts are integers in cents.
 */
module FraudDomain {
  import opened Wrappers
  import opened TransactionStatuses
  import EnumValidation

  datatype OperationType = Debit | Credit | Transfer | CashWithdrawal

  function OperationTypeName(t: OperationType): string {
    match t
    case Debit => "DEBIT"
    case Credit => "CREDIT"
    case Transfer => "TRANSFER"
    case CashWithdrawal => "CASH_WITHDRAWAL"
  }

  /** OperationType.valueOf: None where valueOf throws IllegalArgumentException. */
  function ParseOperationType(name: string): (r: Option<OperationType>)
    ensures r.Some? <==> name in EnumValidation.OperationTypeNames
    ensures r.Some? ==> OperationTypeName(r.value) == name
  {
    if name == "DEBIT" then Some(Debit)
    else if name == "CREDIT" then Some(Credit)
    else if name == "TRANSFER" then Some(Transfer)
    else if name == "CASH_WITHDRAWAL" then Some(CashWithdrawal)
    else None
  }

  /** ProcessTransactionRequestDTO, after bean validation. */
  datatype ProcessTransactionRequest = ProcessTransactionRequest(
    transactionId: string,
    accountId: string,
    customerId: string,
    amount: int,
    currency: string,
    operationType: string,
    merchantId: string,
    merchantName: string,
    mcc: string,
    terminalId: string,
    ipAddress: string,
    channel: string)

  /** @Positive and @DecimalMin("0.01") on the amount: at least one cent. */
  predicate ValidAmount(request: ProcessTransactionRequest) {
    request.amount >= 1
  }

  /**
   * The columns of a transaction row (TransactionEntity without its transient flag and its
   * timestamps). `id` is the surrogate key, None until the row is inserted; the status,
   * response code and description are "" until a handler sets them.
   */
  datatype TransactionRow = TransactionRow(
    id: Option<nat>,
    transactionId: string,
    correlationId: string,
    accountId: string,
    customerId: string,
    amount: int,
    currency: string,
    operationType: string,
    merchantId: string,
    merchantName: string,
    mcc: string,
    terminalId: string,
    ipAddress: string,
    channel: string,
    status: string,
    responseCode: string,
    description: string)

  /** CustomerLimitEntity without its reset timestamp. */
  datatype CustomerLimit = CustomerLimit(customerId: string, dailyMaxAmount: int, currentDailySpent: int)

  /** ProcessTransactionResponseDTO without createdAt. */
  datatype Response = Response(id: Option<nat>, transactionId: string, status: string, responseCode: string, description: string)

  /** TransactionEvent without its timestamp. */
  datatype TransactionEvent = TransactionEvent(
    transactionId: string,
    customerId: string,
    amount: int,
    status: string,
    responseCode: string,
    correlationId: string)

  const ApprovedDescription: string := "Transaction verified successfully"
  const RejectedDescription: string := "Daily transaction limit exceeded"

  /** mapRequestToEntity: every request field is copied, the correlation id is bound, nothing is decided yet. */
  function MapRequestToEntity(request: ProcessTransactionRequest, correlationId: string): (row: TransactionRow)
    ensures row.id.None? && row.status == "" && row.responseCode == "" && row.description == ""
    ensures row.transactionId == request.transactionId && row.accountId == request.accountId
    ensures row.customerId == request.customerId && row.amount == request.amount
    ensures row.currency == request.currency && row.operationType == request.operationType
    ensures row.merchantId == request.merchantId && row.merchantName == request.merchantName
    ensures row.mcc == request.mcc && row.terminalId == request.terminalId
    ensures row.ipAddress == request.ipAddress && row.channel == request.channel
    ensures row.correlationId == correlationId
  {
    TransactionRow(None, request.transactionId, correlationId, request.accountId, request.customerId,
                   request.amount, request.currency, request.operationType, request.merchantId,
                   request.merchantName, request.mcc, request.terminalId, request.ipAddress,
                   request.channel, "", "", "")
  }

  /** The request fields a transaction row holds, read back from its columns. */
  function RequestOf(row: TransactionRow): ProcessTransactionRequest {
    ProcessTransactionRequest(row.transactionId, row.accountId, row.customerId, row.amount, row.currency,
                              row.operationType, row.merchantId, row.merchantName, row.mcc, row.terminalId,
                              row.ipAddress, row.channel)
  }

  /**
   * The row saved for a request, approved or rejected, still holds the whole request and the
   * correlation id: the decision only fills in the status, response code and description.
   */
  lemma DecidedRowKeepsRequest(request: ProcessTransactionRequest, correlationId: string)
    ensures RequestOf(MapRequestToEntity(request, correlationId)) == request
    ensures RequestOf(ApprovedRow(MapRequestToEntity(request, correlationId))) == request
    ensures RequestOf(RejectedRow(MapRequestToEntity(request, correlationId))) == request
    ensures ApprovedRow(MapRequestToEntity(request, correlationId)).correlationId == correlationId
    ensures RejectedRow(MapRequestToEntity(request, correlationId)).correlationId == correlationId
  {
  }

  /** mapToResponseDTO. */
  function MapToResponseDTO(row: TransactionRow): Response {
    Response(row.id, row.transactionId, row.status, row.responseCode, row.description)
  }

  /** mapToEvent. */
  function MapToEvent(row: TransactionRow): TransactionEvent {
    TransactionEvent(row.transactionId, row.customerId, row.amount, row.status, row.responseCode, row.correlationId)
  }

  /** The response and the event published for one saved row report the same decision. */
  lemma ResponseAndEventAgree(row: TransactionRow)
    ensures MapToResponseDTO(row).transactionId == MapToEvent(row).transactionId == row.transactionId
    ensures MapToResponseDTO(row).status == MapToEvent(row).status == row.status
    ensures MapToResponseDTO(row).responseCode == MapToEvent(row).responseCode == row.responseCode
    ensures MapToEvent(row).customerId == row.customerId && MapToEvent(row).amount == row.amount
    ensures MapToEvent(row).correlationId == row.correlationId
    ensures MapToResponseDTO(row).description == row.description && MapToResponseDTO(row).id == row.id
  {
  }

  /**
   * calculateLimitImpact: valueOf(operationType.toUpperCase()) and a switch whose every arm
   * yields the amount. None where valueOf throws.
   */
  function CalculateLimitImpact(row: TransactionRow): (impact: Option<int>)
    ensures impact.Some? <==> EnumValidation.ToUpper(row.operationType) in EnumValidation.OperationTypeNames
    ensures impact.Some? ==> impact.value == row.amount
  {
    match ParseOperationType(EnumValidation.ToUpper(row.operationType))
    case None => None
    case Some(t) =>
      match t
      case Debit => Some(row.amount)
      case CashWithdrawal => Some(row.amount)
      case Transfer => Some(row.amount)
      case Credit => Some(row.amount)
  }

  /** Every operation type, written in any case, consumes exactly its amount. */
  lemma ImpactIsAmountForEveryType(row: TransactionRow, t: OperationType)
    requires EnumValidation.EqualsIgnoreCase(row.operationType, OperationTypeName(t))
    ensures CalculateLimitImpact(row) == Some(row.amount)
  {
    UpperNameFixed(t);
    ParseNameRoundTrip(t);
  }

  lemma ParseNameRoundTrip(t: OperationType)
    ensures ParseOperationType(OperationTypeName(t)) == Some(t)
  {
  }

  lemma UpperNameFixed(t: OperationType)
    ensures EnumValidation.ToUpper(OperationTypeName(t)) == OperationTypeName(t)
  {
    match t
    case Debit => EnumValidation.ToUpperIs("DEBIT", "DEBIT");
    case Credit => EnumValidation.ToUpperIs("CREDIT", "CREDIT");
    case Transfer => EnumValidation.ToUpperIs("TRANSFER", "TRANSFER");
    case CashWithdrawal => EnumValidation.ToUpperIs("CASH_WITHDRAWAL", "CASH_WITHDRAWAL");
  }

  /** An operation type that passed @ValueInEnum never makes valueOf throw. */
  lemma ValidatedOperationTypeHasImpact(row: TransactionRow)
    requires EnumValidation.Accepts(EnumValidation.OperationTypeNames, Some(row.operationType))
    ensures CalculateLimitImpact(row) == Some(row.amount)
  {
  }

  datatype Decision = Approve(projected: int) | Reject(projected: int)

  /** The limit rule: projected = spent + impact, rejected iff projected > dailyMax (strictly). */
  function Decide(limit: CustomerLimit, impact: int): (d: Decision)
    ensures d.projected == limit.currentDailySpent + impact
    ensures d.Reject? <==> d.projected > limit.dailyMaxAmount
    ensures d.Approve? ==> d.projected <= limit.dailyMaxAmount
  {
    var projected := limit.currentDailySpent + impact;
    if projected > limit.dailyMaxAmount then Reject(projected) else Approve(projected)
  }

  /**
   * A request with a valid amount always raises the projected spend: whatever its operation
   * type, an approval strictly increases currentDailySpent.
   */
  lemma ValidRequestRaisesSpent(request: ProcessTransactionRequest, correlationId: string, limit: CustomerLimit)
    requires ValidAmount(request)
    ensures var impact := CalculateLimitImpact(MapRequestToEntity(request, correlationId));
      impact.Some? ==> Decide(limit, impact.value).projected > limit.currentDailySpent
  {
  }

  /** A spend that lands exactly on the maximum is approved. */
  lemma ExactlyAtMaximumIsApproved(limit: CustomerLimit)
    ensures Decide(limit, limit.dailyMaxAmount - limit.currentDailySpent).Approve?
  {
  }

  /** handleApprovedTransaction's changes to the entity and the limit. */
  function ApprovedRow(row: TransactionRow): (r: TransactionRow)
    ensures r.status == Description(Approved) == "APPROVED" && r.responseCode == ResponseCode(Approved) == "00"
    ensures r == row.(status := r.status, responseCode := r.responseCode, description := ApprovedDescription)
  {
    row.(status := Description(Approved), responseCode := ResponseCode(Approved), description := ApprovedDescription)
  }

  /** handleRejectedTransaction's changes to the entity. */
  function RejectedRow(row: TransactionRow): (r: TransactionRow)
    ensures r.status == Description(RejectedLimit) == "REJECTED" && r.responseCode == ResponseCode(RejectedLimit) == "51"
    ensures r == row.(status := r.status, responseCode := r.responseCode, description := RejectedDescription)
  {
    row.(status := Description(RejectedLimit), responseCode := ResponseCode(RejectedLimit), description := RejectedDescription)
  }
}
