/**
 * The TransactionStatus enum: each constant carries a description (the value stored in a
 * transaction's status column) and a two-digit response code.
 */
module TransactionStatuses {
  import opened Wrappers

  datatype TransactionStatus = Approved | RejectedLimit | RejectedFraud | ErrorSystem | CustomerNotFound

  /** Enum.name() of each constant. */
  function Name(s: TransactionStatus): string {
    match s
    case Approved => "APPROVED"
    case RejectedLimit => "REJECTED_LIMIT"
    case RejectedFraud => "REJECTED_FRAUD"
    case ErrorSystem => "ERROR_SYSTEM"
    case CustomerNotFound => "CUSTOMER_NOT_FOUND"
  }

  function Description(s: TransactionStatus): string {
    match s
    case Approved => "APPROVED"
    case RejectedLimit => "REJECTED"
    case RejectedFraud => "REJECTED"
    case ErrorSystem => "ERROR"
    case CustomerNotFound => "ERROR"
  }

  predicate IsDigit(c: char) { '0' <= c <= '9' }

  /** The response code: a two-digit numeric string for every constant. */
  function ResponseCode(s: TransactionStatus): (code: string)
    ensures |code| == 2 && IsDigit(code[0]) && IsDigit(code[1])
  {
    match s
    case Approved => "00"
    case RejectedLimit => "51"
    case RejectedFraud => "34"
    case ErrorSystem => "96"
    case CustomerNotFound => "14"
  }

  /** Enum.valueOf: the constant with the given name, None where valueOf throws. */
  function FromName(name: string): (r: Option<TransactionStatus>)
    ensures r.Some? ==> Name(r.value) == name
  {
    if name == "APPROVED" then Some(Approved)
    else if name == "REJECTED_LIMIT" then Some(RejectedLimit)
    else if name == "REJECTED_FRAUD" then Some(RejectedFraud)
    else if name == "ERROR_SYSTEM" then Some(ErrorSystem)
    else if name == "CUSTOMER_NOT_FOUND" then Some(CustomerNotFound)
    else None
  }

  /** Reverse lookup of the table by response code. */
  function FromResponseCode(code: string): (r: Option<TransactionStatus>)
    ensures r.Some? ==> ResponseCode(r.value) == code
  {
    if code == "00" then Some(Approved)
    else if code == "51" then Some(RejectedLimit)
    else if code == "34" then Some(RejectedFraud)
    else if code == "96" then Some(ErrorSystem)
    else if code == "14" then Some(CustomerNotFound)
    else None
  }

  /** The name identifies its constant: valueOf(name()) is the identity. */
  lemma NameRoundTrip(s: TransactionStatus)
    ensures FromName(Name(s)) == Some(s)
  {
  }

  /** The response code identifies its constant; in particular the codes are pairwise distinct. */
  lemma ResponseCodeRoundTrip(s: TransactionStatus)
    ensures FromResponseCode(ResponseCode(s)) == Some(s)
  {
  }

  lemma ResponseCodesDistinct(s: TransactionStatus, t: TransactionStatus)
    requires s != t
    ensures ResponseCode(s) != ResponseCode(t)
  {
    ResponseCodeRoundTrip(s);
    ResponseCodeRoundTrip(t);
  }

  /** The two rejection constants share a description and differ in their codes. */
  lemma RejectionsShareDescription()
    ensures Description(RejectedLimit) == Description(RejectedFraud) == "REJECTED"
    ensures ResponseCode(RejectedLimit) == "51" && ResponseCode(RejectedFraud) == "34"
  {
  }
}
