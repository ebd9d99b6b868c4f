/**
 * GlobalExceptionHandler: how each kind of failure that reaches the controller becomes an
 * HTTP status plus an ErrorResponse body (code, message, responseCode).
 */
module ExceptionHandling {
  import opened Wrappers
  import opened TransactionStatuses

  /** One field error of a failed @Valid binding. */
  datatype FieldError = FieldError(field: string, defaultMessage: string)

  /** The exceptions the handler distinguishes. */
  datatype Failure =
    | BusinessFailure(status: TransactionStatus, message: string)
    | TechnicalFailure(message: string)
    | ValidationFailure(fieldErrors: seq<FieldError>)
      /** A Spring ResponseStatusException (404, 405, ...): its status code and optional reason. */
    | ResponseStatusFailure(statusCode: nat, reason: Option<string>, message: string)
      /** Any other exception. */
    | UnexpectedFailure(message: string)

  datatype FailureKind = Business | Technical | Validation | ResponseStatus | Unexpected

  function KindOf(f: Failure): FailureKind {
    match f
    case BusinessFailure(_, _) => Business
    case TechnicalFailure(_) => Technical
    case ValidationFailure(_) => Validation
    case ResponseStatusFailure(_, _, _) => ResponseStatus
    case UnexpectedFailure(_) => Unexpected
  }

  /** The HTTP status and the body; the body's timestamp is left out. */
  datatype ErrorResponse = ErrorResponse(httpStatus: nat, code: string, message: string, responseCode: string)

  const BadRequest: nat := 400
  const InternalServerError: nat := 500
  const HttpErrorPrefix: string := "HTTP_ERROR_"
  const GenericMessage: string := "An unexpected error occurred"

  function FormatFieldError(e: FieldError): string {
    e.field + ": " + e.defaultMessage
  }

  /** Collectors.joining(", ") over the "field: message" strings. */
  function JoinFieldErrors(errors: seq<FieldError>): string {
    if |errors| == 0 then ""
    else if |errors| == 1 then FormatFieldError(errors[0])
    else FormatFieldError(errors[0]) + ", " + JoinFieldErrors(errors[1..])
  }

  /** Joining two non-empty lists puts exactly one separator between their joins. */
  lemma {:induction false} JoinFieldErrorsAppend(a: seq<FieldError>, b: seq<FieldError>)
    requires a != [] && b != []
    ensures JoinFieldErrors(a + b) == JoinFieldErrors(a) + ", " + JoinFieldErrors(b)
  {
    if |a| == 1 {
      assert (a + b)[1..] == b;
    } else {
      assert (a + b)[1..] == a[1..] + b;
      JoinFieldErrorsAppend(a[1..], b);
    }
  }

  function DigitChar(d: nat): char
    requires d < 10
  {
    ('0' as int + d) as char
  }

  /** Decimal rendering of a status value (Integer.toString). */
  function DecimalString(n: nat): (s: string)
    ensures |s| >= 1 && forall i :: 0 <= i < |s| ==> IsDigit(s[i])
  {
    if n < 10 then [DigitChar(n)] else DecimalString(n / 10) + [DigitChar(n % 10)]
  }

  /** Reading a decimal string back. */
  function ParseDecimal(s: string): nat
    requires forall i :: 0 <= i < |s| ==> IsDigit(s[i])
  {
    if s == [] then 0
    else assert IsDigit(s[|s| - 1]); ParseDecimal(s[..|s| - 1]) * 10 + (s[|s| - 1] as int - '0' as int)
  }

  lemma {:induction false} ParseDecimalString(n: nat)
    ensures ParseDecimal(DecimalString(n)) == n
  {
    var s := DecimalString(n);
    if n >= 10 {
      assert s[..|s| - 1] == DecimalString(n / 10);
      ParseDecimalString(n / 10);
    }
  }

  /** The four @ExceptionHandler methods (Spring picks the most specific one). */
  function HandleException(f: Failure): (r: ErrorResponse)
    ensures |r.responseCode| == 2 && IsDigit(r.responseCode[0]) && IsDigit(r.responseCode[1])
    ensures f.BusinessFailure? ==>
      r.httpStatus == BadRequest && FromName(r.code) == Some(f.status) && FromResponseCode(r.responseCode) == Some(f.status)
    ensures f.BusinessFailure? ==> r.message == f.message
    ensures f.TechnicalFailure? ==> r.httpStatus == InternalServerError && r.responseCode == ResponseCode(ErrorSystem)
    ensures f.TechnicalFailure? ==> r.code == "TECHNICAL_ERROR" && r.message == f.message
    ensures f.ValidationFailure? ==>
      r.httpStatus == BadRequest && r.code == "INVALID_INPUT" && r.message == JoinFieldErrors(f.fieldErrors)
    ensures f.ResponseStatusFailure? ==>
      r.httpStatus == f.statusCode && r.code == HttpErrorPrefix + DecimalString(f.statusCode)
      && r.message == f.reason.GetOr(f.message)
    ensures f.UnexpectedFailure? ==>
      r.httpStatus == InternalServerError && r.code == "SYSTEM_ERROR" && r.message == GenericMessage
    ensures !f.BusinessFailure? && !f.TechnicalFailure? ==> r.responseCode == "99"
    ensures !f.ResponseStatusFailure? ==> r.httpStatus in {BadRequest, InternalServerError}
  {
    match f
    case BusinessFailure(s, m) =>
      NameRoundTrip(s);
      ResponseCodeRoundTrip(s);
      ErrorResponse(BadRequest, Name(s), m, ResponseCode(s))
    case TechnicalFailure(m) =>
      ErrorResponse(InternalServerError, "TECHNICAL_ERROR", m, "96")
    case ValidationFailure(errors) =>
      ErrorResponse(BadRequest, "INVALID_INPUT", JoinFieldErrors(errors), "99")
    case ResponseStatusFailure(code, reason, m) =>
      ErrorResponse(code, HttpErrorPrefix + DecimalString(code), reason.GetOr(m), "99")
    case UnexpectedFailure(_) =>
      ErrorResponse(InternalServerError, "SYSTEM_ERROR", GenericMessage, "99")
  }

  /**
   * The code of the body tells a client which handler produced it, and for a business failure
   * which status, for a ResponseStatusException which HTTP status.
   */
  lemma CodeIdentifiesFailure(f: Failure, g: Failure)
    requires HandleException(f).code == HandleException(g).code
    ensures KindOf(f) == KindOf(g)
    ensures f.BusinessFailure? ==> f.status == g.status
    ensures f.ResponseStatusFailure? ==> f.statusCode == g.statusCode
  {
    var c := HandleException(f).code;
    if f.ResponseStatusFailure? || g.ResponseStatusFailure? {
      assert c[0] == 'H';
    }
    if f.ResponseStatusFailure? && g.ResponseStatusFailure? {
      assert c[|HttpErrorPrefix|..] == DecimalString(f.statusCode);
      assert c[|HttpErrorPrefix|..] == DecimalString(g.statusCode);
      ParseDecimalString(f.statusCode);
      ParseDecimalString(g.statusCode);
    }
    if f.BusinessFailure? && g.BusinessFailure? {
      NameRoundTrip(f.status);
      NameRoundTrip(g.status);
    }
  }

  /** Scenario of TransactionControllerTest: a negative amount is rejected with 400 INVALID_INPUT / 99. */
  lemma ValidationExample()
    ensures var r := HandleException(ValidationFailure([FieldError("amount", "must be positive")]));
      r.httpStatus == 400 && r.code == "INVALID_INPUT" && r.responseCode == "99" && r.message == "amount: must be positive"
  {
    var e := FieldError("amount", "must be positive");
    assert JoinFieldErrors([e]) == FormatFieldError(e);
  }

  /** A 404 from the framework keeps its status and gets the code "HTTP_ERROR_404". */
  lemma NotFoundExample()
    ensures HandleException(ResponseStatusFailure(404, None, "Not Found")).code == "HTTP_ERROR_404"
    ensures HandleException(ResponseStatusFailure(404, None, "Not Found")).httpStatus == 404
  {
    assert DecimalString(404) == DecimalString(40) + ['4'];
    assert DecimalString(40) == ['4', '0'];
  }
}
