/** GlobalExceptionHandler: every exception that leaves a controller becomes an
    HTTP status and an ErrorResponse body. The clock, the trace id from the
    logging context and the request description are parameters. */
module ExceptionHandling {
  import opened Wrappers
  import opened Text
  import opened Exceptions
  import opened Collections
  import TM = TransactionModel

  /** The ErrorResponse body together with the HTTP status it is sent with. */
  datatype ErrorResponse = ErrorResponse(
    status: int,
    code: string,
    message: string,
    details: string,
    timestamp: TM.Timestamp,
    traceId: Option<string>,
    path: string,
    validationErrors: Option<map<string, string>>)

  // ---------------------------------------------------------------------------
  // The validation-error map
  // ---------------------------------------------------------------------------

  /** The map the handler fills by visiting the errors in the order the
      exception lists them, with HashMap.put: one entry per field, a later
      error for a field overwriting an earlier one. For bean validation that
      order is not fixed by the program, so which of two messages for one
      field wins is not either. */
  function ValidationErrorMap(errors: seq<FieldError>): (m: map<string, string>)
    ensures |m| <= |errors|
    ensures errors != [] ==> errors[|errors| - 1].field in m && m[errors[|errors| - 1].field] == errors[|errors| - 1].message
  {
    if errors == [] then map[]
    else
      var last := errors[|errors| - 1];
      ValidationErrorMap(errors[..|errors| - 1])[last.field := last.message]
  }

  /** errors[i] is the last error that names field k. */
  predicate IsLastFor(errors: seq<FieldError>, k: string, i: int) {
    && 0 <= i < |errors|
    && errors[i].field == k
    && forall j :: i < j < |errors| ==> errors[j].field != k
  }

  /** The forEach / for loop of handleValidation and handleConstraintViolation. */
  method CollectValidationErrors(errors: seq<FieldError>) returns (m: map<string, string>)
    ensures m == ValidationErrorMap(errors)
  {
    m := map[];
    var i := 0;
    while i < |errors|
      invariant 0 <= i <= |errors|
      invariant m == ValidationErrorMap(errors[..i])
    {
      assert errors[..i + 1][..i] == errors[..i];
      m := m[errors[i].field := errors[i].message];
      i := i + 1;
    }
    assert errors[..|errors|] == errors;
  }

  /** The map has exactly one key per field named by some error. */
  lemma {:induction false} ValidationErrorMapKeys(errors: seq<FieldError>)
    ensures ValidationErrorMap(errors).Keys == TM.FieldsOf(errors)
  {
    if errors != [] {
      var prefix, last := errors[..|errors| - 1], errors[|errors| - 1];
      assert errors == prefix + [last];
      ValidationErrorMapKeys(prefix);
      TM.FieldsOfConcat(prefix, [last]);
      TM.FieldsOfSingleton(last);
    }
  }

  /** Each field maps to the message of the last error that names it. */
  lemma {:induction false} ValidationErrorMapLastWins(errors: seq<FieldError>, k: string)
    requires k in TM.FieldsOf(errors)
    ensures k in ValidationErrorMap(errors)
    ensures exists i :: IsLastFor(errors, k, i) && ValidationErrorMap(errors)[k] == errors[i].message
  {
    var prefix, last := errors[..|errors| - 1], errors[|errors| - 1];
    assert errors == prefix + [last];
    if last.field == k {
      assert IsLastFor(errors, k, |errors| - 1);
    } else {
      TM.FieldsOfConcat(prefix, [last]);
      TM.FieldsOfSingleton(last);
      ValidationErrorMapLastWins(prefix, k);
      var i :| IsLastFor(prefix, k, i) && ValidationErrorMap(prefix)[k] == prefix[i].message;
      assert IsLastFor(errors, k, i);
    }
  }

  /** Two errors for the same field leave one entry, holding the later message. */
  lemma LaterErrorOverwrites(f: string, m1: string, m2: string)
    ensures ValidationErrorMap([FieldError(f, m1), FieldError(f, m2)]) == map[f := m2]
  {
    var errors := [FieldError(f, m1), FieldError(f, m2)];
    assert errors[..1] == [FieldError(f, m1)];
    assert errors[..1][..0] == [];
    assert ValidationErrorMap(errors[..1]) == map[f := m1];
    assert map[f := m1][f := m2] == map[f := m2];
  }

  /** Collectors.joining(", ") over "key: value" for the keys in order: empty
      exactly when there are no keys, starting with the first key's entry and
      ending with the last key's. */
  function JoinEntries(order: seq<string>, m: map<string, string>): (r: string)
    requires forall i :: 0 <= i < |order| ==> order[i] in m
    ensures r == "" <==> order == []
    ensures order != [] ==>
      var first := order[0] + ": " + m[order[0]];
      |first| <= |r| && r[..|first|] == first
    ensures order != [] ==>
      var last := order[|order| - 1] + ": " + m[order[|order| - 1]];
      |last| <= |r| && r[|r| - |last|..] == last
  {
    if order == [] then ""
    else if |order| == 1 then order[0] + ": " + m[order[0]]
    else order[0] + ": " + m[order[0]] + ", " + JoinEntries(order[1..], m)
  }

  // ---------------------------------------------------------------------------
  // The handlers
  // ---------------------------------------------------------------------------

  /** WebRequest.getDescription(false).replace("uri=", ""): never longer than
      the description, and equal to it exactly when no "uri=" occurs in it. */
  function PathOf(description: string): (p: string)
    ensures |p| <= |description|
    ensures p == description <==> !Contains(description, "uri=")
  {
    RemoveAllChangesIffOccurs(description, "uri=");
    RemoveAll(description, "uri=")
  }

  /** Spring dispatches each exception to the handler of its most specific
      class; every constructor of Exception is one such class. `order` is the
      iteration order of the validation map, used only for the details of
      VALIDATION_FAILED. */
  function Handle(ex: Exception, description: string, traceId: Option<string>,
                  now: TM.Timestamp, order: seq<string>): (r: ErrorResponse)
    requires ex.MethodArgumentNotValid? ==> IsKeyOrder(order, ValidationErrorMap(ex.fieldErrors))
    ensures r.path == PathOf(description) && r.traceId == traceId && r.timestamp == now
    ensures r.validationErrors.Some? <==> (ex.MethodArgumentNotValid? || ex.ConstraintViolation?)
  {
    var path := PathOf(description);
    match ex
    case InsufficientFunds(_, requested, available) =>
      ErrorResponse(402, "INSUFFICIENT_FUNDS", "Insufficient funds for this transaction",
        "Available balance: " + available + ", Requested amount: " + requested,
        now, traceId, path, None)
    case TransactionNotFound(id) =>
      ErrorResponse(404, "TRANSACTION_NOT_FOUND", "Transaction not found",
        "Transaction ID: " + IntToString(id), now, traceId, path, None)
    case DuplicateTransaction(key) =>
      ErrorResponse(409, "DUPLICATE_TRANSACTION", "Transaction already processed",
        "Idempotency key: " + key, now, traceId, path, None)
    case OptimisticLockingFailure(_) =>
      ErrorResponse(409, "CONCURRENT_MODIFICATION", "Resource was modified by another process",
        "Please refresh the data and try again", now, traceId, path, None)
    case TransientDataAccess(_) =>
      ErrorResponse(503, "TEMPORARY_UNAVAILABLE", "Service temporarily unavailable",
        "Please try again in a few moments", now, traceId, path, None)
    case MethodArgumentNotValid(errors) =>
      var m := ValidationErrorMap(errors);
      ErrorResponse(400, "VALIDATION_FAILED", "Input validation failed",
        "Invalid fields: " + JoinEntries(order, m), now, traceId, path, Some(m))
    case ConstraintViolation(violations, msg) =>
      ErrorResponse(400, "CONSTRAINT_VIOLATION", "Data constraint violation",
        msg, now, traceId, path, Some(ValidationErrorMap(violations)))
    case IllegalArgument(msg) =>
      ErrorResponse(400, "INVALID_ARGUMENT", "Invalid request parameter",
        msg, now, traceId, path, None)
    case Unhandled(_, _) =>
      ErrorResponse(500, "INTERNAL_ERROR", "An internal error occurred",
        "Please contact support if the issue persists", now, traceId, path, None)
  }

  /** The status each error code is sent with. */
  function StatusOfCode(code: string): Option<int> {
    if code == "INSUFFICIENT_FUNDS" then Some(402)
    else if code == "TRANSACTION_NOT_FOUND" then Some(404)
    else if code == "DUPLICATE_TRANSACTION" || code == "CONCURRENT_MODIFICATION" then Some(409)
    else if code == "TEMPORARY_UNAVAILABLE" then Some(503)
    else if code == "VALIDATION_FAILED" || code == "CONSTRAINT_VIOLATION" || code == "INVALID_ARGUMENT" then Some(400)
    else if code == "INTERNAL_ERROR" then Some(500)
    else None
  }

  /** The exception classes the caller is blamed for: everything except the
      transient database error and the exceptions no handler names. */
  predicate IsClientFault(ex: Exception) {
    !ex.TransientDataAccess? && !ex.Unhandled?
  }

  /** The code determines the status, and the status is a 4xx exactly for the
      client-fault exceptions and a 5xx otherwise. */
  lemma StatusFollowsCode(ex: Exception, description: string, traceId: Option<string>,
                          now: TM.Timestamp, order: seq<string>)
    requires ex.MethodArgumentNotValid? ==> IsKeyOrder(order, ValidationErrorMap(ex.fieldErrors))
    ensures var r := Handle(ex, description, traceId, now, order);
      && StatusOfCode(r.code) == Some(r.status)
      && (400 <= r.status < 500 <==> IsClientFault(ex))
      && (500 <= r.status < 600 <==> !IsClientFault(ex))
  {
    StatusOfEachCode();
  }

  lemma StatusOfEachCode()
    ensures StatusOfCode("INSUFFICIENT_FUNDS") == Some(402)
    ensures StatusOfCode("TRANSACTION_NOT_FOUND") == Some(404)
    ensures StatusOfCode("DUPLICATE_TRANSACTION") == Some(409)
    ensures StatusOfCode("CONCURRENT_MODIFICATION") == Some(409)
    ensures StatusOfCode("TEMPORARY_UNAVAILABLE") == Some(503)
    ensures StatusOfCode("VALIDATION_FAILED") == Some(400)
    ensures StatusOfCode("CONSTRAINT_VIOLATION") == Some(400)
    ensures StatusOfCode("INVALID_ARGUMENT") == Some(400)
    ensures StatusOfCode("INTERNAL_ERROR") == Some(500)
  {
  }

  /** The exception class each handler is declared for; the catch-all handler
      is declared for Exception. */
  function HandlerClass(ex: Exception): string {
    match ex
    case InsufficientFunds(_, _, _) => "InsufficientFundsException"
    case TransactionNotFound(_) => "TransactionNotFoundException"
    case DuplicateTransaction(_) => "DuplicateTransactionException"
    case OptimisticLockingFailure(_) => "OptimisticLockingFailureException"
    case TransientDataAccess(_) => "TransientDataAccessException"
    case MethodArgumentNotValid(_) => "MethodArgumentNotValidException"
    case ConstraintViolation(_, _) => "ConstraintViolationException"
    case IllegalArgument(_) => "IllegalArgumentException"
    case Unhandled(_, _) => "Exception"
  }

  /** Reads the handler back from an error code. */
  function HandlerOfCode(code: string): Option<string> {
    if code == "INSUFFICIENT_FUNDS" then Some("InsufficientFundsException")
    else if code == "TRANSACTION_NOT_FOUND" then Some("TransactionNotFoundException")
    else if code == "DUPLICATE_TRANSACTION" then Some("DuplicateTransactionException")
    else if code == "CONCURRENT_MODIFICATION" then Some("OptimisticLockingFailureException")
    else if code == "TEMPORARY_UNAVAILABLE" then Some("TransientDataAccessException")
    else if code == "VALIDATION_FAILED" then Some("MethodArgumentNotValidException")
    else if code == "CONSTRAINT_VIOLATION" then Some("ConstraintViolationException")
    else if code == "INVALID_ARGUMENT" then Some("IllegalArgumentException")
    else if code == "INTERNAL_ERROR" then Some("Exception")
    else None
  }

  /** Every handler has its own code: the code of a response names the handler
      that produced it, so two responses with the same code come from the
      same handler. */
  lemma CodeIdentifiesHandler(ex: Exception, description: string, traceId: Option<string>,
                              now: TM.Timestamp, order: seq<string>)
    requires ex.MethodArgumentNotValid? ==> IsKeyOrder(order, ValidationErrorMap(ex.fieldErrors))
    ensures HandlerOfCode(Handle(ex, description, traceId, now, order).code) == Some(HandlerClass(ex))
  {
    HandlerOfEachCode();
  }

  lemma HandlerOfEachCode()
    ensures HandlerOfCode("INSUFFICIENT_FUNDS") == Some("InsufficientFundsException")
    ensures HandlerOfCode("TRANSACTION_NOT_FOUND") == Some("TransactionNotFoundException")
    ensures HandlerOfCode("DUPLICATE_TRANSACTION") == Some("DuplicateTransactionException")
    ensures HandlerOfCode("CONCURRENT_MODIFICATION") == Some("OptimisticLockingFailureException")
    ensures HandlerOfCode("TEMPORARY_UNAVAILABLE") == Some("TransientDataAccessException")
    ensures HandlerOfCode("VALIDATION_FAILED") == Some("MethodArgumentNotValidException")
    ensures HandlerOfCode("CONSTRAINT_VIOLATION") == Some("ConstraintViolationException")
    ensures HandlerOfCode("INVALID_ARGUMENT") == Some("IllegalArgumentException")
    ensures HandlerOfCode("INTERNAL_ERROR") == Some("Exception")
  {
  }

  /** The insufficient-funds details name the available balance first and the
      requested amount second. */
  lemma InsufficientFundsDetails(account: string, requested: string, available: string,
                                 description: string, traceId: Option<string>, now: TM.Timestamp)
    ensures var r := Handle(InsufficientFunds(account, requested, available), description, traceId, now, []);
      && r.status == 402 && r.code == "INSUFFICIENT_FUNDS"
      && r.details == "Available balance: " + available + ", Requested amount: " + requested
      && StartsWith(r.details, "Available balance: " + available)
      && r.details[|r.details| - |requested|..] == requested
  {
    var r := Handle(InsufficientFunds(account, requested, available), description, traceId, now, []);
    assert r.details[..|"Available balance: " + available|] == "Available balance: " + available;
  }

  /** An exception that no dedicated handler catches is answered with fixed
      text: neither its class nor its message reaches the client. */
  lemma InternalErrorHidesException(k1: OtherKind, m1: Option<string>, k2: OtherKind, m2: Option<string>,
                                     description: string, traceId: Option<string>, now: TM.Timestamp)
    ensures Handle(Unhandled(k1, m1), description, traceId, now, [])
         == Handle(Unhandled(k2, m2), description, traceId, now, [])
    ensures Handle(Unhandled(k1, m1), description, traceId, now, []).status == 500
  {
  }

  /** IllegalArgumentException hands its message to the client as details. */
  lemma IllegalArgumentKeepsMessage(msg: string, description: string, traceId: Option<string>, now: TM.Timestamp)
    ensures var r := Handle(IllegalArgument(msg), description, traceId, now, []);
      r.status == 400 && r.code == "INVALID_ARGUMENT" && r.details == msg
  {
  }

  /** For the description Spring builds, "uri=" followed by the request path,
      the response path is that request path. */
  lemma PathStripsUriPrefix(requestPath: string)
    requires !Contains(requestPath, "uri=")
    ensures PathOf("uri=" + requestPath) == requestPath
  {
    RemoveAllLeadingOccurrence("uri=", requestPath);
  }

  /** replace removes occurrences in one left-to-right pass, so removing one
      can form a new one: the path of "ururi=i=" is "uri=". */
  lemma PathMayStillContainUri()
    ensures PathOf("ururi=i=") == "uri="
  {
    var s := "ururi=i=";
    assert s[..4][2] != "uri="[2];
    assert s[1..] == "ruri=i=";
    assert s[1..][..4][0] != "uri="[0];
    assert s[2..] == "uri=i=" && s[2..][..4] == "uri=";
    assert s[2..][4..] == "i=";
  }

  /** A record that fails bean validation is answered with 400
      VALIDATION_FAILED whose map has exactly the invalid fields as keys. */
  lemma InvalidEntityAnswer(t: TM.Txn, description: string, traceId: Option<string>,
                            now: TM.Timestamp, order: seq<string>)
    requires !TM.EntityValid(t)
    requires IsKeyOrder(order, ValidationErrorMap(TM.Violations(t)))
    ensures var r := Handle(MethodArgumentNotValid(TM.Violations(t)), description, traceId, now, order);
      && r.status == 400 && r.code == "VALIDATION_FAILED"
      && r.validationErrors.Some?
      && r.validationErrors.value.Keys == TM.InvalidFields(t)
      && r.validationErrors.value.Keys != {}
  {
    var errors := TM.Violations(t);
    ValidationAnswer(errors, description, traceId, now, order);
    TM.ValidIffNoViolations(t);
    TM.ViolatedFieldsAreInvalidFields(t);
    ValidationErrorMapKeys(errors);
    assert errors[0].field in TM.FieldsOf(errors);
  }

  /** Any list of field errors is answered with 400 VALIDATION_FAILED and
      the map of those errors. */
  lemma ValidationAnswer(errors: seq<FieldError>, description: string, traceId: Option<string>,
                         now: TM.Timestamp, order: seq<string>)
    requires IsKeyOrder(order, ValidationErrorMap(errors))
    ensures var r := Handle(MethodArgumentNotValid(errors), description, traceId, now, order);
      && r.status == 400 && r.code == "VALIDATION_FAILED"
      && r.validationErrors == Some(ValidationErrorMap(errors))
  {
  }
}
