/** The exceptions that cross the service boundary and reach the global
    exception handler: the banking exceptions, the Spring data-access and
    validation exceptions, IllegalArgumentException, and everything else. */
module Exceptions {
  import opened Wrappers

  /** One failed bean-validation constraint: the field (or property path) and
      the constraint's message. */
  datatype FieldError = FieldError(field: string, message: string)

  /** Throwable classes that no dedicated handler catches. */
  datatype OtherKind =
    | NullPointer
    | IndexOutOfBounds
    | ArrayIndexOutOfBounds
    | IllegalState
    | Runtime
    | OtherClass(name: string)

  /** InsufficientFunds carries the two BigDecimal amounts as their
      BigDecimal.toString text, which is what the handler concatenates. */
  datatype Exception =
    | InsufficientFunds(accountId: string, requestedAmount: string, availableBalance: string)
    | TransactionNotFound(transactionId: int)
    | DuplicateTransaction(idempotencyKey: string)
    | OptimisticLockingFailure(message: string)
    | TransientDataAccess(message: string)
    | MethodArgumentNotValid(fieldErrors: seq<FieldError>)
    | ConstraintViolation(violations: seq<FieldError>, message: string)
    | IllegalArgument(message: string)
    | Unhandled(kind: OtherKind, exceptionMessage: Option<string>)
}
