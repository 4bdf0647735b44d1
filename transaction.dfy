/** The Transaction entity: its fields, its default state, the @PrePersist
    reference-number assignment and the bean-validation constraints that the
    controller applies with @Valid. */
module TransactionModel {
  import opened Wrappers
  import opened Text
  import opened Exceptions

  /** A LocalDateTime, as a count of milliseconds. */
  type Timestamp = int

  const MillisPerDay: int := 86400000

  /** One transaction record; every field that Java allows to be null is an
      Option. Amounts are exact decimals, so BigDecimal arithmetic and
      compareTo become real arithmetic and comparison. */
  datatype Txn = Txn(
    id: Option<int>,
    accountId: Option<string>,
    transactionType: Option<string>,
    amount: Option<real>,
    currency: Option<string>,
    description: Option<string>,
    referenceNumber: Option<string>,
    targetAccount: Option<string>,
    status: Option<string>,
    message: Option<string>,
    createdAt: Option<Timestamp>,
    updatedAt: Option<Timestamp>,
    processedAt: Option<Timestamp>,
    createdBy: Option<string>,
    lastModifiedBy: Option<string>,
    idempotencyKey: Option<string>,
    clientIp: Option<string>,
    userAgent: Option<string>,
    version: Option<int>)

  const DefaultStatus: string := "PENDING"

  /** `new Transaction()`: every field null except status. */
  function NewTxn(): (t: Txn)
    ensures t.status == Some(DefaultStatus)
    ensures t.amount.None? && t.id.None? && t.version.None? && t.referenceNumber.None?
    ensures t.accountId.None? && t.transactionType.None? && t.currency.None? && t.description.None?
    ensures t.targetAccount.None? && t.message.None?
    ensures t.createdAt.None? && t.updatedAt.None? && t.processedAt.None?
    ensures t.createdBy.None? && t.lastModifiedBy.None? && t.idempotencyKey.None?
    ensures t.clientIp.None? && t.userAgent.None?
  {
    Txn(None, None, None, None, None, None, None, None, Some(DefaultStatus), None,
        None, None, None, None, None, None, None, None, None)
  }

  /** The creation time used to order records; records in the store always
      have one. */
  function CreatedAt(t: Txn): Timestamp {
    t.createdAt.GetOr(0)
  }

  // ---------------------------------------------------------------------------
  // @PrePersist
  // ---------------------------------------------------------------------------

  const ReferencePrefix: string := "TXN-"

  /** prePersist: a record without a reference number gets
      "TXN-" + currentTimeMillis + "-" + Math.random(); the clock value and the
      random number's text are parameters. */
  function PrePersist(t: Txn, millis: int, randomText: string): (u: Txn)
    ensures u.referenceNumber.Some?
    ensures t.referenceNumber.Some? ==> u == t
  {
    if t.referenceNumber.None? then
      t.(referenceNumber := Some(ReferencePrefix + IntToString(millis) + "-" + randomText))
    else t
  }

  /** After prePersist the record has a "TXN-" reference number unless it
      already had one, and no other field differs. */
  lemma PrePersistAssignsReference(t: Txn, millis: int, randomText: string)
    ensures var u := PrePersist(t, millis, randomText);
      && u.referenceNumber.Some?
      && (t.referenceNumber.None? ==> StartsWith(u.referenceNumber.value, ReferencePrefix))
      && (t.referenceNumber.Some? ==> u.referenceNumber == t.referenceNumber)
      && u.(referenceNumber := t.referenceNumber) == t
  {
    var u := PrePersist(t, millis, randomText);
    if t.referenceNumber.None? {
      assert u.referenceNumber.value[..|ReferencePrefix|] == ReferencePrefix;
    }
  }

  /** A second prePersist, whatever its clock and random inputs, changes
      nothing. */
  lemma PrePersistIdempotent(t: Txn, m1: int, r1: string, m2: int, r2: string)
    ensures PrePersist(PrePersist(t, m1, r1), m2, r2) == PrePersist(t, m1, r1)
  {
  }

  // ---------------------------------------------------------------------------
  // Field constraints
  // ---------------------------------------------------------------------------

  const MinAmount: real := 0.01
  const MaxAmount: real := 1000000.00

  const TransactionTypes: set<string> := {"DEPOSIT", "WITHDRAWAL", "TRANSFER"}
  const Currencies: set<string> := {"USD", "EUR", "GBP"}

  /** @NotBlank @Size(min = 10, max = 20), the size in UTF-16 code units. */
  predicate AccountIdOk(v: Option<string>) {
    v.Some? && !IsBlank(v.value) && 10 <= Utf16Length(v.value) <= 20
  }

  /** @NotBlank @Pattern(regexp = "DEPOSIT|WITHDRAWAL|TRANSFER"); Pattern
      matches the whole string. */
  predicate TransactionTypeOk(v: Option<string>) {
    v.Some? && !IsBlank(v.value) && v.value in TransactionTypes
  }

  /** @NotNull @DecimalMin("0.01") @DecimalMax("1000000.00"), both inclusive. */
  predicate AmountOk(v: Option<real>) {
    v.Some? && MinAmount <= v.value <= MaxAmount
  }

  /** @NotBlank @Pattern(regexp = "USD|EUR|GBP") */
  predicate CurrencyOk(v: Option<string>) {
    v.Some? && !IsBlank(v.value) && v.value in Currencies
  }

  /** @Size(max = 255) in UTF-16 code units; null passes. */
  predicate DescriptionOk(v: Option<string>) {
    v.None? || Utf16Length(v.value) <= 255
  }

  /** @NotBlank */
  predicate StatusOk(v: Option<string>) {
    v.Some? && !IsBlank(v.value)
  }

  /** The record passes every field constraint, that is, no field is
      invalid. */
  predicate EntityValid(t: Txn)
    ensures EntityValid(t) <==> InvalidFields(t) == {}
  {
    && AccountIdOk(t.accountId)
    && TransactionTypeOk(t.transactionType)
    && AmountOk(t.amount)
    && CurrencyOk(t.currency)
    && DescriptionOk(t.description)
    && StatusOk(t.status)
  }

  /** The names of the fields whose constraints fail. */
  function InvalidFields(t: Txn): set<string> {
    (if AccountIdOk(t.accountId) then {} else {"accountId"})
    + (if TransactionTypeOk(t.transactionType) then {} else {"transactionType"})
    + (if AmountOk(t.amount) then {} else {"amount"})
    + (if CurrencyOk(t.currency) then {} else {"currency"})
    + (if DescriptionOk(t.description) then {} else {"description"})
    + (if StatusOk(t.status) then {} else {"status"})
  }

  // ---------------------------------------------------------------------------
  // Constraint violations, one per failing constraint
  // ---------------------------------------------------------------------------

  function NotBlankCheck(field: string, v: Option<string>, msg: string): seq<FieldError> {
    if v.None? || IsBlank(v.value) then [FieldError(field, msg)] else []
  }

  function NotNullCheck(field: string, v: Option<real>, msg: string): seq<FieldError> {
    if v.None? then [FieldError(field, msg)] else []
  }

  /** @Size on String.length(): null passes; Hibernate's default message names
      the bounds. */
  function SizeCheck(field: string, v: Option<string>, min: nat, max: nat): seq<FieldError> {
    if v.Some? && !(min <= Utf16Length(v.value) <= max) then
      [FieldError(field, "size must be between " + NatToString(min) + " and " + NatToString(max))]
    else []
  }

  /** @Pattern over a finite set of alternatives: null passes. */
  function OneOfCheck(field: string, v: Option<string>, allowed: set<string>, msg: string): seq<FieldError> {
    if v.Some? && v.value !in allowed then [FieldError(field, msg)] else []
  }

  function DecimalMinCheck(field: string, v: Option<real>, min: real, msg: string): seq<FieldError> {
    if v.Some? && v.value < min then [FieldError(field, msg)] else []
  }

  function DecimalMaxCheck(field: string, v: Option<real>, max: real, msg: string): seq<FieldError> {
    if v.Some? && v.value > max then [FieldError(field, msg)] else []
  }

  function AccountIdViolations(t: Txn): (r: seq<FieldError>)
    ensures |r| <= 2 && (AccountIdOk(t.accountId) ==> r == [])
  {
    NotBlankCheck("accountId", t.accountId, "Account ID is required")
    + SizeCheck("accountId", t.accountId, 10, 20)
  }

  function TransactionTypeViolations(t: Txn): (r: seq<FieldError>)
    ensures |r| <= 2 && (TransactionTypeOk(t.transactionType) ==> r == [])
  {
    NotBlankCheck("transactionType", t.transactionType, "Transaction type is required")
    + OneOfCheck("transactionType", t.transactionType, TransactionTypes, "Invalid transaction type")
  }

  function AmountViolations(t: Txn): (r: seq<FieldError>)
    ensures |r| <= 3 && (AmountOk(t.amount) ==> r == [])
  {
    NotNullCheck("amount", t.amount, "Amount is required")
    + DecimalMinCheck("amount", t.amount, MinAmount, "Amount must be greater than 0")
    + DecimalMaxCheck("amount", t.amount, MaxAmount, "Amount exceeds maximum limit")
  }

  function CurrencyViolations(t: Txn): (r: seq<FieldError>)
    ensures |r| <= 2 && (CurrencyOk(t.currency) ==> r == [])
  {
    NotBlankCheck("currency", t.currency, "Currency is required")
    + OneOfCheck("currency", t.currency, Currencies, "Invalid currency")
  }

  /** Every constraint violation bean validation reports for a record. Hibernate
      collects them in a hash set, so their order is not determined by the
      program; the model fixes one order, field by field as declared. A valid
      record has none, and each of the eleven constraints adds at most one. */
  function Violations(t: Txn): (r: seq<FieldError>)
    ensures EntityValid(t) ==> r == []
    ensures |r| <= 11
  {
    AccountIdViolations(t)
    + TransactionTypeViolations(t)
    + AmountViolations(t)
    + CurrencyViolations(t)
    + SizeCheck("description", t.description, 0, 255)
    + NotBlankCheck("status", t.status, "must not be blank")
  }

  function FieldsOf(errors: seq<FieldError>): set<string> {
    set i | 0 <= i < |errors| :: errors[i].field
  }

  lemma FieldsOfConcat(a: seq<FieldError>, b: seq<FieldError>)
    ensures FieldsOf(a + b) == FieldsOf(a) + FieldsOf(b)
  {
    var ab := a + b;
    forall f | f in FieldsOf(ab) ensures f in FieldsOf(a) + FieldsOf(b) {
      var i :| 0 <= i < |ab| && ab[i].field == f;
      if i < |a| { assert a[i] == ab[i]; } else { assert b[i - |a|] == ab[i]; }
    }
    forall f | f in FieldsOf(a) + FieldsOf(b) ensures f in FieldsOf(ab) {
      if f in FieldsOf(a) {
        var i :| 0 <= i < |a| && a[i].field == f;
        assert ab[i] == a[i];
      } else {
        var i :| 0 <= i < |b| && b[i].field == f;
        assert ab[|a| + i] == b[i];
      }
    }
  }

  lemma FieldsOfSingleton(e: FieldError)
    ensures FieldsOf([e]) == {e.field}
  {
    assert [e][0] == e;
  }

  function FieldSet(ok: bool, field: string): set<string> {
    if ok then {} else {field}
  }

  lemma AccountIdViolationFields(t: Txn)
    ensures FieldsOf(AccountIdViolations(t)) == FieldSet(AccountIdOk(t.accountId), "accountId")
  {
    var a := NotBlankCheck("accountId", t.accountId, "Account ID is required");
    var b := SizeCheck("accountId", t.accountId, 10, 20);
    FieldsOfConcat(a, b);
    if a != [] { FieldsOfSingleton(a[0]); }
    if b != [] { FieldsOfSingleton(b[0]); }
  }

  lemma TransactionTypeViolationFields(t: Txn)
    ensures FieldsOf(TransactionTypeViolations(t)) == FieldSet(TransactionTypeOk(t.transactionType), "transactionType")
  {
    var a := NotBlankCheck("transactionType", t.transactionType, "Transaction type is required");
    var b := OneOfCheck("transactionType", t.transactionType, TransactionTypes, "Invalid transaction type");
    FieldsOfConcat(a, b);
    if a != [] { FieldsOfSingleton(a[0]); }
    if b != [] { FieldsOfSingleton(b[0]); }
  }

  lemma AmountViolationFields(t: Txn)
    ensures FieldsOf(AmountViolations(t)) == FieldSet(AmountOk(t.amount), "amount")
  {
    var a := NotNullCheck("amount", t.amount, "Amount is required");
    var b := DecimalMinCheck("amount", t.amount, MinAmount, "Amount must be greater than 0");
    var c := DecimalMaxCheck("amount", t.amount, MaxAmount, "Amount exceeds maximum limit");
    FieldsOfConcat(a, b);
    FieldsOfConcat(a + b, c);
    if a != [] { FieldsOfSingleton(a[0]); }
    if b != [] { FieldsOfSingleton(b[0]); }
    if c != [] { FieldsOfSingleton(c[0]); }
  }

  lemma CurrencyViolationFields(t: Txn)
    ensures FieldsOf(CurrencyViolations(t)) == FieldSet(CurrencyOk(t.currency), "currency")
  {
    var a := NotBlankCheck("currency", t.currency, "Currency is required");
    var b := OneOfCheck("currency", t.currency, Currencies, "Invalid currency");
    FieldsOfConcat(a, b);
    if a != [] { FieldsOfSingleton(a[0]); }
    if b != [] { FieldsOfSingleton(b[0]); }
  }

  /** The violations name exactly the fields whose constraints fail, so the
      validation-error map of a 400 response has exactly those keys. */
  lemma ViolatedFieldsAreInvalidFields(t: Txn)
    ensures FieldsOf(Violations(t)) == InvalidFields(t)
  {
    var a, b, c, d := AccountIdViolations(t), TransactionTypeViolations(t), AmountViolations(t), CurrencyViolations(t);
    var e, g := SizeCheck("description", t.description, 0, 255), NotBlankCheck("status", t.status, "must not be blank");
    AccountIdViolationFields(t);
    TransactionTypeViolationFields(t);
    AmountViolationFields(t);
    CurrencyViolationFields(t);
    DescriptionStatusViolationFields(t);
    FieldsOfSix(a, b, c, d, e, g);
  }

  lemma DescriptionStatusViolationFields(t: Txn)
    ensures FieldsOf(SizeCheck("description", t.description, 0, 255)) == FieldSet(DescriptionOk(t.description), "description")
    ensures FieldsOf(NotBlankCheck("status", t.status, "must not be blank")) == FieldSet(StatusOk(t.status), "status")
  {
    var e, g := SizeCheck("description", t.description, 0, 255), NotBlankCheck("status", t.status, "must not be blank");
    if e != [] { FieldsOfSingleton(e[0]); }
    if g != [] { FieldsOfSingleton(g[0]); }
  }

  lemma FieldsOfSix(a: seq<FieldError>, b: seq<FieldError>, c: seq<FieldError>,
                    d: seq<FieldError>, e: seq<FieldError>, g: seq<FieldError>)
    ensures FieldsOf(a + b + c + d + e + g)
         == FieldsOf(a) + FieldsOf(b) + FieldsOf(c) + FieldsOf(d) + FieldsOf(e) + FieldsOf(g)
  {
    FieldsOfConcat(a, b);
    FieldsOfConcat(a + b, c);
    FieldsOfConcat(a + b + c, d);
    FieldsOfConcat(a + b + c + d, e);
    FieldsOfConcat(a + b + c + d + e, g);
  }

  /** A record passes validation iff bean validation reports nothing. */
  lemma ValidIffNoViolations(t: Txn)
    ensures EntityValid(t) <==> Violations(t) == []
  {
    ViolatedFieldsAreInvalidFields(t);
    if Violations(t) != [] {
      assert Violations(t)[0].field in FieldsOf(Violations(t));
    }
  }

  /** The body the integration test posts (account id of 7 characters, type
      INVALID_TYPE, amount -100.00, currency XYZ, and a description), copied
      into a new record, fails on exactly accountId, transactionType, amount
      and currency. */
  lemma IntegrationTestBodyInvalidFields(t: Txn)
    requires t.accountId == Some("INVALID") && t.transactionType == Some("INVALID_TYPE")
    requires t.amount == Some(-100.00) && t.currency == Some("XYZ")
    requires t.status == Some(DefaultStatus)
    requires t.description.Some? && Utf16Length(t.description.value) <= 255
    ensures InvalidFields(t) == {"accountId", "transactionType", "amount", "currency"}
  {
    assert !AccountIdOk(t.accountId) by { ShortAccountIdInvalid(t.accountId.value); }
    assert !TransactionTypeOk(t.transactionType) by { assert "INVALID_TYPE" !in TransactionTypes; }
    assert !CurrencyOk(t.currency) by { assert "XYZ" !in Currencies; }
    assert StatusOk(t.status) by { NotBlankWitness(DefaultStatus, 0); }
  }

  /** An account id of fewer than ten Basic Multilingual Plane characters is
      too short. */
  lemma ShortAccountIdInvalid(id: string)
    requires |id| < 10 && forall i :: 0 <= i < |id| ==> IsBmp(id[i])
    ensures !AccountIdOk(Some(id))
  {
    Utf16LengthOfBmp(id);
  }

  /** @Size counts UTF-16 units: eleven characters outside the Basic
      Multilingual Plane are 22 units, too long for an account id. */
  lemma NonBmpAccountIdTooLong(id: string)
    requires |id| == 11 && forall i :: 0 <= i < |id| ==> !IsBmp(id[i])
    ensures Utf16Length(id) == 22
    ensures !AccountIdOk(Some(id))
  {
    Utf16LengthOutsideBmp(id);
  }

  lemma NotBlankWitness(s: string, i: nat)
    requires i < |s| && !IsTrimmable(s[i])
    ensures !IsBlank(s)
  {
    BlankIffAllTrimmable(s);
  }
}
