/** The TransactionRequest DTO and its bean-validation constraints, which are
    stricter than the entity's on every field except the account id's length. */
module TransactionRequestModel {
  import opened Wrappers
  import opened Text
  import opened Exceptions
  import TM = TransactionModel

  /** A BigDecimal: value unscaled * 10^-scale. The scale matters to @Digits,
      so 1.000 (scale 3) and 1 (scale 0) are different requests. */
  datatype Decimal = Decimal(unscaled: int, scale: int)

  function Pow10(n: nat): (r: nat)
    ensures r >= 1
  {
    if n == 0 then 1 else 10 * Pow10(n - 1)
  }

  function Abs(x: int): nat { if x < 0 then -x else x }

  function Value(d: Decimal): real {
    if d.scale >= 0 then d.unscaled as real / Pow10(d.scale) as real
    else (d.unscaled * Pow10(-d.scale)) as real
  }

  /** Number of decimal digits of n; BigDecimal gives zero a precision of 1. */
  function NumDigits(n: nat): (r: nat)
    ensures r >= 1
  {
    if n < 10 then 1 else 1 + NumDigits(n / 10)
  }

  function Precision(d: Decimal): nat {
    NumDigits(Abs(d.unscaled))
  }

  /** @Digits(integer = 7, fraction = 2) as Hibernate checks a BigDecimal:
      precision - scale integer digits and max(scale, 0) fraction digits. */
  predicate DigitsOk(d: Decimal, integer: nat, fraction: nat)
    ensures DigitsOk(d, integer, fraction) && d.scale >= 0 ==> Abs(d.unscaled) < Pow10(integer + d.scale)
  {
    var integerDigits := Precision(d) - d.scale;
    var fractionDigits := if d.scale < 0 then 0 else d.scale;
    if integerDigits <= integer && d.scale >= 0 then
      UnscaledBound(d, integer);
      fractionDigits <= fraction
    else
      integerDigits <= integer && fractionDigits <= fraction
  }

  /** At most `integer` integer digits bound the unscaled value by
      10^(integer + scale). A helper of DigitsOk and DigitsBoundMagnitude. */
  lemma UnscaledBound(d: Decimal, integer: nat)
    requires d.scale >= 0 && Precision(d) - d.scale <= integer
    ensures Abs(d.unscaled) < Pow10(integer + d.scale)
  {
    NumDigitsBound(Abs(d.unscaled));
    Pow10Monotone(Precision(d), integer + d.scale);
  }

  datatype Request = Request(
    accountId: Option<string>,
    transactionType: Option<string>,
    amount: Option<Decimal>,
    currency: Option<string>,
    description: Option<string>,
    targetAccount: Option<string>,
    idempotencyKey: Option<string>)

  predicate IsUpperAlnum(c: char) { IsUpperAscii(c) || IsDigit(c) }

  predicate AllUpperAlnum(s: string) {
    forall i :: 0 <= i < |s| ==> IsUpperAlnum(s[i])
  }

  /** \s in a Java regex: space, tab, newline, vertical tab, form feed, carriage return. */
  predicate IsRegexSpace(c: char) {
    c == ' ' || c == '\t' || c == '\n' || c == '\U{B}' || c == '\U{C}' || c == '\r'
  }

  /** One character of [a-zA-Z0-9\s.,'()-] */
  predicate IsDescriptionChar(c: char) {
    IsUpperAscii(c) || IsLowerAscii(c) || IsDigit(c) || IsRegexSpace(c)
    || c == '.' || c == ',' || c == '\'' || c == '(' || c == ')' || c == '-'
  }

  predicate IsLowerHex(c: char) { IsDigit(c) || 'a' <= c <= 'f' }

  /** ^[0-9a-f]{8}-[0-9a-f]{4}-[0-9a-f]{4}-[0-9a-f]{4}-[0-9a-f]{12}$ */
  predicate IsLowerUuid(s: string) {
    && |s| == 36
    && forall i :: 0 <= i < 36 ==>
         if i == 8 || i == 13 || i == 18 || i == 23 then s[i] == '-' else IsLowerHex(s[i])
  }

  /** @NotBlank @Size(min = 10, max = 34) @Pattern("^[A-Z0-9]+$"), the size
      in UTF-16 code units. */
  predicate AccountIdOk(v: Option<string>) {
    v.Some? && !IsBlank(v.value) && 10 <= Utf16Length(v.value) <= 34 && AllUpperAlnum(v.value)
  }

  /** @NotBlank @Pattern("^(DEPOSIT|WITHDRAWAL|TRANSFER)$") */
  predicate TransactionTypeOk(v: Option<string>) {
    v.Some? && !IsBlank(v.value) && v.value in TM.TransactionTypes
  }

  /** @NotNull @DecimalMin("0.01") @DecimalMax("1000000.00") @Digits(7, 2) */
  predicate AmountOk(v: Option<Decimal>) {
    v.Some? && TM.MinAmount <= Value(v.value) <= TM.MaxAmount && DigitsOk(v.value, 7, 2)
  }

  /** @NotBlank @Pattern("^(USD|EUR|GBP)$") */
  predicate CurrencyOk(v: Option<string>) {
    v.Some? && !IsBlank(v.value) && v.value in TM.Currencies
  }

  /** @Size(max = 140) @Pattern("^[a-zA-Z0-9\\s.,'()-]*$"); null passes. */
  predicate DescriptionOk(v: Option<string>) {
    v.None? || (Utf16Length(v.value) <= 140 && forall i :: 0 <= i < |v.value| ==> IsDescriptionChar(v.value[i]))
  }

  /** @Size(max = 34) @Pattern("^[A-Z0-9]*$"); null and "" pass. */
  predicate TargetAccountOk(v: Option<string>) {
    v.None? || (Utf16Length(v.value) <= 34 && AllUpperAlnum(v.value))
  }

  /** @Size(min = 36, max = 36) and the lower-case UUID pattern; null passes.
      The pattern admits only 36 ASCII characters, which are 36 UTF-16 units,
      so the size check adds nothing. */
  predicate IdempotencyKeyOk(v: Option<string>) {
    v.None? || IsLowerUuid(v.value)
  }

  /** A valid request also meets the entity's constraints on type,
      currency and description: the request's rules are stricter there. */
  predicate RequestValid(r: Request)
    ensures RequestValid(r) ==>
      && TM.TransactionTypeOk(r.transactionType)
      && TM.CurrencyOk(r.currency)
      && TM.DescriptionOk(r.description)
  {
    && AccountIdOk(r.accountId)
    && TransactionTypeOk(r.transactionType)
    && AmountOk(r.amount)
    && CurrencyOk(r.currency)
    && DescriptionOk(r.description)
    && TargetAccountOk(r.targetAccount)
    && IdempotencyKeyOk(r.idempotencyKey)
  }

  const NotPositiveMessage: string := "Amount must be positive"

  /** The entity the request is copied into: account, type, amount, currency,
      description and idempotency key, the status keeping its default; a
      present amount of zero or less is refused, a missing one is not. */
  function ToTransaction(r: Request): (res: Result<TM.Txn, Exception>)
    ensures res.Failure? <==> r.amount.Some? && Value(r.amount.value) <= 0.0
    ensures res.Failure? ==> res.error == IllegalArgument(NotPositiveMessage)
    ensures res.Success? ==>
      && res.value.status == Some(TM.DefaultStatus)
      && res.value.accountId == r.accountId && res.value.currency == r.currency
      && (res.value.amount.Some? <==> r.amount.Some?)
  {
    var t := TM.NewTxn().(
      accountId := r.accountId,
      transactionType := r.transactionType,
      amount := if r.amount.Some? then Some(Value(r.amount.value)) else None,
      currency := r.currency,
      description := r.description,
      idempotencyKey := r.idempotencyKey);
    if t.amount.Some? && t.amount.value <= 0.0 then Failure(IllegalArgument(NotPositiveMessage))
    else Success(t)
  }

  /** A valid request whose account id has at most 20 characters is accepted
      and yields an entity that passes the entity's own validation. */
  lemma ValidRequestGivesValidEntity(r: Request)
    requires RequestValid(r)
    requires Utf16Length(r.accountId.value) <= 20
    ensures ToTransaction(r).Success?
    ensures TM.EntityValid(ToTransaction(r).value)
  {
    TM.NotBlankWitness("PENDING", 0);
  }

  /** The account-id bounds disagree: a 21-character upper-case id passes the
      request's validation and fails the entity's. */
  lemma LongAccountIdPassesRequestOnly(id: string)
    requires id == "ACC000000000000000001"
    ensures AccountIdOk(Some(id))
    ensures !TM.AccountIdOk(Some(id))
  {
    TM.NotBlankWitness(id, 0);
    assert forall i :: 0 <= i < |id| ==> IsUpperAlnum(id[i]);
    Utf16LengthOfBmp(id);
  }

  /** Seven integer digits bound the magnitude: an amount that satisfies
      @Digits(7, 2) is below 10^7 in absolute value. */
  lemma {:induction false} DigitsBoundMagnitude(d: Decimal)
    requires DigitsOk(d, 7, 2)
    ensures -10000000.0 < Value(d) < 10000000.0
  {
    NumDigitsBound(Abs(d.unscaled));
    if d.scale >= 0 {
      Pow10Monotone(Precision(d), 7 + d.scale);
      FractionBound(d.unscaled, d.scale);
    } else {
      IntegerBound(d);
    }
  }

  /** With a negative scale the value is the integer unscaled * 10^-scale,
      whose digits are the precision plus the exponent. */
  lemma IntegerBound(d: Decimal)
    requires d.scale < 0 && Precision(d) - d.scale <= 7
    requires Abs(d.unscaled) < Pow10(Precision(d))
    ensures -10000000 < d.unscaled * Pow10(-d.scale) < 10000000
  {
    var e := -d.scale;
    var p := Precision(d);
    Pow10Monotone(p + e, 7);
    Pow10Add(p, e);
    MulBound(Abs(d.unscaled), Pow10(p), Pow10(e));
    assert Pow10(7) == 10000000;
    SignedMulBound(d.unscaled, Pow10(e), 10000000);
  }

  /** Arithmetic helper of the @Digits magnitude bound: a bound on |u| * pe
      bounds u * pe on both sides. */
  lemma SignedMulBound(u: int, pe: nat, bound: nat)
    requires Abs(u) * pe < bound
    ensures -(bound as int) < u * pe < bound
  {
    if u < 0 {
      assert u * pe == -(Abs(u) * pe);
    }
  }

  /** With at most two fraction digits, fewer than 7 + scale digits keep the
      value below 10^7. */
  lemma FractionBound(u: int, s: nat)
    requires s <= 2
    requires Abs(u) < Pow10(7 + s)
    ensures -10000000.0 < u as real / Pow10(s) as real < 10000000.0
  {
    if s == 0 {
      assert Pow10(7) == 10000000;
    } else if s == 1 {
      assert Pow10(8) == 100000000;
      assert Pow10(1) == 10;
    } else {
      assert Pow10(9) == 1000000000;
      assert Pow10(2) == 100;
    }
  }

  lemma {:induction false} NumDigitsBound(n: nat)
    ensures n < Pow10(NumDigits(n))
  {
    if n >= 10 {
      NumDigitsBound(n / 10);
    }
  }

  lemma {:induction false} Pow10Monotone(a: nat, b: nat)
    requires a <= b
    ensures Pow10(a) <= Pow10(b)
    decreases b
  {
    if a < b {
      Pow10Monotone(a, b - 1);
    }
  }

  lemma {:induction false} Pow10Add(a: nat, b: nat)
    ensures Pow10(a + b) == Pow10(a) * Pow10(b)
    decreases b
  {
    if b > 0 {
      Pow10Add(a, b - 1);
      assert Pow10(a + b) == 10 * Pow10(a + b - 1);
    }
  }

  /** Arithmetic helper of the @Digits magnitude bound: multiplying both sides
      of a < pa by a positive factor keeps the order. */
  lemma MulBound(a: nat, pa: nat, pe: nat)
    requires a < pa && pe >= 1
    ensures a * pe < pa * pe
  {
  }

  /** 1.001 has three fraction digits and is rejected. */
  lemma ThreeFractionDigitsRejected()
    ensures !AmountOk(Some(Decimal(1001, 3)))
  {
  }

  /** 1.000 is rejected too although it equals 1: @Digits reads the scale. */
  lemma TrailingZerosCount()
    ensures Value(Decimal(1000, 3)) == Value(Decimal(1, 0))
    ensures !AmountOk(Some(Decimal(1000, 3))) && AmountOk(Some(Decimal(1, 0)))
  {
  }

  /** The largest accepted amount, 1000000.00, has exactly seven integer digits. */
  lemma MaxAmountAccepted()
    ensures AmountOk(Some(Decimal(100000000, 2)))
  {
  }

  /** A lower-case UUID is a valid idempotency key. */
  lemma LowerCaseUuidAccepted()
    ensures IdempotencyKeyOk(Some("123e4567-e89b-12d3-a456-426614174000"))
  {
  }

  /** Its upper-case form is rejected. */
  lemma UpperCaseUuidRejected()
    ensures !IdempotencyKeyOk(Some("123E4567-E89B-12D3-A456-426614174000"))
  {
    var s := "123E4567-E89B-12D3-A456-426614174000";
    assert !IsLowerHex(s[3]);
  }

  /** The empty string is an acceptable target account. */
  lemma EmptyTargetAccountAccepted()
    ensures TargetAccountOk(Some(""))
  {
  }
}
