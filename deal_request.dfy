/**
 * The inbound deal request and the field constraints declared on it, with
 * the meaning Jakarta Bean Validation 3.0 gives to each built-in constraint:
 * only @NotNull and @NotBlank reject a null value, every other constraint
 * accepts null.
 */
module DealRequest {
  import opened Wrappers
  import opened BigDecimals

  /** A nullable field is an Option; a timestamp is an instant on an integer clock (seconds). */
  datatype FxDealRequest = FxDealRequest(
    dealUniqueId: Option<string>,
    fromCurrencyIso: Option<string>,
    toCurrencyIso: Option<string>,
    dealTimestamp: Option<int>,
    dealAmount: Option<Decimal>)

  /** One value per constraint declared on the request's fields. */
  datatype Violation =
    | DealIdRequired
    | FromCurrencyRequired | FromCurrencyFormat
    | ToCurrencyRequired | ToCurrencyFormat
    | TimestampRequired | TimestampInFuture
    | AmountRequired | AmountTooSmall | AmountFormat

  /** The message attribute of each constraint. */
  function Message(v: Violation): string
  {
    match v
    case DealIdRequired => "Deal Unique ID is required"
    case FromCurrencyRequired => "From Currency ISO Code is required"
    case FromCurrencyFormat => "From Currency must be a valid 3-letter ISO code (e.g., USD)"
    case ToCurrencyRequired => "To Currency ISO Code is required"
    case ToCurrencyFormat => "To Currency must be a valid 3-letter ISO code (e.g., EUR)"
    case TimestampRequired => "Deal timestamp is required"
    case TimestampInFuture => "Deal timestamp cannot be in the future"
    case AmountRequired => "Deal amount is required"
    case AmountTooSmall => "Deal amount must be greater than zero"
    case AmountFormat => "Deal amount must have at most 15 integer digits and 2 decimal digits"
  }

  /** The lower bound of @DecimalMin("0.01"). */
  const MinAmount: Decimal := Decimal(1, 2)
  const MaxIntegerDigits: nat := 15
  const MaxFractionDigits: nat := 2

  /** @NotBlank: not null, and String.trim() leaves something, i.e. some character is above U+0020. */
  predicate NotBlank(s: Option<string>)
  {
    s.Some? && exists i | 0 <= i < |s.value| :: s.value[i] > ' '
  }

  predicate IsUpperLetter(c: char)
  {
    'A' <= c <= 'Z'
  }

  /** A whole-string match of ^[A-Z]{3}$. */
  predicate IsCurrencyCode(s: string)
  {
    |s| == 3 && forall i | 0 <= i < |s| :: IsUpperLetter(s[i])
  }

  /** @Pattern(regexp = "^[A-Z]{3}$"); null is valid. */
  predicate MatchesCurrencyPattern(s: Option<string>)
  {
    s.None? || IsCurrencyCode(s.value)
  }

  /** @PastOrPresent; null is valid. */
  predicate PastOrPresent(t: Option<int>, now: int)
  {
    t.None? || t.value <= now
  }

  /** @DecimalMin(value = "0.01"), inclusive; null is valid. */
  predicate AtLeastMinAmount(a: Option<Decimal>)
  {
    a.None? || AtLeast(a.value, MinAmount)
  }

  /** @Digits(integer = 15, fraction = 2); null is valid. */
  predicate WithinDigits(a: Option<Decimal>)
  {
    a.None? || HasDigits(a.value, MaxIntegerDigits, MaxFractionDigits)
  }

  function DealIdViolations(r: FxDealRequest): set<Violation>
  {
    if NotBlank(r.dealUniqueId) then {} else {DealIdRequired}
  }

  function FromCurrencyViolations(r: FxDealRequest): set<Violation>
  {
    (if NotBlank(r.fromCurrencyIso) then {} else {FromCurrencyRequired})
    + (if MatchesCurrencyPattern(r.fromCurrencyIso) then {} else {FromCurrencyFormat})
  }

  function ToCurrencyViolations(r: FxDealRequest): set<Violation>
  {
    (if NotBlank(r.toCurrencyIso) then {} else {ToCurrencyRequired})
    + (if MatchesCurrencyPattern(r.toCurrencyIso) then {} else {ToCurrencyFormat})
  }

  function TimestampViolations(r: FxDealRequest, now: int): set<Violation>
  {
    (if r.dealTimestamp.Some? then {} else {TimestampRequired})
    + (if PastOrPresent(r.dealTimestamp, now) then {} else {TimestampInFuture})
  }

  function AmountViolations(r: FxDealRequest): set<Violation>
  {
    (if r.dealAmount.Some? then {} else {AmountRequired})
    + (if AtLeastMinAmount(r.dealAmount) then {} else {AmountTooSmall})
    + (if WithinDigits(r.dealAmount) then {} else {AmountFormat})
  }

  /** Every field constraint is evaluated; the result is the set of those violated, as Validator.validate returns it. */
  function StructuralViolations(r: FxDealRequest, now: int): set<Violation>
  {
    DealIdViolations(r) + FromCurrencyViolations(r) + ToCurrencyViolations(r)
    + TimestampViolations(r, now) + AmountViolations(r)
  }

  /**
   * The same constraints stated directly on the values: a non-blank key, two
   * present three-letter codes, a present timestamp not after now, and a
   * present amount of at least 0.01 with at most 15 integer and 2 fraction digits.
   */
  predicate StructurallyValid(r: FxDealRequest, now: int)
  {
    && NotBlank(r.dealUniqueId)
    && r.fromCurrencyIso.Some? && IsCurrencyCode(r.fromCurrencyIso.value)
    && r.toCurrencyIso.Some? && IsCurrencyCode(r.toCurrencyIso.value)
    && r.dealTimestamp.Some? && r.dealTimestamp.value <= now
    && r.dealAmount.Some? && AtLeast(r.dealAmount.value, MinAmount)
    && HasDigits(r.dealAmount.value, MaxIntegerDigits, MaxFractionDigits)
  }

  lemma CurrencyCodeIsNotBlank(s: string)
    requires IsCurrencyCode(s)
    ensures NotBlank(Some(s))
  {
    assert s[0] > ' ';
  }

  /** The validator reports no violation exactly when the request is structurally valid. */
  lemma NoViolationsIffValid(r: FxDealRequest, now: int)
    ensures StructuralViolations(r, now) == {} <==> StructurallyValid(r, now)
  {
    if r.fromCurrencyIso.Some? && IsCurrencyCode(r.fromCurrencyIso.value) {
      CurrencyCodeIsNotBlank(r.fromCurrencyIso.value);
    }
    if r.toCurrencyIso.Some? && IsCurrencyCode(r.toCurrencyIso.value) {
      CurrencyCodeIsNotBlank(r.toCurrencyIso.value);
    }
    if StructuralViolations(r, now) == {} {
      assert DealIdRequired !in StructuralViolations(r, now);
      assert FromCurrencyRequired !in StructuralViolations(r, now);
      assert ToCurrencyRequired !in StructuralViolations(r, now);
      assert TimestampRequired !in StructuralViolations(r, now);
      assert AmountRequired !in StructuralViolations(r, now);
    }
  }

  /** A missing or blank key is the one key violation. */
  lemma DealIdRequiredIffBlank(r: FxDealRequest, now: int)
    ensures DealIdRequired in StructuralViolations(r, now) <==> !NotBlank(r.dealUniqueId)
  {
  }

  /** A null from-currency violates only the "required" constraint: @Pattern accepts null. */
  lemma NullCurrencyOnlyRequired(r: FxDealRequest, now: int)
    requires r.fromCurrencyIso.None?
    ensures FromCurrencyRequired in StructuralViolations(r, now)
    ensures FromCurrencyFormat !in StructuralViolations(r, now)
  {
  }

  /** A present but blank from-currency ("" or spaces) violates both of its constraints. */
  lemma BlankCurrencyViolatesBoth(r: FxDealRequest, now: int)
    requires r.fromCurrencyIso.Some? && !NotBlank(r.fromCurrencyIso)
    ensures FromCurrencyRequired in StructuralViolations(r, now)
    ensures FromCurrencyFormat in StructuralViolations(r, now)
  {
    var s := r.fromCurrencyIso.value;
    if IsCurrencyCode(s) {
      CurrencyCodeIsNotBlank(s);
    }
  }

  /** "US" is present and not blank but is not a three-letter code. */
  lemma TwoLetterCurrencyRejected(r: FxDealRequest, now: int)
    requires r.fromCurrencyIso == Some("US")
    ensures FromCurrencyFormat in StructuralViolations(r, now)
    ensures FromCurrencyRequired !in StructuralViolations(r, now)
  {
    assert "US"[0] > ' ';
  }

  /** The timestamp constraints: a missing one is "required", a later one than now is "in the future". */
  lemma TimestampRules(r: FxDealRequest, now: int)
    ensures TimestampRequired in StructuralViolations(r, now) <==> r.dealTimestamp.None?
    ensures TimestampInFuture in StructuralViolations(r, now) <==> r.dealTimestamp.Some? && r.dealTimestamp.value > now
  {
  }

  /** Zero and negative amounts, at any scale, are below 0.01. */
  lemma NonPositiveAmountRejected(r: FxDealRequest, now: int)
    requires r.dealAmount.Some? && r.dealAmount.value.unscaled <= 0
    ensures AmountTooSmall in StructuralViolations(r, now)
  {
  }

  /** More than two fraction digits (trailing zeros included) violate @Digits. */
  lemma TooManyFractionDigitsRejected(r: FxDealRequest, now: int)
    requires r.dealAmount.Some? && r.dealAmount.value.scale > 2
    ensures AmountFormat in StructuralViolations(r, now)
  {
  }

  /** A present amount that fails @Digits is reported as a format violation. */
  lemma AmountFormatReported(r: FxDealRequest, now: int)
    requires r.dealAmount.Some? && !HasDigits(r.dealAmount.value, MaxIntegerDigits, MaxFractionDigits)
    ensures AmountFormat in StructuralViolations(r, now)
  {
    assert AmountFormat in AmountViolations(r);
  }

  /** An amount of non-negative scale whose magnitude reaches 10^15 has more than 15 integer digits. */
  lemma TooManyIntegerDigitsRejected(r: FxDealRequest, now: int)
    requires r.dealAmount.Some? && r.dealAmount.value.scale >= 0
    requires Abs(r.dealAmount.value.unscaled) >= Pow10(MaxIntegerDigits + r.dealAmount.value.scale)
    ensures AmountFormat in StructuralViolations(r, now)
  {
    DigitsCharacterisation(r.dealAmount.value, MaxIntegerDigits, MaxFractionDigits);
    AmountFormatReported(r, now);
  }

  /**
   * The same for a negative scale, where the magnitude is
   * |unscaled| * 10^(-scale): 1E+15 (unscaled 1, scale -15) counts 16
   * integer digits.
   */
  lemma NegativeScaleTooManyIntegerDigitsRejected(r: FxDealRequest, now: int)
    requires r.dealAmount.Some? && r.dealAmount.value.scale < 0
    requires Abs(r.dealAmount.value.unscaled) * Pow10(-r.dealAmount.value.scale) >= Pow10(MaxIntegerDigits)
    ensures AmountFormat in StructuralViolations(r, now)
  {
    NegativeScaleExceedsDigits(r.dealAmount.value, MaxIntegerDigits, MaxFractionDigits);
    AmountFormatReported(r, now);
  }

  /** The amount 1E+15, as a JSON number in exponent form is read, violates @Digits. */
  lemma ExponentFormAmountRejected(r: FxDealRequest, now: int)
    requires r.dealAmount == Some(Decimal(1, -15))
    ensures AmountFormat in StructuralViolations(r, now)
  {
    NegativeScaleTooManyIntegerDigitsRejected(r, now);
  }

  /** 1000.50 USD to EUR with key DEAL001, dated one day before now. */
  function ExampleRequest(now: int): FxDealRequest
  {
    FxDealRequest(Some("DEAL001"), Some("USD"), Some("EUR"), Some(now - 86400), Some(Decimal(100050, 2)))
  }

  lemma ExampleRequestIsValid(now: int)
    ensures StructurallyValid(ExampleRequest(now), now)
    ensures StructuralViolations(ExampleRequest(now), now) == {}
  {
    var r := ExampleRequest(now);
    assert r.dealUniqueId.value[0] > ' ';
    assert NumDigits(100050) == 6;
    assert AtLeast(Decimal(100050, 2), MinAmount);
    NoViolationsIffValid(r, now);
  }
}
