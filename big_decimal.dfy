/**
 * java.math.BigDecimal as an exact integer pair: the number
 * unscaled * 10^(-scale). Only the operations the deal constraints use
 * are modelled: comparison (compareTo) and the digit counts that the
 * @Digits constraint inspects (precision and scale).
 */
module BigDecimals {

  datatype Decimal = Decimal(unscaled: int, scale: int)

  function Pow10(n: nat): (r: nat)
    ensures r >= 1
    ensures n >= 1 ==> r >= 10
  {
    if n == 0 then 1 else 10 * Pow10(n - 1)
  }

  function Abs(x: int): nat
  {
    if x < 0 then -x else x
  }

  /** Number of decimal digits of n; zero has one digit, as in BigDecimal.precision(). */
  function NumDigits(n: nat): (r: nat)
    ensures r >= 1
  {
    if n < 10 then 1 else 1 + NumDigits(n / 10)
  }

  /** BigDecimal.precision(): the number of digits of the unscaled value. */
  function Precision(d: Decimal): nat
  {
    NumDigits(Abs(d.unscaled))
  }

  /** Both values brought to the common scale max(a.scale, b.scale). */
  function AlignedUnscaled(a: Decimal, b: Decimal): (r: (int, int))
  {
    var k := if a.scale >= b.scale then a.scale else b.scale;
    (a.unscaled * Pow10(k - a.scale), b.unscaled * Pow10(k - b.scale))
  }

  /** a.compareTo(b) >= 0 */
  predicate AtLeast(a: Decimal, b: Decimal)
  {
    var (x, y) := AlignedUnscaled(a, b);
    x >= y
  }

  /**
   * The check of Hibernate Validator's @Digits for a BigDecimal: the integer
   * part has precision - scale digits and the fraction max(scale, 0) digits.
   * Trailing zeros count: 1.000 has three fraction digits.
   */
  predicate HasDigits(d: Decimal, maxInteger: nat, maxFraction: nat)
  {
    && Precision(d) - d.scale <= maxInteger
    && (if d.scale < 0 then 0 else d.scale) <= maxFraction
  }

  /** A number with k >= 1 digits at most is exactly a number below 10^k. */
  lemma {:induction false} NumDigitsBound(n: nat, k: nat)
    requires k >= 1
    ensures NumDigits(n) <= k <==> n < Pow10(k)
  {
    if n >= 10 && k > 1 {
      NumDigitsBound(n / 10, k - 1);
      assert n / 10 < Pow10(k - 1) <==> n < 10 * Pow10(k - 1);
    }
  }

  /** The magnitude |unscaled| * 10^(-scale) is below 10^k. */
  predicate MagnitudeBelowPow10(d: Decimal, k: nat)
  {
    if d.scale >= 0 then Abs(d.unscaled) < Pow10(k + d.scale)
    else Abs(d.unscaled) * Pow10(-d.scale) < Pow10(k)
  }

  lemma MulAssociates(x: int, y: int, z: int)
    ensures x * (y * z) == (x * y) * z
  {
  }

  lemma {:induction false} Pow10Add(a: nat, b: nat)
    ensures Pow10(a + b) == Pow10(a) * Pow10(b)
  {
    if a > 0 {
      Pow10Add(a - 1, b);
      calc {
        Pow10(a + b);
        10 * Pow10(a - 1 + b);
        10 * (Pow10(a - 1) * Pow10(b));
        { MulAssociates(10, Pow10(a - 1), Pow10(b)); }
        (10 * Pow10(a - 1)) * Pow10(b);
        Pow10(a) * Pow10(b);
      }
    }
  }

  lemma {:induction false} Pow10Monotone(a: nat, b: nat)
    requires a <= b
    ensures Pow10(a) <= Pow10(b)
  {
    if a < b {
      Pow10Monotone(a, b - 1);
    }
  }

  /** Multiplying by a positive factor keeps a strict order, in both directions. */
  lemma ScaleByPositive(x: nat, y: nat, c: nat)
    requires c >= 1
    ensures x < y <==> x * c < y * c
  {
    if x < y {
      assert y * c == x * c + (y - x) * c;
    } else {
      assert x * c == y * c + (x - y) * c;
    }
  }

  /**
   * For a non-zero value of negative scale, @Digits(integer = i) holds
   * exactly when the magnitude is below 10^i. The fraction part of such a
   * value has no digits, so any fraction bound is met.
   */
  lemma NegativeScaleDigits(d: Decimal, i: nat, f: nat)
    requires d.scale < 0 && d.unscaled != 0
    requires i >= 1
    ensures HasDigits(d, i, f) <==> MagnitudeBelowPow10(d, i)
  {
    var a, s := Abs(d.unscaled), -d.scale;
    ScaleByPositive(1, a, Pow10(s));
    if s >= i {
      Pow10Monotone(i, s);
      assert !MagnitudeBelowPow10(d, i);
    } else {
      NumDigitsBound(a, i - s);
      Pow10Add(i - s, s);
      ScaleByPositive(a, Pow10(i - s), Pow10(s));
    }
  }

  /** For a negative scale, the magnitude |unscaled| * 10^(-scale) reaches 10^k. */
  predicate NegativeScaleReaches(d: Decimal, k: nat)
  {
    d.scale < 0 && Abs(d.unscaled) * Pow10(-d.scale) >= Pow10(k)
  }

  /** A magnitude of negative scale reaching 10^i fails @Digits(integer = i). */
  lemma NegativeScaleExceedsDigits(d: Decimal, i: nat, f: nat)
    requires NegativeScaleReaches(d, i) && i >= 1
    ensures !HasDigits(d, i, f)
  {
    NegativeScaleDigits(d, i, f);
  }

  /** A value that is not positive is below any positive bound. */
  lemma NonPositiveBelowPositive(a: Decimal, b: Decimal)
    requires a.unscaled <= 0 < b.unscaled
    ensures !AtLeast(a, b)
  {
  }

  /**
   * For a non-negative scale s, a BigDecimal satisfies @Digits(integer = i,
   * fraction = f) exactly when s <= f and |unscaled| < 10^(i + s), that is,
   * when its magnitude is below 10^i.
   */
  lemma DigitsCharacterisation(d: Decimal, i: nat, f: nat)
    requires 0 <= d.scale
    requires i >= 1
    ensures HasDigits(d, i, f) <==> d.scale <= f && Abs(d.unscaled) < Pow10(i + d.scale)
  {
    NumDigitsBound(Abs(d.unscaled), i + d.scale);
  }
}
