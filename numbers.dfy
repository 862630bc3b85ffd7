/**
 * The host's arbitrary-precision numbers: BigInteger values are Dafny `int`s,
 * BigDecimal values are an unscaled integer with a non-negative scale
 * (the value is unscaled / 10^scale). Exact arithmetic, comparison, parsing of
 * literal text and the canonical text form are stated here once and used by the
 * parser, the analyzer, the interpreter and the generator.
 */
module Numbers {
  import opened Common

  function Pow10(n: nat): (r: nat)
    ensures r >= 1
  {
    if n == 0 then 1 else 10 * Pow10(n - 1)
  }

  lemma {:induction false} Pow10Add(m: nat, n: nat)
    ensures Pow10(m + n) == Pow10(m) * Pow10(n)
  {
    if m > 0 {
      Pow10Add(m - 1, n);
      assert Pow10(m + n) == 10 * Pow10(m - 1 + n);
    }
  }

  function Abs(x: int): nat {
    if x < 0 then -x else x
  }

  /** A BigDecimal: the number unscaled * 10^(-scale). */
  datatype Decimal = Decimal(unscaled: int, scale: nat)

  /** The number a decimal denotes. */
  function Value(d: Decimal): real {
    d.unscaled as real / Pow10(d.scale) as real
  }

  function Max(a: nat, b: nat): nat {
    if a < b then b else a
  }

  /** The unscaled value of `d` rewritten at the larger scale `s`. */
  function Align(d: Decimal, s: nat): int
    requires d.scale <= s
  {
    d.unscaled * Pow10(s - d.scale)
  }

  lemma CancelLeft(x: real, p: real, q: real)
    requires p > 0.0 && q > 0.0
    ensures (x * p) / (p * q) == x / q
  {
    assert (x * p) / (p * q) * (p * q) == x * p;
    assert (x / q) * (p * q) == x * p;
  }

  lemma SumOverDenominator(x: real, y: real, p: real)
    requires p > 0.0
    ensures (x + y) / p == x / p + y / p
    ensures (x - y) / p == x / p - y / p
  {
  }

  lemma ProductOverDenominators(x: real, y: real, p: real, q: real)
    requires p > 0.0 && q > 0.0
    ensures (x * y) / (p * q) == (x / p) * (y / q)
  {
    assert (x / p) * p == x;
    assert (y / q) * q == y;
    assert (x / p) * (y / q) * (p * q) == ((x / p) * p) * ((y / q) * q);
  }

  lemma RealOfProduct(x: int, y: int)
    ensures (x * y) as real == x as real * y as real
  {
  }

  lemma AlignValue(d: Decimal, s: nat)
    requires d.scale <= s
    ensures Value(Decimal(Align(d, s), s)) == Value(d)
  {
    var k := s - d.scale;
    Pow10Add(k, d.scale);
    IntCancel(d.unscaled, Pow10(k), Pow10(d.scale));
  }

  lemma IntCancel(x: int, m: nat, q: nat)
    requires m > 0 && q > 0
    ensures (x * m) as real / (m * q) as real == x as real / q as real
  {
    RealOfProduct(x, m);
    RealOfProduct(m, q);
    CancelLeft(x as real, m as real, q as real);
  }

  /** BigDecimal.add: exact, at the larger of the two scales. */
  function Add(a: Decimal, b: Decimal): (r: Decimal)
    ensures r.scale == Max(a.scale, b.scale)
    ensures Value(r) == Value(a) + Value(b)
  {
    var s := Max(a.scale, b.scale);
    AlignValue(a, s);
    AlignValue(b, s);
    SumOverDenominator(Align(a, s) as real, Align(b, s) as real, Pow10(s) as real);
    Decimal(Align(a, s) + Align(b, s), s)
  }

  /** BigDecimal.subtract: exact, at the larger of the two scales. */
  function Subtract(a: Decimal, b: Decimal): (r: Decimal)
    ensures r.scale == Max(a.scale, b.scale)
    ensures Value(r) == Value(a) - Value(b)
  {
    var s := Max(a.scale, b.scale);
    AlignValue(a, s);
    AlignValue(b, s);
    SumOverDenominator(Align(a, s) as real, Align(b, s) as real, Pow10(s) as real);
    Decimal(Align(a, s) - Align(b, s), s)
  }

  /** BigDecimal.multiply: exact, at the sum of the two scales. */
  function Multiply(a: Decimal, b: Decimal): (r: Decimal)
    ensures r.scale == a.scale + b.scale
    ensures Value(r) == Value(a) * Value(b)
  {
    MultiplyValue(a, b);
    Decimal(a.unscaled * b.unscaled, a.scale + b.scale)
  }

  lemma MultiplyValue(a: Decimal, b: Decimal)
    ensures Value(Decimal(a.unscaled * b.unscaled, a.scale + b.scale)) == Value(a) * Value(b)
  {
    var p, q := Pow10(a.scale), Pow10(b.scale);
    Pow10Add(a.scale, b.scale);
    IntQuotientOfProducts(a.unscaled, b.unscaled, p, q);
  }

  lemma IntQuotientOfProducts(x: int, y: int, p: nat, q: nat)
    requires p > 0 && q > 0
    ensures (x * y) as real / (p * q) as real == (x as real / p as real) * (y as real / q as real)
  {
    RealOfProduct(x, y);
    RealOfProduct(p, q);
    ProductOverDenominators(x as real, y as real, p as real, q as real);
  }

  function Sign(x: int): int {
    if x < 0 then -1 else if x == 0 then 0 else 1
  }

  /** BigDecimal.compareTo: the sign of a - b; the scale plays no part. */
  function Compare(a: Decimal, b: Decimal): (c: int)
    ensures c == -1 <==> Value(a) < Value(b)
    ensures c == 0 <==> Value(a) == Value(b)
    ensures c == 1 <==> Value(a) > Value(b)
  {
    var s := Max(a.scale, b.scale);
    AlignValue(a, s);
    AlignValue(b, s);
    var p := Pow10(s) as real;
    assert Value(a) == Align(a, s) as real / p;
    assert Value(b) == Align(b, s) as real / p;
    DivideMonotone(Align(a, s), Align(b, s), p);
    Sign(Align(a, s) - Align(b, s))
  }

  lemma DivideMonotone(x: int, y: int, p: real)
    requires p > 0.0
    ensures x < y <==> x as real / p < y as real / p
    ensures x == y <==> x as real / p == y as real / p
  {
    if x < y {
      assert (y as real - x as real) / p > 0.0;
      assert y as real / p - x as real / p == (y as real - x as real) / p;
    } else if y < x {
      assert (x as real - y as real) / p > 0.0;
      assert x as real / p - y as real / p == (x as real - y as real) / p;
    }
  }

  /**
   * n / d rounded to the nearest integer, ties to the even neighbour
   * (RoundingMode.HALF_EVEN).
   */
  function RoundHalfEven(n: int, d: int): (q: int)
    requires d != 0
    ensures 2 * Abs(n - q * d) <= Abs(d)
    ensures 2 * Abs(n - q * d) == Abs(d) ==> q % 2 == 0
    decreases if d < 0 then 1 else 0
  {
    if d < 0 then
      var q := RoundHalfEven(-n, -d);
      NegateBoth(n, d, q);
      q
    else
      var q, r := n / d, n % d;
      RemainderOf(n, d);
      if 2 * r < d then
        q
      else if 2 * r > d then
        NextQuotient(n, d, q);
        q + 1
      else if q % 2 == 0 then
        q
      else
        NextQuotient(n, d, q);
        q + 1
  }

  lemma RemainderOf(n: int, d: int)
    requires d > 0
    ensures n - (n / d) * d == n % d
  {
  }

  lemma NextQuotient(n: int, d: int, q: int)
    ensures n - (q + 1) * d == (n - q * d) - d
  {
    assert (q + 1) * d == q * d + d;
  }

  lemma NegateBoth(n: int, d: int, q: int)
    ensures -n - q * -d == -(n - q * d)
  {
    assert q * -d == -(q * d);
  }

  /**
   * BigDecimal.divide(divisor, RoundingMode.HALF_EVEN): the quotient at the
   * dividend's scale, rounded half-even; a zero divisor is an ArithmeticException.
   */
  function Divide(a: Decimal, b: Decimal): (r: Option<Decimal>)
    ensures r.None? <==> b.unscaled == 0
    ensures r.Some? ==> r.value.scale == a.scale
  {
    if b.unscaled == 0 then None
    else Some(Decimal(RoundHalfEven(a.unscaled * Pow10(b.scale), b.unscaled), a.scale))
  }

  /** The quotient of Divide is the exact quotient to within half a unit in its last place. */
  lemma DivideIsNearest(a: Decimal, b: Decimal)
    requires b.unscaled != 0
    ensures var q := Divide(a, b).value.unscaled;
      2 * Abs(a.unscaled * Pow10(b.scale) - q * b.unscaled) <= Abs(b.unscaled)
  {
  }

  /** 7.0 / 2.0 is 3.5, and 2.5 / 1 rounds to the even 2 at scale 1 ... tie cases use scale 0. */
  lemma DivideExamples()
    ensures Divide(Decimal(70, 1), Decimal(20, 1)) == Some(Decimal(35, 1))
    ensures Divide(Decimal(5, 0), Decimal(2, 0)) == Some(Decimal(2, 0))
    ensures Divide(Decimal(7, 0), Decimal(2, 0)) == Some(Decimal(4, 0))
    ensures Divide(Decimal(10, 1), Decimal(0, 3)) == None
  {
    assert Pow10(1) == 10;
    assert RoundHalfEven(700, 20) == 35;
    assert RoundHalfEven(5, 2) == 2;
    assert RoundHalfEven(7, 2) == 4;
  }

  /**
   * BigInteger.divide: the quotient truncated toward zero; a zero divisor is an
   * ArithmeticException.
   */
  function TruncatedDivide(a: int, b: int): (q: Option<int>)
    ensures q.None? <==> b == 0
    ensures q.Some? ==> Abs(a - q.value * b) < Abs(b)
    ensures q.Some? ==> (a - q.value * b) * a >= 0
  {
    if b == 0 then None
    else
      var m := Abs(a) / Abs(b);
      var q := if (a < 0) == (b < 0) then m else -m;
      TruncatedRemainder(a, b, m, Abs(a) % Abs(b));
      Some(q)
  }

  lemma TruncatedRemainder(a: int, b: int, m: int, r: int)
    requires b != 0 && m == Abs(a) / Abs(b) && r == Abs(a) % Abs(b)
    ensures 0 <= r < Abs(b)
    ensures a - (if (a < 0) == (b < 0) then m else -m) * b == (if a < 0 then -r else r)
    ensures ((if a < 0 then -r else r)) * a >= 0
  {
    assert Abs(a) == m * Abs(b) + r;
    if b < 0 {
      assert m * Abs(b) == -(m * b);
      assert (-m) * b == -(m * b);
    }
    if a < 0 {
      assert (-r) * a == r * Abs(a);
    } else {
      assert r * a == r * Abs(a);
    }
  }

  // ----- text forms -----

  predicate IsDigit(c: char) {
    '0' <= c <= '9'
  }

  function DigitValue(c: char): nat
    requires IsDigit(c)
  {
    c as int - '0' as int
  }

  function DigitChar(n: nat): (c: char)
    requires n < 10
    ensures IsDigit(c) && DigitValue(c) == n
  {
    ('0' as int + n) as char
  }

  predicate AllDigits(s: string) {
    forall i :: 0 <= i < |s| ==> IsDigit(s[i])
  }

  /** The number a run of decimal digits denotes, most significant first. */
  function DigitsValue(s: string): nat
    requires AllDigits(s)
  {
    if s == [] then 0 else 10 * DigitsValue(s[..|s| - 1]) + DigitValue(s[|s| - 1])
  }

  /** Decimal digits of n without leading zeros (Java's toString of a non-negative BigInteger). */
  function NatToString(n: nat): (s: string)
    ensures |s| >= 1 && AllDigits(s)
  {
    if n < 10 then [DigitChar(n)] else NatToString(n / 10) + [DigitChar(n % 10)]
  }

  lemma {:induction false} NatToStringValue(n: nat)
    ensures DigitsValue(NatToString(n)) == n
  {
    if n >= 10 {
      NatToStringValue(n / 10);
      var s := NatToString(n);
      assert s[..|s| - 1] == NatToString(n / 10);
    }
  }

  /** BigInteger.toString. */
  function IntToString(n: int): string {
    if n < 0 then "-" + NatToString(-n) else NatToString(n)
  }

  /**
   * new BigInteger(text): an optional '+' or '-' then one or more decimal digits;
   * anything else is a NumberFormatException (None).
   */
  function ParseBigInteger(s: string): (r: Option<int>)
    ensures r.Some? ==> |s| >= 1
  {
    if |s| > 0 && (s[0] == '+' || s[0] == '-') then
      var ds := s[1..];
      if |ds| > 0 && AllDigits(ds) then
        Some(if s[0] == '-' then -(DigitsValue(ds) as int) else DigitsValue(ds))
      else None
    else if |s| > 0 && AllDigits(s) then Some(DigitsValue(s))
    else None
  }

  /** BigInteger's text form reads back as the same number. */
  lemma IntRoundTrip(n: int)
    ensures ParseBigInteger(IntToString(n)) == Some(n)
  {
    if n < 0 {
      NatToStringValue(-n);
      assert IntToString(n)[1..] == NatToString(-n);
    } else {
      NatToStringValue(n);
    }
  }

  /** Index of the first '.' in s, or |s| when there is none. */
  function DotIndex(s: string): (k: nat)
    ensures k <= |s|
    ensures forall i :: 0 <= i < k ==> s[i] != '.'
    ensures k < |s| ==> s[k] == '.'
  {
    if s == [] then 0 else if s[0] == '.' then 0 else 1 + DotIndex(s[1..])
  }

  /**
   * new BigDecimal(text) for the plain notation: an optional sign, digits with at
   * most one '.', and at least one digit; the scale is the number of digits after
   * the point. Exponent notation is not part of this model and reads as None.
   */
  function ParseBigDecimal(s: string): (r: Option<Decimal>)
  {
    var neg := |s| > 0 && s[0] == '-';
    var body := if |s| > 0 && (s[0] == '+' || s[0] == '-') then s[1..] else s;
    var k := DotIndex(body);
    var whole := body[..k];
    var frac := if k < |body| then body[k + 1..] else [];
    if |whole| + |frac| > 0 && AllDigits(whole) && AllDigits(frac) then
      var u := DigitsValue(whole + frac);
      Some(Decimal(if neg then -(u as int) else u, |frac|))
    else None
  }

  function Zeros(n: nat): (s: string)
    ensures |s| == n
  {
    if n == 0 then "" else "0" + Zeros(n - 1)
  }

  /**
   * BigDecimal.toString: plain notation while the adjusted exponent
   * (-scale + digits - 1) is at least -6, scientific notation below that.
   */
  function DecimalToString(d: Decimal): string {
    var coef := NatToString(Abs(d.unscaled));
    var sign := if d.unscaled < 0 then "-" else "";
    var adjusted := -(d.scale as int) + (|coef| - 1);
    if d.scale == 0 then
      sign + coef
    else if adjusted >= -6 then
      if |coef| > d.scale then
        sign + coef[..|coef| - d.scale] + "." + coef[|coef| - d.scale..]
      else
        sign + "0." + Zeros(d.scale - |coef|) + coef
    else
      sign + coef[..1] + (if |coef| > 1 then "." + coef[1..] else "") + "E-" + NatToString(-adjusted)
  }

  /** new BigDecimal keeps the digits after the point as the scale: "3.50" is 350 at scale 2. */
  lemma ParseDecimalExample()
    ensures ParseBigDecimal("3.50") == Some(Decimal(350, 2))
  {
    assert DotIndex("3.50") == 1 by {
      assert "3.50"[1..] == ".50";
    }
    assert "3.50"[..1] + "3.50"[2..] == "350";
    assert DigitsValue("350") == 350 by {
      assert "350"[..2] == "35";
      assert "35"[..1] == "3";
    }
  }

  lemma ParseNegativeDecimalExample()
    ensures ParseBigDecimal("-0.5") == Some(Decimal(-5, 1))
  {
    assert "-0.5"[1..] == "0.5";
    assert DotIndex("0.5") == 1 by {
      assert "0.5"[1..] == ".5";
    }
    assert "0.5"[..1] + "0.5"[2..] == "05";
    assert DigitsValue("05") == 5 by {
      assert "05"[..1] == "0";
    }
  }

  /** Text that is not a number is a NumberFormatException. */
  lemma ParseRejectsExamples()
    ensures ParseBigDecimal("1.2.3") == None
    ensures ParseBigInteger("1a") == None
  {
    assert DotIndex("1.2.3") == 1 by {
      assert "1.2.3"[1..] == ".2.3";
    }
    assert "1.2.3"[2..] == "2.3";
    assert !IsDigit("2.3"[1]);
    assert !IsDigit("1a"[1]);
  }

  lemma ParseSignedIntegerExample()
    ensures ParseBigInteger("+12") == Some(12)
  {
    assert "+12"[1..] == "12";
    assert DigitsValue("12") == 12 by {
      assert "12"[..1] == "1";
    }
  }
}
