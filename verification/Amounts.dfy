/** The guard on decimal amounts before they are stored with four decimals, rounding at 28 digits included. */
module Amounts {
  import opened Wrappers
  import opened Texts

  /** A finite positive decimal: the coefficient times ten to the exponent. */
  datatype Decimal = Decimal(coefficient: nat, exponent: int)

  const PRECISION: nat := 28
  const SCALE: int := 4
  const INTEGER_DIGITS: int := 15

  function Ten(n: nat): (p: nat)
    ensures p >= 1
  {
    PowerPositive(10, n);
    Power(10, n)
  }

  lemma {:induction false} PowerPositive(base: nat, n: nat)
    requires base >= 1
    ensures Power(base, n) >= 1
  {
    if n > 0 { PowerPositive(base, n - 1); }
  }

  lemma {:induction false} TenAdds(m: nat, n: nat)
    ensures Ten(m + n) == Ten(m) * Ten(n)
  {
    if m > 0 {
      TenAdds(m - 1, n);
      assert Ten(m + n) == 10 * Ten(m - 1 + n) && Ten(m) == 10 * Ten(m - 1);
    }
  }

  /** How many digits the coefficient has. */
  function DigitCount(c: nat): (n: nat)
    ensures c > 0 ==> n > 0
  {
    if c == 0 then 0 else 1 + DigitCount(c / 10)
  }

  lemma {:induction false} DigitCountBounds(c: nat)
    requires c > 0
    ensures Ten(DigitCount(c) - 1) <= c < Ten(DigitCount(c))
  {
    if c >= 10 {
      DigitCountBounds(c / 10);
      assert Ten(DigitCount(c)) == 10 * Ten(DigitCount(c) - 1);
      assert Ten(DigitCount(c) - 1) == 10 * Ten(DigitCount(c) - 2);
    } else {
      assert Ten(0) == 1 && Ten(1) == 10 * Ten(0);
    }
  }

  /** The digits past the 28th. */
  function Excess(d: Decimal): nat
  {
    if DigitCount(d.coefficient) <= PRECISION then 0 else DigitCount(d.coefficient) - PRECISION
  }

  /** The nearest whole quotient, ties to even. */
  function HalfEven(n: nat, unit: nat): nat
    requires unit > 0
  {
    var q, r := n / unit, n % unit;
    if 2 * r > unit || (2 * r == unit && q % 2 == 1) then q + 1 else q
  }

  /** Rounds to 28 significant digits. */
  function Rounded(d: Decimal): Decimal
  {
    Decimal(HalfEven(d.coefficient, Ten(Excess(d))), d.exponent + Excess(d))
  }

  /** Removes trailing zeros. */
  function Stripped(d: Decimal): Decimal
    decreases d.coefficient
  {
    if d.coefficient > 0 && d.coefficient % 10 == 0 then Stripped(Decimal(d.coefficient / 10, d.exponent + 1)) else d
  }

  /** Less than ten to the fifteenth. */
  predicate InRange(d: Decimal)
  {
    if d.exponent >= 0 then d.coefficient * Ten(d.exponent) < Ten(INTEGER_DIGITS)
    else d.coefficient < Ten(INTEGER_DIGITS - d.exponent)
  }

  /** The guard: positive, in range, and at most four decimals after normalizing. */
  predicate Accepts(d: Decimal)
  {
    d.coefficient > 0 && InRange(d) && Stripped(Rounded(d)).exponent >= -SCALE
  }

  /** The amount itself is a whole number of ten-thousandths. */
  predicate Exact(d: Decimal)
  {
    d.exponent >= -SCALE || d.coefficient % Ten(-d.exponent - SCALE) == 0
  }

  /** Stripping decides exactness. */
  lemma {:induction false} StrippedExact(d: Decimal)
    requires d.coefficient > 0
    ensures Stripped(d).exponent >= -SCALE <==> Exact(d)
    decreases d.coefficient
  {
    if d.coefficient % 10 == 0 {
      StrippedExact(Decimal(d.coefficient / 10, d.exponent + 1));
      if d.exponent < -SCALE { TenthExact(d.coefficient, -d.exponent - SCALE); }
    } else if d.exponent < -SCALE {
      var m: nat := -d.exponent - SCALE;
      assert Ten(m) == 10 * Ten(m - 1);
      MultipleOfTen(d.coefficient, Ten(m - 1));
    }
  }

  lemma TenthExact(c: nat, m: nat)
    requires c % 10 == 0 && m > 0
    ensures c % Ten(m) == 0 <==> (c / 10) % Ten(m - 1) == 0
  {
    assert Ten(m) == 10 * Ten(m - 1);
    TenTimes(c / 10, Ten(m - 1));
  }

  lemma TenTimes(b: nat, p: nat)
    requires p > 0
    ensures 10 * b % (10 * p) == 0 <==> b % p == 0
  {
    var q, r := b / p, b % p;
    assert b == q * p + r;
    assert 10 * b == q * (10 * p) + 10 * r;
    DivisionIsUnique(10 * b, 10 * p, q, 10 * r);
  }

  lemma {:induction false} AtLeastOnce(k: nat, p: nat)
    requires k >= 1
    ensures k * p >= p
  {
    if k > 1 {
      AtLeastOnce(k - 1, p);
      assert k * p == (k - 1) * p + p;
    }
  }

  lemma DivisionIsUnique(x: nat, p: nat, q: nat, r: nat)
    requires p > 0 && x == q * p + r && r < p
    ensures x / p == q && x % p == r
  {
    var q', r' := x / p, x % p;
    assert x == q' * p + r';
    assert (q' - q) * p == q' * p - q * p && (q - q') * p == q * p - q' * p;
    if q' > q {
      AtLeastOnce(q' - q, p);
    } else if q' < q {
      AtLeastOnce(q - q', p);
    }
  }

  lemma MultipleIsZero(k: nat, p: nat)
    requires p > 0
    ensures k * p % p == 0 && k * p / p == k
  {
    DivisionIsUnique(k * p, p, k, 0);
  }

  lemma MultipleOfTen(c: nat, p: nat)
    requires p > 0
    ensures c % (10 * p) == 0 ==> c % 10 == 0
  {
    if c % (10 * p) == 0 {
      var k := c / (10 * p);
      assert c == k * (10 * p) == (k * p) * 10;
      MultipleIsZero(k * p, 10);
    }
  }

  /** Up to 28 digits nothing is rounded: exactly the amounts in range with at most four decimals are accepted. */
  lemma ShortAmountsAreExact(d: Decimal)
    requires d.coefficient > 0 && DigitCount(d.coefficient) <= PRECISION
    ensures Accepts(d) <==> InRange(d) && Exact(d)
  {
    assert Ten(0) == 1;
    assert Rounded(d) == d;
    StrippedExact(d);
  }

  /** A multiple of a power of ten with at least as many zeros is a multiple of the smaller one. */
  lemma FewerZeros(j: nat, m: nat, n: nat)
    requires m <= n
    ensures j * Ten(n) % Ten(m) == 0
  {
    TenAdds(n - m, m);
    assert j * Ten(n) == j * Ten(n - m) * Ten(m);
    MultipleIsZero(j * Ten(n - m), Ten(m));
  }

  /** Dropping zeros alone keeps an exact amount exact. */
  lemma DroppingZeros(d: Decimal)
    requires d.coefficient % Ten(Excess(d)) == 0 && Exact(Rounded(d))
    ensures Exact(d)
  {
    var k := Excess(d);
    var q := d.coefficient / Ten(k);
    assert d.coefficient == q * Ten(k);
    assert Rounded(d) == Decimal(q, d.exponent + k);
    if d.exponent < -SCALE {
      var m: nat := -d.exponent - SCALE;
      if m <= k { FewerZeros(q, m, k); } else { MoreZeros(q, m, k); }
    }
  }

  lemma MoreZeros(q: nat, m: nat, k: nat)
    requires k < m && q % Ten(m - k) == 0
    ensures q * Ten(k) % Ten(m) == 0
  {
    var j := q / Ten(m - k);
    TenAdds(m - k, k);
    assert q * Ten(k) == j * Ten(m - k) * Ten(k) == j * Ten(m);
    MultipleIsZero(j, Ten(m));
  }

  /** In range, the 28 digits kept always reach past the fourth decimal. */
  lemma ExcessIsBeyondScale(d: Decimal)
    requires d.coefficient > 0 && InRange(d) && Excess(d) > 0
    ensures d.exponent + Excess(d) < -SCALE
  {
    var n := DigitCount(d.coefficient);
    DigitCountBounds(d.coefficient);
    if d.exponent >= 0 {
      AtLeastOnce(Ten(d.exponent), d.coefficient);
      TenReflects(n - 1, INTEGER_DIGITS);
    } else {
      TenReflects(n - 1, INTEGER_DIGITS - d.exponent);
    }
  }

  lemma TenReflects(m: nat, n: nat)
    ensures Ten(m) < Ten(n) ==> m < n
  {
    if n <= m { TenMonotone(n, m); }
  }

  lemma {:induction false} TenMonotone(m: nat, n: nat)
    requires m <= n
    ensures Ten(m) <= Ten(n)
  {
    if m < n { TenMonotone(m, n - 1); }
  }

  /**
   * An accepted amount has at most four decimals exactly if the digits past its 28th are all zero: what is
   * checked is the amount after rounding.
   */
  lemma AcceptedIsExactIff(d: Decimal)
    requires Accepts(d)
    ensures Exact(d) <==> d.coefficient % Ten(Excess(d)) == 0
  {
    assert Ten(0) == 1;
    RoundedPositive(d);
    StrippedExact(Rounded(d));
    if d.coefficient % Ten(Excess(d)) == 0 { DroppingZeros(d); }
    if Exact(d) && Excess(d) > 0 { ExactDropsZeros(d); }
  }

  lemma ExactDropsZeros(d: Decimal)
    requires d.coefficient > 0 && InRange(d) && Exact(d) && Excess(d) > 0
    ensures d.coefficient % Ten(Excess(d)) == 0
  {
    ExcessIsBeyondScale(d);
    var m: nat := -d.exponent - SCALE;
    var j := d.coefficient / Ten(m);
    assert d.coefficient == j * Ten(m);
    FewerZeros(j, Excess(d), m);
  }

  lemma RoundedPositive(d: Decimal)
    requires d.coefficient > 0
    ensures Rounded(d).coefficient > 0
  {
    var n, k := DigitCount(d.coefficient), Excess(d);
    DigitCountBounds(d.coefficient);
    assert Ten(0) == 1;
    TenMonotone(k, n - 1);
    QuotientPositive(d.coefficient, Ten(k));
  }

  lemma QuotientPositive(c: nat, p: nat)
    requires 0 < p <= c
    ensures c / p >= 1
  {
    assert c == c / p * p + c % p;
  }

  lemma {:induction false} DigitCountIs(c: nat, n: nat)
    requires n > 0 && Ten(n - 1) <= c < Ten(n)
    ensures DigitCount(c) == n
  {
    assert Ten(0) == 1;
    if n > 1 {
      assert Ten(n) == 10 * Ten(n - 1) && Ten(n - 1) == 10 * Ten(n - 2);
      DigitCountIs(c / 10, n - 1);
    }
  }

  lemma {:induction false} StrippedTen(n: nat, exponent: int)
    ensures Stripped(Decimal(Ten(n), exponent)) == Decimal(1, exponent + n)
  {
    if n > 0 {
      assert Ten(n) == 10 * Ten(n - 1);
      StrippedTen(n - 1, exponent + 1);
    }
  }

  /**
   * One, and one unit in any decimal from the 29th on, is accepted although nothing of it past the fourth
   * decimal can be stored.
   */
  lemma LongAmountIsAccepted(n: int)
    requires n > PRECISION
    ensures Accepts(Decimal(Ten(n) + 1, -n)) && !Exact(Decimal(Ten(n) + 1, -n))
  {
    LongAmountInRange(n);
    LongAmountRounds(n);
    var k := Excess(Decimal(Ten(n) + 1, -n));
    StrippedTen(n - k, k - n);
    LongAmountInexact(n);
  }

  lemma LongAmountInRange(n: int)
    requires n > PRECISION
    ensures InRange(Decimal(Ten(n) + 1, -n))
  {
    assert Ten(n + 1) == 10 * Ten(n);
    TenMonotone(n + 1, INTEGER_DIGITS + n);
  }

  lemma LongAmountInexact(n: int)
    requires n > PRECISION
    ensures !Exact(Decimal(Ten(n) + 1, -n))
  {
    var m: nat := n - SCALE;
    TenAdds(SCALE, m);
    assert Ten(m) == 10 * Ten(m - 1);
    OneMore(Ten(SCALE), Ten(m));
  }

  /** Its last digit is rounded away. */
  lemma LongAmountRounds(n: int)
    requires n > PRECISION
    ensures var d := Decimal(Ten(n) + 1, -n);
              0 < Excess(d) <= n && Rounded(d) == Decimal(Ten(n - Excess(d)), Excess(d) - n)
  {
    var d := Decimal(Ten(n) + 1, -n);
    assert Ten(n + 1) == 10 * Ten(n);
    DigitCountIs(d.coefficient, n + 1);
    var k := Excess(d);
    assert k == n + 1 - PRECISION;
    TenAdds(n - k, k);
    TenMonotone(2, k);
    assert Ten(2) == 100 by { assert Ten(0) == 1 && Ten(1) == 10 * Ten(0) && Ten(2) == 10 * Ten(1); }
    DivisionIsUnique(d.coefficient, Ten(k), Ten(n - k), 1);
  }

  lemma OneMore(k: nat, p: nat)
    requires p > 1
    ensures (k * p + 1) % p == 1
  {
    DivisionIsUnique(k * p + 1, p, k, 1);
  }
}
