/**
 * Decimal numbers as sign, coefficient and exponent: numeric value, normal form, and rounding to the default context.
 */
module Decimals {
  type Digit = d: int | 0 <= d < 10

  datatype Dec = Dec(negative: bool, coefficient: nat, exponent: int)

  /** Significant digits kept by the default arithmetic context. */
  const PRECISION: nat := 28

  function Pow10(k: nat): (p: nat)
    ensures p >= 1
  {
    if k == 0 then 1 else 10 * Pow10(k - 1)
  }

  function Signed(d: Dec): int {
    if d.negative then 0 - d.coefficient else d.coefficient
  }

  /** The number n * 10^e. */
  ghost function Worth(n: int, e: int): real
    decreases if e >= 0 then e else -e
  {
    if e == 0 then n as real else if e > 0 then Worth(10 * n, e - 1) else Worth(n, e + 1) / 10.0
  }

  /** The number a decimal stands for. */
  ghost function Value(d: Dec): real {
    Worth(Signed(d), d.exponent)
  }

  function IsZero(d: Dec): bool {
    d.coefficient == 0
  }

  // ---------- worth ----------

  lemma {:induction false} WorthAdds(x: int, y: int, e: int)
    ensures Worth(x + y, e) == Worth(x, e) + Worth(y, e)
    decreases if e >= 0 then e else -e
  {
    if e > 0 {
      WorthAdds(10 * x, 10 * y, e - 1);
    } else if e < 0 {
      WorthAdds(x, y, e + 1);
    }
  }

  /** Worth is strictly increasing in the coefficient, so equal worths at one exponent are equal coefficients. */
  lemma {:induction false} WorthInjective(x: int, y: int, e: int)
    ensures Worth(x, e) == Worth(y, e) <==> x == y
    ensures Worth(x, e) == 0.0 <==> x == 0
    decreases if e >= 0 then e else -e
  {
    if e > 0 {
      WorthInjective(10 * x, 10 * y, e - 1);
    } else if e < 0 {
      WorthInjective(x, y, e + 1);
    }
  }

  lemma {:induction false} WorthTens(n: int, e: int)
    ensures Worth(10 * n, e) == 10.0 * Worth(n, e)
    decreases if e >= 0 then e else -e
  {
    if e > 0 {
      WorthTens(10 * n, e - 1);
    } else if e < 0 {
      WorthTens(n, e + 1);
    }
  }

  lemma IntAssoc(x: int, y: int, z: int)
    ensures (x * y) * z == x * (y * z)
  {
  }

  lemma NegProduct(x: int, y: int)
    ensures (0 - x) * y == 0 - x * y
  {
  }

  lemma {:induction false} Pow10Add(a: nat, b: nat)
    ensures Pow10(a + b) == Pow10(a) * Pow10(b)
  {
    if a > 0 {
      Pow10Add(a - 1, b);
      assert Pow10(a) * Pow10(b) == 10 * (Pow10(a - 1) * Pow10(b));
    }
  }

  lemma {:induction false} Pow10Monotone(a: nat, b: nat)
    ensures a < b ==> Pow10(a) < Pow10(b)
    ensures Pow10(a) < Pow10(b) ==> a < b
    decreases a + b
  {
    if a > 0 && b > 0 {
      Pow10Monotone(a - 1, b - 1);
    } else if a == 0 && b > 0 {
      Pow10Monotone(0, b - 1);
    } else if a > 0 && b == 0 {
      Pow10Monotone(a - 1, 0);
    }
  }

  /** A signed coefficient n at exponent e + k is worth n * 10^k at exponent e. */
  lemma {:induction false} Shift(n: int, e: int, k: nat)
    ensures Worth(n * Pow10(k), e) == Worth(n, e + k)
    decreases k
  {
    if k > 0 {
      Shift(10 * n, e, k - 1);
      IntAssoc(n, 10, Pow10(k - 1));
      WorthTens(n, e + k - 1);
    } else {
      assert n * Pow10(0) == n;
    }
  }

  /** The value of a coefficient scaled down by k places while its exponent grows by k. */
  lemma Rescale(negative: bool, c: nat, e: int, k: nat)
    ensures Value(Dec(negative, c * Pow10(k), e)) == Value(Dec(negative, c, e + k))
  {
    NegProduct(c, Pow10(k));
    Shift(if negative then 0 - c else c, e, k);
  }

  /** Equal values at exponents k apart have signed coefficients that differ by k decimal places, and conversely. */
  lemma AlignedValues(a: Dec, b: Dec)
    requires a.exponent >= b.exponent
    ensures Value(a) == Value(b) <==> Signed(a) * Pow10(a.exponent - b.exponent) == Signed(b)
  {
    var k := a.exponent - b.exponent;
    Shift(Signed(a), b.exponent, k);
    WorthInjective(Signed(a) * Pow10(k), Signed(b), b.exponent);
  }

  lemma ZeroValue(d: Dec)
    ensures Value(d) == 0.0 <==> IsZero(d)
  {
    WorthInjective(Signed(d), 0, d.exponent);
  }

  lemma {:induction false} WorthSign(n: nat, e: int)
    ensures Worth(n, e) >= 0.0
    decreases if e < 0 then -e else e
  {
    if e > 0 {
      WorthSign(10 * n, e - 1);
    } else if e < 0 {
      WorthSign(n, e + 1);
    }
  }

  lemma ValueSign(d: Dec)
    ensures d.negative && d.coefficient > 0 <==> Value(d) < 0.0
    ensures Value(Dec(!d.negative, d.coefficient, d.exponent)) == -Value(d)
  {
    WorthSign(d.coefficient, d.exponent);
    WorthAdds(d.coefficient, -(d.coefficient as int), d.exponent);
    WorthInjective(0, 0, d.exponent);
    WorthInjective(d.coefficient, 0, d.exponent);
  }

  // ---------- digits ----------

  function DigitsOf(n: nat): (ds: seq<Digit>)
    ensures ds != []
  {
    if n < 10 then [n] else DigitsOf(n / 10) + [n % 10]
  }

  /** The number whose digits are the first n of the sequence. */
  function NatOfFirst(ds: seq<Digit>, n: nat): nat
    requires n <= |ds|
  {
    if n == 0 then 0 else NatOfFirst(ds, n - 1) * 10 + ds[n - 1]
  }

  function NatOf(ds: seq<Digit>): nat {
    NatOfFirst(ds, |ds|)
  }

  lemma {:induction false} SameFirstDigits(a: seq<Digit>, b: seq<Digit>, n: nat)
    requires n <= |a| && n <= |b| && forall i :: 0 <= i < n ==> a[i] == b[i]
    ensures NatOfFirst(a, n) == NatOfFirst(b, n)
  {
    if n > 0 {
      SameFirstDigits(a, b, n - 1);
    }
  }

  lemma {:induction false} DigitsRoundTrip(n: nat)
    ensures NatOf(DigitsOf(n)) == n
    ensures n > 0 ==> DigitsOf(n)[0] != 0
    ensures n < Pow10(|DigitsOf(n)|) && (n > 0 ==> Pow10(|DigitsOf(n)| - 1) <= n)
  {
    var ds := DigitsOf(n);
    if n >= 10 {
      DigitsRoundTrip(n / 10);
      SameFirstDigits(ds, DigitsOf(n / 10), |ds| - 1);
    } else {
      assert NatOfFirst(ds, 1) == NatOfFirst(ds, 0) * 10 + n;
      assert Pow10(1) == 10 && Pow10(0) == 1;
    }
  }

  lemma {:induction false} NatOfZeros(ds: seq<Digit>, k: nat)
    ensures NatOf(ds + seq(k, _ => 0)) == NatOf(ds) * Pow10(k)
  {
    var z := ds + seq(k, _ => 0);
    if k == 0 {
      assert z == ds;
    } else {
      NatOfZeros(ds, k - 1);
      SameFirstDigits(z, ds + seq(k - 1, _ => 0), |ds| + k - 1);
      IntAssoc(NatOf(ds), Pow10(k - 1), 10);
    }
  }

  lemma {:induction false} NatOfLeadingZeros(k: nat, ds: seq<Digit>, n: nat)
    requires n <= k + |ds|
    ensures NatOfFirst(seq(k, _ => 0) + ds, n) == if n <= k then 0 else NatOfFirst(ds, n - k)
  {
    if n > 0 {
      NatOfLeadingZeros(k, ds, n - 1);
    }
  }

  lemma NatOfAllZeros(k: nat, ds: seq<Digit>)
    ensures NatOf(seq(k, _ => 0) + ds) == NatOf(ds)
  {
    NatOfLeadingZeros(k, ds, k + |ds|);
  }

  // ---------- normal form ----------

  lemma TenTimes(c: nat, x: nat, p: nat)
    requires c == x * p
    ensures 10 * c == x * (10 * p)
  {
    IntAssoc(x, 10, p);
    IntAssoc(10, x, p);
  }

  /** Moves trailing zeros of a positive coefficient into the exponent. */
  function Strip(c: nat, e: int): (r: (nat, int))
    requires c > 0
    ensures r.0 > 0 && r.0 % 10 != 0 && r.1 >= e
    ensures c == r.0 * Pow10(r.1 - e)
    decreases c
  {
    if c % 10 == 0 then
      var r := Strip(c / 10, e + 1);
      TenTimes(c / 10, r.0, Pow10(r.1 - e - 1));
      r
    else (c, e)
  }

  /** Two stripped coefficients with equal values are the same pair: the normal form is unique. */
  lemma StrippedUnique(a: Dec, b: Dec)
    requires a.coefficient % 10 != 0 && b.coefficient % 10 != 0
    requires Value(a) == Value(b)
    ensures a == b
  {
    if a.exponent >= b.exponent {
      StrippedSameExponent(a, b);
    } else {
      StrippedSameExponent(b, a);
    }
  }

  lemma TenDivides(c: nat, signed: int, m: int)
    requires signed == c || signed == 0 - c
    ensures signed == m * 10 ==> c % 10 == 0
  {
  }

  lemma StrippedSameExponent(a: Dec, b: Dec)
    requires a.coefficient % 10 != 0 && b.coefficient % 10 != 0
    requires Value(a) == Value(b) && a.exponent >= b.exponent
    ensures a == b
  {
    AlignedValues(a, b);
    var k := a.exponent - b.exponent;
    if k > 0 {
      IntAssoc(Signed(a), Pow10(k - 1), 10);
      TenDivides(b.coefficient, Signed(b), Signed(a) * Pow10(k - 1));
    }
  }

  lemma StripValue(negative: bool, c: nat, e: int)
    requires c > 0
    ensures var s := Strip(c, e); Value(Dec(negative, s.0, s.1)) == Value(Dec(negative, c, e))
  {
    var s := Strip(c, e);
    Rescale(negative, s.0, e, s.1 - e);
  }

  /** A coefficient that is a multiple of 10^k strips to what the quotient strips to. */
  lemma StripBound(q: nat, k: nat, e: int)
    requires q > 0
    ensures q * Pow10(k) > 0 && Strip(q * Pow10(k), e).0 <= q
    decreases k
  {
    if k == 0 {
      StripAtMost(q, e);
    } else {
      var c := q * Pow10(k);
      assert c == 10 * (q * Pow10(k - 1));
      StripBound(q, k - 1, e + 1);
      assert c % 10 == 0 && c / 10 == q * Pow10(k - 1);
    }
  }

  lemma {:induction false} StripAtMost(c: nat, e: int)
    requires c > 0
    ensures Strip(c, e).0 <= c
    decreases c
  {
    if c % 10 == 0 {
      StripAtMost(c / 10, e + 1);
    }
  }

  // ---------- rounding to the context ----------

  /** Quotient and remainder, by their defining equation. */
  function DivMod(c: nat, p: nat): (r: (nat, nat))
    requires p > 0
    ensures c == r.0 * p + r.1 && r.1 < p
  {
    (c / p, c % p)
  }

  lemma DivModUnique(c: nat, p: nat, q: nat, r: nat)
    requires p > 0 && c == q * p + r && r < p
    ensures DivMod(c, p) == (q, r)
  {
    var d := DivMod(c, p);
    MulMinus(d.0, q, p);
    SmallMultiple(d.0 - q, p);
  }

  lemma MulMinus(x: int, y: int, p: int)
    ensures (x - y) * p == x * p - y * p
  {
  }

  lemma SmallMultiple(x: int, p: nat)
    ensures 0 - p < x * p < p ==> x == 0
  {
  }

  lemma MulLess(x: nat, y: nat, p: nat)
    requires x < y && p >= 1
    ensures x * p < y * p
  {
  }

  /** The quotient after rounding half to even to drop k digits. */
  function Scaled(c: nat, k: nat): nat {
    MulAtMost(0, c, Pow10(k));
    c * Pow10(k)
  }

  function HalfEven(c: nat, k: nat): nat {
    var (q, r) := DivMod(c, Pow10(k));
    if 2 * r > Pow10(k) || (2 * r == Pow10(k) && q % 2 == 1) then q + 1 else q
  }

  /** Rounds half to even to at most 28 significant digits. */
  function Round(d: Dec): Dec {
    var n := |DigitsOf(d.coefficient)|;
    if n <= PRECISION then d
    else
      var k := n - PRECISION;
      var q := HalfEven(d.coefficient, k);
      if q == Pow10(PRECISION) then Dec(d.negative, Pow10(PRECISION - 1), d.exponent + k + 1)
      else Dec(d.negative, q, d.exponent + k)
  }

  /** The number has at most 28 significant digits. */
  predicate Fits(d: Dec) {
    d.coefficient == 0 || Strip(d.coefficient, d.exponent).0 < Pow10(PRECISION)
  }

  /** Rounding keeps the value exactly when the number fits. */
  lemma RoundExactIffFits(d: Dec)
    ensures Value(Round(d)) == Value(d) <==> Fits(d)
    ensures Round(d).coefficient < Pow10(PRECISION)
  {
    var c := d.coefficient;
    var n := |DigitsOf(c)|;
    DigitsRoundTrip(c);
    if n <= PRECISION {
      assert c < Pow10(PRECISION) by {
        Pow10Monotone(n, PRECISION);
        Pow10Monotone(PRECISION, n);
      }
      if c > 0 {
        StripBound(c, 0, d.exponent);
        assert c * Pow10(0) == c;
      }
    } else {
      RoundLong(d, n - PRECISION);
    }
  }

  lemma RoundLong(d: Dec, k: nat)
    requires k > 0 && |DigitsOf(d.coefficient)| == PRECISION + k
    ensures Value(Round(d)) == Value(d) <==> Fits(d)
    ensures Round(d).coefficient < Pow10(PRECISION)
  {
    var c := d.coefficient;
    LongQuotient(c, k);
    RoundedValue(d, k);
    Pow10Monotone(PRECISION - 1, PRECISION);
    SignedEqual(d, Scaled(HalfEven(c, k), k));
    LongFits(c, k, d.exponent);
  }

  /** A long coefficient has at most 28 significant digits exactly when the dropped digits are zeros. */
  lemma LongFits(c: nat, k: nat, e: int)
    requires k > 0 && |DigitsOf(c)| == PRECISION + k
    ensures c > 0 && (Strip(c, e).0 < Pow10(PRECISION) <==> DivMod(c, Pow10(k)).1 == 0)
  {
    LongQuotient(c, k);
    var d := DivMod(c, Pow10(k));
    if d.1 == 0 {
      StripBound(d.0, k, e);
    } else {
      LongStripped(c, k, e);
    }
  }

  lemma SignedEqual(d: Dec, c: nat)
    ensures Value(Dec(d.negative, c, d.exponent)) == Value(d) <==> c == d.coefficient
  {
    WorthInjective(Signed(Dec(d.negative, c, d.exponent)), Signed(d), d.exponent);
  }

  /** What dropping k digits of a 28+k digit coefficient yields, and when it is exact. */
  lemma LongQuotient(c: nat, k: nat)
    requires k > 0 && |DigitsOf(c)| == PRECISION + k
    ensures HalfEven(c, k) <= Pow10(PRECISION)
    ensures c >= Pow10(PRECISION + k - 1) && c > 0
    ensures Scaled(HalfEven(c, k), k) == c <==> DivMod(c, Pow10(k)).1 == 0
    ensures var d := DivMod(c, Pow10(k)); d.1 == 0 ==> c == d.0 * Pow10(k) && 0 < d.0 < Pow10(PRECISION)
  {
    DigitsRoundTrip(c);
    Pow10Add(PRECISION, k);
    QuotientBelow(c, Pow10(k), Pow10(PRECISION));
    QuotientPositive(c, Pow10(k));
    HalfEvenExact(c, k);
    HalfEvenNear(c, k);
  }

  lemma QuotientBelow(c: nat, p: nat, x: nat)
    requires p > 0 && c < x * p
    ensures DivMod(c, p).0 < x
  {
    if x <= DivMod(c, p).0 {
      MulAtMost(x, DivMod(c, p).0, p);
    }
  }

  lemma QuotientPositive(c: nat, p: nat)
    requires p > 0 && c > 0
    ensures var d := DivMod(c, p); (d.1 == 0 ==> c == d.0 * p && d.0 > 0) && (c >= p ==> d.0 > 0)
  {
    var d := DivMod(c, p);
    assert d.0 == 0 ==> d.0 * p == 0;
  }

  lemma HalfEvenNear(c: nat, k: nat)
    ensures var q := DivMod(c, Pow10(k)).0; HalfEven(c, k) == q || HalfEven(c, k) == q + 1
  {
  }

  /** Dropping k digits gives back the coefficient exactly when nothing but zeros was dropped. */
  lemma HalfEvenExact(c: nat, k: nat)
    ensures Scaled(HalfEven(c, k), k) == c <==> DivMod(c, Pow10(k)).1 == 0
  {
    ReallyOneMore(DivMod(c, Pow10(k)).0, Pow10(k));
  }

  /** Dropping digits moves the coefficient by at most half of what was dropped, and a tie goes to the even side. */
  lemma HalfEvenNearest(c: nat, k: nat)
    ensures var moved := 2 * (Scaled(HalfEven(c, k), k) - c);
            && 0 - Pow10(k) <= moved <= Pow10(k)
            && (moved == Pow10(k) || moved == 0 - Pow10(k) ==> HalfEven(c, k) % 2 == 0)
  {
    ReallyOneMore(DivMod(c, Pow10(k)).0, Pow10(k));
  }

  lemma MulAtMost(x: nat, y: nat, p: nat)
    requires x <= y
    ensures x * p <= y * p
  {
  }

  lemma ReallyOneMore(q: nat, p: nat)
    ensures (q + 1) * p == q * p + p
  {
  }

  lemma RoundedValue(d: Dec, k: nat)
    requires k > 0 && |DigitsOf(d.coefficient)| == PRECISION + k
    ensures Value(Round(d)) == Value(Dec(d.negative, Scaled(HalfEven(d.coefficient, k), k), d.exponent))
  {
    var q := HalfEven(d.coefficient, k);
    Rescale(d.negative, q, d.exponent, k);
    if q == Pow10(PRECISION) {
      Rescale(d.negative, Pow10(PRECISION - 1), d.exponent + k, 1);
      Pow10Add(PRECISION - 1, 1);
    }
  }

  /** A coefficient of 28+k digits that is no multiple of 10^k keeps more than 28 significant digits. */
  lemma LongStripped(c: nat, k: nat, e: int)
    requires k > 0 && c >= Pow10(PRECISION + k - 1) && DivMod(c, Pow10(k)).1 != 0 && c > 0
    ensures Strip(c, e).0 >= Pow10(PRECISION)
  {
    var s := Strip(c, e);
    var j := s.1 - e;
    if j >= k {
      NoRemainder(c, s.0, j, k);
    } else if s.0 < Pow10(PRECISION) {
      TooSmall(c, s.0, j, k);
    }
  }

  lemma NoRemainder(c: nat, x: nat, j: nat, k: nat)
    requires k <= j && c == x * Pow10(j)
    ensures DivMod(c, Pow10(k)).1 == 0
  {
    Pow10Add(j - k, k);
    IntAssoc(x, Pow10(j - k), Pow10(k));
    DivModUnique(c, Pow10(k), Scaled(x, j - k), 0);
  }

  lemma TooSmall(c: nat, x: nat, j: nat, k: nat)
    requires j < k && c == x * Pow10(j) && x < Pow10(PRECISION)
    ensures c < Pow10(PRECISION + k - 1)
  {
    Pow10Add(PRECISION, j);
    MulLess(x, Pow10(PRECISION), Pow10(j));
    Pow10Monotone(PRECISION + k - 1, PRECISION + j);
  }

  // ---------- addition ----------

  function FromSigned(n: int, e: int): Dec {
    if n < 0 then Dec(true, -n, e) else Dec(false, n, e)
  }

  /** The exact sum, at the smaller of the two exponents. */
  function ExactSum(a: Dec, b: Dec): Dec {
    var e := if a.exponent <= b.exponent then a.exponent else b.exponent;
    FromSigned(Signed(a) * Pow10(a.exponent - e) + Signed(b) * Pow10(b.exponent - e), e)
  }

  /** Addition in the default context: the exact sum, rounded. */
  function Add(a: Dec, b: Dec): Dec {
    Round(ExactSum(a, b))
  }

  lemma ExactSumValue(a: Dec, b: Dec)
    ensures Value(ExactSum(a, b)) == Value(a) + Value(b)
  {
    var e := if a.exponent <= b.exponent then a.exponent else b.exponent;
    var x, y := Signed(a) * Pow10(a.exponent - e), Signed(b) * Pow10(b.exponent - e);
    Shift(Signed(a), e, a.exponent - e);
    Shift(Signed(b), e, b.exponent - e);
    WorthAdds(x, y, e);
  }

  /** Addition is exact exactly when the true sum has at most 28 significant digits. */
  lemma AddExactIffFits(a: Dec, b: Dec)
    ensures Value(Add(a, b)) == Value(a) + Value(b) <==> Fits(ExactSum(a, b))
  {
    ExactSumValue(a, b);
    RoundExactIffFits(ExactSum(a, b));
  }

  /** Whether a number fits depends on its value only. */
  lemma FitsByValue(a: Dec, b: Dec)
    requires Value(a) == Value(b)
    ensures Fits(a) == Fits(b)
  {
    ZeroValue(a);
    ZeroValue(b);
    if a.coefficient != 0 {
      StripValue(a.negative, a.coefficient, a.exponent);
      StripValue(b.negative, b.coefficient, b.exponent);
      var s, t := Strip(a.coefficient, a.exponent), Strip(b.coefficient, b.exponent);
      StrippedUnique(Dec(a.negative, s.0, s.1), Dec(b.negative, t.0, t.1));
    }
  }
}
