// Exact rationals with the operations the analyses take from Python's
// `fractions.Fraction`: construction with sign normalisation, products,
// reciprocals, value comparison, `int()` (truncation toward zero),
// `math.ceil`, and the reduced numerator and denominator.
module Fractions {
  import opened Arith
  import opened GcdLcm

  /** `num / den`; the denominator is kept positive. Two representations may denote one value. */
  datatype Frac = Frac(num: int, den: int)

  type Q = p: Frac | p.den > 0 witness Frac(0, 1)

  function Int(n: int): Q { Frac(n, 1) }

  /** `Fraction(n, d)`: moves the sign to the numerator. */
  function Make(n: int, d: int): (r: Q)
    requires d != 0
    ensures r.num * d == n * r.den
  {
    if d < 0 then Frac(-n, -d) else Frac(n, d)
  }

  /** Equality of values (what `==` on two `Fraction`s decides). */
  predicate Same(p: Q, q: Q) { p.num * q.den == q.num * p.den }

  predicate IsZero(p: Q) { p.num == 0 }

  function Mul(p: Q, q: Q): (r: Q)
    ensures r.num == p.num * q.num && r.den == p.den * q.den
  {
    MulPositive(p.den, q.den);
    Frac(p.num * q.num, p.den * q.den)
  }

  function MulInt(p: Q, n: int): Q { Mul(p, Int(n)) }

  /** `1 / p`. */
  function Recip(p: Q): (r: Q)
    requires !IsZero(p)
    ensures Same(Mul(p, r), Int(1))
  {
    Make(p.den, p.num)
  }

  /** The value is an integer. */
  predicate IsIntegral(p: Q) { p.num % p.den == 0 }

  /** `math.floor`. */
  function Floor(p: Q): int { p.num / p.den }

  /** `math.ceil`. */
  function Ceil(p: Q): int { -((-p.num) / p.den) }

  /** `int(p)`: truncation toward zero. */
  function Trunc(p: Q): int { if p.num >= 0 then Floor(p) else Ceil(p) }

  /** The positive gcd by which `Fraction` reduces `num / den`. */
  function Reducer(p: Q): (g: int)
    ensures g > 0 && Divides(g, p.num) && Divides(g, p.den)
  {
    EuclidPositive(p.num, p.den);
    EuclidDivides(p.num, p.den);
    Euclid(p.num, p.den)
  }

  /** `p.numerator` of the reduced fraction. */
  function Numerator(p: Q): int { p.num / Reducer(p) }

  /** `p.denominator` of the reduced fraction: positive, and a divisor of `den`. */
  function Denominator(p: Q): (d: int)
    ensures d > 0 && Divides(d, p.den)
  {
    var g := Reducer(p);
    var k := p.den / g;
    DivExact(g, p.den);
    MulPositiveInv(g, k);
    ModOfMul(g, k);
    DividesIntro(k, p.den, g);
    p.den / g
  }

  lemma MulPositiveInv(g: int, k: int)
    requires g > 0 && g * k > 0
    ensures k > 0
  {
    SignOfProduct(k, g);
  }

  // ---------------------------------------------------------------------
  // Facts about the operations

  /** The integral values are exactly those whose floor, ceiling and truncation agree with them. */
  lemma IntegralTrunc(p: Q)
    ensures IsIntegral(p) ==> Same(p, Int(Trunc(p))) && Trunc(p) == Floor(p) == Ceil(p)
    ensures !IsIntegral(p) ==> Ceil(p) == Floor(p) + 1
  {
    var q := p.num / p.den;
    var r := p.num % p.den;
    if r == 0 {
      DivUnique(-p.num, p.den, -q, 0);
    } else {
      DivUnique(-p.num, p.den, -q - 1, p.den - r);
    }
  }

  /** The reduced pair denotes the same value. */
  lemma NumeratorDenominator(p: Q)
    ensures Numerator(p) * p.den == p.num * Denominator(p)
  {
    var g := Reducer(p);
    var kn := DividesElim(g, p.num);
    var kd := DividesElim(g, p.den);
    ModOfMul(g, kn);
    ModOfMul(g, kd);
    assert Numerator(p) == kn && Denominator(p) == kd;
    assert kn * (g * kd) == (g * kn) * kd;
  }

  /** Multiplying by a multiple `l` of the reduced denominator lands on the integer `numerator * l / denominator`. */
  lemma ScaleByMultipleOfDenominator(p: Q, l: int)
    requires Divides(Denominator(p), l)
    ensures IsIntegral(MulInt(p, l))
    ensures Same(MulInt(p, l), Int(Numerator(p) * l / Denominator(p)))
  {
    var d := Denominator(p);
    var n := Numerator(p);
    var k := DividesElim(d, l);
    NumeratorDenominator(p);
    ModOfMul(d, n * k);
    assert n * l == d * (n * k);
    assert n * l / d == n * k;
    // p.num * l == n * k * p.den, so p * l is the integer n * k
    assert p.num * l * d == n * k * p.den * d by {
      assert p.num * d == n * p.den;
      assert p.num * l * d == (p.num * d) * l;
      assert n * k * p.den * d == (n * p.den) * (d * k);
    }
    MulCancel(p.num * l, n * k * p.den, d);
    assert p.num * l == p.den * (n * k);
    ModOfMul(p.den, n * k);
  }

  lemma MulCancel(x: int, y: int, d: int)
    requires d != 0 && x * d == y * d
    ensures x == y
  {
    if x != y {
      assert (x - y) * d == 0;
      AbsMul(x - y, d);
      MulPositive(Abs(x - y), Abs(d));
    }
  }

  /** `Same` is an equivalence on values. */
  lemma SameTrans(p: Q, q: Q, r: Q)
    requires Same(p, q) && Same(q, r)
    ensures Same(p, r)
  {
    // p.num * q.den * r.den == q.num * p.den * r.den == r.num * q.den * p.den
    assert p.num * r.den * q.den == r.num * p.den * q.den by {
      assert p.num * q.den * r.den == q.num * p.den * r.den;
      assert q.num * r.den * p.den == r.num * q.den * p.den;
    }
    MulCancel(p.num * r.den, r.num * p.den, q.den);
  }

  lemma SameSym(p: Q, q: Q)
    requires Same(p, q)
    ensures Same(q, p)
  {
  }

  /** `Same` is respected by multiplication. */
  lemma MulSame(p: Q, p': Q, q: Q)
    requires Same(p, p')
    ensures Same(Mul(p, q), Mul(p', q)) && Same(Mul(q, p), Mul(q, p'))
  {
    assert p.num * q.num * (p'.den * q.den) == (p.num * p'.den) * (q.num * q.den);
    assert p'.num * q.num * (p.den * q.den) == (p'.num * p.den) * (q.num * q.den);
    assert q.num * p.num * (q.den * p'.den) == (p.num * p'.den) * (q.num * q.den);
    assert q.num * p'.num * (q.den * p.den) == (p'.num * p.den) * (q.num * q.den);
  }

  lemma MulComm(p: Q, q: Q)
    ensures Mul(p, q) == Mul(q, p)
  {
  }

  lemma MulAssoc(p: Q, q: Q, r: Q)
    ensures Mul(Mul(p, q), r) == Mul(p, Mul(q, r))
  {
    assert p.num * q.num * r.num == p.num * (q.num * r.num);
    assert p.den * q.den * r.den == p.den * (q.den * r.den);
  }

  /** A product is zero exactly when a factor is. */
  lemma MulZero(p: Q, q: Q)
    ensures IsZero(Mul(p, q)) <==> IsZero(p) || IsZero(q)
  {
    if p.num != 0 && q.num != 0 {
      AbsMul(p.num, q.num);
      MulPositive(Abs(p.num), Abs(q.num));
    }
  }

  /** Zero values are all `Same`. */
  lemma ZeroSame(p: Q, q: Q)
    ensures IsZero(p) ==> (Same(p, q) <==> IsZero(q))
  {
    if IsZero(p) && Same(p, q) {
      MulCancel(q.num, 0, p.den);
    }
  }

  /** Integrality only depends on the value. */
  lemma IntegralSame(p: Q, q: Q)
    requires Same(p, q)
    ensures IsIntegral(p) <==> IsIntegral(q)
  {
    if IsIntegral(p) {
      IntegralOf(p, q);
    }
    if IsIntegral(q) {
      IntegralOf(q, p);
    }
  }

  lemma IntegralOf(p: Q, q: Q)
    requires Same(p, q) && IsIntegral(p)
    ensures IsIntegral(q)
  {
    var k := p.num / p.den;
    assert p.num == p.den * k;
    assert q.num * p.den == (q.den * k) * p.den;
    MulCancel(q.num, q.den * k, p.den);
    ModOfMul(q.den, k);
  }

  /** Floor and ceiling only depend on the value. */
  lemma CeilSame(p: Q, q: Q)
    requires Same(p, q)
    ensures Ceil(p) == Ceil(q) && Floor(p) == Floor(q)
  {
    FloorSame(p, q);
    var np := Frac(-p.num, p.den);
    var nq := Frac(-q.num, q.den);
    assert Same(np, nq);
    FloorSame(np, nq);
  }

  lemma FloorSame(p: Q, q: Q)
    requires Same(p, q)
    ensures Floor(p) == Floor(q)
  {
    var f := Floor(p);
    var lo := p.num - p.den * f;
    var hi := p.den * (f + 1) - p.num;
    assert 0 <= lo && 0 < hi;
    // q.num - q.den * f has the sign of lo, and q.den * (f + 1) - q.num the sign of hi
    assert (q.num - q.den * f) * p.den == lo * q.den;
    assert (q.den * (f + 1) - q.num) * p.den == hi * q.den;
    SignOfProduct(lo, q.den);
    SignOfProduct(hi, q.den);
    SignOfProduct(q.num - q.den * f, p.den);
    SignOfProduct(q.den * (f + 1) - q.num, p.den);
    DivUnique(q.num, q.den, f, q.num - q.den * f);
  }

  lemma MulLe(c: int, x: int, y: int)
    requires c > 0 && x <= y
    ensures c * x <= c * y
  {
    MulNonNeg(c, y - x);
    assert c * y - c * x == c * (y - x);
  }

  lemma MulLeRight(x: int, y: int, c: int)
    requires c > 0 && x <= y
    ensures x * c <= y * c
  {
    MulLe(c, x, y);
  }

  lemma MulLtRight(x: int, y: int, c: int)
    requires c > 0 && x < y
    ensures x * c < y * c
  {
    MulPositive(c, y - x);
    assert y * c - x * c == c * (y - x);
  }

  /** `ceil(p)` is the least integer at or above `p`. */
  lemma CeilBounds(p: Q)
    ensures p.num <= Ceil(p) * p.den < p.num + p.den
  {
  }
}
