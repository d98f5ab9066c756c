// Integer arithmetic as the Python 2 sources use it: floor division and a
// modulo whose sign follows the divisor, plus the divisibility facts the
// gcd/lcm and rational code relies on.
module Arith {

  function Abs(x: int): nat { if x < 0 then -x else x }

  /** `d` divides `x` (zero divides only zero). */
  predicate Divides(d: int, x: int) {
    if d == 0 then x == 0 else x % d == 0
  }

  /** Python's `a // b` (and `a / b` on two ints in Python 2): rounds toward minus infinity. */
  function PyDiv(a: int, b: int): int
    requires b != 0
  {
    if b > 0 || a % b == 0 then a / b else a / b - 1
  }

  /** Python's `a % b`: `a == b * (a // b) + a % b`, with the sign of the divisor. */
  function PyMod(a: int, b: int): (r: int)
    requires b != 0
    ensures a == b * PyDiv(a, b) + r
    ensures b > 0 ==> 0 <= r < b
    ensures b < 0 ==> b < r <= 0
    ensures Abs(r) < Abs(b)
  {
    if b > 0 || a % b == 0 then a % b else a % b + b
  }

  lemma PyModPositive(a: int, b: int)
    requires b > 0
    ensures PyMod(a, b) == a % b && PyDiv(a, b) == a / b
  {
  }

  // ---------------------------------------------------------------------
  // Nonlinear helpers

  lemma MulAtLeast(d: nat, m: nat)
    requires m >= 1
    ensures d * m >= d
    decreases m
  {
    if m > 1 {
      MulAtLeast(d, m - 1);
      assert d * m == d * (m - 1) + d;
    }
  }

  lemma AbsMul(a: int, b: int)
    ensures Abs(a * b) == Abs(a) * Abs(b)
  {
    if a < 0 && b < 0 {
      assert a * b == (-a) * (-b);
    } else if a < 0 {
      assert a * b == -((-a) * b);
    } else if b < 0 {
      assert a * b == -(a * (-b));
    }
  }

  lemma MulPositive(a: int, b: int)
    requires a > 0 && b > 0
    ensures a * b > 0
  {
    MulAtLeast(a, b);
  }

  lemma MulNonNeg(a: int, b: int)
    requires a >= 0 && b >= 0
    ensures a * b >= 0
  {
    if a > 0 && b > 0 { MulPositive(a, b); }
  }

  /** `d * k` is an exact multiple of `d` under Dafny's `%`. */
  lemma ModOfMul(d: int, k: int)
    requires d != 0
    ensures (d * k) % d == 0
    ensures (d * k) / d == k
  {
    var q := (d * k) / d;
    var r := (d * k) % d;
    assert d * k == d * q + r;
    assert r == d * (k - q);
    if k - q != 0 {
      AbsMul(d, k - q);
      MulAtLeast(Abs(d), Abs(k - q));
      assert false;
    }
  }

  /** With a positive factor, the sign of a product is the sign of the other factor. */
  lemma SignOfProduct(x: int, c: int)
    requires c > 0
    ensures x * c >= 0 <==> x >= 0
    ensures x * c > 0 <==> x > 0
  {
    if x > 0 {
      MulPositive(x, c);
    } else if x < 0 {
      MulPositive(-x, c);
      assert x * c == -((-x) * c);
    }
  }

  /** Euclidean division is unique. */
  lemma DivUnique(a: int, d: int, q: int, r: int)
    requires d > 0 && a == d * q + r && 0 <= r < d
    ensures a / d == q && a % d == r
  {
    var q' := a / d;
    var r' := a % d;
    assert d * (q - q') == r' - r;
    if q != q' {
      AbsMul(d, q - q');
      MulAtLeast(d, Abs(q - q'));
      assert false;
    }
  }

  // ---------------------------------------------------------------------
  // Divisibility

  lemma DividesIntro(d: int, x: int, k: int)
    requires x == d * k
    ensures Divides(d, x)
  {
    if d != 0 { ModOfMul(d, k); }
  }

  lemma DividesElim(d: int, x: int) returns (k: int)
    requires Divides(d, x)
    ensures x == d * k
  {
    if d == 0 { k := 0; } else { k := x / d; }
  }

  lemma DividesRefl(d: int)
    ensures Divides(d, d)
  {
    DividesIntro(d, d, 1);
  }

  lemma DividesZero(d: int)
    ensures Divides(d, 0)
  {
    DividesIntro(d, 0, 0);
  }

  lemma DividesMul(d: int, x: int, m: int)
    requires Divides(d, x)
    ensures Divides(d, x * m)
  {
    var k := DividesElim(d, x);
    assert x * m == d * (k * m);
    DividesIntro(d, x * m, k * m);
  }

  lemma DividesAdd(d: int, x: int, y: int)
    requires Divides(d, x) && Divides(d, y)
    ensures Divides(d, x + y) && Divides(d, x - y)
  {
    var k := DividesElim(d, x);
    var l := DividesElim(d, y);
    assert x + y == d * (k + l);
    assert x - y == d * (k - l);
    DividesIntro(d, x + y, k + l);
    DividesIntro(d, x - y, k - l);
  }

  lemma DividesTrans(a: int, b: int, c: int)
    requires Divides(a, b) && Divides(b, c)
    ensures Divides(a, c)
  {
    var k := DividesElim(a, b);
    var l := DividesElim(b, c);
    assert c == a * (k * l);
    DividesIntro(a, c, k * l);
  }

  lemma DividesNeg(d: int, x: int)
    requires Divides(d, x)
    ensures Divides(-d, x) && Divides(d, -x) && Divides(d, Abs(x)) && Divides(Abs(d), x)
  {
    var k := DividesElim(d, x);
    DividesIntro(-d, x, -k);
    DividesIntro(d, -x, -k);
    DividesIntro(Abs(d), x, if d < 0 then -k else k);
    DividesIntro(d, Abs(x), if x < 0 then -k else k);
  }

  /** A nonzero multiple is at least as large as its divisor. */
  lemma DividesBound(d: int, x: int)
    requires Divides(d, x) && x != 0
    ensures Abs(d) <= Abs(x)
  {
    var k := DividesElim(d, x);
    AbsMul(d, k);
    MulAtLeast(Abs(d), Abs(k));
  }

  /** Exact division: `x / d` recovers the cofactor. */
  lemma DivExact(d: int, x: int)
    requires d != 0 && Divides(d, x)
    ensures x == d * (x / d)
  {
  }

  /** `Divides` on the Python operators: `PyMod(a, b) == 0` iff `b` divides `a`. */
  lemma PyModZero(a: int, b: int)
    requires b != 0
    ensures PyMod(a, b) == 0 <==> Divides(b, a)
  {
  }
}
