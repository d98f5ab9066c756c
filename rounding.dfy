// The last step of both buffer-sizing solvers: the LP answers, for every
// arc, a marking `M0` and a factor `FM0` tied to it by the row
// `FM0 * step == M0`; a fractional factor is revised up to the next
// multiple of the step.
module Rounding {
  import opened Arith
  import opened Fractions

  /** The primal values the LP solver answers, by arc position: the `M0` and the `FM0` column. */
  datatype Solution = Solution(m0: seq<Q>, fm0: seq<Q>)

  /** `p + n`. */
  function AddInt(p: Q, n: int): (r: Q)
    ensures r.num == p.num + n * p.den && r.den == p.den
  {
    Frac(p.num + n * p.den, p.den)
  }

  /**
   * The revision of one marking: an integral factor keeps the marking
   * `int(buf)`; a fractional one gives `int(fm0 + 1) * step`.
   */
  function Revised(buf: Q, fm0: Q, step: int): int {
    if IsIntegral(fm0) then Trunc(buf) else Trunc(AddInt(fm0, 1)) * step
  }

  /**
   * When the LP row `FM0 * step == M0` holds with a non-negative factor,
   * the revised marking is the least multiple of the step at or above the
   * LP's marking, and the LP's marking itself when the factor is integral.
   */
  lemma RevisedIsNextMultiple(buf: Q, fm0: Q, step: int)
    requires step > 0 && fm0.num >= 0 && Same(buf, MulInt(fm0, step))
    ensures var r := Revised(buf, fm0, step);
      Divides(step, r) && buf.num <= r * buf.den < buf.num + step * buf.den
    ensures IsIntegral(fm0) ==> Revised(buf, fm0, step) * buf.den == buf.num
  {
    var n, d, b, e := fm0.num, fm0.den, buf.num, buf.den;
    var q, s := n / d, n % d;
    var se := step * e;
    MulPositive(step, e);
    assert b * d == n * se by {
      assert b * d == (n * step) * e;
    }
    if q < 0 {
      MulPositive(d, -q);
      assert false;
    }
    if s == 0 {
      ExactFactor(b, d, q, se);
      MulNonNeg(q, se);
      assert b == e * (q * step);
      ModOfMul(e, q * step);
      DividesIntro(step, q * step, q);
    } else {
      DivUnique(n + d, d, q + 1, s);
      assert Trunc(AddInt(fm0, 1)) == q + 1;
      DividesIntro(step, (q + 1) * step, q + 1);
      BetweenFactors(b, d, q, s, se);
      assert (q + 1) * step * e == (q + 1) * se;
    }
  }

  /** `b * d == (d * q) * m` with `d > 0` gives `b == q * m`. */
  lemma ExactFactor(b: int, d: int, q: int, m: int)
    requires d > 0 && b * d == (d * q) * m
    ensures b == q * m
  {
    assert (d * q) * m == (q * m) * d;
    MulCancel(b, q * m, d);
  }

  /** `b * d == (d * q + s) * m` with `0 < s < d` and `m > 0` puts `b` strictly between `q * m` and `(q + 1) * m`. */
  lemma BetweenFactors(b: int, d: int, q: int, s: int, m: int)
    requires 0 < s < d && m > 0 && b * d == (d * q + s) * m
    ensures q * m < b < (q + 1) * m
  {
    assert b * d == (q * m) * d + s * m;
    assert ((q + 1) * m) * d == (q * m) * d + d * m;
    MulLtRight(s, d, m);
    MulPositive(s, m);
    if b <= q * m {
      MulLeRight(b, q * m, d);
      assert false;
    }
    if b >= (q + 1) * m {
      MulLeRight((q + 1) * m, b, d);
      assert false;
    }
  }
}
