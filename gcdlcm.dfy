// The gcd and lcm helpers: Euclid's loop and the list folds of the legacy
// package, and the lcm of the current package (which uses the standard
// library's Euclid; both are the same function of their arguments).
module GcdLcm {
  import opened Arith

  /** Euclid's algorithm with Python's `%`, as a recursive definition. */
  function Euclid(a: int, b: int): int
    decreases Abs(b)
  {
    if b == 0 then a else Euclid(b, PyMod(a, b))
  }

  /** The legacy `gcd`: swaps `a, b = b, a % b` until `b` is zero. */
  method Gcd(a0: int, b0: int) returns (r: int)
    ensures r == Euclid(a0, b0)
    ensures b0 == 0 ==> r == a0
  {
    var a, b := a0, b0;
    while b != 0
      invariant Euclid(a, b) == Euclid(a0, b0)
      decreases Abs(b)
    {
      a, b := b, PyMod(a, b);
    }
    r := a;
  }

  /** The result of Euclid divides both arguments, whatever their signs. */
  lemma {:induction false} EuclidDivides(a: int, b: int)
    ensures Divides(Euclid(a, b), a) && Divides(Euclid(a, b), b)
    decreases Abs(b)
  {
    if b == 0 {
      DividesRefl(a);
      DividesZero(a);
    } else {
      var r := PyMod(a, b);
      EuclidDivides(b, r);
      var g := Euclid(b, r);
      DividesMul(g, b, PyDiv(a, b));
      DividesAdd(g, b * PyDiv(a, b), r);
    }
  }

  /** Every common divisor divides the result of Euclid. */
  lemma {:induction false} EuclidGreatest(a: int, b: int, d: int)
    requires Divides(d, a) && Divides(d, b)
    ensures Divides(d, Euclid(a, b))
    decreases Abs(b)
  {
    if b != 0 {
      var r := PyMod(a, b);
      DividesMul(d, b, PyDiv(a, b));
      DividesAdd(d, a, b * PyDiv(a, b));
      assert a - b * PyDiv(a, b) == r;
      EuclidGreatest(b, r, d);
    }
  }

  /** On non-negative arguments the result is non-negative, and positive once `b` is. */
  lemma {:induction false} EuclidSign(a: int, b: int)
    requires a >= 0 && b >= 0
    ensures Euclid(a, b) >= 0
    ensures b > 0 ==> Euclid(a, b) > 0
    ensures a > 0 ==> Euclid(a, b) > 0
    decreases b
  {
    if b != 0 {
      EuclidSign(b, PyMod(a, b));
    }
  }

  /** With a positive second argument the result is positive (the sign of each remainder follows it). */
  lemma EuclidPositive(a: int, b: int)
    requires b > 0
    ensures Euclid(a, b) > 0
  {
    EuclidSign(b, PyMod(a, b));
  }

  lemma EuclidNonZero(a: int, b: int)
    requires a != 0 || b != 0
    ensures Euclid(a, b) != 0
  {
    EuclidDivides(a, b);
  }

  lemma DividesAntisym(x: int, y: int)
    requires x >= 0 && y >= 0 && Divides(x, y) && Divides(y, x)
    ensures x == y
  {
    if x != 0 && y != 0 {
      DividesBound(x, y);
      DividesBound(y, x);
    }
  }

  /** On non-negative arguments the order of the arguments does not matter. */
  lemma EuclidComm(a: int, b: int)
    requires a >= 0 && b >= 0
    ensures Euclid(a, b) == Euclid(b, a)
  {
    EuclidDivides(a, b);
    EuclidDivides(b, a);
    EuclidGreatest(a, b, Euclid(b, a));
    EuclidGreatest(b, a, Euclid(a, b));
    EuclidSign(a, b);
    EuclidSign(b, a);
    DividesAntisym(Euclid(a, b), Euclid(b, a));
  }

  lemma EuclidSelf(a: int)
    ensures Euclid(a, a) == a
  {
    if a != 0 {
      assert PyMod(a, a) == 0 by {
        DividesRefl(a);
        PyModZero(a, a);
      }
    }
  }

  // ---------------------------------------------------------------------
  // Folds over a list

  /** `acc` folded with every element of `xs`, left to right: `acc := Euclid(x, acc)`. */
  function GcdFold(xs: seq<int>, acc: int): int
    decreases |xs|
  {
    if |xs| == 0 then acc else Euclid(xs[|xs| - 1], GcdFold(xs[..|xs| - 1], acc))
  }

  /** `reduce(gcd, xs)` of the standard library: `acc := Euclid(acc, x)` from `xs[0]`. */
  function GcdReduce(xs: seq<int>): int
    requires |xs| > 0
    decreases |xs|
  {
    if |xs| == 1 then xs[0] else Euclid(GcdReduce(xs[..|xs| - 1]), xs[|xs| - 1])
  }

  /** The legacy `gcdList`: starts from `l[0]` and folds every element in. */
  method GcdList(l: seq<int>) returns (r: int)
    requires |l| > 0
    ensures r == GcdFold(l, l[0])
    ensures |l| == 1 ==> r == l[0]
  {
    r := l[0];
    for i := 0 to |l|
      invariant r == GcdFold(l[..i], l[0])
    {
      assert l[..i + 1][..i] == l[..i];
      r := Euclid(l[i], r);
    }
    assert l[..|l|] == l;
    if |l| == 1 {
      EuclidSelf(l[0]);
    }
  }

  /** The fold divides the starting value and every element. */
  lemma {:induction false} GcdFoldDividesAll(xs: seq<int>, acc: int)
    ensures Divides(GcdFold(xs, acc), acc)
    ensures forall i :: 0 <= i < |xs| ==> Divides(GcdFold(xs, acc), xs[i])
    decreases |xs|
  {
    if |xs| == 0 {
      DividesRefl(acc);
    } else {
      var front := xs[..|xs| - 1];
      var g := GcdFold(front, acc);
      var g' := Euclid(xs[|xs| - 1], g);
      GcdFoldDividesAll(front, acc);
      EuclidDivides(xs[|xs| - 1], g);
      DividesTrans(g', g, acc);
      forall i | 0 <= i < |xs|
        ensures Divides(g', xs[i])
      {
        if i < |xs| - 1 {
          assert xs[i] == front[i];
          DividesTrans(g', g, front[i]);
        }
      }
    }
  }

  /** Every common divisor of the start and the elements divides the fold. */
  lemma {:induction false} GcdFoldGreatest(xs: seq<int>, acc: int, d: int)
    requires Divides(d, acc)
    requires forall i :: 0 <= i < |xs| ==> Divides(d, xs[i])
    ensures Divides(d, GcdFold(xs, acc))
    decreases |xs|
  {
    if |xs| > 0 {
      var front := xs[..|xs| - 1];
      GcdFoldGreatest(front, acc, d);
      EuclidGreatest(xs[|xs| - 1], GcdFold(front, acc), d);
    }
  }

  /** `reduce(gcd, xs)` divides every element. */
  lemma {:induction false} GcdReduceDividesAll(xs: seq<int>)
    requires |xs| > 0
    ensures forall i :: 0 <= i < |xs| ==> Divides(GcdReduce(xs), xs[i])
    decreases |xs|
  {
    if |xs| == 1 {
      DividesRefl(xs[0]);
    } else {
      var front := xs[..|xs| - 1];
      var g := GcdReduce(front);
      GcdReduceDividesAll(front);
      EuclidDivides(g, xs[|xs| - 1]);
      forall i | 0 <= i < |xs|
        ensures Divides(GcdReduce(xs), xs[i])
      {
        if i < |xs| - 1 {
          assert xs[i] == front[i];
          DividesTrans(GcdReduce(xs), g, front[i]);
        }
      }
    }
  }

  /** Every common divisor of the elements divides `reduce(gcd, xs)`. */
  lemma {:induction false} GcdReduceGreatest(xs: seq<int>, d: int)
    requires |xs| > 0
    requires forall i :: 0 <= i < |xs| ==> Divides(d, xs[i])
    ensures Divides(d, GcdReduce(xs))
    decreases |xs|
  {
    if |xs| > 1 {
      var front := xs[..|xs| - 1];
      GcdReduceGreatest(front, d);
      EuclidGreatest(GcdReduce(front), xs[|xs| - 1], d);
    }
  }

  /** A list of positive entries has a positive `reduce(gcd, ..)`. */
  lemma {:induction false} GcdReducePositive(xs: seq<int>)
    requires |xs| > 0
    requires forall i :: 0 <= i < |xs| ==> xs[i] > 0
    ensures GcdReduce(xs) > 0
    decreases |xs|
  {
    if |xs| > 1 {
      GcdReducePositive(xs[..|xs| - 1]);
      EuclidSign(GcdReduce(xs[..|xs| - 1]), xs[|xs| - 1]);
    }
  }

  // ---------------------------------------------------------------------
  // lcm

  /** `abs(a * b) // gcd(a, b)`; the division by zero for `a == b == 0` is excluded. */
  function Lcm(a: int, b: int): int
    requires a != 0 || b != 0
  {
    EuclidNonZero(a, b);
    PyDiv(Abs(a * b), Euclid(a, b))
  }

  /** For nonzero arguments, the lcm is a nonzero common multiple; positive ones give a positive lcm. */
  lemma LcmMultiple(a: int, b: int)
    requires a != 0 && b != 0
    ensures Lcm(a, b) != 0
    ensures Divides(a, Lcm(a, b)) && Divides(b, Lcm(a, b))
    ensures a > 0 && b > 0 ==> Lcm(a, b) > 0
  {
    var g := Euclid(a, b);
    EuclidNonZero(a, b);
    EuclidDivides(a, b);
    var ka := DividesElim(g, a);
    var kb := DividesElim(g, b);
    var m0 := a * kb;
    MulCofactor(a, b, g, kb);
    CrossCofactor(g, a, b, ka, kb);
    var s := if g < 0 then -1 else 1;
    LcmAsCofactor(a, b, g, m0, s);
    CommonMultiple(a, b, ka, kb, m0, s);
    if a > 0 && b > 0 {
      EuclidSign(a, b);
    }
  }

  lemma CommonMultiple(a: int, b: int, ka: int, kb: int, m0: int, s: int)
    requires a != 0 && kb != 0 && m0 == a * kb && m0 == b * ka && (s == 1 || s == -1)
    ensures Abs(m0) * s != 0 && Divides(a, Abs(m0) * s) && Divides(b, Abs(m0) * s)
  {
    AbsMul(a, kb);
    MulPositive(Abs(a), Abs(kb));
    DividesIntro(a, m0, kb);
    DividesIntro(b, m0, ka);
    DividesNeg(a, m0);
    DividesNeg(b, m0);
    DividesMul(a, Abs(m0), s);
    DividesMul(b, Abs(m0), s);
  }

  lemma MulCofactor(a: int, b: int, g: int, kb: int)
    requires b == g * kb
    ensures a * b == g * (a * kb)
  {
    calc {
      a * b;
      a * (g * kb);
      (a * g) * kb;
      g * (a * kb);
    }
  }

  lemma CrossCofactor(g: int, a: int, b: int, ka: int, kb: int)
    requires a == g * ka && b == g * kb
    ensures a * kb == b * ka
  {
  }

  lemma LcmAsCofactor(a: int, b: int, g: int, m0: int, s: int)
    requires a != 0 && b != 0
    requires g == Euclid(a, b) && g != 0 && a * b == g * m0
    requires s == if g < 0 then -1 else 1
    ensures Lcm(a, b) == Abs(m0) * s
  {
    var p := a * b;
    var am: int := Abs(m0);
    AbsMul(g, m0);
    assert Abs(p) == Abs(g) * am;
    var q := s * am;
    assert Abs(p) == g * q by {
      if g < 0 {
        assert Abs(g) * am == (-g) * am == g * (-am);
      }
    }
    PyDivExact(g, q);
    assert Lcm(a, b) == PyDiv(Abs(p), g);
  }

  lemma PyDivExact(b: int, k: int)
    requires b != 0
    ensures PyDiv(b * k, b) == k
  {
    ModOfMul(b, k);
  }

  lemma LcmSelf(a: int)
    requires a != 0
    ensures Lcm(a, a) == a
  {
    EuclidSelf(a);
    AbsMul(a, a);
    assert Abs(a * a) == a * a;
    PyDivExact(a, a);
  }

  /** `acc` folded with every element of `xs`, left to right: `acc := Lcm(x, acc)`. */
  function LcmFold(xs: seq<int>, acc: int): int
    requires acc != 0
    requires forall i :: 0 <= i < |xs| ==> xs[i] != 0
    ensures LcmFold(xs, acc) != 0
    decreases |xs|
  {
    if |xs| == 0 then acc
    else
      var prev := LcmFold(xs[..|xs| - 1], acc);
      LcmMultiple(xs[|xs| - 1], prev);
      Lcm(xs[|xs| - 1], prev)
  }

  /** The legacy `lcmList`: starts from `l[0]` and folds every element in. */
  method LcmList(l: seq<int>) returns (r: int)
    requires |l| > 0
    requires forall i :: 0 <= i < |l| ==> l[i] != 0
    ensures r == LcmFold(l, l[0])
    ensures |l| == 1 ==> r == l[0]
  {
    r := l[0];
    for i := 0 to |l|
      invariant r != 0
      invariant r == LcmFold(l[..i], l[0])
    {
      assert l[..i + 1][..i] == l[..i];
      LcmMultiple(l[i], r);
      r := Lcm(l[i], r);
    }
    assert l[..|l|] == l;
    if |l| == 1 {
      LcmSelf(l[0]);
    }
  }

  /** `lcm_list` of the current package: starts from `l[0]` and folds `l[1:]` in. */
  method LcmListCalc(l: seq<int>) returns (r: int)
    requires |l| > 0
    requires forall i :: 0 <= i < |l| ==> l[i] != 0
    ensures r == LcmFold(l[1..], l[0])
    ensures |l| == 1 ==> r == l[0]
  {
    r := l[0];
    var rest := l[1..];
    for i := 0 to |rest|
      invariant r != 0
      invariant r == LcmFold(rest[..i], l[0])
    {
      assert rest[..i + 1][..i] == rest[..i];
      LcmMultiple(rest[i], r);
      r := Lcm(rest[i], r);
    }
    assert rest[..|rest|] == rest;
  }

  /** The fold is a multiple of the start and of every element. */
  lemma {:induction false} LcmFoldMultipleOfAll(xs: seq<int>, acc: int)
    requires acc != 0
    requires forall i :: 0 <= i < |xs| ==> xs[i] != 0
    ensures Divides(acc, LcmFold(xs, acc))
    ensures forall i :: 0 <= i < |xs| ==> Divides(xs[i], LcmFold(xs, acc))
    decreases |xs|
  {
    if |xs| == 0 {
      DividesRefl(acc);
    } else {
      var front := xs[..|xs| - 1];
      var prev := LcmFold(front, acc);
      var cur := LcmFold(xs, acc);
      LcmFoldMultipleOfAll(front, acc);
      LcmMultiple(xs[|xs| - 1], prev);
      DividesTrans(acc, prev, cur);
      forall i | 0 <= i < |xs|
        ensures Divides(xs[i], cur)
      {
        if i < |xs| - 1 {
          assert xs[i] == front[i];
          DividesTrans(front[i], prev, cur);
        }
      }
    }
  }

  /** Positive elements and start give a positive fold. */
  lemma {:induction false} LcmFoldPositive(xs: seq<int>, acc: int)
    requires acc > 0
    requires forall i :: 0 <= i < |xs| ==> xs[i] > 0
    ensures LcmFold(xs, acc) > 0
    decreases |xs|
  {
    if |xs| > 0 {
      LcmFoldPositive(xs[..|xs| - 1], acc);
      LcmMultiple(xs[|xs| - 1], LcmFold(xs[..|xs| - 1], acc));
    }
  }
}
