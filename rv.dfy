// The repetition vector: rational propagation of firing ratios along the
// arcs from a seed task, then the lcm of the denominators, the division by
// the gcd and, for the cyclo-static classes, the division by phase counts.
module RepetitionVector {
  import opened Arith
  import opened GcdLcm
  import opened Fractions
  import opened Outcomes
  import opened Graph
  import opened Dataflow

  /**
   * What the propagation reads of an arc: its endpoints and the rate on each
   * side, `rs` on the producing side and `rt` on the consuming side, both
   * already scaled to the rate period.
   */
  datatype Edge = Edge(src: nat, tgt: nat, rs: int, rt: int)

  predicate EdgesOk(es: seq<Edge>, n: nat) {
    forall c :: 0 <= c < |es| ==> es[c].src < n && es[c].tgt < n
  }

  /** `get_arc_list(source=a)`, in order. */
  function Leaving(es: seq<Edge>, a: nat): (r: seq<nat>)
    ensures forall k :: 0 <= k < |r| ==> r[k] < |es| && es[r[k]].src == a
    decreases |es|
  {
    if |es| == 0 then []
    else
      var front := Leaving(es[..|es| - 1], a);
      if es[|es| - 1].src == a then front + [|es| - 1] else front
  }

  /** `get_arc_list(target=a)`, in order. */
  function Entering(es: seq<Edge>, a: nat): (r: seq<nat>)
    ensures forall k :: 0 <= k < |r| ==> r[k] < |es| && es[r[k]].tgt == a
    decreases |es|
  {
    if |es| == 0 then []
    else
      var front := Entering(es[..|es| - 1], a);
      if es[|es| - 1].tgt == a then front + [|es| - 1] else front
  }

  /** Every arc leaving `a` is listed. */
  lemma {:induction false} LeavingComplete(es: seq<Edge>, a: nat)
    ensures forall c :: 0 <= c < |es| && es[c].src == a ==> c in Leaving(es, a)
    decreases |es|
  {
    if |es| > 0 {
      var front := es[..|es| - 1];
      LeavingComplete(front, a);
      forall c | 0 <= c < |es| - 1 && es[c].src == a
        ensures c in Leaving(es, a)
      {
        assert front[c] == es[c];
      }
    }
  }

  /** Every arc entering `a` is listed. */
  lemma {:induction false} EnteringComplete(es: seq<Edge>, a: nat)
    ensures forall c :: 0 <= c < |es| && es[c].tgt == a ==> c in Entering(es, a)
    decreases |es|
  {
    if |es| > 0 {
      var front := es[..|es| - 1];
      EnteringComplete(front, a);
      forall c | 0 <= c < |es| - 1 && es[c].tgt == a
        ensures c in Entering(es, a)
      {
        assert front[c] == es[c];
      }
    }
  }

  /** The arcs the propagation from `a` visits: the leaving ones, then the entering ones (a self-loop twice). */
  function Incident(es: seq<Edge>, a: nat): (r: seq<nat>)
    ensures IncidentList(es, a, r)
  {
    Leaving(es, a) + Entering(es, a)
  }

  /** Every arc at `a` is visited. */
  lemma IncidentComplete(es: seq<Edge>, a: nat)
    ensures forall c :: 0 <= c < |es| && (es[c].src == a || es[c].tgt == a) ==> c in Incident(es, a)
  {
    LeavingComplete(es, a);
    EnteringComplete(es, a);
  }

  predicate IncidentList(es: seq<Edge>, a: nat, cs: seq<nat>) {
    forall k :: 0 <= k < |cs| ==> cs[k] < |es| && (es[cs[k]].src == a || es[cs[k]].tgt == a)
  }

  /** The other end of `e` seen from `a`. */
  function Other(e: Edge, a: nat): nat { if e.src == a then e.tgt else e.src }

  /** `rate_a` and `rate_b` after the swap the source applies when `a` is the target. */
  function NearRate(e: Edge, a: nat): int { if e.tgt == a then e.rt else e.rs }
  function FarRate(e: Edge, a: nat): int { if e.tgt == a then e.rs else e.rt }

  // ---------------------------------------------------------------------
  // The fractions map: zero means "not reached yet"

  function ZeroSet(f: seq<Q>): set<nat> {
    set i: nat | i < |f| && IsZero(f[i])
  }

  /** `f'` keeps every entry that `f` has already set. */
  predicate Keeps(f: seq<Q>, f': seq<Q>) {
    |f'| == |f| && forall i :: 0 <= i < |f| && !IsZero(f[i]) ==> f'[i] == f[i]
  }

  lemma KeepsZeroSet(f: seq<Q>, f': seq<Q>)
    requires Keeps(f, f')
    ensures ZeroSet(f') <= ZeroSet(f)
  {
  }

  lemma KeepsTrans(f: seq<Q>, f': seq<Q>, f'': seq<Q>)
    requires Keeps(f, f') && Keeps(f', f'')
    ensures Keeps(f, f'')
  {
  }

  /** Setting an unreached entry shrinks the unreached set. */
  lemma AssignUnreached(f: seq<Q>, b: nat, x: Q)
    requires b < |f| && IsZero(f[b]) && !IsZero(x)
    ensures ZeroSet(f[b := x]) < ZeroSet(f)
    ensures Keeps(f, f[b := x])
  {
    assert b in ZeroSet(f) && b !in ZeroSet(f[b := x]);
  }

  /** The fraction passed along an arc is nonzero: `fraction_a * Fraction(rate_a, rate_b)`. */
  lemma PassedNonZero(fa: Q, ra: int, rb: int)
    requires !IsZero(fa) && ra != 0 && rb != 0
    ensures !IsZero(Mul(fa, Make(ra, rb)))
  {
    MulZero(fa, Make(ra, rb));
  }

  // ---------------------------------------------------------------------
  // `calc_fractions_connected_actors`

  /**
   * The recursive walk from `a`, answering whether no contradiction was met
   * and the fractions map afterwards. With `propagate == false` it is the
   * walk as written, which drops the answer of each recursive call (only a
   * zero fraction after the call, which cannot happen, fails the caller);
   * with `propagate == true` a failed recursive call fails its caller.
   */
  function Walk(propagate: bool, es: seq<Edge>, f: seq<Q>, a: nat): (r: (bool, seq<Q>))
    requires EdgesOk(es, |f|) && a < |f|
    ensures Keeps(f, r.1)
    decreases ZeroSet(f), 1, 0
  {
    if IsZero(f[a]) then (false, f)
    else WalkFrom(propagate, es, f, a, f[a], Incident(es, a))
  }

  /** The loop of the walk from `a` (whose fraction is `fa`) over the arcs `cs` still to visit. */
  function WalkFrom(propagate: bool, es: seq<Edge>, f: seq<Q>, a: nat, fa: Q, cs: seq<nat>): (r: (bool, seq<Q>))
    requires EdgesOk(es, |f|) && a < |f| && !IsZero(fa) && IncidentList(es, a, cs)
    ensures Keeps(f, r.1)
    decreases ZeroSet(f), 0, |cs|
  {
    if |cs| == 0 then (true, f)
    else
      var e := es[cs[0]];
      var b := Other(e, a);
      var ra, rb := NearRate(e, a), FarRate(e, a);
      if ra == 0 || rb == 0 then (false, f)
      else
        var fb := Mul(fa, Make(ra, rb));
        var known := f[b];
        if !IsZero(known) && !Same(fb, known) then (false, f)
        else if IsZero(known) then
          PassedNonZero(fa, ra, rb);
          AssignUnreached(f, b, fb);
          var sub := Walk(propagate, es, f[b := fb], b);
          var f2 := sub.1;
          KeepsTrans(f, f[b := fb], f2);
          KeepsZeroSet(f[b := fb], f2);
          if propagate && !sub.0 then (false, f2)
          else if IsZero(f2[b]) then (false, f2)
          else
            var rest := WalkFrom(propagate, es, f2, a, fa, cs[1..]);
            KeepsTrans(f, f2, rest.1);
            rest
        else
          var rest := WalkFrom(propagate, es, f, a, fa, cs[1..]);
          rest
  }

  /** `calc_fractions_connected_actors`, mutating the fractions map as it goes. */
  method CalcFractionsConnectedActors(propagate: bool, es: seq<Edge>, f0: seq<Q>, a: nat) returns (ok: bool, f: seq<Q>)
    requires EdgesOk(es, |f0|) && a < |f0|
    ensures (ok, f) == Walk(propagate, es, f0, a)
    decreases ZeroSet(f0), 1
  {
    var fa := f0[a];
    if IsZero(fa) {
      return false, f0;
    }
    var cs := Incident(es, a);
    f := f0;
    var k := 0;
    while k < |cs|
      invariant 0 <= k <= |cs|
      invariant Keeps(f0, f)
      invariant WalkFrom(propagate, es, f, a, fa, cs[k..]) == Walk(propagate, es, f0, a)
      decreases |cs| - k
    {
      assert cs[k..][0] == cs[k] && cs[k..][1..] == cs[k + 1..];
      var e := es[cs[k]];
      var b := Other(e, a);
      var ra, rb := NearRate(e, a), FarRate(e, a);
      if ra == 0 || rb == 0 {
        return false, f;
      }
      var fb := Mul(fa, Make(ra, rb));
      var known := f[b];
      if !IsZero(known) && !Same(fb, known) {
        return false, f;
      } else if IsZero(known) {
        PassedNonZero(fa, ra, rb);
        AssignUnreached(f, b, fb);
        KeepsZeroSet(f0, f);
        var subOk, f2 := CalcFractionsConnectedActors(propagate, es, f[b := fb], b);
        KeepsTrans(f, f[b := fb], f2);
        KeepsTrans(f0, f, f2);
        if propagate && !subOk {
          return false, f2;
        }
        if IsZero(f2[b]) {
          return false, f2;
        }
        f := f2;
      }
      k := k + 1;
    }
    return true, f;
  }

  // ---------------------------------------------------------------------
  // The seeding loop of `compute_rep_vect`

  function Unreached(n: nat): (f: seq<Q>)
    ensures |f| == n && forall i :: 0 <= i < n ==> IsZero(f[i])
  {
    seq(n, _ => Int(0))
  }

  /** Every task from `v` on that is still unreached is given `Fraction(1, 1)` and walked from. */
  function Seed(propagate: bool, es: seq<Edge>, f: seq<Q>, v: nat): (r: (bool, seq<Q>))
    requires EdgesOk(es, |f|)
    ensures Keeps(f, r.1)
    decreases |f| - v
  {
    if v >= |f| then (true, f)
    else if IsZero(f[v]) then
      var sub := Walk(propagate, es, f[v := Int(1)], v);
      KeepsTrans(f, f[v := Int(1)], sub.1);
      if !sub.0 then (false, sub.1)
      else
        var rest := Seed(propagate, es, sub.1, v + 1);
        KeepsTrans(f, sub.1, rest.1);
        rest
    else Seed(propagate, es, f, v + 1)
  }

  method SeedFractions(propagate: bool, es: seq<Edge>, n: nat) returns (ok: bool, f: seq<Q>)
    requires EdgesOk(es, n)
    ensures (ok, f) == Seed(propagate, es, Unreached(n), 0)
  {
    f := Unreached(n);
    var v := 0;
    while v < n
      invariant 0 <= v <= n && |f| == n
      invariant Seed(propagate, es, f, v) == Seed(propagate, es, Unreached(n), 0)
    {
      if IsZero(f[v]) {
        f := f[v := Int(1)];
        ok, f := CalcFractionsConnectedActors(propagate, es, f, v);
        if !ok {
          return;
        }
      }
      v := v + 1;
    }
    ok := true;
  }

  // ---------------------------------------------------------------------
  // What a successful walk establishes

  /** `fraction(src) * rs == fraction(tgt) * rt`, both fractions set. */
  predicate Balanced(e: Edge, f: seq<Q>)
    requires e.src < |f| && e.tgt < |f|
  {
    !IsZero(f[e.src]) && !IsZero(f[e.tgt]) &&
    f[e.src].num * e.rs * f[e.tgt].den == f[e.tgt].num * e.rt * f[e.src].den
  }

  /** Every arc at `v` is balanced. */
  predicate Done(es: seq<Edge>, f: seq<Q>, v: nat)
    requires EdgesOk(es, |f|)
  {
    forall c :: 0 <= c < |es| && (es[c].src == v || es[c].tgt == v) ==> Balanced(es[c], f)
  }

  lemma DoneKept(es: seq<Edge>, f: seq<Q>, f': seq<Q>, v: nat)
    requires EdgesOk(es, |f|) && Keeps(f, f') && Done(es, f, v)
    ensures Done(es, f', v)
  {
    forall c | 0 <= c < |es| && (es[c].src == v || es[c].tgt == v)
      ensures Balanced(es[c], f')
    {
      assert Balanced(es[c], f);
    }
  }

  /** The comparison the walk makes on an arc is the balance of that arc, read from `a`'s side. */
  lemma PropagationCheck(fa: Q, x: Q, ra: int, rb: int)
    requires ra != 0 && rb != 0
    ensures Same(Mul(fa, Make(ra, rb)), x) <==> fa.num * ra * x.den == x.num * rb * fa.den
  {
    var m := Make(ra, rb);
    var lhs := fa.num * m.num * x.den - x.num * (fa.den * m.den);
    var rhs := fa.num * ra * x.den - x.num * rb * fa.den;
    assert lhs * rb == m.den * rhs by {
      assert m.num * rb == ra * m.den;
      calc {
        lhs * rb;
        fa.num * x.den * (m.num * rb) - x.num * fa.den * m.den * rb;
        fa.num * x.den * (ra * m.den) - x.num * fa.den * m.den * rb;
        m.den * rhs;
      }
    }
    if lhs == 0 {
      MulCancel(rhs, 0, m.den);
    }
    if rhs == 0 {
      MulCancel(lhs, 0, rb);
    }
  }

  /** The balance of an arc, read from either endpoint. */
  lemma BalancedFrom(e: Edge, f: seq<Q>, a: nat)
    requires e.src < |f| && e.tgt < |f| && (a == e.src || a == e.tgt)
    ensures var b := Other(e, a);
      Balanced(e, f) <==>
        !IsZero(f[a]) && !IsZero(f[b]) &&
        f[a].num * NearRate(e, a) * f[b].den == f[b].num * FarRate(e, a) * f[a].den
  {
  }

  /** A successful walk from `a` (with failures propagated) balances every arc at `a` and at each task it reached. */
  lemma {:induction false} WalkSound(es: seq<Edge>, f: seq<Q>, a: nat)
    requires EdgesOk(es, |f|) && a < |f| && Walk(true, es, f, a).0
    ensures var f' := Walk(true, es, f, a).1;
      Done(es, f', a) &&
      forall v :: 0 <= v < |f| && IsZero(f[v]) && !IsZero(f'[v]) ==> Done(es, f', v)
    decreases ZeroSet(f), 1, 0
  {
    var cs := Incident(es, a);
    IncidentComplete(es, a);
    WalkFromSound(es, f, a, f[a], cs);
    var f' := Walk(true, es, f, a).1;
    forall c | 0 <= c < |es| && (es[c].src == a || es[c].tgt == a)
      ensures Balanced(es[c], f')
    {
      var k :| 0 <= k < |cs| && cs[k] == c;
    }
  }

  lemma {:induction false} WalkFromSound(es: seq<Edge>, f: seq<Q>, a: nat, fa: Q, cs: seq<nat>)
    requires EdgesOk(es, |f|) && a < |f| && f[a] == fa && !IsZero(fa) && IncidentList(es, a, cs)
    requires WalkFrom(true, es, f, a, fa, cs).0
    ensures var f' := WalkFrom(true, es, f, a, fa, cs).1;
      (forall k :: 0 <= k < |cs| ==> Balanced(es[cs[k]], f')) &&
      forall v :: 0 <= v < |f| && IsZero(f[v]) && !IsZero(f'[v]) ==> Done(es, f', v)
    decreases ZeroSet(f), 0, |cs|
  {
    if |cs| > 0 {
      var e := es[cs[0]];
      var b := Other(e, a);
      var ra, rb := NearRate(e, a), FarRate(e, a);
      var fb := Mul(fa, Make(ra, rb));
      var known := f[b];
      var f' := WalkFrom(true, es, f, a, fa, cs).1;
      if IsZero(known) {
        PassedNonZero(fa, ra, rb);
        AssignUnreached(f, b, fb);
        var f1 := f[b := fb];
        var f2 := Walk(true, es, f1, b).1;
        WalkSound(es, f1, b);
        KeepsTrans(f, f1, f2);
        assert f' == WalkFrom(true, es, f2, a, fa, cs[1..]).1;
        WalkFromSound(es, f2, a, fa, cs[1..]);
        assert Keeps(f2, f');
        DoneKept(es, f2, f', b);
        assert Balanced(e, f');
        forall v | 0 <= v < |f| && IsZero(f[v]) && !IsZero(f'[v])
          ensures Done(es, f', v)
        {
          if v == b {
          } else if !IsZero(f2[v]) {
            DoneKept(es, f2, f', v);
          }
        }
      } else {
        PropagationCheck(fa, known, ra, rb);
        BalancedFrom(e, f, a);
        WalkFromSound(es, f, a, fa, cs[1..]);
        assert Balanced(e, f);
        assert Balanced(e, f');
      }
      forall k | 0 <= k < |cs|
        ensures Balanced(es[cs[k]], f')
      {
        if k > 0 {
          assert cs[k] == cs[1..][k - 1];
        }
      }
    }
  }

  /** After a successful seeding with failures propagated, every task is reached and every arc is balanced. */
  lemma {:induction false} SeedSound(es: seq<Edge>, f: seq<Q>, v: nat)
    requires EdgesOk(es, |f|) && v <= |f|
    requires forall u :: 0 <= u < |f| && !IsZero(f[u]) ==> Done(es, f, u)
    requires Seed(true, es, f, v).0
    ensures var f' := Seed(true, es, f, v).1;
      (forall u :: v <= u < |f| ==> !IsZero(f'[u])) &&
      forall u :: 0 <= u < |f| && !IsZero(f'[u]) ==> Done(es, f', u)
    decreases |f| - v
  {
    if v < |f| {
      var f' := Seed(true, es, f, v).1;
      if IsZero(f[v]) {
        var f1 := f[v := Int(1)];
        var f2 := Walk(true, es, f1, v).1;
        WalkSound(es, f1, v);
        KeepsTrans(f, f1, f2);
        forall u | 0 <= u < |f| && !IsZero(f2[u])
          ensures Done(es, f2, u)
        {
          if u != v && !IsZero(f[u]) {
            DoneKept(es, f, f2, u);
          }
        }
        SeedSound(es, f2, v + 1);
        assert f' == Seed(true, es, f2, v + 1).1;
      } else {
        SeedSound(es, f, v + 1);
      }
    }
  }

  /** Seeding from the all-unreached map with failures propagated balances every arc. */
  lemma SeedBalancesEveryArc(es: seq<Edge>, n: nat)
    requires EdgesOk(es, n) && Seed(true, es, Unreached(n), 0).0
    ensures var f := Seed(true, es, Unreached(n), 0).1;
      (forall u :: 0 <= u < n ==> !IsZero(f[u])) &&
      forall c :: 0 <= c < |es| ==> Balanced(es[c], f)
  {
    SeedSound(es, Unreached(n), 0);
    AllDoneBalanced(es, Seed(true, es, Unreached(n), 0).1);
  }

  lemma AllDoneBalanced(es: seq<Edge>, f: seq<Q>)
    requires EdgesOk(es, |f|)
    requires forall u :: 0 <= u < |f| ==> !IsZero(f[u]) && Done(es, f, u)
    ensures forall c :: 0 <= c < |es| ==> Balanced(es[c], f)
  {
    forall c | 0 <= c < |es|
      ensures Balanced(es[c], f)
    {
      assert Done(es, f, es[c].src);
    }
  }

  // ---------------------------------------------------------------------
  // `calc_repetition_vector`

  /** `l` after the first `k` tasks: `l := lcm(l, fractions[v].denominator)` from 1. */
  function DenLcm(f: seq<Q>, k: nat): int
    requires k <= |f|
  {
    if k == 0 then 1 else Lcm(DenLcm(f, k - 1), Denominator(f[k - 1]))
  }

  lemma {:induction false} DenLcmFacts(f: seq<Q>, k: nat)
    requires k <= |f|
    ensures DenLcm(f, k) > 0
    ensures forall i :: 0 <= i < k ==> Divides(Denominator(f[i]), DenLcm(f, k))
  {
    if k > 0 {
      var prev := DenLcm(f, k - 1);
      var d := Denominator(f[k - 1]);
      DenLcmFacts(f, k - 1);
      LcmMultiple(prev, d);
      forall i | 0 <= i < k
        ensures Divides(Denominator(f[i]), DenLcm(f, k))
      {
        if i < k - 1 {
          DividesTrans(Denominator(f[i]), prev, DenLcm(f, k));
        }
      }
    }
  }

  /** `numerator * l / denominator` of every fraction. */
  function Scaled(f: seq<Q>, l: int): (b: seq<int>)
    ensures |b| == |f|
  {
    seq(|f|, i requires 0 <= i < |f| => PyDiv(Numerator(f[i]) * l, Denominator(f[i])))
  }

  /** The integer vector before the rate period is applied: scaled by the lcm, then divided by the gcd. */
  function ReducedVector(f: seq<Q>): (r: Result<seq<int>>)
    ensures r.Ok? ==> |r.value| == |f| && |f| > 0
  {
    var l := DenLcm(f, |f|);
    if l == 0 then Err(ValueError)
    else if |f| == 0 then Err(IndexError)
    else
      var b := Scaled(f, l);
      var g := GcdReduce([b[0]] + b);
      if g <= 0 then Err(ValueError)
      else Ok(seq(|f|, i requires 0 <= i < |f| => PyDiv(b[i], g)))
  }

  /** `calc_repetition_vector`: the reduced vector times the rate period. */
  function CalcRepetitionVectorOf(f: seq<Q>, rp: int): (r: Result<seq<int>>)
    ensures r.Ok? ==> |r.value| == |f| && |f| > 0
  {
    match ReducedVector(f)
    case Err(e) => Err(e)
    case Ok(y) => Ok(seq(|y|, i requires 0 <= i < |y| => y[i] * rp))
  }

  /** A fraction times a multiple `l` of its reduced denominator is the integer the source computes. */
  lemma ScaledValue(p: Q, l: int)
    requires Divides(Denominator(p), l)
    ensures p.num * l == PyDiv(Numerator(p) * l, Denominator(p)) * p.den
  {
    ScaleByMultipleOfDenominator(p, l);
    PyModPositive(Numerator(p) * l, Denominator(p));
  }

  /** The integer balance of an arc. */
  predicate IntBalanced(e: Edge, x: seq<int>)
    requires e.src < |x| && e.tgt < |x|
  {
    x[e.src] * e.rs == x[e.tgt] * e.rt
  }

  lemma FracToInt(ns: int, ds: int, nt: int, dt: int, bs: int, bt: int, rs: int, rt: int, l: int)
    requires ds > 0 && dt > 0
    requires ns * l == bs * ds && nt * l == bt * dt
    requires ns * rs * dt == nt * rt * ds
    ensures bs * rs == bt * rt
  {
    MulPositive(ds, dt);
    calc {
      (bs * rs) * (ds * dt);
      (bs * ds) * rs * dt;
      (ns * l) * rs * dt;
      l * (ns * rs * dt);
      l * (nt * rt * ds);
      (nt * l) * rt * ds;
      (bt * dt) * rt * ds;
      (bt * rt) * (ds * dt);
    }
    MulCancel(bs * rs, bt * rt, ds * dt);
  }

  /** Dividing both sides of an integer balance by a common divisor keeps it. */
  lemma DivideBalance(bs: int, bt: int, rs: int, rt: int, g: int)
    requires g > 0 && Divides(g, bs) && Divides(g, bt) && bs * rs == bt * rt
    ensures PyDiv(bs, g) * rs == PyDiv(bt, g) * rt
  {
    PyModPositive(bs, g);
    PyModPositive(bt, g);
    var ys, yt := bs / g, bt / g;
    assert bs == g * ys && bt == g * yt;
    assert (ys * rs) * g == (yt * rt) * g by {
      assert (ys * rs) * g == (g * ys) * rs;
      assert (yt * rt) * g == (g * yt) * rt;
    }
    MulCancel(ys * rs, yt * rt, g);
  }

  /** What the reduced vector is made of: the scaled vector `b`, its gcd `g`, and `y[i] == b[i] / g`. */
  lemma ReducedParts(f: seq<Q>) returns (l: int, b: seq<int>, g: int)
    requires ReducedVector(f).Ok?
    ensures l == DenLcm(f, |f|) && l > 0 && b == Scaled(f, l)
    ensures forall i :: 0 <= i < |f| ==> Divides(Denominator(f[i]), l)
    ensures g == GcdReduce([b[0]] + b) && g > 0
    ensures forall i :: 0 <= i < |f| ==> Divides(g, b[i]) && ReducedVector(f).value[i] == PyDiv(b[i], g)
  {
    l := DenLcm(f, |f|);
    DenLcmFacts(f, |f|);
    b := Scaled(f, l);
    var bb := [b[0]] + b;
    g := GcdReduce(bb);
    GcdReduceDividesAll(bb);
    forall i | 0 <= i < |f|
      ensures Divides(g, b[i])
    {
      assert bb[i + 1] == b[i];
    }
  }

  /** Balanced fractions give a balanced reduced vector. */
  lemma ReducedBalanced(es: seq<Edge>, f: seq<Q>)
    requires EdgesOk(es, |f|) && ReducedVector(f).Ok?
    requires forall c :: 0 <= c < |es| ==> Balanced(es[c], f)
    ensures forall c :: 0 <= c < |es| ==> IntBalanced(es[c], ReducedVector(f).value)
  {
    var l, b, g := ReducedParts(f);
    var y := ReducedVector(f).value;
    forall c | 0 <= c < |es|
      ensures IntBalanced(es[c], y)
    {
      var e := es[c];
      var s, t := e.src, e.tgt;
      ScaledValue(f[s], l);
      ScaledValue(f[t], l);
      assert Balanced(e, f);
      FracToInt(f[s].num, f[s].den, f[t].num, f[t].den, b[s], b[t], e.rs, e.rt, l);
      DivideBalance(b[s], b[t], e.rs, e.rt, g);
    }
  }

  /** A common divisor of the quotients by `g` times `g` divides every element. */
  lemma QuotientDivisor(x: int, g: int, d: int)
    requires g > 0 && Divides(g, x) && Divides(d, PyDiv(x, g))
    ensures Divides(d * g, x)
  {
    PyModPositive(x, g);
    var k := DividesElim(d, x / g);
    assert x == g * (x / g);
    assert x == (d * g) * k;
    DividesIntro(d * g, x, k);
  }

  /** A common divisor `e` of a positive `g` with `e == d * g` has `|d| == 1`. */
  lemma UnitCofactor(d: int, g: int)
    requires g > 0 && Divides(d * g, g)
    ensures Abs(d) == 1
  {
    if d == 0 {
      assert false;
    }
    DividesBound(d * g, g);
    AbsMul(d, g);
    if Abs(d) > 1 {
      MulLtRight(1, Abs(d), g);
    }
  }

  /** The reduced vector has no common divisor but 1 and -1. */
  lemma ReducedCoprime(f: seq<Q>, d: int)
    requires ReducedVector(f).Ok?
    requires forall i :: 0 <= i < |f| ==> Divides(d, ReducedVector(f).value[i])
    ensures Abs(d) == 1
  {
    var l, b, g := ReducedParts(f);
    var bb := [b[0]] + b;
    forall i | 0 <= i < |bb|
      ensures Divides(d * g, bb[i])
    {
      var j := if i == 0 then 0 else i - 1;
      assert bb[i] == b[j];
      QuotientDivisor(b[j], g, d);
    }
    GcdReduceGreatest(bb, d * g);
    UnitCofactor(d, g);
  }

  // ---------------------------------------------------------------------
  // `compute_rep_vect` on a graph

  predicate PhasesPositive(g: Graph) {
    EndpointsOk(g) && forall t :: 0 <= t < |g.tasks| ==> PhaseCount(g, t) >= 1
  }

  /** `rate_period` after the first `k` arcs: the cyclo-static classes fold in the lcm of both endpoints' phase counts. */
  function RatePeriod(g: Graph, k: nat): int
    requires PhasesPositive(g) && k <= |g.arcs|
  {
    if k == 0 then 1
    else
      var p := RatePeriod(g, k - 1);
      var a := g.arcs[k - 1];
      if IsCsdf(g.kind) then Lcm(Lcm(p, PhaseCount(g, a.src)), PhaseCount(g, a.tgt)) else p
  }

  /** The rate period is positive, is 1 for SDF, and is a multiple of the phase count at each end of every arc. */
  lemma {:induction false} RatePeriodFacts(g: Graph, k: nat)
    requires PhasesPositive(g) && k <= |g.arcs|
    ensures RatePeriod(g, k) > 0
    ensures IsSdf(g.kind) ==> RatePeriod(g, k) == 1
    ensures IsCsdf(g.kind) ==> forall i :: 0 <= i < k ==>
      Divides(PhaseCount(g, g.arcs[i].src), RatePeriod(g, k)) && Divides(PhaseCount(g, g.arcs[i].tgt), RatePeriod(g, k))
  {
    if k > 0 && IsCsdf(g.kind) {
      var p := RatePeriod(g, k - 1);
      var a := g.arcs[k - 1];
      var ps, pt := PhaseCount(g, a.src), PhaseCount(g, a.tgt);
      RatePeriodFacts(g, k - 1);
      LcmMultiple(p, ps);
      var p1 := Lcm(p, ps);
      LcmMultiple(p1, pt);
      var p2 := RatePeriod(g, k);
      DividesTrans(p, p1, p2);
      DividesTrans(ps, p1, p2);
      forall i | 0 <= i < k
        ensures Divides(PhaseCount(g, g.arcs[i].src), p2) && Divides(PhaseCount(g, g.arcs[i].tgt), p2)
      {
        if i < k - 1 {
          DividesTrans(PhaseCount(g, g.arcs[i].src), p, p2);
          DividesTrans(PhaseCount(g, g.arcs[i].tgt), p, p2);
        }
      }
    } else if k > 0 {
      RatePeriodFacts(g, k - 1);
    }
  }

  /** The rates the propagation reads off arc `i`: SDF scales by the rate period, the cyclo-static classes by `rate_period / phase_count`. */
  function ArcEdge(g: Graph, rp: int, i: nat): (e: Edge)
    requires PhasesPositive(g) && i < |g.arcs|
    ensures e.src == g.arcs[i].src && e.tgt == g.arcs[i].tgt
  {
    var a := g.arcs[i];
    if IsSdf(g.kind) then Edge(a.src, a.tgt, ProdWeight(a) * rp, ConsWeight(a) * rp)
    else Edge(a.src, a.tgt, ProdWeight(a) * PyDiv(rp, PhaseCount(g, a.src)), ConsWeight(a) * PyDiv(rp, PhaseCount(g, a.tgt)))
  }

  function Edges(g: Graph, rp: int): (es: seq<Edge>)
    requires PhasesPositive(g)
    ensures |es| == |g.arcs| && EdgesOk(es, |g.tasks|)
  {
    seq(|g.arcs|, i requires 0 <= i < |g.arcs| => ArcEdge(g, rp, i))
  }

  /** `compute_rep_vect`: `False` when the propagation fails, otherwise the repetition factors. */
  datatype RvOutcome = NotConsistent | Factors(rf: seq<int>)

  /** The divisor of task `v`'s entry: `gcd_v` for SDF, `phase_count * gcd_v` otherwise. */
  function FactorDivisor(g: Graph, v: nat, gv: int): (d: int)
    requires PhasesPositive(g) && v < |g.tasks| && gv != 0
    ensures d != 0
  {
    if IsSdf(g.kind) then gv
    else
      MulPositive(PhaseCount(g, v), Abs(gv));
      AbsMul(PhaseCount(g, v), gv);
      PhaseCount(g, v) * gv
  }

  /** The entry of task `v` that enters `gcd_v`: the vector entry for SDF, divided by the phase count otherwise. */
  function PerPhase(g: Graph, z: seq<int>, v: nat): int
    requires PhasesPositive(g) && v < |g.tasks| && v < |z|
  {
    if IsSdf(g.kind) then z[v] else PyDiv(z[v], PhaseCount(g, v))
  }

  function PerPhaseAll(g: Graph, z: seq<int>): (w: seq<int>)
    requires PhasesPositive(g) && |z| == |g.tasks|
    ensures |w| == |z|
  {
    seq(|z|, v requires 0 <= v < |z| => PerPhase(g, z, v))
  }

  /** The repetition factors from the vector `z`, or the `ZeroDivisionError` a zero `gcd_v` raises. */
  function FactorsOf(g: Graph, z: seq<int>): (r: Result<seq<int>>)
    requires PhasesPositive(g) && |z| == |g.tasks| && |z| > 0
    ensures r.Ok? ==> |r.value| == |z|
  {
    var w := PerPhaseAll(g, z);
    var gv := GcdReduce([w[0]] + w);
    if gv == 0 then Err(ZeroDivisionError)
    else Ok(seq(|z|, v requires 0 <= v < |z| => PyDiv(z[v], FactorDivisor(g, v, gv))))
  }

  /**
   * `compute_rep_vect` on graph `g`; `propagate` selects the walk as written
   * (false) or the walk that passes failures up (true).
   */
  function ComputeRepVectOf(propagate: bool, g: Graph): (r: Result<RvOutcome>)
    requires PhasesPositive(g)
    ensures r.Ok? && r.value.Factors? ==> |r.value.rf| == |g.tasks|
  {
    var rp := RatePeriod(g, |g.arcs|);
    if rp <= 0 then Err(ValueError)
    else
      var es := Edges(g, rp);
      var s := Seed(propagate, es, Unreached(|g.tasks|), 0);
      if !s.0 then Ok(NotConsistent)
      else match CalcRepetitionVectorOf(s.1, rp)
        case Err(e) => Err(e)
        case Ok(z) =>
          match FactorsOf(g, z)
          case Err(e) => Err(e)
          case Ok(rf) => Ok(Factors(rf))
  }

  /** The graph after `set_repetition_factor` for every task. */
  function WithFactors(g: Graph, rf: seq<int>): (h: Graph)
    requires |rf| == |g.tasks|
    ensures h.kind == g.kind && h.arcs == g.arcs && |h.tasks| == |g.tasks|
    ensures forall v :: 0 <= v < |g.tasks| ==> h.tasks[v] == g.tasks[v].(rf := rf[v])
  {
    Graph(g.kind, seq(|g.tasks|, v requires 0 <= v < |g.tasks| => g.tasks[v].(rf := rf[v])), g.arcs)
  }

  /** `n * m` divided exactly by `n`. */
  lemma ExactQuotient(y: int, p: int, q: int)
    requires p >= 1
    ensures PyDiv(y * (p * q), p) == y * q
  {
    PyModPositive(y * (p * q), p);
    assert y * (p * q) == p * (y * q);
    ModOfMul(p, y * q);
  }

  lemma ExactQuotient2(x: int, d: int, u: int)
    requires d != 0 && x == d * u
    ensures PyDiv(x, d) == u
  {
    ModOfMul(d, u);
  }

  /**
   * One arc of the final step: from the balance `ys * P * qs == yt * C * qt`
   * of the reduced vector, with `rp == ps * qs == pt * qt`, the factors
   * `(ys * rp) / (ps * gv)` and `(yt * rp) / (pt * gv)` balance `P` and `C`.
   */
  lemma FactorBalance(prod: int, cons: int, ys: int, yt: int, ps: int, pt: int, qs: int, qt: int, gv: int)
    requires ps >= 1 && pt >= 1 && gv != 0 && ps * qs == pt * qt
    requires ys * (prod * qs) == yt * (cons * qt)
    requires Divides(gv, ys * qs) && Divides(gv, yt * qt)
    ensures var rp := ps * qs;
      prod * PyDiv(ys * rp, ps * gv) == cons * PyDiv(yt * rp, pt * gv)
  {
    var us := DividesElim(gv, ys * qs);
    var ut := DividesElim(gv, yt * qt);
    SideQuotient(ys, ps, qs, gv, us);
    SideQuotient(yt, pt, qt, gv, ut);
    assert pt * qt == ps * qs;
    CrossBalance(prod, cons, ys, yt, qs, qt, gv, us, ut);
  }

  /** `(y * (p * q)) / (p * g) == u` when `y * q == g * u`. */
  lemma SideQuotient(y: int, p: int, q: int, g: int, u: int)
    requires p >= 1 && g != 0 && y * q == g * u
    ensures PyDiv(y * (p * q), p * g) == u
  {
    assert y * (p * q) == p * (y * q);
    assert p * (g * u) == (p * g) * u;
    MulPositive(p, Abs(g));
    AbsMul(p, g);
    ExactQuotient2(y * (p * q), p * g, u);
  }

  lemma CrossBalance(prod: int, cons: int, ys: int, yt: int, qs: int, qt: int, gv: int, us: int, ut: int)
    requires gv != 0 && ys * qs == gv * us && yt * qt == gv * ut
    requires ys * (prod * qs) == yt * (cons * qt)
    ensures prod * us == cons * ut
  {
    assert (prod * us) * gv == prod * (ys * qs);
    assert ys * (prod * qs) == prod * (ys * qs);
    assert yt * (cons * qt) == cons * (yt * qt);
    assert (cons * ut) * gv == cons * (yt * qt);
    MulCancel(prod * us, cons * ut, gv);
  }

  /** `gcd_v` divides every per-phase entry. */
  lemma FactorGcdDivides(g: Graph, z: seq<int>, v: nat)
    requires PhasesPositive(g) && |z| == |g.tasks| && |z| > 0 && v < |z|
    ensures var w := PerPhaseAll(g, z); Divides(GcdReduce([w[0]] + w), w[v])
  {
    var w := PerPhaseAll(g, z);
    GcdReduceDividesAll([w[0]] + w);
    assert ([w[0]] + w)[v + 1] == w[v];
  }

  /** Task `v`'s side of an arc: `rate_period == phase_count * q`, `q` the factor its rates are scaled by. */
  lemma SideOfArc(g: Graph, rp: int, v: nat) returns (q: int)
    requires PhasesPositive(g) && v < |g.tasks| && rp > 0
    requires IsCsdf(g.kind) ==> Divides(PhaseCount(g, v), rp)
    requires IsSdf(g.kind) ==> rp == 1
    ensures PhaseCount(g, v) * q == rp
    ensures q == (if IsSdf(g.kind) then rp else PyDiv(rp, PhaseCount(g, v)))
  {
    var p := PhaseCount(g, v);
    if IsSdf(g.kind) {
      q := rp;
    } else {
      q := PyDiv(rp, p);
      PyModPositive(rp, p);
      DivExact(p, rp);
    }
  }

  /** One arc is consistent under the computed factors. */
  lemma ArcFactors(g: Graph, rp: int, y: seq<int>, z: seq<int>, i: nat)
    requires PhasesPositive(g) && i < |g.arcs| && rp > 0
    requires IsCsdf(g.kind) ==> Divides(PhaseCount(g, g.arcs[i].src), rp) && Divides(PhaseCount(g, g.arcs[i].tgt), rp)
    requires IsSdf(g.kind) ==> rp == 1
    requires |y| == |g.tasks| && |z| == |y| && |z| > 0
    requires forall j :: 0 <= j < |z| ==> z[j] == y[j] * rp
    requires IntBalanced(ArcEdge(g, rp, i), y)
    requires var w := PerPhaseAll(g, z); GcdReduce([w[0]] + w) != 0
    ensures var w := PerPhaseAll(g, z); var gv := GcdReduce([w[0]] + w);
      var a := g.arcs[i];
      ProdWeight(a) * PyDiv(z[a.src], FactorDivisor(g, a.src, gv)) == ConsWeight(a) * PyDiv(z[a.tgt], FactorDivisor(g, a.tgt, gv))
  {
    var w := PerPhaseAll(g, z);
    var gv := GcdReduce([w[0]] + w);
    var a := g.arcs[i];
    var s, t := a.src, a.tgt;
    var ps, pt := PhaseCount(g, s), PhaseCount(g, t);
    var qs := SideOfArc(g, rp, s);
    var qt := SideOfArc(g, rp, t);
    FactorGcdDivides(g, z, s);
    FactorGcdDivides(g, z, t);
    if IsSdf(g.kind) {
      assert w[s] == y[s] * qs && w[t] == y[t] * qt;
    } else {
      ExactQuotient(y[s], ps, qs);
      ExactQuotient(y[t], pt, qt);
      assert w[s] == y[s] * qs && w[t] == y[t] * qt;
    }
    assert FactorDivisor(g, s, gv) == ps * gv && FactorDivisor(g, t, gv) == pt * gv;
    FactorBalance(ProdWeight(a), ConsWeight(a), y[s], y[t], ps, pt, qs, qt, gv);
  }

  /**
   * With failures propagated, the factors `compute_rep_vect` stores make
   * every arc consistent: `sum(prod) * rf(src) == sum(cons) * rf(tgt)`.
   */
  lemma ComputeRepVectConsistent(g: Graph)
    requires PhasesPositive(g)
    ensures var r := ComputeRepVectOf(true, g);
      r.Ok? && r.value.Factors? ==> IsConsistent(WithFactors(g, r.value.rf))
  {
    var r := ComputeRepVectOf(true, g);
    if r.Ok? && r.value.Factors? {
      var n := |g.tasks|;
      var rp := RatePeriod(g, |g.arcs|);
      RatePeriodFacts(g, |g.arcs|);
      var es := Edges(g, rp);
      SeedBalancesEveryArc(es, n);
      var f := Seed(true, es, Unreached(n), 0).1;
      var y := ReducedVector(f).value;
      ReducedBalanced(es, f);
      var z := CalcRepetitionVectorOf(f, rp).value;
      var rf := r.value.rf;
      var h := WithFactors(g, rf);
      var w := PerPhaseAll(g, z);
      var gv := GcdReduce([w[0]] + w);
      forall i | 0 <= i < |g.arcs|
        ensures ArcConsistent(h, i)
      {
        assert es[i] == ArcEdge(g, rp, i);
        ArcFactors(g, rp, y, z, i);
      }
    }
  }

  // ---------------------------------------------------------------------
  // The loops of `calc_repetition_vector` and `compute_rep_vect`

  /** The first loop of `calc_repetition_vector`: the lcm of the reduced denominators. */
  method DenominatorLcm(f: seq<Q>) returns (l: int)
    ensures l == DenLcm(f, |f|)
  {
    l := 1;
    for v := 0 to |f|
      invariant l == DenLcm(f, v)
    {
      l := Lcm(l, Denominator(f[v]));
    }
  }

  /** The second loop: every fraction as `numerator * l / denominator`. */
  method ScaleEntries(f: seq<Q>, l: int) returns (b: seq<int>)
    ensures b == Scaled(f, l)
  {
    b := [];
    for v := 0 to |f|
      invariant b == Scaled(f, l)[..v]
    {
      b := b + [PyDiv(Numerator(f[v]) * l, Denominator(f[v]))];
    }
  }

  /** The gcd loops: `g := gcd(g, x)` over the entries, from the first entry. */
  method GcdEntries(b: seq<int>) returns (g: int)
    requires |b| > 0
    ensures g == GcdReduce([b[0]] + b)
  {
    var bb := [b[0]] + b;
    g := b[0];
    for v := 0 to |b|
      invariant g == GcdReduce(bb[..v + 1])
    {
      assert bb[..v + 2][..v + 1] == bb[..v + 1];
      g := Euclid(g, b[v]);
    }
    assert bb[..|b| + 1] == bb;
  }

  /** The division loop, which rewrites each entry in place. */
  method DivideEntries(b: seq<int>, g: int) returns (y: seq<int>)
    requires g != 0
    ensures |y| == |b| && forall i :: 0 <= i < |b| ==> y[i] == PyDiv(b[i], g)
  {
    y := b;
    for v := 0 to |b|
      invariant |y| == |b|
      invariant forall j :: 0 <= j < v ==> y[j] == PyDiv(b[j], g)
      invariant forall j :: v <= j < |b| ==> y[j] == b[j]
    {
      y := y[v := PyDiv(y[v], g)];
    }
  }

  /** The last loop, which multiplies each entry by the rate period in place. */
  method MultiplyEntries(y: seq<int>, rp: int) returns (z: seq<int>)
    ensures |z| == |y| && forall i :: 0 <= i < |y| ==> z[i] == y[i] * rp
  {
    z := y;
    for v := 0 to |y|
      invariant |z| == |y|
      invariant forall j :: 0 <= j < v ==> z[j] == y[j] * rp
      invariant forall j :: v <= j < |y| ==> z[j] == y[j]
    {
      z := z[v := z[v] * rp];
    }
  }

  /** `calc_repetition_vector` as its loops compute it. */
  method CalcRepetitionVector(f: seq<Q>, rp: int) returns (r: Result<seq<int>>)
    ensures r == CalcRepetitionVectorOf(f, rp)
  {
    var l := DenominatorLcm(f);
    if l == 0 {
      return Err(ValueError);
    }
    if |f| == 0 {
      return Err(IndexError);
    }
    var b := ScaleEntries(f, l);
    var g := GcdEntries(b);
    if g <= 0 {
      return Err(ValueError);
    }
    var y := DivideEntries(b, g);
    assert y == ReducedVector(f).value;
    var z := MultiplyEntries(y, rp);
    assert z == CalcRepetitionVectorOf(f, rp).value;
    return Ok(z);
  }

  /** The `rate_period` loop of `compute_rep_vect`. */
  method ComputeRatePeriod(g: Graph) returns (rp: int)
    requires PhasesPositive(g)
    ensures rp == RatePeriod(g, |g.arcs|)
  {
    rp := 1;
    for i := 0 to |g.arcs|
      invariant rp == RatePeriod(g, i)
    {
      if IsCsdf(g.kind) {
        rp := Lcm(rp, PhaseCount(g, g.arcs[i].src));
        rp := Lcm(rp, PhaseCount(g, g.arcs[i].tgt));
      }
    }
  }

  /** The `gcd_v` loop of `compute_rep_vect`, over the per-phase entries. */
  method FactorGcd(g: Graph, z: seq<int>) returns (gv: int)
    requires PhasesPositive(g) && |z| == |g.tasks| && |z| > 0
    ensures var w := PerPhaseAll(g, z); gv == GcdReduce([w[0]] + w)
  {
    var w: seq<int> := [];
    for v := 0 to |z|
      invariant w == PerPhaseAll(g, z)[..v]
    {
      w := w + [if IsSdf(g.kind) then z[v] else PyDiv(z[v], PhaseCount(g, v))];
    }
    assert w == PerPhaseAll(g, z);
    gv := GcdEntries(w);
  }

  /** The last loop of `compute_rep_vect`: each task's factor is computed and stored in turn. */
  method StoreFactors(dg: DataflowGraph, z: seq<int>, gv: int) returns (rfs: seq<int>)
    requires dg.Valid() && PhasesPositive(dg.Value()) && |z| == |dg.tasks| && gv != 0
    modifies dg
    ensures dg.Valid() && |rfs| == |z|
    ensures forall v :: 0 <= v < |z| ==> rfs[v] == PyDiv(z[v], FactorDivisor(old(dg.Value()), v, gv))
    ensures dg.Value() == WithFactors(old(dg.Value()), rfs)
    ensures dg.taskByName == old(dg.taskByName) && dg.taskKey == old(dg.taskKey) && dg.arcKey == old(dg.arcKey)
  {
    var g := dg.Value();
    var n := |z|;
    rfs := [];
    for v := 0 to n
      invariant dg.Valid() && dg.kind == g.kind && dg.arcs == g.arcs && |dg.tasks| == n
      invariant |rfs| == v
      invariant forall j :: 0 <= j < v ==> rfs[j] == PyDiv(z[j], FactorDivisor(g, j, gv))
      invariant forall j :: 0 <= j < v ==> dg.tasks[j] == g.tasks[j].(rf := rfs[j])
      invariant forall j :: v <= j < n ==> dg.tasks[j] == g.tasks[j]
      invariant dg.taskByName == old(dg.taskByName) && dg.taskKey == old(dg.taskKey) && dg.arcKey == old(dg.arcKey)
    {
      var rf := PyDiv(z[v], FactorDivisor(g, v, gv));
      dg.SetRepetitionFactor(v, rf);
      rfs := rfs + [rf];
    }
    assert dg.tasks == WithFactors(g, rfs).tasks;
  }

  /** Everything `compute_rep_vect` computes before it stores the factors. */
  method VectorOf(g: Graph) returns (r: Result<RvOutcome>, z: seq<int>, gv: int)
    requires PhasesPositive(g)
    ensures r.Ok? && r.value.Factors? ==>
      |z| == |g.tasks| && |z| > 0 && gv != 0 && ComputeRepVectOf(true, g) == r && |r.value.rf| == |z| &&
      forall v :: 0 <= v < |z| ==> r.value.rf[v] == PyDiv(z[v], FactorDivisor(g, v, gv))
    ensures !(r.Ok? && r.value.Factors?) ==> ComputeRepVectOf(true, g) == r
  {
    z, gv := [], 0;
    var rp := ComputeRatePeriod(g);
    if rp <= 0 {
      return Err(ValueError), z, gv;
    }
    var es := Edges(g, rp);
    var ok, f := SeedFractions(true, es, |g.tasks|);
    if !ok {
      return Ok(NotConsistent), z, gv;
    }
    var rv := CalcRepetitionVector(f, rp);
    if rv.Err? {
      return Err(rv.error), z, gv;
    }
    z := rv.value;
    gv := FactorGcd(g, z);
    if gv == 0 {
      return Err(ZeroDivisionError), z, gv;
    }
    r := Ok(Factors(FactorsOf(g, z).value));
  }

  /**
   * `compute_rep_vect` on the graph object: on success every task's
   * repetition factor is stored and the graph is consistent under them;
   * otherwise the graph is left as it was.
   */
  method ComputeRepVect(dg: DataflowGraph) returns (r: Result<RvOutcome>)
    requires dg.Valid() && PhasesPositive(dg.Value())
    modifies dg
    ensures dg.Valid()
    ensures r == ComputeRepVectOf(true, old(dg.Value()))
    ensures r.Ok? && r.value.Factors? ==> dg.Value() == WithFactors(old(dg.Value()), r.value.rf)
    ensures !(r.Ok? && r.value.Factors?) ==> dg.Value() == old(dg.Value())
    ensures r.Ok? && r.value.Factors? ==> IsConsistent(dg.Value())
    ensures dg.taskByName == old(dg.taskByName) && dg.taskKey == old(dg.taskKey) && dg.arcKey == old(dg.arcKey)
  {
    var g := dg.Value();
    var z, gv;
    r, z, gv := VectorOf(g);
    if r.Ok? && r.value.Factors? {
      ComputeRepVectConsistent(g);
      var rf := r.value.rf;
      assert IsConsistent(WithFactors(g, rf));
      var rfs := StoreFactors(dg, z, gv);
      assert rfs == rf;
    }
  }

  // ---------------------------------------------------------------------
  // The dropped recursive answer

  /** Three SDF tasks: `t0 -> t1` and `t1 -> t2` with rates 1, and `t2 -> t1` producing 2 and consuming 1. */
  function ChainWithBadReturn(): (g: Graph)
    ensures PhasesPositive(g)
  {
    var t := Task("t", 0, [1], []);
    Graph(SDF, [t, t, t], [
      Arc(0, 1, 0, "a0", 0, 1, 1, [1], [1], [], [], [], []),
      Arc(1, 2, 0, "a1", 0, 1, 1, [1], [1], [], [], [], []),
      Arc(2, 1, 0, "a2", 0, 1, 1, [2], [1], [], [], [], [])])
  }

  function ExampleEdges(): seq<Edge> {
    [Edge(0, 1, 1, 1), Edge(1, 2, 1, 1), Edge(2, 1, 2, 1)]
  }

  lemma LeavingSnoc(es: seq<Edge>, e: Edge, a: nat)
    ensures Leaving(es + [e], a) == Leaving(es, a) + (if e.src == a then [|es|] else [])
  {
    assert (es + [e])[..|es|] == es;
  }

  lemma EnteringSnoc(es: seq<Edge>, e: Edge, a: nat)
    ensures Entering(es + [e], a) == Entering(es, a) + (if e.tgt == a then [|es|] else [])
  {
    assert (es + [e])[..|es|] == es;
  }

  lemma ExampleLists(a: nat)
    requires a <= 2
    ensures Leaving(ExampleEdges(), a) == (if a == 0 then [0] else if a == 1 then [1] else [2])
    ensures Entering(ExampleEdges(), a) == (if a == 0 then [] else if a == 1 then [0, 2] else [1])
  {
    var x0, x1, x2 := Edge(0, 1, 1, 1), Edge(1, 2, 1, 1), Edge(2, 1, 2, 1);
    var s0: seq<Edge> := [];
    var s1 := s0 + [x0];
    var s2 := s1 + [x1];
    var s3 := s2 + [x2];
    assert s3 == ExampleEdges();
    LeavingSnoc(s0, x0, a);
    LeavingSnoc(s1, x1, a);
    LeavingSnoc(s2, x2, a);
    EnteringSnoc(s0, x0, a);
    EnteringSnoc(s1, x1, a);
    EnteringSnoc(s2, x2, a);
  }

  lemma ExampleIncidence(a: nat)
    requires a <= 2
    ensures Incident(ExampleEdges(), a) == (if a == 0 then [0] else if a == 1 then [1, 0, 2] else [2, 1])
  {
    ExampleLists(a);
    assert [1] + [0, 2] == [1, 0, 2];
  }

  /** The fractions of the example after t0, after t1 and after t2 are reached. */
  function Reached1(): seq<Q> { [Int(1), Int(0), Int(0)] }
  function Reached2(): seq<Q> { [Int(1), Int(1), Int(0)] }
  function Reached3(): seq<Q> { [Int(1), Int(1), Int(1)] }

  /** At t2 (all fractions known), arc t2 -> t1 asks for fraction 2 at t1: the walk fails. */
  lemma ExampleWalkAt2()
    ensures Walk(false, ExampleEdges(), Reached3(), 2) == (false, Reached3())
  {
    ExampleIncidence(2);
    assert WalkFrom(false, ExampleEdges(), Reached3(), 2, Int(1), [2, 1]) == (false, Reached3());
  }

  /** At t1, after t2: arc t0 -> t1 agrees, arc t2 -> t1 asks for 1/2 at t2. */
  lemma ExampleWalkAt1Rest()
    ensures WalkFrom(false, ExampleEdges(), Reached3(), 1, Int(1), [0, 2]) == (false, Reached3())
  {
    assert [0, 2][1..] == [2];
    assert WalkFrom(false, ExampleEdges(), Reached3(), 1, Int(1), [2]) == (false, Reached3());
  }

  /** At t1 the failure reported by t2 is dropped; the walk goes on and fails at arc t2 -> t1. */
  lemma ExampleWalkAt1()
    ensures Walk(false, ExampleEdges(), Reached2(), 1) == (false, Reached3())
  {
    ExampleIncidence(1);
    ExampleWalkAt2();
    ExampleWalkAt1Rest();
    assert Reached2()[2 := Mul(Int(1), Make(1, 1))] == Reached3();
    assert [1, 0, 2][1..] == [0, 2];
    assert WalkFrom(false, ExampleEdges(), Reached2(), 1, Int(1), [1, 0, 2]) == (false, Reached3());
  }

  /** At t0 the failure reported by t1 is dropped too: the walk succeeds. */
  lemma ExampleWalkFrom0()
    ensures WalkFrom(false, ExampleEdges(), Reached1(), 0, Int(1), [0]) == (true, Reached3())
  {
    ExampleWalkAt1();
    assert Reached1()[1 := Mul(Int(1), Make(1, 1))] == Reached2();
    assert [0][1..] == [];
    assert WalkFrom(false, ExampleEdges(), Reached3(), 0, Int(1), []) == (true, Reached3());
  }

  lemma ExampleWalkAt0()
    ensures Walk(false, ExampleEdges(), Reached1(), 0) == (true, Reached3())
  {
    ExampleIncidence(0);
    ExampleWalkFrom0();
  }

  /** The walks the example takes, as written. */
  lemma ExampleWalk()
    ensures Seed(false, ExampleEdges(), Unreached(3), 0) == (true, Reached3())
  {
    var es, f2 := ExampleEdges(), Reached3();
    ExampleWalkAt0();
    assert Unreached(3)[0 := Int(1)] == Reached1();
    assert Seed(false, es, f2, 3) == (true, f2);
    assert Seed(false, es, f2, 2) == (true, f2);
    assert Seed(false, es, f2, 1) == (true, f2);
  }

  /** Fractions all 1 have denominators 1 and scale to `[1, 1, 1]`. */
  lemma ExampleScaled()
    ensures DenLcm(Reached3(), 3) == 1 && Scaled(Reached3(), 1) == [1, 1, 1]
  {
    var one := Int(1);
    EuclidSelf(1);
    assert Reducer(one) == 1;
    assert Denominator(one) == 1 && Numerator(one) == 1;
    LcmSelf(1);
    assert DenLcm(Reached3(), 1) == 1 && DenLcm(Reached3(), 2) == 1;
  }

  /** The gcd of ones is 1. */
  lemma ExampleGcdOnes()
    ensures GcdReduce([1, 1, 1, 1]) == 1
  {
    EuclidSelf(1);
    assert [1, 1, 1, 1][..1] == [1] && [1, 1, 1, 1][..2] == [1, 1] && [1, 1, 1, 1][..3] == [1, 1, 1];
    assert GcdReduce([1, 1]) == 1;
    assert GcdReduce([1, 1, 1]) == 1;
  }

  /** Fractions all 1 give the vector `[1, 1, 1]`. */
  lemma ExampleVector()
    ensures CalcRepetitionVectorOf(Reached3(), 1) == Ok([1, 1, 1])
  {
    ExampleScaled();
    ExampleGcdOnes();
    var b := Scaled(Reached3(), 1);
    assert [b[0]] + b == [1, 1, 1, 1];
    assert seq(3, i requires 0 <= i < 3 => PyDiv(b[i], 1)) == [1, 1, 1];
    assert ReducedVector(Reached3()) == Ok([1, 1, 1]);
    var y := [1, 1, 1];
    assert seq(|y|, i requires 0 <= i < |y| => y[i] * 1) == y;
  }

  /** The factors of the vector `[1, 1, 1]` on the example graph. */
  lemma ExampleFactors()
    ensures FactorsOf(ChainWithBadReturn(), [1, 1, 1]) == Ok([1, 1, 1])
  {
    var g := ChainWithBadReturn();
    assert PerPhaseAll(g, [1, 1, 1]) == [1, 1, 1];
    assert [1, 1, 1, 1][..1] == [1] && [1, 1, 1, 1][..2] == [1, 1] && [1, 1, 1, 1][..3] == [1, 1, 1];
    EuclidSelf(1);
    assert GcdReduce([1, 1]) == 1;
    assert GcdReduce([1, 1, 1]) == 1;
    assert GcdReduce([1, 1, 1, 1]) == 1;
    assert seq(3, v requires 0 <= v < 3 => PyDiv([1, 1, 1][v], FactorDivisor(g, v, 1))) == [1, 1, 1];
  }

  /** With failures passed up, success would balance `t1 -> t2` and `t2 -> t1` at once, which nonzero fractions cannot. */
  lemma ExampleRefused()
    ensures !Seed(true, ExampleEdges(), Unreached(3), 0).0
  {
    var es := ExampleEdges();
    if Seed(true, es, Unreached(3), 0).0 {
      SeedBalancesEveryArc(es, 3);
      var f := Seed(true, es, Unreached(3), 0).1;
      assert Balanced(es[1], f) && Balanced(es[2], f);
      NoTwoWayRatio(f[1].num, f[1].den, f[2].num, f[2].den);
      MulPositiveNonZero(f[1].num, f[2].den);
      assert false;
    }
  }

  /**
   * On that graph the walk as written reaches `t2`, where arc `t2 -> t1`
   * contradicts the fraction of `t1`; the failure is dropped by each caller,
   * so `compute_rep_vect` stores the factors `[1, 1, 1]`, which break the
   * balance of `t2 -> t1`. The walk that passes failures up answers `False`.
   */
  lemma RepVectAsWrittenAcceptsInconsistent()
    ensures ComputeRepVectOf(false, ChainWithBadReturn()) == Ok(Factors([1, 1, 1]))
    ensures !IsConsistent(WithFactors(ChainWithBadReturn(), [1, 1, 1]))
    ensures ComputeRepVectOf(true, ChainWithBadReturn()) == Ok(NotConsistent)
  {
    var g := ChainWithBadReturn();
    assert RatePeriod(g, 3) == 1;
    assert Edges(g, 1) == ExampleEdges();
    ExampleWalk();
    ExampleVector();
    ExampleFactors();
    ExampleRefused();
    assert !ArcConsistent(WithFactors(g, [1, 1, 1]), 2);
  }

  lemma MulPositiveNonZero(x: int, d: int)
    requires x != 0 && d > 0
    ensures x * d != 0
  {
    AbsMul(x, d);
    MulPositive(Abs(x), d);
  }

  /** Ratios 1 one way and 2 back can only be met with a zero fraction. */
  lemma NoTwoWayRatio(n1: int, d1: int, n2: int, d2: int)
    requires n1 * 1 * d2 == n2 * 1 * d1
    requires n2 * 2 * d1 == n1 * 1 * d2
    ensures n1 * d2 == 0
  {
  }
}
