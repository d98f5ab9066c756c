// Normalization of a consistent dataflow graph and its inverse: every arc is
// multiplied by a rational coefficient chosen so that all the rates a task
// sees on its arcs become one weight (`normalized_dataflow`,
// `un_normalized_dataflow`, `multiply_arc`, `get_normalized_vector`).
//
// Two discrepancies of the source are modelled behind the flag `fixed`:
// with `fixed == false` the functions do what the code does, with
// `fixed == true` what it evidently means to do.
//  - `multiply_arc` on a PCG arc scales the threshold lists after the
//    consumption setters have overwritten them with the scaled consumption
//    rates, so thresholds become `cons * c * c`; fixed, the thresholds the
//    arc had are scaled.
//  - `__test_coef_vector` returns from inside its loop and so only checks
//    the first arc (and answers `None`, which is false, on a graph without
//    arcs); fixed, every arc is checked.
module Normalization {
  import opened Arith
  import opened GcdLcm
  import opened Fractions
  import opened Outcomes
  import opened Graph
  import opened Dataflow

  // ---------------------------------------------------------------------
  // Scaling one arc

  /** The arc has the list lengths the rate setters need: non-empty, scalars for SDF. */
  predicate ArcShaped(k: Kind, a: Arc) {
    |a.prod| >= 1 && |a.cons| >= 1 && (IsSdf(k) ==> |a.prod| == 1 && |a.cons| == 1)
  }

  predicate ArcsShaped(g: Graph) {
    EndpointsOk(g) && forall i :: 0 <= i < |g.arcs| ==> ArcShaped(g.kind, g.arcs[i])
  }

  /** `[int(x * coef) for x in l]`, where `int` truncates toward zero. */
  function ScaleList(l: seq<int>, c: Q): (r: seq<int>)
    ensures |r| == |l|
  {
    seq(|l|, i requires 0 <= i < |l| => Trunc(MulInt(c, l[i])))
  }

  /** `__test_coef`: every `x * coef` is an integer. */
  function TestCoef(c: Q, l: seq<int>): (r: bool)
    ensures r <==> forall i :: 0 <= i < |l| ==> IsIntegral(MulInt(c, l[i]))
  {
    if |l| == 0 then true else IsIntegral(MulInt(c, l[0])) && TestCoef(c, l[1..])
  }

  /** The new marking of `multiply_arc`: the least integer at or above `m * coef`. */
  function ScaledMarking(m: int, c: Q): (r: int)
    ensures MulInt(c, m).num <= r * MulInt(c, m).den < MulInt(c, m).num + MulInt(c, m).den
  {
    var p := MulInt(c, m);
    IntegralTrunc(p);
    CeilBounds(p);
    assert TestCoef(c, [m]) <==> IsIntegral(p);
    if !TestCoef(c, [m]) then Ceil(p) else Trunc(p)
  }

  /**
   * `multiply_arc`: the marking, then the rates through the class's setters
   * (which recompute the gcd), then for PCG the initial rates and both
   * threshold lists. The PCG consumption setters overwrite the thresholds
   * with the new rates; as written (`fixed == false`) the threshold lists
   * are then read back and scaled again.
   */
  function MultiplyArcOf(fixed: bool, k: Kind, a: Arc, c: Q): (r: Arc)
    requires ArcShaped(k, a)
    ensures ArcShaped(k, r)
  {
    var a1 := a.(m0 := ScaledMarking(a.m0, c));
    var a3 := RatesScaled(k, a1, c);
    if IsPcg(k) then PcgListsScaled(fixed, a, a3, c) else a3
  }

  /** The rate part of `multiply_arc`: the SDF scalar setters, or the list setters of the cyclo-static classes. */
  function RatesScaled(k: Kind, a1: Arc, c: Q): (r: Arc)
    requires ArcShaped(k, a1)
    ensures ArcShaped(k, r)
  {
    if IsSdf(k) then
      var a2 := SdfWithProd(a1, Trunc(MulInt(c, a1.prod[0])));
      SdfWithCons(a2, Trunc(MulInt(c, a2.cons[0])))
    else
      var a2 := WithProdList(k, a1, ScaleList(a1.prod, c));
      WithConsList(k, a2, ScaleList(a2.cons, c))
  }

  /**
   * The PCG part of `multiply_arc`: the initial lists, then the thresholds,
   * read from `a3` as written or from the arc `a` before the setters with
   * `fixed`.
   */
  function PcgListsScaled(fixed: bool, a: Arc, a3: Arc, c: Q): (r: Arc)
    ensures r.prod == a3.prod && r.cons == a3.cons
  {
    var a4 := PcgWithIniProd(a3, ScaleList(a3.iniProd, c));
    var a5 := PcgWithIniCons(a4, ScaleList(a4.iniCons, c));
    var a6 := PcgWithThr(a5, ScaleList(if fixed then a.thr else a5.thr, c));
    PcgWithIniThr(a6, ScaleList(if fixed then a.iniThr else a6.iniThr, c))
  }

  /**
   * What `multiply_arc` leaves on the arc: every rate list scaled, the
   * marking rounded up; as written, PCG thresholds are the consumption
   * rates scaled twice.
   */
  lemma MultiplyArcFields(fixed: bool, k: Kind, a: Arc, c: Q)
    requires ArcShaped(k, a)
    ensures var r := MultiplyArcOf(fixed, k, a, c);
      r.src == a.src && r.tgt == a.tgt && r.key == a.key && r.name == a.name && r.tokenSize == a.tokenSize &&
      r.m0 == ScaledMarking(a.m0, c) && r.prod == ScaleList(a.prod, c) && r.cons == ScaleList(a.cons, c)
    ensures var r := MultiplyArcOf(fixed, k, a, c);
      IsPcg(k) ==> r.iniProd == ScaleList(a.iniProd, c) && r.iniCons == ScaleList(a.iniCons, c)
    ensures var r := MultiplyArcOf(fixed, k, a, c);
      IsPcg(k) && fixed ==> r.thr == ScaleList(a.thr, c) && r.iniThr == ScaleList(a.iniThr, c)
    ensures var r := MultiplyArcOf(fixed, k, a, c);
      IsPcg(k) && !fixed ==> r.thr == ScaleList(ScaleList(a.cons, c), c) && r.iniThr == ScaleList(ScaleList(a.iniCons, c), c)
    ensures var r := MultiplyArcOf(fixed, k, a, c);
      !IsPcg(k) ==> r.iniProd == a.iniProd && r.iniCons == a.iniCons && r.thr == a.thr && r.iniThr == a.iniThr
  {
    if IsSdf(k) {
      assert ScaleList(a.prod, c) == [Trunc(MulInt(c, a.prod[0]))];
      assert ScaleList(a.cons, c) == [Trunc(MulInt(c, a.cons[0]))];
    }
  }

  // ---------------------------------------------------------------------
  // The normalization vector

  /** `lcm_rf` after the first `k` tasks; `lcm(0, 0)` divides by zero. */
  function LcmRf(g: Graph, k: nat): Result<int>
    requires k <= |g.tasks|
  {
    if k == 0 then Ok(1)
    else match LcmRf(g, k - 1)
      case Err(e) => Err(e)
      case Ok(l) =>
        var r := g.tasks[k - 1].rf;
        if l == 0 && r == 0 then Err(ZeroDivisionError) else Ok(Lcm(l, r))
  }

  /** The repetition factors are positive and every arc produces something. */
  predicate RatesPositive(g: Graph)
    requires EndpointsOk(g)
  {
    (forall t :: 0 <= t < |g.tasks| ==> g.tasks[t].rf > 0) &&
    (forall i :: 0 <= i < |g.arcs| ==> ProdWeight(g.arcs[i]) > 0)
  }

  /** With positive factors, `lcm_rf` is a positive multiple of each of them. */
  lemma {:induction false} LcmRfFacts(g: Graph, k: nat)
    requires k <= |g.tasks| && forall t :: 0 <= t < |g.tasks| ==> g.tasks[t].rf > 0
    ensures LcmRf(g, k).Ok? && LcmRf(g, k).value > 0
    ensures forall t :: 0 <= t < k ==> Divides(g.tasks[t].rf, LcmRf(g, k).value)
  {
    if k > 0 {
      LcmRfFacts(g, k - 1);
      var l := LcmRf(g, k - 1).value;
      var r := g.tasks[k - 1].rf;
      LcmMultiple(l, r);
      forall t | 0 <= t < k
        ensures Divides(g.tasks[t].rf, LcmRf(g, k).value)
      {
        if t < k - 1 {
          DividesTrans(g.tasks[t].rf, l, Lcm(l, r));
        }
      }
    }
  }

  /** `Fraction(lcm_rf / rf(src), rate)` for arc `i`, the rate being the (summed) production. */
  function BaseCoef(g: Graph, l: int, i: nat): Result<Q>
    requires EndpointsOk(g) && i < |g.arcs|
  {
    var a := g.arcs[i];
    var rs := g.tasks[a.src].rf;
    if rs == 0 then Err(ZeroDivisionError)
    else
      var rate := ProdWeight(a);
      if rate == 0 then Err(ZeroDivisionError) else Ok(Make(PyDiv(l, rs), rate))
  }

  /** The base coefficients of the first `k` arcs, or the first error. */
  function BaseCoefs(g: Graph, l: int, k: nat): (r: Result<seq<Q>>)
    requires EndpointsOk(g) && k <= |g.arcs|
    ensures r.Ok? ==> |r.value| == k && forall i :: 0 <= i < k ==> BaseCoef(g, l, i) == Ok(r.value[i])
    ensures r.Err? <==> exists i :: 0 <= i < k && BaseCoef(g, l, i).Err?
    ensures r.Err? ==> r.error == ZeroDivisionError
  {
    if k == 0 then Ok([])
    else match BaseCoefs(g, l, k - 1)
      case Err(e) => Err(e)
      case Ok(cs) =>
        match BaseCoef(g, l, k - 1)
        case Err(e) => Err(e)
        case Ok(c) => Ok(cs + [c])
  }

  /** `lcm(l, coef.denominator)`. */
  function WidenBy(l: int, c: Q): (r: int)
    requires l > 0
    ensures r > 0 && Divides(l, r) && Divides(Denominator(c), r)
  {
    LcmMultiple(l, Denominator(c));
    Lcm(l, Denominator(c))
  }

  /** The `lcm_post_mult` fold over the phases `ps` of one arc with coefficient `c`. */
  function PhaseLcm(c: Q, l: int, ps: seq<int>): (r: int)
    requires l > 0
    ensures r > 0
    decreases |ps|
  {
    if |ps| == 0 then l
    else PhaseLcm(c, if IsIntegral(MulInt(c, ps[0])) then l else WidenBy(l, c), ps[1..])
  }

  /** The phases `get_normalized_vector` inspects on arc `i`: production, then consumption. */
  function Phases(g: Graph, i: nat): seq<int>
    requires i < |g.arcs|
  {
    g.arcs[i].prod + g.arcs[i].cons
  }

  /** `lcm_post_mult` after the first `k` arcs. */
  function PostLcm(g: Graph, cs: seq<Q>, k: nat): (r: int)
    requires k <= |g.arcs| && k <= |cs|
    ensures r > 0
  {
    if k == 0 then 1 else PhaseLcm(cs[k - 1], PostLcm(g, cs, k - 1), Phases(g, k - 1))
  }

  /** `get_normalized_vector`: the base coefficients, multiplied (cyclo-static classes only) by `lcm_post_mult`. */
  function NormalizedVectorOf(g: Graph): (r: Result<seq<Q>>)
    requires EndpointsOk(g)
    ensures r.Ok? ==> |r.value| == |g.arcs|
  {
    match LcmRf(g, |g.tasks|)
    case Err(e) => Err(e)
    case Ok(l) =>
      match BaseCoefs(g, l, |g.arcs|)
      case Err(e) => Err(e)
      case Ok(cs) =>
        var lpm := if IsCsdf(g.kind) then PostLcm(g, cs, |g.arcs|) else 1;
        Ok(seq(|cs|, i requires 0 <= i < |cs| => MulInt(cs[i], lpm)))
  }

  // ---------------------------------------------------------------------
  // Whole-graph operations

  /** The graph after `multiply_arc` on its first `n` arcs with coefficients `v`. */
  function MultiplyPrefix(fixed: bool, g: Graph, v: seq<Q>, n: nat): (h: Graph)
    requires ArcsShaped(g) && n <= |g.arcs| && n <= |v|
    ensures h.kind == g.kind && h.tasks == g.tasks && |h.arcs| == |g.arcs| && ArcsShaped(h)
    ensures forall i :: 0 <= i < |g.arcs| ==> h.arcs[i] == if i < n then MultiplyArcOf(fixed, g.kind, g.arcs[i], v[i]) else g.arcs[i]
    ensures forall i :: 0 <= i < |g.arcs| ==> h.arcs[i].src == g.arcs[i].src && h.arcs[i].tgt == g.arcs[i].tgt
  {
    var arcs := seq(|g.arcs|, i requires 0 <= i < |g.arcs| =>
      if i < n then MultiplyArcOf(fixed, g.kind, g.arcs[i], v[i]) else g.arcs[i]);
    forall i | 0 <= i < |g.arcs|
      ensures arcs[i].src == g.arcs[i].src && arcs[i].tgt == g.arcs[i].tgt
    {
      if i < n {
        MultiplyArcFields(fixed, g.kind, g.arcs[i], v[i]);
      }
    }
    Graph(g.kind, g.tasks, arcs)
  }

  /** The vector returned by `normalized_dataflow`: `Fraction(1, coef)` on the graph's arcs. */
  function Inverted(v: seq<Q>, n: nat): (w: seq<Q>)
    requires n <= |v| && forall i :: 0 <= i < n ==> !IsZero(v[i])
    ensures |w| == |v|
  {
    seq(|v|, i requires 0 <= i < |v| => if i < n then Recip(v[i]) else v[i])
  }

  /** The graph left behind and the value returned (or the exception raised). */
  datatype Normalized = Normalized(graph: Graph, result: Result<Option<seq<Q>>>)

  /**
   * `normalized_dataflow`, with the consistency test as intended. A
   * missing coefficient raises `KeyError` after the arcs before it were
   * multiplied, a zero coefficient raises `ZeroDivisionError` when the
   * vector is inverted after all arcs were multiplied.
   */
  function NormalizedOf(fixed: bool, g: Graph, cv: Option<seq<Q>>): (o: Normalized)
    requires ArcsShaped(g)
    ensures o.graph.kind == g.kind && o.graph.tasks == g.tasks && |o.graph.arcs| == |g.arcs| && ArcsShaped(o.graph)
  {
    if !IsConsistent(g) then Normalized(g, Err(RuntimeError))
    else match IsNormalized(g)
      case Err(e) => Normalized(g, Err(e))
      case Ok(b) =>
        if b then Normalized(g, Ok(None))
        else
          var v := if cv.Some? then Ok(cv.value) else NormalizedVectorOf(g);
          match v
          case Err(e) => Normalized(g, Err(e))
          case Ok(w) => AfterVector(fixed, g, w)
  }

  /** What `normalized_dataflow` does once it has the vector `w`: multiply every arc, then invert. */
  function AfterVector(fixed: bool, g: Graph, w: seq<Q>): (o: Normalized)
    requires ArcsShaped(g)
    ensures o.graph.kind == g.kind && o.graph.tasks == g.tasks && |o.graph.arcs| == |g.arcs| && ArcsShaped(o.graph)
  {
    if |w| < |g.arcs| then Normalized(MultiplyPrefix(fixed, g, w, |w|), Err(KeyError))
    else
      var h := MultiplyPrefix(fixed, g, w, |g.arcs|);
      if exists i :: 0 <= i < |g.arcs| && IsZero(w[i]) then Normalized(h, Err(ZeroDivisionError))
      else Normalized(h, Ok(Some(Inverted(w, |g.arcs|))))
  }

  /** The coefficient test of one arc: the rate lists, and for PCG the initial and threshold lists. */
  predicate ArcCoefOk(k: Kind, a: Arc, c: Q) {
    TestCoef(c, a.prod) && TestCoef(c, a.cons) &&
    (IsPcg(k) ==> TestCoef(c, a.iniProd) && TestCoef(c, a.iniCons) && TestCoef(c, a.thr) && TestCoef(c, a.iniThr))
  }

  /**
   * `__test_coef_vector`: the length must match; as written only the first
   * arc is checked and a graph without arcs gets `None`.
   */
  function TestCoefVector(fixed: bool, g: Graph, v: seq<Q>): (r: bool)
    ensures r ==> |v| == |g.arcs|
    ensures fixed ==> (r <==> |v| == |g.arcs| && forall i :: 0 <= i < |g.arcs| ==> ArcCoefOk(g.kind, g.arcs[i], v[i]))
  {
    if |v| != |g.arcs| then false
    else if fixed then forall i :: 0 <= i < |g.arcs| ==> ArcCoefOk(g.kind, g.arcs[i], v[i])
    else |g.arcs| > 0 && ArcCoefOk(g.kind, g.arcs[0], v[0])
  }

  /**
   * `get_rdm_un_normalized_vector`, the random draws `randint(1, max_num)`
   * given as `draws`: `Fraction(draw, gcd)` per arc.
   */
  function RdmVector(g: Graph, draws: seq<int>): (r: Result<seq<Q>>)
    requires |draws| >= |g.arcs|
    ensures r.Ok? ==> |r.value| == |g.arcs|
    ensures r.Err? <==> exists i :: 0 <= i < |g.arcs| && g.arcs[i].gcd == 0
  {
    if exists i :: 0 <= i < |g.arcs| && g.arcs[i].gcd == 0 then Err(ZeroDivisionError)
    else Ok(seq(|g.arcs|, i requires 0 <= i < |g.arcs| => Make(draws[i], g.arcs[i].gcd)))
  }

  /** The graph left behind and the exception raised, if any. */
  datatype UnNormalized = UnNormalized(graph: Graph, error: Option<PyError>)

  /** `un_normalized_dataflow`: a graph that is not normalized is left alone; an invalid vector raises first. */
  function UnNormalizedOf(fixed: bool, g: Graph, cv: Option<seq<Q>>, draws: seq<int>): (o: UnNormalized)
    requires ArcsShaped(g) && (cv.None? ==> |draws| >= |g.arcs|)
  {
    match IsNormalized(g)
    case Err(e) => UnNormalized(g, Some(e))
    case Ok(b) =>
      if !b then UnNormalized(g, None)
      else if cv.Some? then
        if !TestCoefVector(fixed, g, cv.value) then UnNormalized(g, Some(InvalidValue))
        else UnNormalized(MultiplyPrefix(fixed, g, cv.value, |g.arcs|), None)
      else match RdmVector(g, draws)
        case Err(e) => UnNormalized(g, Some(e))
        case Ok(w) => UnNormalized(MultiplyPrefix(fixed, g, w, |g.arcs|), None)
  }

  // ---------------------------------------------------------------------
  // Normalizing keeps the shape of the graph

  /** A graph whose lists fit its phase counts has non-empty lists (scalars for SDF). */
  lemma ShapedArcsShaped(g: Graph)
    requires Shaped(g)
    ensures ArcsShaped(g)
  {
    forall i | 0 <= i < |g.arcs|
      ensures ArcShaped(g.kind, g.arcs[i])
    {
      assert g.arcs[i].src < |g.tasks| && g.arcs[i].tgt < |g.tasks|;
    }
  }

  /** Multiplying arcs keeps their ends and the length of every list. */
  lemma MultiplyPrefixKeepsShape(fixed: bool, g: Graph, v: seq<Q>, n: nat)
    requires Shaped(g) && n <= |g.arcs| && n <= |v|
    ensures var h := MultiplyPrefix(fixed, g, v, n);
      Shaped(h) && EndsOf(h.arcs) == EndsOf(g.arcs)
  {
    ShapedArcsShaped(g);
    var h := MultiplyPrefix(fixed, g, v, n);
    forall i | 0 <= i < n
      ensures |h.arcs[i].prod| == |g.arcs[i].prod| && |h.arcs[i].cons| == |g.arcs[i].cons|
      ensures IsPcg(g.kind) ==>
        |h.arcs[i].thr| == |g.arcs[i].thr| && |h.arcs[i].iniProd| == |g.arcs[i].iniProd| &&
        |h.arcs[i].iniCons| == |g.arcs[i].iniCons| && |h.arcs[i].iniThr| == |g.arcs[i].iniThr|
    {
      MultiplyArcFields(fixed, g.kind, g.arcs[i], v[i]);
    }
    forall t | 0 <= t < |g.tasks|
      ensures PhaseCount(h, t) == PhaseCount(g, t) && IniPhaseCount(h, t) == IniPhaseCount(g, t)
    {
    }
    assert EndsOf(h.arcs) == EndsOf(g.arcs);
  }

  /** The graph `normalized_dataflow` leaves behind, on any path, has the ends and list lengths it had. */
  lemma NormalizedKeepsShape(fixed: bool, g: Graph, cv: Option<seq<Q>>)
    requires Shaped(g)
    ensures ArcsShaped(g)
    ensures var h := NormalizedOf(fixed, g, cv).graph;
      Shaped(h) && EndsOf(h.arcs) == EndsOf(g.arcs)
  {
    ShapedArcsShaped(g);
    if IsConsistent(g) && IsNormalized(g) == Ok(false) {
      var v := if cv.Some? then Ok(cv.value) else NormalizedVectorOf(g);
      if v.Ok? {
        AfterVectorKeepsShape(fixed, g, v.value);
        assert NormalizedOf(fixed, g, cv) == AfterVector(fixed, g, v.value);
      }
    }
  }

  lemma AfterVectorKeepsShape(fixed: bool, g: Graph, w: seq<Q>)
    requires Shaped(g) && ArcsShaped(g)
    ensures var h := AfterVector(fixed, g, w).graph;
      Shaped(h) && EndsOf(h.arcs) == EndsOf(g.arcs)
  {
    if |w| < |g.arcs| {
      MultiplyPrefixKeepsShape(fixed, g, w, |w|);
    } else {
      MultiplyPrefixKeepsShape(fixed, g, w, |g.arcs|);
    }
  }

  // ---------------------------------------------------------------------
  // Normalizing a consistent graph makes it normalized

  lemma TruncExact(p: Q)
    requires IsIntegral(p)
    ensures Trunc(p) * p.den == p.num
  {
    IntegralTrunc(p);
  }

  /** Scaling a list whose entries all scale to integers scales its sum. */
  lemma {:induction false} ScaleSum(l: seq<int>, c: Q)
    requires TestCoef(c, l)
    ensures Sum(ScaleList(l, c)) * c.den == c.num * Sum(l)
    decreases |l|
  {
    if |l| > 0 {
      var n := |l|;
      var front := l[..n - 1];
      assert ScaleList(l, c)[..n - 1] == ScaleList(front, c);
      assert TestCoef(c, front) by {
        assert forall i :: 0 <= i < |front| ==> front[i] == l[i];
      }
      ScaleSum(front, c);
      var x := l[n - 1];
      var t := Trunc(MulInt(c, x));
      TruncExact(MulInt(c, x));
      assert t * c.den == c.num * x;
      var sf := Sum(ScaleList(front, c));
      assert Sum(ScaleList(l, c)) == sf + t;
      assert Sum(l) == Sum(front) + x;
      Distrib(sf, t, c.den);
      Distrib(Sum(front), x, c.num);
    }
  }

  lemma Distrib(a: int, b: int, d: int)
    ensures (a + b) * d == a * d + b * d && d * (a + b) == d * a + d * b
  {
  }

  /** An integer value times an integer is an integer. */
  lemma IntegralTimes(p: Q, x: int)
    requires IsIntegral(p)
    ensures IsIntegral(MulInt(p, x))
  {
    DividesMul(p.den, p.num, x);
  }

  /** A phase value is exact under `coef * lpm` when it was exact under `coef` or `lpm` clears the denominator. */
  lemma EntryExact(c: Q, lpm: int, x: int)
    requires lpm > 0 && (IsIntegral(MulInt(c, x)) || Divides(Denominator(c), lpm))
    ensures IsIntegral(MulInt(MulInt(c, lpm), x))
  {
    if IsIntegral(MulInt(c, x)) {
      DividesMul(c.den, c.num * x, lpm);
      assert c.num * x * lpm == c.num * lpm * x;
    } else {
      ScaleByMultipleOfDenominator(c, lpm);
      IntegralTimes(MulInt(c, lpm), x);
    }
  }

  /** `(L / rs) * Wc == Wp * (L / rt)` on a consistent arc. */
  lemma CrossWeight(wp: int, wc: int, rs: int, rt: int, l: int)
    requires rs > 0 && rt > 0 && Divides(rs, l) && Divides(rt, l) && wp * rs == wc * rt
    ensures (l / rs) * wc == wp * (l / rt)
  {
    var a := l / rs;
    var b := l / rt;
    DivExact(rs, l);
    DivExact(rt, l);
    assert a * wc * (rs * rt) == wp * b * (rs * rt) by {
      assert a * wc * (rs * rt) == (rs * a) * (wc * rt);
      assert wp * b * (rs * rt) == (wp * rs) * (rt * b);
    }
    MulPositive(rs, rt);
    MulCancel(a * wc, wp * b, rs * rt);
  }

  /** The `lcm_post_mult` fold covers every phase of the arc that is not exact under `c`. */
  lemma {:induction false} PhaseLcmFacts(c: Q, l: int, ps: seq<int>)
    requires l > 0
    ensures Divides(l, PhaseLcm(c, l, ps))
    ensures forall j :: 0 <= j < |ps| ==> IsIntegral(MulInt(c, ps[j])) || Divides(Denominator(c), PhaseLcm(c, l, ps))
    decreases |ps|
  {
    var r := PhaseLcm(c, l, ps);
    if |ps| == 0 {
      DividesRefl(l);
    } else {
      var l1 := if IsIntegral(MulInt(c, ps[0])) then l else WidenBy(l, c);
      PhaseLcmFacts(c, l1, ps[1..]);
      if IsIntegral(MulInt(c, ps[0])) {
        DividesRefl(l);
      } else {
        DividesTrans(l, l1, r);
        DividesTrans(Denominator(c), l1, r);
      }
      forall j | 1 <= j < |ps|
        ensures IsIntegral(MulInt(c, ps[j])) || Divides(Denominator(c), r)
      {
        assert ps[j] == ps[1..][j - 1];
      }
    }
  }

  /** `lcm_post_mult` covers every non-exact phase of every arc seen so far. */
  lemma {:induction false} PostLcmFacts(g: Graph, cs: seq<Q>, k: nat)
    requires k <= |g.arcs| && k <= |cs|
    ensures forall i, j :: 0 <= i < k && 0 <= j < |Phases(g, i)| ==>
      IsIntegral(MulInt(cs[i], Phases(g, i)[j])) || Divides(Denominator(cs[i]), PostLcm(g, cs, k))
  {
    if k > 0 {
      var p := PostLcm(g, cs, k - 1);
      var r := PostLcm(g, cs, k);
      PostLcmFacts(g, cs, k - 1);
      PhaseLcmFacts(cs[k - 1], p, Phases(g, k - 1));
      forall i, j | 0 <= i < k - 1 && 0 <= j < |Phases(g, i)| && !IsIntegral(MulInt(cs[i], Phases(g, i)[j]))
        ensures Divides(Denominator(cs[i]), r)
      {
        DividesTrans(Denominator(cs[i]), p, r);
      }
    }
  }

  /** `lcm_post_mult` of a graph whose vector is computed. */
  function PostMult(g: Graph): (lpm: int)
    requires EndpointsOk(g) && LcmRf(g, |g.tasks|).Ok? && BaseCoefs(g, LcmRf(g, |g.tasks|).value, |g.arcs|).Ok?
    ensures lpm > 0
  {
    if IsCsdf(g.kind) then PostLcm(g, BaseCoefs(g, LcmRf(g, |g.tasks|).value, |g.arcs|).value, |g.arcs|) else 1
  }

  /** The coefficient of arc `i`: `(lcm_rf / rf(src)) * lcm_post_mult / rate`, with the facts about its parts. */
  lemma VectorEntry(g: Graph, i: nat) returns (l: int, zi: int, c0: Q)
    requires ArcsShaped(g) && RatesPositive(g) && i < |g.arcs|
    ensures LcmRf(g, |g.tasks|).Ok? && l == LcmRf(g, |g.tasks|).value && l > 0
    ensures forall t :: 0 <= t < |g.tasks| ==> Divides(g.tasks[t].rf, l)
    ensures BaseCoefs(g, l, |g.arcs|).Ok? && NormalizedVectorOf(g).Ok?
    ensures zi == l / g.tasks[g.arcs[i].src].rf && zi > 0
    ensures c0 == Make(zi, ProdWeight(g.arcs[i])) && c0.num == zi && c0.den == ProdWeight(g.arcs[i])
    ensures NormalizedVectorOf(g).value[i] == MulInt(c0, PostMult(g))
    ensures IsSdf(g.kind) ==> PostMult(g) == 1
    ensures IsCsdf(g.kind) ==> forall j :: 0 <= j < |Phases(g, i)| ==>
      IsIntegral(MulInt(c0, Phases(g, i)[j])) || Divides(Denominator(c0), PostMult(g))
  {
    LcmRfFacts(g, |g.tasks|);
    l := LcmRf(g, |g.tasks|).value;
    var rs := g.tasks[g.arcs[i].src].rf;
    PyModPositive(l, rs);
    zi := l / rs;
    DivExact(rs, l);
    MulPositiveInv(rs, zi);
    var cs := BaseCoefs(g, l, |g.arcs|);
    forall j | 0 <= j < |g.arcs|
      ensures BaseCoef(g, l, j).Ok?
    {
      assert g.tasks[g.arcs[j].src].rf > 0;
    }
    c0 := cs.value[i];
    if IsCsdf(g.kind) {
      PostLcmFacts(g, cs.value, |g.arcs|);
    }
  }

  lemma Singleton(s: seq<int>)
    requires |s| == 1
    ensures s == [s[0]] && Sum(s) == s[0]
  {
    assert s[..0] == [];
  }

  /** `(zi * lpm) * wc == (lpm * b) * wp` when `zi * wc == wp * b`. */
  lemma Regroup(zi: int, lpm: int, wc: int, wp: int, b: int)
    requires zi * wc == wp * b
    ensures (zi * lpm) * wc == (lpm * b) * wp
  {
    assert (zi * lpm) * wc == lpm * (zi * wc);
    assert (lpm * b) * wp == lpm * (wp * b);
  }

  /** The SDF coefficient `zi / wp` is exact on the production `wp` and on a consumption `wc` with `zi * wc == wp * b`. */
  lemma SdfExact(c: Q, wp: int, wc: int, zi: int, b: int)
    requires c.num == zi * 1 && c.den == wp * 1 && zi * wc == wp * b
    ensures IsIntegral(MulInt(c, wp)) && IsIntegral(MulInt(c, wc))
  {
    assert MulInt(c, wp).num == wp * zi && MulInt(c, wp).den == wp;
    ModOfMul(wp, zi);
    assert MulInt(c, wc).num == wp * b && MulInt(c, wc).den == wp;
    ModOfMul(wp, b);
  }

  /** Under the computed coefficient every production and consumption phase scales to an integer. */
  lemma VectorExact(g: Graph, i: nat)
    requires ArcsShaped(g) && IsConsistent(g) && RatesPositive(g) && i < |g.arcs|
    ensures NormalizedVectorOf(g).Ok?
    ensures TestCoef(NormalizedVectorOf(g).value[i], g.arcs[i].prod) && TestCoef(NormalizedVectorOf(g).value[i], g.arcs[i].cons)
  {
    var l, zi, c0 := VectorEntry(g, i);
    var a := g.arcs[i];
    var c := NormalizedVectorOf(g).value[i];
    var wp, wc := ProdWeight(a), ConsWeight(a);
    if IsSdf(g.kind) {
      assert ArcConsistent(g, i);
      Singleton(a.prod);
      Singleton(a.cons);
      CrossWeight(wp, wc, g.tasks[a.src].rf, g.tasks[a.tgt].rf, l);
      SdfExact(c, wp, wc, zi, l / g.tasks[a.tgt].rf);
    } else {
      var ps := Phases(g, i);
      forall j | 0 <= j < |ps|
        ensures IsIntegral(MulInt(c, ps[j]))
      {
        EntryExact(c0, PostMult(g), ps[j]);
      }
      forall j | 0 <= j < |a.prod|
        ensures IsIntegral(MulInt(c, a.prod[j]))
      {
        assert a.prod[j] == ps[j];
      }
      forall j | 0 <= j < |a.cons|
        ensures IsIntegral(MulInt(c, a.cons[j]))
      {
        assert a.cons[j] == ps[|a.prod| + j];
      }
    }
  }

  /** On one arc: the coefficient `(zi * lpm) / wp`, exact on every phase, yields weights `zi * lpm` and `lpm * b`. */
  lemma ArcWeights(fixed: bool, k: Kind, a: Arc, c: Q, zi: int, lpm: int, b: int)
    requires ArcShaped(k, a) && ProdWeight(a) > 0
    requires c.num == zi * lpm && c.den == ProdWeight(a)
    requires TestCoef(c, a.prod) && TestCoef(c, a.cons)
    requires zi * ConsWeight(a) == ProdWeight(a) * b
    ensures ProdWeight(MultiplyArcOf(fixed, k, a, c)) == zi * lpm
    ensures ConsWeight(MultiplyArcOf(fixed, k, a, c)) == lpm * b
  {
    var wp, wc := ProdWeight(a), ConsWeight(a);
    MultiplyArcFields(fixed, k, a, c);
    var r := MultiplyArcOf(fixed, k, a, c);
    ScaleSum(a.prod, c);
    ScaleSum(a.cons, c);
    assert ProdWeight(r) * wp == (zi * lpm) * wp;
    MulCancel(ProdWeight(r), zi * lpm, wp);
    assert ConsWeight(r) * wp == (zi * lpm) * wc;
    Regroup(zi, lpm, wc, wp, b);
    MulCancel(ConsWeight(r), lpm * b, wp);
  }

  /** After normalization arc `i` produces `lcm_post_mult * lcm_rf / rf(src)` and consumes `lcm_post_mult * lcm_rf / rf(tgt)`. */
  lemma NormalizedArcWeights(fixed: bool, g: Graph, i: nat) returns (l: int)
    requires ArcsShaped(g) && IsConsistent(g) && RatesPositive(g) && i < |g.arcs|
    ensures NormalizedVectorOf(g).Ok? && l == LcmRf(g, |g.tasks|).value && l > 0
    ensures var a := MultiplyArcOf(fixed, g.kind, g.arcs[i], NormalizedVectorOf(g).value[i]);
      ProdWeight(a) == PostMult(g) * (l / g.tasks[g.arcs[i].src].rf) &&
      ConsWeight(a) == PostMult(g) * (l / g.tasks[g.arcs[i].tgt].rf)
    ensures !IsZero(NormalizedVectorOf(g).value[i])
  {
    var zi, c0;
    l, zi, c0 := VectorEntry(g, i);
    VectorExact(g, i);
    var a := g.arcs[i];
    var c := NormalizedVectorOf(g).value[i];
    var lpm := PostMult(g);
    assert c.num == zi * lpm && c.den == ProdWeight(a) * 1;
    MulPositive(zi, lpm);
    assert ArcConsistent(g, i);
    CrossWeight(ProdWeight(a), ConsWeight(a), g.tasks[a.src].rf, g.tasks[a.tgt].rf, l);
    ArcWeights(fixed, g.kind, a, c, zi, lpm, l / g.tasks[a.tgt].rf);
  }

  /** Every rate a task sees is `w`: the task is normalized. */
  lemma SideRatesConst(arcs: seq<Arc>, t: nat, w: int)
    requires forall j :: 0 <= j < |arcs| && arcs[j].src == t ==> ProdWeight(arcs[j]) == w
    requires forall j :: 0 <= j < |arcs| && arcs[j].tgt == t ==> ConsWeight(arcs[j]) == w
    ensures forall k :: 0 <= k < |SideRates(arcs, t)| ==> SideRates(arcs, t)[k] == w
    ensures AllEqual(SideRates(arcs, t))
  {
    var outs := OutArcs(arcs, t);
    var ins := InArcs(arcs, t);
    var s := SideRates(arcs, t);
    forall k | 0 <= k < |s|
      ensures s[k] == w
    {
      if k < |outs| {
        assert s[k] == ProdWeight(arcs[outs[k]]);
      } else {
        assert s[k] == ConsWeight(arcs[ins[k - |outs|]]);
      }
    }
  }

  /** Arcs with the same endpoints leave the same tasks isolated. */
  lemma SideRatesNonEmpty(arcs: seq<Arc>, arcs': seq<Arc>, t: nat)
    requires |arcs| == |arcs'| && forall j :: 0 <= j < |arcs| ==> arcs'[j].src == arcs[j].src && arcs'[j].tgt == arcs[j].tgt
    requires |SideRates(arcs, t)| > 0
    ensures |SideRates(arcs', t)| > 0
  {
    var outs := OutArcs(arcs, t);
    var ins := InArcs(arcs, t);
    if |outs| > 0 {
      OutArcsComplete(arcs', t);
      assert outs[0] in OutArcs(arcs', t);
    } else {
      InArcsComplete(arcs', t);
      assert ins[0] in InArcs(arcs', t);
    }
  }

  /**
   * `normalized_dataflow` on a consistent, not yet normalized graph with
   * positive factors and rates and no isolated task returns a vector, and
   * leaves every task seeing `lcm_post_mult * lcm_rf / rf(t)` on all its arcs.
   */
  lemma NormalizeMakesNormalized(fixed: bool, g: Graph)
    requires ArcsShaped(g) && IsConsistent(g) && RatesPositive(g) && NoIsolatedTask(g) && IsNormalized(g) == Ok(false)
    ensures var o := NormalizedOf(fixed, g, None);
      o.result.Ok? && o.result.value.Some? && IsNormalized(o.graph) == Ok(true)
  {
    VectorNonZero(g);
    var v := NormalizedVectorOf(g).value;
    var h := MultiplyPrefix(fixed, g, v, |g.arcs|);
    MultipliedNormalized(fixed, g);
    assert NormalizedOf(fixed, g, None) == AfterVector(fixed, g, v);
    assert !(exists j :: 0 <= j < |g.arcs| && IsZero(v[j]));
    assert AfterVector(fixed, g, v) == Normalized(h, Ok(Some(Inverted(v, |g.arcs|))));
  }

  /** The computed coefficients are nonzero. */
  lemma VectorNonZero(g: Graph)
    requires ArcsShaped(g) && IsConsistent(g) && RatesPositive(g)
    ensures NormalizedVectorOf(g).Ok?
    ensures forall j :: 0 <= j < |g.arcs| ==> !IsZero(NormalizedVectorOf(g).value[j])
  {
    LcmRfFacts(g, |g.tasks|);
    forall j | 0 <= j < |g.arcs|
      ensures !IsZero(NormalizedVectorOf(g).value[j])
    {
      var _ := NormalizedArcWeights(false, g, j);
    }
  }

  /** The weight `lcm_post_mult * lcm_rf / rf(t)` every arc of `t` has after normalization. */
  function NormWeight(g: Graph, t: nat): int
    requires EndpointsOk(g) && t < |g.tasks| && g.tasks[t].rf > 0
    requires LcmRf(g, |g.tasks|).Ok? && BaseCoefs(g, LcmRf(g, |g.tasks|).value, |g.arcs|).Ok?
  {
    PostMult(g) * (LcmRf(g, |g.tasks|).value / g.tasks[t].rf)
  }

  lemma MultipliedWeights(fixed: bool, g: Graph)
    requires ArcsShaped(g) && IsConsistent(g) && RatesPositive(g)
    ensures LcmRf(g, |g.tasks|).Ok? && BaseCoefs(g, LcmRf(g, |g.tasks|).value, |g.arcs|).Ok? && NormalizedVectorOf(g).Ok?
    ensures var h := MultiplyPrefix(fixed, g, NormalizedVectorOf(g).value, |g.arcs|);
      forall j :: 0 <= j < |g.arcs| ==>
        ProdWeight(h.arcs[j]) == NormWeight(g, g.arcs[j].src) && ConsWeight(h.arcs[j]) == NormWeight(g, g.arcs[j].tgt)
  {
    LcmRfFacts(g, |g.tasks|);
    if |g.arcs| > 0 {
      var _, _, _ := VectorEntry(g, 0);
    }
    var v := NormalizedVectorOf(g).value;
    var h := MultiplyPrefix(fixed, g, v, |g.arcs|);
    forall j | 0 <= j < |g.arcs|
      ensures ProdWeight(h.arcs[j]) == NormWeight(g, g.arcs[j].src)
      ensures ConsWeight(h.arcs[j]) == NormWeight(g, g.arcs[j].tgt)
    {
      assert h.arcs[j] == MultiplyArcOf(fixed, g.kind, g.arcs[j], v[j]);
      var _ := NormalizedArcWeights(fixed, g, j);
    }
  }

  /** A graph where every arc of each task `t` has weight `w[t]` on `t`'s side, with no isolated task, is normalized. */
  lemma WeightsNormalized(h: Graph, w: seq<int>)
    requires EndpointsOk(h) && |w| == |h.tasks| && NoIsolatedTask(h)
    requires forall j :: 0 <= j < |h.arcs| ==> ProdWeight(h.arcs[j]) == w[h.arcs[j].src] && ConsWeight(h.arcs[j]) == w[h.arcs[j].tgt]
    ensures IsNormalized(h) == Ok(true)
  {
    forall t | 0 <= t < |h.tasks|
      ensures AllEqual(SideRates(h.arcs, t))
    {
      SideRatesConst(h.arcs, t, w[t]);
    }
    IsNormalizedMeaning(h, 0);
  }

  /** Rewriting arcs in place keeps every task's arcs. */
  lemma NoIsolatedKept(g: Graph, h: Graph)
    requires |h.tasks| == |g.tasks| && |h.arcs| == |g.arcs| && NoIsolatedTask(g)
    requires forall j :: 0 <= j < |g.arcs| ==> h.arcs[j].src == g.arcs[j].src && h.arcs[j].tgt == g.arcs[j].tgt
    ensures NoIsolatedTask(h)
  {
    forall t | 0 <= t < |h.tasks|
      ensures |SideRates(h.arcs, t)| > 0
    {
      SideRatesNonEmpty(g.arcs, h.arcs, t);
    }
  }

  /** Multiplying every arc by its computed coefficient gives a normalized graph. */
  lemma MultipliedNormalized(fixed: bool, g: Graph)
    requires ArcsShaped(g) && IsConsistent(g) && RatesPositive(g) && NoIsolatedTask(g)
    ensures NormalizedVectorOf(g).Ok?
    ensures IsNormalized(MultiplyPrefix(fixed, g, NormalizedVectorOf(g).value, |g.arcs|)) == Ok(true)
  {
    MultipliedWeights(fixed, g);
    var v := NormalizedVectorOf(g).value;
    var h := MultiplyPrefix(fixed, g, v, |g.arcs|);
    NoIsolatedKept(g, h);
    var w := seq(|g.tasks|, t requires 0 <= t < |g.tasks| => NormWeight(g, t));
    forall j | 0 <= j < |h.arcs|
      ensures ProdWeight(h.arcs[j]) == w[h.arcs[j].src] && ConsWeight(h.arcs[j]) == w[h.arcs[j].tgt]
    {
      assert h.arcs[j].src == g.arcs[j].src && h.arcs[j].tgt == g.arcs[j].tgt;
    }
    WeightsNormalized(h, w);
  }

  // ---------------------------------------------------------------------
  // Un-normalizing with the returned vector

  /** The coefficient is also exact on the marking and, for PCG, on the initial and threshold lists. */
  predicate ExactOn(k: Kind, a: Arc, c: Q) {
    IsIntegral(MulInt(c, a.m0)) &&
    (IsPcg(k) ==> TestCoef(c, a.iniProd) && TestCoef(c, a.iniCons) && TestCoef(c, a.thr) && TestCoef(c, a.iniThr))
  }

  /** An exact entry scaled by `c` and then by `1 / c` comes back, exactly. */
  lemma EntryRoundTrip(c: Q, x: int)
    requires !IsZero(c) && IsIntegral(MulInt(c, x))
    ensures IsIntegral(MulInt(Recip(c), Trunc(MulInt(c, x))))
    ensures Trunc(MulInt(Recip(c), Trunc(MulInt(c, x)))) == x
  {
    var y := Trunc(MulInt(c, x));
    TruncExact(MulInt(c, x));
    assert y * c.den == c.num * x;
    var r := Recip(c);
    assert r.num * c.num == c.den * r.den;
    assert r.num * y * c.num == r.den * x * c.num by {
      assert r.num * y * c.num == (r.num * c.num) * y;
      assert (c.den * r.den) * y == r.den * (y * c.den);
      assert r.den * (c.num * x) == r.den * x * c.num;
    }
    MulCancel(r.num * y, r.den * x, c.num);
    var p := MulInt(r, y);
    assert p.num == r.den * x && p.den == r.den * 1;
    ModOfMul(r.den, x);
    TruncExact(p);
    MulCancel(Trunc(p), x, r.den);
  }

  lemma ListRoundTrip(c: Q, l: seq<int>)
    requires !IsZero(c) && TestCoef(c, l)
    ensures TestCoef(Recip(c), ScaleList(l, c)) && ScaleList(ScaleList(l, c), Recip(c)) == l
  {
    forall i | 0 <= i < |l|
      ensures IsIntegral(MulInt(Recip(c), ScaleList(l, c)[i])) && ScaleList(ScaleList(l, c), Recip(c))[i] == l[i]
    {
      EntryRoundTrip(c, l[i]);
    }
  }

  lemma MarkingRoundTrip(c: Q, m: int)
    requires !IsZero(c) && IsIntegral(MulInt(c, m))
    ensures ScaledMarking(ScaledMarking(m, c), Recip(c)) == m
  {
    assert TestCoef(c, [m]);
    EntryRoundTrip(c, m);
    var y := ScaledMarking(m, c);
    assert TestCoef(Recip(c), [y]);
  }

  /**
   * `multiply_arc` by an exact nonzero `c`, then by `1 / c`, gives the arc
   * back up to the cached gcd, which the setters recompute (for SDF and
   * CSDF: the gcd of the restored rates); the intermediate arc passes the
   * coefficient test for `1 / c`.
   */
  lemma ArcRoundTrip(k: Kind, a: Arc, c: Q)
    requires ArcShaped(k, a) && !IsZero(c) && TestCoef(c, a.prod) && TestCoef(c, a.cons) && ExactOn(k, a, c)
    ensures ArcCoefOk(k, MultiplyArcOf(true, k, a, c), Recip(c))
    ensures var r := MultiplyArcOf(true, k, MultiplyArcOf(true, k, a, c), Recip(c));
      r == a.(gcd := r.gcd) &&
      (IsSdf(k) ==> r.gcd == Euclid(a.cons[0], a.prod[0])) &&
      (IsCsdf(k) && !IsPcg(k) ==> r.gcd == CsdfGcd(a.cons, a.prod))
  {
    var b := MultiplyArcOf(true, k, a, c);
    var r := MultiplyArcOf(true, k, b, Recip(c));
    MultiplyArcFields(true, k, a, c);
    MultiplyArcFields(true, k, b, Recip(c));
    ListRoundTrip(c, a.prod);
    ListRoundTrip(c, a.cons);
    MarkingRoundTrip(c, a.m0);
    if IsPcg(k) {
      ListRoundTrip(c, a.iniProd);
      ListRoundTrip(c, a.iniCons);
      ListRoundTrip(c, a.thr);
      ListRoundTrip(c, a.iniThr);
    }
    if IsSdf(k) {
      Singleton(r.prod);
      Singleton(r.cons);
    }
  }

  /**
   * Normalizing a graph (with the threshold scaling fixed) and then
   * un-normalizing it with the vector returned gives the original arcs
   * back, up to the cached gcd, whenever the coefficients are also exact on
   * the markings (and, for PCG, on the initial and threshold lists, which
   * `get_normalized_vector` does not look at).
   */
  lemma NormalizeRoundTrip(g: Graph)
    requires ArcsShaped(g) && IsConsistent(g) && RatesPositive(g) && NoIsolatedTask(g) && IsNormalized(g) == Ok(false)
    requires NormalizedVectorOf(g).Ok?
    requires forall i :: 0 <= i < |g.arcs| ==> ExactOn(g.kind, g.arcs[i], NormalizedVectorOf(g).value[i])
    ensures var o := NormalizedOf(true, g, None);
      o.result.Ok? && o.result.value.Some? &&
      var u := UnNormalizedOf(true, o.graph, o.result.value, []);
      u.error == None && u.graph.kind == g.kind && u.graph.tasks == g.tasks && |u.graph.arcs| == |g.arcs| &&
      forall i :: 0 <= i < |g.arcs| ==> u.graph.arcs[i] == g.arcs[i].(gcd := u.graph.arcs[i].gcd)
  {
    NormalizeMakesNormalized(true, g);
    VectorNonZero(g);
    var v := NormalizedVectorOf(g).value;
    var h := MultiplyPrefix(true, g, v, |g.arcs|);
    var iv := Inverted(v, |g.arcs|);
    assert NormalizedOf(true, g, None) == AfterVector(true, g, v);
    assert !(exists j :: 0 <= j < |g.arcs| && IsZero(v[j]));
    assert AfterVector(true, g, v) == Normalized(h, Ok(Some(iv)));
    InvertedRestores(g);
    assert TestCoefVector(true, h, iv);
    assert UnNormalizedOf(true, h, Some(iv), []) == UnNormalized(MultiplyPrefix(true, h, iv, |g.arcs|), None);
  }

  /** Arc by arc: the inverted coefficients pass the test on the multiplied arcs and restore the original ones. */
  lemma InvertedRestores(g: Graph)
    requires ArcsShaped(g) && IsConsistent(g) && RatesPositive(g) && NoIsolatedTask(g)
    requires NormalizedVectorOf(g).Ok?
    requires forall i :: 0 <= i < |g.arcs| ==> ExactOn(g.kind, g.arcs[i], NormalizedVectorOf(g).value[i])
    requires forall i :: 0 <= i < |g.arcs| ==> !IsZero(NormalizedVectorOf(g).value[i])
    ensures var v := NormalizedVectorOf(g).value;
      var h := MultiplyPrefix(true, g, v, |g.arcs|);
      var iv := Inverted(v, |g.arcs|);
      forall i :: 0 <= i < |g.arcs| ==>
        ArcCoefOk(g.kind, h.arcs[i], iv[i]) &&
        MultiplyArcOf(true, g.kind, h.arcs[i], iv[i]) == g.arcs[i].(gcd := MultiplyArcOf(true, g.kind, h.arcs[i], iv[i]).gcd)
  {
    var v := NormalizedVectorOf(g).value;
    var h := MultiplyPrefix(true, g, v, |g.arcs|);
    var iv := Inverted(v, |g.arcs|);
    forall i | 0 <= i < |g.arcs|
      ensures ArcCoefOk(g.kind, h.arcs[i], iv[i])
      ensures MultiplyArcOf(true, g.kind, h.arcs[i], iv[i]) == g.arcs[i].(gcd := MultiplyArcOf(true, g.kind, h.arcs[i], iv[i]).gcd)
    {
      assert h.arcs[i] == MultiplyArcOf(true, g.kind, g.arcs[i], v[i]) && iv[i] == Recip(v[i]);
      VectorExact(g, i);
      ArcRoundTrip(g.kind, g.arcs[i], v[i]);
    }
  }

  /** Entries the gcd divides are exact under `Fraction(draw, gcd)`. */
  lemma RdmEntryExact(r: int, gd: int, x: int)
    requires gd != 0 && Divides(gd, x)
    ensures IsIntegral(MulInt(Make(r, gd), x))
  {
    var m := Make(r, gd);
    var k := DividesElim(gd, x);
    assert m.num * x == m.den * (r * k) by {
      assert m.num * x == (m.num * gd) * k;
      assert (r * m.den) * k == m.den * (r * k);
    }
    ModOfMul(m.den, r * k);
  }

  lemma RdmListExact(r: int, gd: int, l: seq<int>)
    requires gd != 0 && DividesAll(gd, l)
    ensures TestCoef(Make(r, gd), l)
  {
    forall i | 0 <= i < |l|
      ensures IsIntegral(MulInt(Make(r, gd), l[i]))
    {
      RdmEntryExact(r, gd, l[i]);
    }
  }

  /** When every arc's gcd is nonzero and divides its entries, the random vector passes every arc's coefficient test. */
  lemma RdmVectorAccepted(g: Graph, draws: seq<int>)
    requires |draws| >= |g.arcs|
    requires forall i :: 0 <= i < |g.arcs| ==> g.arcs[i].gcd != 0 && GcdDividesEntries(g.arcs[i])
    ensures RdmVector(g, draws).Ok? && TestCoefVector(true, g, RdmVector(g, draws).value)
  {
    var v := RdmVector(g, draws).value;
    forall i | 0 <= i < |g.arcs|
      ensures ArcCoefOk(g.kind, g.arcs[i], v[i])
    {
      var a := g.arcs[i];
      RdmListExact(draws[i], a.gcd, a.prod);
      RdmListExact(draws[i], a.gcd, a.cons);
      RdmListExact(draws[i], a.gcd, a.iniProd);
      RdmListExact(draws[i], a.gcd, a.iniCons);
      RdmListExact(draws[i], a.gcd, a.thr);
      RdmListExact(draws[i], a.gcd, a.iniThr);
    }
  }

  // ---------------------------------------------------------------------
  // Counterexamples

  /**
   * On SDF and CSDF graphs, normalizing and un-normalizing with the
   * returned vector always restores the rates; each marking `m` comes back
   * as `m` scaled by `coef`, rounded, and scaled back by `1 / coef`.
   */
  lemma UnNormalizeRestoresRates(g: Graph)
    requires ArcsShaped(g) && IsConsistent(g) && RatesPositive(g) && NoIsolatedTask(g) && IsNormalized(g) == Ok(false)
    requires !IsPcg(g.kind)
    ensures NormalizedVectorOf(g).Ok? && forall i :: 0 <= i < |g.arcs| ==> !IsZero(NormalizedVectorOf(g).value[i])
    ensures var o := NormalizedOf(true, g, None);
      o.result.Ok? && o.result.value.Some? &&
      var u := UnNormalizedOf(true, o.graph, o.result.value, []);
      var v := NormalizedVectorOf(g).value;
      u.error == None && |u.graph.arcs| == |g.arcs| &&
      forall i :: 0 <= i < |g.arcs| ==>
        u.graph.arcs[i].prod == g.arcs[i].prod && u.graph.arcs[i].cons == g.arcs[i].cons &&
        u.graph.arcs[i].m0 == ScaledMarking(ScaledMarking(g.arcs[i].m0, v[i]), Recip(v[i]))
  {
    NormalizeMakesNormalized(true, g);
    VectorNonZero(g);
    var v := NormalizedVectorOf(g).value;
    var h := MultiplyPrefix(true, g, v, |g.arcs|);
    var iv := Inverted(v, |g.arcs|);
    assert NormalizedOf(true, g, None) == AfterVector(true, g, v);
    assert !(exists j :: 0 <= j < |g.arcs| && IsZero(v[j]));
    assert AfterVector(true, g, v) == Normalized(h, Ok(Some(iv)));
    RatesRestored(g);
    assert TestCoefVector(true, h, iv);
    assert UnNormalizedOf(true, h, Some(iv), []) == UnNormalized(MultiplyPrefix(true, h, iv, |g.arcs|), None);
  }

  lemma RatesRestored(g: Graph)
    requires ArcsShaped(g) && IsConsistent(g) && RatesPositive(g) && !IsPcg(g.kind)
    requires NormalizedVectorOf(g).Ok?
    requires forall i :: 0 <= i < |g.arcs| ==> !IsZero(NormalizedVectorOf(g).value[i])
    ensures var v := NormalizedVectorOf(g).value;
      var h := MultiplyPrefix(true, g, v, |g.arcs|);
      var iv := Inverted(v, |g.arcs|);
      forall i :: 0 <= i < |g.arcs| ==>
        ArcCoefOk(g.kind, h.arcs[i], iv[i]) &&
        MultiplyArcOf(true, g.kind, h.arcs[i], iv[i]).prod == g.arcs[i].prod &&
        MultiplyArcOf(true, g.kind, h.arcs[i], iv[i]).cons == g.arcs[i].cons &&
        MultiplyArcOf(true, g.kind, h.arcs[i], iv[i]).m0 == ScaledMarking(ScaledMarking(g.arcs[i].m0, v[i]), Recip(v[i]))
  {
    var v := NormalizedVectorOf(g).value;
    var h := MultiplyPrefix(true, g, v, |g.arcs|);
    var iv := Inverted(v, |g.arcs|);
    forall i | 0 <= i < |g.arcs|
      ensures ArcCoefOk(g.kind, h.arcs[i], iv[i])
      ensures MultiplyArcOf(true, g.kind, h.arcs[i], iv[i]).prod == g.arcs[i].prod
      ensures MultiplyArcOf(true, g.kind, h.arcs[i], iv[i]).cons == g.arcs[i].cons
      ensures MultiplyArcOf(true, g.kind, h.arcs[i], iv[i]).m0 == ScaledMarking(ScaledMarking(g.arcs[i].m0, v[i]), Recip(v[i]))
    {
      VectorExact(g, i);
      MultiplyArcFields(true, g.kind, g.arcs[i], v[i]);
      MultiplyArcFields(true, g.kind, h.arcs[i], iv[i]);
      ListRoundTrip(v[i], g.arcs[i].prod);
      ListRoundTrip(v[i], g.arcs[i].cons);
    }
  }

  /**
   * The marking of a rate-2 arc coming out of a one-token SDF arc whose
   * coefficient is `1/2` (as for `A -> B` with rates 2/2 beside `A -> C`
   * with rates 1/1, every factor 1): the token is rounded up to 1 and
   * scaled back to 2.
   */
  lemma RoundTripChangesMarking()
    ensures ScaledMarking(ScaledMarking(1, Frac(1, 2)), Recip(Frac(1, 2))) == 2
  {
    assert !TestCoef(Frac(1, 2), [1]);
    assert ScaledMarking(1, Frac(1, 2)) == 1;
    assert Recip(Frac(1, 2)) == Frac(2, 1);
  }

  /** A PCG arc with consumption 1 and threshold 2. */
  const ThresholdArc := Arc(0, 1, 0, "a0", 0, 1, 1, [1], [1], [], [], [2], [])

  /**
   * `multiply_arc` on a PCG arc reads the thresholds back after the
   * consumption setter has replaced them by the scaled consumption, so they
   * are scaled twice: consumption 1 and threshold 2 times 3 give the
   * threshold 9 instead of 6.
   */
  lemma ThresholdsSquared()
    ensures MultiplyArcOf(false, PCG, ThresholdArc, Int(3)).thr == [9]
  {
    MultiplyArcFields(false, PCG, ThresholdArc, Int(3));
    TripleOne();
    TripleThree();
  }

  lemma TripleOne()
    ensures ScaleList([1], Int(3)) == [3]
  {
    assert ScaleList([1], Int(3))[0] == 3;
  }

  lemma TripleThree()
    ensures ScaleList([3], Int(3)) == [9]
  {
    assert ScaleList([3], Int(3))[0] == 9;
  }

  /** With the thresholds read before the setters, they are scaled once. */
  lemma ThresholdsScaledOnce()
    ensures MultiplyArcOf(true, PCG, ThresholdArc, Int(3)).thr == [6]
  {
    MultiplyArcFields(true, PCG, ThresholdArc, Int(3));
    TripleTwo();
  }

  lemma TripleTwo()
    ensures ScaleList([2], Int(3)) == [6]
  {
    assert ScaleList([2], Int(3))[0] == 6;
  }

  /** The arcs leaving and entering `t` in a two-arc list. */
  lemma TwoArcs(a0: Arc, a1: Arc, t: nat)
    ensures OutArcs([a0, a1], t) == (if a0.src == t then [0] else []) + (if a1.src == t then [1] else [])
    ensures InArcs([a0, a1], t) == (if a0.tgt == t then [0] else []) + (if a1.tgt == t then [1] else [])
  {
    TwoOut(a0, a1, t);
    TwoIn(a0, a1, t);
  }

  lemma TwoOut(a0: Arc, a1: Arc, t: nat)
    ensures OutArcs([a0, a1], t) == (if a0.src == t then [0] else []) + (if a1.src == t then [1] else [])
  {
    var es := EndsOf([a0, a1]);
    assert es[0] == Ends(a0.src, a0.tgt) && es[1] == Ends(a1.src, a1.tgt);
    assert OutArcsTo(es, t, 1) == (if a0.src == t then [0] else []);
  }

  lemma TwoIn(a0: Arc, a1: Arc, t: nat)
    ensures InArcs([a0, a1], t) == (if a0.tgt == t then [0] else []) + (if a1.tgt == t then [1] else [])
  {
    var es := EndsOf([a0, a1]);
    assert es[0] == Ends(a0.src, a0.tgt) && es[1] == Ends(a1.src, a1.tgt);
    assert InArcsTo(es, t, 1) == (if a0.tgt == t then [0] else []);
  }

  /** Two parallel SDF arcs `A -> B` with rates 1/1. */
  const ParallelExample := Graph(SDF,
    [Task("A", 1, [1], []), Task("B", 1, [1], [])],
    [Arc(0, 1, 0, "a0", 0, 1, 1, [1], [1], [], [], [], []),
     Arc(0, 1, 1, "a1", 0, 1, 1, [1], [1], [], [], [], [])])

  /**
   * `__test_coef_vector` returns from inside its loop, so it checks the
   * first arc only: the vector `[1, 1/2]` passes although `1/2` does not
   * divide the second arc's rates, which un-normalizing then truncates to 0;
   * with no arc at all, it returns nothing and every vector is refused.
   */
  lemma TestCoefVectorFirstArcOnly()
    ensures TestCoefVector(false, ParallelExample, [Int(1), Frac(1, 2)])
    ensures !TestCoefVector(true, ParallelExample, [Int(1), Frac(1, 2)])
    ensures !TestCoefVector(false, Graph(SDF, [], []), []) && TestCoefVector(true, Graph(SDF, [], []), [])
  {
    var g := ParallelExample;
    var v := [Int(1), Frac(1, 2)];
    assert !IsIntegral(MulInt(v[1], 1));
    assert !ArcCoefOk(SDF, g.arcs[1], v[1]);
    assert ArcCoefOk(SDF, g.arcs[0], v[0]);
  }

  /** The vector the written test lets through is applied to both arcs; the second one's rates truncate to 0. */
  lemma FirstArcOnlyTruncates()
    ensures var u := UnNormalizedOf(false, ParallelExample, Some([Int(1), Frac(1, 2)]), []);
      u.error == None && u.graph.arcs[1].prod == [0] && u.graph.arcs[1].cons == [0]
  {
    FirstArcOnlyPasses();
    SecondArcTruncates();
  }

  /** Scaled by `[1, 1/2]`, the second arc's rates truncate to 0. */
  lemma SecondArcTruncates()
    ensures var h := MultiplyPrefix(false, ParallelExample, [Int(1), Frac(1, 2)], 2);
      |h.arcs| == 2 && h.arcs[1].prod == [0] && h.arcs[1].cons == [0]
  {
    var g := ParallelExample;
    var u := MultiplyPrefix(false, g, [Int(1), Frac(1, 2)], 2);
    assert u.arcs[1] == MultiplyArcOf(false, SDF, g.arcs[1], Frac(1, 2));
    HalfTruncates(g.arcs[1]);
  }

  /** The written test admits `[1, 1/2]`, so un-normalizing scales every arc by it. */
  lemma FirstArcOnlyPasses()
    ensures UnNormalizedOf(false, ParallelExample, Some([Int(1), Frac(1, 2)]), []) ==
      UnNormalized(MultiplyPrefix(false, ParallelExample, [Int(1), Frac(1, 2)], 2), None)
  {
    TestCoefVectorFirstArcOnly();
    ParallelExampleNormalized();
  }

  /** Scaling a 1/1 SDF arc by `1/2` truncates both rates to 0. */
  lemma HalfTruncates(a: Arc)
    requires ArcShaped(SDF, a) && a.prod == [1] && a.cons == [1]
    ensures MultiplyArcOf(false, SDF, a, Frac(1, 2)).prod == [0]
    ensures MultiplyArcOf(false, SDF, a, Frac(1, 2)).cons == [0]
  {
    MultiplyArcFields(false, SDF, a, Frac(1, 2));
    assert ScaleList([1], Frac(1, 2)) == [0];
  }

  lemma ParallelSides(t: nat)
    requires t <= 1
    ensures SideRates(ParallelExample.arcs, t) == [1, 1]
  {
    var g := ParallelExample;
    TwoArcs(g.arcs[0], g.arcs[1], t);
    assert g.arcs == [g.arcs[0], g.arcs[1]];
  }

  lemma ParallelExampleNormalized()
    ensures IsNormalized(ParallelExample) == Ok(true)
  {
    ParallelSides(0);
    ParallelSides(1);
  }

}
