// The normalization functions on the graph object: `multiply_arc` rewrites
// one arc through the class's setters, `get_normalized_vector`,
// `get_rdm_un_normalized_vector` and `__test_coef_vector` are loops over the
// tasks and arcs, and `normalized_dataflow` / `un_normalized_dataflow` drive
// them. Each method is proved against its function in `Normalization`.
module NormalizeOps {
  import opened Arith
  import opened GcdLcm
  import opened Fractions
  import opened Outcomes
  import opened Graph
  import opened Dataflow
  import opened Normalization

  /** The class invariant gives the list shapes the setters need. */
  lemma ValidShaped(dg: DataflowGraph)
    requires dg.Valid()
    ensures ArcsShaped(dg.Value())
  {
    forall i | 0 <= i < |dg.arcs|
      ensures ArcShaped(dg.kind, dg.arcs[i])
    {
      assert ArcWellFormed(dg.kind, |dg.tasks|, dg.arcs[i], i);
    }
  }

  /** `__test_coef`: stops at the first entry whose product with `c` is not an integer. */
  method TestCoefScan(c: Q, l: seq<int>) returns (ok: bool)
    ensures ok == TestCoef(c, l)
  {
    for i := 0 to |l|
      invariant forall j :: 0 <= j < i ==> IsIntegral(MulInt(c, l[j]))
    {
      if !IsIntegral(MulInt(c, l[i])) {
        return false;
      }
    }
    return true;
  }

  /**
   * `multiply_arc`: the marking (rounded up unless exact), then the rates
   * through the SDF or list setters, then for PCG the initial lists and the
   * thresholds. As written the thresholds are read after the consumption
   * setter has overwritten them; `fixed` reads them before.
   */
  method MultiplyArc(fixed: bool, dg: DataflowGraph, i: nat, c: Q)
    requires dg.Valid() && i < |dg.arcs|
    modifies dg
    ensures dg.Valid()
    ensures ArcShaped(dg.kind, old(dg.arcs)[i])
    ensures dg.arcs == old(dg.arcs)[i := MultiplyArcOf(fixed, dg.kind, old(dg.arcs)[i], c)]
    ensures dg.tasks == old(dg.tasks) && dg.taskByName == old(dg.taskByName)
    ensures dg.taskKey == old(dg.taskKey) && dg.arcKey == old(dg.arcKey)
  {
    ValidShaped(dg);
    var a := dg.arcs[i];
    ScaleMarking(dg, i, c);
    ScaleLists(fixed, dg, i, a, c);
  }

  lemma UpdatedTwice<T>(s: seq<T>, i: nat, x: T, y: T)
    requires i < |s|
    ensures s[i := x][i := y] == s[i := y]
  {
  }

  /** The setters `multiply_arc` calls after the marking; `a` is the arc as it was before the marking setter. */
  method ScaleLists(fixed: bool, dg: DataflowGraph, i: nat, a: Arc, c: Q)
    requires dg.Valid() && i < |dg.arcs|
    modifies dg
    ensures dg.Valid()
    ensures ArcShaped(dg.kind, old(dg.arcs)[i])
    ensures var a3 := RatesScaled(dg.kind, old(dg.arcs)[i], c);
      dg.arcs == old(dg.arcs)[i := if IsPcg(dg.kind) then PcgListsScaled(fixed, a, a3, c) else a3]
    ensures dg.tasks == old(dg.tasks) && dg.taskByName == old(dg.taskByName)
    ensures dg.taskKey == old(dg.taskKey) && dg.arcKey == old(dg.arcKey)
  {
    ghost var arcs0 := dg.arcs;
    ScaleRates(dg, i, c);
    if IsPcg(dg.kind) {
      ghost var a3 := dg.arcs[i];
      ScalePcgLists(fixed, dg, i, a, c);
      UpdatedTwice(arcs0, i, a3, PcgListsScaled(fixed, a, a3, c));
    }
  }

  /** The marking step of `multiply_arc`: rounded up unless the product is exact. */
  method ScaleMarking(dg: DataflowGraph, i: nat, c: Q)
    requires dg.Valid() && i < |dg.arcs|
    modifies dg
    ensures dg.Valid()
    ensures dg.arcs == old(dg.arcs)[i := old(dg.arcs)[i].(m0 := ScaledMarking(old(dg.arcs)[i].m0, c))]
    ensures dg.tasks == old(dg.tasks) && dg.taskByName == old(dg.taskByName)
    ensures dg.taskKey == old(dg.taskKey) && dg.arcKey == old(dg.arcKey)
  {
    var m := dg.arcs[i].m0;
    var exact := TestCoefScan(c, [m]);
    var p := MulInt(c, m);
    dg.SetInitialMarking(i, if !exact then Ceil(p) else Trunc(p));
  }

  /** The rate setters `multiply_arc` calls. */
  method ScaleRates(dg: DataflowGraph, i: nat, c: Q)
    requires dg.Valid() && i < |dg.arcs|
    modifies dg
    ensures dg.Valid()
    ensures ArcShaped(dg.kind, old(dg.arcs)[i])
    ensures dg.arcs == old(dg.arcs)[i := RatesScaled(dg.kind, old(dg.arcs)[i], c)]
    ensures dg.tasks == old(dg.tasks) && dg.taskByName == old(dg.taskByName)
    ensures dg.taskKey == old(dg.taskKey) && dg.arcKey == old(dg.arcKey)
  {
    ValidShaped(dg);
    if IsSdf(dg.kind) {
      dg.SetProdRate(i, Trunc(MulInt(c, dg.arcs[i].prod[0])));
      dg.SetConsRate(i, Trunc(MulInt(c, dg.arcs[i].cons[0])));
    } else {
      dg.SetProdRateList(i, ScaleList(dg.arcs[i].prod, c));
      ValidShaped(dg);
      dg.SetConsRateList(i, ScaleList(dg.arcs[i].cons, c));
    }
  }

  /** The PCG setters `multiply_arc` calls; `a` is the arc as it was before the marking setter. */
  method ScalePcgLists(fixed: bool, dg: DataflowGraph, i: nat, a: Arc, c: Q)
    requires dg.Valid() && IsPcg(dg.kind) && i < |dg.arcs|
    modifies dg
    ensures dg.Valid()
    ensures dg.arcs == old(dg.arcs)[i := PcgListsScaled(fixed, a, old(dg.arcs)[i], c)]
    ensures dg.tasks == old(dg.tasks) && dg.taskByName == old(dg.taskByName)
    ensures dg.taskKey == old(dg.taskKey) && dg.arcKey == old(dg.arcKey)
  {
    dg.SetIniProdRateList(i, ScaleList(dg.arcs[i].iniProd, c));
    dg.SetIniConsRateList(i, ScaleList(dg.arcs[i].iniCons, c));
    dg.SetThresholdList(i, ScaleList(if fixed then a.thr else dg.arcs[i].thr, c));
    dg.SetIniThresholdList(i, ScaleList(if fixed then a.iniThr else dg.arcs[i].iniThr, c));
  }

  /** `multiply_arc` on the first `n` arcs, in order, with the coefficients `w`. */
  method MultiplyArcs(fixed: bool, dg: DataflowGraph, w: seq<Q>, n: nat)
    requires dg.Valid() && n <= |dg.arcs| && n <= |w|
    modifies dg
    ensures dg.Valid()
    ensures ArcsShaped(old(dg.Value()))
    ensures dg.Value() == MultiplyPrefix(fixed, old(dg.Value()), w, n)
    ensures dg.taskByName == old(dg.taskByName) && dg.taskKey == old(dg.taskKey) && dg.arcKey == old(dg.arcKey)
  {
    ValidShaped(dg);
    var g := dg.Value();
    for i := 0 to n
      invariant dg.Valid() && dg.Value() == MultiplyPrefix(fixed, g, w, i)
      invariant dg.taskByName == old(dg.taskByName) && dg.taskKey == old(dg.taskKey) && dg.arcKey == old(dg.arcKey)
    {
      MultiplyArc(fixed, dg, i, w[i]);
      assert dg.arcs == MultiplyPrefix(fixed, g, w, i + 1).arcs;
    }
  }

  /** An error in the `lcm_rf` fold stays an error. */
  lemma {:induction false} LcmRfErrorSticks(g: Graph, k: nat, n: nat)
    requires k <= n <= |g.tasks| && LcmRf(g, k) == Err(ZeroDivisionError)
    ensures LcmRf(g, n) == Err(ZeroDivisionError)
    decreases n - k
  {
    if k < n {
      LcmRfErrorSticks(g, k + 1, n);
    }
  }

  /** `lcm_post_mult` after `k` arcs reads only the first `k` coefficients. */
  lemma {:induction false} PostLcmPrefix(g: Graph, cs: seq<Q>, ds: seq<Q>, k: nat)
    requires k <= |g.arcs| && k <= |cs| && k <= |ds| && cs[..k] == ds[..k]
    ensures PostLcm(g, cs, k) == PostLcm(g, ds, k)
  {
    if k > 0 {
      assert cs[..k - 1] == cs[..k][..k - 1] && ds[..k - 1] == ds[..k][..k - 1];
      assert cs[k - 1] == cs[..k][k - 1];
      PostLcmPrefix(g, cs, ds, k - 1);
    }
  }

  /** The inner loop of `get_normalized_vector`: widen by the denominator at each inexact phase. */
  method WidenAtPhases(c: Q, l0: int, ps: seq<int>) returns (l: int)
    requires l0 > 0
    ensures l == PhaseLcm(c, l0, ps)
  {
    l := l0;
    for j := 0 to |ps|
      invariant l > 0 && PhaseLcm(c, l, ps[j..]) == PhaseLcm(c, l0, ps)
    {
      assert ps[j..][1..] == ps[j + 1..];
      if !IsIntegral(MulInt(c, ps[j])) {
        l := WidenBy(l, c);
      }
    }
    assert ps[|ps|..] == [];
  }

  /** The first loop of `get_normalized_vector`: `lcm_rf` over the tasks. */
  method LcmRfScan(g: Graph) returns (r: Result<int>)
    ensures r == LcmRf(g, |g.tasks|)
  {
    var l := 1;
    for t := 0 to |g.tasks|
      invariant LcmRf(g, t) == Ok(l)
    {
      var rf := g.tasks[t].rf;
      if l == 0 && rf == 0 {
        LcmRfErrorSticks(g, t + 1, |g.tasks|);
        return Err(ZeroDivisionError);
      }
      l := Lcm(l, rf);
    }
    return Ok(l);
  }

  /** The second loop of `get_normalized_vector`: the base coefficients and, cyclo-static only, `lcm_post_mult`. */
  method BaseCoefsScan(g: Graph, l: int) returns (r: Result<seq<Q>>, lpm: int)
    requires EndpointsOk(g)
    ensures r == BaseCoefs(g, l, |g.arcs|)
    ensures r.Ok? ==> lpm == if IsCsdf(g.kind) then PostLcm(g, r.value, |g.arcs|) else 1
  {
    var cs: seq<Q> := [];
    lpm := 1;
    for i := 0 to |g.arcs|
      invariant BaseCoefs(g, l, i) == Ok(cs)
      invariant lpm == if IsCsdf(g.kind) then PostLcm(g, cs, i) else 1
    {
      var a := g.arcs[i];
      var rs := g.tasks[a.src].rf;
      var rate := ProdWeight(a);
      if rs == 0 || rate == 0 {
        assert BaseCoef(g, l, i).Err?;
        return Err(ZeroDivisionError), lpm;
      }
      var c := Make(PyDiv(l, rs), rate);
      assert BaseCoef(g, l, i) == Ok(c);
      if IsCsdf(g.kind) {
        lpm := WidenAtPhases(c, lpm, a.prod + a.cons);
        PostLcmPrefix(g, cs, cs + [c], i);
        assert (cs + [c])[i] == c;
      }
      cs := cs + [c];
    }
    r := Ok(cs);
  }

  /** The last loop of `get_normalized_vector`: every coefficient times `lcm_post_mult`. */
  method ScaleCoefs(cs: seq<Q>, lpm: int) returns (w: seq<Q>)
    ensures w == seq(|cs|, i requires 0 <= i < |cs| => MulInt(cs[i], lpm))
  {
    w := [];
    for i := 0 to |cs|
      invariant |w| == i && forall j :: 0 <= j < i ==> w[j] == MulInt(cs[j], lpm)
    {
      w := w + [MulInt(cs[i], lpm)];
    }
  }

  /** `get_normalized_vector` on the graph object. */
  method GetNormalizedVector(dg: DataflowGraph) returns (r: Result<seq<Q>>)
    requires EndpointsOk(dg.Value())
    ensures r == NormalizedVectorOf(dg.Value())
  {
    var g := dg.Value();
    var l := LcmRfScan(g);
    if l.Err? {
      return Err(l.error);
    }
    var cs, lpm := BaseCoefsScan(g, l.value);
    if cs.Err? {
      return Err(cs.error);
    }
    var w := ScaleCoefs(cs.value, lpm);
    return Ok(w);
  }

  /** `get_rdm_un_normalized_vector`, the random draws given: `Fraction(draw, gcd)` per arc. */
  method RdmUnNormalizedVector(dg: DataflowGraph, draws: seq<int>) returns (r: Result<seq<Q>>)
    requires |draws| >= |dg.arcs|
    ensures r == RdmVector(dg.Value(), draws)
  {
    var g := dg.Value();
    var w: seq<Q> := [];
    for i := 0 to |g.arcs|
      invariant |w| == i && forall j :: 0 <= j < i ==> g.arcs[j].gcd != 0 && w[j] == Make(draws[j], g.arcs[j].gcd)
    {
      if g.arcs[i].gcd == 0 {
        return Err(ZeroDivisionError);
      }
      w := w + [Make(draws[i], g.arcs[i].gcd)];
    }
    assert w == seq(|g.arcs|, j requires 0 <= j < |g.arcs| => Make(draws[j], g.arcs[j].gcd));
    return Ok(w);
  }

  /**
   * `__test_coef_vector`: as written it returns from inside the loop after
   * the first arc, and falls off the end (refusing) with no arc; `fixed`
   * checks every arc.
   */
  method TestCoefVectorScan(fixed: bool, dg: DataflowGraph, v: seq<Q>) returns (ok: bool)
    ensures ok == TestCoefVector(fixed, dg.Value(), v)
  {
    if |v| != |dg.arcs| {
      return false;
    }
    for i := 0 to |dg.arcs|
      invariant fixed || i == 0
      invariant forall j :: 0 <= j < i ==> ArcCoefOk(dg.kind, dg.arcs[j], v[j])
    {
      var a := dg.arcs[i];
      var t := TestCoefScan(v[i], a.prod);
      if !t { return false; }
      t := TestCoefScan(v[i], a.cons);
      if !t { return false; }
      if IsPcg(dg.kind) {
        t := TestCoefScan(v[i], a.iniProd);
        if !t { return false; }
        t := TestCoefScan(v[i], a.iniCons);
        if !t { return false; }
        t := TestCoefScan(v[i], a.thr);
        if !t { return false; }
        t := TestCoefScan(v[i], a.iniThr);
        if !t { return false; }
      }
      if !fixed {
        return true;
      }
    }
    return fixed;
  }

  /**
   * `normalized_dataflow`: refuses an inconsistent graph, leaves a normalized
   * one alone, multiplies every arc by its coefficient and answers the
   * inverted coefficients; a missing coefficient stops the multiplication
   * (`KeyError`), a zero one stops the inversion.
   */
  method NormalizedDataflow(fixed: bool, dg: DataflowGraph, cv: Option<seq<Q>>) returns (r: Result<Option<seq<Q>>>)
    requires dg.Valid() && ArcsShaped(dg.Value())
    modifies dg
    ensures dg.Valid()
    ensures r == NormalizedOf(fixed, old(dg.Value()), cv).result
    ensures dg.Value() == NormalizedOf(fixed, old(dg.Value()), cv).graph
    ensures dg.taskByName == old(dg.taskByName) && dg.taskKey == old(dg.taskKey) && dg.arcKey == old(dg.arcKey)
  {
    var g := dg.Value();
    if !IsConsistent(g) {
      return Err(RuntimeError);
    }
    var nz := IsNormalized(g);
    if nz.Err? {
      return Err(nz.error);
    }
    if nz.value {
      return Ok(None);
    }
    var w: seq<Q>;
    if cv.Some? {
      w := cv.value;
    } else {
      var v := GetNormalizedVector(dg);
      if v.Err? {
        return Err(v.error);
      }
      w := v.value;
    }
    assert NormalizedOf(fixed, g, cv) == AfterVector(fixed, g, w);
    r := MultiplyAndInvert(fixed, dg, w);
  }

  /** The two loops of `normalized_dataflow`: multiply every arc, then invert the coefficients. */
  method MultiplyAndInvert(fixed: bool, dg: DataflowGraph, w: seq<Q>) returns (r: Result<Option<seq<Q>>>)
    requires dg.Valid() && ArcsShaped(dg.Value())
    modifies dg
    ensures dg.Valid()
    ensures r == AfterVector(fixed, old(dg.Value()), w).result
    ensures dg.Value() == AfterVector(fixed, old(dg.Value()), w).graph
    ensures dg.taskByName == old(dg.taskByName) && dg.taskKey == old(dg.taskKey) && dg.arcKey == old(dg.arcKey)
  {
    var n := |dg.arcs|;
    if |w| < n {
      MultiplyArcs(fixed, dg, w, |w|);
      return Err(KeyError);
    }
    MultiplyArcs(fixed, dg, w, n);
    var iv := InvertCoefs(w, n);
    if iv.None? {
      return Err(ZeroDivisionError);
    }
    return Ok(Some(iv.value));
  }

  /** The last loop of `normalized_dataflow`: `Fraction(1, coef)` for each arc, stopping at a zero coefficient. */
  method InvertCoefs(w: seq<Q>, n: nat) returns (iv: Option<seq<Q>>)
    requires n <= |w|
    ensures iv.Some? <==> forall j :: 0 <= j < n ==> !IsZero(w[j])
    ensures iv.Some? ==> iv.value == Inverted(w, n)
  {
    var v := w;
    for i := 0 to n
      invariant |v| == |w|
      invariant forall j :: 0 <= j < i ==> !IsZero(w[j]) && v[j] == Recip(w[j])
      invariant forall j :: i <= j < |w| ==> v[j] == w[j]
    {
      if IsZero(w[i]) {
        return None;
      }
      v := v[i := Recip(w[i])];
    }
    assert v == Inverted(w, n);
    return Some(v);
  }

  /**
   * `un_normalized_dataflow`: leaves a graph that is not normalized alone,
   * refuses a given vector that fails the coefficient test, draws one
   * otherwise, and multiplies every arc by its coefficient.
   */
  method UnNormalizedDataflow(fixed: bool, dg: DataflowGraph, cv: Option<seq<Q>>, draws: seq<int>) returns (e: Option<PyError>)
    requires dg.Valid() && ArcsShaped(dg.Value()) && (cv.None? ==> |draws| >= |dg.arcs|)
    modifies dg
    ensures dg.Valid()
    ensures e == UnNormalizedOf(fixed, old(dg.Value()), cv, draws).error
    ensures dg.Value() == UnNormalizedOf(fixed, old(dg.Value()), cv, draws).graph
    ensures dg.taskByName == old(dg.taskByName) && dg.taskKey == old(dg.taskKey) && dg.arcKey == old(dg.arcKey)
  {
    var g := dg.Value();
    var nz := IsNormalized(g);
    if nz.Err? {
      return Some(nz.error);
    }
    if !nz.value {
      return None;
    }
    var w: seq<Q>;
    if cv.Some? {
      var ok := TestCoefVectorScan(fixed, dg, cv.value);
      if !ok {
        return Some(InvalidValue);
      }
      w := cv.value;
    } else {
      var v := RdmUnNormalizedVector(dg, draws);
      if v.Err? {
        return Some(v.error);
      }
      w := v.value;
    }
    MultiplyArcs(fixed, dg, w, |g.arcs|);
    return None;
  }
}
