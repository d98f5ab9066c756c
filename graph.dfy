// The dataflow graph as a value: tasks, a keyed multigraph of arcs and the
// rate lists every variant keeps on its arcs, with the per-arc updates the
// rate setters perform and the graph properties the analyses query.
module Graph {
  import opened Arith
  import opened GcdLcm
  import opened Outcomes

  /** The three graph classes; `PCG` is a subclass of `CSDF`. */
  datatype Kind = SDF | CSDF | PCG

  /** `is_sdf`, `is_csdf`, `is_pcg` of each class. */
  predicate IsSdf(k: Kind) { k == SDF }
  predicate IsCsdf(k: Kind) { k == CSDF || k == PCG }
  predicate IsPcg(k: Kind) { k == PCG }

  /**
   * A task: its name, its repetition factor (0 until a repetition vector is
   * stored), its cyclic phase durations (one entry for SDF) and its initial
   * phase durations (PCG only).
   */
  datatype Task = Task(name: string, rf: int, durations: seq<int>, iniDurations: seq<int>)

  /**
   * An arc `(src, tgt, key)`: `key` numbers the parallel arcs between one
   * pair. The SDF scalar rates are kept as one-element lists; the initial
   * and threshold lists are used by PCG only.
   */
  datatype Arc = Arc(
    src: nat, tgt: nat, key: nat, name: string,
    m0: int, tokenSize: int, gcd: int,
    prod: seq<int>, cons: seq<int>,
    iniProd: seq<int>, iniCons: seq<int>,
    thr: seq<int>, iniThr: seq<int>)

  /** Tasks are numbered by their position; arcs are listed in creation order. */
  datatype Graph = Graph(kind: Kind, tasks: seq<Task>, arcs: seq<Arc>)

  predicate EndpointsOk(g: Graph) {
    forall i :: 0 <= i < |g.arcs| ==> g.arcs[i].src < |g.tasks| && g.arcs[i].tgt < |g.tasks|
  }

  function Ones(n: nat): (s: seq<int>)
    ensures |s| == n && forall i :: 0 <= i < n ==> s[i] == 1
  {
    seq(n, _ => 1)
  }

  function Sum(s: seq<int>): int
    decreases |s|
  {
    if |s| == 0 then 0 else Sum(s[..|s| - 1]) + s[|s| - 1]
  }

  lemma SumOnes(n: nat)
    ensures Sum(Ones(n)) == n
  {
    if n > 0 {
      assert Ones(n)[..n - 1] == Ones(n - 1);
      SumOnes(n - 1);
    }
  }

  /** Every entry is `d` times the matching entry of `t`: the sum is `d` times the sum. */
  lemma SumScaled(s: seq<int>, t: seq<int>, d: int)
    requires |s| == |t|
    requires forall i :: 0 <= i < |s| ==> s[i] == d * t[i]
    ensures Sum(s) == d * Sum(t)
    decreases |s|
  {
    if |s| > 0 {
      var s', t' := s[..|s| - 1], t[..|t| - 1];
      assert forall i :: 0 <= i < |s'| ==> s'[i] == s[i] && t'[i] == t[i];
      SumScaled(s', t', d);
      assert d * Sum(t') + d * t[|t| - 1] == d * (Sum(t') + t[|t| - 1]);
    }
  }

  // ---------------------------------------------------------------------
  // Phase counts

  /** `get_phase_count`: the length of the duration list (1 for an SDF task). */
  function PhaseCount(g: Graph, t: nat): nat
    requires t < |g.tasks|
  {
    if IsSdf(g.kind) then 1 else |g.tasks[t].durations|
  }

  /** `get_ini_phase_count`: the length of the initial duration list (0 outside PCG). */
  function IniPhaseCount(g: Graph, t: nat): nat
    requires t < |g.tasks|
  {
    if IsPcg(g.kind) then |g.tasks[t].iniDurations| else 0
  }

  /** The lists of every arc have the lengths its endpoints' phase counts give them. */
  predicate Shaped(g: Graph) {
    EndpointsOk(g) &&
    (forall t :: 0 <= t < |g.tasks| ==> PhaseCount(g, t) >= 1) &&
    (forall t :: 0 <= t < |g.tasks| && IsSdf(g.kind) ==> |g.tasks[t].durations| == 1) &&
    (forall i :: 0 <= i < |g.arcs| ==>
      |g.arcs[i].prod| == PhaseCount(g, g.arcs[i].src) &&
      |g.arcs[i].cons| == PhaseCount(g, g.arcs[i].tgt)) &&
    (forall i :: 0 <= i < |g.arcs| && IsPcg(g.kind) ==>
      |g.arcs[i].thr| == PhaseCount(g, g.arcs[i].tgt) &&
      |g.arcs[i].iniProd| == IniPhaseCount(g, g.arcs[i].src) &&
      |g.arcs[i].iniCons| == IniPhaseCount(g, g.arcs[i].tgt) &&
      |g.arcs[i].iniThr| == IniPhaseCount(g, g.arcs[i].tgt))
  }

  // ---------------------------------------------------------------------
  // The cached arc gcd

  predicate DividesAll(d: int, s: seq<int>) {
    forall i :: 0 <= i < |s| ==> Divides(d, s[i])
  }

  /** The stored gcd divides every rate, threshold and initial entry of the arc. */
  predicate GcdDividesEntries(a: Arc) {
    DividesAll(a.gcd, a.prod) && DividesAll(a.gcd, a.cons) &&
    DividesAll(a.gcd, a.iniProd) && DividesAll(a.gcd, a.iniCons) &&
    DividesAll(a.gcd, a.thr) && DividesAll(a.gcd, a.iniThr)
  }

  /** SDF `set_cons_rate`: the scalar and `gcd(cons, prod)`. */
  function SdfWithCons(a: Arc, r: int): Arc
    requires |a.prod| == 1
  {
    a.(cons := [r], gcd := Euclid(r, a.prod[0]))
  }

  /** SDF `set_prod_rate`: the scalar and `gcd(cons, prod)`. */
  function SdfWithProd(a: Arc, r: int): Arc
    requires |a.cons| == 1
  {
    a.(prod := [r], gcd := Euclid(a.cons[0], r))
  }

  /** CSDF `_calc_gcd`: `gcd(reduce(gcd, cons), reduce(gcd, prod))`. */
  function CsdfGcd(cons: seq<int>, prod: seq<int>): int
    requires |cons| > 0 && |prod| > 0
  {
    Euclid(GcdReduce(cons), GcdReduce(prod))
  }

  /** CSDF `set_cons_rate_list`. */
  function CsdfWithCons(a: Arc, l: seq<int>): Arc
    requires |l| > 0 && |a.prod| > 0
  {
    a.(cons := l, gcd := CsdfGcd(l, a.prod))
  }

  /** CSDF `set_prod_rate_list`, which the PCG class inherits unchanged. */
  function CsdfWithProd(a: Arc, l: seq<int>): Arc
    requires |l| > 0 && |a.cons| > 0
  {
    a.(prod := l, gcd := CsdfGcd(a.cons, l))
  }

  /**
   * PCG `__calc_gcd`: the stored gcd folded with the initial consumption,
   * initial production, threshold and initial threshold lists, in that order.
   */
  function PcgGcd(a: Arc): int {
    var g1 := GcdReduce(a.iniCons + [a.gcd]);
    var g2 := GcdReduce(a.iniProd + [g1]);
    var g3 := GcdReduce(a.thr + [g2]);
    GcdReduce(a.iniThr + [g3])
  }

  function PcgRegcd(a: Arc): Arc { a.(gcd := PcgGcd(a)) }

  /** PCG `set_threshold_list`. */
  function PcgWithThr(a: Arc, l: seq<int>): Arc { PcgRegcd(a.(thr := l)) }

  /** PCG `set_ini_threshold_list`. */
  function PcgWithIniThr(a: Arc, l: seq<int>): Arc { PcgRegcd(a.(iniThr := l)) }

  /** PCG `set_cons_rate_list`: the CSDF setter, then the same list as thresholds, then the PCG gcd. */
  function PcgWithCons(a: Arc, l: seq<int>): Arc
    requires |l| > 0 && |a.prod| > 0
  {
    PcgRegcd(PcgWithThr(CsdfWithCons(a, l), l))
  }

  /** PCG `set_ini_cons_rate_list`: the list, the same list as initial thresholds, then the PCG gcd. */
  function PcgWithIniCons(a: Arc, l: seq<int>): Arc {
    PcgRegcd(PcgWithIniThr(a.(iniCons := l), l))
  }

  /** PCG `set_ini_prod_rate_list`. */
  function PcgWithIniProd(a: Arc, l: seq<int>): Arc { PcgRegcd(a.(iniProd := l)) }

  /** `set_cons_rate_list` of the graph's class. */
  function WithConsList(k: Kind, a: Arc, l: seq<int>): Arc
    requires |l| > 0 && |a.prod| > 0
  {
    if IsPcg(k) then PcgWithCons(a, l) else CsdfWithCons(a, l)
  }

  /** `set_prod_rate_list` of the graph's class, as written: the CSDF setter for both classes. */
  function WithProdList(k: Kind, a: Arc, l: seq<int>): Arc
    requires |l| > 0 && |a.cons| > 0
  {
    CsdfWithProd(a, l)
  }

  /** `set_prod_rate_list` as a PCG override would have it: the CSDF setter followed by the PCG gcd. */
  function WithProdListCorrected(k: Kind, a: Arc, l: seq<int>): Arc
    requires |l| > 0 && |a.cons| > 0
  {
    if IsPcg(k) then PcgRegcd(CsdfWithProd(a, l)) else CsdfWithProd(a, l)
  }

  /** After an SDF rate setter the stored gcd divides both rates. */
  lemma SdfSettersGcd(a: Arc, r: int)
    requires |a.prod| == 1 && |a.cons| == 1
    ensures GcdDividesEntries(SdfWithCons(a, r).(iniProd := [], iniCons := [], thr := [], iniThr := []))
    ensures GcdDividesEntries(SdfWithProd(a, r).(iniProd := [], iniCons := [], thr := [], iniThr := []))
  {
    EuclidDivides(r, a.prod[0]);
    EuclidDivides(a.cons[0], r);
  }

  /** The CSDF gcd is the greatest common divisor of all consumption and production entries. */
  lemma CsdfGcdIsGcd(cons: seq<int>, prod: seq<int>)
    requires |cons| > 0 && |prod| > 0
    ensures DividesAll(CsdfGcd(cons, prod), cons) && DividesAll(CsdfGcd(cons, prod), prod)
    ensures forall d :: DividesAll(d, cons) && DividesAll(d, prod) ==> Divides(d, CsdfGcd(cons, prod))
  {
    var a := GcdReduce(cons);
    var b := GcdReduce(prod);
    var g := CsdfGcd(cons, prod);
    GcdReduceDividesAll(cons);
    GcdReduceDividesAll(prod);
    EuclidDivides(a, b);
    forall i | 0 <= i < |cons| ensures Divides(g, cons[i]) { DividesTrans(g, a, cons[i]); }
    forall i | 0 <= i < |prod| ensures Divides(g, prod[i]) { DividesTrans(g, b, prod[i]); }
    forall d | DividesAll(d, cons) && DividesAll(d, prod) ensures Divides(d, g) {
      GcdReduceGreatest(cons, d);
      GcdReduceGreatest(prod, d);
      EuclidGreatest(a, b, d);
    }
  }

  /** `reduce(gcd, xs + [g])` divides `g` and every entry of `xs`. */
  lemma ReduceAppend(xs: seq<int>, g: int)
    ensures DividesAll(GcdReduce(xs + [g]), xs)
    ensures Divides(GcdReduce(xs + [g]), g)
  {
    var ys := xs + [g];
    GcdReduceDividesAll(ys);
    assert ys[|xs|] == g;
    forall i | 0 <= i < |xs| ensures Divides(GcdReduce(ys), xs[i]) {
      assert ys[i] == xs[i];
    }
  }

  /** The PCG gcd divides the stored gcd and every initial and threshold entry. */
  lemma PcgGcdDivides(a: Arc)
    ensures Divides(PcgGcd(a), a.gcd)
    ensures DividesAll(PcgGcd(a), a.iniCons) && DividesAll(PcgGcd(a), a.iniProd)
    ensures DividesAll(PcgGcd(a), a.thr) && DividesAll(PcgGcd(a), a.iniThr)
  {
    var g1 := GcdReduce(a.iniCons + [a.gcd]);
    var g2 := GcdReduce(a.iniProd + [g1]);
    var g3 := GcdReduce(a.thr + [g2]);
    var g4 := GcdReduce(a.iniThr + [g3]);
    ReduceAppend(a.iniCons, a.gcd);
    ReduceAppend(a.iniProd, g1);
    ReduceAppend(a.thr, g2);
    ReduceAppend(a.iniThr, g3);
    DividesTrans(g4, g3, g2);
    DividesTrans(g4, g2, g1);
    DividesTrans(g4, g1, a.gcd);
    DividesAllTrans(g4, g3, a.thr);
    DividesAllTrans(g4, g2, a.iniProd);
    DividesAllTrans(g4, g1, a.iniCons);
  }

  lemma DividesAllTrans(d: int, e: int, s: seq<int>)
    requires Divides(d, e) && DividesAll(e, s)
    ensures DividesAll(d, s)
  {
    forall i | 0 <= i < |s| ensures Divides(d, s[i]) { DividesTrans(d, e, s[i]); }
  }

  /** Once the stored gcd divides the rates, the PCG recomputation makes it divide every entry. */
  lemma PcgRegcdDividesEntries(a: Arc)
    requires DividesAll(a.gcd, a.prod) && DividesAll(a.gcd, a.cons)
    ensures GcdDividesEntries(PcgRegcd(a))
  {
    PcgGcdDivides(a);
    DividesAllTrans(PcgGcd(a), a.gcd, a.prod);
    DividesAllTrans(PcgGcd(a), a.gcd, a.cons);
  }

  /** Every PCG setter other than the production one leaves a gcd that divides every entry. */
  lemma PcgSettersKeepGcd(a: Arc, l: seq<int>)
    requires GcdDividesEntries(a) && |a.prod| > 0 && |l| > 0
    ensures GcdDividesEntries(PcgWithCons(a, l))
    ensures GcdDividesEntries(PcgWithIniCons(a, l))
    ensures GcdDividesEntries(PcgWithIniProd(a, l))
    ensures GcdDividesEntries(PcgWithThr(a, l))
    ensures GcdDividesEntries(PcgWithIniThr(a, l))
  {
    var c := CsdfWithCons(a, l);
    CsdfGcdIsGcd(l, a.prod);
    PcgRegcdDividesEntries(c.(thr := l));
    var t := PcgWithThr(c, l);
    PcgGcdDivides(c.(thr := l));
    DividesAllTrans(t.gcd, c.gcd, l);
    DividesAllTrans(t.gcd, c.gcd, a.prod);
    PcgRegcdDividesEntries(t);
    PcgRegcdDividesEntries(a.(iniCons := l).(iniThr := l));
    var i := PcgWithIniThr(a.(iniCons := l), l);
    PcgGcdDivides(a.(iniCons := l).(iniThr := l));
    DividesAllTrans(i.gcd, a.gcd, a.prod);
    DividesAllTrans(i.gcd, a.gcd, a.cons);
    PcgRegcdDividesEntries(i);
    PcgRegcdDividesEntries(a.(iniProd := l));
    PcgRegcdDividesEntries(a.(thr := l));
    PcgRegcdDividesEntries(a.(iniThr := l));
  }

  /** The inherited production setter does not keep the PCG gcd a divisor of the thresholds. */
  lemma PcgProdSetterLosesThresholds()
    ensures var a := Arc(0, 1, 0, "a0", 0, 1, 1, [1], [2], [], [], [3], []);
      GcdDividesEntries(a) && !GcdDividesEntries(WithProdList(PCG, a, [2]))
  {
    var a := Arc(0, 1, 0, "a0", 0, 1, 1, [1], [2], [], [], [3], []);
    assert GcdDividesEntries(a) by {
      DividesIntro(1, 1, 1);
      DividesIntro(1, 2, 2);
      DividesIntro(1, 3, 3);
    }
    calc {
      WithProdList(PCG, a, [2]).gcd;
      Euclid(GcdReduce([2]), GcdReduce([2]));
      Euclid(2, 2);
      { EuclidSelf(2); }
      2;
    }
    var b := WithProdList(PCG, a, [2]);
    assert b.thr[0] == 3 && !Divides(2, 3);
    assert !DividesAll(b.gcd, b.thr);
  }

  /** With the PCG recomputation after it, the production setter keeps the gcd a divisor of every entry. */
  lemma ProdSetterCorrectedKeepsGcd(k: Kind, a: Arc, l: seq<int>)
    requires |l| > 0 && |a.cons| > 0
    ensures DividesAll(WithProdListCorrected(k, a, l).gcd, l)
    ensures DividesAll(WithProdListCorrected(k, a, l).gcd, a.cons)
    ensures IsPcg(k) ==> GcdDividesEntries(WithProdListCorrected(k, a, l))
  {
    CsdfGcdIsGcd(a.cons, l);
    var p := CsdfWithProd(a, l);
    if IsPcg(k) {
      PcgRegcdDividesEntries(p);
    }
  }

  // ---------------------------------------------------------------------
  // Incident arcs

  /** The source and target task of an arc, all that incidence depends on. */
  datatype Ends = Ends(src: nat, tgt: nat)

  /** The ends of every arc, in arc order. */
  function EndsOf(arcs: seq<Arc>): (r: seq<Ends>)
    ensures |r| == |arcs| && forall i :: 0 <= i < |arcs| ==> r[i] == Ends(arcs[i].src, arcs[i].tgt)
  {
    seq(|arcs|, i requires 0 <= i < |arcs| => Ends(arcs[i].src, arcs[i].tgt))
  }

  /** Indices of the first `n` arcs that leave `t`, in order. */
  function OutArcsTo(es: seq<Ends>, t: nat, n: nat): (r: seq<nat>)
    requires n <= |es|
    ensures forall k :: 0 <= k < |r| ==> r[k] < n && es[r[k]].src == t
  {
    if n == 0 then [] else OutArcsTo(es, t, n - 1) + (if es[n - 1].src == t then [n - 1] else [])
  }

  /** Indices of the first `n` arcs that enter `t`, in order. */
  function InArcsTo(es: seq<Ends>, t: nat, n: nat): (r: seq<nat>)
    requires n <= |es|
    ensures forall k :: 0 <= k < |r| ==> r[k] < n && es[r[k]].tgt == t
  {
    if n == 0 then [] else InArcsTo(es, t, n - 1) + (if es[n - 1].tgt == t then [n - 1] else [])
  }

  /** Indices of the arcs leaving `t`, in order. */
  function OutArcs(arcs: seq<Arc>, t: nat): (r: seq<nat>)
    ensures forall k :: 0 <= k < |r| ==> r[k] < |arcs| && arcs[r[k]].src == t
  {
    OutArcsTo(EndsOf(arcs), t, |arcs|)
  }

  /** Indices of the arcs entering `t`, in order. */
  function InArcs(arcs: seq<Arc>, t: nat): (r: seq<nat>)
    ensures forall k :: 0 <= k < |r| ==> r[k] < |arcs| && arcs[r[k]].tgt == t
  {
    InArcsTo(EndsOf(arcs), t, |arcs|)
  }

  lemma {:induction false} OutArcsToComplete(es: seq<Ends>, t: nat, n: nat)
    requires n <= |es|
    ensures forall i :: 0 <= i < n && es[i].src == t ==> i in OutArcsTo(es, t, n)
  {
    if n > 0 {
      OutArcsToComplete(es, t, n - 1);
    }
  }

  lemma {:induction false} InArcsToComplete(es: seq<Ends>, t: nat, n: nat)
    requires n <= |es|
    ensures forall i :: 0 <= i < n && es[i].tgt == t ==> i in InArcsTo(es, t, n)
  {
    if n > 0 {
      InArcsToComplete(es, t, n - 1);
    }
  }

  /** Every arc leaving `t` is listed. */
  lemma OutArcsComplete(arcs: seq<Arc>, t: nat)
    ensures forall i :: 0 <= i < |arcs| && arcs[i].src == t ==> i in OutArcs(arcs, t)
  {
    OutArcsToComplete(EndsOf(arcs), t, |arcs|);
  }

  /** Every arc entering `t` is listed. */
  lemma InArcsComplete(arcs: seq<Arc>, t: nat)
    ensures forall i :: 0 <= i < |arcs| && arcs[i].tgt == t ==> i in InArcs(arcs, t)
  {
    InArcsToComplete(EndsOf(arcs), t, |arcs|);
  }

  /** The number of arcs from `s` to `t` (`len(get_arc_list(source=s, target=t))`). */
  function ParallelCount(arcs: seq<Arc>, s: nat, t: nat): nat
    decreases |arcs|
  {
    if |arcs| == 0 then 0
    else ParallelCount(arcs[..|arcs| - 1], s, t) + (if arcs[|arcs| - 1].src == s && arcs[|arcs| - 1].tgt == t then 1 else 0)
  }

  /** An arc from `s` to `t` is counted among the parallel arcs of that pair. */
  lemma {:induction false} ParallelCountPositive(arcs: seq<Arc>, i: nat)
    requires i < |arcs|
    ensures ParallelCount(arcs, arcs[i].src, arcs[i].tgt) >= 1
    decreases |arcs|
  {
    if i < |arcs| - 1 {
      ParallelCountPositive(arcs[..|arcs| - 1], i);
    }
  }

  /** Two distinct arcs on one pair make the count exceed one, and conversely. */
  lemma {:induction false} ParallelCountTwo(arcs: seq<Arc>, s: nat, t: nat)
    ensures ParallelCount(arcs, s, t) > 1 <==>
      exists i, j :: 0 <= i < j < |arcs| && arcs[i].src == s == arcs[j].src && arcs[i].tgt == t == arcs[j].tgt
    decreases |arcs|
  {
    if |arcs| > 0 {
      var front := arcs[..|arcs| - 1];
      var n := |arcs| - 1;
      ParallelCountTwo(front, s, t);
      if arcs[n].src == s && arcs[n].tgt == t {
        if ParallelCount(front, s, t) >= 1 {
          var i := ParallelCountWitness(front, s, t);
          assert arcs[i] == front[i];
          assert 0 <= i < n < |arcs| && arcs[i].src == s == arcs[n].src && arcs[i].tgt == t == arcs[n].tgt;
        } else {
          assert ParallelCount(front, s, t) == 0;
          forall i, j | 0 <= i < j < |arcs| && arcs[i].src == s == arcs[j].src && arcs[i].tgt == t == arcs[j].tgt
            ensures false
          {
            assert arcs[i] == front[i];
            ParallelCountPositive(front, i);
          }
        }
      } else {
        forall i, j | 0 <= i < j < |arcs| && arcs[i].src == s == arcs[j].src && arcs[i].tgt == t == arcs[j].tgt
          ensures j < n
        {
        }
        assert forall i, j :: 0 <= i < j < n ==> arcs[i] == front[i] && arcs[j] == front[j];
      }
    }
  }

  lemma {:induction false} ParallelCountWitness(arcs: seq<Arc>, s: nat, t: nat) returns (i: nat)
    requires ParallelCount(arcs, s, t) >= 1
    ensures i < |arcs| && arcs[i].src == s && arcs[i].tgt == t
    decreases |arcs|
  {
    var n := |arcs| - 1;
    if arcs[n].src == s && arcs[n].tgt == t {
      i := n;
    } else {
      i := ParallelCountWitness(arcs[..n], s, t);
    }
  }

  // ---------------------------------------------------------------------
  // Graph properties

  predicate IsArcReentrant(a: Arc) { a.src == a.tgt }

  /** `is_reentrant`: some arc is a self-loop. */
  predicate IsReentrant(g: Graph) {
    exists i :: 0 <= i < |g.arcs| && IsArcReentrant(g.arcs[i])
  }

  /** `is_multi_graph`: some pair of tasks is joined by two arcs in the same direction. */
  predicate IsMultiGraph(g: Graph) {
    exists i :: 0 <= i < |g.arcs| && ParallelCount(g.arcs, g.arcs[i].src, g.arcs[i].tgt) > 1
  }

  /** `is_bounded`: no arc is the only one on its pair while no arc goes back (and the mirror test). */
  predicate ArcBounded(arcs: seq<Arc>, i: nat)
    requires i < |arcs|
  {
    var l1 := ParallelCount(arcs, arcs[i].src, arcs[i].tgt);
    var l2 := ParallelCount(arcs, arcs[i].tgt, arcs[i].src);
    !(l1 == 1 && l2 == 0) && !(l2 == 1 && l1 == 0)
  }

  predicate IsBounded(g: Graph) {
    forall i :: 0 <= i < |g.arcs| ==> ArcBounded(g.arcs, i)
  }

  /** Tasks reached from the tasks of `from` by following between 1 and `k` arcs. */
  function Reach(arcs: seq<Arc>, from: set<nat>, k: nat): set<nat>
    decreases k
  {
    if k == 0 then {}
    else
      var step := set i | 0 <= i < |arcs| && arcs[i].src in from :: arcs[i].tgt;
      step + Reach(arcs, step, k - 1)
  }

  /** The acyclicity test `networkx` provides: no task reaches itself in at most `|tasks|` arcs. */
  predicate HasCycle(g: Graph) {
    exists t :: 0 <= t < |g.tasks| && t in Reach(g.arcs, {t}, |g.tasks|)
  }

  /** `is_cyclic`: reentrant, or not a directed acyclic graph. */
  predicate IsCyclic(g: Graph) { IsReentrant(g) || HasCycle(g) }

  /** A self-loop on a task of the graph is also a cycle in the sense of the acyclicity test. */
  lemma SelfLoopIsCycle(g: Graph, i: nat)
    requires i < |g.arcs| && EndpointsOk(g) && IsArcReentrant(g.arcs[i])
    ensures HasCycle(g)
  {
    var t := g.arcs[i].src;
    assert t in Reach(g.arcs, {t}, |g.tasks|);
  }

  /**
   * The reentrant test of `is_cyclic` adds nothing to the acyclicity test:
   * on a graph whose arcs join its tasks, `is_cyclic` holds exactly when
   * some task reaches itself.
   */
  lemma CyclicIffCycle(g: Graph)
    requires EndpointsOk(g)
    ensures IsCyclic(g) <==> HasCycle(g)
  {
    if IsReentrant(g) {
      var i :| 0 <= i < |g.arcs| && IsArcReentrant(g.arcs[i]);
      SelfLoopIsCycle(g, i);
    }
  }

  /** The total initial marking. */
  function TotalMarking(arcs: seq<Arc>): int
    decreases |arcs|
  {
    if |arcs| == 0 then 0 else TotalMarking(arcs[..|arcs| - 1]) + arcs[|arcs| - 1].m0
  }

  // ---------------------------------------------------------------------
  // Normalization and consistency

  /** The rate of an arc on its production (resp. consumption) side: the scalar, or the sum of the cyclic list. */
  function ProdWeight(a: Arc): int { Sum(a.prod) }
  function ConsWeight(a: Arc): int { Sum(a.cons) }

  /** The rates a task sees on its arcs: production on leaving arcs, then consumption on entering ones. */
  function SideRates(arcs: seq<Arc>, t: nat): seq<int> {
    var outs := OutArcs(arcs, t);
    var ins := InArcs(arcs, t);
    seq(|outs|, k requires 0 <= k < |outs| => ProdWeight(arcs[outs[k]])) +
    seq(|ins|, k requires 0 <= k < |ins| => ConsWeight(arcs[ins[k]]))
  }

  predicate AllEqual(s: seq<int>) { forall i :: 0 <= i < |s| ==> s[i] == s[0] }

  /**
   * `is_normalized`, task by task from `t`: a task without arcs makes the
   * source's `[0]` raise `IndexError`; a task whose rates differ answers false.
   */
  function NormalizedFrom(g: Graph, t: nat): Result<bool>
    decreases |g.tasks| - t
  {
    if t >= |g.tasks| then Ok(true)
    else
      var rates := SideRates(g.arcs, t);
      if |rates| == 0 then Err(IndexError)
      else if !AllEqual(rates) then Ok(false)
      else NormalizedFrom(g, t + 1)
  }

  function IsNormalized(g: Graph): Result<bool> { NormalizedFrom(g, 0) }

  /** No task is isolated. */
  predicate NoIsolatedTask(g: Graph) {
    forall t :: 0 <= t < |g.tasks| ==> |SideRates(g.arcs, t)| > 0
  }

  /** Without isolated tasks, `is_normalized` answers, and it answers true iff each task sees one rate on all its arcs. */
  lemma {:induction false} IsNormalizedMeaning(g: Graph, t: nat)
    requires NoIsolatedTask(g)
    ensures NormalizedFrom(g, t).Ok?
    ensures NormalizedFrom(g, t).value <==> forall u :: t <= u < |g.tasks| ==> AllEqual(SideRates(g.arcs, u))
    decreases |g.tasks| - t
  {
    if t < |g.tasks| {
      IsNormalizedMeaning(g, t + 1);
    }
  }

  /** The consistency test as intended: `sum(prod) * RV(src) == sum(cons) * RV(tgt)` on every arc. */
  predicate ArcConsistent(g: Graph, i: nat)
    requires i < |g.arcs| && EndpointsOk(g)
  {
    ProdWeight(g.arcs[i]) * g.tasks[g.arcs[i].src].rf == ConsWeight(g.arcs[i]) * g.tasks[g.arcs[i].tgt].rf
  }

  function IsConsistent(g: Graph): (r: bool)
    requires EndpointsOk(g)
    ensures r <==> forall i :: 0 <= i < |g.arcs| ==> ArcConsistent(g, i)
  {
    forall i :: 0 <= i < |g.arcs| ==> ArcConsistent(g, i)
  }

  /**
   * `is_consistent` as written: the SDF class applies `sum` to an int rate,
   * which raises `TypeError` as soon as there is an arc; the CSDF and PCG
   * classes define no such property (`AttributeError`).
   */
  function IsConsistentAsWritten(g: Graph): Result<bool> {
    if !IsSdf(g.kind) then Err(AttributeError)
    else if |g.arcs| == 0 then Ok(true)
    else Err(TypeError)
  }

  /** The written test never answers on an SDF graph with an arc, although the intended one always does. */
  lemma IsConsistentAsWrittenRaises(g: Graph)
    requires EndpointsOk(g) && |g.arcs| > 0
    ensures IsConsistentAsWritten(g).Err?
  {
  }
}
