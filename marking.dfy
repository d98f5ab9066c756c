// `compute_initial_marking`: the graph is normalized when it is not, every
// marking is cleared and a solver is chosen by name (for "Auto", by
// comparing estimates of the row counts of the two linear programs); the
// solver sizes the markings, every self-loop then takes a closed-form
// marking and the graph is un-normalized with the vector normalization
// returned.
module MarkingComputation {
  import opened Outcomes
  import opened Fractions
  import opened Graph
  import opened Dataflow
  import opened PhaseWeights
  import opened Rounding
  import opened Normalization
  import opened NormalizeOps
  import Sc1 = SolveSc1
  import Sc2 = SolveSc2

  // ---------------------------------------------------------------------
  // `__cs2_row_count`

  /**
   * What `__cs2_row_count` adds for task `t` as written: its in-arcs less
   * its self-loops, times all its out-arcs, less its self-loops.
   */
  function Cs2TaskAsWritten(es: seq<Ends>, t: nat): int {
    var ins, outs := InArcsTo(es, t, |es|), OutArcsTo(es, t, |es|);
    var re := Sc2.Loops(es, ins);
    (|ins| - re) * |outs| - re
  }

  function Cs2PairsAsWritten(es: seq<Ends>, m: nat): int {
    if m == 0 then 0 else Cs2PairsAsWritten(es, m - 1) + Cs2TaskAsWritten(es, m - 1)
  }

  /** `__cs2_row_count` as written: a row per arc that is not a self-loop, and the task terms. */
  function Cs2RowCountAsWritten(g: Graph): int {
    var es := EndsOf(g.arcs);
    |g.arcs| - Sc2.LoopsUpTo(es, |g.tasks|, |g.arcs|) + Cs2PairsAsWritten(es, |g.tasks|)
  }

  /** The loop of `__cs2_row_count` as written. */
  method Cs2RowCountScan(g: Graph) returns (n: int)
    ensures n == Cs2RowCountAsWritten(g)
  {
    ghost var es := EndsOf(g.arcs);
    var fRowCount := |g.arcs|;
    var rowCount := 0;
    for t := 0 to |g.tasks|
      invariant fRowCount == |g.arcs| - Sc2.LoopsUpTo(es, t, |g.arcs|)
      invariant rowCount == Cs2PairsAsWritten(es, t)
    {
      var ins := InArcs(g.arcs, t);
      var re := Sc2.CountLoops(g.arcs, ins);
      Sc2.LoopsInArcs(es, t, |es|);
      fRowCount := fRowCount - re;
      rowCount := rowCount + (|ins| - re) * |OutArcs(g.arcs, t)|;
      rowCount := rowCount - re;
    }
    n := rowCount + fRowCount;
  }

  /**
   * The count `__cs2_row_count` stands for: the rows `SolverSC2` makes,
   * a step row per arc that is not a self-loop and a pair row per in-arc
   * and out-arc of a task, self-loops left out on both sides.
   */
  method Cs2RowCount(g: Graph) returns (n: int)
    requires Shaped(g)
    ensures n == |Sc2.Rows(g)|
  {
    var f, r := Sc2.CountRows(g);
    Sc2.AllPairsCount(EndsOf(g.arcs), |g.tasks|);
    n := r + f;
  }

  lemma {:induction false} NoSelfLoops(es: seq<Ends>, t: nat, n: nat)
    requires n <= |es| && forall i :: 0 <= i < |es| ==> !Sc2.IsLoop(es[i])
    ensures Sc2.SelfLoops(es, t, n) == 0
  {
    if n > 0 {
      NoSelfLoops(es, t, n - 1);
    }
  }

  lemma {:induction false} NoLoopsAtAll(es: seq<Ends>, m: nat)
    requires forall i :: 0 <= i < |es| ==> !Sc2.IsLoop(es[i])
    ensures Sc2.LoopsUpTo(es, m, |es|) == 0
  {
    if m > 0 {
      NoLoopsAtAll(es, m - 1);
      NoSelfLoops(es, m - 1, |es|);
    }
  }

  lemma {:induction false} PairsWithoutLoops(es: seq<Ends>, m: nat)
    requires forall i :: 0 <= i < |es| ==> !Sc2.IsLoop(es[i])
    ensures Cs2PairsAsWritten(es, m) == Sc2.PairCount(es, m)
  {
    if m > 0 {
      PairsWithoutLoops(es, m - 1);
      var t := m - 1;
      var re := Sc2.Loops(es, InArcsTo(es, t, |es|));
      Sc2.CountStep(es, t, re);
      NoSelfLoops(es, t, |es|);
      Sc2.RectIsProduct(|InArcsTo(es, t, |es|)|, |OutArcsTo(es, t, |es|)|);
    }
  }

  /** On a graph without self-loops the estimate as written is the row count of `SolverSC2`. */
  lemma Cs2AsWrittenWithoutLoops(g: Graph)
    requires Shaped(g) && forall i :: 0 <= i < |g.arcs| ==> !IsArcReentrant(g.arcs[i])
    ensures Cs2RowCountAsWritten(g) == |Sc2.Rows(g)|
  {
    var es := EndsOf(g.arcs);
    forall i | 0 <= i < |es|
      ensures !Sc2.IsLoop(es[i])
    {
      Sc2.LoopIsReentrant(g.arcs, i);
    }
    NoLoopsAtAll(es, |g.tasks|);
    PairsWithoutLoops(es, |g.tasks|);
    Sc2.LoopsByTask(es, |g.tasks|, |g.arcs|);
    Sc2.AllPairsCount(es, |g.tasks|);
  }

  /**
   * A task with in-arcs from two other tasks, a self-loop and an out-arc
   * to a fourth task: the estimate as written counts three pair rows for
   * it, `SolverSC2` makes two (each outside in-arc with the out-arc).
   */
  lemma Cs2TaskAsWrittenOvercounts()
    ensures var es := [Ends(0, 1), Ends(2, 1), Ends(1, 1), Ends(1, 3)];
      Cs2TaskAsWritten(es, 1) == 3 && Sc2.TaskPairs(es, 1) == 2 && |Sc2.TaskPairList(es, 1)| == 2
  {
    var es := [Ends(0, 1), Ends(2, 1), Ends(1, 1), Ends(1, 3)];
    assert InArcsTo(es, 1, |es|) == [0, 1, 2];
    assert OutArcsTo(es, 1, |es|) == [2, 3];
    var ins := [0, 1, 2];
    assert ins[..2] == [0, 1] && ins[..1] == [0] && ins[..0] == [];
    assert Sc2.Loops(es, ins) == 1;
    var outs := [2, 3];
    assert outs[..1] == [2] && outs[..0] == [];
    assert Sc2.Loops(es, outs) == 1;
    assert Sc2.Rect(2, 1) == 2 by {
      Sc2.RectIsProduct(2, 1);
    }
    Sc2.TaskPairCount(es, 1);
  }

  // ---------------------------------------------------------------------
  // `__sc1_row_count`

  /**
   * What `__sc1_row_count` adds for arc `i` as written: nothing for a
   * self-loop; otherwise one row on SDF, the product of the phase counts on
   * CSDF, and on PCG (which also passes the CSDF test) that product and
   * the product of the phase counts with the initial phases.
   */
  function Sc1ArcAsWritten(g: Graph, i: nat): int
    requires EndpointsOk(g) && i < |g.arcs|
  {
    var a := g.arcs[i];
    if IsArcReentrant(a) then 0
    else
      (if IsSdf(g.kind) then 1 else 0) +
      (if IsCsdf(g.kind) then PhaseCount(g, a.src) * PhaseCount(g, a.tgt) else 0) +
      (if IsPcg(g.kind)
       then (PhaseCount(g, a.src) + IniPhaseCount(g, a.src)) * (PhaseCount(g, a.tgt) + IniPhaseCount(g, a.tgt))
       else 0)
  }

  /** `__sc1_row_count` as written, over the first `n` arcs. */
  function Sc1CountAsWritten(g: Graph, n: nat): int
    requires EndpointsOk(g) && n <= |g.arcs|
  {
    if n == 0 then 0 else Sc1CountAsWritten(g, n - 1) + Sc1ArcAsWritten(g, n - 1)
  }

  /** The loop of `__sc1_row_count` as written. */
  method Sc1RowCountScan(g: Graph) returns (n: int)
    requires EndpointsOk(g)
    ensures n == Sc1CountAsWritten(g, |g.arcs|)
  {
    n := 0;
    for i := 0 to |g.arcs|
      invariant n == Sc1CountAsWritten(g, i)
    {
      var a := g.arcs[i];
      if !IsArcReentrant(a) {
        if IsSdf(g.kind) {
          n := n + 1;
        }
        if IsCsdf(g.kind) {
          n := n + PhaseCount(g, a.src) * PhaseCount(g, a.tgt);
        }
        if IsPcg(g.kind) {
          var sourcePhases := PhaseCount(g, a.src) + IniPhaseCount(g, a.src);
          var targetPhases := PhaseCount(g, a.tgt) + IniPhaseCount(g, a.tgt);
          n := n + sourcePhases * targetPhases;
        }
      }
    }
  }

  /** The phase rows `SolverSC1` makes for the first `n` arcs, from the phase counts. */
  function Sc1Count(g: Graph, n: nat): int
    requires EndpointsOk(g) && n <= |g.arcs|
  {
    if n == 0 then 0
    else
      Sc1Count(g, n - 1) +
      (if IsArcReentrant(g.arcs[n - 1]) then 0 else PhaseRange(g, g.arcs[n - 1].src) * PhaseRange(g, g.arcs[n - 1].tgt))
  }

  /** Each arc that is not a self-loop gives `SolverSC1` a row per pair of phases of its endpoints. */
  lemma {:induction false} Sc1CountIsRows(g: Graph, n: nat)
    requires Shaped(g) && n <= |g.arcs|
    ensures Sc1Count(g, n) == |Sc1.PhaseRows(g, n)|
  {
    if n > 0 {
      Sc1CountIsRows(g, n - 1);
    }
  }

  /**
   * The count `__sc1_row_count` stands for: the phase rows of `SolverSC1`
   * (its step rows are not part of the estimate).
   */
  method Sc1RowCount(g: Graph) returns (n: int)
    requires Shaped(g)
    ensures n == |Sc1.PhaseRows(g, |g.arcs|)|
  {
    var f, r := Sc1.CountRows(g);
    n := r;
  }

  /** Outside PCG the estimate as written is the phase-row count of `SolverSC1`. */
  lemma {:induction false} Sc1AsWrittenOutsidePcg(g: Graph, n: nat)
    requires Shaped(g) && !IsPcg(g.kind) && n <= |g.arcs|
    ensures Sc1CountAsWritten(g, n) == |Sc1.PhaseRows(g, n)|
  {
    if n > 0 {
      Sc1AsWrittenOutsidePcg(g, n - 1);
      Sc1ArcOutsidePcg(g, n - 1);
      assert |Sc1.PhaseRows(g, n)| == Sc1Count(g, n) by {
        Sc1CountIsRows(g, n);
        Sc1CountIsRows(g, n - 1);
      }
    } else {
      Sc1CountIsRows(g, 0);
    }
  }

  /** Outside PCG an arc's term as written is its phase-pair count, nothing for a self-loop. */
  lemma Sc1ArcOutsidePcg(g: Graph, i: nat)
    requires Shaped(g) && !IsPcg(g.kind) && i < |g.arcs|
    ensures Sc1ArcAsWritten(g, i) ==
      (if IsArcReentrant(g.arcs[i]) then 0 else PhaseRange(g, g.arcs[i].src) * PhaseRange(g, g.arcs[i].tgt))
  {
    var a := g.arcs[i];
    if IsSdf(g.kind) {
      assert PhaseRange(g, a.src) == 1 && PhaseRange(g, a.tgt) == 1;
    }
  }

  /**
   * On a PCG every arc that is not a self-loop is counted twice as
   * written: once by the CSDF test, with the cyclic phases only, and once
   * by the PCG test; the rows `SolverSC1` makes for it are the second term.
   */
  lemma Sc1AsWrittenPcgArc(g: Graph, i: nat)
    requires Shaped(g) && IsPcg(g.kind) && i < |g.arcs| && !IsArcReentrant(g.arcs[i])
    ensures var a := g.arcs[i];
      Sc1ArcAsWritten(g, i) == PhaseCount(g, a.src) * PhaseCount(g, a.tgt) + PhaseRange(g, a.src) * PhaseRange(g, a.tgt)
    ensures Sc1ArcAsWritten(g, i) > PhaseRange(g, g.arcs[i].src) * PhaseRange(g, g.arcs[i].tgt)
  {
    var a := g.arcs[i];
    assert PhaseCount(g, a.src) >= 1 && PhaseCount(g, a.tgt) >= 1;
  }

  // ---------------------------------------------------------------------
  // Both counts read the kind, the tasks and the ends of the arcs only

  /** `h` is `g` with the same kind, tasks and arc ends, and lists that fit it. */
  predicate SameFrame(g: Graph, h: Graph) {
    h.kind == g.kind && h.tasks == g.tasks && EndsOf(h.arcs) == EndsOf(g.arcs)
  }

  lemma {:induction false} Sc1CountKept(g: Graph, h: Graph, n: nat)
    requires EndpointsOk(g) && EndpointsOk(h) && SameFrame(g, h) && n <= |g.arcs|
    ensures Sc1Count(h, n) == Sc1Count(g, n)
  {
    if n > 0 {
      Sc1CountKept(g, h, n - 1);
      assert EndsOf(h.arcs)[n - 1] == EndsOf(g.arcs)[n - 1];
    }
  }

  /** The row counts of both linear programs are those of any graph with the same frame. */
  lemma CountsKept(g: Graph, h: Graph)
    requires Shaped(g) && Shaped(h) && SameFrame(g, h)
    ensures |Sc2.Rows(h)| == |Sc2.Rows(g)|
    ensures |Sc1.PhaseRows(h, |h.arcs|)| == |Sc1.PhaseRows(g, |g.arcs|)|
  {
    assert |h.arcs| == |EndsOf(h.arcs)| == |g.arcs|;
    Sc1CountKept(g, h, |g.arcs|);
    Sc1CountIsRows(g, |g.arcs|);
    Sc1CountIsRows(h, |h.arcs|);
  }

  // ---------------------------------------------------------------------
  // The choice of solver

  /** The solvers `compute_initial_marking` can call: the linear programs, their period (Kc) and MIP variants. */
  datatype Choice = Sc1Lp | Sc1Kc | Sc2Lp | Sc1Mip | Sc1MipKc | Sc2Mip

  /** The solver names the dispatch knows. */
  predicate Known(name: string) {
    name == "None" || name == "Auto" || name == "SC2" || name == "SC1" || name == "SC1_MIP" || name == "SC2_MIP"
  }

  /**
   * The dispatch of `compute_initial_marking` on the solver name (absent
   * for Python's `None`), whether a period is given, and the row counts
   * of the two linear programs.
   */
  function Choose(name: Option<string>, hasPeriod: bool, sc2Rows: int, sc1Rows: int): (r: Result<Option<Choice>>)
    ensures r == Ok(None) <==> name == None || name == Some("None")
    ensures r.Err? <==> name.Some? && (!Known(name.value) || (name.value == "SC2_MIP" && hasPeriod))
    ensures r.Err? ==> r.error == RuntimeError
    ensures r.Ok? && r.value.Some? && hasPeriod ==> r.value.value != Sc1Lp && r.value.value != Sc1Mip
    ensures name == Some("Auto") && hasPeriod ==> r == Ok(Some(Sc1Kc))
    ensures name == Some("Auto") && !hasPeriod ==>
      r == Ok(Some(if sc2Rows < sc1Rows then Sc2Lp else Sc1Lp))
  {
    match name
    case None => Ok(None)
    case Some(s) =>
      if s == "None" then Ok(None)
      else if s == "Auto" then
        if hasPeriod then Ok(Some(Sc1Kc))
        else if sc2Rows < sc1Rows then Ok(Some(Sc2Lp))
        else Ok(Some(Sc1Lp))
      else if s == "SC2" then Ok(Some(Sc2Lp))
      else if s == "SC1" then Ok(Some(if hasPeriod then Sc1Kc else Sc1Lp))
      else if s == "SC1_MIP" then Ok(Some(if hasPeriod then Sc1MipKc else Sc1Mip))
      else if s == "SC2_MIP" then (if hasPeriod then Err(RuntimeError) else Ok(Some(Sc2Mip)))
      else Err(RuntimeError)
  }

  // ---------------------------------------------------------------------
  // `__calc_reentrant`

  /**
   * The marking `__calc_reentrant` gives self-loop `i`: the least value at
   * or above its first consumption and the need of every phase of its task
   * (after as many completed phases), which is one of them.
   */
  function ReentrantMarking(g: Graph, i: nat): int
    requires Shaped(g) && i < |g.arcs| && IsArcReentrant(g.arcs[i])
  {
    ArcListsFit(g, i);
    var l := ArcLists(g.kind, g.arcs[i]);
    RunningMax(l, IsPcg(g.kind), l.cons[0], PhaseRange(g, g.arcs[i].tgt))
  }

  /**
   * The marking of a self-loop is the least value at or above its first
   * consumption and the need of every phase of its task (after as many
   * completed phases), and it is one of them.
   */
  lemma ReentrantMarkingIsMax(g: Graph, i: nat)
    requires Shaped(g) && i < |g.arcs| && IsArcReentrant(g.arcs[i])
    ensures var l := ArcLists(g.kind, g.arcs[i]); var n := PhaseRange(g, g.arcs[i].tgt); var m := ReentrantMarking(g, i);
      n >= 1 && Fits(l, IsPcg(g.kind), n) &&
      m >= l.cons[0] && (forall p :: 0 <= p < n ==> m >= Need(l, IsPcg(g.kind), p, p)) &&
      (m == l.cons[0] || exists p :: 0 <= p < n && m == Need(l, IsPcg(g.kind), p, p))
  {
    ArcListsFit(g, i);
    var l := ArcLists(g.kind, g.arcs[i]);
    RunningMaxIsMax(l, IsPcg(g.kind), l.cons[0], PhaseRange(g, g.arcs[i].tgt));
  }

  /** What one self-loop adds to `m0_tot`: the maximum so far, after each of its `n` phases. */
  function PrefixMaxTotal(l: Lists, pcg: bool, init: int, n: nat): int
    requires Fits(l, pcg, n)
  {
    if n == 0 then 0 else PrefixMaxTotal(l, pcg, init, n - 1) + RunningMax(l, pcg, init, n)
  }

  /**
   * From a first consumption that is not negative, every term of the
   * total is at least the first consumption, and the total is at least
   * the marking the self-loop ends with.
   */
  lemma {:induction false} PrefixMaxTotalBound(l: Lists, pcg: bool, init: int, n: nat)
    requires Fits(l, pcg, n) && init >= 0
    ensures PrefixMaxTotal(l, pcg, init, n) >= 0
    ensures PrefixMaxTotal(l, pcg, init, n) >= RunningMax(l, pcg, init, n) || n == 0
  {
    if n > 0 {
      PrefixMaxTotalBound(l, pcg, init, n - 1);
      RunningMaxIsMax(l, pcg, init, n);
    }
  }

  /** One more phase: the maximum takes in the need of the phase, and the total the new maximum. */
  lemma TotalStep(l: Lists, pcg: bool, init: int, k: nat)
    requires Fits(l, pcg, k + 1)
    ensures var m := RunningMax(l, pcg, init, k); var w := Need(l, pcg, k, k);
      RunningMax(l, pcg, init, k + 1) == (if m < w then w else m) &&
      PrefixMaxTotal(l, pcg, init, k + 1) == PrefixMaxTotal(l, pcg, init, k) + RunningMax(l, pcg, init, k + 1)
  {
  }

  /** `m0_tot` over the first `n` arcs. */
  function ReentrantTotal(g: Graph, n: nat): int
    requires Shaped(g) && n <= |g.arcs|
  {
    if n == 0 then 0
    else if IsArcReentrant(g.arcs[n - 1]) then
      ArcListsFit(g, n - 1);
      var l := ArcLists(g.kind, g.arcs[n - 1]);
      ReentrantTotal(g, n - 1) + PrefixMaxTotal(l, IsPcg(g.kind), l.cons[0], PhaseRange(g, g.arcs[n - 1].tgt))
    else ReentrantTotal(g, n - 1)
  }

  /**
   * The phase loop of `__calc_reentrant` for one self-loop: the maximum
   * so far after the last phase, and the sum of the maxima after each.
   */
  method WalkReentrant(l: Lists, pcg: bool, init: int, n: nat) returns (retMax: int, tot: int)
    requires Fits(l, pcg, n)
    ensures retMax == RunningMax(l, pcg, init, n)
    ensures tot == PrefixMaxTotal(l, pcg, init, n)
  {
    retMax := init;
    tot := 0;
    var predOut, predIn, inV := 0, 0, 0;
    for phase := 0 to n
      invariant Running(l, phase, predOut, predIn, inV)
      invariant retMax == RunningMax(l, pcg, init, phase)
      invariant tot == PrefixMaxTotal(l, pcg, init, phase)
    {
      RunningStep(l, pcg, phase, predOut, predIn, inV);
      TotalStep(l, pcg, init, phase);
      if phase > 0 {
        predOut := predOut + l.prod[phase - 1];
        predIn := predIn + l.cons[phase - 1];
      }
      inV := inV + l.cons[phase];
      var w := inV - predOut;
      if pcg {
        w := w + predIn + l.thr[phase] - inV;
      }
      if retMax < w {
        retMax := w;
      }
      tot := tot + retMax;
    }
  }

  /** `h` is `g` with some markings changed and nothing else. */
  predicate SameButMarkings(g: Graph, h: Graph) {
    h.kind == g.kind && h.tasks == g.tasks && |h.arcs| == |g.arcs| &&
    forall i :: 0 <= i < |g.arcs| ==> h.arcs[i] == g.arcs[i].(m0 := h.arcs[i].m0)
  }

  /** Markings are not part of the shape, nor of what the self-loop markings read. */
  lemma MarkingsKeepShape(g: Graph, h: Graph)
    requires Shaped(g) && SameButMarkings(g, h)
    ensures Shaped(h) && SameFrame(g, h)
    ensures forall i :: 0 <= i < |h.arcs| && IsArcReentrant(h.arcs[i]) ==> ReentrantMarking(h, i) == ReentrantMarking(g, i)
  {
    forall i | 0 <= i < |g.arcs|
      ensures h.arcs[i].src == g.arcs[i].src && h.arcs[i].tgt == g.arcs[i].tgt
      ensures ArcLists(h.kind, h.arcs[i]) == ArcLists(g.kind, g.arcs[i])
    {
      assert h.arcs[i] == g.arcs[i].(m0 := h.arcs[i].m0);
    }
    assert forall t :: 0 <= t < |g.tasks| ==> PhaseCount(h, t) == PhaseCount(g, t) && IniPhaseCount(h, t) == IniPhaseCount(g, t);
  }

  lemma {:induction false} ReentrantTotalKept(g: Graph, h: Graph, n: nat)
    requires Shaped(g) && Shaped(h) && SameButMarkings(g, h) && n <= |g.arcs|
    ensures ReentrantTotal(h, n) == ReentrantTotal(g, n)
  {
    if n > 0 {
      ReentrantTotalKept(g, h, n - 1);
      assert h.arcs[n - 1] == g.arcs[n - 1].(m0 := h.arcs[n - 1].m0);
      assert ArcLists(h.kind, h.arcs[n - 1]) == ArcLists(g.kind, g.arcs[n - 1]);
      assert PhaseRange(h, h.arcs[n - 1].tgt) == PhaseRange(g, g.arcs[n - 1].tgt);
    }
  }

  /** Arc `i` after `__calc_reentrant`: a self-loop takes its closed-form marking, the other arcs are kept. */
  function AfterReentrant(g: Graph, i: nat): Arc
    requires Shaped(g) && i < |g.arcs|
  {
    if IsArcReentrant(g.arcs[i]) then g.arcs[i].(m0 := ReentrantMarking(g, i)) else g.arcs[i]
  }

  /**
   * `__calc_reentrant`: every self-loop takes its closed-form marking and
   * nothing else changes; the total returned adds, for every self-loop,
   * the marking set after each of its phases.
   */
  method CalcReentrant(dg: DataflowGraph) returns (m0Tot: int)
    requires dg.Valid() && Shaped(dg.Value())
    modifies dg
    ensures dg.Valid() && dg.tasks == old(dg.tasks) && ReentrantUpTo(old(dg.Value()), dg.arcs, |dg.arcs|)
    ensures m0Tot == ReentrantTotal(old(dg.Value()), |dg.arcs|)
  {
    m0Tot := MarkAll(dg, dg.Value());
  }

  /** The arc loop of `__calc_reentrant`, from the graph `g` it starts on. */
  method MarkAll(dg: DataflowGraph, ghost g: Graph) returns (m0Tot: int)
    requires Shaped(g) && dg.Valid() && dg.kind == g.kind && dg.tasks == g.tasks && dg.arcs == g.arcs
    modifies dg
    ensures dg.Valid() && dg.tasks == g.tasks && ReentrantUpTo(g, dg.arcs, |g.arcs|)
    ensures m0Tot == ReentrantTotal(g, |g.arcs|)
  {
    m0Tot := 0;
    for i := 0 to |dg.arcs|
      invariant dg.Valid() && dg.tasks == g.tasks && ReentrantUpTo(g, dg.arcs, i)
      invariant m0Tot == ReentrantTotal(g, i)
    {
      var tot := MarkOne(dg, g, i);
      m0Tot := m0Tot + tot;
    }
  }

  /** The first `i` arcs of `arcs` are through `__calc_reentrant`, the others as in `g`. */
  ghost predicate ReentrantUpTo(g: Graph, arcs: seq<Arc>, i: nat) {
    Shaped(g) && |arcs| == |g.arcs| && i <= |arcs| &&
    (forall j :: 0 <= j < i ==> arcs[j] == AfterReentrant(g, j)) &&
    (forall j :: i <= j < |arcs| ==> arcs[j] == g.arcs[j])
  }

  /** One pass of the arc loop of `__calc_reentrant`: arc `i` is marked if it is a self-loop. */
  method MarkOne(dg: DataflowGraph, ghost g: Graph, i: nat) returns (tot: int)
    requires Shaped(g) && dg.Valid() && dg.kind == g.kind && dg.tasks == g.tasks
    requires i < |g.arcs| && ReentrantUpTo(g, dg.arcs, i)
    modifies dg
    ensures dg.Valid() && dg.tasks == g.tasks && ReentrantUpTo(g, dg.arcs, i + 1)
    ensures ReentrantTotal(g, i + 1) == ReentrantTotal(g, i) + tot
  {
    tot := 0;
    var a := dg.arcs[i];
    assert a == g.arcs[i];
    if IsArcReentrant(a) {
      ArcListsFit(g, i);
      var l := ArcLists(dg.kind, a);
      var n := PhaseRange(dg.Value(), a.tgt);
      assert n == PhaseRange(g, a.tgt);
      var retMax;
      retMax, tot := WalkReentrant(l, IsPcg(dg.kind), l.cons[0], n);
      dg.SetInitialMarking(i, retMax);
    }
  }

  // ---------------------------------------------------------------------
  // `compute_initial_marking`

  /**
   * The marking arc `i` of the normalized graph `g` ends with when solver
   * `c` ran: the closed form for a self-loop, the revised answer of a
   * linear program, and the cleared marking for a solver this model does
   * not run.
   */
  function FinalMarking(g: Graph, c: Choice, sol: Solution, i: nat): int
    requires Shaped(g) && i < |g.arcs| && |sol.m0| == |g.arcs| && |sol.fm0| == |g.arcs|
  {
    if IsArcReentrant(g.arcs[i]) then ReentrantMarking(g, i)
    else if c == Sc1Lp || c == Sc2Lp then Revised(sol.m0[i], sol.fm0[i], g.arcs[i].gcd)
    else 0
  }

  /**
   * The normalization step: nothing for a normalized graph, otherwise
   * `normalized` (thresholds scaled once); either way the graph keeps its
   * shape and the ends of its arcs.
   */
  method Normalize(dg: DataflowGraph) returns (r: Result<Option<seq<Q>>>)
    requires dg.Valid() && Shaped(dg.Value())
    modifies dg
    ensures dg.Valid() && Shaped(dg.Value()) && SameFrame(old(dg.Value()), dg.Value())
    ensures IsNormalized(old(dg.Value())).Err? ==> r == Err(IsNormalized(old(dg.Value())).error) && dg.arcs == old(dg.arcs)
    ensures IsNormalized(old(dg.Value())) == Ok(true) ==> r == Ok(None) && dg.arcs == old(dg.arcs)
    ensures IsNormalized(old(dg.Value())) == Ok(false) ==>
      r == NormalizedOf(true, old(dg.Value()), None).result &&
      dg.Value() == NormalizedOf(true, old(dg.Value()), None).graph
  {
    ghost var g := dg.Value();
    NormalizedKeepsShape(true, g, None);
    var nz := IsNormalized(dg.Value());
    if nz.Err? {
      return Err(nz.error);
    }
    if nz.value {
      return Ok(None);
    }
    r := NormalizedDataflow(true, dg, None);
  }

  /** The clearing step: every marking to zero. */
  method Clear(dg: DataflowGraph)
    requires dg.Valid() && Shaped(dg.Value())
    modifies dg
    ensures dg.Valid() && Shaped(dg.Value()) && SameButMarkings(old(dg.Value()), dg.Value())
    ensures SameFrame(old(dg.Value()), dg.Value())
    ensures forall i :: 0 <= i < |dg.arcs| ==> dg.arcs[i].m0 == 0
  {
    ghost var g := dg.Value();
    dg.DelInitialMarking();
    MarkingsKeepShape(g, dg.Value());
  }

  /** The choice, with the row counts computed only where "Auto" compares them. */
  method Dispatch(g: Graph, name: Option<string>, hasPeriod: bool) returns (c: Result<Option<Choice>>)
    requires Shaped(g)
    ensures c == Choose(name, hasPeriod, |Sc2.Rows(g)|, |Sc1.PhaseRows(g, |g.arcs|)|)
  {
    if name == Some("Auto") && !hasPeriod {
      var sc2Rows := Cs2RowCount(g);
      var sc1Rows := Sc1RowCount(g);
      c := Choose(name, hasPeriod, sc2Rows, sc1Rows);
    } else {
      c := Choose(name, hasPeriod, 0, 0);
      assert c == Choose(name, hasPeriod, |Sc2.Rows(g)|, |Sc1.PhaseRows(g, |g.arcs|)|);
    }
  }

  /** Arc by arc, `h` is `g` through the revision of the linear programs. */
  predicate RevisedAll(g: Graph, h: Graph, sol: Solution)
    requires |sol.m0| == |g.arcs| && |sol.fm0| == |g.arcs|
  {
    h.kind == g.kind && h.tasks == g.tasks && |h.arcs| == |g.arcs| &&
    forall i :: 0 <= i < |g.arcs| ==>
      h.arcs[i] == if IsArcReentrant(g.arcs[i]) then g.arcs[i] else g.arcs[i].(m0 := Revised(sol.m0[i], sol.fm0[i], g.arcs[i].gcd))
  }

  /** The linear programs run on the cleared graph; the other solvers are not part of this model. */
  method RunSolver(dg: DataflowGraph, c: Choice, sol: Solution)
    requires dg.Valid() && Shaped(dg.Value()) && |sol.m0| == |dg.arcs| && |sol.fm0| == |dg.arcs|
    modifies dg
    ensures dg.Valid()
    ensures c == Sc1Lp || c == Sc2Lp ==> RevisedAll(old(dg.Value()), dg.Value(), sol)
    ensures c != Sc1Lp && c != Sc2Lp ==> dg.Value() == old(dg.Value())
  {
    if c == Sc1Lp {
      RunSc1(dg, sol);
    } else if c == Sc2Lp {
      RunSc2(dg, sol);
    }
  }

  /** `SolverSC1(dataflow).compute_initial_marking()`. */
  method RunSc1(dg: DataflowGraph, sol: Solution)
    requires dg.Valid() && Shaped(dg.Value()) && |sol.m0| == |dg.arcs| && |sol.fm0| == |dg.arcs|
    modifies dg
    ensures dg.Valid() && RevisedAll(old(dg.Value()), dg.Value(), sol)
  {
    ghost var g := dg.Value();
    var solver := new Sc1.SolverSc1(dg);
    solver.ComputeInitialMarking(sol);
    forall i | 0 <= i < |g.arcs|
      ensures dg.arcs[i] == if IsArcReentrant(g.arcs[i]) then g.arcs[i] else g.arcs[i].(m0 := Revised(sol.m0[i], sol.fm0[i], g.arcs[i].gcd))
    {
      assert dg.arcs[i] == Sc1.RevisedArc(g, sol, i);
    }
  }

  /** `SolverSC2(dataflow).compute_initial_marking()`. */
  method RunSc2(dg: DataflowGraph, sol: Solution)
    requires dg.Valid() && Shaped(dg.Value()) && |sol.m0| == |dg.arcs| && |sol.fm0| == |dg.arcs|
    modifies dg
    ensures dg.Valid() && RevisedAll(old(dg.Value()), dg.Value(), sol)
  {
    ghost var g := dg.Value();
    var solver := new Sc2.SolverSc2(dg);
    solver.ComputeInitialMarking(sol);
    forall i | 0 <= i < |g.arcs|
      ensures dg.arcs[i] == if IsArcReentrant(g.arcs[i]) then g.arcs[i] else g.arcs[i].(m0 := Revised(sol.m0[i], sol.fm0[i], g.arcs[i].gcd))
    {
      assert dg.arcs[i] == Sc2.RevisedArc(g, sol, i);
    }
  }

  /** A revision changes markings only. */
  lemma RevisedSameButMarkings(g: Graph, h: Graph, sol: Solution)
    requires |sol.m0| == |g.arcs| && |sol.fm0| == |g.arcs| && RevisedAll(g, h, sol)
    ensures SameButMarkings(g, h)
  {
    forall i | 0 <= i < |g.arcs|
      ensures h.arcs[i] == g.arcs[i].(m0 := h.arcs[i].m0)
    {
    }
  }

  /**
   * The solver step and `__calc_reentrant` on a cleared graph: every arc
   * ends with the marking `FinalMarking` gives, and the total is that of
   * the self-loops.
   */
  method Mark(dg: DataflowGraph, c: Choice, sol: Solution) returns (m0Tot: int)
    requires dg.Valid() && Shaped(dg.Value()) && |sol.m0| == |dg.arcs| && |sol.fm0| == |dg.arcs|
    requires forall i :: 0 <= i < |dg.arcs| ==> dg.arcs[i].m0 == 0
    modifies dg
    ensures dg.Valid() && |dg.arcs| == |old(dg.arcs)|
    ensures forall i :: 0 <= i < |dg.arcs| ==> dg.arcs[i].m0 == FinalMarking(old(dg.Value()), c, sol, i)
    ensures m0Tot == ReentrantTotal(old(dg.Value()), |dg.arcs|)
  {
    ghost var h := dg.Value();
    RunSolver(dg, c, sol);
    ghost var h2 := dg.Value();
    if c == Sc1Lp || c == Sc2Lp {
      RevisedSameButMarkings(h, h2, sol);
    }
    MarkingsKeepShape(h, h2);
    m0Tot := CalcReentrant(dg);
    FinalMarkings(h, h2, dg.Value(), c, sol);
    ReentrantTotalKept(h, h2, |h.arcs|);
  }

  /**
   * Cleared (`g`), then through the solver (`h2`), then through
   * `__calc_reentrant` (`h3`), every arc ends with the marking
   * `FinalMarking` gives.
   */
  lemma FinalMarkings(g: Graph, h2: Graph, h3: Graph, c: Choice, sol: Solution)
    requires Shaped(g) && |sol.m0| == |g.arcs| && |sol.fm0| == |g.arcs|
    requires forall i :: 0 <= i < |g.arcs| ==> g.arcs[i].m0 == 0
    requires Shaped(h2) && SameButMarkings(g, h2)
    requires c == Sc1Lp || c == Sc2Lp ==> RevisedAll(g, h2, sol)
    requires c != Sc1Lp && c != Sc2Lp ==> h2 == g
    requires |h3.arcs| == |h2.arcs| && forall i :: 0 <= i < |h3.arcs| ==> h3.arcs[i] == AfterReentrant(h2, i)
    ensures forall i :: 0 <= i < |h3.arcs| ==> h3.arcs[i].m0 == FinalMarking(g, c, sol, i)
  {
    MarkingsKeepShape(g, h2);
    forall i | 0 <= i < |h3.arcs|
      ensures h3.arcs[i].m0 == FinalMarking(g, c, sol, i)
    {
      assert h2.arcs[i].src == g.arcs[i].src && h2.arcs[i].tgt == g.arcs[i].tgt;
    }
  }

  /** Clearing the markings changes none of the final markings nor the total of the self-loops. */
  lemma ClearedKeepsFinal(g: Graph, h: Graph, c: Choice, sol: Solution)
    requires Shaped(g) && SameButMarkings(g, h) && |sol.m0| == |g.arcs| && |sol.fm0| == |g.arcs|
    requires forall i :: 0 <= i < |h.arcs| ==> h.arcs[i].m0 == 0
    ensures Shaped(h)
    ensures forall i :: 0 <= i < |h.arcs| ==> FinalMarking(h, c, sol, i) == FinalMarking(g, c, sol, i)
    ensures ReentrantTotal(h, |h.arcs|) == ReentrantTotal(g, |g.arcs|)
  {
    MarkingsKeepShape(g, h);
    forall i | 0 <= i < |h.arcs|
      ensures FinalMarking(h, c, sol, i) == FinalMarking(g, c, sol, i)
    {
      assert h.arcs[i] == g.arcs[i].(m0 := h.arcs[i].m0);
    }
    ReentrantTotalKept(g, h, |g.arcs|);
  }

  /**
   * `compute_initial_marking`. The graph is normalized when it is not
   * and every marking cleared; then the solver is chosen. An unknown name
   * (or "SC2_MIP" with a period) raises `RuntimeError` and "None" stops,
   * both with the graph left normalized and cleared. Otherwise the solver
   * runs, every self-loop takes its closed-form marking and the graph is
   * un-normalized if it was normalized here. On a graph that was
   * normalized already, every marking is the one `FinalMarking` gives.
   */
  method ComputeInitialMarking(dg: DataflowGraph, name: Option<string>, hasPeriod: bool, sol: Solution)
    returns (r: Result<Option<Choice>>, m0Tot: int)
    requires dg.Valid() && Shaped(dg.Value()) && |sol.m0| == |dg.arcs| && |sol.fm0| == |dg.arcs|
    modifies dg
    ensures dg.Valid() && |dg.arcs| == |old(dg.arcs)|
    ensures var c := Choose(name, hasPeriod, |Sc2.Rows(old(dg.Value()))|, |Sc1.PhaseRows(old(dg.Value()), |old(dg.arcs)|)|);
      (r.Ok? ==> r == c) && (c.Err? ==> r.Err?)
    ensures r == Ok(None) ==> forall i :: 0 <= i < |dg.arcs| ==> dg.arcs[i].m0 == 0
    ensures IsNormalized(old(dg.Value())) == Ok(true) && r.Ok? && r.value.Some? ==>
      (forall i :: 0 <= i < |dg.arcs| ==> dg.arcs[i].m0 == FinalMarking(old(dg.Value()), r.value.value, sol, i)) &&
      m0Tot == ReentrantTotal(old(dg.Value()), |dg.arcs|)
  {
    ghost var g := dg.Value();
    var coef := Prepare(dg);
    if coef.Err? {
      return Err(coef.error), 0;
    }
    var choice := Dispatch(dg.Value(), name, hasPeriod);
    if choice.Err? || choice.value.None? {
      return choice, 0;
    }
    r, m0Tot := MarkAndFinish(dg, choice.value.value, sol, coef.value, g);
  }

  /** Normalization when needed, then every marking cleared; the solver's row counts are unchanged. */
  method Prepare(dg: DataflowGraph) returns (coef: Result<Option<seq<Q>>>)
    requires dg.Valid() && Shaped(dg.Value())
    modifies dg
    ensures dg.Valid() && Shaped(dg.Value()) && |dg.arcs| == |old(dg.arcs)|
    ensures IsNormalized(old(dg.Value())).Err? ==> coef.Err?
    ensures coef.Ok? ==> forall i :: 0 <= i < |dg.arcs| ==> dg.arcs[i].m0 == 0
    ensures coef.Ok? ==> |Sc2.Rows(dg.Value())| == |Sc2.Rows(old(dg.Value()))|
    ensures coef.Ok? ==> |Sc1.PhaseRows(dg.Value(), |dg.arcs|)| == |Sc1.PhaseRows(old(dg.Value()), |old(dg.arcs)|)|
    ensures IsNormalized(old(dg.Value())) == Ok(true) ==> coef == Ok(None) && SameButMarkings(old(dg.Value()), dg.Value())
  {
    ghost var g := dg.Value();
    coef := Normalize(dg);
    if coef.Err? {
      return;
    }
    Clear(dg);
    CountsKept(g, dg.Value());
  }

  /**
   * The solver's markings on the cleared graph, then the un-normalization
   * step. When the graph `g` it started from was normalized already, the
   * markings are the ones `FinalMarking` gives on `g`.
   */
  method MarkAndFinish(dg: DataflowGraph, c: Choice, sol: Solution, coef: Option<seq<Q>>, ghost g: Graph)
    returns (r: Result<Option<Choice>>, m0Tot: int)
    requires dg.Valid() && Shaped(dg.Value()) && |sol.m0| == |dg.arcs| && |sol.fm0| == |dg.arcs|
    requires forall i :: 0 <= i < |dg.arcs| ==> dg.arcs[i].m0 == 0
    requires IsNormalized(g) == Ok(true) ==> coef.None? && Shaped(g) && SameButMarkings(g, dg.Value())
    modifies dg
    ensures dg.Valid() && |dg.arcs| == |old(dg.arcs)|
    ensures r.Ok? ==> r == Ok(Some(c))
    ensures IsNormalized(g) == Ok(true) ==>
      r == Ok(Some(c)) && |g.arcs| == |dg.arcs| &&
      (forall i :: 0 <= i < |dg.arcs| ==> dg.arcs[i].m0 == FinalMarking(g, c, sol, i)) &&
      m0Tot == ReentrantTotal(g, |g.arcs|)
  {
    ghost var h := dg.Value();
    if IsNormalized(g) == Ok(true) {
      ClearedKeepsFinal(g, h, c, sol);
    }
    m0Tot := Mark(dg, c, sol);
    var e := Finish(dg, coef);
    if e.Some? {
      return Err(e.value), m0Tot;
    }
    r := Ok(Some(c));
  }

  /** The un-normalization step, with the vector `normalized` returned (nothing when the graph was normalized already). */
  method Finish(dg: DataflowGraph, coef: Option<seq<Q>>) returns (e: Option<PyError>)
    requires dg.Valid()
    modifies dg
    ensures dg.Valid() && |dg.arcs| == |old(dg.arcs)|
    ensures coef.None? ==> e.None? && dg.arcs == old(dg.arcs)
    ensures coef.Some? ==>
      dg.Value() == UnNormalizedOf(true, old(dg.Value()), coef, []).graph &&
      e == UnNormalizedOf(true, old(dg.Value()), coef, []).error
  {
    e := None;
    if coef.Some? {
      ValidShaped(dg);
      e := UnNormalizedDataflow(true, dg, coef, []);
    }
  }
}
