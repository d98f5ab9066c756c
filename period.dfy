// `ComputePeriod`: the linear program whose optimum is the period of a
// 1-periodic schedule of a normalized SDF or CSDF graph. The model builds
// the columns and the rows the source hands to GLPK, proves that the counts
// it announces match the rows it fills and that the coefficients exactly
// fill the arrays it sizes, and reads the period and the start times back
// from the solver's answer; the simplex itself is outside the model.
module PeriodComputation {
  import opened Arith
  import opened GcdLcm
  import opened Outcomes
  import opened Fractions
  import opened Graph
  import opened Dataflow

  // ---------------------------------------------------------------------
  // The window of a pair of phases

  /** `gcd(sum(prod), sum(cons))` of an arc, by `fractions.gcd`. */
  function SumGcd(a: Arc): int {
    Euclid(Sum(a.prod), Sum(a.cons))
  }

  /**
   * The lower end of the window of source phase `ps` and target phase `pt`
   * before rounding: `max(0, p_ps - c_pt) + C_pt - P_ps - M0`, with `C_pt`
   * and `P_ps` the sums of the rates up to and including those phases.
   */
  function AminRaw(a: Arc, ps: nat, pt: nat): int
    requires ps < |a.prod| && pt < |a.cons|
  {
    var ha := if a.prod[ps] - a.cons[pt] > 0 then a.prod[ps] - a.cons[pt] else 0;
    ha + Sum(a.cons[..pt + 1]) - Sum(a.prod[..ps + 1]) - a.m0
  }

  /** `__compute_amin`: the raw lower end, pushed up by `gcd - |amin % gcd|` unless already a multiple. */
  function Amin(a: Arc, ps: nat, pt: nat): int
    requires ps < |a.prod| && pt < |a.cons| && SumGcd(a) != 0
  {
    var g := SumGcd(a);
    var amin := AminRaw(a, ps, pt);
    if PyMod(amin, g) != 0 then amin + (g - Abs(PyMod(amin, g))) else amin
  }

  /** The upper end before rounding: `C_pt - P_(ps-1) - M0 - 1`, the production counted before phase `ps`. */
  function AmaxRaw(a: Arc, ps: nat, pt: nat): int
    requires ps < |a.prod| && pt < |a.cons|
  {
    Sum(a.cons[..pt + 1]) - Sum(a.prod[..ps]) - a.m0 - 1
  }

  /** `__compute_amax`: the raw upper end less `|amax % gcd|`. */
  function Amax(a: Arc, ps: nat, pt: nat): int
    requires ps < |a.prod| && pt < |a.cons| && SumGcd(a) != 0
  {
    var amax := AmaxRaw(a, ps, pt);
    amax - Abs(PyMod(amax, SumGcd(a)))
  }

  /** With a positive gcd, `Amin` is the least multiple of the gcd at or above the raw lower end. */
  lemma AminRoundsUp(a: Arc, ps: nat, pt: nat)
    requires ps < |a.prod| && pt < |a.cons| && SumGcd(a) > 0
    ensures Divides(SumGcd(a), Amin(a, ps, pt))
    ensures AminRaw(a, ps, pt) <= Amin(a, ps, pt) < AminRaw(a, ps, pt) + SumGcd(a)
  {
    var g := SumGcd(a);
    var amin := AminRaw(a, ps, pt);
    var q := PyDiv(amin, g);
    if PyMod(amin, g) != 0 {
      assert g * (q + 1) == g * q + g;
      DividesIntro(g, Amin(a, ps, pt), q + 1);
    } else {
      DividesIntro(g, amin, q);
    }
  }

  /** With a positive gcd, `Amax` is the greatest multiple of the gcd at or below the raw upper end. */
  lemma AmaxRoundsDown(a: Arc, ps: nat, pt: nat)
    requires ps < |a.prod| && pt < |a.cons| && SumGcd(a) > 0
    ensures Divides(SumGcd(a), Amax(a, ps, pt))
    ensures AmaxRaw(a, ps, pt) - SumGcd(a) < Amax(a, ps, pt) <= AmaxRaw(a, ps, pt)
  {
    var g := SumGcd(a);
    DividesIntro(g, Amax(a, ps, pt), PyDiv(AmaxRaw(a, ps, pt), g));
  }

  /** Two multiples of `g` less than `g` apart in one direction are ordered. */
  lemma MultiplesOrdered(g: int, x: int, y: int)
    requires g > 0 && Divides(g, x) && Divides(g, y) && x > y - g
    ensures x >= y
  {
    var a := DividesElim(g, x);
    var b := DividesElim(g, y);
    if a < b {
      MulStep(g, a, b);
    }
  }

  /** `g * a` is at least `g` below `g * b` when `a < b`. */
  lemma MulStep(g: nat, a: int, b: int)
    requires a < b
    ensures g * a + g <= g * b
  {
    MulAtLeast(g, b - a);
    assert g * b - g * a == g * (b - a);
  }

  /**
   * The rounded window is nonempty exactly when some multiple of the gcd
   * lies between the raw ends: the test `amin <= amax` asks whether a
   * marking the gcd can reach falls in the window.
   */
  lemma WindowHoldsMultiple(a: Arc, ps: nat, pt: nat)
    requires ps < |a.prod| && pt < |a.cons| && SumGcd(a) > 0
    ensures Amin(a, ps, pt) <= Amax(a, ps, pt) <==>
      exists m :: AminRaw(a, ps, pt) <= m <= AmaxRaw(a, ps, pt) && Divides(SumGcd(a), m)
  {
    var g := SumGcd(a);
    AminRoundsUp(a, ps, pt);
    AmaxRoundsDown(a, ps, pt);
    if Amin(a, ps, pt) > Amax(a, ps, pt) {
      forall m | AminRaw(a, ps, pt) <= m <= AmaxRaw(a, ps, pt) && Divides(g, m)
        ensures false
      {
        MultiplesOrdered(g, m, Amin(a, ps, pt));
        MultiplesOrdered(g, Amax(a, ps, pt), m);
      }
    }
  }

  // ---------------------------------------------------------------------
  // Columns

  /** A column: the period variable `K`, or the start time of a phase of a task (phase 0 on an SDF graph). */
  datatype PeriodCol = KCol | StartCol(task: nat, phase: nat)

  /** The number of phases of the first `n` tasks. */
  function CyclicTotal(g: Graph, n: nat): nat
    requires n <= |g.tasks|
  {
    if n == 0 then 0 else CyclicTotal(g, n - 1) + PhaseCount(g, n - 1)
  }

  /** On an SDF graph every task has one column. */
  lemma {:induction false} CyclicTotalSdf(g: Graph, n: nat)
    requires IsSdf(g.kind) && n <= |g.tasks|
    ensures CyclicTotal(g, n) == n
  {
    if n > 0 {
      CyclicTotalSdf(g, n - 1);
    }
  }

  /** The start columns of the phases of task `t` below `m`. */
  function TaskCols(t: nat, m: nat): (r: seq<PeriodCol>)
    ensures |r| == m && forall p :: 0 <= p < m ==> r[p] == StartCol(t, p)
  {
    seq(m, p requires 0 <= p < m => StartCol(t, p))
  }

  /** The start columns of the first `n` tasks, task by task. */
  function StartCols(g: Graph, n: nat): (r: seq<PeriodCol>)
    requires n <= |g.tasks|
    ensures |r| == CyclicTotal(g, n)
  {
    if n == 0 then [] else StartCols(g, n - 1) + TaskCols(n - 1, PhaseCount(g, n - 1))
  }

  /** The columns in column order: `K`, then the start of every phase of every task. */
  function Columns(g: Graph): seq<PeriodCol> {
    [KCol] + StartCols(g, |g.tasks|)
  }

  lemma {:induction false} StartColAt(g: Graph, n: nat, t: nat, p: nat)
    requires t < n <= |g.tasks| && p < PhaseCount(g, t)
    ensures CyclicTotal(g, t) + p < CyclicTotal(g, n)
    ensures StartCols(g, n)[CyclicTotal(g, t) + p] == StartCol(t, p)
  {
    if t < n - 1 {
      StartColAt(g, n - 1, t, p);
    }
  }

  /** Phase `p` of task `t` has its column at `1 + (phases of the tasks before t) + p`: every lookup of `col_start` succeeds. */
  lemma ColumnOfPhase(g: Graph, t: nat, p: nat)
    requires t < |g.tasks| && p < PhaseCount(g, t)
    ensures 1 + CyclicTotal(g, t) + p < |Columns(g)|
    ensures Columns(g)[1 + CyclicTotal(g, t) + p] == StartCol(t, p)
  {
    StartColAt(g, |g.tasks|, t, p);
  }

  /** The count of `__create_col`: one plus the tasks (SDF) or one plus their phases (CSDF, PCG). */
  method CountColumns(g: Graph) returns (colCount: int)
    ensures colCount == |Columns(g)|
  {
    colCount := 1;
    if IsSdf(g.kind) {
      colCount := colCount + |g.tasks|;
      CyclicTotalSdf(g, |g.tasks|);
    } else if IsCsdf(g.kind) {
      for t := 0 to |g.tasks|
        invariant colCount == 1 + CyclicTotal(g, t)
      {
        colCount := colCount + PhaseCount(g, t);
      }
    }
  }

  /** The columns as the loops of `__create_col` name them: `K`, then task by task. */
  method NameColumns(g: Graph) returns (cols: seq<PeriodCol>)
    ensures cols == Columns(g)
  {
    cols := [KCol];
    for t := 0 to |g.tasks|
      invariant cols == [KCol] + StartCols(g, t)
    {
      var own := [];
      if IsSdf(g.kind) {
        own := [StartCol(t, 0)];
      } else {
        for p := 0 to PhaseCount(g, t)
          invariant own == TaskCols(t, p)
        {
          own := own + [StartCol(t, p)];
        }
      }
      cols := cols + own;
    }
  }

  // ---------------------------------------------------------------------
  // Rows

  /**
   * A row: `s(tgt/tgtPhase) - s(src/srcPhase) - n * K >= low` for a pair of
   * phases of arc `arc`, or `s(task/after) - s(task/before) (+ z * K) >= low`
   * keeping two phases of a task from overlapping, the `K` term present
   * (with the task's rate `z`) only on the row that wraps to phase 0.
   */
  datatype PeriodRow =
    | MainRow(arc: nat, src: nat, srcPhase: nat, tgt: nat, tgtPhase: nat, n: int, low: int)
    | OverlapRow(task: nat, before: nat, after: nat, low: int, kCoef: Option<int>)

  /** The graph can be given rows: shaped lists, and on a CSDF graph no arc whose rate sums have gcd 0 (`%` by it raises). */
  predicate PeriodReady(g: Graph) {
    Shaped(g) && (IsCsdf(g.kind) ==> forall i :: 0 <= i < |g.arcs| ==> SumGcd(g.arcs[i]) != 0)
  }

  /** The number of self-loops among the first `n` arcs. */
  function SelfLoopCount(g: Graph, n: nat): nat
    requires n <= |g.arcs|
  {
    if n == 0 then 0 else SelfLoopCount(g, n - 1) + (if IsArcReentrant(g.arcs[n - 1]) then 1 else 0)
  }

  /** The SDF row of arc `i`: `N` coefficient `cons - M0 - gcd`, bound the source's duration. */
  function SdfCell(g: Graph, i: nat): PeriodRow
    requires Shaped(g) && IsSdf(g.kind) && i < |g.arcs|
  {
    var a := g.arcs[i];
    MainRow(i, a.src, 0, a.tgt, 0, a.cons[0] - a.m0 - a.gcd, g.tasks[a.src].durations[0])
  }

  /** The SDF rows of the first `n` arcs: one per arc that is not a self-loop. */
  function SdfRows(g: Graph, n: nat): (r: seq<PeriodRow>)
    requires Shaped(g) && IsSdf(g.kind) && n <= |g.arcs|
    ensures |r| == n - SelfLoopCount(g, n)
    ensures forall k :: 0 <= k < |r| ==>
      r[k].MainRow? && r[k].arc < n && !IsArcReentrant(g.arcs[r[k].arc]) && r[k] == SdfCell(g, r[k].arc)
  {
    if n == 0 then []
    else SdfRows(g, n - 1) + (if IsArcReentrant(g.arcs[n - 1]) then [] else [SdfCell(g, n - 1)])
  }

  /** Every SDF arc that is not a self-loop has its row. */
  lemma {:induction false} SdfRowsComplete(g: Graph, n: nat, i: nat)
    requires Shaped(g) && IsSdf(g.kind) && i < n <= |g.arcs| && !IsArcReentrant(g.arcs[i])
    ensures SdfCell(g, i) in SdfRows(g, n)
  {
    if i < n - 1 {
      SdfRowsComplete(g, n - 1, i);
    } else {
      assert SdfRows(g, n)[|SdfRows(g, n - 1)|] == SdfCell(g, i);
    }
  }

  /** The pair `(ps, pt)` of arc `i` is a valid pair of phases of its endpoints. */
  predicate PhasePair(g: Graph, i: nat, ps: nat, pt: nat)
    requires Shaped(g) && i < |g.arcs|
  {
    ps < PhaseCount(g, g.arcs[i].src) && pt < PhaseCount(g, g.arcs[i].tgt)
  }

  /** A CSDF row is emitted for `(ps, pt)`: on a self-loop only when `ps < pt`, and only when the window is nonempty. */
  predicate Emitted(g: Graph, i: nat, ps: nat, pt: nat)
    requires PeriodReady(g) && IsCsdf(g.kind) && i < |g.arcs| && PhasePair(g, i, ps, pt)
  {
    var a := g.arcs[i];
    (!IsArcReentrant(a) || ps < pt) && Amin(a, ps, pt) <= Amax(a, ps, pt)
  }

  /** The CSDF row of `(ps, pt)` on arc `i`: `N` coefficient `amax`, bound the duration of source phase `ps`. */
  function CsdfCell(g: Graph, i: nat, ps: nat, pt: nat): PeriodRow
    requires PeriodReady(g) && IsCsdf(g.kind) && i < |g.arcs| && PhasePair(g, i, ps, pt)
  {
    var a := g.arcs[i];
    MainRow(i, a.src, ps, a.tgt, pt, Amax(a, ps, pt), g.tasks[a.src].durations[ps])
  }

  /** The rows of source phase `ps` of arc `i` with the target phases below `m`. */
  function CellRows(g: Graph, i: nat, ps: nat, m: nat): seq<PeriodRow>
    requires PeriodReady(g) && IsCsdf(g.kind) && i < |g.arcs|
    requires ps < PhaseCount(g, g.arcs[i].src) && m <= PhaseCount(g, g.arcs[i].tgt)
  {
    if m == 0 then []
    else CellRows(g, i, ps, m - 1) + (if Emitted(g, i, ps, m - 1) then [CsdfCell(g, i, ps, m - 1)] else [])
  }

  /** The rows of the source phases of arc `i` below `n`. */
  function ArcRows(g: Graph, i: nat, n: nat): seq<PeriodRow>
    requires PeriodReady(g) && IsCsdf(g.kind) && i < |g.arcs| && n <= PhaseCount(g, g.arcs[i].src)
  {
    if n == 0 then [] else ArcRows(g, i, n - 1) + CellRows(g, i, n - 1, PhaseCount(g, g.arcs[i].tgt))
  }

  /** The CSDF rows of the first `n` arcs, arc by arc. */
  function CsdfRows(g: Graph, n: nat): seq<PeriodRow>
    requires PeriodReady(g) && IsCsdf(g.kind) && n <= |g.arcs|
  {
    if n == 0 then [] else CsdfRows(g, n - 1) + ArcRows(g, n - 1, PhaseCount(g, g.arcs[n - 1].src))
  }

  /** Row `k` of `CellRows` is the row of an emitted pair `(ps, pt)` with `pt < m`. */
  lemma {:induction false} CellRowsSound(g: Graph, i: nat, ps: nat, m: nat, k: nat)
    requires PeriodReady(g) && IsCsdf(g.kind) && i < |g.arcs|
    requires ps < PhaseCount(g, g.arcs[i].src) && m <= PhaseCount(g, g.arcs[i].tgt)
    requires k < |CellRows(g, i, ps, m)|
    ensures var r := CellRows(g, i, ps, m)[k];
      r.MainRow? && r.arc == i && r.srcPhase == ps && r.tgtPhase < m &&
      Emitted(g, i, ps, r.tgtPhase) && r == CsdfCell(g, i, ps, r.tgtPhase)
  {
    if k < |CellRows(g, i, ps, m - 1)| {
      CellRowsSound(g, i, ps, m - 1, k);
    }
  }

  /** Row `k` of `ArcRows` is the row of an emitted pair of phases of arc `i`, source phase below `n`. */
  lemma {:induction false} ArcRowsSound(g: Graph, i: nat, n: nat, k: nat)
    requires PeriodReady(g) && IsCsdf(g.kind) && i < |g.arcs| && n <= PhaseCount(g, g.arcs[i].src)
    requires k < |ArcRows(g, i, n)|
    ensures var r := ArcRows(g, i, n)[k];
      r.MainRow? && r.arc == i && r.srcPhase < n && PhasePair(g, i, r.srcPhase, r.tgtPhase) &&
      Emitted(g, i, r.srcPhase, r.tgtPhase) && r == CsdfCell(g, i, r.srcPhase, r.tgtPhase)
  {
    var front := ArcRows(g, i, n - 1);
    if k < |front| {
      ArcRowsSound(g, i, n - 1, k);
    } else {
      CellRowsSound(g, i, n - 1, PhaseCount(g, g.arcs[i].tgt), k - |front|);
    }
  }

  /**
   * Every CSDF row is the row of an emitted pair of phases of one of the
   * arcs; with `CsdfRowsComplete`, the rows are exactly the emitted pairs.
   */
  lemma {:induction false} CsdfRowsSound(g: Graph, n: nat, k: nat)
    requires PeriodReady(g) && IsCsdf(g.kind) && n <= |g.arcs| && k < |CsdfRows(g, n)|
    ensures var r := CsdfRows(g, n)[k];
      r.MainRow? && r.arc < n && PhasePair(g, r.arc, r.srcPhase, r.tgtPhase) &&
      Emitted(g, r.arc, r.srcPhase, r.tgtPhase) && r == CsdfCell(g, r.arc, r.srcPhase, r.tgtPhase)
  {
    var front := CsdfRows(g, n - 1);
    if k < |front| {
      CsdfRowsSound(g, n - 1, k);
    } else {
      ArcRowsSound(g, n - 1, PhaseCount(g, g.arcs[n - 1].src), k - |front|);
    }
  }

  lemma {:induction false} CellRowsComplete(g: Graph, i: nat, ps: nat, pt: nat, m: nat)
    requires PeriodReady(g) && IsCsdf(g.kind) && i < |g.arcs| && PhasePair(g, i, ps, pt)
    requires pt < m <= PhaseCount(g, g.arcs[i].tgt) && Emitted(g, i, ps, pt)
    ensures CsdfCell(g, i, ps, pt) in CellRows(g, i, ps, m)
  {
    if pt < m - 1 {
      CellRowsComplete(g, i, ps, pt, m - 1);
    } else {
      assert CellRows(g, i, ps, m)[|CellRows(g, i, ps, m - 1)|] == CsdfCell(g, i, ps, pt);
    }
  }

  lemma {:induction false} ArcRowsComplete(g: Graph, i: nat, ps: nat, pt: nat, n: nat)
    requires PeriodReady(g) && IsCsdf(g.kind) && i < |g.arcs| && PhasePair(g, i, ps, pt)
    requires ps < n <= PhaseCount(g, g.arcs[i].src) && Emitted(g, i, ps, pt)
    ensures CsdfCell(g, i, ps, pt) in ArcRows(g, i, n)
  {
    if ps < n - 1 {
      ArcRowsComplete(g, i, ps, pt, n - 1);
    } else {
      CellRowsComplete(g, i, ps, pt, PhaseCount(g, g.arcs[i].tgt));
    }
  }

  /** Every emitted pair of phases of every arc has its row. */
  lemma {:induction false} CsdfRowsComplete(g: Graph, n: nat, i: nat, ps: nat, pt: nat)
    requires PeriodReady(g) && IsCsdf(g.kind) && i < n <= |g.arcs| && PhasePair(g, i, ps, pt)
    requires Emitted(g, i, ps, pt)
    ensures CsdfCell(g, i, ps, pt) in CsdfRows(g, n)
  {
    if i < n - 1 {
      CsdfRowsComplete(g, n - 1, i, ps, pt);
    } else {
      ArcRowsComplete(g, i, ps, pt, PhaseCount(g, g.arcs[i].src));
    }
  }

  /** The rows of the first loop of `__create_row`, by graph class. */
  function MainRows(g: Graph): seq<PeriodRow>
    requires PeriodReady(g)
  {
    if IsSdf(g.kind) then SdfRows(g, |g.arcs|) else CsdfRows(g, |g.arcs|)
  }

  /**
   * The rate `z` the source reads for a task: the production sum of its
   * first leaving arc, else the consumption sum of its first entering arc;
   * `None` where both lists are empty and `[0]` raises `IndexError`.
   */
  function TaskRate(g: Graph, t: nat): Option<int> {
    var rates := SideRates(g.arcs, t);
    if |rates| > 0 then Some(rates[0]) else None
  }

  /** The `phase -> phase + 1` rows of task `t` for the phases below `m`. */
  function ChainRows(g: Graph, t: nat, m: nat): (r: seq<PeriodRow>)
    requires t < |g.tasks| && m <= |g.tasks[t].durations|
    ensures |r| == m
    ensures forall p :: 0 <= p < m ==> r[p] == OverlapRow(t, p, p + 1, g.tasks[t].durations[p], None)
  {
    if m == 0 then [] else ChainRows(g, t, m - 1) + [OverlapRow(t, m - 1, m, g.tasks[t].durations[m - 1], None)]
  }

  /**
   * The non-overlap rows of task `t`: none for a single phase; otherwise
   * one per phase, row `k` starting phase `k` after its cyclic predecessor
   * finished, the row into phase 0 carrying the task's rate on `K`.
   */
  function TaskOverlapRows(g: Graph, t: nat): (r: seq<PeriodRow>)
    requires Shaped(g) && t < |g.tasks| && TaskRate(g, t).Some?
    ensures |r| == if PhaseCount(g, t) > 1 then PhaseCount(g, t) else 0
    ensures forall k :: 0 <= k < |r| ==>
      var before := if k == 0 then PhaseCount(g, t) - 1 else k - 1;
      before < |g.tasks[t].durations| &&
      r[k] == OverlapRow(t, before, k, g.tasks[t].durations[before], if k == 0 then TaskRate(g, t) else None)
  {
    var pc := PhaseCount(g, t);
    if pc > 1 then
      [OverlapRow(t, pc - 1, 0, g.tasks[t].durations[pc - 1], TaskRate(g, t))] + ChainRows(g, t, pc - 1)
    else []
  }

  /** The number of tasks with more than one phase among the first `n`. */
  function MultiPhaseCount(g: Graph, n: nat): nat
    requires n <= |g.tasks|
  {
    if n == 0 then 0 else MultiPhaseCount(g, n - 1) + (if PhaseCount(g, n - 1) > 1 then 1 else 0)
  }

  /** The phases of the tasks with more than one phase among the first `n`. */
  function MultiPhaseTotal(g: Graph, n: nat): nat
    requires n <= |g.tasks|
  {
    if n == 0 then 0 else MultiPhaseTotal(g, n - 1) + (if PhaseCount(g, n - 1) > 1 then PhaseCount(g, n - 1) else 0)
  }

  /** The non-overlap rows of the first `n` tasks, task by task. */
  function OverlapRows(g: Graph, n: nat): (r: seq<PeriodRow>)
    requires Shaped(g) && NoIsolatedTask(g) && n <= |g.tasks|
    ensures |r| == MultiPhaseTotal(g, n)
  {
    if n == 0 then [] else OverlapRows(g, n - 1) + TaskOverlapRows(g, n - 1)
  }

  /** The rows in row order: the phase-pair rows, then (CSDF only) the non-overlap rows. */
  function Rows(g: Graph): seq<PeriodRow>
    requires PeriodReady(g) && NoIsolatedTask(g)
  {
    MainRows(g) + (if IsCsdf(g.kind) then OverlapRows(g, |g.tasks|) else [])
  }

  // ---------------------------------------------------------------------
  // Counting and filling the rows

  /** The count of the rows of source phase `ps` of arc `i`, with the source's test order. */
  method CountCells(g: Graph, i: nat, ps: nat) returns (c: int)
    requires PeriodReady(g) && IsCsdf(g.kind) && i < |g.arcs| && ps < PhaseCount(g, g.arcs[i].src)
    ensures c == |CellRows(g, i, ps, PhaseCount(g, g.arcs[i].tgt))|
  {
    var a := g.arcs[i];
    c := 0;
    for pt := 0 to PhaseCount(g, a.tgt)
      invariant c == |CellRows(g, i, ps, pt)|
    {
      if !IsArcReentrant(a) || (ps != pt && ps < pt) {
        if Amin(a, ps, pt) <= Amax(a, ps, pt) {
          c := c + 1;
        }
      }
    }
  }

  /** The count of the rows of arc `i`. */
  method CountArc(g: Graph, i: nat) returns (c: int)
    requires PeriodReady(g) && IsCsdf(g.kind) && i < |g.arcs|
    ensures c == |ArcRows(g, i, PhaseCount(g, g.arcs[i].src))|
  {
    c := 0;
    for ps := 0 to PhaseCount(g, g.arcs[i].src)
      invariant c == |ArcRows(g, i, ps)|
    {
      var cells := CountCells(g, i, ps);
      c := c + cells;
    }
  }

  /**
   * The counts of `__create_row`: `row_count` (arcs less self-loops on an
   * SDF graph, emitted phase pairs on a CSDF one), `non_overlap` (the
   * phases of every task with more than one) and `non_mono_phase` (those
   * tasks); they are the numbers of rows the fill loops add.
   */
  method CountRows(g: Graph) returns (rowCount: int, nonOverlap: int, nonMonoPhase: int)
    requires PeriodReady(g)
    ensures rowCount == |MainRows(g)|
    ensures nonOverlap == if IsCsdf(g.kind) then MultiPhaseTotal(g, |g.tasks|) else 0
    ensures nonMonoPhase == if IsCsdf(g.kind) then MultiPhaseCount(g, |g.tasks|) else 0
  {
    rowCount, nonOverlap, nonMonoPhase := 0, 0, 0;
    if IsSdf(g.kind) {
      var reEntrant := CountSelfLoops(g);
      rowCount := |g.arcs| - reEntrant;
    } else if IsCsdf(g.kind) {
      rowCount := CountCsdfRows(g);
      nonOverlap, nonMonoPhase := CountMultiPhase(g);
    }
  }

  /** The self-loop count of the SDF branch. */
  method CountSelfLoops(g: Graph) returns (reEntrant: int)
    ensures reEntrant == SelfLoopCount(g, |g.arcs|)
  {
    reEntrant := 0;
    for i := 0 to |g.arcs|
      invariant reEntrant == SelfLoopCount(g, i)
    {
      if IsArcReentrant(g.arcs[i]) {
        reEntrant := reEntrant + 1;
      }
    }
  }

  /** The row count of the CSDF branch, arc by arc. */
  method CountCsdfRows(g: Graph) returns (rowCount: int)
    requires PeriodReady(g) && IsCsdf(g.kind)
    ensures rowCount == |CsdfRows(g, |g.arcs|)|
  {
    rowCount := 0;
    for i := 0 to |g.arcs|
      invariant rowCount == |CsdfRows(g, i)|
    {
      var c := CountArc(g, i);
      rowCount := rowCount + c;
    }
  }

  /** `non_overlap` and `non_mono_phase`: the phases of the tasks with more than one, and those tasks. */
  method CountMultiPhase(g: Graph) returns (nonOverlap: int, nonMonoPhase: int)
    ensures nonOverlap == MultiPhaseTotal(g, |g.tasks|) && nonMonoPhase == MultiPhaseCount(g, |g.tasks|)
  {
    nonOverlap, nonMonoPhase := 0, 0;
    for t := 0 to |g.tasks|
      invariant nonOverlap == MultiPhaseTotal(g, t) && nonMonoPhase == MultiPhaseCount(g, t)
    {
      if PhaseCount(g, t) > 1 {
        nonMonoPhase := nonMonoPhase + 1;
        nonOverlap := nonOverlap + PhaseCount(g, t);
      }
    }
  }

  /** The SDF rows, three coefficients each. */
  method FillSdfRows(g: Graph) returns (rows: seq<PeriodRow>, entries: int)
    requires Shaped(g) && IsSdf(g.kind)
    ensures rows == SdfRows(g, |g.arcs|) && entries == 3 * |rows|
  {
    rows, entries := [], 0;
    for i := 0 to |g.arcs|
      invariant rows == SdfRows(g, i) && entries == 3 * |rows|
    {
      var a := g.arcs[i];
      if !IsArcReentrant(a) {
        var lti := g.tasks[a.src].durations[0];
        var nCoef := a.cons[0] - a.m0 - a.gcd;
        rows := rows + [MainRow(i, a.src, 0, a.tgt, 0, nCoef, lti)];
        entries := entries + 3;
      }
    }
  }

  /** The inner loop of the CSDF rows: source phase `ps` with every target phase, `amax` computed first. */
  method FillCells(g: Graph, i: nat, ps: nat, ltik: int) returns (rows: seq<PeriodRow>, entries: int)
    requires PeriodReady(g) && IsCsdf(g.kind) && i < |g.arcs| && ps < PhaseCount(g, g.arcs[i].src)
    requires ltik == g.tasks[g.arcs[i].src].durations[ps]
    ensures rows == CellRows(g, i, ps, PhaseCount(g, g.arcs[i].tgt)) && entries == 3 * |rows|
  {
    var a := g.arcs[i];
    rows, entries := [], 0;
    for pt := 0 to PhaseCount(g, a.tgt)
      invariant rows == CellRows(g, i, ps, pt) && entries == 3 * |rows|
    {
      var amax := Amax(a, ps, pt);
      if Amin(a, ps, pt) <= amax {
        if !IsArcReentrant(a) || (ps != pt && ps < pt) {
          rows := rows + [MainRow(i, a.src, ps, a.tgt, pt, amax, ltik)];
          entries := entries + 3;
        }
      }
    }
  }

  /** The CSDF rows of arc `i`, source phase by source phase. */
  method FillArc(g: Graph, i: nat) returns (rows: seq<PeriodRow>, entries: int)
    requires PeriodReady(g) && IsCsdf(g.kind) && i < |g.arcs|
    ensures rows == ArcRows(g, i, PhaseCount(g, g.arcs[i].src)) && entries == 3 * |rows|
  {
    var src := g.arcs[i].src;
    rows, entries := [], 0;
    for ps := 0 to PhaseCount(g, src)
      invariant rows == ArcRows(g, i, ps) && entries == 3 * |rows|
    {
      var ltik := g.tasks[src].durations[ps];
      var own, e := FillCells(g, i, ps, ltik);
      rows, entries := rows + own, entries + e;
    }
  }

  /** The first fill loop of `__create_row`, three coefficients per row. */
  method FillMainRows(g: Graph) returns (rows: seq<PeriodRow>, entries: int)
    requires PeriodReady(g)
    ensures rows == MainRows(g) && entries == 3 * |rows|
  {
    if IsSdf(g.kind) {
      rows, entries := FillSdfRows(g);
    } else {
      rows, entries := FillCsdfRows(g);
    }
  }

  /** The CSDF branch of the first fill loop, arc by arc. */
  method FillCsdfRows(g: Graph) returns (rows: seq<PeriodRow>, entries: int)
    requires PeriodReady(g) && IsCsdf(g.kind)
    ensures rows == CsdfRows(g, |g.arcs|) && entries == 3 * |rows|
  {
    rows, entries := [], 0;
    for i := 0 to |g.arcs|
      invariant rows == CsdfRows(g, i) && entries == 3 * |rows|
    {
      var own, e := FillArc(g, i);
      rows, entries := rows + own, entries + e;
    }
  }

  /** The non-overlap rows of task `t`: the wrap row with its third coefficient, then the chain. */
  method FillTaskOverlap(g: Graph, t: nat) returns (rows: seq<PeriodRow>, entries: int)
    requires Shaped(g) && NoIsolatedTask(g) && t < |g.tasks|
    ensures rows == TaskOverlapRows(g, t)
    ensures entries == 2 * |rows| + (if PhaseCount(g, t) > 1 then 1 else 0)
  {
    rows, entries := [], 0;
    var pc := PhaseCount(g, t);
    if pc > 1 {
      var z := TaskRate(g, t);
      rows := [OverlapRow(t, pc - 1, 0, g.tasks[t].durations[pc - 1], z)];
      entries := 3;
      for p := 0 to pc - 1
        invariant rows == [OverlapRow(t, pc - 1, 0, g.tasks[t].durations[pc - 1], z)] + ChainRows(g, t, p)
        invariant entries == 2 * |rows| + 1
      {
        rows := rows + [OverlapRow(t, p, p + 1, g.tasks[t].durations[p], None)];
        entries := entries + 2;
      }
    }
  }

  /** The second fill loop of `__create_row` (CSDF only): two coefficients per row, three on each wrap row. */
  method FillOverlapRows(g: Graph) returns (rows: seq<PeriodRow>, entries: int)
    requires Shaped(g) && NoIsolatedTask(g)
    ensures rows == OverlapRows(g, |g.tasks|)
    ensures entries == 2 * |rows| + MultiPhaseCount(g, |g.tasks|)
  {
    rows, entries := [], 0;
    for t := 0 to |g.tasks|
      invariant rows == OverlapRows(g, t) && entries == 2 * |rows| + MultiPhaseCount(g, t)
    {
      var own, e := FillTaskOverlap(g, t);
      rows, entries := rows + own, entries + e;
    }
  }

  // ---------------------------------------------------------------------
  // Reading the answer

  /** What `compute_period` returns: the period `n` and the start time of every phase. */
  datatype PeriodAnswer = PeriodAnswer(n: Q, starts: map<(nat, nat), Q>)

  /** The start times of the tasks before `t` and of the phases of `t` below `m`, read from their columns. */
  function Starts(g: Graph, prim: seq<Q>, t: nat, m: nat): map<(nat, nat), Q>
    requires t <= |g.tasks| && (if t < |g.tasks| then m <= PhaseCount(g, t) else m == 0)
    requires |prim| == |Columns(g)|
    decreases t, m
  {
    if m > 0 then
      ColumnOfPhase(g, t, m - 1);
      Starts(g, prim, t, m - 1)[(t, m - 1) := prim[1 + CyclicTotal(g, t) + m - 1]]
    else if t == 0 then map[]
    else Starts(g, prim, t - 1, PhaseCount(g, t - 1))
  }

  /** Every phase read so far has its start time, the value of its own column. */
  lemma {:induction false} StartsHold(g: Graph, prim: seq<Q>, t: nat, m: nat, u: nat, p: nat)
    requires t <= |g.tasks| && (if t < |g.tasks| then m <= PhaseCount(g, t) else m == 0)
    requires |prim| == |Columns(g)|
    requires (u < t && p < PhaseCount(g, u)) || (u == t && p < m)
    ensures 1 + CyclicTotal(g, u) + p < |prim|
    ensures (u, p) in Starts(g, prim, t, m) && Starts(g, prim, t, m)[(u, p)] == prim[1 + CyclicTotal(g, u) + p]
    decreases t, m
  {
    ColumnOfPhase(g, u, p);
    if m > 0 {
      if (u, p) != (t, m - 1) {
        StartsHold(g, prim, t, m - 1, u, p);
      }
    } else {
      StartsHold(g, prim, t - 1, PhaseCount(g, t - 1), u, p);
    }
  }

  /** Nothing but the phases read so far has a start time. */
  lemma {:induction false} StartsOnlyPhases(g: Graph, prim: seq<Q>, t: nat, m: nat, key: (nat, nat))
    requires t <= |g.tasks| && (if t < |g.tasks| then m <= PhaseCount(g, t) else m == 0)
    requires |prim| == |Columns(g)|
    requires key in Starts(g, prim, t, m)
    ensures (key.0 < t && key.1 < PhaseCount(g, key.0)) || (key.0 == t && key.1 < m)
    decreases t, m
  {
    if m > 0 {
      if key != (t, m - 1) {
        StartsOnlyPhases(g, prim, t, m - 1, key);
      }
    } else if t > 0 {
      StartsOnlyPhases(g, prim, t - 1, PhaseCount(g, t - 1), key);
    }
  }

  /** The start-time loop of `__solve_prob`: task by task, phase by phase, the value of its column. */
  method ReadStarts(g: Graph, prim: seq<Q>) returns (starts: map<(nat, nat), Q>)
    requires |prim| == |Columns(g)|
    ensures starts == Starts(g, prim, |g.tasks|, 0)
  {
    starts := map[];
    for t := 0 to |g.tasks|
      invariant starts == Starts(g, prim, t, 0)
    {
      for p := 0 to PhaseCount(g, t)
        invariant starts == Starts(g, prim, t, p)
      {
        ColumnOfPhase(g, t, p);
        starts := starts[(t, p) := prim[1 + CyclicTotal(g, t) + p]];
      }
    }
  }

  /** A normalized graph has no isolated task (`is_normalized` would have raised), and each task sees one rate, `z`. */
  lemma {:induction false} NormalizedRates(g: Graph, t: nat, u: nat)
    requires NormalizedFrom(g, t) == Ok(true) && t <= u < |g.tasks|
    ensures |SideRates(g.arcs, u)| > 0 && AllEqual(SideRates(g.arcs, u))
    decreases u - t
  {
    var rates := SideRates(g.arcs, t);
    assert NormalizedFrom(g, t) ==
      if |rates| == 0 then Err(IndexError) else if !AllEqual(rates) then Ok(false) else NormalizedFrom(g, t + 1);
    if t < u {
      NormalizedRates(g, t + 1, u);
    }
  }

  /** On a normalized graph no task is isolated. */
  lemma NormalizedNoIsolated(g: Graph)
    requires IsNormalized(g) == Ok(true)
    ensures NoIsolatedTask(g)
  {
    forall t | 0 <= t < |g.tasks|
      ensures |SideRates(g.arcs, t)| > 0
    {
      NormalizedRates(g, 0, t);
    }
  }

  // ---------------------------------------------------------------------
  // The solver object

  /** The period computation: the columns and rows it builds for GLPK and the coefficient slots it fills. */
  class ComputePeriod {
    const dataflow: DataflowGraph
    /** The columns named so far, in column order (column `j + 1` is `cols[j]`). */
    var cols: seq<PeriodCol>
    /** The column count handed to `glp_add_cols`. */
    var colCount: int
    /** The rows filled so far, in row order. */
    var rows: seq<PeriodRow>
    /** The row count handed to `glp_add_rows`. */
    var rowCount: int
    /** The size of the coefficient arrays, one more than the coefficients they are meant to hold. */
    var varArraySize: int
    /** The next free slot of the coefficient arrays. */
    var k: int

    constructor (df: DataflowGraph)
      ensures dataflow == df && cols == [] && rows == [] && colCount == 0 && rowCount == 0 && k == 0 && varArraySize == 0
    {
      dataflow := df;
      cols, rows := [], [];
      colCount, rowCount, k, varArraySize := 0, 0, 0, 0;
    }

    /** `__create_col`: as many columns as announced, in the order `Columns` gives; the `K` bound is left out. */
    method CreateCol()
      modifies this
      ensures cols == Columns(dataflow.Value()) && colCount == |cols|
      ensures rows == old(rows) && rowCount == old(rowCount) && k == old(k) && varArraySize == old(varArraySize)
    {
      var g := dataflow.Value();
      colCount := CountColumns(g);
      cols := NameColumns(g);
    }

    /**
     * `__create_row`: announces `row_count + non_overlap` rows and arrays
     * of `3 * row_count + 2 * non_overlap + 1` slots, plus `non_mono_phase`
     * on a CSDF graph, then fills them; the rows filled are as many as
     * announced and the coefficients exactly fill the arrays.
     */
    method CreateRow()
      requires PeriodReady(dataflow.Value()) && NoIsolatedTask(dataflow.Value())
      modifies this
      ensures rows == Rows(dataflow.Value()) && rowCount == |rows|
      ensures k == varArraySize
      ensures cols == old(cols) && colCount == old(colCount)
    {
      var g := dataflow.Value();
      var mainCount, nonOverlap, nonMonoPhase := CountRows(g);
      rowCount := mainCount + nonOverlap;
      varArraySize := mainCount * 3 + nonOverlap * 2 + 1;
      if IsCsdf(g.kind) {
        varArraySize := varArraySize + nonMonoPhase;
      }
      k := 1;
      var mainRows, e1 := FillMainRows(g);
      rows := mainRows;
      k := k + e1;
      if IsCsdf(g.kind) {
        var overlapRows, e2 := FillOverlapRows(g);
        rows := rows + overlapRows;
        k := k + e2;
      }
    }

    /**
     * `__solve_prob`, after the simplex returned `ret` and the column values
     * `prim`: a nonzero return raises `RuntimeError`; otherwise the period
     * is `K * RV(t0) * z` for the first task `t0` and its rate `z`, and each
     * phase starts at the value of its column.
     */
    method SolveProb(ret: int, prim: seq<Q>) returns (r: Result<PeriodAnswer>)
      requires |prim| == |Columns(dataflow.Value())|
      ensures ret != 0 ==> r == Err(RuntimeError)
      ensures ret == 0 && (|dataflow.tasks| == 0 || TaskRate(dataflow.Value(), 0).None?) ==> r == Err(IndexError)
      ensures r.Ok? <==> ret == 0 && |dataflow.tasks| > 0 && TaskRate(dataflow.Value(), 0).Some?
      ensures r.Ok? ==>
        r.value.n == MulInt(MulInt(prim[0], dataflow.tasks[0].rf), TaskRate(dataflow.Value(), 0).value) &&
        r.value.starts == Starts(dataflow.Value(), prim, |dataflow.tasks|, 0)
    {
      var g := dataflow.Value();
      if ret != 0 {
        return Err(RuntimeError);
      }
      if |g.tasks| == 0 {
        return Err(IndexError);
      }
      var repV := g.tasks[0].rf;
      var z := TaskRate(g, 0);
      if z.None? {
        return Err(IndexError);
      }
      var n := MulInt(MulInt(prim[0], repV), z.value);
      var starts := ReadStarts(g, prim);
      return Ok(PeriodAnswer(n, starts));
    }

    /** `compute_period`: the columns, the rows, then the answer read from the solver's return and column values. */
    method Compute(ret: int, prim: seq<Q>) returns (r: Result<PeriodAnswer>)
      requires PeriodReady(dataflow.Value()) && NoIsolatedTask(dataflow.Value())
      requires |prim| == |Columns(dataflow.Value())|
      modifies this
      ensures cols == Columns(dataflow.Value()) && colCount == |cols|
      ensures rows == Rows(dataflow.Value()) && rowCount == |rows| && k == varArraySize
      ensures r.Ok? <==> ret == 0 && |dataflow.tasks| > 0
      ensures ret != 0 ==> r == Err(RuntimeError)
      ensures r.Ok? ==>
        r.value.n == MulInt(MulInt(prim[0], dataflow.tasks[0].rf), TaskRate(dataflow.Value(), 0).value) &&
        r.value.starts == Starts(dataflow.Value(), prim, |dataflow.tasks|, 0)
    {
      CreateCol();
      CreateRow();
      r := SolveProb(ret, prim);
    }
  }

  /**
   * `ComputePeriod(dataflow)`: refused with `ValueError` unless the graph
   * is normalized (the `IndexError` of `is_normalized` on an isolated task
   * passes through); once admitted, every task has a rate and a row set.
   */
  method NewComputePeriod(df: DataflowGraph) returns (r: Result<ComputePeriod>)
    ensures IsNormalized(df.Value()).Err? ==> r == Err(IsNormalized(df.Value()).error)
    ensures IsNormalized(df.Value()) == Ok(false) ==> r == Err(ValueError)
    ensures r.Ok? <==> IsNormalized(df.Value()) == Ok(true)
    ensures r.Ok? ==> r.value.dataflow == df && fresh(r.value) && NoIsolatedTask(df.Value())
  {
    var norm := IsNormalized(df.Value());
    if norm.Err? {
      return Err(norm.error);
    }
    if !norm.value {
      return Err(ValueError);
    }
    NormalizedNoIsolated(df.Value());
    var cp := new ComputePeriod(df);
    return Ok(cp);
  }
}
