// `SolverSC1`: the linear program that sizes the initial markings with one
// constraint per pair of phases of an arc's endpoints. The model builds the
// columns and the rows the source hands to GLPK, checks that the counts it
// announces match what it fills, and revises the markings from the
// solver's answer; the simplex itself is outside the model.
module SolveSc1 {
  import opened Arith
  import opened Graph
  import opened Dataflow
  import opened Fractions
  import opened PhaseWeights
  import opened Rounding

  /** A column: the marking `M0` and the factor `FM0` of an arc, or the start variable of a task phase. */
  datatype Column = M0Col(arc: nat) | Fm0Col(arc: nat) | VCol(task: nat, phase: nat)

  /**
   * A row: `FM0 * step - M0 == 0` for an arc, or
   * `v(src/ps) - v(tgt/pt) + M0 >= w` for a pair of phases of an arc.
   */
  datatype Row = StepRow(arc: nat, step: int) | PhaseRow(arc: nat, srcPhase: nat, tgtPhase: nat, w: int)

  // ---------------------------------------------------------------------
  // Columns

  /** The number of phases of the first `n` tasks. */
  function PhaseTotal(g: Graph, n: nat): nat
    requires n <= |g.tasks|
  {
    if n == 0 then 0 else PhaseTotal(g, n - 1) + PhaseRange(g, n - 1)
  }

  /** On an SDF graph every task has one phase. */
  lemma {:induction false} PhaseTotalSdf(g: Graph, n: nat)
    requires IsSdf(g.kind) && n <= |g.tasks|
    ensures PhaseTotal(g, n) == n
  {
    if n > 0 {
      PhaseTotalSdf(g, n - 1);
    }
  }

  /** The phase columns of one task, phase by phase. */
  function TaskColumns(t: nat, n: nat): (r: seq<Column>)
    ensures |r| == n && forall p :: 0 <= p < n ==> r[p] == VCol(t, p)
  {
    seq(n, p requires 0 <= p < n => VCol(t, p))
  }

  /** The phase columns of the first `n` tasks, task by task. */
  function VColumns(g: Graph, n: nat): (r: seq<Column>)
    requires n <= |g.tasks|
    ensures |r| == PhaseTotal(g, n)
  {
    if n == 0 then [] else VColumns(g, n - 1) + TaskColumns(n - 1, PhaseRange(g, n - 1))
  }

  /** The `M0` columns of the first `n` arcs, then their `FM0` columns. */
  function M0Columns(n: nat): (r: seq<Column>)
    ensures |r| == n
  {
    seq(n, i requires 0 <= i < n => M0Col(i))
  }

  function Fm0Columns(n: nat): (r: seq<Column>)
    ensures |r| == n
  {
    seq(n, i requires 0 <= i < n => Fm0Col(i))
  }

  /** The columns in column order: the `M0` of every arc, the `FM0` of every arc, then the phase columns. */
  function Columns(g: Graph): seq<Column> {
    M0Columns(|g.arcs|) + Fm0Columns(|g.arcs|) + VColumns(g, |g.tasks|)
  }

  /** Phase `p` of task `t` has its column at `2 * arcs + (phases of the tasks before t) + p`. */
  lemma {:induction false} VColumnAt(g: Graph, n: nat, t: nat, p: nat)
    requires t < n <= |g.tasks| && p < PhaseRange(g, t)
    ensures PhaseTotal(g, t) + p < PhaseTotal(g, n)
    ensures VColumns(g, n)[PhaseTotal(g, t) + p] == VCol(t, p)
  {
    if t < n - 1 {
      VColumnAt(g, n - 1, t, p);
    }
  }

  /** Every phase of every task has a column, so the row names the source looks up exist. */
  lemma ColumnOfPhase(g: Graph, t: nat, p: nat)
    requires t < |g.tasks| && p < PhaseRange(g, t)
    ensures var c := 2 * |g.arcs| + PhaseTotal(g, t) + p;
      c < |Columns(g)| && Columns(g)[c] == VCol(t, p)
  {
    VColumnAt(g, |g.tasks|, t, p);
  }

  /**
   * The count of `__create_col`: the phases of every task (with the initial
   * phases on a PCG) on a CSDF graph, the tasks on an SDF graph, plus two
   * columns per arc; it is the number of columns the loops then name.
   */
  method CountColumns(g: Graph) returns (colCount: nat)
    ensures colCount == 2 * |g.arcs| + PhaseTotal(g, |g.tasks|)
    ensures colCount == |Columns(g)|
  {
    var tot := 0;
    if IsCsdf(g.kind) {
      for t := 0 to |g.tasks|
        invariant tot == PhaseTotal(g, t)
      {
        tot := tot + PhaseCount(g, t);
        if IsPcg(g.kind) {
          tot := tot + IniPhaseCount(g, t);
        }
      }
    } else {
      tot := |g.tasks|;
      PhaseTotalSdf(g, |g.tasks|);
    }
    colCount := tot + 2 * |g.arcs|;
  }

  /** The phase columns, task by task and phase by phase, as the source's last column loop creates them. */
  method NamePhaseColumns(g: Graph) returns (cols: seq<Column>)
    ensures cols == VColumns(g, |g.tasks|)
  {
    cols := [];
    for t := 0 to |g.tasks|
      invariant cols == VColumns(g, t)
    {
      var n := PhaseRange(g, t);
      var own := [];
      for p := 0 to n
        invariant own == TaskColumns(t, p)
      {
        own := own + [VCol(t, p)];
      }
      cols := cols + own;
    }
  }

  // ---------------------------------------------------------------------
  // Rows

  /** The `FM0 * step == M0` rows of the first `n` arcs: one per arc that is not a self-loop. */
  function StepRows(g: Graph, n: nat): (r: seq<Row>)
    requires n <= |g.arcs|
    ensures forall k :: 0 <= k < |r| ==> r[k].StepRow? && r[k].arc < n && !IsArcReentrant(g.arcs[r[k].arc])
  {
    if n == 0 then []
    else StepRows(g, n - 1) + (if IsArcReentrant(g.arcs[n - 1]) then [] else [StepRow(n - 1, g.arcs[n - 1].gcd)])
  }

  /** The arc, and its phases, that a phase row refers to exist. */
  predicate PhaseRowOk(g: Graph, r: Row)
    requires Shaped(g)
  {
    r.PhaseRow? && r.arc < |g.arcs| && !IsArcReentrant(g.arcs[r.arc]) &&
    r.srcPhase < PhaseRange(g, g.arcs[r.arc].src) && r.tgtPhase < PhaseRange(g, g.arcs[r.arc].tgt)
  }

  /**
   * The row of source phase `ps` and target phase `pt` of arc `i`: its
   * bound is the need of target phase `pt` after `ps` source phases, less
   * the arc's gcd.
   */
  function CellRow(g: Graph, i: nat, ps: nat, pt: nat): (r: Row)
    requires Shaped(g) && i < |g.arcs| && !IsArcReentrant(g.arcs[i])
    requires ps < PhaseRange(g, g.arcs[i].src) && pt < PhaseRange(g, g.arcs[i].tgt)
    ensures PhaseRowOk(g, r)
  {
    ArcListsFit(g, i);
    var a := g.arcs[i];
    PhaseRow(i, ps, pt, Need(ArcLists(g.kind, a), IsPcg(g.kind), ps, pt) - a.gcd)
  }

  /** The rows of source phase `ps` with the first `m` target phases. */
  function TargetRows(g: Graph, i: nat, ps: nat, m: nat): (r: seq<Row>)
    requires Shaped(g) && i < |g.arcs| && !IsArcReentrant(g.arcs[i])
    requires ps < PhaseRange(g, g.arcs[i].src) && m <= PhaseRange(g, g.arcs[i].tgt)
    ensures |r| == m && forall pt :: 0 <= pt < m ==> r[pt] == CellRow(g, i, ps, pt)
  {
    seq(m, pt requires 0 <= pt < m => CellRow(g, i, ps, pt))
  }

  /** The rows of the first `n` source phases of arc `i`, each with every target phase. */
  function SourceRows(g: Graph, i: nat, n: nat): (r: seq<Row>)
    requires Shaped(g) && i < |g.arcs| && !IsArcReentrant(g.arcs[i]) && n <= PhaseRange(g, g.arcs[i].src)
    ensures |r| == n * PhaseRange(g, g.arcs[i].tgt)
    ensures forall k :: 0 <= k < |r| ==> PhaseRowOk(g, r[k]) && r[k].arc == i
  {
    if n == 0 then []
    else
      var front := SourceRows(g, i, n - 1);
      var last := TargetRows(g, i, n - 1, PhaseRange(g, g.arcs[i].tgt));
      assert |front + last| == n * PhaseRange(g, g.arcs[i].tgt) by {
        assert (n - 1) * PhaseRange(g, g.arcs[i].tgt) + PhaseRange(g, g.arcs[i].tgt) == n * PhaseRange(g, g.arcs[i].tgt);
      }
      front + last
  }

  /** The phase rows of the first `n` arcs; a self-loop has none. */
  function PhaseRows(g: Graph, n: nat): (r: seq<Row>)
    requires Shaped(g) && n <= |g.arcs|
    ensures forall k :: 0 <= k < |r| ==> PhaseRowOk(g, r[k]) && r[k].arc < n
  {
    if n == 0 then []
    else if IsArcReentrant(g.arcs[n - 1]) then PhaseRows(g, n - 1)
    else PhaseRows(g, n - 1) + SourceRows(g, n - 1, PhaseRange(g, g.arcs[n - 1].src))
  }

  /** The rows in row order: the step rows, then the phase rows. */
  function Rows(g: Graph): seq<Row>
    requires Shaped(g)
  {
    StepRows(g, |g.arcs|) + PhaseRows(g, |g.arcs|)
  }

  /** Every phase row names two phase columns that exist. */
  lemma PhaseRowsNameColumns(g: Graph, k: nat)
    requires Shaped(g) && |StepRows(g, |g.arcs|)| <= k < |Rows(g)|
    ensures var r := Rows(g)[k]; var a := g.arcs[r.arc];
      r.PhaseRow? && r.arc < |g.arcs| && a.src < |g.tasks| && a.tgt < |g.tasks| &&
      2 * |g.arcs| + PhaseTotal(g, a.src) + r.srcPhase < |Columns(g)| &&
      2 * |g.arcs| + PhaseTotal(g, a.tgt) + r.tgtPhase < |Columns(g)| &&
      Columns(g)[2 * |g.arcs| + PhaseTotal(g, a.src) + r.srcPhase] == VCol(a.src, r.srcPhase) &&
      Columns(g)[2 * |g.arcs| + PhaseTotal(g, a.tgt) + r.tgtPhase] == VCol(a.tgt, r.tgtPhase)
  {
    var r := Rows(g)[k];
    assert r == PhaseRows(g, |g.arcs|)[k - |StepRows(g, |g.arcs|)|];
    ColumnOfPhase(g, g.arcs[r.arc].src, r.srcPhase);
    ColumnOfPhase(g, g.arcs[r.arc].tgt, r.tgtPhase);
  }

  /**
   * The counts of `__create_row`: `f_row_count` (arcs less self-loops) and
   * `row_count` (one per SDF arc, `pc(src) * pc(tgt)` per CSDF arc, with
   * the initial phases on a PCG, for every arc that is not a self-loop);
   * they are the numbers of step rows and phase rows the fill loops add.
   */
  method CountRows(g: Graph) returns (fRowCount: int, rowCount: int)
    requires Shaped(g)
    ensures fRowCount == |StepRows(g, |g.arcs|)|
    ensures rowCount == |PhaseRows(g, |g.arcs|)|
  {
    fRowCount := |g.arcs|;
    for i := 0 to |g.arcs|
      invariant fRowCount == |g.arcs| - i + |StepRows(g, i)|
    {
      if IsArcReentrant(g.arcs[i]) {
        fRowCount := fRowCount - 1;
      }
    }
    rowCount := 0;
    for i := 0 to |g.arcs|
      invariant rowCount == |PhaseRows(g, i)|
    {
      var s, t := g.arcs[i].src, g.arcs[i].tgt;
      if !IsArcReentrant(g.arcs[i]) {
        if IsSdf(g.kind) {
          rowCount := rowCount + 1;
        }
        if IsCsdf(g.kind) && !IsPcg(g.kind) {
          rowCount := rowCount + PhaseCount(g, s) * PhaseCount(g, t);
        }
        if IsPcg(g.kind) {
          rowCount := rowCount + (PhaseCount(g, s) + IniPhaseCount(g, s)) * (PhaseCount(g, t) + IniPhaseCount(g, t));
        }
      }
    }
  }

  /** The step rows, two coefficients each. */
  method FillStepRows(g: Graph) returns (rows: seq<Row>, entries: nat)
    ensures rows == StepRows(g, |g.arcs|) && entries == 2 * |rows|
  {
    rows := [];
    entries := 0;
    for i := 0 to |g.arcs|
      invariant rows == StepRows(g, i) && entries == 2 * |rows|
    {
      if !IsArcReentrant(g.arcs[i]) {
        rows := rows + [StepRow(i, g.arcs[i].gcd)];
        entries := entries + 2;
      }
    }
  }

  /**
   * The inner loop of the weight rows: for source phase `ps`, with
   * `predProd` the production of the phases before it, one row per target
   * phase, the consumption sums kept as running totals.
   */
  method FillTargetRows(g: Graph, i: nat, ps: nat, predProd: int) returns (rows: seq<Row>, entries: nat)
    requires Shaped(g) && i < |g.arcs| && !IsArcReentrant(g.arcs[i]) && ps < PhaseRange(g, g.arcs[i].src)
    requires predProd == Sum(ArcLists(g.kind, g.arcs[i]).prod[..ps])
    ensures rows == TargetRows(g, i, ps, PhaseRange(g, g.arcs[i].tgt)) && entries == 3 * |rows|
  {
    ArcListsFit(g, i);
    var a := g.arcs[i];
    var l := ArcLists(g.kind, a);
    var pcg := IsPcg(g.kind);
    var n := PhaseRange(g, a.tgt);
    var predCons, cons := 0, 0;
    rows := [];
    entries := 0;
    for pt := 0 to n
      invariant rows == TargetRows(g, i, ps, pt) && entries == 3 * pt
      invariant Consumed(l, pt, predCons, cons)
    {
      PairStep(l, pcg, ps, pt, predProd, predCons, cons);
      cons := cons + l.cons[pt];
      if pt > 0 {
        predCons := predCons + l.cons[pt - 1];
      }
      var w := cons - predProd - a.gcd;
      if pcg {
        w := w + predCons + l.thr[pt] - cons;
      }
      rows := rows + [PhaseRow(i, ps, pt, w)];
      entries := entries + (if a.src != a.tgt then 3 else 1);
    }
  }

  /** The weight rows of one arc: the source phases in order, the production before each kept as a running total. */
  method FillArcRows(g: Graph, i: nat) returns (rows: seq<Row>, entries: nat)
    requires Shaped(g) && i < |g.arcs| && !IsArcReentrant(g.arcs[i])
    ensures rows == SourceRows(g, i, PhaseRange(g, g.arcs[i].src)) && entries == 3 * |rows|
  {
    ArcListsFit(g, i);
    var l := ArcLists(g.kind, g.arcs[i]);
    var predProd := 0;
    rows := [];
    entries := 0;
    for ps := 0 to PhaseRange(g, g.arcs[i].src)
      invariant rows == SourceRows(g, i, ps) && entries == 3 * |rows|
      invariant ps > 0 ==> predProd == Sum(l.prod[..ps - 1])
      invariant ps == 0 ==> predProd == 0
    {
      if ps > 0 {
        SumStep(l.prod, ps - 1);
        predProd := predProd + l.prod[ps - 1];
      }
      var more, e := FillTargetRows(g, i, ps, predProd);
      rows := rows + more;
      entries := entries + e;
    }
  }

  /** The weight rows of every arc that is not a self-loop. */
  method FillPhaseRows(g: Graph) returns (rows: seq<Row>, entries: nat)
    requires Shaped(g)
    ensures rows == PhaseRows(g, |g.arcs|) && entries == 3 * |rows|
  {
    rows := [];
    entries := 0;
    for i := 0 to |g.arcs|
      invariant rows == PhaseRows(g, i) && entries == 3 * |rows|
    {
      if !IsArcReentrant(g.arcs[i]) {
        var more, e := FillArcRows(g, i);
        rows := rows + more;
        entries := entries + e;
      }
    }
  }

  // ---------------------------------------------------------------------
  // Revision of the markings

  /** The solver answers a value for every arc. */
  predicate Answers(g: Graph, sol: Solution) {
    |sol.m0| == |g.arcs| && |sol.fm0| == |g.arcs|
  }

  /** Arc `i` after the revision: self-loops keep their marking, the others take the revised one. */
  function RevisedArc(g: Graph, sol: Solution, i: nat): Arc
    requires Answers(g, sol) && i < |g.arcs|
  {
    var a := g.arcs[i];
    if IsArcReentrant(a) then a else a.(m0 := Revised(sol.m0[i], sol.fm0[i], a.gcd))
  }

  /** The step rows hold in the answer, with non-negative factors. */
  predicate StepRowsHold(g: Graph, sol: Solution)
    requires Answers(g, sol)
  {
    forall i :: 0 <= i < |g.arcs| && !IsArcReentrant(g.arcs[i]) ==>
      sol.fm0[i].num >= 0 && Same(sol.m0[i], MulInt(sol.fm0[i], g.arcs[i].gcd))
  }

  /**
   * With positive gcds and an answer satisfying the step rows, every arc
   * that is not a self-loop ends with the least multiple of its gcd at or
   * above the answered marking.
   */
  lemma RevisedMarkings(g: Graph, sol: Solution, i: nat)
    requires Answers(g, sol) && StepRowsHold(g, sol) && i < |g.arcs| && !IsArcReentrant(g.arcs[i])
    requires g.arcs[i].gcd > 0
    ensures var m := RevisedArc(g, sol, i).m0; var b := sol.m0[i];
      Divides(g.arcs[i].gcd, m) && b.num <= m * b.den < b.num + g.arcs[i].gcd * b.den
  {
    RevisedIsNextMultiple(sol.m0[i], sol.fm0[i], g.arcs[i].gcd);
  }

  /** The solver object: the columns and rows it builds for GLPK and the coefficient slots it fills. */
  class SolverSc1 {
    const dataflow: DataflowGraph
    /** The columns named so far, in column order (column `j + 1` is `cols[j]`). */
    var cols: seq<Column>
    /** The column count handed to `glp_add_cols`. */
    var colCount: int
    /** The rows filled so far, in row order. */
    var rows: seq<Row>
    /** The row count handed to `glp_add_rows`. */
    var rowCount: int
    /** The size of the coefficient arrays, one more than the coefficients they are meant to hold. */
    var varArraySize: int
    /** The next free slot of the coefficient arrays. */
    var k: int

    constructor (df: DataflowGraph)
      ensures dataflow == df && cols == [] && rows == [] && colCount == 0 && rowCount == 0 && k == 0 && varArraySize == 0
    {
      dataflow := df;
      cols := [];
      rows := [];
      colCount := 0;
      rowCount := 0;
      k := 0;
      varArraySize := 0;
    }

    /** `__create_col`: as many columns as announced, in the order `Columns` gives. */
    method CreateCol()
      modifies this
      ensures cols == Columns(dataflow.Value()) && colCount == |cols|
      ensures rows == old(rows) && rowCount == old(rowCount) && k == old(k) && varArraySize == old(varArraySize)
    {
      var g := dataflow.Value();
      colCount := CountColumns(g);
      cols := M0Columns(|g.arcs|);
      cols := cols + Fm0Columns(|g.arcs|);
      var phaseCols := NamePhaseColumns(g);
      cols := cols + phaseCols;
    }

    /**
     * `__create_row`: announces `row_count + f_row_count` rows and arrays of
     * `3 * row_count + 2 * f_row_count + 1` slots, then fills the step rows
     * and the weight rows; the rows filled are as many as announced and the
     * coefficients exactly fill the arrays.
     */
    method CreateRow()
      requires Shaped(dataflow.Value())
      modifies this
      ensures rows == Rows(dataflow.Value()) && rowCount == |rows|
      ensures k == varArraySize
      ensures cols == old(cols) && colCount == old(colCount)
    {
      var g := dataflow.Value();
      var fRowCount, phaseRowCount := CountRows(g);
      rowCount := phaseRowCount + fRowCount;
      varArraySize := phaseRowCount * 3 + fRowCount * 2 + 1;
      k := 1;
      var stepRows, e1 := FillStepRows(g);
      var phaseRows, e2 := FillPhaseRows(g);
      rows := stepRows + phaseRows;
      k := k + e1 + e2;
    }

    /**
     * The revision loop of `__solve_prob`, after the simplex: every arc
     * that is not a self-loop takes the marking revised from the solver's
     * answer.
     */
    method SolveProb(sol: Solution)
      requires dataflow.Valid() && Answers(dataflow.Value(), sol)
      modifies dataflow
      ensures dataflow.Valid()
      ensures |dataflow.arcs| == |old(dataflow.arcs)|
      ensures forall i :: 0 <= i < |dataflow.arcs| ==> dataflow.arcs[i] == RevisedArc(old(dataflow.Value()), sol, i)
      ensures dataflow.tasks == old(dataflow.tasks) && dataflow.taskByName == old(dataflow.taskByName)
    {
      var dg := dataflow;
      ghost var g := dg.Value();
      for i := 0 to |dg.arcs|
        invariant dg.Valid() && |dg.arcs| == |g.arcs| && dg.tasks == g.tasks && dg.taskByName == old(dg.taskByName)
        invariant forall j :: 0 <= j < i ==> dg.arcs[j] == RevisedArc(g, sol, j)
        invariant forall j :: i <= j < |dg.arcs| ==> dg.arcs[j] == g.arcs[j]
      {
        var a := dg.arcs[i];
        if !IsArcReentrant(a) {
          dg.SetInitialMarking(i, Revised(sol.m0[i], sol.fm0[i], a.gcd));
        }
      }
    }

    /** `compute_initial_marking`: the columns and rows handed to the solver, then the revised markings. */
    method ComputeInitialMarking(sol: Solution)
      requires dataflow.Valid() && Shaped(dataflow.Value()) && Answers(dataflow.Value(), sol)
      modifies this, dataflow
      ensures cols == Columns(old(dataflow.Value())) && colCount == |cols|
      ensures rows == Rows(old(dataflow.Value())) && rowCount == |rows| && k == varArraySize
      ensures dataflow.Valid() && |dataflow.arcs| == |old(dataflow.arcs)|
      ensures forall i :: 0 <= i < |dataflow.arcs| ==> dataflow.arcs[i] == RevisedArc(old(dataflow.Value()), sol, i)
      ensures dataflow.tasks == old(dataflow.tasks) && dataflow.taskByName == old(dataflow.taskByName)
    {
      CreateCol();
      CreateRow();
      SolveProb(sol);
    }
  }
}
