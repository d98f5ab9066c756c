// `SolverSC2`: the linear program that sizes the initial markings with one
// start variable per arc and one constraint per pair of an in-arc and an
// out-arc of every task. The model builds the columns and rows handed to
// GLPK, checks the announced counts against what is filled, and revises the
// markings from the solver's answer; the simplex is outside the model.
module SolveSc2 {
  import opened Arith
  import opened Graph
  import opened Dataflow
  import opened Fractions
  import opened PhaseWeights
  import opened Rounding

  /** A column: the marking `M0`, the factor `FM0` and the start variable `v` of an arc. */
  datatype Column = M0Col(arc: nat) | Fm0Col(arc: nat) | VCol(arc: nat)

  /**
   * A row: `FM0 * step - M0 == 0` for an arc, or
   * `v(in) - v(out) + M0(in) >= w` for an in-arc and an out-arc of one task.
   */
  datatype Row = StepRow(arc: nat, step: int) | PairRow(arcIn: nat, arcOut: nat, w: int)

  // ---------------------------------------------------------------------
  // Columns

  function M0Columns(n: nat): (r: seq<Column>)
    ensures |r| == n && forall i :: 0 <= i < n ==> r[i] == M0Col(i)
  {
    seq(n, i requires 0 <= i < n => M0Col(i))
  }

  function Fm0Columns(n: nat): (r: seq<Column>)
    ensures |r| == n && forall i :: 0 <= i < n ==> r[i] == Fm0Col(i)
  {
    seq(n, i requires 0 <= i < n => Fm0Col(i))
  }

  function VColumns(n: nat): (r: seq<Column>)
    ensures |r| == n && forall i :: 0 <= i < n ==> r[i] == VCol(i)
  {
    seq(n, i requires 0 <= i < n => VCol(i))
  }

  /** `__create_col`: the `M0`, then the `FM0`, then the `v` column of every arc. */
  function Columns(g: Graph): (r: seq<Column>)
    ensures |r| == 3 * |g.arcs|
    ensures forall i :: 0 <= i < |g.arcs| ==>
      r[i] == M0Col(i) && r[|g.arcs| + i] == Fm0Col(i) && r[2 * |g.arcs| + i] == VCol(i)
  {
    var n := |g.arcs|;
    M0Columns(n) + Fm0Columns(n) + VColumns(n)
  }

  // ---------------------------------------------------------------------
  // Self-loops among incident arcs

  predicate Indices(es: seq<Ends>, idx: seq<nat>) {
    forall k :: 0 <= k < |idx| ==> idx[k] < |es|
  }

  /** An arc is a self-loop when it leaves the task it enters. */
  predicate IsLoop(e: Ends) {
    e.src == e.tgt
  }

  /** `IsArcReentrant` read on the ends of the arcs. */
  lemma LoopIsReentrant(arcs: seq<Arc>, i: nat)
    requires i < |arcs|
    ensures IsLoop(EndsOf(arcs)[i]) <==> IsArcReentrant(arcs[i])
  {
  }

  /** How many of the arcs listed in `idx` are self-loops. */
  function Loops(es: seq<Ends>, idx: seq<nat>): (r: nat)
    requires Indices(es, idx)
    ensures r <= |idx|
  {
    if |idx| == 0 then 0
    else Loops(es, idx[..|idx| - 1]) + (if IsLoop(es[idx[|idx| - 1]]) then 1 else 0)
  }

  lemma LoopsAppend(es: seq<Ends>, idx: seq<nat>, j: nat)
    requires Indices(es, idx) && j < |es|
    ensures Loops(es, idx + [j]) == Loops(es, idx) + (if IsLoop(es[j]) then 1 else 0)
  {
    assert (idx + [j])[..|idx|] == idx;
  }

  /** The self-loops on task `t` among the first `n` arcs. */
  function SelfLoops(es: seq<Ends>, t: nat, n: nat): nat
    requires n <= |es|
  {
    if n == 0 then 0
    else SelfLoops(es, t, n - 1) + (if IsLoop(es[n - 1]) && es[n - 1].tgt == t then 1 else 0)
  }

  /** Counted among the in-arcs of `t`, the self-loops are those on `t`. */
  lemma {:induction false} LoopsInArcs(es: seq<Ends>, t: nat, n: nat)
    requires n <= |es|
    ensures Loops(es, InArcsTo(es, t, n)) == SelfLoops(es, t, n)
  {
    if n > 0 {
      LoopsInArcs(es, t, n - 1);
      var front := InArcsTo(es, t, n - 1);
      if es[n - 1].tgt == t {
        LoopsAppend(es, front, n - 1);
      } else {
        assert InArcsTo(es, t, n) == front;
      }
    }
  }

  /** Counted among the out-arcs of `t`, the self-loops are those on `t` too. */
  lemma {:induction false} LoopsOutArcs(es: seq<Ends>, t: nat, n: nat)
    requires n <= |es|
    ensures Loops(es, OutArcsTo(es, t, n)) == SelfLoops(es, t, n)
  {
    if n > 0 {
      LoopsOutArcs(es, t, n - 1);
      var front := OutArcsTo(es, t, n - 1);
      if es[n - 1].src == t {
        LoopsAppend(es, front, n - 1);
      } else {
        assert OutArcsTo(es, t, n) == front;
      }
    }
  }

  /** The self-loops among the first `n` arcs. */
  function AllLoops(es: seq<Ends>, n: nat): nat
    requires n <= |es|
  {
    if n == 0 then 0 else AllLoops(es, n - 1) + (if IsLoop(es[n - 1]) then 1 else 0)
  }

  /** The self-loops among the first `n` arcs that enter one of the first `m` tasks. */
  function LoopsUpTo(es: seq<Ends>, m: nat, n: nat): nat
    requires n <= |es|
  {
    if m == 0 then 0 else LoopsUpTo(es, m - 1, n) + SelfLoops(es, m - 1, n)
  }

  /** One more arc adds one self-loop to the task it enters, if it is one. */
  lemma {:induction false} LoopsUpToStep(es: seq<Ends>, m: nat, n: nat)
    requires 0 < n <= |es|
    ensures LoopsUpTo(es, m, n) == LoopsUpTo(es, m, n - 1) + (if IsLoop(es[n - 1]) && es[n - 1].tgt < m then 1 else 0)
  {
    if m > 0 {
      LoopsUpToStep(es, m - 1, n);
    }
  }

  /** Counted task by task, the self-loops are all the self-loops. */
  lemma {:induction false} LoopsByTask(es: seq<Ends>, m: nat, n: nat)
    requires n <= |es| && forall i :: 0 <= i < |es| ==> es[i].tgt < m
    ensures LoopsUpTo(es, m, n) == AllLoops(es, n)
  {
    if n > 0 {
      LoopsUpToStep(es, m, n);
      LoopsByTask(es, m, n - 1);
    } else {
      NoLoopsUpTo(es, m);
    }
  }

  lemma {:induction false} NoLoopsUpTo(es: seq<Ends>, m: nat)
    ensures LoopsUpTo(es, m, 0) == 0
  {
    if m > 0 {
      NoLoopsUpTo(es, m - 1);
    }
  }

  // ---------------------------------------------------------------------
  // `__get_max`

  /**
   * The lists `__get_max` reads for an in-arc and an out-arc of one task:
   * the productions of the out-arc, the consumptions and thresholds of the
   * in-arc, each preceded on a PCG by its initial list.
   */
  function PairLists(k: Kind, ain: Arc, aout: Arc): Lists {
    Lists(ArcLists(k, aout).prod, ArcLists(k, ain).cons, ArcLists(k, ain).thr)
  }

  /** The task's phases fit the lists of an in-arc and an out-arc of it. */
  predicate PairFits(g: Graph, i: nat, o: nat)
    requires Shaped(g)
  {
    i < |g.arcs| && o < |g.arcs| && g.arcs[i].tgt == g.arcs[o].src
  }

  lemma PairListsFit(g: Graph, i: nat, o: nat)
    requires Shaped(g) && PairFits(g, i, o)
    ensures Fits(PairLists(g.kind, g.arcs[i], g.arcs[o]), IsPcg(g.kind), PhaseRange(g, g.arcs[i].tgt))
    ensures |g.arcs[i].cons| > 0
  {
    ArcListsFit(g, i);
    ArcListsFit(g, o);
  }

  /**
   * `__get_max(in, out)`: the larger of the first cyclic consumption of the
   * in-arc and the need of every phase of the task, phase `p` after `p`
   * completed phases of the out-arc's producer (the same task).
   */
  function PairMax(g: Graph, i: nat, o: nat): (r: int)
    requires Shaped(g) && PairFits(g, i, o)
  {
    PairListsFit(g, i, o);
    RunningMax(PairLists(g.kind, g.arcs[i], g.arcs[o]), IsPcg(g.kind), g.arcs[i].cons[0], PhaseRange(g, g.arcs[i].tgt))
  }

  /** `__get_max`, the phase loop with its running sums. */
  method GetMax(g: Graph, i: nat, o: nat) returns (retMax: int)
    requires Shaped(g) && PairFits(g, i, o)
    ensures retMax == PairMax(g, i, o)
  {
    PairListsFit(g, i, o);
    retMax := WalkMax(PairLists(g.kind, g.arcs[i], g.arcs[o]), IsPcg(g.kind), g.arcs[i].cons[0], PhaseRange(g, g.arcs[i].tgt));
  }

  /**
   * `__get_max` as written takes the in-arc's thresholds cyclic list first
   * and initial list after, while its consumptions put the initial list
   * first; the thresholds are then paired with the wrong phases.
   */
  function PairListsAsWritten(ain: Arc, aout: Arc): Lists {
    Lists(aout.iniProd + aout.prod, ain.iniCons + ain.cons, ain.thr + ain.iniThr)
  }

  /**
   * A PCG task with one initial and one cyclic phase, initial threshold 1
   * and cyclic threshold 5, consuming one token in each phase and producing
   * none: the cyclic phase needs the token consumed before it plus 5, so
   * 6 tokens; the thresholds as written give a bound of 5.
   */
  lemma PairMaxAsWrittenMisses()
    ensures var ain := Arc(1, 0, 0, "a0", 0, 1, 1, [0], [1], [0], [1], [5], [1]);
      var aout := Arc(0, 1, 0, "a1", 0, 1, 1, [0], [1], [0], [1], [1], [1]);
      RunningMax(PairListsAsWritten(ain, aout), true, ain.cons[0], 2) == 5 &&
      RunningMax(PairLists(PCG, ain, aout), true, ain.cons[0], 2) == 6 &&
      Need(PairLists(PCG, ain, aout), true, 1, 1) == 6
  {
    var ain := Arc(1, 0, 0, "a0", 0, 1, 1, [0], [1], [0], [1], [5], [1]);
    var aout := Arc(0, 1, 0, "a1", 0, 1, 1, [0], [1], [0], [1], [1], [1]);
    var w := PairListsAsWritten(ain, aout);
    var c := PairLists(PCG, ain, aout);
    assert w.cons[..0] == [] && w.cons[..1] == [1] && w.prod[..0] == [] && w.prod[..1] == [0];
    assert c.cons[..0] == [] && c.cons[..1] == [1] && c.prod[..0] == [] && c.prod[..1] == [0];
    assert Sum([1]) == 1 && Sum([0]) == 0 by {
      assert [1][..0] == [] && [0][..0] == [];
    }
    assert Need(w, true, 0, 0) == 5 && Need(w, true, 1, 1) == 2;
    assert RunningMax(w, true, 1, 1) == 5;
    assert Need(c, true, 0, 0) == 1 && Need(c, true, 1, 1) == 6;
    assert RunningMax(c, true, 1, 1) == 1;
  }

  // ---------------------------------------------------------------------
  // Rows

  /** The `FM0 * step == M0` rows of the first `n` arcs: one per arc that is not a self-loop. */
  function StepRows(g: Graph, n: nat): (r: seq<Row>)
    requires n <= |g.arcs|
    ensures |r| == n - AllLoops(EndsOf(g.arcs), n)
  {
    if n == 0 then []
    else
      LoopIsReentrant(g.arcs, n - 1);
      StepRows(g, n - 1) + (if IsArcReentrant(g.arcs[n - 1]) then [] else [StepRow(n - 1, g.arcs[n - 1].gcd)])
  }

  /** The row of in-arc `i` and out-arc `o`: the bound is `__get_max` less the in-arc's gcd. */
  function PairCell(g: Graph, i: nat, o: nat): Row
    requires Shaped(g) && PairFits(g, i, o)
  {
    PairRow(i, o, PairMax(g, i, o) - g.arcs[i].gcd)
  }

  /** The (in-arc, out-arc) pairs of in-arc `i` with the out-arcs listed in `outs` that are not self-loops. */
  function OutPairs(es: seq<Ends>, i: nat, outs: seq<nat>): (r: seq<(nat, nat)>)
    requires i < |es| && Indices(es, outs)
    requires forall k :: 0 <= k < |outs| ==> es[outs[k]].src == es[i].tgt
    ensures |r| == |outs| - Loops(es, outs)
    ensures forall k :: 0 <= k < |r| ==> r[k].0 == i && r[k].1 < |es| && es[r[k].1].src == es[i].tgt
  {
    if |outs| == 0 then []
    else
      var o := outs[|outs| - 1];
      OutPairs(es, i, outs[..|outs| - 1]) + (if IsLoop(es[o]) then [] else [(i, o)])
  }

  /** The pairs of task `t` for the in-arcs listed in `ins` that are not self-loops, each with every out-arc that is not one. */
  function InPairs(es: seq<Ends>, t: nat, ins: seq<nat>, outs: seq<nat>): (r: seq<(nat, nat)>)
    requires Indices(es, ins) && forall k :: 0 <= k < |ins| ==> es[ins[k]].tgt == t
    requires Indices(es, outs) && forall k :: 0 <= k < |outs| ==> es[outs[k]].src == t
    ensures forall k :: 0 <= k < |r| ==>
      r[k].0 < |es| && r[k].1 < |es| && es[r[k].0].tgt == t && es[r[k].1].src == t
  {
    if |ins| == 0 then []
    else
      var i := ins[|ins| - 1];
      var front := InPairs(es, t, ins[..|ins| - 1], outs);
      if IsLoop(es[i]) then front else front + OutPairs(es, i, outs)
  }

  /** `k * m`, counted one `m` at a time. */
  function Rect(k: int, m: int): int {
    if k <= 0 then 0 else Rect(k - 1, m) + m
  }

  lemma {:induction false} RectIsProduct(k: nat, m: int)
    ensures Rect(k, m) == k * m
  {
    if k > 0 {
      RectIsProduct(k - 1, m);
    }
  }

  /** Each in-arc that is not a self-loop brings one pair per out-arc that is not one. */
  lemma {:induction false} InPairsCount(es: seq<Ends>, t: nat, ins: seq<nat>, outs: seq<nat>)
    requires Indices(es, ins) && forall k :: 0 <= k < |ins| ==> es[ins[k]].tgt == t
    requires Indices(es, outs) && forall k :: 0 <= k < |outs| ==> es[outs[k]].src == t
    ensures |InPairs(es, t, ins, outs)| == Rect(|ins| - Loops(es, ins), |outs| - Loops(es, outs))
  {
    if |ins| > 0 {
      var front := ins[..|ins| - 1];
      InPairsCount(es, t, front, outs);
      var a, m := |front| - Loops(es, front), |outs| - Loops(es, outs);
      var i := ins[|ins| - 1];
      if IsLoop(es[i]) {
        assert InPairs(es, t, ins, outs) == InPairs(es, t, front, outs);
        assert |ins| - Loops(es, ins) == a;
      } else {
        assert InPairs(es, t, ins, outs) == InPairs(es, t, front, outs) + OutPairs(es, i, outs);
        assert |ins| - Loops(es, ins) == a + 1;
        assert Rect(a + 1, m) == Rect(a, m) + m;
      }
    }
  }

  /** The pairs of task `t`: its in-arcs in order, each with its out-arcs in order, self-loops left out. */
  function TaskPairList(es: seq<Ends>, t: nat): (r: seq<(nat, nat)>)
    ensures forall k :: 0 <= k < |r| ==>
      r[k].0 < |es| && r[k].1 < |es| && es[r[k].0].tgt == t && es[r[k].1].src == t
  {
    InPairs(es, t, InArcsTo(es, t, |es|), OutArcsTo(es, t, |es|))
  }

  /** Every pair is an in-arc and an out-arc of one task. */
  predicate Linked(es: seq<Ends>, ps: seq<(nat, nat)>) {
    forall k :: 0 <= k < |ps| ==> ps[k].0 < |es| && ps[k].1 < |es| && es[ps[k].0].tgt == es[ps[k].1].src
  }

  /** The rows of the pairs, in order. */
  function Cells(g: Graph, ps: seq<(nat, nat)>): (r: seq<Row>)
    requires Shaped(g) && Linked(EndsOf(g.arcs), ps)
    ensures |r| == |ps|
  {
    seq(|ps|, k requires 0 <= k < |ps| => PairCell(g, ps[k].0, ps[k].1))
  }

  lemma CellsAppend(g: Graph, ps: seq<(nat, nat)>, qs: seq<(nat, nat)>)
    requires Shaped(g) && Linked(EndsOf(g.arcs), ps) && Linked(EndsOf(g.arcs), qs)
    ensures Linked(EndsOf(g.arcs), ps + qs) && Cells(g, ps + qs) == Cells(g, ps) + Cells(g, qs)
  {
  }

  /** The rows of one task. */
  function TaskRows(g: Graph, t: nat): (r: seq<Row>)
    requires Shaped(g)
    ensures |r| == |TaskPairList(EndsOf(g.arcs), t)|
  {
    Cells(g, TaskPairList(EndsOf(g.arcs), t))
  }

  /** The pairs of the first `m` tasks, task by task. */
  function AllPairs(es: seq<Ends>, m: nat): seq<(nat, nat)> {
    if m == 0 then [] else AllPairs(es, m - 1) + TaskPairList(es, m - 1)
  }

  /** Each pair listed joins an in-arc and an out-arc of one task. */
  lemma {:induction false} AllPairsLinked(es: seq<Ends>, m: nat)
    ensures Linked(es, AllPairs(es, m))
  {
    if m > 0 {
      AllPairsLinked(es, m - 1);
    }
  }

  /** The pair rows of the first `m` tasks. */
  function PairRows(g: Graph, m: nat): (r: seq<Row>)
    requires Shaped(g)
    ensures |r| == |AllPairs(EndsOf(g.arcs), m)|
  {
    AllPairsLinked(EndsOf(g.arcs), m);
    Cells(g, AllPairs(EndsOf(g.arcs), m))
  }

  /** One more task appends its rows. */
  lemma PairRowsStep(g: Graph, t: nat)
    requires Shaped(g)
    ensures PairRows(g, t + 1) == PairRows(g, t) + TaskRows(g, t)
  {
    var es := EndsOf(g.arcs);
    AllPairsLinked(es, t);
    CellsAppend(g, AllPairs(es, t), TaskPairList(es, t));
  }

  /** One more in-arc appends its rows with the out-arcs, unless it is a self-loop. */
  lemma InRowsStep(g: Graph, es: seq<Ends>, t: nat, ins: seq<nat>, outs: seq<nat>, k: nat)
    requires Shaped(g) && es == EndsOf(g.arcs) && k < |ins|
    requires Indices(es, ins) && forall j :: 0 <= j < |ins| ==> es[ins[j]].tgt == t
    requires Indices(es, outs) && forall j :: 0 <= j < |outs| ==> es[outs[j]].src == t
    ensures !IsArcReentrant(g.arcs[ins[k]]) ==>
      Cells(g, InPairs(es, t, ins[..k + 1], outs)) ==
      Cells(g, InPairs(es, t, ins[..k], outs)) + Cells(g, OutPairs(es, ins[k], outs))
    ensures IsArcReentrant(g.arcs[ins[k]]) ==>
      Cells(g, InPairs(es, t, ins[..k + 1], outs)) == Cells(g, InPairs(es, t, ins[..k], outs))
  {
    assert ins[..k + 1][..k] == ins[..k];
    LoopIsReentrant(g.arcs, ins[k]);
    if !IsArcReentrant(g.arcs[ins[k]]) {
      CellsAppend(g, InPairs(es, t, ins[..k], outs), OutPairs(es, ins[k], outs));
    }
  }

  /** One more out-arc appends its row, unless it is a self-loop. */
  lemma OutRowsStep(g: Graph, es: seq<Ends>, i: nat, outs: seq<nat>, k: nat)
    requires Shaped(g) && es == EndsOf(g.arcs) && i < |es| && k < |outs|
    requires Indices(es, outs) && forall j :: 0 <= j < |outs| ==> es[outs[j]].src == es[i].tgt
    ensures PairFits(g, i, outs[k])
    ensures !IsArcReentrant(g.arcs[outs[k]]) ==>
      Cells(g, OutPairs(es, i, outs[..k + 1])) == Cells(g, OutPairs(es, i, outs[..k])) + [PairCell(g, i, outs[k])]
    ensures IsArcReentrant(g.arcs[outs[k]]) ==>
      Cells(g, OutPairs(es, i, outs[..k + 1])) == Cells(g, OutPairs(es, i, outs[..k]))
  {
    assert outs[..k + 1][..k] == outs[..k];
    LoopIsReentrant(g.arcs, outs[k]);
    var front := OutPairs(es, i, outs[..k]);
    if !IsArcReentrant(g.arcs[outs[k]]) {
      assert OutPairs(es, i, outs[..k + 1]) == front + [(i, outs[k])];
      CellsAppend(g, front, [(i, outs[k])]);
      assert Cells(g, [(i, outs[k])]) == [PairCell(g, i, outs[k])];
    } else {
      assert OutPairs(es, i, outs[..k + 1]) == front;
    }
  }

  /** The rows in row order: the step rows, then the pair rows task by task. */
  function Rows(g: Graph): seq<Row>
    requires Shaped(g)
  {
    StepRows(g, |g.arcs|) + PairRows(g, |g.tasks|)
  }

  /** The pairs of task `t` counted from its degrees: `(indegree - loops) * (outdegree - loops)`. */
  function TaskPairs(es: seq<Ends>, t: nat): int {
    var ins, outs := InArcsTo(es, t, |es|), OutArcsTo(es, t, |es|);
    Rect(|ins| - Loops(es, ins), |outs| - Loops(es, outs))
  }

  /** A task's pairs number `(indegree - loops) * (outdegree - loops)`. */
  lemma TaskPairCount(es: seq<Ends>, t: nat)
    ensures |TaskPairList(es, t)| == TaskPairs(es, t)
  {
    InPairsCount(es, t, InArcsTo(es, t, |es|), OutArcsTo(es, t, |es|));
  }

  /** The pairs of the first `m` tasks counted from their degrees. */
  function PairCount(es: seq<Ends>, m: nat): int {
    if m == 0 then 0 else PairCount(es, m - 1) + TaskPairs(es, m - 1)
  }

  /** Listed task by task, the pairs number what the degrees give. */
  lemma {:induction false} AllPairsCount(es: seq<Ends>, m: nat)
    ensures |AllPairs(es, m)| == PairCount(es, m)
  {
    if m > 0 {
      AllPairsCount(es, m - 1);
      TaskPairCount(es, m - 1);
    }
  }

  /** `a * b`, the product the row count adds for one task. */
  method Times(a: nat, b: nat) returns (r: nat)
    ensures r == Rect(a, b)
  {
    r := a * b;
    RectIsProduct(a, b);
  }

  /** The self-loops entering `t` leave it too: one count serves both degrees. */
  lemma CountStep(es: seq<Ends>, t: nat, re: nat)
    requires re == Loops(es, InArcsTo(es, t, |es|))
    ensures re == SelfLoops(es, t, |es|) && re <= |OutArcsTo(es, t, |es|)|
    ensures TaskPairs(es, t) == Rect(|InArcsTo(es, t, |es|)| - re, |OutArcsTo(es, t, |es|)| - re)
  {
    LoopsInArcs(es, t, |es|);
    LoopsOutArcs(es, t, |es|);
    assert Loops(es, OutArcsTo(es, t, |es|)) == re;
  }

  /**
   * The counts of `__create_row`: `f_row_count`, the arcs less the
   * self-loops entering each task, and `row_count`, the products of each
   * task's degrees less its self-loops; they are the numbers of step rows
   * and of pairs the fill loops make rows of.
   */
  method CountRows(g: Graph) returns (fRowCount: int, rowCount: int)
    requires EndpointsOk(g)
    ensures fRowCount == |StepRows(g, |g.arcs|)|
    ensures rowCount == PairCount(EndsOf(g.arcs), |g.tasks|)
  {
    var es := EndsOf(g.arcs);
    fRowCount := |g.arcs|;
    rowCount := 0;
    for t := 0 to |g.tasks|
      invariant fRowCount == |g.arcs| - LoopsUpTo(es, t, |g.arcs|)
      invariant rowCount == PairCount(es, t)
    {
      var ins, outs := InArcs(g.arcs, t), OutArcs(g.arcs, t);
      var re := CountLoops(g.arcs, ins);
      CountStep(es, t, re);
      fRowCount := fRowCount - re;
      var pairs := Times(|ins| - re, |outs| - re);
      rowCount := rowCount + pairs;
    }
    LoopsByTask(es, |g.tasks|, |g.arcs|);
  }

  /** The self-loops among the arcs listed in `idx`, counted one by one. */
  method CountLoops(arcs: seq<Arc>, idx: seq<nat>) returns (re: nat)
    requires forall k :: 0 <= k < |idx| ==> idx[k] < |arcs|
    ensures re == Loops(EndsOf(arcs), idx)
  {
    ghost var es := EndsOf(arcs);
    re := 0;
    for k := 0 to |idx|
      invariant re == Loops(es, idx[..k])
    {
      assert idx[..k + 1][..k] == idx[..k];
      LoopIsReentrant(arcs, idx[k]);
      if IsArcReentrant(arcs[idx[k]]) {
        re := re + 1;
      }
    }
    assert idx[..|idx|] == idx;
  }

  /** The step rows, two coefficients each. */
  method FillStepRows(g: Graph) returns (rows: seq<Row>, entries: nat)
    ensures rows == StepRows(g, |g.arcs|) && entries == 2 * |rows|
  {
    rows := [];
    entries := 0;
    for i := 0 to |g.arcs|
      invariant rows == StepRows(g, i) && entries == 2 * |rows|
    {
      if !IsArcReentrant(g.arcs[i]) {
        rows := rows + [StepRow(i, g.arcs[i].gcd)];
        entries := entries + 2;
      }
    }
  }

  /** The rows of in-arc `i` with every out-arc of its target; the two start variables differ, so three coefficients each. */
  method FillOutRows(g: Graph, i: nat) returns (rows: seq<Row>, entries: nat)
    requires Shaped(g) && i < |g.arcs| && !IsArcReentrant(g.arcs[i])
    ensures rows == Cells(g, OutPairs(EndsOf(g.arcs), i, OutArcs(g.arcs, g.arcs[i].tgt))) && entries == 3 * |rows|
  {
    ghost var es := EndsOf(g.arcs);
    var outs := OutArcs(g.arcs, g.arcs[i].tgt);
    var step := g.arcs[i].gcd;
    rows := [];
    entries := 0;
    for k := 0 to |outs|
      invariant rows == Cells(g, OutPairs(es, i, outs[..k])) && entries == 3 * |rows|
    {
      OutRowsStep(g, es, i, outs, k);
      var o := outs[k];
      if !IsArcReentrant(g.arcs[o]) {
        var maxV := GetMax(g, i, o);
        assert PairRow(i, o, maxV - step) == PairCell(g, i, o);
        rows := rows + [PairRow(i, o, maxV - step)];
        entries := entries + (if i != o then 3 else 1);
      }
    }
    assert outs[..|outs|] == outs;
  }

  /** The rows of one task: its in-arcs that are not self-loops, in order. */
  method FillTaskRows(g: Graph, t: nat) returns (rows: seq<Row>, entries: nat)
    requires Shaped(g)
    ensures rows == TaskRows(g, t) && entries == 3 * |rows|
  {
    ghost var es := EndsOf(g.arcs);
    var ins, outs := InArcs(g.arcs, t), OutArcs(g.arcs, t);
    rows := [];
    entries := 0;
    for k := 0 to |ins|
      invariant rows == Cells(g, InPairs(es, t, ins[..k], outs)) && entries == 3 * |rows|
    {
      InRowsStep(g, es, t, ins, outs, k);
      if !IsArcReentrant(g.arcs[ins[k]]) {
        var more, e := FillOutRows(g, ins[k]);
        rows := rows + more;
        entries := entries + e;
      }
    }
    assert ins[..|ins|] == ins;
  }

  /** The pair rows, task by task. */
  method FillPairRows(g: Graph) returns (rows: seq<Row>, entries: nat)
    requires Shaped(g)
    ensures rows == PairRows(g, |g.tasks|) && entries == 3 * |rows|
  {
    rows := [];
    entries := 0;
    for t := 0 to |g.tasks|
      invariant rows == PairRows(g, t) && entries == 3 * |rows|
    {
      var more, e := FillTaskRows(g, t);
      PairRowsStep(g, t);
      rows := rows + more;
      entries := entries + e;
    }
  }

  // ---------------------------------------------------------------------
  // Revision of the markings

  /**
   * The revision as written when the factor is fractional:
   * `int((fm0 + 1) * step)`, the product truncated after the
   * multiplication.
   */
  function RevisedAsWritten(buf: Q, fm0: Q, step: int): int {
    if IsIntegral(fm0) then Trunc(buf) else Trunc(Mul(AddInt(fm0, 1), Int(step)))
  }

  /**
   * With a factor of 1/2 and a step of 2 (marking 1), the revision as
   * written gives 3, not a multiple of the step; the revision the total
   * on the next line computes, `int(fm0 + 1) * step`, gives 2.
   */
  lemma RevisedAsWrittenNotMultiple()
    ensures RevisedAsWritten(Frac(1, 1), Frac(1, 2), 2) == 3 && !Divides(2, 3)
    ensures Revised(Frac(1, 1), Frac(1, 2), 2) == 2
  {
  }

  /** The solver answers a value for every arc. */
  predicate Answers(g: Graph, sol: Solution) {
    |sol.m0| == |g.arcs| && |sol.fm0| == |g.arcs|
  }

  /** Arc `i` after the revision: self-loops keep their marking, the others take the revised one. */
  function RevisedArc(g: Graph, sol: Solution, i: nat): Arc
    requires Answers(g, sol) && i < |g.arcs|
  {
    var a := g.arcs[i];
    if IsArcReentrant(a) then a else a.(m0 := Revised(sol.m0[i], sol.fm0[i], a.gcd))
  }

  /** The solver object: the columns and rows it builds for GLPK and the coefficient slots it fills. */
  class SolverSc2 {
    const dataflow: DataflowGraph
    /** The columns named so far, in column order (column `j + 1` is `cols[j]`). */
    var cols: seq<Column>
    /** The column count handed to `glp_add_cols`. */
    var colCount: int
    /** The rows filled so far, in row order. */
    var rows: seq<Row>
    /** The row count handed to `glp_add_rows`. */
    var rowCount: int
    /** The size of the coefficient arrays, one more than the coefficients they are meant to hold. */
    var varArraySize: int
    /** The next free slot of the coefficient arrays. */
    var k: int

    constructor (df: DataflowGraph)
      ensures dataflow == df && cols == [] && rows == [] && colCount == 0 && rowCount == 0 && k == 0 && varArraySize == 0
    {
      dataflow := df;
      cols := [];
      rows := [];
      colCount := 0;
      rowCount := 0;
      k := 0;
      varArraySize := 0;
    }

    /** `__create_col`: three columns per arc, named in the order `Columns` gives. */
    method CreateCol()
      modifies this
      ensures cols == Columns(dataflow.Value()) && colCount == |cols|
      ensures rows == old(rows) && rowCount == old(rowCount) && k == old(k) && varArraySize == old(varArraySize)
    {
      var n := |dataflow.arcs|;
      var m0 := [];
      for i := 0 to n
        invariant m0 == M0Columns(i)
      {
        m0 := m0 + [M0Col(i)];
      }
      var fm0 := [];
      for i := 0 to n
        invariant fm0 == Fm0Columns(i)
      {
        fm0 := fm0 + [Fm0Col(i)];
      }
      var v := [];
      for i := 0 to n
        invariant v == VColumns(i)
      {
        v := v + [VCol(i)];
      }
      colCount := n * 3;
      cols := m0 + fm0 + v;
    }

    /**
     * `__create_row`: announces `row_count + f_row_count` rows and arrays of
     * `3 * row_count + 2 * f_row_count + 1` slots, then fills the step rows
     * and the pair rows; the rows filled are as many as announced and the
     * coefficients exactly fill the arrays.
     */
    method CreateRow()
      requires Shaped(dataflow.Value())
      modifies this
      ensures rows == Rows(dataflow.Value()) && rowCount == |rows|
      ensures k == varArraySize
      ensures cols == old(cols) && colCount == old(colCount)
    {
      var g := dataflow.Value();
      var fRowCount, pairRowCount := CountRows(g);
      AllPairsCount(EndsOf(g.arcs), |g.tasks|);
      rowCount := pairRowCount + fRowCount;
      varArraySize := pairRowCount * 3 + fRowCount * 2 + 1;
      k := 1;
      var stepRows, e1 := FillStepRows(g);
      var pairRows, e2 := FillPairRows(g);
      rows := stepRows + pairRows;
      k := k + e1 + e2;
    }

    /**
     * The revision loop of `__solve_prob`, after the simplex: every arc
     * that is not a self-loop takes the marking revised from the solver's
     * answer.
     */
    method SolveProb(sol: Solution)
      requires dataflow.Valid() && Answers(dataflow.Value(), sol)
      modifies dataflow
      ensures dataflow.Valid()
      ensures |dataflow.arcs| == |old(dataflow.arcs)|
      ensures forall i :: 0 <= i < |dataflow.arcs| ==> dataflow.arcs[i] == RevisedArc(old(dataflow.Value()), sol, i)
      ensures dataflow.tasks == old(dataflow.tasks) && dataflow.taskByName == old(dataflow.taskByName)
    {
      var dg := dataflow;
      ghost var g := dg.Value();
      for i := 0 to |dg.arcs|
        invariant dg.Valid() && |dg.arcs| == |g.arcs| && dg.tasks == g.tasks && dg.taskByName == old(dg.taskByName)
        invariant forall j :: 0 <= j < i ==> dg.arcs[j] == RevisedArc(g, sol, j)
        invariant forall j :: i <= j < |dg.arcs| ==> dg.arcs[j] == g.arcs[j]
      {
        var a := dg.arcs[i];
        if !IsArcReentrant(a) {
          dg.SetInitialMarking(i, Revised(sol.m0[i], sol.fm0[i], a.gcd));
        }
      }
    }

    /** `compute_initial_marking`: the columns and rows handed to the solver, then the revised markings. */
    method ComputeInitialMarking(sol: Solution)
      requires dataflow.Valid() && Shaped(dataflow.Value()) && Answers(dataflow.Value(), sol)
      modifies this, dataflow
      ensures cols == Columns(old(dataflow.Value())) && colCount == |cols|
      ensures rows == Rows(old(dataflow.Value())) && rowCount == |rows| && k == varArraySize
      ensures dataflow.Valid() && |dataflow.arcs| == |old(dataflow.arcs)|
      ensures forall i :: 0 <= i < |dataflow.arcs| ==> dataflow.arcs[i] == RevisedArc(old(dataflow.Value()), sol, i)
      ensures dataflow.tasks == old(dataflow.tasks) && dataflow.taskByName == old(dataflow.taskByName)
    {
      CreateCol();
      CreateRow();
      SolveProb(sol);
    }
  }
}
