// Start times of a strictly periodic schedule by Bellman-Ford relaxation:
// the first task starts at 0, every other at minus infinity, and every arc
// is relaxed once per task, with the weight "sum of the source's durations
// minus the arc's initial marking times the period".
module Periodic {
  import opened Graph

  /** A start time: minus infinity or an integer. */
  datatype Time = NegInf | Fin(t: int)

  /** `x + w`; minus infinity absorbs the weight. */
  function Plus(x: Time, w: int): Time {
    if x.NegInf? then NegInf else Fin(x.t + w)
  }

  /** `x > y` on start times. */
  predicate Later(x: Time, y: Time) {
    x.Fin? && (y.NegInf? || x.t > y.t)
  }

  /** `x <= y` on start times. */
  predicate NoLater(x: Time, y: Time) {
    x.NegInf? || (y.Fin? && x.t <= y.t)
  }

  /** Every start time of `a` is at most the matching one of `b`. */
  predicate AllNoLater(a: seq<Time>, b: seq<Time>) {
    |a| == |b| && forall v :: 0 <= v < |a| ==> NoLater(a[v], b[v])
  }

  lemma AllNoLaterTrans(a: seq<Time>, b: seq<Time>, c: seq<Time>)
    requires AllNoLater(a, b) && AllNoLater(b, c)
    ensures AllNoLater(a, c)
  {
  }

  /** The weight of arc `c`. */
  function ArcWeight(g: Graph, period: int, c: nat): int
    requires EndpointsOk(g) && c < |g.arcs|
  {
    Sum(g.tasks[g.arcs[c].src].durations) - g.arcs[c].m0 * period
  }

  /** Step 1: the first task at 0, the others at minus infinity. */
  function InitialTimes(n: nat): (st: seq<Time>)
    requires n > 0
    ensures |st| == n && st[0] == Fin(0) && forall v :: 1 <= v < n ==> st[v] == NegInf
  {
    [Fin(0)] + seq(n - 1, _ => NegInf)
  }

  /** Relaxing arc `c`: its target starts no earlier than its source plus the weight. */
  function RelaxArc(g: Graph, period: int, st: seq<Time>, c: nat): (r: seq<Time>)
    requires EndpointsOk(g) && c < |g.arcs| && |st| == |g.tasks|
    ensures |r| == |st|
  {
    var u, v := g.arcs[c].src, g.arcs[c].tgt;
    var cand := Plus(st[u], ArcWeight(g, period, c));
    if Later(cand, st[v]) then st[v := cand] else st
  }

  /** One round: arcs `0 .. k - 1` relaxed in list order. */
  function Pass(g: Graph, period: int, st: seq<Time>, k: nat): (r: seq<Time>)
    requires EndpointsOk(g) && k <= |g.arcs| && |st| == |g.tasks|
    ensures |r| == |st|
  {
    if k == 0 then st else RelaxArc(g, period, Pass(g, period, st, k - 1), k - 1)
  }

  /** The start times after `i` rounds. */
  function Rounds(g: Graph, period: int, i: nat): (r: seq<Time>)
    requires EndpointsOk(g) && |g.tasks| > 0
    ensures |r| == |g.tasks|
  {
    if i == 0 then InitialTimes(|g.tasks|) else Pass(g, period, Rounds(g, period, i - 1), |g.arcs|)
  }

  /** `HSDF_starting_time_computation`: as many rounds as there are tasks. */
  function StartingTimes(g: Graph, period: int): (r: seq<Time>)
    requires EndpointsOk(g) && |g.tasks| > 0
    ensures |r| == |g.tasks|
  {
    Rounds(g, period, |g.tasks|)
  }

  /** The nested relaxation loops. */
  method ComputeStartingTimes(g: Graph, period: int) returns (st: seq<Time>)
    requires EndpointsOk(g) && |g.tasks| > 0
    ensures st == StartingTimes(g, period)
  {
    var n := |g.tasks|;
    st := [Fin(0)];
    var v := 1;
    while v < n
      invariant 1 <= v <= n && |st| == v
      invariant st[0] == Fin(0) && forall x :: 1 <= x < v ==> st[x] == NegInf
    {
      st := st + [NegInf];
      v := v + 1;
    }
    assert st == InitialTimes(n);
    var i := 0;
    while i < n
      invariant 0 <= i <= n && st == Rounds(g, period, i)
    {
      st := RelaxAll(g, period, st);
      i := i + 1;
    }
  }

  /** The inner loop: one pass over the arc list. */
  method RelaxAll(g: Graph, period: int, st0: seq<Time>) returns (st: seq<Time>)
    requires EndpointsOk(g) && |st0| == |g.tasks|
    ensures st == Pass(g, period, st0, |g.arcs|)
  {
    st := st0;
    var c := 0;
    while c < |g.arcs|
      invariant 0 <= c <= |g.arcs| && st == Pass(g, period, st0, c)
    {
      var u, v := g.arcs[c].src, g.arcs[c].tgt;
      var w := Sum(g.tasks[u].durations) - g.arcs[c].m0 * period;
      if Later(Plus(st[u], w), st[v]) {
        st := st[v := Plus(st[u], w)];
      }
      c := c + 1;
    }
  }

  // ---------------------------------------------------------------------
  // Relaxation only moves start times later

  /** Relaxing an arc never makes a start time earlier. */
  lemma RelaxArcLater(g: Graph, period: int, st: seq<Time>, c: nat)
    requires EndpointsOk(g) && c < |g.arcs| && |st| == |g.tasks|
    ensures AllNoLater(st, RelaxArc(g, period, st, c))
    ensures var r := RelaxArc(g, period, st, c);
      NoLater(Plus(st[g.arcs[c].src], ArcWeight(g, period, c)), r[g.arcs[c].tgt])
  {
  }

  /** A longer part of a pass has moved every start time at least as far. */
  lemma {:induction false} PassLater(g: Graph, period: int, st: seq<Time>, j: nat, k: nat)
    requires EndpointsOk(g) && j <= k <= |g.arcs| && |st| == |g.tasks|
    ensures AllNoLater(Pass(g, period, st, j), Pass(g, period, st, k))
    decreases k
  {
    if k > j {
      PassLater(g, period, st, j, k - 1);
      RelaxArcLater(g, period, Pass(g, period, st, k - 1), k - 1);
      AllNoLaterTrans(Pass(g, period, st, j), Pass(g, period, st, k - 1), Pass(g, period, st, k));
    }
  }

  /** Start times from later starting points stay later through a pass. */
  lemma RelaxArcMonotone(g: Graph, period: int, a: seq<Time>, b: seq<Time>, c: nat)
    requires EndpointsOk(g) && c < |g.arcs| && |a| == |g.tasks| && AllNoLater(a, b)
    ensures AllNoLater(RelaxArc(g, period, a, c), RelaxArc(g, period, b, c))
  {
  }

  lemma {:induction false} PassMonotone(g: Graph, period: int, a: seq<Time>, b: seq<Time>, k: nat)
    requires EndpointsOk(g) && k <= |g.arcs| && |a| == |g.tasks| && AllNoLater(a, b)
    ensures AllNoLater(Pass(g, period, a, k), Pass(g, period, b, k))
    decreases k
  {
    if k > 0 {
      PassMonotone(g, period, a, b, k - 1);
      RelaxArcMonotone(g, period, Pass(g, period, a, k - 1), Pass(g, period, b, k - 1), k - 1);
    }
  }

  /** A round never makes a start time earlier. */
  lemma RoundLater(g: Graph, period: int, i: nat)
    requires EndpointsOk(g) && |g.tasks| > 0
    ensures AllNoLater(Rounds(g, period, i), Rounds(g, period, i + 1))
  {
    PassLater(g, period, Rounds(g, period, i), 0, |g.arcs|);
  }

  /** More rounds never make a start time earlier. */
  lemma {:induction false} RoundsLater(g: Graph, period: int, i: nat, j: nat)
    requires EndpointsOk(g) && |g.tasks| > 0 && i <= j
    ensures AllNoLater(Rounds(g, period, i), Rounds(g, period, j))
    decreases j
  {
    if j > i {
      RoundsLater(g, period, i, j - 1);
      RoundLater(g, period, j - 1);
      AllNoLaterTrans(Rounds(g, period, i), Rounds(g, period, j - 1), Rounds(g, period, j));
    }
  }

  /** The first task keeps a finite start time, at least 0. */
  lemma FirstTaskFinite(g: Graph, period: int)
    requires EndpointsOk(g) && |g.tasks| > 0
    ensures StartingTimes(g, period)[0].Fin? && StartingTimes(g, period)[0].t >= 0
  {
    RoundsLater(g, period, 0, |g.tasks|);
  }

  // ---------------------------------------------------------------------
  // Every walk from the first task is accounted for

  /** `p` lists the arcs of a walk that starts at the first task. */
  predicate WalkFromFirst(g: Graph, p: seq<nat>) {
    EndpointsOk(g) &&
    (forall i :: 0 <= i < |p| ==> p[i] < |g.arcs|) &&
    (|p| > 0 ==> g.arcs[p[0]].src == 0) &&
    (forall i :: 0 < i < |p| ==> g.arcs[p[i - 1]].tgt == g.arcs[p[i]].src)
  }

  /** Where the walk ends: task 0 for the empty walk. */
  function WalkEnd(g: Graph, p: seq<nat>): nat
    requires WalkFromFirst(g, p)
  {
    if |p| == 0 then 0 else g.arcs[p[|p| - 1]].tgt
  }

  /** The sum of the arc weights along the walk. */
  function WalkWeight(g: Graph, period: int, p: seq<nat>): int
    requires WalkFromFirst(g, p)
    decreases |p|
  {
    if |p| == 0 then 0
    else
      assert WalkFromFirst(g, p[..|p| - 1]);
      WalkWeight(g, period, p[..|p| - 1]) + ArcWeight(g, period, p[|p| - 1])
  }

  /** After a pass, every arc's target starts no earlier than its source did before the pass plus the weight. */
  lemma PassRelaxes(g: Graph, period: int, st: seq<Time>, c: nat)
    requires EndpointsOk(g) && c < |g.arcs| && |st| == |g.tasks|
    ensures NoLater(Plus(st[g.arcs[c].src], ArcWeight(g, period, c)), Pass(g, period, st, |g.arcs|)[g.arcs[c].tgt])
  {
    var u, v, w := g.arcs[c].src, g.arcs[c].tgt, ArcWeight(g, period, c);
    PassLater(g, period, st, 0, c);
    assert NoLater(st[u], Pass(g, period, st, c)[u]);
    RelaxArcLater(g, period, Pass(g, period, st, c), c);
    PassLater(g, period, st, c + 1, |g.arcs|);
  }

  /**
   * The start time after `k` rounds is at least the weight of any walk of
   * at most `k` arcs from the first task: the defining property of the
   * Bellman-Ford longest-path relaxation.
   */
  lemma {:induction false} RoundsCoverWalks(g: Graph, period: int, p: seq<nat>, k: nat)
    requires |g.tasks| > 0 && WalkFromFirst(g, p) && |p| <= k
    ensures NoLater(Fin(WalkWeight(g, period, p)), Rounds(g, period, k)[WalkEnd(g, p)])
    decreases k
  {
    if |p| == 0 {
      RoundsLater(g, period, 0, k);
    } else {
      var front, c := p[..|p| - 1], p[|p| - 1];
      assert WalkFromFirst(g, front);
      RoundsCoverWalks(g, period, front, k - 1);
      assert WalkEnd(g, front) == g.arcs[c].src;
      PassRelaxes(g, period, Rounds(g, period, k - 1), c);
    }
  }

  /** What the computation answers: every walk of fewer arcs than tasks is covered. */
  lemma StartingTimesCoverWalks(g: Graph, period: int, p: seq<nat>)
    requires |g.tasks| > 0 && WalkFromFirst(g, p) && |p| <= |g.tasks|
    ensures StartingTimes(g, period)[WalkEnd(g, p)].Fin?
    ensures StartingTimes(g, period)[WalkEnd(g, p)].t >= WalkWeight(g, period, p)
  {
    RoundsCoverWalks(g, period, p, |g.tasks|);
  }
}
