// The phase weights the buffer-sizing constraints are built from: the
// tokens a consumer phase needs once the producer has completed a number
// of its phases, read off the rate lists of one arc (or of an in-arc and an
// out-arc of one task), and their running maximum over the phases.
module PhaseWeights {
  import opened Graph

  /** The production, consumption and (PCG) threshold lists one constraint reads. */
  datatype Lists = Lists(prod: seq<int>, cons: seq<int>, thr: seq<int>)

  /**
   * `__get_range_phases`: one phase on an SDF graph, the cyclic phases and,
   * on a PCG, the initial phases otherwise.
   */
  function PhaseRange(g: Graph, t: nat): (n: nat)
    requires t < |g.tasks|
    ensures n == PhaseCount(g, t) + IniPhaseCount(g, t)
  {
    if IsSdf(g.kind) then 1
    else if IsPcg(g.kind) then PhaseCount(g, t) + IniPhaseCount(g, t)
    else PhaseCount(g, t)
  }

  /**
   * The lists of one arc: its rate lists, preceded on a PCG by the initial
   * lists, the thresholds likewise (initial thresholds first).
   */
  function ArcLists(k: Kind, a: Arc): Lists {
    if IsPcg(k) then Lists(a.iniProd + a.prod, a.iniCons + a.cons, a.iniThr + a.thr)
    else Lists(a.prod, a.cons, [])
  }

  /** On a shaped graph the lists of arc `i` cover every phase of its endpoints. */
  lemma ArcListsFit(g: Graph, i: nat)
    requires Shaped(g) && i < |g.arcs|
    ensures var l := ArcLists(g.kind, g.arcs[i]);
      |l.prod| == PhaseRange(g, g.arcs[i].src) && |l.cons| == PhaseRange(g, g.arcs[i].tgt) &&
      (IsPcg(g.kind) ==> |l.thr| == PhaseRange(g, g.arcs[i].tgt))
  {
  }

  /** The lists cover `ps` completed producer phases and consumer phase `pt`. */
  predicate Covers(l: Lists, pcg: bool, ps: nat, pt: nat) {
    ps <= |l.prod| && pt < |l.cons| && (pcg ==> pt < |l.thr|)
  }

  /**
   * The tokens consumer phase `pt` needs once the producer has completed
   * `ps` phases: everything consumed up to and including `pt`, less what
   * was produced; with thresholds, what was consumed before `pt` plus the
   * threshold of `pt`.
   */
  function Need(l: Lists, pcg: bool, ps: nat, pt: nat): int
    requires Covers(l, pcg, ps, pt)
  {
    (if pcg then Sum(l.cons[..pt]) + l.thr[pt] else Sum(l.cons[..pt + 1])) - Sum(l.prod[..ps])
  }

  /** The lists cover the first `n` phases of both sides. */
  predicate Fits(l: Lists, pcg: bool, n: nat) {
    n <= |l.cons| && n <= |l.prod| + 1 && (pcg ==> n <= |l.thr|)
  }

  /** The larger of `init` and the needs of the first `k` phases (phase `p` after `p` completed producer phases). */
  function RunningMax(l: Lists, pcg: bool, init: int, k: nat): int
    requires Fits(l, pcg, k)
  {
    if k == 0 then init
    else
      var m := RunningMax(l, pcg, init, k - 1);
      var w := Need(l, pcg, k - 1, k - 1);
      if m < w then w else m
  }

  /** The running maximum is the least value bounding `init` and the needs of the first `k` phases, and one of them. */
  lemma {:induction false} RunningMaxIsMax(l: Lists, pcg: bool, init: int, k: nat)
    requires Fits(l, pcg, k)
    ensures var r := RunningMax(l, pcg, init, k);
      r >= init && (forall p :: 0 <= p < k ==> r >= Need(l, pcg, p, p)) &&
      (r == init || exists p :: 0 <= p < k && r == Need(l, pcg, p, p))
  {
    if k > 0 {
      RunningMaxIsMax(l, pcg, init, k - 1);
    }
  }

  lemma SumStep(s: seq<int>, k: nat)
    requires k < |s|
    ensures Sum(s[..k + 1]) == Sum(s[..k]) + s[k]
  {
    assert s[..k + 1][..k] == s[..k];
  }

  /**
   * The running sums the source keeps while walking the phases (`pred_out`,
   * `pred_in`, `in_v`) are the sums of the list prefixes.
   */
  predicate Running(l: Lists, k: nat, predOut: int, predIn: int, inV: int)
    requires k <= |l.cons| && k <= |l.prod| + 1
  {
    (k == 0 ==> predOut == 0 && predIn == 0 && inV == 0) &&
    (k > 0 ==> predOut == Sum(l.prod[..k - 1]) && predIn == Sum(l.cons[..k - 1]) && inV == Sum(l.cons[..k]))
  }

  /** One step of the phase walk: the running sums move on and the step's weight is the need of the phase. */
  lemma RunningStep(l: Lists, pcg: bool, k: nat, predOut: int, predIn: int, inV: int)
    requires Fits(l, pcg, k + 1) && Running(l, k, predOut, predIn, inV)
    ensures var po := if k > 0 then predOut + l.prod[k - 1] else predOut;
      var pi := if k > 0 then predIn + l.cons[k - 1] else predIn;
      var iv := inV + l.cons[k];
      Running(l, k + 1, po, pi, iv) &&
      (if pcg then iv - po + pi + l.thr[k] - iv else iv - po) == Need(l, pcg, k, k)
  {
    SumStep(l.cons, k);
    if k > 0 {
      SumStep(l.prod, k - 1);
      SumStep(l.cons, k - 1);
    }
  }

  /**
   * The phase walk that finds the running maximum: the sums of the lists'
   * prefixes kept in three variables, the weight of each phase compared
   * with the maximum so far.
   */
  method WalkMax(l: Lists, pcg: bool, init: int, n: nat) returns (retMax: int)
    requires Fits(l, pcg, n)
    ensures retMax == RunningMax(l, pcg, init, n)
  {
    retMax := init;
    var predProd, predCons, cons := 0, 0, 0;
    for phase := 0 to n
      invariant Running(l, phase, predProd, predCons, cons)
      invariant retMax == RunningMax(l, pcg, init, phase)
    {
      RunningStep(l, pcg, phase, predProd, predCons, cons);
      if phase > 0 {
        predProd := predProd + l.prod[phase - 1];
        predCons := predCons + l.cons[phase - 1];
      }
      cons := cons + l.cons[phase];
      var w := cons - predProd;
      if pcg {
        w := w + predCons + l.thr[phase] - cons;
      }
      if retMax < w {
        retMax := w;
      }
    }
  }

  /** The consumption sums kept while walking the target phases: before `pt` and before `pt - 1`. */
  predicate Consumed(l: Lists, pt: nat, predCons: int, cons: int)
    requires pt <= |l.cons|
  {
    cons == Sum(l.cons[..pt]) && (pt > 0 ==> predCons == Sum(l.cons[..pt - 1])) && (pt == 0 ==> predCons == 0)
  }

  /** One step of the walk over the target phases, the production before source phase `ps` fixed. */
  lemma PairStep(l: Lists, pcg: bool, ps: nat, pt: nat, predProd: int, predCons: int, cons: int)
    requires Covers(l, pcg, ps, pt) && predProd == Sum(l.prod[..ps]) && Consumed(l, pt, predCons, cons)
    ensures var c := cons + l.cons[pt];
      var pc := if pt > 0 then predCons + l.cons[pt - 1] else predCons;
      Consumed(l, pt + 1, pc, c) &&
      (if pcg then c - predProd + pc + l.thr[pt] - c else c - predProd) == Need(l, pcg, ps, pt)
  {
    SumStep(l.cons, pt);
    if pt > 0 {
      SumStep(l.cons, pt - 1);
    }
  }
}
