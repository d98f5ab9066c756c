// The mutable graph object shared by the SDF, CSDF and PCG classes: the task
// and arc counters, the name index and the multigraph, with the add/set
// methods of the three classes. Each setter rewrites one arc through the
// per-arc update of the value model, so the facts proved there apply here.
module Dataflow {
  import opened Arith
  import opened GcdLcm
  import opened Outcomes
  import opened Text
  import opened Graph

  /** The task `add_task` creates: duration 1 (one phase of duration 1), no initial phases. */
  function NewTask(name: string): Task {
    Task(name, 0, [1], [])
  }

  /** The arc `add_arc` creates between existing tasks `s` and `t` of `g`, numbered `id`. */
  function NewArc(g: Graph, s: nat, t: nat, id: nat): (a: Arc)
    requires s < |g.tasks| && t < |g.tasks|
    ensures a.m0 == 0 && a.tokenSize == 1 && a.name == "a" + NatStr(id)
    ensures a.key == ParallelCount(g.arcs, s, t)
  {
    var pcs := PhaseCount(g, s);
    var pct := PhaseCount(g, t);
    var ipcs := IniPhaseCount(g, s);
    var ipct := IniPhaseCount(g, t);
    var pcg := IsPcg(g.kind);
    Arc(s, t, ParallelCount(g.arcs, s, t), "a" + NatStr(id), 0, 1, 1,
        Ones(pcs), Ones(pct),
        if pcg then Ones(ipcs) else [], if pcg then Ones(ipct) else [],
        if pcg then Ones(pct) else [], if pcg then Ones(ipct) else [])
  }

  /** Every entry of a fresh arc is 1, so the gcd 1 it stores is the gcd its setters compute. */
  lemma NewArcGcd(g: Graph, s: nat, t: nat, id: nat)
    requires s < |g.tasks| && t < |g.tasks|
    requires PhaseCount(g, s) >= 1 && PhaseCount(g, t) >= 1
    ensures var a := NewArc(g, s, t, id);
      GcdDividesEntries(a) && a.gcd == CsdfGcd(a.cons, a.prod) &&
      (IsPcg(g.kind) ==> a.gcd == PcgGcd(a))
  {
    var a := NewArc(g, s, t, id);
    OnesGcd(a.cons);
    OnesGcd(a.prod);
    assert CsdfGcd(a.cons, a.prod) == Euclid(1, 1);
    EuclidSelf(1);
    DividesOne(a.prod);
    DividesOne(a.cons);
    DividesOne(a.iniProd);
    DividesOne(a.iniCons);
    DividesOne(a.thr);
    DividesOne(a.iniThr);
    if IsPcg(g.kind) {
      OnesAppendGcd(a.iniCons);
      OnesAppendGcd(a.iniProd);
      OnesAppendGcd(a.thr);
      OnesAppendGcd(a.iniThr);
    }
  }

  lemma DividesOne(s: seq<int>)
    ensures DividesAll(1, s)
  {
  }

  predicate AllOnes(s: seq<int>) { forall i :: 0 <= i < |s| ==> s[i] == 1 }

  lemma {:induction false} OnesGcd(s: seq<int>)
    requires |s| > 0 && AllOnes(s)
    ensures GcdReduce(s) == 1
    decreases |s|
  {
    if |s| > 1 {
      OnesGcd(s[..|s| - 1]);
      EuclidSelf(1);
    }
  }

  lemma OnesAppendGcd(s: seq<int>)
    requires AllOnes(s)
    ensures GcdReduce(s + [1]) == 1
  {
    OnesGcd(s + [1]);
  }

  /** The first loop of `set_phase_count` on one arc: an entering arc gets consumption `[1] * n`. */
  function ConsReset(k: Kind, a: Arc, t: nat, n: nat): Arc
    requires n >= 1 && |a.prod| > 0
  {
    if a.tgt == t then WithConsList(k, a, Ones(n)) else a
  }

  /** The second loop of `set_phase_count` on one arc: a leaving arc gets production `[1] * n`. */
  function ProdReset(k: Kind, a: Arc, t: nat, n: nat): Arc
    requires n >= 1 && |a.cons| > 0
  {
    if a.src == t then WithProdList(k, a, Ones(n)) else a
  }

  /** The whole reset `set_phase_count` applies to one arc: consumption first, then production. */
  function ResetArc(k: Kind, a: Arc, t: nat, n: nat): Arc
    requires n >= 1 && |a.prod| > 0 && |a.cons| > 0
  {
    ProdReset(k, ConsReset(k, a, t, n), t, n)
  }

  lemma ConsResetKeeps(k: Kind, a: Arc, t: nat, n: nat)
    requires n >= 1 && |a.prod| > 0
    ensures var r := ConsReset(k, a, t, n);
      r.src == a.src && r.tgt == a.tgt && r.key == a.key && r.name == a.name &&
      r.prod == a.prod && |r.cons| == (if a.tgt == t then n else |a.cons|)
  {
  }

  lemma ProdResetKeeps(k: Kind, a: Arc, t: nat, n: nat)
    requires n >= 1 && |a.cons| > 0
    ensures var r := ProdReset(k, a, t, n);
      r.src == a.src && r.tgt == a.tgt && r.key == a.key && r.name == a.name &&
      r.cons == a.cons && |r.prod| == (if a.src == t then n else |a.prod|)
  {
  }

  /** The first loop of `set_ini_phase_count` on one arc. */
  function IniConsReset(a: Arc, t: nat, n: nat): Arc {
    if a.tgt == t then PcgWithIniCons(a, Ones(n)) else a
  }

  /** The second loop of `set_ini_phase_count` on one arc. */
  function IniProdReset(a: Arc, t: nat, n: nat): Arc {
    if a.src == t then PcgWithIniProd(a, Ones(n)) else a
  }

  lemma IniConsResetKeeps(a: Arc, t: nat, n: nat)
    ensures var r := IniConsReset(a, t, n);
      r.src == a.src && r.tgt == a.tgt && r.key == a.key && r.name == a.name &&
      r.prod == a.prod && r.cons == a.cons
  {
  }

  lemma IniProdResetKeeps(a: Arc, t: nat, n: nat)
    ensures var r := IniProdReset(a, t, n);
      r.src == a.src && r.tgt == a.tgt && r.key == a.key && r.name == a.name &&
      r.prod == a.prod && r.cons == a.cons
  {
  }

  /** The whole reset `set_ini_phase_count` applies to one arc. */
  function ResetIniArc(a: Arc, t: nat, n: nat): Arc {
    IniProdReset(IniConsReset(a, t, n), t, n)
  }

  lemma ResetArcShape(k: Kind, a: Arc, t: nat, n: nat)
    requires n >= 1 && |a.prod| > 0 && |a.cons| > 0
    ensures var r := ResetArc(k, a, t, n);
      r.src == a.src && r.tgt == a.tgt && r.key == a.key && r.name == a.name && r.m0 == a.m0 &&
      r.tokenSize == a.tokenSize &&
      r.iniProd == a.iniProd && r.iniCons == a.iniCons && r.iniThr == a.iniThr &&
      r.cons == (if a.tgt == t then Ones(n) else a.cons) &&
      r.prod == (if a.src == t then Ones(n) else a.prod) &&
      (IsPcg(k) && a.tgt == t ==> r.thr == Ones(n)) &&
      (a.tgt != t ==> r.thr == a.thr)
  {
  }

  /** After a phase-count reset the gcd of every touched arc divides all of its entries. */
  lemma ResetArcGcd(k: Kind, a: Arc, t: nat, n: nat)
    requires n >= 1 && |a.prod| > 0 && |a.cons| > 0
    requires GcdDividesEntries(a)
    requires IsCsdf(k)
    ensures GcdDividesEntries(ResetArc(k, a, t, n))
  {
    var a1 := if a.tgt == t then WithConsList(k, a, Ones(n)) else a;
    if a.tgt == t {
      if IsPcg(k) {
        PcgSettersKeepGcd(a, Ones(n));
      } else {
        CsdfGcdIsGcd(Ones(n), a.prod);
      }
    }
    assert GcdDividesEntries(a1);
    if a.src == t {
      var r := WithProdList(k, a1, Ones(n));
      OnesGcd(Ones(n));
      assert r.gcd == Euclid(GcdReduce(a1.cons), 1);
      EuclidDivides(GcdReduce(a1.cons), 1);
      forall x: int ensures Divides(r.gcd, x) {
        DividesOneAny(x);
        DividesTrans(r.gcd, 1, x);
      }
    }
  }

  lemma DividesOneAny(x: int)
    ensures Divides(1, x)
  {
  }

  /** The name index maps each name to its task and each task's name to it. */
  ghost predicate NameIndex(byName: map<string, nat>, tasks: seq<Task>) {
    (forall n :: n in byName ==> byName[n] < |tasks| && tasks[byName[n]].name == n) &&
    (forall t :: 0 <= t < |tasks| ==> tasks[t].name in byName && byName[tasks[t].name] == t)
  }

  /** Every task has a phase; an SDF task has exactly one duration. */
  ghost predicate TasksWellFormed(k: Kind, tasks: seq<Task>) {
    (forall t :: 0 <= t < |tasks| ==> |tasks[t].durations| >= 1) &&
    (forall t :: 0 <= t < |tasks| && IsSdf(k) ==> |tasks[t].durations| == 1)
  }

  /** Endpoints exist, rate lists are non-empty (SDF: scalars), names and keys follow creation order. */
  ghost predicate ArcsWellFormed(k: Kind, nTasks: nat, arcs: seq<Arc>) {
    (forall i :: 0 <= i < |arcs| ==> ArcWellFormed(k, nTasks, arcs[i], i)) &&
    (forall i :: 0 <= i < |arcs| ==> arcs[i].key == ParallelCount(arcs[..i], arcs[i].src, arcs[i].tgt))
  }

  ghost predicate ArcWellFormed(k: Kind, nTasks: nat, a: Arc, i: nat) {
    a.src < nTasks && a.tgt < nTasks &&
    |a.prod| >= 1 && |a.cons| >= 1 &&
    (IsSdf(k) ==> |a.prod| == 1 && |a.cons| == 1) &&
    a.name == "a" + NatStr(i)
  }

  /** Rewriting arc `i` without moving it keeps the arc invariants. */
  lemma ArcUpdate(k: Kind, n: nat, arcs: seq<Arc>, i: nat, a: Arc)
    requires ArcsWellFormed(k, n, arcs) && i < |arcs|
    requires a.src == arcs[i].src && a.tgt == arcs[i].tgt && a.key == arcs[i].key && a.name == arcs[i].name
    requires |a.prod| >= 1 && |a.cons| >= 1 && (IsSdf(k) ==> |a.prod| == 1 && |a.cons| == 1)
    ensures ArcsWellFormed(k, n, arcs[i := a])
  {
    var arcs' := arcs[i := a];
    forall j | 0 <= j < |arcs'|
      ensures arcs'[j].key == ParallelCount(arcs'[..j], arcs'[j].src, arcs'[j].tgt)
    {
      SameEndpointsCount(arcs'[..j], arcs[..j], arcs'[j].src, arcs'[j].tgt);
    }
  }

  /**
   * Appending the arc `add_arc` builds keeps the arc invariants; the new
   * arc's lists are as long as its ends' phase counts and its gcd divides them.
   */
  lemma ArcAppend(g: Graph, s: nat, t: nat)
    requires TasksWellFormed(g.kind, g.tasks) && ArcsWellFormed(g.kind, |g.tasks|, g.arcs)
    requires s < |g.tasks| && t < |g.tasks|
    ensures ArcsWellFormed(g.kind, |g.tasks|, g.arcs + [NewArc(g, s, t, |g.arcs|)])
    ensures var a := NewArc(g, s, t, |g.arcs|);
      |a.prod| == PhaseCount(g, s) && |a.cons| == PhaseCount(g, t) && GcdDividesEntries(a)
  {
    var a := NewArc(g, s, t, |g.arcs|);
    NewArcGcd(g, s, t, |g.arcs|);
    var arcs' := g.arcs + [a];
    assert arcs'[..|g.arcs|] == g.arcs;
    forall j | 0 <= j < |g.arcs|
      ensures arcs'[..j] == g.arcs[..j]
    {
    }
  }

  /** The first loop of `set_phase_count`: every arc entering `t` gets consumption `[1] * n`. */
  method ResetConsLists(k: Kind, nTasks: nat, a0: seq<Arc>, t: nat, n: nat) returns (a: seq<Arc>)
    requires ArcsWellFormed(k, nTasks, a0) && n >= 1 && IsCsdf(k)
    ensures ArcsWellFormed(k, nTasks, a) && |a| == |a0|
    ensures forall j :: 0 <= j < |a| ==> a[j] == ConsReset(k, a0[j], t, n)
  {
    a := a0;
    var i := 0;
    while i < |a|
      invariant 0 <= i <= |a| == |a0|
      invariant ArcsWellFormed(k, nTasks, a)
      invariant forall j :: 0 <= j < i ==> a[j] == ConsReset(k, a0[j], t, n)
      invariant forall j :: i <= j < |a| ==> a[j] == a0[j]
    {
      ConsResetKeeps(k, a[i], t, n);
      var na := ConsReset(k, a[i], t, n);
      ArcUpdate(k, nTasks, a, i, na);
      a := a[i := na];
      i := i + 1;
    }
  }

  /** The second loop of `set_phase_count`: every arc leaving `t` gets production `[1] * n`. */
  method ResetProdLists(k: Kind, nTasks: nat, a0: seq<Arc>, t: nat, n: nat) returns (a: seq<Arc>)
    requires ArcsWellFormed(k, nTasks, a0) && n >= 1 && IsCsdf(k)
    ensures ArcsWellFormed(k, nTasks, a) && |a| == |a0|
    ensures forall j :: 0 <= j < |a| ==> a[j] == ProdReset(k, a0[j], t, n)
  {
    a := a0;
    var i := 0;
    while i < |a|
      invariant 0 <= i <= |a| == |a0|
      invariant ArcsWellFormed(k, nTasks, a)
      invariant forall j :: 0 <= j < i ==> a[j] == ProdReset(k, a0[j], t, n)
      invariant forall j :: i <= j < |a| ==> a[j] == a0[j]
    {
      ProdResetKeeps(k, a[i], t, n);
      var na := ProdReset(k, a[i], t, n);
      ArcUpdate(k, nTasks, a, i, na);
      a := a[i := na];
      i := i + 1;
    }
  }

  /** The first loop of `set_ini_phase_count`: every arc entering `t` gets initial consumption `[1] * n`. */
  method ResetIniConsLists(k: Kind, nTasks: nat, a0: seq<Arc>, t: nat, n: nat) returns (a: seq<Arc>)
    requires ArcsWellFormed(k, nTasks, a0)
    ensures ArcsWellFormed(k, nTasks, a) && |a| == |a0|
    ensures forall j :: 0 <= j < |a| ==> a[j] == IniConsReset(a0[j], t, n)
  {
    a := a0;
    var i := 0;
    while i < |a|
      invariant 0 <= i <= |a| == |a0|
      invariant ArcsWellFormed(k, nTasks, a)
      invariant forall j :: 0 <= j < i ==> a[j] == IniConsReset(a0[j], t, n)
      invariant forall j :: i <= j < |a| ==> a[j] == a0[j]
    {
      IniConsResetKeeps(a[i], t, n);
      var na := IniConsReset(a[i], t, n);
      ArcUpdate(k, nTasks, a, i, na);
      a := a[i := na];
      i := i + 1;
    }
  }

  /** The second loop of `set_ini_phase_count`: every arc leaving `t` gets initial production `[1] * n`. */
  method ResetIniProdLists(k: Kind, nTasks: nat, a0: seq<Arc>, t: nat, n: nat) returns (a: seq<Arc>)
    requires ArcsWellFormed(k, nTasks, a0)
    ensures ArcsWellFormed(k, nTasks, a) && |a| == |a0|
    ensures forall j :: 0 <= j < |a| ==> a[j] == IniProdReset(a0[j], t, n)
  {
    a := a0;
    var i := 0;
    while i < |a|
      invariant 0 <= i <= |a| == |a0|
      invariant ArcsWellFormed(k, nTasks, a)
      invariant forall j :: 0 <= j < i ==> a[j] == IniProdReset(a0[j], t, n)
      invariant forall j :: i <= j < |a| ==> a[j] == a0[j]
    {
      IniProdResetKeeps(a[i], t, n);
      var na := IniProdReset(a[i], t, n);
      ArcUpdate(k, nTasks, a, i, na);
      a := a[i := na];
      i := i + 1;
    }
  }

  /** Giving task `t` a non-empty duration list (a single one under SDF) keeps the task invariants. */
  lemma TasksUpdate(k: Kind, tasks: seq<Task>, t: nat, x: Task)
    requires TasksWellFormed(k, tasks) && t < |tasks|
    requires |x.durations| >= 1 && (IsSdf(k) ==> |x.durations| == 1)
    ensures TasksWellFormed(k, tasks[t := x])
  {
  }

  class DataflowGraph {
    const kind: Kind
    var name: string
    var taskKey: nat
    var arcKey: nat
    var taskByName: map<string, nat>
    var tasks: seq<Task>
    var arcs: seq<Arc>

    function Value(): Graph
      reads this
    {
      Graph(kind, tasks, arcs)
    }

    /**
     * Task ids are consecutive from 0 and the name index maps each name to its
     * task; arc `i` is named `"a" + str(i)`, its key counts the arcs created
     * before it on the same pair, and its lists are never empty.
     */
    ghost predicate Valid()
      reads this
    {
      taskKey == |tasks| && arcKey == |arcs| &&
      NameIndex(taskByName, tasks) && TasksWellFormed(kind, tasks) && ArcsWellFormed(kind, |tasks|, arcs)
    }

    constructor (k: Kind, n: string)
      ensures Valid() && kind == k && name == n
      ensures taskKey == 0 && arcKey == 0 && taskByName == map[] && tasks == [] && arcs == []
    {
      kind := k;
      name := n;
      taskKey := 0;
      arcKey := 0;
      taskByName := map[];
      tasks := [];
      arcs := [];
    }

    /**
     * `add_task` of the SDF, CSDF and PCG classes: the name defaults to
     * `"t" + str(id)`. For a name already in use the base method adds
     * nothing and answers `None`, which each class then hands to its
     * duration or phase-count setter; the setter's `nxg.node[None]` raises
     * `KeyError`, so the graph is left unchanged and the call raises.
     */
    method AddTask(n: Option<string>) returns (t: Result<nat>)
      requires Valid()
      modifies this
      ensures Valid()
      ensures var nm := if n.None? then "t" + NatStr(old(taskKey)) else n.value;
        if nm in old(taskByName) then
          t == Err(KeyError) && tasks == old(tasks) && taskByName == old(taskByName) && taskKey == old(taskKey)
        else
          t == Ok(old(taskKey)) && tasks == old(tasks) + [NewTask(nm)] &&
          taskByName == old(taskByName)[nm := old(taskKey)] && taskKey == old(taskKey) + 1
      ensures arcs == old(arcs) && arcKey == old(arcKey) && name == old(name)
    {
      var id := taskKey;
      var nm := if n.None? then "t" + NatStr(id) else n.value;
      if nm in taskByName {
        return Err(KeyError);
      }
      taskKey := taskKey + 1;
      taskByName := taskByName[nm := id];
      tasks := tasks + [NewTask(nm)];
      t := Ok(id);
      assert arcs == old(arcs);
    }

    /** `get_task_by_name`: `KeyError` for an unknown name. */
    method GetTaskByName(n: string) returns (r: Result<nat>)
      requires Valid()
      ensures r.Ok? <==> exists t :: 0 <= t < |tasks| && tasks[t].name == n
      ensures r.Ok? ==> r.value < |tasks| && tasks[r.value].name == n
      ensures r.Err? ==> r.error == KeyError
    {
      if n in taskByName {
        r := Ok(taskByName[n]);
      } else {
        r := Err(KeyError);
      }
    }

    /**
     * `add_arc` of the graph's class: marking 0, token size 1, the next arc
     * name, the next key on the pair, and lists of ones sized by the phase
     * counts of the endpoints.
     */
    method AddArc(s: nat, t: nat) returns (arc: (nat, nat, nat))
      requires Valid() && s < |tasks| && t < |tasks|
      modifies this
      ensures Valid()
      ensures arc == (s, t, ParallelCount(old(arcs), s, t))
      ensures arcs == old(arcs) + [NewArc(old(Value()), s, t, old(arcKey))]
      ensures arcKey == old(arcKey) + 1
      ensures tasks == old(tasks) && taskByName == old(taskByName) && taskKey == old(taskKey) && name == old(name)
    {
      var a := NewArc(Value(), s, t, arcKey);
      ArcAppend(Value(), s, t);
      arcs := arcs + [a];
      arcKey := arcKey + 1;
      arc := (s, t, a.key);
    }

    method SetInitialMarking(i: nat, m: int)
      requires Valid() && i < |arcs|
      modifies this
      ensures Valid()
      ensures arcs == old(arcs)[i := old(arcs)[i].(m0 := m)]
      ensures tasks == old(tasks) && taskByName == old(taskByName) && taskKey == old(taskKey) && arcKey == old(arcKey)
    {
      var na := arcs[i].(m0 := m);
      ArcUpdate(kind, |tasks|, arcs, i, na);
      arcs := arcs[i := na];
    }

    method SetTokenSize(i: nat, z: int)
      requires Valid() && i < |arcs|
      modifies this
      ensures Valid()
      ensures arcs == old(arcs)[i := old(arcs)[i].(tokenSize := z)]
      ensures tasks == old(tasks) && taskByName == old(taskByName) && taskKey == old(taskKey) && arcKey == old(arcKey)
    {
      var na := arcs[i].(tokenSize := z);
      ArcUpdate(kind, |tasks|, arcs, i, na);
      arcs := arcs[i := na];
    }

    method SetRepetitionFactor(t: nat, r: int)
      requires Valid() && t < |tasks|
      modifies this
      ensures Valid()
      ensures tasks == old(tasks)[t := old(tasks)[t].(rf := r)]
      ensures arcs == old(arcs) && taskByName == old(taskByName) && taskKey == old(taskKey) && arcKey == old(arcKey)
    {
      tasks := tasks[t := tasks[t].(rf := r)];
    }

    /** SDF `set_task_duration`. */
    method SetTaskDuration(t: nat, d: int)
      requires Valid() && IsSdf(kind) && t < |tasks|
      modifies this
      ensures Valid()
      ensures tasks == old(tasks)[t := old(tasks)[t].(durations := [d])]
      ensures arcs == old(arcs) && taskByName == old(taskByName) && taskKey == old(taskKey) && arcKey == old(arcKey)
    {
      tasks := tasks[t := tasks[t].(durations := [d])];
    }

    /** SDF `set_cons_rate`: the stored gcd becomes `gcd(cons, prod)`. */
    method SetConsRate(i: nat, r: int)
      requires Valid() && IsSdf(kind) && i < |arcs|
      modifies this
      ensures Valid()
      ensures arcs == old(arcs)[i := SdfWithCons(old(arcs)[i], r)]
      ensures tasks == old(tasks) && taskByName == old(taskByName) && taskKey == old(taskKey) && arcKey == old(arcKey)
    {
      var na := SdfWithCons(arcs[i], r);
      ArcUpdate(kind, |tasks|, arcs, i, na);
      arcs := arcs[i := na];
    }

    /** SDF `set_prod_rate`: the stored gcd becomes `gcd(cons, prod)`. */
    method SetProdRate(i: nat, r: int)
      requires Valid() && IsSdf(kind) && i < |arcs|
      modifies this
      ensures Valid()
      ensures arcs == old(arcs)[i := SdfWithProd(old(arcs)[i], r)]
      ensures tasks == old(tasks) && taskByName == old(taskByName) && taskKey == old(taskKey) && arcKey == old(arcKey)
    {
      var na := SdfWithProd(arcs[i], r);
      ArcUpdate(kind, |tasks|, arcs, i, na);
      arcs := arcs[i := na];
    }

    /** `set_cons_rate_list` of the CSDF class, or of the PCG class (which also copies the list to the thresholds). */
    method SetConsRateList(i: nat, l: seq<int>)
      requires Valid() && IsCsdf(kind) && i < |arcs| && |l| > 0
      modifies this
      ensures Valid()
      ensures arcs == old(arcs)[i := WithConsList(kind, old(arcs)[i], l)]
      ensures tasks == old(tasks) && taskByName == old(taskByName) && taskKey == old(taskKey) && arcKey == old(arcKey)
    {
      var na := WithConsList(kind, arcs[i], l);
      ArcUpdate(kind, |tasks|, arcs, i, na);
      arcs := arcs[i := na];
    }

    /** `set_prod_rate_list`, the CSDF method for both classes. */
    method SetProdRateList(i: nat, l: seq<int>)
      requires Valid() && IsCsdf(kind) && i < |arcs| && |l| > 0
      modifies this
      ensures Valid()
      ensures arcs == old(arcs)[i := WithProdList(kind, old(arcs)[i], l)]
      ensures tasks == old(tasks) && taskByName == old(taskByName) && taskKey == old(taskKey) && arcKey == old(arcKey)
    {
      var na := WithProdList(kind, arcs[i], l);
      ArcUpdate(kind, |tasks|, arcs, i, na);
      arcs := arcs[i := na];
    }

    /** PCG `set_ini_cons_rate_list`: also copies the list to the initial thresholds. */
    method SetIniConsRateList(i: nat, l: seq<int>)
      requires Valid() && IsPcg(kind) && i < |arcs|
      modifies this
      ensures Valid()
      ensures arcs == old(arcs)[i := PcgWithIniCons(old(arcs)[i], l)]
      ensures tasks == old(tasks) && taskByName == old(taskByName) && taskKey == old(taskKey) && arcKey == old(arcKey)
    {
      var na := PcgWithIniCons(arcs[i], l);
      ArcUpdate(kind, |tasks|, arcs, i, na);
      arcs := arcs[i := na];
    }

    /** PCG `set_ini_prod_rate_list`. */
    method SetIniProdRateList(i: nat, l: seq<int>)
      requires Valid() && IsPcg(kind) && i < |arcs|
      modifies this
      ensures Valid()
      ensures arcs == old(arcs)[i := PcgWithIniProd(old(arcs)[i], l)]
      ensures tasks == old(tasks) && taskByName == old(taskByName) && taskKey == old(taskKey) && arcKey == old(arcKey)
    {
      var na := PcgWithIniProd(arcs[i], l);
      ArcUpdate(kind, |tasks|, arcs, i, na);
      arcs := arcs[i := na];
    }

    /** PCG `set_threshold_list`. */
    method SetThresholdList(i: nat, l: seq<int>)
      requires Valid() && IsPcg(kind) && i < |arcs|
      modifies this
      ensures Valid()
      ensures arcs == old(arcs)[i := PcgWithThr(old(arcs)[i], l)]
      ensures tasks == old(tasks) && taskByName == old(taskByName) && taskKey == old(taskKey) && arcKey == old(arcKey)
    {
      var na := PcgWithThr(arcs[i], l);
      ArcUpdate(kind, |tasks|, arcs, i, na);
      arcs := arcs[i := na];
    }

    /** PCG `set_ini_threshold_list`. */
    method SetIniThresholdList(i: nat, l: seq<int>)
      requires Valid() && IsPcg(kind) && i < |arcs|
      modifies this
      ensures Valid()
      ensures arcs == old(arcs)[i := PcgWithIniThr(old(arcs)[i], l)]
      ensures tasks == old(tasks) && taskByName == old(taskByName) && taskKey == old(taskKey) && arcKey == old(arcKey)
    {
      var na := PcgWithIniThr(arcs[i], l);
      ArcUpdate(kind, |tasks|, arcs, i, na);
      arcs := arcs[i := na];
    }

    /**
     * CSDF `set_phase_count`: nothing happens when the count is unchanged;
     * otherwise the durations become `[1] * n`, then every entering arc gets
     * consumption `[1] * n` and every leaving arc production `[1] * n`.
     */
    method SetPhaseCount(t: nat, n: nat)
      requires Valid() && IsCsdf(kind) && t < |tasks| && n >= 1
      modifies this
      ensures Valid()
      ensures n == |old(tasks)[t].durations| ==> tasks == old(tasks) && arcs == old(arcs)
      ensures n != |old(tasks)[t].durations| ==>
        tasks == old(tasks)[t := old(tasks)[t].(durations := Ones(n))] &&
        |arcs| == |old(arcs)| &&
        forall i :: 0 <= i < |arcs| ==> arcs[i] == ResetArc(kind, old(arcs)[i], t, n)
      ensures taskByName == old(taskByName) && taskKey == old(taskKey) && arcKey == old(arcKey)
    {
      if n == |tasks[t].durations| {
        return;
      }
      TasksUpdate(kind, tasks, t, tasks[t].(durations := Ones(n)));
      tasks := tasks[t := tasks[t].(durations := Ones(n))];
      var a := ResetConsLists(kind, |tasks|, arcs, t, n);
      a := ResetProdLists(kind, |tasks|, a, t, n);
      arcs := a;
    }

    /** CSDF `set_phase_duration_list`: a list whose length is not the phase count is refused and nothing changes. */
    method SetPhaseDurationList(t: nat, l: seq<int>) returns (r: Result<bool>)
      requires Valid() && IsCsdf(kind) && t < |tasks|
      modifies this
      ensures Valid()
      ensures r.Ok? <==> |l| == PhaseCount(old(Value()), t)
      ensures r.Err? ==> r.error == LengthMismatch && tasks == old(tasks)
      ensures r.Ok? ==> tasks == old(tasks)[t := old(tasks)[t].(durations := l)]
      ensures arcs == old(arcs) && taskByName == old(taskByName) && taskKey == old(taskKey) && arcKey == old(arcKey)
    {
      if |l| != |tasks[t].durations| {
        return Err(LengthMismatch);
      }
      tasks := tasks[t := tasks[t].(durations := l)];
      r := Ok(true);
    }

    /**
     * PCG `set_ini_phase_count`: nothing happens when the count is unchanged;
     * otherwise the initial durations become `[1] * n`, then every entering
     * arc gets initial consumption (and initial thresholds) `[1] * n` and
     * every leaving arc initial production `[1] * n`.
     */
    method SetIniPhaseCount(t: nat, n: nat)
      requires Valid() && IsPcg(kind) && t < |tasks|
      modifies this
      ensures Valid()
      ensures n == |old(tasks)[t].iniDurations| ==> tasks == old(tasks) && arcs == old(arcs)
      ensures n != |old(tasks)[t].iniDurations| ==>
        tasks == old(tasks)[t := old(tasks)[t].(iniDurations := Ones(n))] &&
        |arcs| == |old(arcs)| &&
        forall i :: 0 <= i < |arcs| ==> arcs[i] == ResetIniArc(old(arcs)[i], t, n)
      ensures taskByName == old(taskByName) && taskKey == old(taskKey) && arcKey == old(arcKey)
    {
      if n == |tasks[t].iniDurations| {
        return;
      }
      TasksUpdate(kind, tasks, t, tasks[t].(iniDurations := Ones(n)));
      tasks := tasks[t := tasks[t].(iniDurations := Ones(n))];
      var a := ResetIniConsLists(kind, |tasks|, arcs, t, n);
      a := ResetIniProdLists(kind, |tasks|, a, t, n);
      arcs := a;
    }

    /** PCG `set_ini_phase_duration_list`: a list whose length is not the initial phase count is refused. */
    method SetIniPhaseDurationList(t: nat, l: seq<int>) returns (r: Result<bool>)
      requires Valid() && IsPcg(kind) && t < |tasks|
      modifies this
      ensures Valid()
      ensures r.Ok? <==> |l| == IniPhaseCount(old(Value()), t)
      ensures r.Err? ==> r.error == LengthMismatch && tasks == old(tasks)
      ensures r.Ok? ==> tasks == old(tasks)[t := old(tasks)[t].(iniDurations := l)]
      ensures arcs == old(arcs) && taskByName == old(taskByName) && taskKey == old(taskKey) && arcKey == old(arcKey)
    {
      if |l| != |tasks[t].iniDurations| {
        return Err(LengthMismatch);
      }
      tasks := tasks[t := tasks[t].(iniDurations := l)];
      r := Ok(true);
    }

    /** `get_tot_initial_marking`. */
    method GetTotInitialMarking() returns (s: int)
      ensures s == TotalMarking(arcs)
    {
      s := 0;
      var i := 0;
      while i < |arcs|
        invariant 0 <= i <= |arcs|
        invariant s == TotalMarking(arcs[..i])
      {
        assert arcs[..i + 1][..i] == arcs[..i];
        s := s + arcs[i].m0;
        i := i + 1;
      }
      assert arcs[..|arcs|] == arcs;
    }

    /** `del_initial_marking`: every marking becomes 0, nothing else changes. */
    method DelInitialMarking()
      requires Valid()
      modifies this
      ensures Valid()
      ensures |arcs| == |old(arcs)| && forall i :: 0 <= i < |arcs| ==> arcs[i] == old(arcs)[i].(m0 := 0)
      ensures TotalMarking(arcs) == 0
      ensures tasks == old(tasks) && taskByName == old(taskByName) && taskKey == old(taskKey) && arcKey == old(arcKey)
    {
      var i := 0;
      while i < |arcs|
        invariant 0 <= i <= |arcs| == |old(arcs)|
        invariant Valid()
        invariant forall j :: 0 <= j < i ==> arcs[j] == old(arcs)[j].(m0 := 0)
        invariant forall j :: i <= j < |arcs| ==> arcs[j] == old(arcs)[j]
        invariant tasks == old(tasks) && taskByName == old(taskByName) && taskKey == old(taskKey) && arcKey == old(arcKey)
      {
        var na := arcs[i].(m0 := 0);
        ArcUpdate(kind, |tasks|, arcs, i, na);
        arcs := arcs[i := na];
        i := i + 1;
      }
      ZeroMarking(arcs);
    }

    /** `is_reentrant`: stops at the first self-loop. */
    method IsReentrantScan() returns (r: bool)
      ensures r == IsReentrant(Value())
    {
      var i := 0;
      while i < |arcs|
        invariant 0 <= i <= |arcs|
        invariant forall j :: 0 <= j < i ==> !IsArcReentrant(arcs[j])
      {
        if IsArcReentrant(arcs[i]) {
          return true;
        }
        i := i + 1;
      }
      return false;
    }

    /** `is_multi_graph`: stops at the first arc that has a parallel one. */
    method IsMultiGraphScan() returns (r: bool)
      ensures r == IsMultiGraph(Value())
    {
      var i := 0;
      while i < |arcs|
        invariant 0 <= i <= |arcs|
        invariant forall j :: 0 <= j < i ==> ParallelCount(arcs, arcs[j].src, arcs[j].tgt) <= 1
      {
        if ParallelCount(arcs, arcs[i].src, arcs[i].tgt) > 1 {
          return true;
        }
        i := i + 1;
      }
      return false;
    }

    /** `is_bounded`: stops at the first arc without a matching backward arc. */
    method IsBoundedScan() returns (r: bool)
      ensures r == IsBounded(Value())
    {
      var i := 0;
      while i < |arcs|
        invariant 0 <= i <= |arcs|
        invariant forall j :: 0 <= j < i ==> ArcBounded(arcs, j)
      {
        var l1 := ParallelCount(arcs, arcs[i].src, arcs[i].tgt);
        var l2 := ParallelCount(arcs, arcs[i].tgt, arcs[i].src);
        if l1 == 1 && l2 == 0 {
          assert !ArcBounded(Value().arcs, i);
          return false;
        }
        if l2 == 1 && l1 == 0 {
          assert !ArcBounded(Value().arcs, i);
          return false;
        }
        i := i + 1;
      }
      return true;
    }

    /** `is_cyclic`: reentrant, otherwise the acyclicity test. */
    method IsCyclicScan() returns (r: bool)
      ensures r == IsCyclic(Value())
    {
      r := IsReentrantScan();
      if !r {
        r := HasCycle(Value());
      }
    }
  }

  /** The parallel count only depends on the endpoints of the arcs. */
  lemma {:induction false} SameEndpointsCount(xs: seq<Arc>, ys: seq<Arc>, s: nat, t: nat)
    requires |xs| == |ys|
    requires forall k :: 0 <= k < |xs| ==> xs[k].src == ys[k].src && xs[k].tgt == ys[k].tgt
    ensures ParallelCount(xs, s, t) == ParallelCount(ys, s, t)
    decreases |xs|
  {
    if |xs| > 0 {
      SameEndpointsCount(xs[..|xs| - 1], ys[..|ys| - 1], s, t);
    }
  }

  lemma {:induction false} ZeroMarking(arcs: seq<Arc>)
    requires forall i :: 0 <= i < |arcs| ==> arcs[i].m0 == 0
    ensures TotalMarking(arcs) == 0
    decreases |arcs|
  {
    if |arcs| > 0 {
      ZeroMarking(arcs[..|arcs| - 1]);
    }
  }
}
