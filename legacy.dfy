// The graph class of the older `turbine` package: a networkx multigraph
// whose node and edge attribute dictionaries hold the phase lists. A
// missing dictionary entry is kept as `None`, so the getters that would
// raise `KeyError` on it can say so.
module Legacy {
  import opened Arith
  import opened Outcomes
  import opened Text
  import opened GcdLcm
  import opened Graph

  /** The node attributes: name, cyclic and initial phase durations, repetition factor (absent until set). */
  datatype TaskAttrs = TaskAttrs(name: string, durations: seq<int>, iniDurations: seq<int>, rf: Option<int>)

  /**
   * The edge attributes. `addArc` fills the marking, the token size and the
   * two rate lists; the threshold and initial lists and the cached gcds
   * appear only when a setter stores them.
   */
  datatype ArcAttrs = ArcAttrs(
    src: nat, tgt: nat, m0: int, tokenSize: int,
    prod: seq<int>, cons: seq<int>, thr: Option<seq<int>>,
    iniProd: Option<seq<int>>, iniCons: Option<seq<int>>, iniThr: Option<seq<int>>,
    gcd: Option<int>, gcdTh: Option<int>, gcdInit: Option<int>, gcdInitTh: Option<int>)

  /**
   * What the object holds: the graph flags, the name index `taskByName`,
   * the tasks (numbered by the key counter, so task `t` is the `t`-th one
   * added) and the arcs in the order they were added.
   */
  datatype State = State(
    phased: bool, thresholded: bool, initialized: bool, reentrant: bool, multigraph: bool,
    names: map<string, nat>, tasks: seq<TaskAttrs>, arcs: seq<ArcAttrs>)

  /** The state `__init__` leaves: no task, no arc, every flag false. */
  function Fresh(): (s: State)
    ensures StateValid(s) && |s.tasks| == 0 && |s.arcs| == 0
  {
    State(false, false, false, false, false, map[], [], [])
  }

  function Zeros(n: nat): (s: seq<int>)
    ensures |s| == n && forall i :: 0 <= i < n ==> s[i] == 0
  {
    seq(n, _ => 0)
  }

  /** The length of `[x] * n` in Python: 0 for a negative count. */
  function Count(n: int): nat { if n < 0 then 0 else n }

  function OrZero(x: Option<int>): int { if x.Some? then x.value else 0 }

  function OrEmpty(x: Option<seq<int>>): seq<int> { if x.Some? then x.value else [] }

  // ---------------------------------------------------------------------
  // The invariant the setters keep

  /** `taskByName` and the task names agree: every name is indexed, at its own task. */
  predicate NamesOk(names: map<string, nat>, tasks: seq<TaskAttrs>) {
    (forall n :: n in names ==> names[n] < |tasks| && tasks[names[n]].name == n) &&
    (forall t :: 0 <= t < |tasks| ==> tasks[t].name in names && names[tasks[t].name] == t)
  }

  /** The lists of an arc are as long as the phase counts of the endpoints that index them. */
  predicate ArcShaped(tasks: seq<TaskAttrs>, a: ArcAttrs) {
    a.src < |tasks| && a.tgt < |tasks| &&
    |a.prod| == |tasks[a.src].durations| && |a.cons| == |tasks[a.tgt].durations| &&
    (a.thr.Some? ==> |a.thr.value| == |a.cons|) &&
    (a.iniProd.Some? ==> |a.iniProd.value| == |tasks[a.src].iniDurations|) &&
    (a.iniCons.Some? ==> |a.iniCons.value| == |tasks[a.tgt].iniDurations|) &&
    (a.iniThr.Some? ==> |a.iniThr.value| == |tasks[a.tgt].iniDurations|)
  }

  predicate Shapes(tasks: seq<TaskAttrs>, arcs: seq<ArcAttrs>) {
    forall i :: 0 <= i < |arcs| ==> ArcShaped(tasks, arcs[i])
  }

  /** Two arcs join the same ordered pair of tasks. */
  predicate HasParallel(arcs: seq<ArcAttrs>) {
    exists i, j :: 0 <= i < j < |arcs| && arcs[i].src == arcs[j].src && arcs[i].tgt == arcs[j].tgt
  }

  predicate HasSelfLoop(arcs: seq<ArcAttrs>) {
    exists i :: 0 <= i < |arcs| && arcs[i].src == arcs[i].tgt
  }

  /**
   * The flags: a task with several phases implies `phased`, one with
   * initial phases implies `initialized`, parallel arcs imply the
   * multigraph flag and a self-loop the reentrant flag. No flag is ever
   * cleared, so after `removeArc` a flag may outlive its reason.
   */
  predicate FlagsOk(s: State) {
    (forall t :: 0 <= t < |s.tasks| && |s.tasks[t].durations| > 1 ==> s.phased) &&
    (forall t :: 0 <= t < |s.tasks| && |s.tasks[t].iniDurations| > 0 ==> s.initialized) &&
    (HasParallel(s.arcs) ==> s.multigraph) && (HasSelfLoop(s.arcs) ==> s.reentrant)
  }

  predicate StateValid(s: State) {
    NamesOk(s.names, s.tasks) && Shapes(s.tasks, s.arcs) && FlagsOk(s)
  }

  /** Distinct tasks have distinct names. */
  lemma NamesUnique(s: State, t1: nat, t2: nat)
    requires StateValid(s) && t1 < |s.tasks| && t2 < |s.tasks| && t1 != t2
    ensures s.tasks[t1].name != s.tasks[t2].name
  {
    assert s.names[s.tasks[t1].name] == t1 && s.names[s.tasks[t2].name] == t2;
  }

  /** Arc `i` exists and fits its endpoints. */
  predicate ArcIn(s: State, i: nat) {
    i < |s.arcs| && ArcShaped(s.tasks, s.arcs[i])
  }

  /** Every arc joins two tasks. */
  predicate EndsIn(s: State) {
    forall i :: 0 <= i < |s.arcs| ==> s.arcs[i].src < |s.tasks| && s.arcs[i].tgt < |s.tasks|
  }

  lemma ValidEndsIn(s: State)
    requires StateValid(s)
    ensures EndsIn(s)
  {
    forall i | 0 <= i < |s.arcs| ensures s.arcs[i].src < |s.tasks| && s.arcs[i].tgt < |s.tasks| {
      assert ArcShaped(s.tasks, s.arcs[i]);
    }
  }

  /** Two arc lists with the same endpoints, position by position. */
  predicate SameEnds(a: seq<ArcAttrs>, b: seq<ArcAttrs>) {
    |a| == |b| && forall i :: 0 <= i < |a| ==> a[i].src == b[i].src && a[i].tgt == b[i].tgt
  }

  lemma SameEndsFlags(a: seq<ArcAttrs>, b: seq<ArcAttrs>)
    requires SameEnds(a, b)
    ensures HasParallel(a) == HasParallel(b) && HasSelfLoop(a) == HasSelfLoop(b)
  {
    if HasParallel(a) {
      var i, j :| 0 <= i < j < |a| && a[i].src == a[j].src && a[i].tgt == a[j].tgt;
      assert b[i].src == b[j].src && b[i].tgt == b[j].tgt;
    }
    if HasParallel(b) {
      var i, j :| 0 <= i < j < |b| && b[i].src == b[j].src && b[i].tgt == b[j].tgt;
      assert a[i].src == a[j].src && a[i].tgt == a[j].tgt;
    }
    if HasSelfLoop(a) {
      var i :| 0 <= i < |a| && a[i].src == a[i].tgt;
      assert b[i].src == b[i].tgt;
    }
    if HasSelfLoop(b) {
      var i :| 0 <= i < |b| && b[i].src == b[i].tgt;
      assert a[i].src == a[i].tgt;
    }
  }

  // ---------------------------------------------------------------------
  // addTask and the task setters

  /** The name `addTask` uses: the given one, or `"t"` followed by the next key. */
  function TaskName(s: State, name: Option<string>): string {
    if name.Some? then name.value else "t" + IntStr(|s.tasks|)
  }

  /**
   * `addTask`: a name already in use leaves the graph as it was and returns
   * `None`; otherwise the new task gets the next key, the duration list
   * `[1]` and no initial phase, and the name index finds it.
   */
  function AddTaskTo(s: State, name: Option<string>): (r: (State, Option<nat>))
    ensures r.1.None? <==> TaskName(s, name) in s.names
    ensures r.1.None? ==> r.0 == s
    ensures r.1.Some? ==> (r.1.value == |s.tasks| && r.0.arcs == s.arcs &&
      r.0.tasks == s.tasks + [TaskAttrs(TaskName(s, name), [1], [], None)] &&
      r.0.names == s.names[TaskName(s, name) := |s.tasks|])
  {
    var nm := TaskName(s, name);
    if nm in s.names then (s, None)
    else (s.(names := s.names[nm := |s.tasks|], tasks := s.tasks + [TaskAttrs(nm, [1], [], None)]), Some(|s.tasks|))
  }

  lemma AddTaskValid(s: State, name: Option<string>)
    requires StateValid(s)
    ensures StateValid(AddTaskTo(s, name).0)
  {
    var r := AddTaskTo(s, name).0;
    var nm := TaskName(s, name);
    if nm !in s.names {
      forall t | 0 <= t < |s.tasks| ensures r.tasks[t] == s.tasks[t] && s.tasks[t].name != nm {
      }
      forall i | 0 <= i < |s.arcs| ensures ArcShaped(r.tasks, r.arcs[i]) {
        assert ArcShaped(s.tasks, s.arcs[i]);
      }
    }
  }

  /** After a successful `addTask`, `getTaskByName` of the name answers the new task, and the old names still answer their tasks. */
  lemma AddTaskFindsName(s: State, name: Option<string>)
    requires StateValid(s) && AddTaskTo(s, name).1.Some?
    ensures var r := AddTaskTo(s, name);
      TaskName(s, name) in r.0.names && r.0.names[TaskName(s, name)] == r.1.value &&
      r.0.tasks[r.1.value].name == TaskName(s, name) &&
      forall n :: n in s.names ==> n in r.0.names && r.0.names[n] == s.names[n]
  {
  }

  /** The tasks with task `t` replaced. */
  function WithTask(s: State, t: nat, x: TaskAttrs): State
    requires t < |s.tasks|
  {
    s.(tasks := s.tasks[t := x])
  }

  /** Changing a task's durations or factor without changing its phase counts keeps the invariant. */
  lemma SameCountsValid(s: State, t: nat, x: TaskAttrs)
    requires StateValid(s) && t < |s.tasks| && x.name == s.tasks[t].name
    requires |x.durations| == |s.tasks[t].durations| && |x.iniDurations| == |s.tasks[t].iniDurations|
    ensures StateValid(WithTask(s, t, x))
  {
    var r := WithTask(s, t, x);
    forall i | 0 <= i < |s.arcs| ensures ArcShaped(r.tasks, r.arcs[i]) {
      assert ArcShaped(s.tasks, s.arcs[i]);
    }
  }

  /** `setRepetitionFactor`. */
  function WithRf(s: State, t: nat, v: int): (r: State)
    requires t < |s.tasks|
    ensures r == WithTask(s, t, s.tasks[t].(rf := Some(v)))
  {
    s.(tasks := s.tasks[t := s.tasks[t].(rf := Some(v))])
  }

  /** `setPhaseDurationList`: the list must be as long as the phase count. */
  function WithDurations(s: State, t: nat, l: seq<int>): (r: (State, Option<PyError>))
    requires t < |s.tasks|
    ensures r.1.Some? <==> |l| != |s.tasks[t].durations|
    ensures r.1.Some? ==> r.1.value == LengthMismatch && r.0 == s
    ensures r.1.None? ==> r.0 == WithTask(s, t, s.tasks[t].(durations := l))
  {
    if |l| != |s.tasks[t].durations| then (s, Some(LengthMismatch))
    else (s.(tasks := s.tasks[t := s.tasks[t].(durations := l)]), None)
  }

  /** `setPhaseDurationInitList`: the list must be as long as the initial phase count. */
  function WithIniDurations(s: State, t: nat, l: seq<int>): (r: (State, Option<PyError>))
    requires t < |s.tasks|
    ensures r.1.Some? <==> |l| != |s.tasks[t].iniDurations|
    ensures r.1.Some? ==> r.1.value == LengthMismatch && r.0 == s
    ensures r.1.None? ==> r.0 == WithTask(s, t, s.tasks[t].(iniDurations := l))
  {
    if |l| != |s.tasks[t].iniDurations| then (s, Some(LengthMismatch))
    else (s.(tasks := s.tasks[t := s.tasks[t].(iniDurations := l)]), None)
  }

  /** Python's `list[p]` position: `p` itself, or counted from the end when negative; `None` is `IndexError`. */
  function PyIndex(p: int, n: nat): (r: Option<nat>)
    ensures r.Some? <==> 0 <= p + n && p < n
    ensures r.Some? ==> r.value < n && (r.value == p || r.value == p + n)
  {
    if 0 <= p < n then Some(p) else if 0 <= p + n && p < 0 then Some(p + n) else None
  }

  /** `setPhaseDuration(t, p, d)`: one duration replaced in place; an index outside the list raises. */
  function WithPhaseDuration(s: State, t: nat, p: int, d: int): (r: (State, Option<PyError>))
    requires t < |s.tasks|
    ensures var n := |s.tasks[t].durations|;
      (r.1.Some? <==> !(0 <= p + n && p < n)) && (r.1.Some? ==> r.1.value == IndexError && r.0 == s)
    ensures r.1.None? ==> var k := PyIndex(p, |s.tasks[t].durations|).value;
      r.0 == WithTask(s, t, s.tasks[t].(durations := s.tasks[t].durations[k := d]))
  {
    var k := PyIndex(p, |s.tasks[t].durations|);
    if k.None? then (s, Some(IndexError))
    else (s.(tasks := s.tasks[t := s.tasks[t].(durations := s.tasks[t].durations[k.value := d])]), None)
  }

  // ---------------------------------------------------------------------
  // setPhaseCount and setPhaseCountInit

  /** The reset `setPhaseCount(t, n)` applies to an arc entering `t`. */
  function ResetIn(a: ArcAttrs, t: nat, k: nat): ArcAttrs {
    if a.tgt == t then a.(cons := Ones(k), thr := Some(Zeros(k))) else a
  }

  /** The reset `setPhaseCount(t, n)` applies to an arc leaving `t`. */
  function ResetOut(a: ArcAttrs, t: nat, k: nat): ArcAttrs {
    if a.src == t then a.(prod := Ones(k)) else a
  }

  function ResetPhases(arcs: seq<ArcAttrs>, t: nat, k: nat): (r: seq<ArcAttrs>)
    ensures |r| == |arcs|
    ensures forall i :: 0 <= i < |arcs| ==> r[i] == ResetOut(ResetIn(arcs[i], t, k), t, k)
  {
    seq(|arcs|, i requires 0 <= i < |arcs| => ResetOut(ResetIn(arcs[i], t, k), t, k))
  }

  /**
   * `setPhaseCount(t, n)`: nothing happens when `n` is the current count;
   * otherwise `n > 1` sets the phased flag, the durations become `[1] * n`,
   * every arc entering `t` gets consumptions `[1] * n` and thresholds
   * `[0] * n`, and every arc leaving `t` productions `[1] * n`. Nothing else
   * changes: in particular the cached gcds are not recomputed.
   */
  function WithPhaseCount(s: State, t: nat, n: int): (r: State)
    requires t < |s.tasks|
    ensures n == |s.tasks[t].durations| ==> r == s
    ensures n != |s.tasks[t].durations| ==> var k := Count(n);
      r.phased == (s.phased || n > 1) && r.tasks == s.tasks[t := s.tasks[t].(durations := Ones(k))] &&
      r == s.(phased := r.phased, tasks := r.tasks, arcs := ResetPhases(s.arcs, t, k))
  {
    if n == |s.tasks[t].durations| then s
    else
      var k := Count(n);
      s.(phased := s.phased || n > 1,
        tasks := s.tasks[t := s.tasks[t].(durations := Ones(k))],
        arcs := ResetPhases(s.arcs, t, k))
  }

  /** After `setPhaseCount`, the arcs at `t` carry the fresh lists and keep their cached gcds. */
  lemma PhaseCountResetsArcs(s: State, t: nat, n: int, i: nat)
    requires t < |s.tasks| && i < |s.arcs| && n != |s.tasks[t].durations|
    ensures var r := WithPhaseCount(s, t, n);
      |r.tasks[t].durations| == Count(n) && (n > 1 ==> r.phased) &&
      (s.arcs[i].tgt == t ==> r.arcs[i].cons == Ones(Count(n)) && r.arcs[i].thr == Some(Zeros(Count(n)))) &&
      (s.arcs[i].src == t ==> r.arcs[i].prod == Ones(Count(n))) &&
      (s.arcs[i].tgt != t ==> r.arcs[i].cons == s.arcs[i].cons && r.arcs[i].thr == s.arcs[i].thr) &&
      (s.arcs[i].src != t ==> r.arcs[i].prod == s.arcs[i].prod) &&
      r.arcs[i].gcd == s.arcs[i].gcd && r.arcs[i].gcdTh == s.arcs[i].gcdTh
  {
  }

  /** Both resets of one arc fit the new phase count of `t`. */
  lemma ResetArcShaped(tasks: seq<TaskAttrs>, a: ArcAttrs, t: nat, k: nat)
    requires ArcShaped(tasks, a) && t < |tasks|
    ensures ArcShaped(tasks[t := tasks[t].(durations := Ones(k))], ResetOut(ResetIn(a, t, k), t, k))
  {
    var ts := tasks[t := tasks[t].(durations := Ones(k))];
    var b := ResetOut(ResetIn(a, t, k), t, k);
    assert ts[a.src].iniDurations == tasks[a.src].iniDurations && ts[a.tgt].iniDurations == tasks[a.tgt].iniDurations;
    assert |b.prod| == |ts[a.src].durations| by {
      if a.src != t {
        assert ts[a.src] == tasks[a.src];
      }
    }
    assert |b.cons| == |ts[a.tgt].durations| by {
      if a.tgt != t {
        assert ts[a.tgt] == tasks[a.tgt];
      }
    }
  }

  lemma WithPhaseCountValid(s: State, t: nat, n: int)
    requires StateValid(s) && t < |s.tasks|
    ensures StateValid(WithPhaseCount(s, t, n))
  {
    if n != |s.tasks[t].durations| {
      var k := Count(n);
      var r := WithPhaseCount(s, t, n);
      assert SameEnds(s.arcs, r.arcs);
      SameEndsFlags(s.arcs, r.arcs);
      forall i | 0 <= i < |r.arcs| ensures ArcShaped(r.tasks, r.arcs[i]) {
        ResetArcShaped(s.tasks, s.arcs[i], t, k);
      }
      assert NamesOk(r.names, r.tasks);
    }
  }

  /** The reset `setPhaseCountInit(t, n)` applies to the initial lists of an arc. */
  function IniResetIn(a: ArcAttrs, t: nat, k: nat): ArcAttrs {
    if a.tgt == t then a.(iniCons := Some(Ones(k)), iniThr := Some(Ones(k))) else a
  }

  function IniResetOut(a: ArcAttrs, t: nat, k: nat): ArcAttrs {
    if a.src == t then a.(iniProd := Some(Ones(k))) else a
  }

  function IniResetPhases(arcs: seq<ArcAttrs>, t: nat, k: nat): (r: seq<ArcAttrs>)
    ensures |r| == |arcs|
    ensures forall i :: 0 <= i < |arcs| ==> r[i] == IniResetOut(IniResetIn(arcs[i], t, k), t, k)
  {
    seq(|arcs|, i requires 0 <= i < |arcs| => IniResetOut(IniResetIn(arcs[i], t, k), t, k))
  }

  /**
   * `setPhaseCountInit(t, n)`: `n > 0` sets the initialized flag; the
   * initial durations become `[1] * n`, and the arcs entering `t` get initial
   * consumptions and thresholds `[1] * n`, those leaving it initial
   * productions `[1] * n`, even when `n` is the current count.
   */
  function WithPhaseCountInit(s: State, t: nat, n: int): (r: State)
    requires t < |s.tasks|
    ensures var k := Count(n);
      r.initialized == (s.initialized || n > 0) && r.tasks == s.tasks[t := s.tasks[t].(iniDurations := Ones(k))] &&
      r == s.(initialized := r.initialized, tasks := r.tasks, arcs := IniResetPhases(s.arcs, t, k))
  {
    var k := Count(n);
    s.(initialized := s.initialized || n > 0,
      tasks := s.tasks[t := s.tasks[t].(iniDurations := Ones(k))],
      arcs := IniResetPhases(s.arcs, t, k))
  }

  /** After `setPhaseCountInit`, the arcs at `t` carry fresh initial lists of the new length. */
  lemma PhaseCountInitResetsArcs(s: State, t: nat, n: int, i: nat)
    requires t < |s.tasks| && i < |s.arcs|
    ensures var r := WithPhaseCountInit(s, t, n);
      |r.tasks[t].iniDurations| == Count(n) && (n > 0 ==> r.initialized) &&
      (s.arcs[i].tgt == t ==> r.arcs[i].iniCons == Some(Ones(Count(n))) && r.arcs[i].iniThr == Some(Ones(Count(n)))) &&
      (s.arcs[i].src == t ==> r.arcs[i].iniProd == Some(Ones(Count(n)))) &&
      r.arcs[i].cons == s.arcs[i].cons && r.arcs[i].prod == s.arcs[i].prod && r.arcs[i].gcdInit == s.arcs[i].gcdInit
  {
  }

  lemma IniResetArcShaped(tasks: seq<TaskAttrs>, a: ArcAttrs, t: nat, k: nat)
    requires ArcShaped(tasks, a) && t < |tasks|
    ensures ArcShaped(tasks[t := tasks[t].(iniDurations := Ones(k))], IniResetOut(IniResetIn(a, t, k), t, k))
  {
    var ts := tasks[t := tasks[t].(iniDurations := Ones(k))];
    assert ts[a.src].durations == tasks[a.src].durations && ts[a.tgt].durations == tasks[a.tgt].durations;
    if a.src != t {
      assert ts[a.src] == tasks[a.src];
    }
    if a.tgt != t {
      assert ts[a.tgt] == tasks[a.tgt];
    }
  }

  lemma WithPhaseCountInitValid(s: State, t: nat, n: int)
    requires StateValid(s) && t < |s.tasks|
    ensures StateValid(WithPhaseCountInit(s, t, n))
  {
    var k := Count(n);
    var r := WithPhaseCountInit(s, t, n);
    assert SameEnds(s.arcs, r.arcs);
    SameEndsFlags(s.arcs, r.arcs);
    forall i | 0 <= i < |r.arcs| ensures ArcShaped(r.tasks, r.arcs[i]) {
      IniResetArcShaped(s.tasks, s.arcs[i], t, k);
    }
    assert NamesOk(r.names, r.tasks);
  }

  /** The two loops of `setPhaseCount` over the arcs entering and leaving `t`. */
  method ResetPhaseLists(arcs0: seq<ArcAttrs>, t: nat, k: nat) returns (arcs: seq<ArcAttrs>)
    ensures arcs == ResetPhases(arcs0, t, k)
  {
    arcs := arcs0;
    for i := 0 to |arcs|
      invariant |arcs| == |arcs0|
      invariant forall j :: 0 <= j < i ==> arcs[j] == ResetIn(arcs0[j], t, k)
      invariant forall j :: i <= j < |arcs| ==> arcs[j] == arcs0[j]
    {
      if arcs[i].tgt == t {
        arcs := arcs[i := arcs[i].(cons := Ones(k), thr := Some(Zeros(k)))];
      }
    }
    for i := 0 to |arcs|
      invariant |arcs| == |arcs0|
      invariant forall j :: 0 <= j < i ==> arcs[j] == ResetOut(ResetIn(arcs0[j], t, k), t, k)
      invariant forall j :: i <= j < |arcs| ==> arcs[j] == ResetIn(arcs0[j], t, k)
    {
      if arcs[i].src == t {
        arcs := arcs[i := arcs[i].(prod := Ones(k))];
      }
    }
  }

  /** The two loops of `setPhaseCountInit`. */
  method IniResetPhaseLists(arcs0: seq<ArcAttrs>, t: nat, k: nat) returns (arcs: seq<ArcAttrs>)
    ensures arcs == IniResetPhases(arcs0, t, k)
  {
    arcs := arcs0;
    for i := 0 to |arcs|
      invariant |arcs| == |arcs0|
      invariant forall j :: 0 <= j < i ==> arcs[j] == IniResetIn(arcs0[j], t, k)
      invariant forall j :: i <= j < |arcs| ==> arcs[j] == arcs0[j]
    {
      if arcs[i].tgt == t {
        arcs := arcs[i := arcs[i].(iniCons := Some(Ones(k)), iniThr := Some(Ones(k)))];
      }
    }
    for i := 0 to |arcs|
      invariant |arcs| == |arcs0|
      invariant forall j :: 0 <= j < i ==> arcs[j] == IniResetOut(IniResetIn(arcs0[j], t, k), t, k)
      invariant forall j :: i <= j < |arcs| ==> arcs[j] == IniResetIn(arcs0[j], t, k)
    {
      if arcs[i].src == t {
        arcs := arcs[i := arcs[i].(iniProd := Some(Ones(k)))];
      }
    }
  }

  // ---------------------------------------------------------------------
  // addArc and removeArc

  /** `len(getArcList(source, target)) > 0`: an arc already joins the pair. */
  predicate Joined(arcs: seq<ArcAttrs>, src: nat, tgt: nat) {
    exists j :: 0 <= j < |arcs| && arcs[j].src == src && arcs[j].tgt == tgt
  }

  /** The arc `addArc` creates: marking 0, token size 1, rates `[1]` per endpoint phase. */
  function NewArc(s: State, src: nat, tgt: nat): ArcAttrs
    requires src < |s.tasks| && tgt < |s.tasks|
  {
    ArcAttrs(src, tgt, 0, 1, Ones(|s.tasks[src].durations|), Ones(|s.tasks[tgt].durations|),
      None, None, None, None, None, None, None, None)
  }

  /**
   * `addArc(src, tgt)`: a second arc between the same pair sets the
   * multigraph flag, a self-loop the reentrant flag; the new arc is the
   * last one.
   */
  function AddArcTo(s: State, src: nat, tgt: nat): (r: State)
    requires src < |s.tasks| && tgt < |s.tasks|
    ensures r.arcs == s.arcs + [NewArc(s, src, tgt)] && r.tasks == s.tasks && r.names == s.names
    ensures r.multigraph <==> s.multigraph || Joined(s.arcs, src, tgt)
    ensures r.reentrant <==> s.reentrant || src == tgt
    ensures r.phased == s.phased && r.thresholded == s.thresholded && r.initialized == s.initialized
  {
    s.(multigraph := s.multigraph || Joined(s.arcs, src, tgt),
      arcs := s.arcs + [NewArc(s, src, tgt)],
      reentrant := s.reentrant || src == tgt)
  }

  /** A parallel pair after appending `x`: one before, or one with `x`. */
  lemma ParallelSnoc(arcs: seq<ArcAttrs>, x: ArcAttrs)
    ensures HasParallel(arcs + [x]) <==> HasParallel(arcs) || Joined(arcs, x.src, x.tgt)
    ensures HasSelfLoop(arcs + [x]) <==> HasSelfLoop(arcs) || x.src == x.tgt
  {
    var e := arcs + [x];
    if HasParallel(e) {
      var i, j :| 0 <= i < j < |e| && e[i].src == e[j].src && e[i].tgt == e[j].tgt;
      if j < |arcs| {
        assert arcs[i] == e[i] && arcs[j] == e[j];
      } else {
        assert arcs[i] == e[i];
      }
    }
    if Joined(arcs, x.src, x.tgt) {
      var j :| 0 <= j < |arcs| && arcs[j].src == x.src && arcs[j].tgt == x.tgt;
      assert e[j] == arcs[j] && e[|arcs|] == x;
    }
    if HasParallel(arcs) {
      var i, j :| 0 <= i < j < |arcs| && arcs[i].src == arcs[j].src && arcs[i].tgt == arcs[j].tgt;
      assert e[i] == arcs[i] && e[j] == arcs[j];
    }
    if HasSelfLoop(e) {
      var i :| 0 <= i < |e| && e[i].src == e[i].tgt;
      if i < |arcs| {
        assert arcs[i] == e[i];
      }
    }
    if HasSelfLoop(arcs) {
      var i :| 0 <= i < |arcs| && arcs[i].src == arcs[i].tgt;
      assert e[i] == arcs[i];
    }
    assert e[|arcs|] == x;
  }

  lemma AddArcValid(s: State, src: nat, tgt: nat)
    requires StateValid(s) && src < |s.tasks| && tgt < |s.tasks|
    ensures StateValid(AddArcTo(s, src, tgt))
  {
    var r := AddArcTo(s, src, tgt);
    ParallelSnoc(s.arcs, NewArc(s, src, tgt));
    forall i | 0 <= i < |r.arcs| ensures ArcShaped(r.tasks, r.arcs[i]) {
      if i < |s.arcs| {
        assert r.arcs[i] == s.arcs[i];
      }
    }
  }

  /** `removeArc`: the arc leaves the list; no flag is cleared. */
  function RemoveArcFrom(s: State, i: nat): (r: State)
    requires i < |s.arcs|
    ensures |r.arcs| == |s.arcs| - 1 && r.tasks == s.tasks && r.names == s.names
    ensures forall j :: 0 <= j < |r.arcs| ==> r.arcs[j] == s.arcs[if j < i then j else j + 1]
    ensures r == s.(arcs := r.arcs)
  {
    s.(arcs := s.arcs[..i] + s.arcs[i + 1..])
  }

  /** Removing an arc creates no parallel pair and no self-loop. */
  lemma RemoveArcFlags(arcs: seq<ArcAttrs>, i: nat)
    requires i < |arcs|
    ensures HasParallel(arcs[..i] + arcs[i + 1..]) ==> HasParallel(arcs)
    ensures HasSelfLoop(arcs[..i] + arcs[i + 1..]) ==> HasSelfLoop(arcs)
  {
    var r := arcs[..i] + arcs[i + 1..];
    if HasParallel(r) {
      var a, b :| 0 <= a < b < |r| && r[a].src == r[b].src && r[a].tgt == r[b].tgt;
      var a', b' := if a < i then a else a + 1, if b < i then b else b + 1;
      assert arcs[a'] == r[a] && arcs[b'] == r[b];
    }
    if HasSelfLoop(r) {
      var a :| 0 <= a < |r| && r[a].src == r[a].tgt;
      assert arcs[if a < i then a else a + 1] == r[a];
    }
  }

  lemma RemoveArcValid(s: State, i: nat)
    requires StateValid(s) && i < |s.arcs|
    ensures StateValid(RemoveArcFrom(s, i))
  {
    var r := RemoveArcFrom(s, i);
    forall j | 0 <= j < |r.arcs| ensures ArcShaped(r.tasks, r.arcs[j]) {
      assert ArcShaped(s.tasks, s.arcs[if j < i then j else j + 1]);
    }
    RemoveArcFlags(s.arcs, i);
  }

  // ---------------------------------------------------------------------
  // The arc setters

  /** Only arc `i` (and at most the thresholded flag) differs, and its endpoints stay. */
  predicate OnlyArcChanged(s: State, r: State, i: nat) {
    i < |s.arcs| && |r.arcs| == |s.arcs| &&
    r == s.(thresholded := r.thresholded, arcs := s.arcs[i := r.arcs[i]]) &&
    r.arcs[i].src == s.arcs[i].src && r.arcs[i].tgt == s.arcs[i].tgt
  }

  /** Replacing one arc by one that fits the same endpoints keeps the invariant. */
  lemma ArcChangeValid(s: State, r: State, i: nat)
    requires StateValid(s) && OnlyArcChanged(s, r, i) && ArcShaped(s.tasks, r.arcs[i])
    ensures StateValid(r)
  {
    assert SameEnds(s.arcs, r.arcs);
    SameEndsFlags(s.arcs, r.arcs);
    forall j | 0 <= j < |r.arcs| ensures ArcShaped(r.tasks, r.arcs[j]) {
      if j != i {
        assert r.arcs[j] == s.arcs[j];
      }
    }
  }

  /** `setInitialMarking`. */
  function WithMarking(s: State, i: nat, m: int): (r: State)
    requires ArcIn(s, i)
    ensures OnlyArcChanged(s, r, i) && ArcShaped(s.tasks, r.arcs[i]) && r.thresholded == s.thresholded
    ensures r.arcs[i] == s.arcs[i].(m0 := m)
  {
    s.(arcs := s.arcs[i := s.arcs[i].(m0 := m)])
  }

  /** `setTokenSize`. */
  function WithTokenSize(s: State, i: nat, z: int): (r: State)
    requires ArcIn(s, i)
    ensures OnlyArcChanged(s, r, i) && ArcShaped(s.tasks, r.arcs[i]) && r.thresholded == s.thresholded
    ensures r.arcs[i] == s.arcs[i].(tokenSize := z)
  {
    s.(arcs := s.arcs[i := s.arcs[i].(tokenSize := z)])
  }

  /** `__adjustThreshold`: each threshold raised to at least its rate. */
  function Raised(rates: seq<int>, thr: seq<int>): (r: seq<int>)
    requires |rates| <= |thr|
    ensures |r| == |thr|
    ensures forall k :: 0 <= k < |rates| ==> r[k] >= rates[k] && r[k] >= thr[k] && (r[k] == rates[k] || r[k] == thr[k])
    ensures forall k :: |rates| <= k < |thr| ==> r[k] == thr[k]
  {
    seq(|thr|, k requires 0 <= k < |thr| => if k < |rates| && rates[k] > thr[k] then rates[k] else thr[k])
  }

  /** The loop of `__adjustThreshold`, which updates the threshold list in place. */
  method AdjustThreshold(rates: seq<int>, thr0: seq<int>) returns (thr: seq<int>)
    requires |rates| <= |thr0|
    ensures thr == Raised(rates, thr0)
  {
    thr := thr0;
    for i := 0 to |rates|
      invariant |thr| == |thr0|
      invariant forall k :: 0 <= k < i ==> thr[k] == Raised(rates, thr0)[k]
      invariant forall k :: i <= k < |thr| ==> thr[k] == thr0[k]
    {
      if rates[i] > thr[i] {
        thr := thr[i := rates[i]];
      }
    }
  }

  /** `gcdList(l)` of the legacy `gcd` module: it divides every element. */
  function GcdListOf(l: seq<int>): (g: int)
    requires |l| > 0
    ensures DividesAll(g, l)
  {
    GcdFoldDividesAll(l, l[0]);
    GcdFold(l, l[0])
  }

  /** Every common divisor of the list divides `gcdList(l)`. */
  lemma GcdListGreatest(l: seq<int>, d: int)
    requires |l| > 0 && DividesAll(d, l)
    ensures Divides(d, GcdListOf(l))
  {
    GcdFoldGreatest(l, l[0], d);
  }

  /** A divisor of all of `a + b` divides all of `a` and all of `b`, and back. */
  lemma DividesAllConcat(d: int, a: seq<int>, b: seq<int>)
    ensures DividesAll(d, a + b) <==> DividesAll(d, a) && DividesAll(d, b)
  {
    assert forall k :: 0 <= k < |a| ==> (a + b)[k] == a[k];
    assert forall k :: 0 <= k < |b| ==> (a + b)[|a| + k] == b[k];
  }

  /** The arc gcd divides the consumptions and productions. */
  predicate GcdCached(a: ArcAttrs) {
    a.gcd.Some? && DividesAll(a.gcd.value, a.cons) && DividesAll(a.gcd.value, a.prod)
  }

  /** `__calcGcd`: `gcdList(cons + prod)`, which raises `IndexError` on two empty lists. */
  function CalcGcd(a: ArcAttrs): (r: (ArcAttrs, Option<PyError>))
    ensures r.1.Some? <==> |a.cons| + |a.prod| == 0
    ensures r.1.Some? ==> r.0 == a && r.1.value == IndexError
    ensures r.1.None? ==> GcdCached(r.0)
    ensures r.0 == a.(gcd := r.0.gcd)
  {
    var l := a.cons + a.prod;
    if |l| == 0 then (a, Some(IndexError))
    else
      var g := GcdListOf(l);
      DividesAllConcat(g, a.cons, a.prod);
      (a.(gcd := Some(g)), None)
  }

  /** The cached gcd is the greatest common divisor of the two lists. */
  lemma CalcGcdGreatest(a: ArcAttrs, d: int)
    requires CalcGcd(a).1.None? && DividesAll(d, a.cons) && DividesAll(d, a.prod)
    ensures Divides(d, CalcGcd(a).0.gcd.value)
  {
    DividesAllConcat(d, a.cons, a.prod);
    GcdListGreatest(a.cons + a.prod, d);
  }

  /** Arc `i` replaced by `a`. */
  function WithArc(s: State, i: nat, a: ArcAttrs): State
    requires i < |s.arcs|
  {
    s.(arcs := s.arcs[i := a])
  }

  /**
   * `setConsList(arc, l)`: a list whose length is not the target's phase
   * count raises before anything changes; otherwise the list is stored and
   * the arc gcd recomputed from the consumptions and productions.
   */
  function WithCons(s: State, i: nat, l: seq<int>): (r: (State, Option<PyError>))
    requires ArcIn(s, i)
    ensures OnlyArcChanged(s, r.0, i) && ArcShaped(s.tasks, r.0.arcs[i]) && r.0.thresholded == s.thresholded
    ensures r.1 == Some(LengthMismatch) <==> |l| != |s.tasks[s.arcs[i].tgt].durations|
    ensures r.1 == Some(LengthMismatch) ==> r.0 == s
    ensures r.1 != Some(LengthMismatch) ==> r.0.arcs[i] == CalcGcd(s.arcs[i].(cons := l)).0 && r.1 == CalcGcd(s.arcs[i].(cons := l)).1
  {
    var a := s.arcs[i];
    if |l| != |s.tasks[a.tgt].durations| then (s, Some(LengthMismatch))
    else
      var c := CalcGcd(a.(cons := l));
      (WithArc(s, i, c.0), c.1)
  }

  /** `setProdList(arc, l)`: checked against the source's phase count. */
  function WithProd(s: State, i: nat, l: seq<int>): (r: (State, Option<PyError>))
    requires ArcIn(s, i)
    ensures OnlyArcChanged(s, r.0, i) && ArcShaped(s.tasks, r.0.arcs[i]) && r.0.thresholded == s.thresholded
    ensures r.1 == Some(LengthMismatch) <==> |l| != |s.tasks[s.arcs[i].src].durations|
    ensures r.1 == Some(LengthMismatch) ==> r.0 == s
    ensures r.1 != Some(LengthMismatch) ==> r.0.arcs[i] == CalcGcd(s.arcs[i].(prod := l)).0 && r.1 == CalcGcd(s.arcs[i].(prod := l)).1
  {
    var a := s.arcs[i];
    if |l| != |s.tasks[a.src].durations| then (s, Some(LengthMismatch))
    else
      var c := CalcGcd(a.(prod := l));
      (WithArc(s, i, c.0), c.1)
  }

  /**
   * What `setConsList` leaves on the arc: the list stored and, unless both
   * lists are empty (`IndexError`), a gcd that divides them.
   */
  lemma WithConsStores(s: State, i: nat, l: seq<int>)
    requires ArcIn(s, i) && |l| == |s.tasks[s.arcs[i].tgt].durations|
    ensures var r := WithCons(s, i, l);
      r.0.arcs[i].cons == l && r.0.arcs[i].prod == s.arcs[i].prod &&
      (r.1.None? <==> |l| + |s.arcs[i].prod| > 0) && (r.1.None? ==> GcdCached(r.0.arcs[i])) &&
      (r.1.Some? ==> r.1.value == IndexError && r.0.arcs[i].gcd == s.arcs[i].gcd)
  {
  }

  lemma WithProdStores(s: State, i: nat, l: seq<int>)
    requires ArcIn(s, i) && |l| == |s.tasks[s.arcs[i].src].durations|
    ensures var r := WithProd(s, i, l);
      r.0.arcs[i].prod == l && r.0.arcs[i].cons == s.arcs[i].cons &&
      (r.1.None? <==> |l| + |s.arcs[i].cons| > 0) && (r.1.None? ==> GcdCached(r.0.arcs[i])) &&
      (r.1.Some? ==> r.1.value == IndexError && r.0.arcs[i].gcd == s.arcs[i].gcd)
  {
  }

  /**
   * `setConsThresholdList(arc, l)`: sets the thresholded flag first (so
   * even a refused list leaves it set), checks the length, raises each
   * threshold to its consumption, stores the list and caches its gcd
   * (`IndexError` on an empty list, after the list is stored).
   */
  function WithThr(s: State, i: nat, l: seq<int>): (r: (State, Option<PyError>))
    requires ArcIn(s, i)
    ensures OnlyArcChanged(s, r.0, i) && ArcShaped(s.tasks, r.0.arcs[i]) && r.0.thresholded
    ensures r.1 == Some(LengthMismatch) <==> |l| != |s.tasks[s.arcs[i].tgt].durations|
    ensures r.1 == Some(LengthMismatch) ==> r.0 == s.(thresholded := true)
    ensures r.1 != Some(LengthMismatch) ==>
      r.0.arcs[i].(gcdTh := s.arcs[i].gcdTh) == s.arcs[i].(thr := Some(Raised(s.arcs[i].cons, l))) &&
      (r.1.None? <==> |l| > 0) && (r.1.Some? ==> r.1.value == IndexError && r.0.arcs[i].gcdTh == s.arcs[i].gcdTh) &&
      (r.1.None? ==> r.0.arcs[i].gcdTh == Some(GcdListOf(Raised(s.arcs[i].cons, l))))
  {
    var s1 := s.(thresholded := true);
    var a := s.arcs[i];
    if |l| != |s.tasks[a.tgt].durations| then (s1, Some(LengthMismatch))
    else
      var adj := Raised(a.cons, l);
      if |adj| == 0 then (WithArc(s1, i, a.(thr := Some(adj))), Some(IndexError))
      else (WithArc(s1, i, a.(thr := Some(adj), gcdTh := Some(GcdListOf(adj)))), None)
  }

  /** The stored thresholds are at least the consumptions, and the threshold gcd divides them. */
  lemma WithThrRaises(s: State, i: nat, l: seq<int>)
    requires ArcIn(s, i) && WithThr(s, i, l).1.None?
    ensures var a := WithThr(s, i, l).0.arcs[i];
      a.thr.Some? && |a.thr.value| == |a.cons| &&
      (forall k :: 0 <= k < |a.cons| ==> a.thr.value[k] >= a.cons[k] && a.thr.value[k] >= l[k]) &&
      a.gcdTh.Some? && DividesAll(a.gcdTh.value, a.thr.value)
  {
  }

  /** `getConsInitList`: the stored list on an initialized graph, `[]` otherwise; `None` for `KeyError`. */
  function ConsInitList(s: State, a: ArcAttrs): Option<seq<int>> {
    if s.initialized then a.iniCons else Some([])
  }

  /** `__calcGcdInit`: `1` for two empty lists; an absent list (`KeyError`, caught) leaves the cache alone. */
  function CalcGcdInit(a: ArcAttrs, ini: Option<seq<int>>, other: Option<seq<int>>): (r: ArcAttrs)
    ensures r == a.(gcdInit := r.gcdInit)
    ensures ini.None? || other.None? ==> r == a
    ensures ini.Some? && other.Some? && |ini.value| + |other.value| == 0 ==> r.gcdInit == Some(1)
    ensures ini.Some? && other.Some? && |ini.value| + |other.value| > 0 ==>
      r.gcdInit.Some? && DividesAll(r.gcdInit.value, ini.value) && DividesAll(r.gcdInit.value, other.value)
  {
    if ini.None? || other.None? then a
    else
      var l := ini.value + other.value;
      if |l| == 0 then a.(gcdInit := Some(1))
      else
        var g := GcdListOf(l);
        DividesAllConcat(g, ini.value, other.value);
        a.(gcdInit := Some(g))
  }

  /**
   * `setConsInitList(arc, l)`: checked against the target's initial phase
   * count; the initial gcd then comes from the initial consumptions and
   * productions.
   */
  function WithIniCons(s: State, i: nat, l: seq<int>): (r: (State, Option<PyError>))
    requires ArcIn(s, i)
    ensures OnlyArcChanged(s, r.0, i) && ArcShaped(s.tasks, r.0.arcs[i]) && r.0.thresholded == s.thresholded
    ensures r.1.Some? <==> |l| != |s.tasks[s.arcs[i].tgt].iniDurations|
    ensures r.1.Some? ==> r.1.value == LengthMismatch && r.0 == s
    ensures r.1.None? ==> var a := s.arcs[i].(iniCons := Some(l));
      r.0.arcs[i] == CalcGcdInit(a, ConsInitList(s, a), a.iniProd)
  {
    var a := s.arcs[i];
    if |l| != |s.tasks[a.tgt].iniDurations| then (s, Some(LengthMismatch))
    else
      var a1 := a.(iniCons := Some(l));
      (WithArc(s, i, CalcGcdInit(a1, ConsInitList(s, a1), a1.iniProd)), None)
  }

  /** `setProdInitList(arc, l)`: checked against the source's initial phase count. */
  function WithIniProd(s: State, i: nat, l: seq<int>): (r: (State, Option<PyError>))
    requires ArcIn(s, i)
    ensures OnlyArcChanged(s, r.0, i) && ArcShaped(s.tasks, r.0.arcs[i]) && r.0.thresholded == s.thresholded
    ensures r.1.Some? <==> |l| != |s.tasks[s.arcs[i].src].iniDurations|
    ensures r.1.Some? ==> r.1.value == LengthMismatch && r.0 == s
    ensures r.1.None? ==> var a := s.arcs[i].(iniProd := Some(l));
      r.0.arcs[i] == CalcGcdInit(a, ConsInitList(s, a), Some(l))
  {
    var a := s.arcs[i];
    if |l| != |s.tasks[a.src].iniDurations| then (s, Some(LengthMismatch))
    else
      var a1 := a.(iniProd := Some(l));
      (WithArc(s, i, CalcGcdInit(a1, ConsInitList(s, a1), Some(l))), None)
  }

  /** On an initialized graph, both initial lists stored, not both empty: the initial gcd divides both. */
  lemma WithIniConsGcd(s: State, i: nat, l: seq<int>)
    requires ArcIn(s, i) && WithIniCons(s, i, l).1.None? && s.initialized && s.arcs[i].iniProd.Some?
    requires |l| + |s.arcs[i].iniProd.value| > 0
    ensures var a := WithIniCons(s, i, l).0.arcs[i];
      a.iniCons == Some(l) && a.gcdInit.Some? && DividesAll(a.gcdInit.value, l) && DividesAll(a.gcdInit.value, a.iniProd.value)
  {
  }

  /**
   * `setConsInitThresholdList(arc, l)`: like the cyclic one, against the
   * initial consumptions (none on a graph that is not initialized); on an
   * initialized graph whose arc has no initial consumption list the
   * adjustment raises `KeyError`.
   */
  function WithIniThr(s: State, i: nat, l: seq<int>): (r: (State, Option<PyError>))
    requires ArcIn(s, i)
    ensures OnlyArcChanged(s, r.0, i) && ArcShaped(s.tasks, r.0.arcs[i]) && r.0.thresholded
    ensures r.1 == Some(LengthMismatch) <==> |l| != |s.tasks[s.arcs[i].tgt].iniDurations|
    ensures r.1 == Some(LengthMismatch) ==> r.0 == s.(thresholded := true)
    ensures r.1 != Some(LengthMismatch) ==>
      (r.1 == Some(KeyError) <==> s.initialized && s.arcs[i].iniCons.None?) &&
      (r.1 == Some(KeyError) ==> r.0 == s.(thresholded := true))
    ensures r.1.None? ==> (ConsInitList(s, s.arcs[i]).Some? &&
      r.0.arcs[i].(gcdInitTh := s.arcs[i].gcdInitTh) == s.arcs[i].(iniThr := Some(Raised(ConsInitList(s, s.arcs[i]).value, l))))
  {
    var s1 := s.(thresholded := true);
    var a := s.arcs[i];
    if |l| != |s.tasks[a.tgt].iniDurations| then (s1, Some(LengthMismatch))
    else
      var base := ConsInitList(s, a);
      if base.None? then (s1, Some(KeyError))
      else
        var adj := Raised(base.value, l);
        var cit := if s.initialized then adj else [];
        (WithArc(s1, i, a.(iniThr := Some(adj), gcdInitTh := Some(if |cit| > 0 then GcdListOf(cit) else 1))), None)
  }

  // ---------------------------------------------------------------------
  // Queries

  /** `getGraphType`: "PCG" with thresholds or initial phases, "CSDFG" when only phased, "SDFG" otherwise. */
  function TypeOf(s: State): (k: Kind)
    ensures k == PCG <==> s.thresholded || s.initialized
    ensures k == SDF <==> !s.thresholded && !s.initialized && !s.phased
  {
    if !s.thresholded && !s.initialized then (if !s.phased then SDF else CSDF) else PCG
  }

  /** A graph the legacy class calls "SDFG" has single-phase tasks without initial phases. */
  lemma SdfTasksSinglePhase(s: State, t: nat)
    requires StateValid(s) && TypeOf(s) == SDF && t < |s.tasks|
    ensures |s.tasks[t].durations| <= 1 && |s.tasks[t].iniDurations| == 0
  {
  }

  /** `gcdList([step] + [x])`. */
  function GcdPair(step: int, x: int): (r: int)
    ensures Divides(r, step) && Divides(r, x)
  {
    var g := GcdListOf([step, x]);
    assert [step, x][0] == step && [step, x][1] == x;
    g
  }

  lemma GcdPairGreatest(step: int, x: int, d: int)
    requires Divides(d, step) && Divides(d, x)
    ensures Divides(d, GcdPair(step, x))
  {
    GcdListGreatest([step, x], d);
  }

  /** The cached gcds `getGcd` folds in, in its order; an absent initial gcd reads as 0. */
  function GcdParts(s: State, a: ArcAttrs): seq<int>
    requires a.gcd.Some? && (s.thresholded ==> a.gcdTh.Some?)
  {
    [a.gcd.value] + (if s.thresholded then [a.gcdTh.value] else []) +
    (if s.initialized then [OrZero(a.gcdInit)] else []) +
    (if s.initialized && s.thresholded then [OrZero(a.gcdInitTh)] else [])
  }

  /**
   * `getGcd(arc)`: the cached arc gcd, folded with the threshold gcd on a
   * thresholded graph (absent: `KeyError`), with the initial gcd on an
   * initialized one and with the initial threshold gcd when both hold.
   */
  function GcdOf(s: State, i: nat): (r: Result<int>)
    requires i < |s.arcs|
    ensures r.Err? <==> s.arcs[i].gcd.None? || (s.thresholded && s.arcs[i].gcdTh.None?)
    ensures r.Err? ==> r.error == KeyError
  {
    var a := s.arcs[i];
    if a.gcd.None? || (s.thresholded && a.gcdTh.None?) then Err(KeyError)
    else
      var s1 := if s.thresholded then GcdPair(a.gcd.value, a.gcdTh.value) else a.gcd.value;
      var s2 := if s.initialized then GcdPair(s1, OrZero(a.gcdInit)) else s1;
      var s3 := if s.initialized && s.thresholded then GcdPair(s2, OrZero(a.gcdInitTh)) else s2;
      Ok(s3)
  }

  /** The answer divides every cached gcd it folds in. */
  lemma GcdOfDivides(s: State, i: nat)
    requires i < |s.arcs| && GcdOf(s, i).Ok?
    ensures DividesAll(GcdOf(s, i).value, GcdParts(s, s.arcs[i]))
  {
    var a := s.arcs[i];
    var s1 := if s.thresholded then GcdPair(a.gcd.value, a.gcdTh.value) else a.gcd.value;
    var s2 := if s.initialized then GcdPair(s1, OrZero(a.gcdInit)) else s1;
    var s3 := if s.initialized && s.thresholded then GcdPair(s2, OrZero(a.gcdInitTh)) else s2;
    assert s3 == GcdOf(s, i).value;
    DividesRefl(s1);
    DividesRefl(s2);
    DividesTrans(s3, s2, s1);
    DividesTrans(s2, s1, a.gcd.value);
    DividesTrans(s3, s2, a.gcd.value);
    if s.thresholded {
      DividesTrans(s2, s1, a.gcdTh.value);
      DividesTrans(s3, s2, a.gcdTh.value);
    }
    if s.initialized {
      DividesTrans(s3, s2, OrZero(a.gcdInit));
    }
  }

  /** A common divisor of the cached gcds divides the answer. */
  lemma GcdOfGreatest(s: State, i: nat, d: int)
    requires i < |s.arcs| && GcdOf(s, i).Ok? && DividesAll(d, GcdParts(s, s.arcs[i]))
    ensures Divides(d, GcdOf(s, i).value)
  {
    var a := s.arcs[i];
    var parts := GcdParts(s, a);
    assert parts[0] == a.gcd.value;
    var s1 := if s.thresholded then GcdPair(a.gcd.value, a.gcdTh.value) else a.gcd.value;
    var s2 := if s.initialized then GcdPair(s1, OrZero(a.gcdInit)) else s1;
    if s.thresholded {
      assert parts[1] == a.gcdTh.value;
      GcdPairGreatest(a.gcd.value, a.gcdTh.value, d);
    }
    if s.initialized {
      assert parts[if s.thresholded then 2 else 1] == OrZero(a.gcdInit);
      GcdPairGreatest(s1, OrZero(a.gcdInit), d);
    }
    if s.initialized && s.thresholded {
      assert parts[3] == OrZero(a.gcdInitTh);
      GcdPairGreatest(s2, OrZero(a.gcdInitTh), d);
    }
  }

  function TaskView(x: TaskAttrs): Task {
    Task(x.name, OrZero(x.rf), x.durations, x.iniDurations)
  }

  function PlainArc(a: ArcAttrs): Arc {
    Arc(a.src, a.tgt, 0, "", a.m0, a.tokenSize, OrZero(a.gcd), a.prod, a.cons,
      OrEmpty(a.iniProd), OrEmpty(a.iniCons), OrEmpty(a.thr), OrEmpty(a.iniThr))
  }

  /** The graph as the value the shared queries read: absent entries read as 0 or `[]`. */
  function View(s: State): (g: Graph)
    requires EndsIn(s)
    ensures EndpointsOk(g) && |g.tasks| == |s.tasks| && |g.arcs| == |s.arcs| && g.kind == TypeOf(s)
    ensures forall t :: 0 <= t < |s.tasks| ==> g.tasks[t] == TaskView(s.tasks[t])
    ensures forall i :: 0 <= i < |s.arcs| ==> g.arcs[i] == PlainArc(s.arcs[i])
  {
    var ts := seq(|s.tasks|, t requires 0 <= t < |s.tasks| => TaskView(s.tasks[t]));
    var arcList := seq(|s.arcs|, i requires 0 <= i < |s.arcs| => PlainArc(s.arcs[i]));
    Graph(TypeOf(s), ts, arcList)
  }

  /**
   * `isConsistent` from arc `k` on: a repetition factor never stored raises
   * `KeyError`; the first arc with `sum(prod) * RV(src) != sum(cons) * RV(tgt)`
   * answers false.
   */
  function ConsistentFrom(s: State, k: nat): Result<bool>
    requires EndsIn(s)
    decreases |s.arcs| - k
  {
    if k >= |s.arcs| then Ok(true)
    else
      var a := s.arcs[k];
      var rs, rt := s.tasks[a.src].rf, s.tasks[a.tgt].rf;
      if rs.None? || rt.None? then Err(KeyError)
      else if Sum(a.prod) * rs.value != Sum(a.cons) * rt.value then Ok(false)
      else ConsistentFrom(s, k + 1)
  }

  /** Every task has a stored repetition factor. */
  predicate AllFactors(s: State) {
    forall t :: 0 <= t < |s.tasks| ==> s.tasks[t].rf.Some?
  }

  /** Arc `k` balances: `sum(prod) * RV(src) == sum(cons) * RV(tgt)`. */
  predicate Balanced(s: State, k: nat)
    requires EndsIn(s) && AllFactors(s) && k < |s.arcs|
  {
    Sum(s.arcs[k].prod) * s.tasks[s.arcs[k].src].rf.value == Sum(s.arcs[k].cons) * s.tasks[s.arcs[k].tgt].rf.value
  }

  /** The balance test of one arc is the consistency of that arc in the view. */
  lemma ArcConsistentView(s: State, k: nat)
    requires EndsIn(s) && AllFactors(s) && k < |s.arcs|
    ensures ArcConsistent(View(s), k) <==> Balanced(s, k)
  {
    var g := View(s);
    var a := s.arcs[k];
    assert g.arcs[k] == PlainArc(a);
    assert g.tasks[a.src] == TaskView(s.tasks[a.src]) && g.tasks[a.tgt] == TaskView(s.tasks[a.tgt]);
  }

  /** With every factor stored, the test answers, and answers whether each arc from `k` on balances. */
  lemma {:induction false} ConsistentFromMeaning(s: State, k: nat)
    requires EndsIn(s) && AllFactors(s)
    ensures ConsistentFrom(s, k) == Ok(forall i :: k <= i < |s.arcs| ==> Balanced(s, i))
    decreases |s.arcs| - k
  {
    if k < |s.arcs| {
      ConsistentFromMeaning(s, k + 1);
      assert (forall i :: k <= i < |s.arcs| ==> Balanced(s, i)) <==>
        Balanced(s, k) && forall i :: k + 1 <= i < |s.arcs| ==> Balanced(s, i);
    }
  }

  /** `isConsistent` is the consistency of the graph the object holds. */
  lemma IsConsistentAnswers(s: State)
    requires EndsIn(s) && AllFactors(s)
    ensures ConsistentFrom(s, 0) == Ok(IsConsistent(View(s)))
  {
    ConsistentFromMeaning(s, 0);
    forall i | 0 <= i < |s.arcs| ensures ArcConsistent(View(s), i) <==> Balanced(s, i) {
      ArcConsistentView(s, i);
    }
  }

  /** A factor not stored on an endpoint of the first arc: `isConsistent` raises `KeyError`. */
  lemma MissingFactorRaises(s: State)
    requires EndsIn(s) && |s.arcs| > 0 && s.tasks[s.arcs[0].src].rf.None?
    ensures ConsistentFrom(s, 0) == Err(KeyError)
  {
  }

  /** The loop of `isConsistent`, stopping at the first answer other than "so far consistent". */
  method ConsistencyCheck(s: State) returns (r: Result<bool>)
    requires EndsIn(s)
    ensures r == ConsistentFrom(s, 0)
  {
    r := Ok(true);
    var k := 0;
    while k < |s.arcs| && r == Ok(true)
      invariant 0 <= k <= |s.arcs|
      invariant ConsistentFrom(s, 0) == if r == Ok(true) then ConsistentFrom(s, k) else r
      decreases |s.arcs| - k
    {
      var a := s.arcs[k];
      var rs, rt := s.tasks[a.src].rf, s.tasks[a.tgt].rf;
      if rs.None? || rt.None? {
        r := Err(KeyError);
      } else if Sum(a.prod) * rs.value != Sum(a.cons) * rt.value {
        r := Ok(false);
      }
      k := k + 1;
    }
  }

  /**
   * One task of `isNormalized`: the reference rate is the production of the
   * first leaving arc, or else the consumption of the first entering one
   * (`IndexError` when there is none); every leaving production and every
   * entering consumption must equal it.
   */
  method TaskNormalized(g: Graph, t: nat) returns (r: Result<bool>)
    ensures var rates := SideRates(g.arcs, t);
      r == if |rates| == 0 then Err(IndexError) else if !AllEqual(rates) then Ok(false) else Ok(true)
  {
    var outs := OutArcs(g.arcs, t);
    var ins := InArcs(g.arcs, t);
    ghost var rates := SideRates(g.arcs, t);
    assert |rates| == |outs| + |ins|;
    var ref: int;
    if |outs| > 0 {
      ref := Sum(g.arcs[outs[0]].prod);
    } else if |ins| > 0 {
      ref := Sum(g.arcs[ins[0]].cons);
    } else {
      return Err(IndexError);
    }
    assert ref == rates[0];
    var ok := true;
    var k := 0;
    while k < |outs| && ok
      invariant 0 <= k <= |outs|
      invariant ok <==> forall j :: 0 <= j < k ==> rates[j] == ref
      decreases |outs| - k
    {
      assert rates[k] == Sum(g.arcs[outs[k]].prod);
      ok := Sum(g.arcs[outs[k]].prod) == ref;
      k := k + 1;
    }
    var m := 0;
    while m < |ins| && ok
      invariant 0 <= m <= |ins|
      invariant ok ==> k == |outs|
      invariant ok <==> forall j :: 0 <= j < k + m ==> rates[j] == ref
      decreases |ins| - m
    {
      assert rates[|outs| + m] == Sum(g.arcs[ins[m]].cons);
      ok := Sum(g.arcs[ins[m]].cons) == ref;
      m := m + 1;
    }
    r := Ok(ok);
  }

  /** The loop of `isNormalized` over the tasks, stopping at the first answer other than "so far normalized". */
  method NormalizedCheck(g: Graph) returns (r: Result<bool>)
    ensures r == IsNormalized(g)
  {
    r := Ok(true);
    var t := 0;
    while t < |g.tasks| && r == Ok(true)
      invariant 0 <= t <= |g.tasks|
      invariant NormalizedFrom(g, 0) == if r == Ok(true) then NormalizedFrom(g, t) else r
      decreases |g.tasks| - t
    {
      r := TaskNormalized(g, t);
      t := t + 1;
    }
  }

  // ---------------------------------------------------------------------
  // The object

  class LegacyGraph {
    var phased: bool
    var thresholded: bool
    var initialized: bool
    var reentrant: bool
    var multigraph: bool
    var taskByName: map<string, nat>
    var tasks: seq<TaskAttrs>
    var arcs: seq<ArcAttrs>

    function Snapshot(): State
      reads this
    {
      State(phased, thresholded, initialized, reentrant, multigraph, taskByName, tasks, arcs)
    }

    ghost predicate Valid()
      reads this
    {
      StateValid(Snapshot())
    }

    constructor ()
      ensures Valid() && Snapshot() == Fresh()
    {
      phased, thresholded, initialized, reentrant, multigraph := false, false, false, false, false;
      taskByName := map[];
      tasks := [];
      arcs := [];
    }

    method AddTask(name: Option<string>) returns (r: Option<nat>)
      requires Valid()
      modifies this
      ensures Valid() && (Snapshot(), r) == AddTaskTo(old(Snapshot()), name)
    {
      AddTaskValid(Snapshot(), name);
      var newTask := |tasks|;
      var nm := if name.Some? then name.value else "t" + IntStr(newTask);
      if nm in taskByName {
        r := None;
      } else {
        taskByName := taskByName[nm := newTask];
        tasks := tasks + [TaskAttrs(nm, [1], [], None)];
        r := Some(newTask);
      }
    }

    method SetRepetitionFactor(task: nat, v: int)
      requires Valid() && task < |tasks|
      modifies this
      ensures Valid() && Snapshot() == WithRf(old(Snapshot()), task, v)
    {
      SameCountsValid(Snapshot(), task, tasks[task].(rf := Some(v)));
      tasks := tasks[task := tasks[task].(rf := Some(v))];
    }

    method SetPhaseCount(task: nat, phaseCount: int)
      requires Valid() && task < |tasks|
      modifies this
      ensures Valid() && Snapshot() == WithPhaseCount(old(Snapshot()), task, phaseCount)
    {
      WithPhaseCountValid(Snapshot(), task, phaseCount);
      if phaseCount == |tasks[task].durations| {
        return;
      }
      if phaseCount > 1 {
        phased := true;
      }
      var k := Count(phaseCount);
      tasks := tasks[task := tasks[task].(durations := Ones(k))];
      arcs := ResetPhaseLists(arcs, task, k);
    }

    method SetPhaseCountInit(task: nat, phaseCountInit: int)
      requires Valid() && task < |tasks|
      modifies this
      ensures Valid() && Snapshot() == WithPhaseCountInit(old(Snapshot()), task, phaseCountInit)
    {
      WithPhaseCountInitValid(Snapshot(), task, phaseCountInit);
      if phaseCountInit > 0 {
        initialized := true;
      }
      var k := Count(phaseCountInit);
      tasks := tasks[task := tasks[task].(iniDurations := Ones(k))];
      arcs := IniResetPhaseLists(arcs, task, k);
    }

    method SetPhaseDuration(task: nat, phase: int, duration: int) returns (e: Option<PyError>)
      requires Valid() && task < |tasks|
      modifies this
      ensures Valid() && (Snapshot(), e) == WithPhaseDuration(old(Snapshot()), task, phase, duration)
    {
      var k := PyIndex(phase, |tasks[task].durations|);
      if k.None? {
        return Some(IndexError);
      }
      SameCountsValid(Snapshot(), task, tasks[task].(durations := tasks[task].durations[k.value := duration]));
      tasks := tasks[task := tasks[task].(durations := tasks[task].durations[k.value := duration])];
      e := None;
    }

    method SetPhaseDurationList(task: nat, l: seq<int>) returns (e: Option<PyError>)
      requires Valid() && task < |tasks|
      modifies this
      ensures Valid() && (Snapshot(), e) == WithDurations(old(Snapshot()), task, l)
    {
      if |l| != |tasks[task].durations| {
        return Some(LengthMismatch);
      }
      SameCountsValid(Snapshot(), task, tasks[task].(durations := l));
      tasks := tasks[task := tasks[task].(durations := l)];
      e := None;
    }

    method SetPhaseDurationInitList(task: nat, l: seq<int>) returns (e: Option<PyError>)
      requires Valid() && task < |tasks|
      modifies this
      ensures Valid() && (Snapshot(), e) == WithIniDurations(old(Snapshot()), task, l)
    {
      if |l| != |tasks[task].iniDurations| {
        return Some(LengthMismatch);
      }
      SameCountsValid(Snapshot(), task, tasks[task].(iniDurations := l));
      tasks := tasks[task := tasks[task].(iniDurations := l)];
      e := None;
    }

    method AddArc(source: nat, target: nat) returns (arc: nat)
      requires Valid() && source < |tasks| && target < |tasks|
      modifies this
      ensures Valid() && Snapshot() == AddArcTo(old(Snapshot()), source, target)
      ensures arc == |old(arcs)| && arc < |arcs| && arcs[arc] == NewArc(old(Snapshot()), source, target)
    {
      AddArcValid(Snapshot(), source, target);
      var a := NewArc(Snapshot(), source, target);
      if Joined(arcs, source, target) {
        multigraph := true;
      }
      arcs := arcs + [a];
      arc := |arcs| - 1;
      if source == target {
        reentrant := true;
      }
    }

    method RemoveArc(arc: nat)
      requires Valid() && arc < |arcs|
      modifies this
      ensures Valid() && Snapshot() == RemoveArcFrom(old(Snapshot()), arc)
    {
      RemoveArcValid(Snapshot(), arc);
      arcs := arcs[..arc] + arcs[arc + 1..];
    }

    method SetInitialMarking(arc: nat, preload: int)
      requires Valid() && arc < |arcs|
      modifies this
      ensures Valid() && Snapshot() == WithMarking(old(Snapshot()), arc, preload)
    {
      assert ArcShaped(tasks, arcs[arc]);
      ArcChangeValid(Snapshot(), WithMarking(Snapshot(), arc, preload), arc);
      arcs := arcs[arc := arcs[arc].(m0 := preload)];
    }

    method SetTokenSize(arc: nat, tokenSize: int)
      requires Valid() && arc < |arcs|
      modifies this
      ensures Valid() && Snapshot() == WithTokenSize(old(Snapshot()), arc, tokenSize)
    {
      assert ArcShaped(tasks, arcs[arc]);
      ArcChangeValid(Snapshot(), WithTokenSize(Snapshot(), arc, tokenSize), arc);
      arcs := arcs[arc := arcs[arc].(tokenSize := tokenSize)];
    }

    method SetConsList(arc: nat, l: seq<int>) returns (e: Option<PyError>)
      requires Valid() && arc < |arcs|
      modifies this
      ensures Valid() && (Snapshot(), e) == WithCons(old(Snapshot()), arc, l)
    {
      assert ArcShaped(tasks, arcs[arc]);
      ArcChangeValid(Snapshot(), WithCons(Snapshot(), arc, l).0, arc);
      if |l| != |tasks[arcs[arc].tgt].durations| {
        return Some(LengthMismatch);
      }
      var c := CalcGcd(arcs[arc].(cons := l));
      arcs := arcs[arc := c.0];
      e := c.1;
    }

    method SetProdList(arc: nat, l: seq<int>) returns (e: Option<PyError>)
      requires Valid() && arc < |arcs|
      modifies this
      ensures Valid() && (Snapshot(), e) == WithProd(old(Snapshot()), arc, l)
    {
      assert ArcShaped(tasks, arcs[arc]);
      ArcChangeValid(Snapshot(), WithProd(Snapshot(), arc, l).0, arc);
      if |l| != |tasks[arcs[arc].src].durations| {
        return Some(LengthMismatch);
      }
      var c := CalcGcd(arcs[arc].(prod := l));
      arcs := arcs[arc := c.0];
      e := c.1;
    }

    method SetConsThresholdList(arc: nat, l: seq<int>) returns (e: Option<PyError>)
      requires Valid() && arc < |arcs|
      modifies this
      ensures Valid() && (Snapshot(), e) == WithThr(old(Snapshot()), arc, l)
    {
      assert ArcShaped(tasks, arcs[arc]);
      ArcChangeValid(Snapshot(), WithThr(Snapshot(), arc, l).0, arc);
      thresholded := true;
      if |l| != |tasks[arcs[arc].tgt].durations| {
        return Some(LengthMismatch);
      }
      var adj := AdjustThreshold(arcs[arc].cons, l);
      if |adj| == 0 {
        arcs := arcs[arc := arcs[arc].(thr := Some(adj))];
        e := Some(IndexError);
      } else {
        var g := GcdList(adj);
        arcs := arcs[arc := arcs[arc].(thr := Some(adj), gcdTh := Some(g))];
        e := None;
      }
    }

    method SetConsInitList(arc: nat, l: seq<int>) returns (e: Option<PyError>)
      requires Valid() && arc < |arcs|
      modifies this
      ensures Valid() && (Snapshot(), e) == WithIniCons(old(Snapshot()), arc, l)
    {
      assert ArcShaped(tasks, arcs[arc]);
      ArcChangeValid(Snapshot(), WithIniCons(Snapshot(), arc, l).0, arc);
      if |l| != |tasks[arcs[arc].tgt].iniDurations| {
        return Some(LengthMismatch);
      }
      var a := arcs[arc].(iniCons := Some(l));
      arcs := arcs[arc := CalcGcdInit(a, ConsInitList(Snapshot(), a), a.iniProd)];
      e := None;
    }

    method SetProdInitList(arc: nat, l: seq<int>) returns (e: Option<PyError>)
      requires Valid() && arc < |arcs|
      modifies this
      ensures Valid() && (Snapshot(), e) == WithIniProd(old(Snapshot()), arc, l)
    {
      assert ArcShaped(tasks, arcs[arc]);
      ArcChangeValid(Snapshot(), WithIniProd(Snapshot(), arc, l).0, arc);
      if |l| != |tasks[arcs[arc].src].iniDurations| {
        return Some(LengthMismatch);
      }
      var a := arcs[arc].(iniProd := Some(l));
      arcs := arcs[arc := CalcGcdInit(a, ConsInitList(Snapshot(), a), Some(l))];
      e := None;
    }

    method SetConsInitThresholdList(arc: nat, l: seq<int>) returns (e: Option<PyError>)
      requires Valid() && arc < |arcs|
      modifies this
      ensures Valid() && (Snapshot(), e) == WithIniThr(old(Snapshot()), arc, l)
    {
      assert ArcShaped(tasks, arcs[arc]);
      ArcChangeValid(Snapshot(), WithIniThr(Snapshot(), arc, l).0, arc);
      var base := ConsInitList(Snapshot(), arcs[arc]);
      thresholded := true;
      if |l| != |tasks[arcs[arc].tgt].iniDurations| {
        return Some(LengthMismatch);
      }
      if base.None? {
        return Some(KeyError);
      }
      var adj := AdjustThreshold(base.value, l);
      var cit := if initialized then adj else [];
      var g := 1;
      if |cit| > 0 {
        g := GcdList(cit);
      }
      arcs := arcs[arc := arcs[arc].(iniThr := Some(adj), gcdInitTh := Some(g))];
      e := None;
    }

    /** `getGraphType`. */
    method GraphType() returns (k: Kind)
      ensures k == TypeOf(Snapshot())
    {
      if !thresholded && !initialized {
        k := if !phased then SDF else CSDF;
      } else {
        k := PCG;
      }
    }

    /** `getGcd`. */
    method GetGcd(arc: nat) returns (r: Result<int>)
      requires arc < |arcs|
      ensures r == GcdOf(Snapshot(), arc)
    {
      var a := arcs[arc];
      if a.gcd.None? || (thresholded && a.gcdTh.None?) {
        return Err(KeyError);
      }
      var step := a.gcd.value;
      if thresholded {
        step := GcdList([step] + [a.gcdTh.value]);
      }
      if initialized {
        step := GcdList([step] + [OrZero(a.gcdInit)]);
      }
      if initialized && thresholded {
        step := GcdList([step] + [OrZero(a.gcdInitTh)]);
      }
      r := Ok(step);
    }

    /** `isConsistent`. */
    method IsConsistentCheck() returns (r: Result<bool>)
      requires Valid()
      ensures EndsIn(Snapshot()) && r == ConsistentFrom(Snapshot(), 0)
    {
      ValidEndsIn(Snapshot());
      r := ConsistencyCheck(Snapshot());
    }

    /** `isNormalized`. */
    method IsNormalizedCheck() returns (r: Result<bool>)
      requires Valid()
      ensures EndsIn(Snapshot()) && r == IsNormalized(View(Snapshot()))
    {
      ValidEndsIn(Snapshot());
      r := NormalizedCheck(View(Snapshot()));
    }
  }
}
