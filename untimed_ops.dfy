// The untimed executor as the program runs it: an object holding the
// markings and the current phases, updated in place round after round.
module UntimedOps {
  import opened Outcomes
  import opened Legacy
  import opened UntimedExecution
  import SymbolicExecution

  /** `SymbolicExe` of the older package, on the legacy graph it was built with. */
  class UntimedExe {
    const g: State
    var m0: seq<int>
    var currentPhase: seq<int>

    /** `__init__(graph)`: the graph as it is now. */
    constructor (graph: LegacyGraph)
      requires Ready(graph.Snapshot())
      ensures g == graph.Snapshot() && m0 == [] && currentPhase == []
    {
      g := graph.Snapshot();
      m0, currentPhase := [], [];
    }

    /** `__raz`: the initial markings, and every task in its first phase. */
    method Raz()
      requires Ready(g)
      modifies this`m0, this`currentPhase
      ensures m0 == StartRun(g).m0 && currentPhase == StartRun(g).phase
    {
      var m := [];
      var i := 0;
      while i < |g.arcs|
        invariant 0 <= i <= |g.arcs| && |m| == i
        invariant forall j :: 0 <= j < i ==> m[j] == g.arcs[j].m0
      {
        m := m + [g.arcs[i].m0];
        i := i + 1;
      }
      m0 := m;
      var ph := [];
      var t := 0;
      while t < |g.tasks|
        invariant 0 <= t <= |g.tasks| && |ph| == t
        invariant forall k :: 0 <= k < t ==> ph[k] == Lowest(g, k)
      {
        var p := 0;
        if g.initialized {
          p := -|g.tasks[t].iniDurations|;
        }
        ph := ph + [p];
        t := t + 1;
      }
      currentPhase := ph;
    }

    /** `__isExecutable`: stops at the first entering arc short of what the phase needs. */
    method IsExecutable(t: nat) returns (b: bool)
      requires Ready(g) && PhasesOk(g, currentPhase) && |m0| == |g.arcs|
      ensures b == Executable(g, m0, currentPhase, t)
    {
      b := true;
      var i := 0;
      while i < |g.arcs| && b
        invariant 0 <= i <= |g.arcs|
        invariant b == forall j :: 0 <= j < i && g.arcs[j].tgt == t ==> m0[j] >= TokenNeed(g, currentPhase, j)
        invariant !b ==> !Executable(g, m0, currentPhase, t)
      {
        if g.arcs[i].tgt == t && m0[i] < TokenNeed(g, currentPhase, i) {
          b := false;
        }
        i := i + 1;
      }
    }

    /**
     * `__taskExe`: consume on every entering arc, answering -1 as soon as a
     * marking goes negative; then produce on every leaving arc and move the
     * task to its next phase.
     */
    method TaskExe(t: nat) returns (code: int)
      requires Ready(g) && PhasesOk(g, currentPhase) && |m0| == |g.arcs| && t < |g.tasks|
      modifies this`m0, this`currentPhase
      ensures code == -1 || code == 0
      ensures code == -1 <==> Overdrawn(g, old(m0), old(currentPhase), t)
      ensures code == 0 ==>
        m0 == Produced(g, Consumed(g, old(m0), old(currentPhase), t), old(currentPhase), t) &&
        currentPhase == old(currentPhase)[t := NextPhase(g, old(currentPhase), t)]
    {
      var consumed := ConsumeInputs(t);
      if consumed.None? {
        return -1;
      }
      m0 := consumed.value;
      ProduceOutputs(t);
      var p := currentPhase[t] + 1;
      if p == |g.tasks[t].durations| {
        p := 0;
      }
      currentPhase := currentPhase[t := p];
      return 0;
    }

    /** The first loop of `__taskExe`, on a copy of the markings: `None` once one goes negative. */
    method ConsumeInputs(t: nat) returns (r: Option<seq<int>>)
      requires Ready(g) && PhasesOk(g, currentPhase) && |m0| == |g.arcs|
      ensures r.None? <==> Overdrawn(g, m0, currentPhase, t)
      ensures r.Some? ==> r.value == Consumed(g, m0, currentPhase, t)
    {
      var m := m0;
      var ok := true;
      var i := 0;
      while i < |g.arcs| && ok
        invariant 0 <= i <= |g.arcs| && |m| == |g.arcs|
        invariant ok ==> forall j :: 0 <= j < i ==> m[j] == Consumed(g, m0, currentPhase, t)[j]
        invariant forall j :: i <= j < |g.arcs| ==> m[j] == m0[j]
        invariant ok ==> forall j :: 0 <= j < i && g.arcs[j].tgt == t ==> m0[j] >= TokenDel(g, currentPhase, j)
        invariant !ok ==> Overdrawn(g, m0, currentPhase, t)
      {
        if g.arcs[i].tgt == t {
          m := m[i := m[i] - TokenDel(g, currentPhase, i)];
          if m[i] < 0 {
            ok := false;
          }
        }
        i := i + 1;
      }
      if !ok {
        return None;
      }
      assert m == Consumed(g, m0, currentPhase, t);
      return Some(m);
    }

    /** The second loop of `__taskExe`: every leaving arc gains what the phase produces. */
    method ProduceOutputs(t: nat)
      requires Ready(g) && PhasesOk(g, currentPhase) && |m0| == |g.arcs|
      modifies this`m0
      ensures m0 == Produced(g, old(m0), currentPhase, t)
    {
      var m := m0;
      var i := 0;
      while i < |g.arcs|
        invariant 0 <= i <= |g.arcs| && |m| == |g.arcs|
        invariant forall j :: 0 <= j < i ==> m[j] == Produced(g, m0, currentPhase, t)[j]
        invariant forall j :: i <= j < |g.arcs| ==> m[j] == m0[j]
      {
        if g.arcs[i].src == t {
          m := m[i := m[i] + TokenCreate(g, currentPhase, i)];
        }
        i := i + 1;
      }
      assert m == Produced(g, m0, currentPhase, t);
      m0 := m;
    }

    /** The first loop of a round: `executedTask` and `taskExecute`. */
    method SelectTasks(ne: seq<int>, stepTwo: bool) returns (sel: seq<bool>, count: int)
      requires Ready(g) && RunOk(g, URun(m0, currentPhase, ne, stepTwo))
      ensures sel == Selection(g, URun(m0, currentPhase, ne, stepTwo))
      ensures count == SymbolicExecution.CountTrue(sel)
    {
      ghost var r := URun(m0, currentPhase, ne, stepTwo);
      sel := [];
      count := 0;
      var t := 0;
      while t < |g.tasks|
        invariant 0 <= t <= |g.tasks| && sel == Selection(g, r)[..t]
        invariant count == SymbolicExecution.CountTrue(sel)
      {
        var chosen, d := SelectOne(ne, stepTwo, t);
        SelectionStep(g, r, t);
        sel := sel + [chosen];
        count := count + d;
        t := t + 1;
      }
      assert Selection(g, r)[..|g.tasks|] == Selection(g, r);
    }

    /**
     * The body of the selection loop for task `t`: whether it is chosen,
     * and what it adds to the count (one, taken back when step two says it
     * has fired enough).
     */
    method SelectOne(ne: seq<int>, stepTwo: bool, t: nat) returns (chosen: bool, d: int)
      requires Ready(g) && RunOk(g, URun(m0, currentPhase, ne, stepTwo)) && t < |g.tasks|
      ensures chosen == Selected(g, URun(m0, currentPhase, ne, stepTwo), t)
      ensures d == if chosen then 1 else 0
    {
      chosen, d := false, 0;
      var e := IsExecutable(t);
      if e {
        chosen := true;
        if stepTwo && ne[t] == g.tasks[t].rf.value * |g.tasks[t].durations| {
          chosen := false;
          d := d - 1;
        }
        d := d + 1;
      }
    }

    /** Firing one chosen task: count it, then `__taskExe`; -1 ends the run. */
    method FireTask(t: nat, ne: seq<int>, stepTwo: bool) returns (st: UStep)
      requires Ready(g) && RunOk(g, URun(m0, currentPhase, ne, stepTwo)) && t < |g.tasks|
      modifies this`m0, this`currentPhase
      ensures st == FireOne(g, URun(old(m0), old(currentPhase), ne, stepTwo), t)
      ensures st.Go? ==> st.run.m0 == m0 && st.run.phase == currentPhase
    {
      var n := ne[t := ne[t] + 1];
      var code := TaskExe(t);
      if code == -1 {
        return Halt(-1);
      }
      return Go(URun(m0, currentPhase, n, stepTwo));
    }

    /** The firing loop, over the tasks in order. */
    method FireSelected(sel: seq<bool>, ne: seq<int>, stepTwo: bool) returns (st: UStep)
      requires Ready(g) && RunOk(g, URun(m0, currentPhase, ne, stepTwo)) && |sel| == |g.tasks|
      modifies this`m0, this`currentPhase
      ensures st == Fired(g, sel, URun(old(m0), old(currentPhase), ne, stepTwo), |g.tasks|)
      ensures st.Go? ==> st.run.m0 == m0 && st.run.phase == currentPhase
    {
      ghost var r0 := URun(m0, currentPhase, ne, stepTwo);
      st := Go(URun(m0, currentPhase, ne, stepTwo));
      var t := 0;
      while t < |g.tasks| && st.Go?
        invariant 0 <= t <= |g.tasks| && st == Fired(g, sel, r0, t)
        invariant st.Go? ==> st.run.m0 == m0 && st.run.phase == currentPhase
      {
        st := FireNext(sel, r0, t, st.run.numExe, stepTwo);
        t := t + 1;
      }
      if t < |g.tasks| {
        FiredHaltStays(g, sel, r0, t, |g.tasks|);
      }
    }

    /** The body of the firing loop, for task `t`: fire it when it was chosen. */
    method FireNext(sel: seq<bool>, ghost r0: URun, t: nat, n: seq<int>, stepTwo: bool) returns (st: UStep)
      requires Ready(g) && RunOk(g, r0) && |sel| == |g.tasks| && t < |g.tasks|
      requires Fired(g, sel, r0, t) == Go(URun(m0, currentPhase, n, stepTwo))
      modifies this`m0, this`currentPhase
      ensures st == Fired(g, sel, r0, t + 1)
      ensures st.Go? ==> st.run.m0 == m0 && st.run.phase == currentPhase
    {
      FiredStep(g, sel, r0, t);
      if sel[t] {
        st := FireTask(t, n, stepTwo);
      } else {
        st := Go(URun(m0, currentPhase, n, stepTwo));
      }
    }

    /** The test that ends step one: every task fired at least its initial and cyclic phases. */
    method AllReachedScan(ne: seq<int>) returns (b: bool)
      requires |ne| == |g.tasks|
      ensures b == AllReached(g, ne)
    {
      var numExe := 0;
      var t := 0;
      while t < |g.tasks|
        invariant 0 <= t <= |g.tasks| && 0 <= numExe <= t
        invariant numExe == t <==> forall k :: 0 <= k < t ==> Reached(g, ne, k)
      {
        if ne[t] >= |g.tasks[t].iniDurations| + |g.tasks[t].durations| {
          numExe := numExe + 1;
        } else {
          assert !Reached(g, ne, t);
        }
        t := t + 1;
      }
      b := numExe == |g.tasks|;
    }

    /** The test that ends step two: every task fired its repetition factor times its phase count. */
    method AllEnoughScan(ne: seq<int>) returns (b: bool)
      requires Ready(g) && |ne| == |g.tasks|
      ensures b == AllEnough(g, ne)
    {
      var numExe := 0;
      var t := 0;
      while t < |g.tasks|
        invariant 0 <= t <= |g.tasks| && 0 <= numExe <= t
        invariant numExe == t <==> forall k :: 0 <= k < t ==> Enough(g, ne, k)
      {
        if ne[t] == g.tasks[t].rf.value * |g.tasks[t].durations| {
          numExe := numExe + 1;
        } else {
          assert !Enough(g, ne, t);
        }
        t := t + 1;
      }
      b := numExe == |g.tasks|;
    }

    /** The end of a round, after a firing loop that went on: see `AfterFiring`. */
    method FinishRound(ne: seq<int>, stepTwo: bool, count: int) returns (st: UStep)
      requires Ready(g) && RunOk(g, URun(m0, currentPhase, ne, stepTwo))
      ensures st == AfterFiring(g, URun(m0, currentPhase, ne, stepTwo), count)
      ensures st.Go? ==> st.run.m0 == m0 && st.run.phase == currentPhase
    {
      var n := ne;
      var two := stepTwo;
      if !two {
        var reached := AllReachedScan(n);
        if reached {
          var t := 0;
          while t < |g.tasks|
            invariant 0 <= t <= |g.tasks| && |n| == |g.tasks|
            invariant forall k :: 0 <= k < t ==> n[k] == 0
          {
            n := n[t := 0];
            t := t + 1;
          }
          assert n == Zeros(|g.tasks|);
          two := true;
        }
      }
      var terminate := false;
      if two {
        terminate := AllEnoughScan(n);
      }
      if count == 0 {
        return Halt(-1);
      }
      st := if terminate then Halt(0) else Go(URun(m0, currentPhase, n, two));
    }

    /** One iteration of the main loop of `execute`. */
    method RunRound(ne: seq<int>, stepTwo: bool) returns (st: UStep)
      requires Ready(g) && RunOk(g, URun(m0, currentPhase, ne, stepTwo))
      modifies this`m0, this`currentPhase
      ensures st == Round(g, URun(old(m0), old(currentPhase), ne, stepTwo))
      ensures st.Go? ==> st.run.m0 == m0 && st.run.phase == currentPhase
    {
      var sel, count := SelectTasks(ne, stepTwo);
      var f := FireSelected(sel, ne, stepTwo);
      if f.Halt? {
        return f;
      }
      st := FinishRound(f.run.numExe, f.run.stepTwo, count);
    }

    /** Round `k + 1` of a run from `r0`. */
    method RoundAt(ghost r0: URun, ghost k: nat, ne: seq<int>, stepTwo: bool) returns (st: UStep)
      requires Ready(g) && RunOk(g, r0) && RunAfter(g, r0, k) == Go(URun(m0, currentPhase, ne, stepTwo))
      modifies this`m0, this`currentPhase
      ensures st == RunAfter(g, r0, k + 1)
      ensures st.Go? ==> st.run.m0 == m0 && st.run.phase == currentPhase
    {
      st := RunRound(ne, stepTwo);
    }

    /** `execute()`, for at most `fuel` rounds of its main loop; `None` when they run out first. */
    method Execute(fuel: nat) returns (r: Option<int>)
      requires Ready(g)
      modifies this`m0, this`currentPhase
      ensures r == ExecuteOf(g, fuel)
    {
      Raz();
      ghost var r0 := StartRun(g);
      var st := Go(URun(m0, currentPhase, Zeros(|g.tasks|), false));
      assert st == Go(r0);
      var k := 0;
      while k < fuel && st.Go?
        invariant k <= fuel && st == RunAfter(g, r0, k)
        invariant st.Go? ==> st.run.m0 == m0 && st.run.phase == currentPhase
      {
        st := RoundAt(r0, k, st.run.numExe, st.run.stepTwo);
        k := k + 1;
      }
      if k < fuel {
        RunAfterStays(g, r0, k, fuel);
      }
      r := if st.Halt? then Some(st.code) else None;
    }
  }
}
