// The timed executor as an object: `SymbolicExe` keeps the markings, the
// phases, the executing list, the time left to each executing task, the
// clock and the start-time table in fields that `execute` updates round
// after round. Each method is proved to leave the state that the matching
// function of `SymbolicExecution` describes.
module SymbolicOps {
  import opened Arith
  import opened Outcomes
  import opened Graph
  import opened Dataflow
  import opened SymbolicExecution

  /** A graph whose rate and duration lists have the lengths their phase counts demand. */
  type ShapedGraph = g: Graph | Shaped(g) witness Graph(SDF, [], [])

  class Executor {
    /** The dataflow object, and the graph it held when the executor was made. */
    const dataflow: DataflowGraph
    const g: ShapedGraph
    var m0: seq<int>
    var phase: seq<int>
    var executing: seq<nat>
    var tickLeft: map<nat, int>
    var timeTick: int
    var starts: map<StartKey, seq<int>>

    function State(): Sim
      reads this
    {
      Sim(m0, phase, executing, tickLeft, timeTick, starts)
    }

    /** `__init__`: an empty start-time table, the clock at 0, nothing executing. */
    constructor (dg: DataflowGraph)
      requires Shaped(dg.Value())
      ensures dataflow == dg && g == dg.Value() && starts == map[] && timeTick == 0 && executing == [] && tickLeft == map[]
      ensures m0 == [] && phase == []
    {
      dataflow := dg;
      g := dg.Value();
      m0 := [];
      phase := [];
      executing := [];
      tickLeft := map[];
      timeTick := 0;
      starts := map[];
    }

    /** `__raz`: markings from the graph, initial phases, empty slots for this graph's start times. */
    method Raz()
      modifies this
      ensures State() == Reset(g, old(starts))
    {
      var m := [];
      var i := 0;
      while i < |g.arcs|
        invariant 0 <= i <= |g.arcs| && |m| == i
        invariant forall k :: 0 <= k < i ==> m[k] == g.arcs[k].m0
      {
        m := m + [g.arcs[i].m0];
        i := i + 1;
      }
      assert m == Markings(g.arcs);
      var st := starts;
      var ph := [];
      var t := 0;
      while t < |g.tasks|
        invariant 0 <= t <= |g.tasks| && |ph| == t
        invariant forall k :: 0 <= k < t ==> ph[k] == InitialPhases(g)[k]
        invariant st == StartsReset(g, starts, t)
      {
        var p := 0;
        if IsSdf(g.kind) {
          st := st[TaskKey(t) := []];
        }
        if IsCsdf(g.kind) {
          var q := 0;
          while q < PhaseCount(g, t)
            invariant 0 <= q <= PhaseCount(g, t)
            invariant st == PhaseSlotsReset(StartsReset(g, starts, t), t, q)
          {
            st := st[PhaseKey(t, q) := []];
            q := q + 1;
          }
        }
        if IsPcg(g.kind) {
          p := -(IniPhaseCount(g, t) as int);
        }
        ph := ph + [p];
        t := t + 1;
      }
      assert ph == InitialPhases(g);
      timeTick := 0;
      executing := [];
      tickLeft := map[];
      m0 := m;
      phase := ph;
      starts := st;
    }

    /** `__is_executable`: stops at the first entering arc short of what the phase needs. */
    method IsExecutable(t: nat) returns (b: bool)
      requires PhasesOk(g, phase) && |m0| == |g.arcs|
      ensures b == Executable(g, m0, phase, t)
    {
      var i := 0;
      while i < |g.arcs|
        invariant 0 <= i <= |g.arcs|
        invariant forall j :: 0 <= j < i && g.arcs[j].tgt == t ==> m0[j] >= TokenNeed(g, phase, j)
      {
        if g.arcs[i].tgt == t && m0[i] < TokenNeed(g, phase, i) {
          return false;
        }
        i := i + 1;
      }
      return true;
    }

    /**
     * `__task_start_exe`: consume on every entering arc; answer -1 as soon
     * as a marking goes negative, which happens exactly when the task was
     * overdrawn. On 0 every entering arc has lost what the phase consumes.
     */
    method TaskStartExe(t: nat) returns (code: int)
      requires PhasesOk(g, phase) && |m0| == |g.arcs|
      modifies this`m0
      ensures code == -1 || code == 0
      ensures code == -1 <==> Overdrawn(g, old(m0), phase, t)
      ensures code == 0 ==> m0 == Consumed(g, old(m0), phase, t)
      ensures |m0| == |g.arcs|
    {
      var m := m0;
      var i := 0;
      while i < |g.arcs|
        invariant 0 <= i <= |g.arcs| && |m| == |g.arcs|
        invariant forall j :: 0 <= j < i ==> m[j] == if g.arcs[j].tgt == t then m0[j] - TokenDel(g, phase, j) else m0[j]
        invariant forall j :: i <= j < |g.arcs| ==> m[j] == m0[j]
        invariant forall j :: 0 <= j < i && g.arcs[j].tgt == t ==> m0[j] >= TokenDel(g, phase, j)
      {
        if g.arcs[i].tgt == t {
          m := m[i := m[i] - TokenDel(g, phase, i)];
          if m[i] < 0 {
            m0 := m;
            return -1;
          }
        }
        i := i + 1;
      }
      assert m == Consumed(g, m0, phase, t);
      m0 := m;
      return 0;
    }

    /** `__task_end_exe`: produce on every leaving arc, then advance the phase. */
    method TaskEndExe(t: nat)
      requires TokensOk(g, m0, phase) && t < |g.tasks|
      modifies this`m0, this`phase
      ensures Tokens(m0, phase) == EndOf(g, Tokens(old(m0), old(phase)), t)
    {
      var m := m0;
      var i := 0;
      while i < |g.arcs|
        invariant 0 <= i <= |g.arcs| && |m| == |g.arcs|
        invariant forall j :: 0 <= j < i ==> m[j] == if g.arcs[j].src == t then m0[j] + TokenCreated(g, phase, j) else m0[j]
        invariant forall j :: i <= j < |g.arcs| ==> m[j] == m0[j]
      {
        if g.arcs[i].src == t {
          m := m[i := m[i] + TokenCreated(g, phase, i)];
        }
        i := i + 1;
      }
      assert m == Produced(g, m0, phase, t);
      m0 := m;
      var p := phase[t] + 1;
      if IsSdf(g.kind) {
        p := 0;
      } else if p == PhaseCount(g, t) {
        p := 0;
      }
      phase := phase[t := p];
    }
 

    /**
     * The first loop of a round: no task raises `IndexError`, a zero
     * repetition factor raises `ZeroDivisionError`, otherwise the smallest
     * and largest `num_task_exe[t] / rf(t)`.
     */
    method RtBoundsScan(ne: seq<int>) returns (r: Result<(int, int)>)
      requires |ne| == |g.tasks|
      ensures r == RtBounds(g, ne)
    {
      if |g.tasks| == 0 {
        return Err(IndexError);
      }
      if g.tasks[0].rf == 0 {
        return Err(ZeroDivisionError);
      }
      var mn := PyDiv(ne[0], g.tasks[0].rf);
      var mx := mn;
      var t := 0;
      while t < |g.tasks|
        invariant 0 <= t <= |g.tasks| && RfNonZero(g, t)
        invariant mn == MinRt(g, ne, t) && mx == MaxRt(g, ne, t)
      {
        if g.tasks[t].rf == 0 {
          return Err(ZeroDivisionError);
        }
        var q := PyDiv(ne[t], g.tasks[t].rf);
        mn := if q < mn then q else mn;
        mx := if q > mx then q else mx;
        t := t + 1;
      }
      return Ok((mn, mx));
    }

    /**
     * The selection loop: a task is chosen when idle and executable, unless
     * step two says it has fired enough; the count starts from the number
     * of executing tasks and ends as that plus the number chosen.
     */
    method SelectTasks(nbIte: int, ne: seq<int>, stepTwo: bool) returns (sel: seq<bool>, count: int)
      requires RunOk(g, Run(State(), ne, stepTwo))
      ensures sel == Selection(g, nbIte, Run(State(), ne, stepTwo))
      ensures count == |executing| + CountTrue(sel)
    {
      ghost var s := Selection(g, nbIte, Run(State(), ne, stepTwo));
      sel := seq(|g.tasks|, _ => false);
      count := |executing|;
      var t := 0;
      while t < |g.tasks|
        invariant 0 <= t <= |g.tasks| && |sel| == |g.tasks|
        invariant forall k :: 0 <= k < t ==> sel[k] == s[k]
        invariant forall k :: t <= k < |g.tasks| ==> !sel[k]
        invariant count == |executing| + CountTrue(s[..t])
      {
        var chosen, d := SelectOne(nbIte, ne, stepTwo, t);
        assert chosen == s[t];
        CountTrueStep(s, t);
        sel := sel[t := chosen];
        count := count + d;
        t := t + 1;
      }
      assert s[..|g.tasks|] == s;
      assert sel == s;
    }

    /**
     * The body of the selection loop for task `t`: whether it is chosen,
     * and what it adds to the count (one, then taken back when step two
     * says it has fired enough).
     */
    method SelectOne(nbIte: int, ne: seq<int>, stepTwo: bool, t: nat) returns (chosen: bool, d: int)
      requires RunOk(g, Run(State(), ne, stepTwo)) && t < |g.tasks|
      ensures chosen == Selected(g, nbIte, Run(State(), ne, stepTwo), t)
      ensures d == if chosen then 1 else 0
    {
      chosen, d := false, 0;
      if t !in executing {
        var e := IsExecutable(t);
        if e {
          chosen := true;
          if stepTwo && FiredEnough(g, ne, nbIte, t) {
            chosen := false;
            d := d - 1;
          }
          d := d + 1;
        }
      }
    }

    /**
     * Firing one chosen task: record its start time (a missing slot raises
     * `KeyError`), count it, consume its inputs (-1 when a marking goes
     * negative) and put it in the executing list with its duration.
     */
    method FireTask(rec: bool, t: nat, ne: seq<int>, stepTwo: bool) returns (st: Step)
      requires RunOk(g, Run(State(), ne, stepTwo)) && t < |g.tasks| && t !in executing
      modifies this
      ensures st == FireOne(g, rec, Run(old(State()), ne, stepTwo), t)
      ensures st.Go? ==> State() == st.run.sim
    {
      if rec {
        var key := KeyOf(g, phase, t);
        if key !in starts {
          return Halt(Err(KeyError));
        }
        starts := starts[key := starts[key] + [timeTick]];
      }
      var n := ne[t := ne[t] + 1];
      var code := TaskStartExe(t);
      if code == -1 {
        return Halt(Ok(Code(-1)));
      }
      executing := executing + [t];
      tickLeft := tickLeft[t := Duration(g, phase, t)];
      return Go(Run(State(), n, stepTwo));
    }

    /** The firing loop, over the tasks in order. */
    method FireSelected(rec: bool, sel: seq<bool>, ne: seq<int>, stepTwo: bool) returns (st: Step)
      requires RunOk(g, Run(State(), ne, stepTwo)) && |sel| == |g.tasks|
      requires forall t :: 0 <= t < |sel| && sel[t] ==> t !in executing
      modifies this
      ensures st == Fired(g, rec, sel, Run(old(State()), ne, stepTwo), |g.tasks|)
      ensures st.Go? ==> State() == st.run.sim
    {
      ghost var r0 := Run(State(), ne, stepTwo);
      st := Go(Run(State(), ne, stepTwo));
      var t := 0;
      while t < |g.tasks| && st.Go?
        invariant 0 <= t <= |g.tasks| && st == Fired(g, rec, sel, r0, t)
        invariant st.Go? ==> st.run == Run(State(), st.run.numExe, stepTwo)
      {
        st := FireNext(rec, sel, r0, t, st.run.numExe, stepTwo);
        t := t + 1;
      }
      if t < |g.tasks| {
        FiredHaltStays(g, rec, sel, r0, t, |g.tasks|);
      }
    }

    /** The body of the firing loop, for task `t`: fire it when it was chosen. */
    method FireNext(rec: bool, sel: seq<bool>, ghost r0: Run, t: nat, n: seq<int>, stepTwo: bool) returns (st: Step)
      requires RunOk(g, r0) && |sel| == |g.tasks| && t < |g.tasks|
      requires forall k :: 0 <= k < |sel| && sel[k] ==> k !in r0.sim.executing
      requires Fired(g, rec, sel, r0, t) == Go(Run(State(), n, stepTwo))
      modifies this
      ensures st == Fired(g, rec, sel, r0, t + 1)
      ensures st.Go? ==> st.run == Run(State(), st.run.numExe, stepTwo)
    {
      FiredStep(g, rec, sel, r0, t);
      if sel[t] {
        st := FireTask(rec, t, n, stepTwo);
      } else {
        st := Go(Run(State(), n, stepTwo));
      }
    }
 

    /** The smallest time left, over the executing tasks (the keys of `tick_left`). */
    method MinTickScan() returns (inc: int)
      requires forall k :: 0 <= k < |executing| ==> executing[k] in tickLeft
      ensures inc == MinTick(executing, tickLeft)
    {
      if |executing| == 0 {
        return 0;
      }
      inc := tickLeft[executing[0]];
      var i := 1;
      while i < |executing|
        invariant 1 <= i <= |executing|
        invariant inc == MinTick(executing[..i], tickLeft)
      {
        assert executing[..i + 1][..i] == executing[..i];
        var x := tickLeft[executing[i]];
        if x < inc {
          inc := x;
        }
        i := i + 1;
      }
      assert executing[..|executing|] == executing;
    }

    /**
     * The state of the ticking loop after its first `i` passes from `s0`:
     * those tasks have lost `inc`, the ones at 0 among them have ended and
     * are listed in `done`.
     */
    ghost predicate Ticking(s0: Sim, inc: int, i: nat, done: seq<nat>)
      reads this
    {
      SimOk(g, s0) && i <= |s0.executing| && executing == s0.executing &&
      done == Finished(s0.executing, s0.tickLeft, inc, i) &&
      (forall k :: 0 <= k < |done| ==> done[k] < |g.tasks|) &&
      tickLeft == TickMap(s0.executing, s0.tickLeft, inc, i) &&
      Tokens(m0, phase) == Ticked(g, s0.executing, s0.tickLeft, inc, Tokens(s0.m0, s0.phase), i)
    }

    /** One pass of the ticking loop, on the `i`-th executing task. */
    method TickOne(ghost s0: Sim, inc: int, i: nat, done: seq<nat>) returns (done': seq<nat>)
      requires Ticking(s0, inc, i, done) && i < |executing|
      modifies this`m0, this`phase, this`tickLeft
      ensures Ticking(s0, inc, i + 1, done')
    {
      var task := executing[i];
      ghost var before := tickLeft;
      tickLeft := tickLeft[task := tickLeft[task] - inc];
      TickStep(s0.executing, s0.tickLeft, inc, i, before, tickLeft);
      done' := done;
      if tickLeft[task] == 0 {
        TaskEndExe(task);
        done' := done + [task];
      }
    }

    /**
     * The ticking loop: every executing task loses `inc`; those left at 0
     * end their execution (in the order of the executing list) and are
     * returned for clean-up.
     */
    method TickExecuting(inc: int) returns (done: seq<nat>)
      requires SimOk(g, State())
      modifies this`m0, this`phase, this`tickLeft
      ensures done == Finished(old(executing), old(tickLeft), inc, |old(executing)|)
      ensures forall k :: 0 <= k < |done| ==> done[k] < |g.tasks|
      ensures State() == Ticks(g, old(State()), inc)
    {
      ghost var s0 := State();
      done := [];
      var i := 0;
      while i < |executing|
        invariant Ticking(s0, inc, i, done)
      {
        done := TickOne(s0, inc, i, done);
        i := i + 1;
      }
    }

    /** The clean-up loop: each finished task leaves `tick_left` and the executing list. */
    method DropFinished(done: seq<nat>)
      requires SimOk(g, State())
      modifies this`tickLeft, this`executing
      ensures State() == Dropped(g, old(State()), done, |done|)
    {
      ghost var s0 := State();
      var i := 0;
      while i < |done|
        invariant 0 <= i <= |done|
        invariant State() == Dropped(g, s0, done, i)
      {
        DropOne(s0, done, i);
        i := i + 1;
      }
    }

    /** The body of the clean-up loop, for the `i`-th finished task. */
    method DropOne(ghost s0: Sim, done: seq<nat>, i: nat)
      requires SimOk(g, s0) && i < |done| && State() == Dropped(g, s0, done, i)
      modifies this`tickLeft, this`executing
      ensures State() == Dropped(g, s0, done, i + 1)
    {
      var task := done[i];
      tickLeft := tickLeft - {task};
      executing := RemoveFirst(executing, task);
    }

    /** The end of the firings: tick, clean up, move the clock on. */
    method AdvanceTime()
      requires SimOk(g, State())
      modifies this
      ensures State() == Elapsed(g, old(State()))
    {
      var inc := MinTickScan();
      var done := TickExecuting(inc);
      DropFinished(done);
      timeTick := timeTick + inc;
    }

    /** The test that ends step one: count the tasks that fired all their phases once. */
    method AllReachedScan(ne: seq<int>) returns (b: bool)
      requires |ne| == |g.tasks|
      ensures b == AllReached(g, ne)
    {
      var count := 0;
      var t := 0;
      while t < |g.tasks|
        invariant 0 <= t <= |g.tasks| && 0 <= count <= t
        invariant count == t <==> forall k :: 0 <= k < t ==> ne[k] >= PhaseCount(g, k) + IniPhaseCount(g, k)
      {
        if ne[t] >= PhaseCount(g, t) + IniPhaseCount(g, t) {
          count := count + 1;
        }
        t := t + 1;
      }
      b := count == |g.tasks|;
    }

    /** The test that ends step two: count the tasks that fired `nb_ite` iterations. */
    method AllFiredEnoughScan(ne: seq<int>, nbIte: int) returns (b: bool)
      requires |ne| == |g.tasks|
      ensures b == AllFiredEnough(g, ne, nbIte)
    {
      var count := 0;
      var t := 0;
      while t < |g.tasks|
        invariant 0 <= t <= |g.tasks| && 0 <= count <= t
        invariant count == t <==> forall k :: 0 <= k < t ==> FiredEnough(g, ne, nbIte, k)
      {
        if FiredEnough(g, ne, nbIte, t) {
          count := count + 1;
        }
        t := t + 1;
      }
      b := count == |g.tasks|;
    }

    /** The end of a round, after the firing loop: see `AfterFiring`. */
    method FinishRound(nbIte: int, f: Step, count: int) returns (st: Step)
      requires f.Go? || f.Halt?
      requires f.Go? ==> RunOk(g, f.run) && State() == f.run.sim
      modifies this
      ensures st == AfterFiring(g, nbIte, f, count)
      ensures !st.Halt? ==> State() == st.run.sim
    {
      if f.Halt? {
        return f;
      }
      AdvanceTime();
      var ne := f.run.numExe;
      var stepTwo := f.run.stepTwo;
      if !stepTwo {
        var reached := AllReachedScan(ne);
        if reached {
          var t := 0;
          while t < |g.tasks|
            invariant 0 <= t <= |g.tasks| && |ne| == |g.tasks|
            invariant forall k :: 0 <= k < t ==> ne[k] == 0
          {
            ne := ne[t := 0];
            t := t + 1;
          }
          assert ne == seq(|g.tasks|, _ => 0);
          stepTwo := true;
        }
      }
      var terminate := false;
      if stepTwo {
        terminate := AllFiredEnoughScan(ne, nbIte);
      }
      if count == 0 {
        return Halt(Ok(Code(-1)));
      }
      var r := Run(State(), ne, stepTwo);
      st := if terminate then Done(r) else Go(r);
    }

    /** One iteration of the main loop of `execute`. */
    method Round(rec: bool, nbIte: int, ne: seq<int>, stepTwo: bool) returns (st: Step)
      requires RunOk(g, Run(State(), ne, stepTwo))
      modifies this
      ensures st == RoundOf(g, rec, nbIte, Run(old(State()), ne, stepTwo))
      ensures !st.Halt? ==> State() == st.run.sim
    {
      var b := RtBoundsScan(ne);
      if b.Err? {
        return Halt(Err(b.error));
      }
      var mn := b.value.0;
      if mn == 0 {
        mn := 1;
      }
      if PyDiv(b.value.1, mn) > RtMaxRatio {
        return Halt(Ok(Code(-1)));
      }
      var sel, count := SelectTasks(nbIte, ne, stepTwo);
      var f := FireSelected(rec, sel, ne, stepTwo);
      st := FinishRound(nbIte, f, count);
    }

    /**
     * `execute(get_start_time, nb_ite)`, for at most `fuel` rounds of the
     * main loop; `None` when they run out before the run ends.
     */
    method Execute(rec: bool, nbIte: int, fuel: nat) returns (r: Option<Result<Answer>>)
      requires dataflow.Value() == g
      modifies this
      ensures r == ExecuteOf(g, rec, nbIte, fuel, old(starts))
    {
      Raz();
      var cyclic := dataflow.IsCyclicScan();
      var total := dataflow.GetTotInitialMarking();
      if cyclic && total == 0 {
        return Some(Ok(Code(-1)));
      }
      r := MainLoop(rec, nbIte, seq(|g.tasks|, _ => 0), false, fuel);
    }

    /** Round `k + 1` of a run from `r0`. */
    method RoundAt(rec: bool, nbIte: int, ghost r0: Run, ghost k: nat, ne: seq<int>, stepTwo: bool) returns (st: Step)
      requires RunOk(g, r0) && RunAfter(g, rec, nbIte, r0, k) == Go(Run(State(), ne, stepTwo))
      modifies this
      ensures st == RunAfter(g, rec, nbIte, r0, k + 1)
      ensures !st.Halt? ==> State() == st.run.sim
    {
      st := Round(rec, nbIte, ne, stepTwo);
    }

    /** The main loop of `execute`, from `num_task_exe` = `ne` and `step_two`, for at most `fuel` rounds. */
    method MainLoop(rec: bool, nbIte: int, ne: seq<int>, stepTwo: bool, fuel: nat) returns (r: Option<Result<Answer>>)
      requires RunOk(g, Run(State(), ne, stepTwo))
      modifies this
      ensures r == RunFrom(g, rec, nbIte, Run(old(State()), ne, stepTwo), fuel)
    {
      ghost var r0 := Run(State(), ne, stepTwo);
      var st := Go(Run(State(), ne, stepTwo));
      var k := 0;
      while k < fuel && st.Go?
        invariant k <= fuel && st == RunAfter(g, rec, nbIte, r0, k)
        invariant st.Go? ==> st.run == Run(State(), st.run.numExe, st.run.stepTwo)
      {
        st := RoundAt(rec, nbIte, r0, k, st.run.numExe, st.run.stepTwo);
        k := k + 1;
      }
      if k < fuel {
        RunAfterStays(g, rec, nbIte, r0, k, fuel);
      }
      r := Outcome(rec, st);
    }

    /** `get_start_time(nb_ite)`: the run that records the start times. */
    method GetStartTime(nbIte: int, fuel: nat) returns (r: Option<Result<Answer>>)
      requires dataflow.Value() == g
      modifies this
      ensures r == ExecuteOf(g, true, nbIte, fuel, old(starts))
    {
      r := Execute(true, nbIte, fuel);
    }
  }

  /** `is_dead_lock`: a fresh executor, one iteration, dead-locked unless the run returns 0. */
  method IsDeadLock(dg: DataflowGraph, fuel: nat) returns (r: Option<Result<bool>>)
    requires Shaped(dg.Value())
    ensures r == DeadLockOf(dg.Value(), fuel)
  {
    var se := new Executor(dg);
    var x := se.Execute(false, 1, fuel);
    r := match x
      case None => None
      case Some(Err(e)) => Some(Err(e))
      case Some(Ok(a)) => Some(Ok(a != Code(0)));
  }
}
