// The as-soon-as-possible symbolic execution of a dataflow graph (the timed
// executor): token counts per arc, the current phase of every task, the
// tasks under execution with the time left to each of them, and the two
// steps of the run (a transient step, then one that counts the firings of
// `nb_ite` iterations). The round functions below are what the executor's
// methods compute; the properties of a run are proved about them.
module SymbolicExecution {
  import opened Arith
  import opened Outcomes
  import opened Graph

  /** `__RT_MAX_RATIO`: the spread of iteration counts taken as a partial deadlock. */
  const RtMaxRatio: int := 100000000

  /** Keys of the start-time table: a task for SDF, a (task, phase) pair for CSDF and PCG. */
  datatype StartKey = TaskKey(task: nat) | PhaseKey(task: nat, phase: int)

  /** What `execute` returns when it does not raise: `-1`, `0`, or the start-time table. */
  datatype Answer = Code(code: int) | StartTimes(times: map<StartKey, seq<int>>)

  /**
   * The executor's fields: `M0` per arc, `currentPhase` per task, the list
   * `currently_executed`, `tick_left`, `time_tick` and `start_time`.
   */
  datatype Sim = Sim(
    m0: seq<int>, phase: seq<int>, executing: seq<nat>,
    tickLeft: map<nat, int>, time: int, starts: map<StartKey, seq<int>>)

  /** The markings and phases, the part of the state that ending a task changes. */
  datatype Tokens = Tokens(m0: seq<int>, phase: seq<int>)

  /** The state of the main loop: the fields, `num_task_exe` and `step_two`. */
  datatype Run = Run(sim: Sim, numExe: seq<int>, stepTwo: bool)

  /** One round goes on, ends the run successfully, or stops it with a result. */
  datatype Step = Go(run: Run) | Done(run: Run) | Halt(result: Result<Answer>)

  // ---------------------------------------------------------------------
  // Well-formed states

  /** Every phase lies between `-ini_phase_count` and `phase_count - 1`. */
  predicate PhasesOk(g: Graph, ph: seq<int>) {
    |ph| == |g.tasks| &&
    forall t :: 0 <= t < |g.tasks| ==> -(IniPhaseCount(g, t) as int) <= ph[t] < PhaseCount(g, t)
  }

  predicate Distinct(s: seq<nat>) {
    forall a, b :: 0 <= a < b < |s| ==> s[a] != s[b]
  }

  /** One phase per task and one marking per arc. */
  predicate TokensOk(g: Graph, m: seq<int>, ph: seq<int>) {
    PhasesOk(g, ph) && |m| == |g.arcs|
  }

  /**
   * A well-formed state: the executing tasks are distinct tasks of the
   * graph, each with its time left in `tick_left`. That `tick_left` holds
   * no other key is `KeysExact`, which every round keeps (`RunKeysExact`).
   */
  ghost predicate SimOk(g: Graph, s: Sim) {
    TokensOk(g, s.m0, s.phase) &&
    (forall k :: 0 <= k < |s.executing| ==> s.executing[k] < |g.tasks| && s.executing[k] in s.tickLeft) &&
    Distinct(s.executing)
  }

  /** `tick_left` has exactly the executing tasks as keys. */
  ghost predicate KeysExact(s: Sim) {
    forall t :: t in s.tickLeft <==> t in s.executing
  }

  ghost predicate RunOk(g: Graph, r: Run) {
    SimOk(g, r.sim) && |r.numExe| == |g.tasks|
  }

  // ---------------------------------------------------------------------
  // Token getters

  /** `__get_token_created`: the production of the source's current phase (an initial one when negative). */
  function TokenCreated(g: Graph, ph: seq<int>, i: nat): int
    requires Shaped(g) && PhasesOk(g, ph) && i < |g.arcs|
  {
    var t := g.arcs[i].src;
    if ph[t] < 0 then g.arcs[i].iniProd[IniPhaseCount(g, t) + ph[t]]
    else if IsSdf(g.kind) then g.arcs[i].prod[0]
    else g.arcs[i].prod[ph[t]]
  }

  /** `__get_token_del`: the consumption of the target's current phase. */
  function TokenDel(g: Graph, ph: seq<int>, i: nat): int
    requires Shaped(g) && PhasesOk(g, ph) && i < |g.arcs|
  {
    var t := g.arcs[i].tgt;
    if ph[t] < 0 then g.arcs[i].iniCons[IniPhaseCount(g, t) + ph[t]]
    else if IsSdf(g.kind) then g.arcs[i].cons[0]
    else g.arcs[i].cons[ph[t]]
  }

  /** `__get_token_need`: the threshold of the target's current phase for PCG, the consumption otherwise. */
  function TokenNeed(g: Graph, ph: seq<int>, i: nat): int
    requires Shaped(g) && PhasesOk(g, ph) && i < |g.arcs|
  {
    var t := g.arcs[i].tgt;
    if IsPcg(g.kind) then
      (if ph[t] < 0 then g.arcs[i].iniThr[IniPhaseCount(g, t) + ph[t]] else g.arcs[i].thr[ph[t]])
    else TokenDel(g, ph, i)
  }

  /** `__get_duration`: the task duration (SDF), an initial phase duration, or a cyclic one. */
  function Duration(g: Graph, ph: seq<int>, t: nat): int
    requires Shaped(g) && PhasesOk(g, ph) && t < |g.tasks|
  {
    if IsSdf(g.kind) then g.tasks[t].durations[0]
    else if IsPcg(g.kind) && ph[t] < 0 then g.tasks[t].iniDurations[IniPhaseCount(g, t) + ph[t]]
    else g.tasks[t].durations[ph[t]]
  }

  // ---------------------------------------------------------------------
  // Firing a task

  /** `__is_executable`: every arc entering `t` holds at least what the current phase needs. */
  predicate Executable(g: Graph, m: seq<int>, ph: seq<int>, t: nat)
    requires Shaped(g) && PhasesOk(g, ph) && |m| == |g.arcs|
  {
    forall i :: 0 <= i < |g.arcs| && g.arcs[i].tgt == t ==> m[i] >= TokenNeed(g, ph, i)
  }

  /** Some arc entering `t` holds less than the current phase consumes. */
  predicate Overdrawn(g: Graph, m: seq<int>, ph: seq<int>, t: nat)
    requires Shaped(g) && PhasesOk(g, ph) && |m| == |g.arcs|
  {
    exists i :: 0 <= i < |g.arcs| && g.arcs[i].tgt == t && m[i] < TokenDel(g, ph, i)
  }

  /** The markings once `t` has consumed on every arc entering it. */
  function Consumed(g: Graph, m: seq<int>, ph: seq<int>, t: nat): (m': seq<int>)
    requires Shaped(g) && PhasesOk(g, ph) && |m| == |g.arcs|
    ensures |m'| == |m|
  {
    seq(|m|, i requires 0 <= i < |m| => if g.arcs[i].tgt == t then m[i] - TokenDel(g, ph, i) else m[i])
  }

  /** The markings once `t` has produced on every arc leaving it. */
  function Produced(g: Graph, m: seq<int>, ph: seq<int>, t: nat): (m': seq<int>)
    requires Shaped(g) && PhasesOk(g, ph) && |m| == |g.arcs|
    ensures |m'| == |m|
  {
    seq(|m|, i requires 0 <= i < |m| => if g.arcs[i].src == t then m[i] + TokenCreated(g, ph, i) else m[i])
  }

  /** The phase after an execution of `t`: back to 0 after the last phase, and always 0 for SDF. */
  function NextPhase(g: Graph, ph: seq<int>, t: nat): int
    requires PhasesOk(g, ph) && t < |g.tasks|
  {
    if IsSdf(g.kind) then 0
    else if ph[t] + 1 == PhaseCount(g, t) then 0
    else ph[t] + 1
  }

  /** Advancing a phase keeps every phase in range; from a negative phase it steps towards 0. */
  lemma NextPhaseOk(g: Graph, ph: seq<int>, t: nat)
    requires Shaped(g) && PhasesOk(g, ph) && t < |g.tasks|
    ensures PhasesOk(g, ph[t := NextPhase(g, ph, t)])
    ensures ph[t] < 0 ==> NextPhase(g, ph, t) == ph[t] + 1
    ensures 0 <= NextPhase(g, ph, t) || IsPcg(g.kind)
  {
    var ph' := ph[t := NextPhase(g, ph, t)];
    forall u | 0 <= u < |g.tasks|
      ensures -(IniPhaseCount(g, u) as int) <= ph'[u] < PhaseCount(g, u)
    {
      if u != t {
        assert ph'[u] == ph[u];
      }
    }
  }

  /**
   * Without thresholds (SDF, CSDF) what a phase needs is what it consumes,
   * so starting an executable task never leaves a negative marking.
   */
  lemma ExecutableNotOverdrawn(g: Graph, m: seq<int>, ph: seq<int>, t: nat)
    requires Shaped(g) && PhasesOk(g, ph) && |m| == |g.arcs|
    requires !IsPcg(g.kind) && Executable(g, m, ph, t)
    ensures !Overdrawn(g, m, ph, t)
  {
    forall i | 0 <= i < |g.arcs| && g.arcs[i].tgt == t
      ensures m[i] >= TokenDel(g, ph, i)
    {
      assert m[i] >= TokenNeed(g, ph, i);
    }
  }

  /** A PCG arc whose threshold is below its consumption lets the task start and go negative. */
  lemma ThresholdBelowConsumptionOverdraws(g: Graph, m: seq<int>, ph: seq<int>, i: nat)
    requires Shaped(g) && PhasesOk(g, ph) && |m| == |g.arcs| && i < |g.arcs|
    requires IsPcg(g.kind) && m[i] < TokenDel(g, ph, i)
    ensures Overdrawn(g, m, ph, g.arcs[i].tgt)
    ensures Consumed(g, m, ph, g.arcs[i].tgt)[i] < 0
  {
  }

  // ---------------------------------------------------------------------
  // Reset

  function Markings(arcs: seq<Arc>): (m: seq<int>)
    ensures |m| == |arcs|
  {
    seq(|arcs|, i requires 0 <= i < |arcs| => arcs[i].m0)
  }

  /** `__raz`: phases start at 0, or at `-ini_phase_count` for PCG. */
  function InitialPhases(g: Graph): (ph: seq<int>)
    ensures |ph| == |g.tasks|
  {
    seq(|g.tasks|, t requires 0 <= t < |g.tasks| => if IsPcg(g.kind) then -(IniPhaseCount(g, t) as int) else 0)
  }

  lemma InitialPhasesOk(g: Graph)
    requires Shaped(g)
    ensures PhasesOk(g, InitialPhases(g))
    ensures forall t :: 0 <= t < |g.tasks| ==> InitialPhases(g)[t] == -(IniPhaseCount(g, t) as int)
  {
  }

  /** The start-time slots `__raz` empties for task `t`: phases `0 .. p-1` (CSDF, PCG), or the task (SDF). */
  function PhaseSlotsReset(m: map<StartKey, seq<int>>, t: nat, p: nat): map<StartKey, seq<int>>
    decreases p
  {
    if p == 0 then m else PhaseSlotsReset(m, t, p - 1)[PhaseKey(t, p - 1) := []]
  }

  function TaskSlotsReset(g: Graph, m: map<StartKey, seq<int>>, t: nat): map<StartKey, seq<int>>
    requires t < |g.tasks|
  {
    if IsSdf(g.kind) then m[TaskKey(t) := []] else PhaseSlotsReset(m, t, PhaseCount(g, t))
  }

  /** The start-time table after `__raz` has visited tasks `0 .. n-1`. */
  function StartsReset(g: Graph, m: map<StartKey, seq<int>>, n: nat): map<StartKey, seq<int>>
    requires n <= |g.tasks|
    decreases n
  {
    if n == 0 then m else TaskSlotsReset(g, StartsReset(g, m, n - 1), n - 1)
  }

  /** The slot a firing of `t` in phase `p` is recorded in. */
  predicate SlotOf(g: Graph, k: StartKey)
  {
    match k
    case TaskKey(t) => IsSdf(g.kind) && t < |g.tasks|
    case PhaseKey(t, p) => !IsSdf(g.kind) && t < |g.tasks| && 0 <= p < PhaseCount(g, t)
  }

  lemma {:induction false} PhaseSlotsResetMeaning(m: map<StartKey, seq<int>>, t: nat, p: nat)
    ensures forall k :: k in PhaseSlotsReset(m, t, p) <==>
      k in m || (k.PhaseKey? && k.task == t && 0 <= k.phase < p)
    ensures forall k :: k in PhaseSlotsReset(m, t, p) ==>
      PhaseSlotsReset(m, t, p)[k] == if k.PhaseKey? && k.task == t && 0 <= k.phase < p then [] else m[k]
    decreases p
  {
    if p > 0 {
      PhaseSlotsResetMeaning(m, t, p - 1);
    }
  }

  /**
   * `__raz` keeps the slots of an earlier run and empties exactly the
   * slots of the graph: one per task for SDF, one per cyclic phase otherwise.
   */
  lemma {:induction false} StartsResetMeaning(g: Graph, m: map<StartKey, seq<int>>, n: nat)
    requires n <= |g.tasks|
    ensures forall k :: k in StartsReset(g, m, n) <==> k in m || (SlotOf(g, k) && k.task < n)
    ensures forall k :: k in StartsReset(g, m, n) ==>
      StartsReset(g, m, n)[k] == if SlotOf(g, k) && k.task < n then [] else m[k]
    decreases n
  {
    if n > 0 {
      var m1 := StartsReset(g, m, n - 1);
      StartsResetMeaning(g, m, n - 1);
      if !IsSdf(g.kind) {
        PhaseSlotsResetMeaning(m1, n - 1, PhaseCount(g, n - 1));
      }
    }
  }

  /** The state `__raz` leaves: the graph's markings, the initial phases, nothing executing. */
  function Reset(g: Graph, starts: map<StartKey, seq<int>>): (s: Sim)
    requires Shaped(g)
    ensures SimOk(g, s)
  {
    InitialPhasesOk(g);
    Sim(Markings(g.arcs), InitialPhases(g), [], map[], 0, StartsReset(g, starts, |g.tasks|))
  }

  /**
   * Start times of a PCG task in an initial phase have no slot: recording
   * one raises `KeyError` when the table holds only slots `__raz` made.
   */
  lemma InitialPhaseHasNoSlot(g: Graph, t: nat)
    requires Shaped(g) && IsPcg(g.kind) && t < |g.tasks| && IniPhaseCount(g, t) > 0
    ensures !SlotOf(g, PhaseKey(t, InitialPhases(g)[t]))
    ensures PhaseKey(t, InitialPhases(g)[t]) !in StartsReset(g, map[], |g.tasks|)
  {
    StartsResetMeaning(g, map[], |g.tasks|);
  }

  // ---------------------------------------------------------------------
  // The guard against a partial deadlock

  /** `int(num_task_exe[t] / rf(t))`, a floor division in Python 2. */
  function Rt(g: Graph, ne: seq<int>, t: nat): int
    requires t < |g.tasks| && |ne| == |g.tasks| && g.tasks[t].rf != 0
  {
    PyDiv(ne[t], g.tasks[t].rf)
  }

  predicate RfNonZero(g: Graph, n: nat) {
    forall t :: 0 <= t < n && t < |g.tasks| ==> g.tasks[t].rf != 0
  }

  /** The running minimum (resp. maximum) of `Rt` over tasks `0 .. n-1`, seeded with task 0. */
  function MinRt(g: Graph, ne: seq<int>, n: nat): (r: int)
    requires 0 < |g.tasks| && n <= |g.tasks| && |ne| == |g.tasks| && g.tasks[0].rf != 0 && RfNonZero(g, n)
    ensures forall t :: 0 <= t < n ==> r <= Rt(g, ne, t)
    ensures r == Rt(g, ne, 0) || exists t :: 0 <= t < n && r == Rt(g, ne, t)
    decreases n
  {
    if n == 0 then Rt(g, ne, 0) else
    var r := MinRt(g, ne, n - 1);
    if Rt(g, ne, n - 1) < r then Rt(g, ne, n - 1) else r
  }

  function MaxRt(g: Graph, ne: seq<int>, n: nat): (r: int)
    requires 0 < |g.tasks| && n <= |g.tasks| && |ne| == |g.tasks| && g.tasks[0].rf != 0 && RfNonZero(g, n)
    ensures forall t :: 0 <= t < n ==> r >= Rt(g, ne, t)
    ensures r == Rt(g, ne, 0) || exists t :: 0 <= t < n && r == Rt(g, ne, t)
    decreases n
  {
    if n == 0 then Rt(g, ne, 0) else
    var r := MaxRt(g, ne, n - 1);
    if Rt(g, ne, n - 1) > r then Rt(g, ne, n - 1) else r
  }

  /**
   * The first lines of a round: no task makes `num_task_exe[0]` raise
   * `IndexError`, a zero repetition factor raises `ZeroDivisionError`;
   * otherwise the smallest and largest iteration counts.
   */
  function RtBounds(g: Graph, ne: seq<int>): (r: Result<(int, int)>)
    requires |ne| == |g.tasks|
    ensures r.Err? <==> |g.tasks| == 0 || !RfNonZero(g, |g.tasks|)
    ensures r.Ok? ==> forall t :: 0 <= t < |g.tasks| ==> r.value.0 <= Rt(g, ne, t) <= r.value.1
  {
    if |g.tasks| == 0 then Err(IndexError)
    else if !RfNonZero(g, |g.tasks|) then Err(ZeroDivisionError)
    else Ok((MinRt(g, ne, |g.tasks|), MaxRt(g, ne, |g.tasks|)))
  }

  /** The spread test: `max / min > __RT_MAX_RATIO`, with a minimum of 0 read as 1. */
  predicate RatioExceeded(mn: int, mx: int) {
    PyDiv(mx, if mn == 0 then 1 else mn) > RtMaxRatio
  }

  // ---------------------------------------------------------------------
  // Choosing the tasks of a round

  /** Step two stops a task once it has fired `rf * phase_count * nb_ite` times. */
  predicate FiredEnough(g: Graph, ne: seq<int>, nbIte: int, t: nat)
    requires t < |g.tasks| && |ne| == |g.tasks|
  {
    ne[t] == PhaseCount(g, t) * g.tasks[t].rf * nbIte
  }

  predicate AllFiredEnough(g: Graph, ne: seq<int>, nbIte: int)
    requires |ne| == |g.tasks|
  {
    forall t :: 0 <= t < |g.tasks| ==> FiredEnough(g, ne, nbIte, t)
  }

  /** Step one ends once every task has fired its initial and cyclic phases at least once. */
  predicate AllReached(g: Graph, ne: seq<int>)
    requires |ne| == |g.tasks|
  {
    forall t :: 0 <= t < |g.tasks| ==> ne[t] >= PhaseCount(g, t) + IniPhaseCount(g, t)
  }

  /** A task is chosen when it is idle, executable, and (in step two) not yet done. */
  predicate Selected(g: Graph, nbIte: int, r: Run, t: nat)
    requires Shaped(g) && RunOk(g, r) && t < |g.tasks|
  {
    t !in r.sim.executing && Executable(g, r.sim.m0, r.sim.phase, t) &&
    !(r.stepTwo && FiredEnough(g, r.numExe, nbIte, t))
  }

  function Selection(g: Graph, nbIte: int, r: Run): (sel: seq<bool>)
    requires Shaped(g) && RunOk(g, r)
    ensures |sel| == |g.tasks|
  {
    seq(|g.tasks|, t requires 0 <= t < |g.tasks| => Selected(g, nbIte, r, t))
  }

  function CountTrue(s: seq<bool>): (n: nat)
    ensures n <= |s|
    decreases |s|
  {
    if |s| == 0 then 0 else CountTrue(s[..|s| - 1]) + (if s[|s| - 1] then 1 else 0)
  }

  /** Counting one more element of a prefix. */
  lemma CountTrueStep(s: seq<bool>, t: nat)
    requires t < |s|
    ensures CountTrue(s[..t + 1]) == CountTrue(s[..t]) + if s[t] then 1 else 0
  {
    assert s[..t + 1][..t] == s[..t];
  }

  lemma {:induction false} CountTrueZero(s: seq<bool>)
    ensures CountTrue(s) == 0 <==> forall k :: 0 <= k < |s| ==> !s[k]
    decreases |s|
  {
    if |s| > 0 {
      CountTrueZero(s[..|s| - 1]);
      assert forall k :: 0 <= k < |s| - 1 ==> s[..|s| - 1][k] == s[k];
    }
  }

  // ---------------------------------------------------------------------
  // Firing the chosen tasks

  /** The slot a firing of `t` is recorded in. */
  function KeyOf(g: Graph, ph: seq<int>, t: nat): StartKey
    requires t < |ph|
  {
    if IsSdf(g.kind) then TaskKey(t) else PhaseKey(t, ph[t])
  }

  /**
   * Firing one chosen task: record its start time, count it, consume its
   * inputs (a negative marking ends the run with -1), and start its timer.
   */
  function FireOne(g: Graph, rec: bool, r: Run, t: nat): (st: Step)
    requires Shaped(g) && RunOk(g, r) && t < |g.tasks| && t !in r.sim.executing
    ensures st.Go? || st.Halt?
    ensures st.Go? ==> (RunOk(g, st.run) && st.run.sim.phase == r.sim.phase &&
      st.run.sim.executing == r.sim.executing + [t] &&
      st.run.sim.time == r.sim.time && st.run.stepTwo == r.stepTwo)
  {
    var s := r.sim;
    var key := KeyOf(g, s.phase, t);
    if rec && key !in s.starts then Halt(Err(KeyError))
    else
      var starts := if rec then s.starts[key := s.starts[key] + [s.time]] else s.starts;
      var ne := r.numExe[t := r.numExe[t] + 1];
      if Overdrawn(g, s.m0, s.phase, t) then Halt(Ok(Code(-1)))
      else
        var s' := s.(m0 := Consumed(g, s.m0, s.phase, t), executing := s.executing + [t],
                     tickLeft := s.tickLeft[t := Duration(g, s.phase, t)], starts := starts);
        assert SimOk(g, s');
        Go(Run(s', ne, r.stepTwo))
  }

  /** The second loop of a round, over tasks `0 .. n-1`. */
  function Fired(g: Graph, rec: bool, sel: seq<bool>, r: Run, n: nat): (st: Step)
    requires Shaped(g) && RunOk(g, r) && |sel| == |g.tasks| && n <= |g.tasks|
    requires forall t :: 0 <= t < |sel| && sel[t] ==> t !in r.sim.executing
    ensures st.Go? || st.Halt?
    ensures st.Go? ==> (RunOk(g, st.run) && st.run.sim.phase == r.sim.phase &&
      st.run.sim.time == r.sim.time && st.run.stepTwo == r.stepTwo)
    ensures st.Go? ==> forall t :: n <= t < |g.tasks| && t !in r.sim.executing ==> t !in st.run.sim.executing
    decreases n
  {
    if n == 0 then Go(r)
    else
      var st := Fired(g, rec, sel, r, n - 1);
      if st.Halt? || !sel[n - 1] then st
      else FireOne(g, rec, st.run, n - 1)
  }

  /** One more task of the firing loop, as the executor takes it. */
  lemma FiredStep(g: Graph, rec: bool, sel: seq<bool>, r: Run, n: nat)
    requires Shaped(g) && RunOk(g, r) && |sel| == |g.tasks| && n < |g.tasks|
    requires forall t :: 0 <= t < |sel| && sel[t] ==> t !in r.sim.executing
    requires Fired(g, rec, sel, r, n).Go?
    ensures var st := Fired(g, rec, sel, r, n);
      RunOk(g, st.run) && (sel[n] ==> n !in st.run.sim.executing) &&
      Fired(g, rec, sel, r, n + 1) == if sel[n] then FireOne(g, rec, st.run, n) else st
  {
  }

  /** Once the firing loop stops, later tasks change nothing. */
  lemma {:induction false} FiredHaltStays(g: Graph, rec: bool, sel: seq<bool>, r: Run, k: nat, n: nat)
    requires Shaped(g) && RunOk(g, r) && |sel| == |g.tasks| && k <= n <= |g.tasks|
    requires forall t :: 0 <= t < |sel| && sel[t] ==> t !in r.sim.executing
    requires Fired(g, rec, sel, r, k).Halt?
    ensures Fired(g, rec, sel, r, n) == Fired(g, rec, sel, r, k)
    decreases n - k
  {
    if n > k {
      assert Fired(g, rec, sel, r, k + 1) == Fired(g, rec, sel, r, k);
      FiredHaltStays(g, rec, sel, r, k + 1, n);
    }
  }

  // ---------------------------------------------------------------------
  // Advancing time

  /** The smallest time left among the executing tasks, 0 when none executes. */
  function MinTick(ex: seq<nat>, tl: map<nat, int>): (m: int)
    requires forall k :: 0 <= k < |ex| ==> ex[k] in tl
    ensures forall k :: 0 <= k < |ex| ==> m <= tl[ex[k]]
    ensures |ex| > 0 ==> exists k :: 0 <= k < |ex| && m == tl[ex[k]]
    decreases |ex|
  {
    if |ex| == 0 then 0
    else if |ex| == 1 then tl[ex[0]]
    else
      var m := MinTick(ex[..|ex| - 1], tl);
      assert forall k :: 0 <= k < |ex| - 1 ==> ex[..|ex| - 1][k] == ex[k];
      if tl[ex[|ex| - 1]] < m then tl[ex[|ex| - 1]] else m
  }

  /** `__task_end_exe`: produce on the leaving arcs, then advance the phase. */
  function EndOf(g: Graph, e: Tokens, t: nat): (e': Tokens)
    requires Shaped(g) && TokensOk(g, e.m0, e.phase) && t < |g.tasks|
    ensures TokensOk(g, e'.m0, e'.phase)
    ensures forall u :: 0 <= u < |g.tasks| && u != t ==> e'.phase[u] == e.phase[u]
  {
    NextPhaseOk(g, e.phase, t);
    Tokens(Produced(g, e.m0, e.phase, t), e.phase[t := NextPhase(g, e.phase, t)])
  }

  /** The time left to each executing task once the first `n` of them have lost `inc`. */
  function TickMap(ex: seq<nat>, tl: map<nat, int>, inc: int, n: nat): (m: map<nat, int>)
    requires n <= |ex| && forall k :: 0 <= k < |ex| ==> ex[k] in tl
    ensures forall k :: 0 <= k < |ex| ==> ex[k] in m
    decreases n
  {
    if n == 0 then tl
    else
      var m := TickMap(ex, tl, inc, n - 1);
      m[ex[n - 1] := m[ex[n - 1]] - inc]
  }

  /** Ticking changes no key. */
  lemma {:induction false} TickMapKeys(ex: seq<nat>, tl: map<nat, int>, inc: int, n: nat)
    requires n <= |ex| && forall k :: 0 <= k < |ex| ==> ex[k] in tl
    ensures TickMap(ex, tl, inc, n).Keys == tl.Keys
    decreases n
  {
    if n > 0 {
      TickMapKeys(ex, tl, inc, n - 1);
    }
  }

  lemma {:induction false} TickMapMeaning(ex: seq<nat>, tl: map<nat, int>, inc: int, n: nat)
    requires n <= |ex| && (forall k :: 0 <= k < |ex| ==> ex[k] in tl) && Distinct(ex)
    ensures forall k :: 0 <= k < |ex| ==>
      TickMap(ex, tl, inc, n)[ex[k]] == tl[ex[k]] - (if k < n then inc else 0)
    decreases n
  {
    if n > 0 {
      TickMapMeaning(ex, tl, inc, n - 1);
    }
  }

  /** The tasks among the first `n` executing ones whose time left reaches 0, in order. */
  function Finished(ex: seq<nat>, tl: map<nat, int>, inc: int, n: nat): (d: seq<nat>)
    requires n <= |ex| && forall k :: 0 <= k < |ex| ==> ex[k] in tl
    ensures forall k :: 0 <= k < |d| ==> d[k] in ex[..n]
    decreases n
  {
    if n == 0 then []
    else
      var d := Finished(ex, tl, inc, n - 1);
      assert ex[..n] == ex[..n - 1] + [ex[n - 1]];
      if tl[ex[n - 1]] - inc == 0 then d + [ex[n - 1]] else d
  }

  /** A task finishes exactly when its time left equals the increment. */
  lemma {:induction false} FinishedMeaning(ex: seq<nat>, tl: map<nat, int>, inc: int, n: nat)
    requires n <= |ex| && (forall k :: 0 <= k < |ex| ==> ex[k] in tl) && Distinct(ex)
    ensures forall k :: 0 <= k < n ==> (ex[k] in Finished(ex, tl, inc, n) <==> tl[ex[k]] == inc)
    decreases n
  {
    if n > 0 {
      FinishedMeaning(ex, tl, inc, n - 1);
      var d := Finished(ex, tl, inc, n - 1);
      assert forall k :: 0 <= k < n - 1 ==> ex[k] != ex[n - 1];
      assert ex[n - 1] !in ex[..n - 1];
      assert ex[n - 1] !in d;
    }
  }

  /** One more task of the ticking loop, from the map `cur` built so far: its time left is its time left at the start. */
  lemma TickStep(ex: seq<nat>, tl: map<nat, int>, inc: int, n: nat, cur: map<nat, int>, next: map<nat, int>)
    requires n < |ex| && (forall k :: 0 <= k < |ex| ==> ex[k] in tl) && Distinct(ex)
    requires cur == TickMap(ex, tl, inc, n) && ex[n] in cur
    requires next == cur[ex[n] := cur[ex[n]] - inc]
    ensures next == TickMap(ex, tl, inc, n + 1)
    ensures Finished(ex, tl, inc, n + 1) ==
      if next[ex[n]] == 0 then Finished(ex, tl, inc, n) + [ex[n]] else Finished(ex, tl, inc, n)
  {
    TickMapMeaning(ex, tl, inc, n);
  }


  /**
   * The markings and phases once the first `n` executing tasks have been
   * ticked: those whose time left reaches 0 end, in the order of the list.
   */
  function Ticked(g: Graph, ex: seq<nat>, tl: map<nat, int>, inc: int, e: Tokens, n: nat): (e': Tokens)
    requires Shaped(g) && TokensOk(g, e.m0, e.phase) && n <= |ex|
    requires forall k :: 0 <= k < |ex| ==> ex[k] < |g.tasks| && ex[k] in tl
    ensures TokensOk(g, e'.m0, e'.phase)
    decreases n
  {
    if n == 0 then e
    else
      var e1 := Ticked(g, ex, tl, inc, e, n - 1);
      if tl[ex[n - 1]] - inc == 0 then EndOf(g, e1, ex[n - 1]) else e1
  }

  /** `list.remove`: drop the first occurrence of `x`. */
  function RemoveFirst(s: seq<nat>, x: nat): (r: seq<nat>)
    ensures Distinct(s) ==> Distinct(r) && forall y :: y in r <==> y in s && y != x
    ensures forall k :: 0 <= k < |r| ==> r[k] in s
    decreases |s|
  {
    if |s| == 0 then []
    else if s[0] == x then (assert forall k :: 0 <= k < |s| - 1 ==> s[1..][k] == s[k + 1]; s[1..])
    else
      var rest := RemoveFirst(s[1..], x);
      assert forall k :: 0 <= k < |s| - 1 ==> s[1..][k] == s[k + 1];
      [s[0]] + rest
  }

  /** The clean-up loop over the first `n` finished tasks: out of `tick_left` and of the executing list. */
  function Dropped(g: Graph, s: Sim, done: seq<nat>, n: nat): (s': Sim)
    requires SimOk(g, s) && n <= |done|
    ensures SimOk(g, s') && s'.m0 == s.m0 && s'.phase == s.phase && s'.time == s.time && s'.starts == s.starts
    ensures forall t :: t in s'.executing <==> t in s.executing && t !in done[..n]
    ensures forall t :: t in s'.tickLeft ==> t in s.tickLeft && s'.tickLeft[t] == s.tickLeft[t]
    decreases n
  {
    if n == 0 then s
    else
      var s1 := Dropped(g, s, done, n - 1);
      var x := done[n - 1];
      assert done[..n] == done[..n - 1] + [x];
      s1.(tickLeft := s1.tickLeft - {x}, executing := RemoveFirst(s1.executing, x))
  }

  /** The ticking loop: every executing task loses `inc`, and those left at 0 end. */
  function Ticks(g: Graph, s: Sim, inc: int): (s': Sim)
    requires Shaped(g) && SimOk(g, s)
    ensures SimOk(g, s') && s'.executing == s.executing && s'.time == s.time && s'.starts == s.starts
    ensures s'.tickLeft.Keys == s.tickLeft.Keys
  {
    var ex := s.executing;
    var e := Ticked(g, ex, s.tickLeft, inc, Tokens(s.m0, s.phase), |ex|);
    TickMapKeys(ex, s.tickLeft, inc, |ex|);
    s.(m0 := e.m0, phase := e.phase, tickLeft := TickMap(ex, s.tickLeft, inc, |ex|))
  }

  /** Ticking, clean-up and the clock: the time moves on by the smallest time left. */
  function Elapsed(g: Graph, s: Sim): (s': Sim)
    requires Shaped(g) && SimOk(g, s)
    ensures SimOk(g, s') && s'.starts == s.starts
    ensures s'.time == s.time + MinTick(s.executing, s.tickLeft)
  {
    var ex := s.executing;
    var inc := MinTick(ex, s.tickLeft);
    var done := Finished(ex, s.tickLeft, inc, |ex|);
    var s3 := Dropped(g, Ticks(g, s, inc), done, |done|);
    s3.(time := s3.time + inc)
  }

  /** Time and the move to step two, after the firings of a round. */
  function Advanced(g: Graph, r: Run): (r': Run)
    requires Shaped(g) && RunOk(g, r)
    ensures RunOk(g, r')
    ensures r'.stepTwo == (r.stepTwo || AllReached(g, r.numExe))
  {
    var s := Elapsed(g, r.sim);
    if !r.stepTwo && AllReached(g, r.numExe) then Run(s, seq(|g.tasks|, _ => 0), true)
    else Run(s, r.numExe, r.stepTwo)
  }

  // ---------------------------------------------------------------------
  // Rounds and runs

  /** One iteration of the main loop of `execute`. */
  function RoundOf(g: Graph, rec: bool, nbIte: int, r: Run): (st: Step)
    requires Shaped(g) && RunOk(g, r)
    ensures !st.Halt? ==> RunOk(g, st.run)
    ensures st.Done? ==> st.run.stepTwo && AllFiredEnough(g, st.run.numExe, nbIte)
  {
    match RtBounds(g, r.numExe)
    case Err(e) => Halt(Err(e))
    case Ok(b) =>
      if RatioExceeded(b.0, b.1) then Halt(Ok(Code(-1)))
      else
        var sel := Selection(g, nbIte, r);
        AfterFiring(g, nbIte, Fired(g, rec, sel, r, |g.tasks|), |r.sim.executing| + CountTrue(sel))
  }

  /**
   * The end of a round, after the firing loop `f` with `count` tasks
   * executing or chosen: time moves on, step two may start or be over,
   * and a round with nothing to execute ends the run with -1.
   */
  function AfterFiring(g: Graph, nbIte: int, f: Step, count: int): (st: Step)
    requires Shaped(g) && (f.Go? || f.Halt?) && (f.Go? ==> RunOk(g, f.run))
    ensures !st.Halt? ==> RunOk(g, st.run)
    ensures st.Done? ==> st.run.stepTwo && AllFiredEnough(g, st.run.numExe, nbIte)
  {
    if f.Halt? then f
    // the test of `task_execute` comes last in the loop body, but the
    // time step before it cannot fail, so it is taken first here
    else if count == 0 then Halt(Ok(Code(-1)))
    else
      var r' := Advanced(g, f.run);
      if r'.stepTwo && AllFiredEnough(g, r'.numExe, nbIte) then Done(r')
      else Go(r')
  }

  /** The state of the main loop after at most `i` rounds from `r`: a stopped run stays stopped. */
  function RunAfter(g: Graph, rec: bool, nbIte: int, r: Run, i: nat): (st: Step)
    requires Shaped(g) && RunOk(g, r)
    ensures !st.Halt? ==> RunOk(g, st.run)
    decreases i
  {
    if i == 0 then Go(r)
    else
      var st := RunAfter(g, rec, nbIte, r, i - 1);
      if st.Go? then RoundOf(g, rec, nbIte, st.run) else st
  }

  /** What `execute` returns once the main loop has stopped; `None` while it goes on. */
  function Outcome(rec: bool, st: Step): Option<Result<Answer>> {
    match st
    case Halt(x) => Some(x)
    case Done(r') => Some(Ok(if rec then StartTimes(r'.sim.starts) else Code(0)))
    case Go(_) => None
  }

  /** The main loop, for at most `fuel` rounds; `None` when the rounds run out. */
  function RunFrom(g: Graph, rec: bool, nbIte: int, r: Run, fuel: nat): Option<Result<Answer>>
    requires Shaped(g) && RunOk(g, r)
  {
    Outcome(rec, RunAfter(g, rec, nbIte, r, fuel))
  }

  /** Once the main loop has stopped, later rounds change nothing. */
  lemma {:induction false} RunAfterStays(g: Graph, rec: bool, nbIte: int, r: Run, k: nat, n: nat)
    requires Shaped(g) && RunOk(g, r) && k <= n
    requires !RunAfter(g, rec, nbIte, r, k).Go?
    ensures RunAfter(g, rec, nbIte, r, n) == RunAfter(g, rec, nbIte, r, k)
    decreases n - k
  {
    if n > k {
      RunAfterStops(g, rec, nbIte, r, k);
      RunAfterStays(g, rec, nbIte, r, k + 1, n);
    }
  }

  /** A stopped run is stopped one round later. */
  lemma RunAfterStops(g: Graph, rec: bool, nbIte: int, r: Run, k: nat)
    requires Shaped(g) && RunOk(g, r)
    requires !RunAfter(g, rec, nbIte, r, k).Go?
    ensures RunAfter(g, rec, nbIte, r, k + 1) == RunAfter(g, rec, nbIte, r, k)
  {
  }

  /** The loop state right after `__raz`. */
  function StartRun(g: Graph, starts: map<StartKey, seq<int>>): (r: Run)
    requires Shaped(g)
    ensures RunOk(g, r)
  {
    Run(Reset(g, starts), seq(|g.tasks|, _ => 0), false)
  }

  /**
   * `execute(get_start_time, nb_ite)` from a start-time table `starts`: a
   * cyclic graph without tokens is a deadlock before any round.
   */
  function ExecuteOf(g: Graph, rec: bool, nbIte: int, fuel: nat, starts: map<StartKey, seq<int>>): (r: Option<Result<Answer>>)
    requires Shaped(g)
    ensures IsCyclic(g) && TotalMarking(g.arcs) == 0 ==> r == Some(Ok(Code(-1)))
  {
    if IsCyclic(g) && TotalMarking(g.arcs) == 0 then Some(Ok(Code(-1)))
    else RunFrom(g, rec, nbIte, StartRun(g, starts), fuel)
  }

  /** `is_dead_lock`: false exactly when the execution returns 0. */
  function DeadLockOf(g: Graph, fuel: nat): (r: Option<Result<bool>>)
    requires Shaped(g)
  {
    match ExecuteOf(g, false, 1, fuel, map[])
    case None => None
    case Some(Err(e)) => Some(Err(e))
    case Some(Ok(a)) => Some(Ok(a != Code(0)))
  }

  // ---------------------------------------------------------------------
  // Properties of a round

  lemma {:induction false} FiredNone(g: Graph, rec: bool, sel: seq<bool>, r: Run, n: nat)
    requires Shaped(g) && RunOk(g, r) && |sel| == |g.tasks| && n <= |g.tasks|
    requires forall t :: 0 <= t < |sel| ==> !sel[t]
    ensures Fired(g, rec, sel, r, n) == Go(r)
    decreases n
  {
    if n > 0 {
      FiredNone(g, rec, sel, r, n - 1);
    }
  }

  /**
   * A round in which nothing is executing and no task can be chosen stops
   * the run, and with -1 unless a repetition factor makes it raise.
   */
  lemma IdleRoundStops(g: Graph, rec: bool, nbIte: int, r: Run)
    requires Shaped(g) && RunOk(g, r)
    requires |r.sim.executing| == 0 && forall t :: 0 <= t < |g.tasks| ==> !Selected(g, nbIte, r, t)
    ensures RoundOf(g, rec, nbIte, r) ==
      if RtBounds(g, r.numExe).Err? then Halt(Err(RtBounds(g, r.numExe).error)) else Halt(Ok(Code(-1)))
  {
    var b := RtBounds(g, r.numExe);
    if b.Ok? && !RatioExceeded(b.value.0, b.value.1) {
      var sel := Selection(g, nbIte, r);
      forall t | 0 <= t < |sel| ensures !sel[t] {
        assert !Selected(g, nbIte, r, t);
      }
      CountTrueZero(sel);
      FiredNone(g, rec, sel, r, |g.tasks|);
      assert Fired(g, rec, sel, r, |g.tasks|) == Go(r);
      assert |r.sim.executing| + CountTrue(sel) == 0;
    }
  }

  /** Tasks not yet visited by the firing loop still see the markings of the start of the round. */
  lemma {:induction false} FiredKeepsLaterInputs(g: Graph, rec: bool, sel: seq<bool>, r: Run, n: nat)
    requires Shaped(g) && RunOk(g, r) && |sel| == |g.tasks| && n <= |g.tasks|
    requires forall t :: 0 <= t < |sel| && sel[t] ==> t !in r.sim.executing
    ensures var st := Fired(g, rec, sel, r, n);
      st.Go? ==> forall i :: 0 <= i < |g.arcs| && g.arcs[i].tgt >= n ==> st.run.sim.m0[i] == r.sim.m0[i]
    decreases n
  {
    if n > 0 {
      FiredKeepsLaterInputs(g, rec, sel, r, n - 1);
    }
  }

  /** A task whose inputs are as they were when it was found executable is not overdrawn. */
  lemma FireOneNotOverdrawn(g: Graph, rec: bool, r0: Run, r: Run, t: nat)
    requires Shaped(g) && RunOk(g, r0) && RunOk(g, r) && !IsPcg(g.kind)
    requires t < |g.tasks| && t !in r.sim.executing && r.sim.phase == r0.sim.phase
    requires forall i :: 0 <= i < |g.arcs| && g.arcs[i].tgt == t ==> r.sim.m0[i] == r0.sim.m0[i]
    requires Executable(g, r0.sim.m0, r0.sim.phase, t)
    ensures FireOne(g, rec, r, t) != Halt(Ok(Code(-1)))
  {
    ExecutableNotOverdrawn(g, r0.sim.m0, r0.sim.phase, t);
    assert !Overdrawn(g, r.sim.m0, r.sim.phase, t);
  }

  /**
   * Without thresholds, the firing loop never ends the run with -1: a
   * chosen task was executable, and its inputs have not moved since.
   */
  lemma {:induction false} FiredNeverOverdrawn(g: Graph, rec: bool, sel: seq<bool>, r: Run, n: nat)
    requires Shaped(g) && RunOk(g, r) && !IsPcg(g.kind) && |sel| == |g.tasks| && n <= |g.tasks|
    requires forall t :: 0 <= t < |sel| && sel[t] ==> t !in r.sim.executing
    requires forall t :: 0 <= t < |sel| && sel[t] ==> Executable(g, r.sim.m0, r.sim.phase, t)
    ensures Fired(g, rec, sel, r, n) != Halt(Ok(Code(-1)))
    decreases n
  {
    if n > 0 {
      FiredNeverOverdrawn(g, rec, sel, r, n - 1);
      if Fired(g, rec, sel, r, n - 1).Go? {
        FiredStepNotOverdrawn(g, rec, sel, r, n - 1);
      }
    }
  }

  /** The step of `FiredNeverOverdrawn`: firing task `n` after a loop that went on. */
  lemma FiredStepNotOverdrawn(g: Graph, rec: bool, sel: seq<bool>, r: Run, n: nat)
    requires Shaped(g) && RunOk(g, r) && !IsPcg(g.kind) && |sel| == |g.tasks| && n < |g.tasks|
    requires forall t :: 0 <= t < |sel| && sel[t] ==> t !in r.sim.executing
    requires forall t :: 0 <= t < |sel| && sel[t] ==> Executable(g, r.sim.m0, r.sim.phase, t)
    requires Fired(g, rec, sel, r, n).Go?
    ensures Fired(g, rec, sel, r, n + 1) != Halt(Ok(Code(-1)))
  {
    var st := Fired(g, rec, sel, r, n);
    FiredStep(g, rec, sel, r, n);
    if sel[n] {
      FiredKeepsLaterInputs(g, rec, sel, r, n);
      FireOneNotOverdrawn(g, rec, r, st.run, n);
    }
  }

  /**
   * Without thresholds, a round ends the run with -1 only when the ratio
   * check fails or the round is idle (nothing executing, nothing chosen).
   */
  lemma RoundNeverOverdrawn(g: Graph, rec: bool, nbIte: int, r: Run)
    requires Shaped(g) && RunOk(g, r) && !IsPcg(g.kind)
    ensures RoundOf(g, rec, nbIte, r) == Halt(Ok(Code(-1))) ==>
      (RtBounds(g, r.numExe).Ok? && RatioExceeded(RtBounds(g, r.numExe).value.0, RtBounds(g, r.numExe).value.1)) ||
      (|r.sim.executing| == 0 && forall t :: 0 <= t < |g.tasks| ==> !Selected(g, nbIte, r, t))
  {
    var b := RtBounds(g, r.numExe);
    if b.Ok? && !RatioExceeded(b.value.0, b.value.1) {
      var sel := Selection(g, nbIte, r);
      FiredNeverOverdrawn(g, rec, sel, r, |g.tasks|);
      if RoundOf(g, rec, nbIte, r) == Halt(Ok(Code(-1))) {
        assert |r.sim.executing| + CountTrue(sel) == 0;
        CountTrueZero(sel);
        forall t | 0 <= t < |g.tasks| ensures !Selected(g, nbIte, r, t) {
          assert !sel[t];
        }
      }
    }
  }

  /**
   * The clock moves on by the smallest time left: every executing task
   * loses that much, those left at 0 finish and leave the executing list,
   * and when some task was executing at least one of them finishes.
   */
  lemma ElapsedMeaning(g: Graph, s: Sim)
    requires Shaped(g) && SimOk(g, s)
    ensures var inc := MinTick(s.executing, s.tickLeft); var s' := Elapsed(g, s);
      (forall t :: t in s'.executing <==> t in s.executing && s.tickLeft[t] != inc) &&
      (forall t :: t in s'.executing ==> s'.tickLeft[t] == s.tickLeft[t] - inc) &&
      (|s.executing| > 0 ==> exists t :: t in s.executing && t !in s'.executing)
  {
    var ex := s.executing;
    var inc := MinTick(ex, s.tickLeft);
    var done := Finished(ex, s.tickLeft, inc, |ex|);
    assert ex[..|ex|] == ex;
    assert done[..|done|] == done;
    TickMapMeaning(ex, s.tickLeft, inc, |ex|);
    FinishedMeaning(ex, s.tickLeft, inc, |ex|);
    var s' := Elapsed(g, s);
    forall t | t in s'.executing
      ensures s'.tickLeft[t] == s.tickLeft[t] - inc
    {
      var k :| 0 <= k < |ex| && ex[k] == t;
    }
    forall t
      ensures t in s'.executing <==> t in ex && s.tickLeft[t] != inc
    {
      if t in ex {
        var k :| 0 <= k < |ex| && ex[k] == t;
      }
    }
  }

  // ---------------------------------------------------------------------
  // The keys of `tick_left`

  /** Firing a task gives it a timer as it joins the executing list. */
  lemma FireOneKeysExact(g: Graph, rec: bool, r: Run, t: nat)
    requires Shaped(g) && RunOk(g, r) && t < |g.tasks| && t !in r.sim.executing && KeysExact(r.sim)
    ensures FireOne(g, rec, r, t).Go? ==> KeysExact(FireOne(g, rec, r, t).run.sim)
  {
  }

  lemma {:induction false} FiredKeysExact(g: Graph, rec: bool, sel: seq<bool>, r: Run, n: nat)
    requires Shaped(g) && RunOk(g, r) && |sel| == |g.tasks| && n <= |g.tasks|
    requires forall t :: 0 <= t < |sel| && sel[t] ==> t !in r.sim.executing
    requires KeysExact(r.sim)
    ensures Fired(g, rec, sel, r, n).Go? ==> KeysExact(Fired(g, rec, sel, r, n).run.sim)
    decreases n
  {
    if n > 0 {
      FiredKeysExact(g, rec, sel, r, n - 1);
      var st := Fired(g, rec, sel, r, n - 1);
      if st.Go? && sel[n - 1] {
        FiredStep(g, rec, sel, r, n - 1);
        FireOneKeysExact(g, rec, st.run, n - 1);
      }
    }
  }

  /** The clean-up loop deletes each finished task from the table and from the list together. */
  lemma {:induction false} DroppedKeysExact(g: Graph, s: Sim, done: seq<nat>, n: nat)
    requires SimOk(g, s) && n <= |done| && KeysExact(s)
    ensures KeysExact(Dropped(g, s, done, n))
    decreases n
  {
    if n > 0 {
      DroppedKeysExact(g, s, done, n - 1);
      var s1 := Dropped(g, s, done, n - 1);
      var x := done[n - 1];
      DropOneKeysExact(s1, x);
      assert Dropped(g, s, done, n) == s1.(tickLeft := s1.tickLeft - {x}, executing := RemoveFirst(s1.executing, x));
    }
  }

  /** Deleting one task from the table and from a list without duplicates keeps the keys exact. */
  lemma DropOneKeysExact(s: Sim, x: nat)
    requires KeysExact(s) && Distinct(s.executing)
    ensures KeysExact(s.(tickLeft := s.tickLeft - {x}, executing := RemoveFirst(s.executing, x)))
  {
    var s' := s.(tickLeft := s.tickLeft - {x}, executing := RemoveFirst(s.executing, x));
    forall t ensures t in s'.tickLeft <==> t in s'.executing {
      assert t in s'.executing <==> t in s.executing && t != x;
    }
  }

  /** Advancing time keeps the table's keys the executing tasks. */
  lemma ElapsedKeysExact(g: Graph, s: Sim)
    requires Shaped(g) && SimOk(g, s) && KeysExact(s)
    ensures KeysExact(Elapsed(g, s))
  {
    var ex := s.executing;
    var inc := MinTick(ex, s.tickLeft);
    var done := Finished(ex, s.tickLeft, inc, |ex|);
    var s1 := Ticks(g, s, inc);
    assert KeysExact(s1) by {
      forall t ensures t in s1.tickLeft <==> t in s1.executing {
        assert t in s1.tickLeft <==> t in s1.tickLeft.Keys;
        assert t in s.tickLeft <==> t in s.tickLeft.Keys;
      }
    }
    DroppedKeysExact(g, s1, done, |done|);
  }

  /** A round that goes on leaves `tick_left` keyed by exactly the executing tasks. */
  lemma RoundKeysExact(g: Graph, rec: bool, nbIte: int, r: Run)
    requires Shaped(g) && RunOk(g, r) && KeysExact(r.sim)
    ensures !RoundOf(g, rec, nbIte, r).Halt? ==> KeysExact(RoundOf(g, rec, nbIte, r).run.sim)
  {
    var st := RoundOf(g, rec, nbIte, r);
    if !st.Halt? {
      var b := RtBounds(g, r.numExe).value;
      var sel := Selection(g, nbIte, r);
      var f := Fired(g, rec, sel, r, |g.tasks|);
      FiredKeysExact(g, rec, sel, r, |g.tasks|);
      ElapsedKeysExact(g, f.run.sim);
    }
  }

  lemma RunAfterKeysExact(g: Graph, rec: bool, nbIte: int, r: Run, i: nat)
    requires Shaped(g) && RunOk(g, r) && KeysExact(r.sim)
    ensures RunAfter(g, rec, nbIte, r, i).Go? ==> KeysExact(RunAfter(g, rec, nbIte, r, i).run.sim)
    decreases i
  {
    if i > 0 {
      RunAfterKeysExact(g, rec, nbIte, r, i - 1);
      NextKeysExact(g, rec, nbIte, r, i - 1);
    }
  }

  /** One more round of the main loop keeps the keys of a going run exact. */
  lemma NextKeysExact(g: Graph, rec: bool, nbIte: int, r: Run, i: nat)
    requires Shaped(g) && RunOk(g, r)
    requires RunAfter(g, rec, nbIte, r, i).Go? ==> KeysExact(RunAfter(g, rec, nbIte, r, i).run.sim)
    ensures RunAfter(g, rec, nbIte, r, i + 1).Go? ==> KeysExact(RunAfter(g, rec, nbIte, r, i + 1).run.sim)
  {
    var st := RunAfter(g, rec, nbIte, r, i);
    if st.Go? {
      RoundKeysExact(g, rec, nbIte, st.run);
    }
  }

  /** From `__raz` on, every state the main loop reaches has `tick_left` keyed by the executing tasks. */
  lemma RunKeysExact(g: Graph, rec: bool, nbIte: int, starts: map<StartKey, seq<int>>, i: nat)
    requires Shaped(g)
    ensures var st := RunAfter(g, rec, nbIte, StartRun(g, starts), i);
      st.Go? ==> KeysExact(st.run.sim)
  {
    RunAfterKeysExact(g, rec, nbIte, StartRun(g, starts), i);
  }

  /**
   * With the keys exact, the smallest time left among the executing tasks
   * is the source's `min` over the values of `tick_left`, and 0 when the
   * table is empty.
   */
  lemma MinTickIsTableMin(g: Graph, s: Sim)
    requires SimOk(g, s) && KeysExact(s)
    ensures forall t :: t in s.tickLeft ==> MinTick(s.executing, s.tickLeft) <= s.tickLeft[t]
    ensures s.tickLeft != map[] ==> exists t :: t in s.tickLeft && MinTick(s.executing, s.tickLeft) == s.tickLeft[t]
    ensures s.tickLeft == map[] ==> MinTick(s.executing, s.tickLeft) == 0
  {
    var ex := s.executing;
    forall t | t in s.tickLeft ensures MinTick(ex, s.tickLeft) <= s.tickLeft[t] {
      var k :| 0 <= k < |ex| && ex[k] == t;
    }
    if s.tickLeft != map[] {
      var t :| t in s.tickLeft;
      assert t in ex;
    }
  }
}
