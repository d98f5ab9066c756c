// The untimed symbolic execution of the older `turbine` package, on the
// legacy graph: every round picks the tasks whose entering arcs hold
// enough tokens, fires them one after the other in task order (each
// consumes and produces at once and moves to its next phase), and the run
// goes through a first step, until every task has fired its initial and
// cyclic phases, and a second, until every task has fired exactly its
// repetition factor times its phase count.
module UntimedExecution {
  import opened Outcomes
  import opened Legacy
  import SymbolicExecution

  // ---------------------------------------------------------------------
  // What the executor reads from the graph

  /** `getPhaseCount`: the number of cyclic phases. */
  function Pc(s: State, t: nat): nat
    requires t < |s.tasks|
  {
    |s.tasks[t].durations|
  }

  /** `getPhaseCountInit`: the number of initial phases. */
  function PcInit(s: State, t: nat): nat
    requires t < |s.tasks|
  {
    |s.tasks[t].iniDurations|
  }

  /**
   * The lists of an arc the executor reads are present: the thresholds on
   * a thresholded graph, and on an initialized graph the initial
   * productions of a source and the initial consumptions (and thresholds)
   * of a target with initial phases.
   */
  predicate ArcReady(s: State, a: ArcAttrs) {
    ArcShaped(s.tasks, a) &&
    (s.thresholded ==> a.thr.Some?) &&
    (s.initialized && PcInit(s, a.src) > 0 ==> a.iniProd.Some?) &&
    (s.initialized && PcInit(s, a.tgt) > 0 ==> a.iniCons.Some? && (s.thresholded ==> a.iniThr.Some?))
  }

  /**
   * A graph the executor runs on without raising: every task has a cyclic
   * phase and a repetition factor, and every arc the lists it reads.
   */
  predicate Ready(s: State) {
    (forall t :: 0 <= t < |s.tasks| ==> Pc(s, t) >= 1 && s.tasks[t].rf.Some?) &&
    (forall i :: 0 <= i < |s.arcs| ==> ArcReady(s, s.arcs[i]))
  }

  /** The phase a task starts in: minus its initial phase count on an initialized graph. */
  function Lowest(s: State, t: nat): int
    requires t < |s.tasks|
  {
    if s.initialized then -(PcInit(s, t) as int) else 0
  }

  /** Every task is in a phase between its starting phase and its last cyclic phase. */
  predicate PhasesOk(s: State, ph: seq<int>) {
    |ph| == |s.tasks| && forall t :: 0 <= t < |ph| ==> Lowest(s, t) <= ph[t] < Pc(s, t)
  }

  // ---------------------------------------------------------------------
  // The token getters

  /** `__getTokenCreate`: the production of the source's current phase. */
  function TokenCreate(s: State, ph: seq<int>, i: nat): int
    requires Ready(s) && PhasesOk(s, ph) && i < |s.arcs|
  {
    var a := s.arcs[i];
    assert ArcReady(s, a);
    var p := ph[a.src];
    if p < 0 then a.iniProd.value[PcInit(s, a.src) + p] else a.prod[p]
  }

  /** `__getTokenDel`: the consumption of the target's current phase. */
  function TokenDel(s: State, ph: seq<int>, i: nat): int
    requires Ready(s) && PhasesOk(s, ph) && i < |s.arcs|
  {
    var a := s.arcs[i];
    assert ArcReady(s, a);
    var p := ph[a.tgt];
    if p < 0 then a.iniCons.value[PcInit(s, a.tgt) + p] else a.cons[p]
  }

  /** `__getTokenNeed`: the threshold on a thresholded graph, the consumption otherwise. */
  function TokenNeed(s: State, ph: seq<int>, i: nat): int
    requires Ready(s) && PhasesOk(s, ph) && i < |s.arcs|
  {
    var a := s.arcs[i];
    assert ArcReady(s, a);
    var p := ph[a.tgt];
    if !s.thresholded then TokenDel(s, ph, i)
    else if p < 0 then a.iniThr.value[PcInit(s, a.tgt) + p] else a.thr.value[p]
  }

  /** `__isExecutable`: every entering arc holds what the target's phase needs. */
  predicate Executable(s: State, m: seq<int>, ph: seq<int>, t: nat)
    requires Ready(s) && PhasesOk(s, ph) && |m| == |s.arcs|
  {
    forall i :: 0 <= i < |s.arcs| && s.arcs[i].tgt == t ==> m[i] >= TokenNeed(s, ph, i)
  }

  /** Some entering arc holds less than the target's phase consumes. */
  predicate Overdrawn(s: State, m: seq<int>, ph: seq<int>, t: nat)
    requires Ready(s) && PhasesOk(s, ph) && |m| == |s.arcs|
  {
    exists i :: 0 <= i < |s.arcs| && s.arcs[i].tgt == t && m[i] < TokenDel(s, ph, i)
  }

  /** Without thresholds the need is the consumption, so an executable task is not overdrawn. */
  lemma ExecutableNotOverdrawn(s: State, m: seq<int>, ph: seq<int>, t: nat)
    requires Ready(s) && PhasesOk(s, ph) && |m| == |s.arcs| && !s.thresholded
    requires Executable(s, m, ph, t)
    ensures !Overdrawn(s, m, ph, t)
  {
  }

  /** The first loop of `__taskExe`: every entering arc loses the consumption. */
  function Consumed(s: State, m: seq<int>, ph: seq<int>, t: nat): (m': seq<int>)
    requires Ready(s) && PhasesOk(s, ph) && |m| == |s.arcs|
    ensures |m'| == |m|
  {
    seq(|m|, i requires 0 <= i < |m| => if s.arcs[i].tgt == t then m[i] - TokenDel(s, ph, i) else m[i])
  }

  /** The second loop of `__taskExe`: every leaving arc gains the production. */
  function Produced(s: State, m: seq<int>, ph: seq<int>, t: nat): (m': seq<int>)
    requires Ready(s) && PhasesOk(s, ph) && |m| == |s.arcs|
    ensures |m'| == |m|
  {
    seq(|m|, i requires 0 <= i < |m| => if s.arcs[i].src == t then m[i] + TokenCreate(s, ph, i) else m[i])
  }

  /** The phase after `t` fires: one more, back to 0 after the last cyclic phase. */
  function NextPhase(s: State, ph: seq<int>, t: nat): (p: int)
    requires Ready(s) && PhasesOk(s, ph) && t < |s.tasks|
    ensures Lowest(s, t) <= p < Pc(s, t)
    ensures p == ph[t] + 1 || (p == 0 && ph[t] == Pc(s, t) - 1)
  {
    if ph[t] + 1 == Pc(s, t) then 0 else ph[t] + 1
  }

  // ---------------------------------------------------------------------
  // The main loop

  /** The loop state: markings, phases, `numTaskExe` and `stepTwo`. */
  datatype URun = URun(m0: seq<int>, phase: seq<int>, numExe: seq<int>, stepTwo: bool)

  /** Where a round leaves the run: going on, or stopped with what `execute` returns. */
  datatype UStep = Go(run: URun) | Halt(code: int)

  predicate RunOk(s: State, r: URun) {
    |r.m0| == |s.arcs| && PhasesOk(s, r.phase) && |r.numExe| == |s.tasks|
  }

  /** `__raz` and the counters `execute` starts from. */
  function StartRun(s: State): (r: URun)
    requires Ready(s)
    ensures RunOk(s, r) && !r.stepTwo
    ensures forall i :: 0 <= i < |s.arcs| ==> r.m0[i] == s.arcs[i].m0
    ensures forall t :: 0 <= t < |s.tasks| ==>
      r.numExe[t] == 0 && r.phase[t] + (if s.initialized then PcInit(s, t) else 0) == 0
  {
    URun(seq(|s.arcs|, i requires 0 <= i < |s.arcs| => s.arcs[i].m0),
         seq(|s.tasks|, t requires 0 <= t < |s.tasks| => Lowest(s, t)),
         Zeros(|s.tasks|), false)
  }

  /** `numTaskExe / getPhaseCount == getRepetitionFactor`, on integers. */
  predicate Enough(s: State, ne: seq<int>, t: nat)
    requires Ready(s) && t < |s.tasks| && |ne| == |s.tasks|
  {
    ne[t] == s.tasks[t].rf.value * Pc(s, t)
  }

  predicate AllEnough(s: State, ne: seq<int>)
    requires Ready(s) && |ne| == |s.tasks|
  {
    forall t :: 0 <= t < |s.tasks| ==> Enough(s, ne, t)
  }

  /** The task has fired at least its initial and cyclic phases. */
  predicate Reached(s: State, ne: seq<int>, t: nat)
    requires t < |s.tasks| && |ne| == |s.tasks|
  {
    ne[t] >= PcInit(s, t) + Pc(s, t)
  }

  predicate AllReached(s: State, ne: seq<int>)
    requires |ne| == |s.tasks|
  {
    forall t :: 0 <= t < |s.tasks| ==> Reached(s, ne, t)
  }

  /** The first loop of a round: executable, and in step two not yet fired enough. */
  predicate Selected(s: State, r: URun, t: nat)
    requires Ready(s) && RunOk(s, r) && t < |s.tasks|
  {
    Executable(s, r.m0, r.phase, t) && !(r.stepTwo && Enough(s, r.numExe, t))
  }

  /** `executedTask` after the first loop. */
  function Selection(s: State, r: URun): (sel: seq<bool>)
    requires Ready(s) && RunOk(s, r)
    ensures |sel| == |s.tasks|
    ensures forall t :: 0 <= t < |s.tasks| ==> (sel[t] <==> Selected(s, r, t))
  {
    seq(|s.tasks|, t requires 0 <= t < |s.tasks| => Selected(s, r, t))
  }

  /** One more task of the selection loop, and what it adds to the count. */
  lemma SelectionStep(s: State, r: URun, t: nat)
    requires Ready(s) && RunOk(s, r) && t < |s.tasks|
    ensures var sel := Selection(s, r);
      sel[..t + 1] == sel[..t] + [Selected(s, r, t)] &&
      SymbolicExecution.CountTrue(sel[..t + 1]) == SymbolicExecution.CountTrue(sel[..t]) + if Selected(s, r, t) then 1 else 0
  {
    var sel := Selection(s, r);
    SymbolicExecution.CountTrueStep(sel, t);
    assert sel[..t + 1] == sel[..t] + [sel[t]];
  }

  /** Firing one chosen task: count it, then `__taskExe`, which answers -1 on an overdrawn arc. */
  function FireOne(s: State, r: URun, t: nat): (st: UStep)
    requires Ready(s) && RunOk(s, r) && t < |s.tasks|
    ensures st.Halt? <==> Overdrawn(s, r.m0, r.phase, t)
    ensures st.Halt? ==> st.code == -1
    ensures st.Go? ==> RunOk(s, st.run) && st.run.stepTwo == r.stepTwo
  {
    if Overdrawn(s, r.m0, r.phase, t) then Halt(-1)
    else
      Go(URun(Produced(s, Consumed(s, r.m0, r.phase, t), r.phase, t),
              r.phase[t := NextPhase(s, r.phase, t)],
              r.numExe[t := r.numExe[t] + 1], r.stepTwo))
  }

  /** The second loop of a round, over tasks `0 .. n-1`. */
  function Fired(s: State, sel: seq<bool>, r: URun, n: nat): (st: UStep)
    requires Ready(s) && RunOk(s, r) && |sel| == |s.tasks| && n <= |s.tasks|
    ensures st.Halt? ==> st.code == -1
    ensures st.Go? ==> RunOk(s, st.run) && st.run.stepTwo == r.stepTwo
    decreases n
  {
    if n == 0 then Go(r)
    else
      var st := Fired(s, sel, r, n - 1);
      if st.Halt? || !sel[n - 1] then st
      else FireOne(s, st.run, n - 1)
  }

  /** One more task of the firing loop, as the executor takes it. */
  lemma FiredStep(s: State, sel: seq<bool>, r: URun, n: nat)
    requires Ready(s) && RunOk(s, r) && |sel| == |s.tasks| && n < |s.tasks|
    requires Fired(s, sel, r, n).Go?
    ensures var st := Fired(s, sel, r, n);
      RunOk(s, st.run) && Fired(s, sel, r, n + 1) == if sel[n] then FireOne(s, st.run, n) else st
  {
  }

  /** Once the firing loop stops, later tasks change nothing. */
  lemma {:induction false} FiredHaltStays(s: State, sel: seq<bool>, r: URun, k: nat, n: nat)
    requires Ready(s) && RunOk(s, r) && |sel| == |s.tasks| && k <= n <= |s.tasks|
    requires Fired(s, sel, r, k).Halt?
    ensures Fired(s, sel, r, n) == Fired(s, sel, r, k)
    decreases n - k
  {
    if n > k {
      assert Fired(s, sel, r, k + 1) == Fired(s, sel, r, k);
      FiredHaltStays(s, sel, r, k + 1, n);
    }
  }

  /** The counters, reset when step one is over. */
  function AfterStepOne(s: State, f: URun): (r: URun)
    requires RunOk(s, f)
    ensures RunOk(s, r) && r.m0 == f.m0 && r.phase == f.phase
    ensures !f.stepTwo && AllReached(s, f.numExe) ==> r.stepTwo && r.numExe == Zeros(|s.tasks|)
    ensures f.stepTwo || !AllReached(s, f.numExe) ==> r == f
  {
    if !f.stepTwo && AllReached(s, f.numExe) then f.(numExe := Zeros(|s.tasks|), stepTwo := true) else f
  }

  /**
   * The end of a round, after a firing loop that went on, with `count`
   * tasks chosen: step one may end, the run succeeds once in step two every
   * task has fired enough, and a round that chose nothing answers -1 even
   * then.
   */
  function AfterFiring(s: State, f: URun, count: int): (st: UStep)
    requires Ready(s) && RunOk(s, f)
    ensures st.Halt? ==> st.code == -1 || st.code == 0
    ensures st.Halt? && st.code == 0 <==>
      count != 0 && AfterStepOne(s, f).stepTwo && AllEnough(s, AfterStepOne(s, f).numExe)
    ensures st.Go? ==> st.run == AfterStepOne(s, f) && count != 0
  {
    var r := AfterStepOne(s, f);
    if count == 0 then Halt(-1)
    else if r.stepTwo && AllEnough(s, r.numExe) then Halt(0)
    else Go(r)
  }

  /** One iteration of the main loop of `execute`. */
  function Round(s: State, r: URun): (st: UStep)
    requires Ready(s) && RunOk(s, r)
    ensures st.Halt? ==> st.code == -1 || st.code == 0
    ensures st.Go? ==> RunOk(s, st.run)
  {
    var sel := Selection(s, r);
    var f := Fired(s, sel, r, |s.tasks|);
    if f.Halt? then f else AfterFiring(s, f.run, SymbolicExecution.CountTrue(sel))
  }

  /** The main loop after at most `i` rounds from `r`: a stopped run stays stopped. */
  function RunAfter(s: State, r: URun, i: nat): (st: UStep)
    requires Ready(s) && RunOk(s, r)
    ensures st.Halt? ==> st.code == -1 || st.code == 0
    ensures st.Go? ==> RunOk(s, st.run)
    decreases i
  {
    if i == 0 then Go(r)
    else
      var st := RunAfter(s, r, i - 1);
      if st.Go? then Round(s, st.run) else st
  }

  /** Once the main loop has stopped, later rounds change nothing. */
  lemma {:induction false} RunAfterStays(s: State, r: URun, k: nat, n: nat)
    requires Ready(s) && RunOk(s, r) && k <= n
    requires RunAfter(s, r, k).Halt?
    ensures RunAfter(s, r, n) == RunAfter(s, r, k)
    decreases n - k
  {
    if n > k {
      assert RunAfter(s, r, k + 1) == RunAfter(s, r, k);
      RunAfterStays(s, r, k + 1, n);
    }
  }

  /** `execute()`, for at most `fuel` rounds: `None` when they run out first. */
  function ExecuteOf(s: State, fuel: nat): (r: Option<int>)
    requires Ready(s)
    ensures r.Some? ==> r.value == -1 || r.value == 0
  {
    var st := RunAfter(s, StartRun(s), fuel);
    if st.Halt? then Some(st.code) else None
  }

  // ---------------------------------------------------------------------
  // Properties of a round

  /** A chosen task fires once: its count goes up by one and its phase moves on; nothing else moves. */
  lemma {:induction false} FiredCounts(s: State, sel: seq<bool>, r: URun, n: nat)
    requires Ready(s) && RunOk(s, r) && |sel| == |s.tasks| && n <= |s.tasks|
    requires Fired(s, sel, r, n).Go?
    ensures var f := Fired(s, sel, r, n).run;
      forall t :: 0 <= t < |s.tasks| ==>
        f.numExe[t] == r.numExe[t] + (if t < n && sel[t] then 1 else 0) &&
        f.phase[t] == if t < n && sel[t] then NextPhase(s, r.phase, t) else r.phase[t]
    decreases n
  {
    if n > 0 {
      FiredCounts(s, sel, r, n - 1);
    }
  }

  lemma {:induction false} FiredNone(s: State, sel: seq<bool>, r: URun, n: nat)
    requires Ready(s) && RunOk(s, r) && |sel| == |s.tasks| && n <= |s.tasks|
    requires forall t :: 0 <= t < |sel| ==> !sel[t]
    ensures Fired(s, sel, r, n) == Go(r)
    decreases n
  {
    if n > 0 {
      FiredNone(s, sel, r, n - 1);
    }
  }

  /** A round in which no task can be chosen ends the run with -1. */
  lemma IdleRoundStops(s: State, r: URun)
    requires Ready(s) && RunOk(s, r)
    requires Idle(s, r)
    ensures Round(s, r) == Halt(-1)
  {
    var sel := Selection(s, r);
    SymbolicExecution.CountTrueZero(sel);
    FiredNone(s, sel, r, |s.tasks|);
  }

  /** Productions are never negative: the condition under which firing cannot empty a buffer it does not read. */
  predicate ProductionsNonNegative(s: State)
    requires Ready(s)
  {
    forall i :: 0 <= i < |s.arcs| ==> ArcProductionsNonNegative(s, i)
  }

  predicate ArcProductionsNonNegative(s: State, i: nat)
    requires Ready(s) && i < |s.arcs|
  {
    var a := s.arcs[i];
    (forall k :: 0 <= k < |a.prod| ==> a.prod[k] >= 0) &&
    (a.iniProd.Some? ==> forall k :: 0 <= k < |a.iniProd.value| ==> a.iniProd.value[k] >= 0)
  }

  lemma TokenCreateNonNegative(s: State, ph: seq<int>, i: nat)
    requires Ready(s) && PhasesOk(s, ph) && i < |s.arcs| && ProductionsNonNegative(s)
    ensures TokenCreate(s, ph, i) >= 0
  {
    assert ArcProductionsNonNegative(s, i);
  }

  /**
   * The tasks the firing loop has not reached yet are still in the phase
   * of the start of the round, and their entering arcs hold at least what
   * they held then (earlier firings only add to them).
   */
  lemma {:induction false} FiredKeepsLaterInputs(s: State, sel: seq<bool>, r: URun, n: nat)
    requires Ready(s) && RunOk(s, r) && |sel| == |s.tasks| && n <= |s.tasks| && ProductionsNonNegative(s)
    ensures var st := Fired(s, sel, r, n);
      st.Go? ==>
        (forall t :: n <= t < |s.tasks| ==> st.run.phase[t] == r.phase[t]) &&
        (forall i :: 0 <= i < |s.arcs| && s.arcs[i].tgt >= n ==> st.run.m0[i] >= r.m0[i])
    decreases n
  {
    if n > 0 {
      FiredKeepsLaterInputs(s, sel, r, n - 1);
      var st := Fired(s, sel, r, n - 1);
      if st.Go? && sel[n - 1] && !Overdrawn(s, st.run.m0, st.run.phase, n - 1) {
        forall i | 0 <= i < |s.arcs| && s.arcs[i].tgt >= n
          ensures Fired(s, sel, r, n).run.m0[i] >= r.m0[i]
        {
          TokenCreateNonNegative(s, st.run.phase, i);
        }
      }
    }
  }

  /** The step of `FiredNeverOverdrawn`: the task reached keeps the inputs it was chosen on. */
  lemma FiredStepNotOverdrawn(s: State, sel: seq<bool>, r: URun, n: nat)
    requires Ready(s) && RunOk(s, r) && !s.thresholded && ProductionsNonNegative(s)
    requires sel == Selection(s, r) && n < |s.tasks|
    requires Fired(s, sel, r, n).Go?
    ensures Fired(s, sel, r, n + 1).Go?
  {
    var st := Fired(s, sel, r, n);
    FiredStep(s, sel, r, n);
    if sel[n] {
      FiredKeepsLaterInputs(s, sel, r, n);
      ExecutableNotOverdrawn(s, r.m0, r.phase, n);
      assert !Overdrawn(s, st.run.m0, st.run.phase, n);
    }
  }

  /**
   * Without thresholds and with productions that are never negative, the
   * firing loop never meets a negative buffer: a chosen task was
   * executable, and its inputs have only grown since.
   */
  lemma {:induction false} FiredNeverOverdrawn(s: State, r: URun, n: nat)
    requires Ready(s) && RunOk(s, r) && !s.thresholded && ProductionsNonNegative(s) && n <= |s.tasks|
    ensures Fired(s, Selection(s, r), r, n).Go?
    decreases n
  {
    if n > 0 {
      FiredNeverOverdrawn(s, r, n - 1);
      FiredStepNotOverdrawn(s, Selection(s, r), r, n - 1);
    }
  }

  /**
   * Without thresholds and with productions that are never negative, a
   * round ends the run with -1 exactly when no task can be chosen: the
   * "negative buffer" exit is never taken.
   */
  lemma RoundFailsIffIdle(s: State, r: URun)
    requires Ready(s) && RunOk(s, r) && !s.thresholded && ProductionsNonNegative(s)
    ensures Round(s, r) == Halt(-1) <==> Idle(s, r)
  {
    var sel := Selection(s, r);
    FiredNeverOverdrawn(s, r, |s.tasks|);
    SymbolicExecution.CountTrueZero(sel);
    if Idle(s, r) {
      IdleRoundStops(s, r);
    }
  }

  /** On a thresholded graph a chosen task can still be overdrawn: then the round answers -1. */
  lemma OverdrawnStops(s: State, r: URun, t: nat)
    requires Ready(s) && RunOk(s, r) && t < |s.tasks|
    requires forall u :: 0 <= u < t ==> !Selected(s, r, u)
    requires Selected(s, r, t) && Overdrawn(s, r.m0, r.phase, t)
    ensures Round(s, r) == Halt(-1)
  {
    var sel := Selection(s, r);
    FiredNone(s, sel[..t] + seq(|s.tasks| - t, _ => false), r, t);
    FiredPrefix(s, sel, sel[..t] + seq(|s.tasks| - t, _ => false), r, t);
    FiredHaltStays(s, sel, r, t + 1, |s.tasks|);
  }

  /** Only the first `n` choices matter to the first `n` firings. */
  lemma {:induction false} FiredPrefix(s: State, a: seq<bool>, b: seq<bool>, r: URun, n: nat)
    requires Ready(s) && RunOk(s, r) && |a| == |b| == |s.tasks| && n <= |s.tasks|
    requires forall t :: 0 <= t < n ==> a[t] == b[t]
    ensures Fired(s, a, r, n) == Fired(s, b, r, n)
    decreases n
  {
    if n > 0 {
      FiredPrefix(s, a, b, r, n - 1);
    }
  }

  // ---------------------------------------------------------------------
  // Invariants of the run

  /** Every buffer holds a non-negative number of tokens. */
  predicate MarkingsNonNegative(m: seq<int>) {
    forall i :: 0 <= i < |m| ==> m[i] >= 0
  }

  lemma FireOneKeepsMarkings(s: State, r: URun, t: nat)
    requires Ready(s) && RunOk(s, r) && t < |s.tasks| && ProductionsNonNegative(s)
    requires MarkingsNonNegative(r.m0)
    ensures FireOne(s, r, t).Go? ==> MarkingsNonNegative(FireOne(s, r, t).run.m0)
  {
    if !Overdrawn(s, r.m0, r.phase, t) {
      forall i | 0 <= i < |s.arcs|
        ensures FireOne(s, r, t).run.m0[i] >= 0
      {
        TokenCreateNonNegative(s, r.phase, i);
      }
    }
  }

  lemma {:induction false} FiredKeepsMarkings(s: State, sel: seq<bool>, r: URun, n: nat)
    requires Ready(s) && RunOk(s, r) && |sel| == |s.tasks| && n <= |s.tasks| && ProductionsNonNegative(s)
    requires MarkingsNonNegative(r.m0)
    ensures Fired(s, sel, r, n).Go? ==> MarkingsNonNegative(Fired(s, sel, r, n).run.m0)
    decreases n
  {
    if n > 0 {
      FiredKeepsMarkings(s, sel, r, n - 1);
      var st := Fired(s, sel, r, n - 1);
      if st.Go? && sel[n - 1] {
        FireOneKeepsMarkings(s, st.run, n - 1);
      }
    }
  }

  /**
   * With productions that are never negative, a run that starts from
   * non-negative markings keeps them non-negative: a consumption that
   * would take one below zero stops the run first.
   */
  lemma RoundKeepsMarkings(s: State, r: URun)
    requires Ready(s) && RunOk(s, r) && ProductionsNonNegative(s) && MarkingsNonNegative(r.m0)
    ensures Round(s, r).Go? ==> MarkingsNonNegative(Round(s, r).run.m0)
  {
    FiredKeepsMarkings(s, Selection(s, r), r, |s.tasks|);
  }

  /** No repetition factor is negative. */
  predicate FactorsNonNegative(s: State)
    requires Ready(s)
  {
    forall t :: 0 <= t < |s.tasks| ==> s.tasks[t].rf.value >= 0
  }

  /**
   * The counters never go below zero, and in step two no task fires more
   * than its repetition factor times its phase count.
   */
  predicate CountsOk(s: State, r: URun)
    requires Ready(s) && RunOk(s, r)
  {
    forall t :: 0 <= t < |s.tasks| ==>
      0 <= r.numExe[t] && (r.stepTwo ==> r.numExe[t] <= s.tasks[t].rf.value * Pc(s, t))
  }

  /** The firing loop keeps the counters in bounds: in step two a task that has fired enough is not chosen. */
  lemma FiredKeepsCounts(s: State, r: URun)
    requires Ready(s) && RunOk(s, r) && CountsOk(s, r)
    ensures var f := Fired(s, Selection(s, r), r, |s.tasks|);
      f.Go? ==> CountsOk(s, f.run)
  {
    var sel := Selection(s, r);
    var f := Fired(s, sel, r, |s.tasks|);
    if f.Go? {
      FiredCounts(s, sel, r, |s.tasks|);
      forall t | 0 <= t < |s.tasks|
        ensures 0 <= f.run.numExe[t] && (f.run.stepTwo ==> f.run.numExe[t] <= s.tasks[t].rf.value * Pc(s, t))
      {
        assert f.run.numExe[t] == r.numExe[t] + if Selected(s, r, t) then 1 else 0;
      }
    }
  }

  /** Resetting the counters at the end of step one keeps them in bounds. */
  lemma AfterStepOneKeepsCounts(s: State, f: URun)
    requires Ready(s) && RunOk(s, f) && FactorsNonNegative(s) && CountsOk(s, f)
    ensures CountsOk(s, AfterStepOne(s, f))
  {
    var a := AfterStepOne(s, f);
    forall t | 0 <= t < |s.tasks|
      ensures 0 <= a.numExe[t] && (a.stepTwo ==> a.numExe[t] <= s.tasks[t].rf.value * Pc(s, t))
    {
      assert s.tasks[t].rf.value * Pc(s, t) >= 0;
    }
  }

  /** With repetition factors that are not negative, every round keeps the counters in bounds. */
  lemma RoundKeepsCounts(s: State, r: URun)
    requires Ready(s) && RunOk(s, r) && FactorsNonNegative(s) && CountsOk(s, r)
    ensures Round(s, r).Go? ==> CountsOk(s, Round(s, r).run)
  {
    var f := Fired(s, Selection(s, r), r, |s.tasks|);
    FiredKeepsCounts(s, r);
    if f.Go? {
      AfterStepOneKeepsCounts(s, f.run);
    }
  }

  /** With repetition factors that are not negative, the counters stay in bounds for the whole run. */
  lemma {:induction false} RunKeepsCounts(s: State, n: nat)
    requires Ready(s) && FactorsNonNegative(s)
    ensures RunAfter(s, StartRun(s), n).Go? ==> CountsOk(s, RunAfter(s, StartRun(s), n).run)
    decreases n
  {
    if n > 0 {
      RunKeepsCounts(s, n - 1);
      var st := RunAfter(s, StartRun(s), n - 1);
      if st.Go? {
        RoundKeepsCounts(s, st.run);
      }
    }
  }

  /** No task can be chosen. */
  predicate Idle(s: State, r: URun)
    requires Ready(s) && RunOk(s, r)
  {
    forall t :: 0 <= t < |s.tasks| ==> !Selected(s, r, t)
  }

  /**
   * Without thresholds and with productions that are never negative, a run
   * that answers -1 does so after a round in which no task could be chosen.
   */
  lemma {:induction false} RunFailsOnlyWhenIdle(s: State, r: URun, n: nat)
    requires Ready(s) && RunOk(s, r) && !s.thresholded && ProductionsNonNegative(s)
    ensures RunAfter(s, r, n) == Halt(-1) ==>
      exists k :: 0 <= k < n && RunAfter(s, r, k).Go? && Idle(s, RunAfter(s, r, k).run)
    decreases n
  {
    if n > 0 {
      RunFailsOnlyWhenIdle(s, r, n - 1);
      var st := RunAfter(s, r, n - 1);
      if st.Go? {
        RoundFailsIffIdle(s, st.run);
      }
    }
  }
}
