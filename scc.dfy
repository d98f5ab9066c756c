// Tarjan's strongly connected components on the legacy graph, with the
// depth-first numbering, the low links and the stack kept as state that the
// recursive visit updates, and the variant that hides every task with a
// marked incoming arc.
module Scc {
  import opened Graph

  /** `isHided`: some arc entering `v` holds initial tokens. */
  predicate Hidden(g: Graph, v: nat) {
    exists c :: 0 <= c < |g.arcs| && g.arcs[c].tgt == v && g.arcs[c].m0 != 0
  }

  /** The scan of the arcs entering `v`. */
  method IsHidden(g: Graph, v: nat) returns (b: bool)
    ensures b == Hidden(g, v)
  {
    var ins := InArcs(g.arcs, v);
    var i := 0;
    while i < |ins|
      invariant 0 <= i <= |ins|
      invariant forall j :: 0 <= j < i ==> g.arcs[ins[j]].m0 == 0
    {
      if g.arcs[ins[i]].m0 != 0 {
        return true;
      }
      i := i + 1;
    }
    b := false;
    InArcsComplete(g.arcs, v);
    forall c | 0 <= c < |g.arcs| && g.arcs[c].tgt == v
      ensures g.arcs[c].m0 == 0
    {
      var j :| 0 <= j < |ins| && ins[j] == c;
    }
  }

  /** No task appears twice. */
  predicate Distinct(s: seq<nat>) {
    forall i, j :: 0 <= i < j < |s| ==> s[i] != s[j]
  }

  lemma DistinctSnoc(s: seq<nat>, x: nat)
    requires Distinct(s) && x !in s
    ensures Distinct(s + [x])
  {
  }

  /** The components one after the other. */
  function Flatten(sccs: seq<seq<nat>>): (r: seq<nat>)
    decreases |sccs|
  {
    if |sccs| == 0 then [] else Flatten(sccs[..|sccs| - 1]) + sccs[|sccs| - 1]
  }

  lemma {:induction false} FlattenAppend(a: seq<seq<nat>>, b: seq<seq<nat>>)
    ensures Flatten(a + b) == Flatten(a) + Flatten(b)
    decreases |b|
  {
    if |b| == 0 {
      assert a + b == a;
    } else {
      var front, last := b[..|b| - 1], b[|b| - 1];
      assert (a + b)[..|a + b| - 1] == a + front && (a + b)[|a + b| - 1] == last;
      FlattenAppend(a, front);
      AppendAssoc(Flatten(a), Flatten(front), last);
    }
  }

  /** No component is empty. */
  predicate NonEmpty(sccs: seq<seq<nat>>) {
    forall k :: 0 <= k < |sccs| ==> |sccs[k]| > 0
  }

  lemma NonEmptyAppend(a: seq<seq<nat>>, b: seq<seq<nat>>)
    requires NonEmpty(a) && NonEmpty(b)
    ensures NonEmpty(a + b)
  {
  }

  lemma AppendAssoc<T>(a: seq<T>, b: seq<T>, c: seq<T>)
    ensures (a + b) + c == a + (b + c)
  {
  }

  lemma FlattenSnoc(a: seq<seq<nat>>, x: seq<nat>)
    ensures Flatten(a + [x]) == Flatten(a) + x
  {
    assert (a + [x])[..|a|] == a;
  }

  /** A task of a component lies in that component's part of the flattened list. */
  lemma {:induction false} FlattenMember(sccs: seq<seq<nat>>, k: nat, x: nat)
    requires k < |sccs| && x in sccs[k]
    ensures exists i :: FlatStart(sccs, k) <= i < FlatStart(sccs, k) + |sccs[k]| && i < |Flatten(sccs)| && Flatten(sccs)[i] == x
    decreases |sccs|
  {
    var n := |sccs|;
    var j :| 0 <= j < |sccs[k]| && sccs[k][j] == x;
    if k == n - 1 {
      assert Flatten(sccs)[FlatStart(sccs, k) + j] == x;
    } else {
      FlattenMember(sccs[..n - 1], k, x);
      FlatStartPrefix(sccs, k);
    }
  }

  /** Where component `k` begins in the flattened list. */
  function FlatStart(sccs: seq<seq<nat>>, k: nat): (r: nat)
    requires k < |sccs|
    ensures r + |sccs[k]| <= |Flatten(sccs)|
    decreases |sccs|
  {
    if k == |sccs| - 1 then |Flatten(sccs[..|sccs| - 1])|
    else FlatStart(sccs[..|sccs| - 1], k)
  }

  lemma FlatStartPrefix(sccs: seq<seq<nat>>, k: nat)
    requires k < |sccs| - 1
    ensures FlatStart(sccs, k) == FlatStart(sccs[..|sccs| - 1], k)
    ensures Flatten(sccs)[..|Flatten(sccs[..|sccs| - 1])|] == Flatten(sccs[..|sccs| - 1])
  {
  }

  /**
   * With no task listed twice, a task lies in at most one component: the
   * "exactly one" of the partition.
   */
  lemma AtMostOneComponent(sccs: seq<seq<nat>>, k1: nat, k2: nat, x: nat)
    requires Distinct(Flatten(sccs)) && k1 < k2 < |sccs|
    ensures !(x in sccs[k1] && x in sccs[k2])
  {
    if x in sccs[k1] && x in sccs[k2] {
      FlattenMember(sccs, k1, x);
      FlattenMember(sccs, k2, x);
      var i1 :| FlatStart(sccs, k1) <= i1 < FlatStart(sccs, k1) + |sccs[k1]| && i1 < |Flatten(sccs)| && Flatten(sccs)[i1] == x;
      var i2 :| FlatStart(sccs, k2) <= i2 < FlatStart(sccs, k2) + |sccs[k2]| && i2 < |Flatten(sccs)| && Flatten(sccs)[i2] == x;
      FlatStartOrder(sccs, k1, k2);
    }
  }

  /** Earlier components come first in the flattened list. */
  lemma {:induction false} FlatStartOrder(sccs: seq<seq<nat>>, k1: nat, k2: nat)
    requires k1 < k2 < |sccs|
    ensures FlatStart(sccs, k1) + |sccs[k1]| <= FlatStart(sccs, k2)
    decreases |sccs|
  {
    var n := |sccs|;
    if k2 == n - 1 {
      FlatStartBound(sccs[..n - 1], k1);
    } else {
      FlatStartOrder(sccs[..n - 1], k1, k2);
    }
  }

  lemma FlatStartBound(sccs: seq<seq<nat>>, k: nat)
    requires k < |sccs|
    ensures FlatStart(sccs, k) + |sccs[k]| <= |Flatten(sccs)|
  {
  }

  /** The tasks popped from `s` down to position `n`, top first. */
  function Popped(s: seq<nat>, n: nat): seq<nat>
    requires n <= |s|
    decreases |s| - n
  {
    if n == |s| then [] else Popped(s, n + 1) + [s[n]]
  }

  /** The popped tasks are the part of the stack from `n` up, reversed. */
  lemma {:induction false} PoppedReversed(s: seq<nat>, n: nat)
    requires n <= |s|
    ensures |Popped(s, n)| == |s| - n
    ensures forall i :: 0 <= i < |s| - n ==> Popped(s, n)[i] == s[|s| - 1 - i]
    decreases |s| - n
  {
    if n < |s| {
      PoppedReversed(s, n + 1);
    }
  }

  /** One more task popped from the prefix `s0[..n]`. */
  lemma PopFacts(s0: seq<nat>, e0: seq<nat>, scc: seq<nat>, n: nat)
    requires 0 < n <= |s0|
    ensures s0[..n][..n - 1] == s0[..n - 1] && s0[..n][n - 1] == s0[n - 1]
    ensures Popped(s0, n - 1) == Popped(s0, n) + [s0[n - 1]]
    ensures (e0 + scc) + [s0[n - 1]] == e0 + (scc + [s0[n - 1]])
  {
  }

  function Min(a: nat, b: nat): nat { if a <= b then a else b }

  // ---------------------------------------------------------------------
  // The invariant of the search state, on values

  /** Numbered tasks are tasks of the graph, numbered below the counter, never above their link. */
  ghost predicate Numbered(g: Graph, skip: bool, index: map<nat, nat>, lowlink: map<nat, nat>, mindex: nat) {
    index.Keys == lowlink.Keys &&
    (forall x :: x in index ==> x < |g.tasks| && index[x] < mindex && lowlink[x] <= index[x]) &&
    (skip ==> forall x :: x in index ==> !Hidden(g, x))
  }

  /** Every numbered task is on the stack or already popped, never both and never popped twice. */
  ghost predicate Placed(index: map<nat, nat>, stack: seq<nat>, emitted: seq<nat>) {
    (forall x :: x in index <==> (x in stack || x in emitted)) &&
    (forall x :: x in stack ==> x !in emitted) &&
    Distinct(emitted)
  }

  /** Numbers increase up the stack; no link on the stack falls below the bottom task's number. */
  ghost predicate StackOrdered(index: map<nat, nat>, lowlink: map<nat, nat>, stack: seq<nat>) {
    (forall i :: 0 <= i < |stack| ==> stack[i] in index && stack[i] in lowlink) &&
    (forall i, j :: 0 <= i < j < |stack| ==> index[stack[i]] < index[stack[j]]) &&
    (forall i :: 0 <= i < |stack| ==> lowlink[stack[i]] >= index[stack[0]])
  }

  /** Numbering `v` and pushing it keeps the invariant. */
  lemma PushKeeps(g: Graph, skip: bool, index: map<nat, nat>, lowlink: map<nat, nat>, mindex: nat,
                  stack: seq<nat>, emitted: seq<nat>, v: nat)
    requires Numbered(g, skip, index, lowlink, mindex) && Placed(index, stack, emitted) && StackOrdered(index, lowlink, stack)
    requires v < |g.tasks| && v !in index && (skip ==> !Hidden(g, v))
    ensures Numbered(g, skip, index[v := mindex], lowlink[v := mindex], mindex + 1)
    ensures Placed(index[v := mindex], stack + [v], emitted)
    ensures StackOrdered(index[v := mindex], lowlink[v := mindex], stack + [v])
  {
    var s := stack + [v];
    var ix, ll := index[v := mindex], lowlink[v := mindex];
    assert forall i :: 0 <= i < |stack| ==> s[i] == stack[i] && s[i] != v;
    assert forall i :: 0 <= i < |s| ==> ll[s[i]] >= ix[s[0]];
  }

  /** Popping the top task keeps the invariant. */
  lemma PopKeeps(index: map<nat, nat>, lowlink: map<nat, nat>, stack: seq<nat>, emitted: seq<nat>)
    requires Placed(index, stack, emitted) && StackOrdered(index, lowlink, stack) && |stack| > 0
    ensures Placed(index, stack[..|stack| - 1], emitted + [stack[|stack| - 1]])
    ensures StackOrdered(index, lowlink, stack[..|stack| - 1])
  {
    var n := |stack|;
    var w, rest := stack[n - 1], stack[..n - 1];
    assert stack == rest + [w];
    DistinctSnoc(emitted, w);
  }

  /** Lowering the link of a stacked task to a value no lower than the bottom task's number. */
  lemma LowerKeeps(g: Graph, skip: bool, index: map<nat, nat>, lowlink: map<nat, nat>, mindex: nat,
                   stack: seq<nat>, v: nat, x: nat)
    requires Numbered(g, skip, index, lowlink, mindex) && StackOrdered(index, lowlink, stack)
    requires v in index && |stack| > 0 && x >= index[stack[0]]
    ensures Numbered(g, skip, index, lowlink[v := Min(lowlink[v], x)], mindex)
    ensures StackOrdered(index, lowlink[v := Min(lowlink[v], x)], stack)
  {
  }

  /**
   * The global state of `tarjan`: `tarjan_index`, `tarjan_lowlink`,
   * `tarjan_mindex` and the stack `tarjan_S`. With `skipHidden` it is the
   * state of `tarjanEmpty`, which never enters a hidden task.
   */
  class Tarjan {
    const g: Graph
    const skipHidden: bool
    var index: map<nat, nat>
    var lowlink: map<nat, nat>
    var mindex: nat
    var stack: seq<nat>
    /** The tasks popped so far, in popping order. */
    ghost var emitted: seq<nat>

    ghost predicate Valid()
      reads this
    {
      EndpointsOk(g) && Numbered(g, skipHidden, index, lowlink, mindex) &&
      Placed(index, stack, emitted) && StackOrdered(index, lowlink, stack)
    }

    /** The tasks not numbered yet: the visit's termination measure. */
    ghost function Unvisited(): set<nat>
      reads this
    {
      set x | 0 <= x < |g.tasks| && x !in index
    }

    constructor (g0: Graph, skip: bool)
      requires EndpointsOk(g0)
      ensures Valid() && g == g0 && skipHidden == skip
      ensures index == map[] && lowlink == map[] && mindex == 0 && stack == [] && emitted == []
    {
      g := g0;
      skipHidden := skip;
      index := map[];
      lowlink := map[];
      mindex := 0;
      stack := [];
      emitted := [];
    }

    /** The start of `strongconnect`: number `v` and push it. */
    method Push(v: nat)
      requires Valid() && v < |g.tasks| && v !in index && (skipHidden ==> !Hidden(g, v))
      modifies this
      ensures Valid()
      ensures index == old(index)[v := old(mindex)] && lowlink == old(lowlink)[v := old(mindex)]
      ensures mindex == old(mindex) + 1 && stack == old(stack) + [v] && emitted == old(emitted)
    {
      PushKeeps(g, skipHidden, index, lowlink, mindex, stack, emitted, v);
      index := index[v := mindex];
      lowlink := lowlink[v := mindex];
      mindex := mindex + 1;
      stack := stack + [v];
    }

    /** `tarjan_lowlink[V] = min(tarjan_lowlink[V], x)`, for a bound no lower than the bottom task's number. */
    method Lower(v: nat, x: nat)
      requires Valid() && v in index && |stack| > 0 && x >= index[stack[0]]
      modifies this
      ensures Valid() && lowlink == old(lowlink)[v := Min(old(lowlink)[v], x)]
      ensures index == old(index) && mindex == old(mindex) && stack == old(stack) && emitted == old(emitted)
    {
      LowerKeeps(g, skipHidden, index, lowlink, mindex, stack, v, x);
      lowlink := lowlink[v := Min(lowlink[v], x)];
    }

    /**
     * The end of `strongconnect` when `v` is a root: pop down to and
     * including `v`, which sits at position `p`.
     */
    method PopComponent(v: nat, ghost p: nat) returns (scc: seq<nat>)
      requires Valid() && p < |stack| && stack[p] == v
      modifies this
      ensures Valid()
      ensures stack == old(stack)[..p] && scc == Popped(old(stack), p)
      ensures emitted == old(emitted) + scc
      ensures index == old(index) && lowlink == old(lowlink) && mindex == old(mindex)
    {
      ghost var s0, e0 := stack, emitted;
      var w := PopStep(v, p, s0, e0, []);
      scc := [w];
      while w != v
        invariant Valid() && index == old(index) && lowlink == old(lowlink) && mindex == old(mindex)
        invariant p < |s0| && s0[p] == v && p <= |stack| <= |s0|
        invariant stack == s0[..|stack|] && scc == Popped(s0, |stack|) && emitted == e0 + scc
        invariant w == v <==> |stack| == p
        decreases |stack|
      {
        w := PopStep(v, p, s0, e0, scc);
        scc := scc + [w];
      }
    }

    /** One round of the popping loop, with the facts about the popped prefix. */
    method PopStep(v: nat, ghost p: nat, ghost s0: seq<nat>, ghost e0: seq<nat>, ghost scc: seq<nat>) returns (w: nat)
      requires Valid() && p < |stack| <= |s0| && s0[p] == v
      requires stack == s0[..|stack|] && scc == Popped(s0, |stack|) && emitted == e0 + scc
      modifies this
      ensures Valid() && index == old(index) && lowlink == old(lowlink) && mindex == old(mindex)
      ensures |stack| == |old(stack)| - 1 && stack == s0[..|stack|]
      ensures scc + [w] == Popped(s0, |stack|) && emitted == e0 + (scc + [w])
      ensures w == v <==> |stack| == p
    {
      ghost var n := |stack|;
      IsRoot(v, p);
      PopFacts(s0, e0, scc, n);
      w := PopOne();
    }

    /** In the popping loop, the top task is `v` exactly when it sits at `p`. */
    lemma IsRoot(v: nat, p: nat)
      requires Valid() && p < |stack| && stack[p] == v
      ensures stack[|stack| - 1] == v <==> |stack| - 1 == p
    {
      if |stack| - 1 != p {
        assert index[stack[p]] < index[stack[|stack| - 1]];
      }
    }

    /** One `tarjan_S.pop()`: the top task moves from the stack to the popped tasks. */
    method PopOne() returns (w: nat)
      requires Valid() && |stack| > 0
      modifies this
      ensures Valid() && w == old(stack)[|old(stack)| - 1]
      ensures stack == old(stack)[..|old(stack)| - 1] && emitted == old(emitted) + [w]
      ensures index == old(index) && lowlink == old(lowlink) && mindex == old(mindex)
    {
      PopKeeps(index, lowlink, stack, emitted);
      w := stack[|stack| - 1];
      stack := stack[..|stack| - 1];
      emitted := emitted + [w];
    }

    /**
     * `strongconnect(G, V)` (or `strongconnectEmpty`): number `v`, visit its
     * successors, lower its link, and pop its component when it is a root.
     * Tasks numbered before keep their number and link; the part of the
     * stack below `v` is left alone.
     */
    method StrongConnect(v: nat) returns (sccs: seq<seq<nat>>)
      requires Valid() && v < |g.tasks| && v !in index && (skipHidden ==> !Hidden(g, v))
      modifies this
      decreases Unvisited(), 0
      ensures Valid() && v in index && Unvisited() <= old(Unvisited())
      ensures old(stack) <= stack
      ensures stack == old(stack) || (|stack| > |old(stack)| && stack[|old(stack)|] == v && lowlink[v] < index[v])
      ensures |old(stack)| > 0 ==> lowlink[v] >= index[old(stack)[0]]
      ensures emitted == old(emitted) + Flatten(sccs)
      ensures NonEmpty(sccs)
    {
      ghost var p := |stack|;
      ghost var u0 := Unvisited();
      Push(v);
      assert v in u0 && v !in Unvisited();
      assert Unvisited() <= u0;
      sccs := VisitSuccessors(v, p, old(emitted));
      ghost var s2 := stack;
      assert s2[..p] == old(stack) && s2[p] == v;
      assert p > 0 ==> lowlink[v] >= index[s2[0]] && s2[0] == old(stack)[0];
      sccs := FinishVertex(v, p, sccs, old(emitted));
    }

    /** The loop of `strongconnect` over the arcs leaving `v`, in arc order. */
    method VisitSuccessors(v: nat, ghost p: nat, ghost e0: seq<nat>) returns (sccs: seq<seq<nat>>)
      requires Valid() && v in index && p < |stack| && stack[p] == v && emitted == e0
      modifies this
      decreases Unvisited(), 2
      ensures Valid() && v in index && Unvisited() <= old(Unvisited())
      ensures old(stack) <= stack && p < |stack| && stack[p] == v
      ensures emitted == e0 + Flatten(sccs) && NonEmpty(sccs)
    {
      sccs := [];
      var outs := OutArcs(g.arcs, v);
      var k := 0;
      while k < |outs|
        invariant Valid() && v in index
        invariant old(stack) <= stack && p < |stack| && stack[p] == v
        invariant emitted == e0 + Flatten(sccs) && NonEmpty(sccs)
        invariant Unvisited() <= old(Unvisited())
      {
        sccs := VisitArc(v, p, outs[k], sccs, e0);
        k := k + 1;
      }
    }

    /** The end of `strongconnect`: a root pops its component and appends it to the result. */
    method FinishVertex(v: nat, ghost p: nat, sccs0: seq<seq<nat>>, ghost e0: seq<nat>) returns (sccs: seq<seq<nat>>)
      requires Valid() && v in index && p < |stack| && stack[p] == v
      requires emitted == e0 + Flatten(sccs0) && NonEmpty(sccs0)
      modifies this
      ensures Valid() && index == old(index) && lowlink == old(lowlink) && mindex == old(mindex)
      ensures stack == if lowlink[v] == index[v] then old(stack)[..p] else old(stack)
      ensures emitted == e0 + Flatten(sccs) && NonEmpty(sccs)
    {
      sccs := sccs0;
      if lowlink[v] == index[v] {
        var scc := PopComponent(v, p);
        FlattenSnoc(sccs, scc);
        AppendAssoc(e0, Flatten(sccs), scc);
        NonEmptyAppend(sccs, [scc]);
        sccs := sccs + [scc];
      }
    }

    /**
     * One arc `v -> w` of the loop of `strongconnect`: skip a hidden `w`
     * (`strongconnectEmpty` only), visit an unnumbered `w` and take its
     * link, or take the number of a `w` still on the stack.
     */
    method VisitArc(v: nat, ghost p: nat, c: nat, sccs0: seq<seq<nat>>, ghost e0: seq<nat>) returns (sccs: seq<seq<nat>>)
      requires Valid() && c < |g.arcs| && g.arcs[c].src == v && p < |stack| && stack[p] == v
      requires emitted == e0 + Flatten(sccs0) && NonEmpty(sccs0)
      modifies this
      decreases Unvisited(), 1
      ensures Valid() && Unvisited() <= old(Unvisited())
      ensures old(stack) <= stack
      ensures emitted == e0 + Flatten(sccs) && NonEmpty(sccs)
    {
      sccs := sccs0;
      var w := g.arcs[c].tgt;
      var hid := false;
      if skipHidden {
        hid := IsHidden(g, w);
      }
      if !hid {
        if w !in index {
          ghost var s1 := stack;
          var sub := StrongConnect(w);
          FlattenAppend(sccs, sub);
          AppendAssoc(e0, Flatten(sccs), Flatten(sub));
          NonEmptyAppend(sccs, sub);
          sccs := sccs + sub;
          assert stack[0] == s1[0];
          Lower(v, lowlink[w]);
        } else if w in stack {
          var i :| 0 <= i < |stack| && stack[i] == w;
          assert index[stack[0]] <= index[w];
          Lower(v, index[w]);
        }
      }
    }
  }

  /**
   * `tarjan` (`skipHidden` false) and `tarjanEmpty` (`skipHidden` true):
   * visit every task not numbered yet, in task order, and concatenate the
   * components found.
   */
  method Components(g: Graph, skipHidden: bool) returns (sccs: seq<seq<nat>>)
    requires EndpointsOk(g)
    ensures Distinct(Flatten(sccs))
    ensures forall x: nat :: x in Flatten(sccs) <==> x < |g.tasks| && (skipHidden ==> !Hidden(g, x))
    ensures NonEmpty(sccs)
  {
    var t := new Tarjan(g, skipHidden);
    sccs := [];
    var v := 0;
    while v < |g.tasks|
      invariant 0 <= v <= |g.tasks| && t.Valid() && t.g == g && t.skipHidden == skipHidden
      invariant t.stack == [] && t.emitted == Flatten(sccs)
      invariant forall x :: 0 <= x < v && (skipHidden ==> !Hidden(g, x)) ==> x in t.index
      invariant NonEmpty(sccs)
      modifies t
    {
      var hid := false;
      if skipHidden {
        hid := IsHidden(g, v);
      }
      if !hid && v !in t.index {
        var s := t.StrongConnect(v);
        FlattenAppend(sccs, s);
        NonEmptyAppend(sccs, s);
        sccs := sccs + s;
      }
      v := v + 1;
    }
    assert forall x :: x in t.index <==> x in t.emitted;
  }
}
