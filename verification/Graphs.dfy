/**
 The analysis graph: a list of states, each derived from earlier ones, with transitions and covering pairs
 between them.  States are numbered by their position, and deleting one deletes what depends on it.
 */
module Graphs {

  class Node {
    var id: int
    var pred: Node?
    var joinOf: seq<Node>
    var prov: Provenance

    constructor (joinOf: seq<Node>)
      ensures pred == null && this.joinOf == joinOf && prov == NoProv
    {
      id, pred, this.joinOf, prov := 0, null, joinOf, NoProv;
    }
  }

  datatype Provenance = NoProv | ActionApp(arg: Node) | StateJoin(args: seq<Node>)

  datatype Transition = Transition(pre: Node, action: string, post: Node)

  datatype CoveringPair = CoveringPair(covered: Node, covering: Node)

  /** The states that a state was derived from. */
  function Dependencies(s: Node): seq<Node>
    reads s`pred, s`joinOf
  {
    if s.pred != null then [s.pred] else s.joinOf
  }

  // ----- what depends on a state -----

  /** The state at i depends on the one at k, through any number of dependencies on earlier states. */
  ghost predicate Doomed(ss: seq<Node>, i: nat, k: nat)
    requires i < |ss|
    reads ss`pred, ss`joinOf
    decreases i
  {
    i == k || exists j: nat :: j < i && ss[j] in Dependencies(ss[i]) && Doomed(ss, j, k)
  }

  /** A path of dependencies from the state at i down to the one at k. */
  ghost predicate DependencyPath(ss: seq<Node>, path: seq<nat>, i: nat, k: nat)
    reads ss`pred, ss`joinOf
  {
    && |path| > 0 && path[0] == i && path[|path| - 1] == k
    && (forall n :: 0 <= n < |path| ==> path[n] < |ss|)
    && forall n :: 0 <= n < |path| - 1 ==> path[n + 1] < path[n] && ss[path[n + 1]] in Dependencies(ss[path[n]])
  }

  lemma {:induction false} DoomedPath(ss: seq<Node>, i: nat, k: nat)
    requires i < |ss|
    ensures Doomed(ss, i, k) <==> exists path: seq<nat> :: DependencyPath(ss, path, i, k)
    decreases i
  {
    if i == k {
      assert DependencyPath(ss, [i], i, k);
    } else if Doomed(ss, i, k) {
      var j: nat :| j < i && ss[j] in Dependencies(ss[i]) && Doomed(ss, j, k);
      DoomedPath(ss, j, k);
      var path: seq<nat> :| DependencyPath(ss, path, j, k);
      var longer := [i] + path;
      assert forall n :: 0 < n < |longer| ==> longer[n] == path[n - 1];
      assert DependencyPath(ss, longer, i, k);
    }
    forall path: seq<nat> | DependencyPath(ss, path, i, k)
      ensures Doomed(ss, i, k)
    {
      PathDooms(ss, path, i, k);
    }
  }

  lemma {:induction false} PathDooms(ss: seq<Node>, path: seq<nat>, i: nat, k: nat)
    requires i < |ss| && DependencyPath(ss, path, i, k)
    ensures Doomed(ss, i, k)
    decreases |path|
  {
    if |path| > 1 {
      var j := path[1];
      assert ss[path[0 + 1]] in Dependencies(ss[path[0]]);
      forall n | 0 <= n < |path| - 2
        ensures path[1..][n + 1] < path[1..][n] && ss[path[1..][n + 1]] in Dependencies(ss[path[1..][n]])
      {
        assert path[(n + 1) + 1] < path[n + 1];
      }
      PathDooms(ss, path[1..], j, k);
    }
  }

  lemma {:induction false} NotBefore(ss: seq<Node>, i: nat, k: nat)
    requires i < |ss| && i < k
    ensures !Doomed(ss, i, k)
    decreases i
  {
    forall j: nat | j < i ensures !Doomed(ss, j, k) { NotBefore(ss, j, k); }
  }

  lemma DoomedSelf(ss: seq<Node>, k: nat)
    requires k < |ss|
    ensures Doomed(ss, k, k)
  {
  }

  lemma DoomedBy(ss: seq<Node>, i: nat, k: nat)
    requires i < |ss|
    ensures Doomed(ss, i, k) <==> i == k || exists j: nat :: j < i && ss[j] in Dependencies(ss[i]) && Doomed(ss, j, k)
  {
  }

  lemma NoneBefore(ss: seq<Node>, k: nat)
    ensures forall i: nat :: i < |ss| && i < k ==> !Doomed(ss, i, k)
  {
    forall i: nat | i < |ss| && i < k ensures !Doomed(ss, i, k) { NotBefore(ss, i, k); }
  }

  ghost function DoomedSet(ss: seq<Node>, k: nat): set<Node>
    reads ss`pred, ss`joinOf
  {
    set i | 0 <= i < |ss| && Doomed(ss, i, k) :: ss[i]
  }

  /** What the removal relies on: whatever depends on something doomed is doomed. */
  lemma DoomedAll(ss: seq<Node>, k: nat)
    requires Distinct(ss) && Earlier(ss)
    ensures forall i: nat :: i < |ss| ==> (ss[i] in DoomedSet(ss, k) <==> Doomed(ss, i, k))
    ensures ClosedUnder(ss, DoomedSet(ss, k))
  {
    forall i, n | 0 <= i < |ss| && 0 <= n < |Dependencies(ss[i])| && Dependencies(ss[i])[n] in DoomedSet(ss, k)
      ensures ss[i] in DoomedSet(ss, k)
    {
      var d := Dependencies(ss[i])[n];
      var j: nat :| j < i && ss[..i][j] == d;
      assert ss[j] == d && d in Dependencies(ss[i]);
      assert Doomed(ss, j, k);
      assert Doomed(ss, i, k);
    }
  }

  // ----- keeping some of the elements of a list -----

  /** ys reads xs at these positions, from the first to the last. */
  predicate ReadAt<T(==)>(xs: seq<T>, ys: seq<T>, at: seq<nat>)
  {
    && |at| == |ys| && (forall i, j :: 0 <= i < j < |at| ==> at[i] < at[j])
    && forall i :: 0 <= i < |at| ==> at[i] < |xs| && ys[i] == xs[at[i]]
  }

  lemma ReadMore<T>(xs: seq<T>, ys: seq<T>, at: seq<nat>, x: T)
    requires ReadAt(xs, ys, at)
    ensures ReadAt(xs + [x], ys, at) && ReadAt(xs + [x], ys + [x], at + [|xs|])
  {
  }

  /** The elements that are kept are those at the positions of what stays, in their order and each once. */
  lemma {:induction false} KeepAt(ss: seq<Node>, gone: set<Node>) returns (at: seq<nat>)
    ensures ReadAt(ss, Keep(ss, gone), at)
    ensures forall i: nat :: i < |ss| ==> (i in at <==> ss[i] !in gone)
  {
    at := [];
    if ss != [] {
      var n := |ss| - 1;
      var init := ss[..n];
      at := KeepAt(init, gone);
      ReadMore(init, Keep(init, gone), at, ss[n]);
      assert ss == init + [ss[n]];
      if ss[n] !in gone { at := at + [n]; }
    }
  }

  lemma {:induction false} KeepTransitionsAt(ts: seq<Transition>, gone: set<Node>) returns (at: seq<nat>)
    ensures ReadAt(ts, KeepTransitions(ts, gone), at)
    ensures forall i: nat :: i < |ts| ==> (i in at <==> ts[i].pre !in gone && ts[i].post !in gone)
  {
    at := [];
    if ts != [] {
      var n := |ts| - 1;
      var init := ts[..n];
      at := KeepTransitionsAt(init, gone);
      ReadMore(init, KeepTransitions(init, gone), at, ts[n]);
      assert ts == init + [ts[n]];
      if ts[n].pre !in gone && ts[n].post !in gone { at := at + [n]; }
    }
  }

  lemma {:induction false} KeepCoveringAt(cs: seq<CoveringPair>, gone: set<Node>) returns (at: seq<nat>)
    ensures ReadAt(cs, KeepCovering(cs, gone), at)
    ensures forall i: nat :: i < |cs| ==> (i in at <==> cs[i].covered !in gone && cs[i].covering !in gone)
  {
    at := [];
    if cs != [] {
      var n := |cs| - 1;
      var init := cs[..n];
      at := KeepCoveringAt(init, gone);
      ReadMore(init, KeepCovering(init, gone), at, cs[n]);
      assert cs == init + [cs[n]];
      if cs[n].covered !in gone && cs[n].covering !in gone { at := at + [n]; }
    }
  }

  /** The states, transitions and coverings that have nothing to do with what is gone, in their order and each once. */
  ghost predicate Without(gone: set<Node>, ss: seq<Node>, ts: seq<Transition>, cs: seq<CoveringPair>,
                          ss': seq<Node>, ts': seq<Transition>, cs': seq<CoveringPair>)
  {
    && (exists at :: ReadAt(ss, ss', at) && forall i: nat :: i < |ss| ==> (i in at <==> ss[i] !in gone))
    && (exists at :: ReadAt(ts, ts', at) &&
          forall i: nat :: i < |ts| ==> (i in at <==> ts[i].pre !in gone && ts[i].post !in gone))
    && exists at :: ReadAt(cs, cs', at) &&
         forall i: nat :: i < |cs| ==> (i in at <==> cs[i].covered !in gone && cs[i].covering !in gone)
  }

  lemma KeptWithout(gone: set<Node>, ss: seq<Node>, ts: seq<Transition>, cs: seq<CoveringPair>)
    ensures Without(gone, ss, ts, cs, Keep(ss, gone), KeepTransitions(ts, gone), KeepCovering(cs, gone))
  {
    hide Keep, KeepTransitions, KeepCovering, ReadAt;
    var a := KeepAt(ss, gone);
    var b := KeepTransitionsAt(ts, gone);
    var c := KeepCoveringAt(cs, gone);
  }

  function Keep(ss: seq<Node>, gone: set<Node>): (r: seq<Node>)
    ensures |r| <= |ss|
    ensures forall i :: 0 <= i < |r| ==> r[i] in ss && r[i] !in gone
    ensures forall i :: 0 <= i < |ss| && ss[i] !in gone ==> ss[i] in r
  {
    if ss == [] then [] else
    var last := ss[|ss| - 1];
    assert ss == ss[..|ss| - 1] + [last];
    if last in gone then Keep(ss[..|ss| - 1], gone) else Keep(ss[..|ss| - 1], gone) + [last]
  }

  function KeepTransitions(ts: seq<Transition>, gone: set<Node>): (r: seq<Transition>)
    ensures forall i :: 0 <= i < |r| ==> r[i] in ts && r[i].pre !in gone && r[i].post !in gone
    ensures forall i :: 0 <= i < |ts| && ts[i].pre !in gone && ts[i].post !in gone ==> ts[i] in r
  {
    if ts == [] then [] else
    var last := ts[|ts| - 1];
    assert ts == ts[..|ts| - 1] + [last];
    var r := KeepTransitions(ts[..|ts| - 1], gone);
    if last.pre in gone || last.post in gone then r else r + [last]
  }

  function KeepCovering(cs: seq<CoveringPair>, gone: set<Node>): (r: seq<CoveringPair>)
    ensures forall i :: 0 <= i < |r| ==> r[i] in cs && r[i].covered !in gone && r[i].covering !in gone
    ensures forall i :: 0 <= i < |cs| && cs[i].covered !in gone && cs[i].covering !in gone ==> cs[i] in r
  {
    if cs == [] then [] else
    var last := cs[|cs| - 1];
    assert cs == cs[..|cs| - 1] + [last];
    var r := KeepCovering(cs[..|cs| - 1], gone);
    if last.covered in gone || last.covering in gone then r else r + [last]
  }

  predicate Distinct(ss: seq<Node>)
  {
    forall i, j :: 0 <= i < j < |ss| ==> ss[i] != ss[j]
  }

  lemma DistinctAt(ss: seq<Node>, i: nat)
    requires Distinct(ss) && i < |ss|
    ensures forall j :: 0 <= j < |ss| && j != i ==> ss[j] != ss[i]
  {
  }

  /** Dependencies come earlier in the list. */
  predicate Earlier(ss: seq<Node>)
    reads ss`pred, ss`joinOf
  {
    forall i, k :: 0 <= i < |ss| && 0 <= k < |Dependencies(ss[i])| ==> Dependencies(ss[i])[k] in ss[..i]
  }

  lemma {:induction false} KeepDistinct(ss: seq<Node>, gone: set<Node>)
    requires Distinct(ss)
    ensures Distinct(Keep(ss, gone))
  {
    if ss != [] {
      KeepDistinct(ss[..|ss| - 1], gone);
      assert ss[|ss| - 1] !in ss[..|ss| - 1];
    }
  }

  /** If nothing kept depends on something gone, dependencies of the kept states still come earlier. */
  lemma {:induction false} KeepEarlier(ss: seq<Node>, gone: set<Node>)
    requires Earlier(ss) && ClosedUnder(ss, gone)
    ensures Earlier(Keep(ss, gone))
  {
    if ss != [] {
      var n := |ss| - 1;
      var init := ss[..n];
      forall i, k | 0 <= i < |init| && 0 <= k < |Dependencies(init[i])|
        ensures Dependencies(init[i])[k] in init[..i]
      {
        assert ss[i] == init[i] && ss[..i] == init[..i];
      }
      KeepEarlier(init, gone);
      var r, r' := Keep(ss, gone), Keep(init, gone);
      forall i, k | 0 <= i < |r| && 0 <= k < |Dependencies(r[i])|
        ensures Dependencies(r[i])[k] in r[..i]
      {
        if i < |r'| {
          assert r[i] == r'[i] && r[..i] == r'[..i];
        } else {
          assert r[i] == ss[n] && Dependencies(ss[n])[k] in ss[..n] && r[..i] == r';
        }
      }
    }
  }

  // ----- covering -----

  ghost predicate CoveredDirectly(cs: seq<CoveringPair>, s: Node)
  {
    exists c :: c in cs && c.covered == s
  }

  /** The state at i, or one that it was reached from by actions, is covered. */
  ghost predicate CoveredAt(ss: seq<Node>, cs: seq<CoveringPair>, i: nat)
    requires i < |ss|
    reads ss`prov
    decreases i
  {
    || CoveredDirectly(cs, ss[i])
    || (ss[i].prov.ActionApp? && exists j: nat :: j < i && ss[j] == ss[i].prov.arg && CoveredAt(ss, cs, j))
  }

  /** The positions met going back from i by actions. */
  ghost predicate ActionChain(ss: seq<Node>, path: seq<nat>, i: nat)
    reads ss`prov
  {
    && |path| > 0 && path[0] == i && (forall n :: 0 <= n < |path| ==> path[n] < |ss|)
    && forall n :: 0 <= n < |path| - 1 ==>
         path[n + 1] < path[n] && ss[path[n]].prov == ActionApp(ss[path[n + 1]])
  }

  ghost predicate CoveredChain(ss: seq<Node>, cs: seq<CoveringPair>, path: seq<nat>, i: nat)
    reads ss`prov
  {
    ActionChain(ss, path, i) && CoveredDirectly(cs, ss[path[|path| - 1]])
  }

  lemma {:induction false} CoveredOnChain(ss: seq<Node>, cs: seq<CoveringPair>, i: nat)
    requires i < |ss|
    ensures CoveredAt(ss, cs, i) <==> exists path: seq<nat> :: CoveredChain(ss, cs, path, i)
    decreases i
  {
    hide CoveredDirectly;
    if CoveredDirectly(cs, ss[i]) {
      assert CoveredChain(ss, cs, [i], i);
    } else if CoveredAt(ss, cs, i) {
      var j: nat :| j < i && ss[j] == ss[i].prov.arg && CoveredAt(ss, cs, j);
      CoveredOnChain(ss, cs, j);
      var path: seq<nat> :| CoveredChain(ss, cs, path, j);
      var longer := [i] + path;
      assert forall n :: 0 < n < |longer| ==> longer[n] == path[n - 1];
      assert CoveredChain(ss, cs, longer, i);
    }
    forall path: seq<nat> | CoveredChain(ss, cs, path, i)
      ensures CoveredAt(ss, cs, i)
    {
      ChainCovers(ss, cs, path, i);
    }
  }

  lemma {:induction false} ChainCovers(ss: seq<Node>, cs: seq<CoveringPair>, path: seq<nat>, i: nat)
    requires i < |ss| && CoveredChain(ss, cs, path, i)
    ensures CoveredAt(ss, cs, i)
    decreases |path|
  {
    hide CoveredDirectly;
    if |path| > 1 {
      assert ss[path[0]].prov == ActionApp(ss[path[0 + 1]]);
      forall n | 0 <= n < |path| - 2
        ensures path[1..][n + 1] < path[1..][n] && ss[path[1..][n]].prov == ActionApp(ss[path[1..][n + 1]])
      {
        assert path[(n + 1) + 1] < path[n + 1];
      }
      ChainCovers(ss, cs, path[1..], path[1]);
    }
  }

  ghost predicate JoinOperand(ss: seq<Node>, s: Node)
    reads ss`prov
  {
    exists i :: 0 <= i < |ss| && ss[i].prov.StateJoin? && s in ss[i].prov.args
  }

  /** The states that are covered through their action chain or joined into another. */
  ghost function NotOpen(ss: seq<Node>, cs: seq<CoveringPair>): set<Node>
    reads ss`prov
  {
    set i | 0 <= i < |ss| && (CoveredAt(ss, cs, i) || JoinOperand(ss, ss[i])) :: ss[i]
  }

  // ----- what holds of a graph -----

  ghost predicate Numbered(ss: seq<Node>)
    reads ss`id
  {
    forall i :: 0 <= i < |ss| ==> ss[i].id == i
  }

  /** Transitions and covering pairs are between states of the graph. */
  ghost predicate Inside(ss: seq<Node>, ts: seq<Transition>, cs: seq<CoveringPair>)
  {
    TransitionsInside(ss, ts) && CoveringInside(ss, cs)
  }

  ghost predicate TransitionsInside(ss: seq<Node>, ts: seq<Transition>)
  {
    forall i :: 0 <= i < |ts| ==> ts[i].pre in ss && ts[i].post in ss
  }

  ghost predicate CoveringInside(ss: seq<Node>, cs: seq<CoveringPair>)
  {
    forall i :: 0 <= i < |cs| ==> cs[i].covered in ss && cs[i].covering in ss
  }

  /** Provenance and dependencies of a state tell the same. */
  predicate Derived(s: Node)
    reads s`pred, s`joinOf, s`prov
  {
    && (s.prov.ActionApp? ==> s.pred == s.prov.arg)
    && (s.prov.StateJoin? ==> s.pred == null && s.joinOf == s.prov.args)
  }

  /** No state occurs twice, dependencies come earlier, and provenance tells the same as they do. */
  ghost predicate WellDerived(ss: seq<Node>)
    reads ss`pred, ss`joinOf, ss`prov
  {
    Distinct(ss) && Earlier(ss) && forall i :: 0 <= i < |ss| ==> Derived(ss[i])
  }

  /** The marked states are those in the set. */
  ghost predicate MarkedAs(ss: seq<Node>, gone: set<Node>)
    reads ss`id
  {
    forall i :: 0 <= i < |ss| ==> (ss[i].id == -1 <==> ss[i] in gone)
  }

  ghost predicate HasMarked(ss: seq<Node>)
    reads ss`id
  {
    exists i :: 0 <= i < |ss| && ss[i].id == -1
  }

  /** Nothing outside the set depends on something in it. */
  ghost predicate ClosedUnder(ss: seq<Node>, gone: set<Node>)
    reads ss`pred, ss`joinOf
  {
    forall i, k :: 0 <= i < |ss| && ss[i] !in gone && 0 <= k < |Dependencies(ss[i])| ==> Dependencies(ss[i])[k] !in gone
  }

  lemma KeptDistinct(ss: seq<Node>)
    requires WellDerived(ss)
    ensures Distinct(ss)
  {
  }

  lemma KeepWell(ss: seq<Node>, gone: set<Node>)
    requires WellDerived(ss) && ClosedUnder(ss, gone)
    ensures WellDerived(Keep(ss, gone)) && Distinct(Keep(ss, gone))
  {
    hide Keep, Distinct, Earlier;
    KeepDistinct(ss, gone);
    KeepEarlier(ss, gone);
    var r := Keep(ss, gone);
    forall i | 0 <= i < |r|
      ensures Derived(r[i])
    {
      var j :| 0 <= j < |ss| && ss[j] == r[i];
    }
  }

  lemma KeepInside(ss: seq<Node>, ts: seq<Transition>, cs: seq<CoveringPair>, gone: set<Node>)
    requires Inside(ss, ts, cs)
    ensures Inside(Keep(ss, gone), KeepTransitions(ts, gone), KeepCovering(cs, gone))
  {
    hide Keep, KeepTransitions, KeepCovering;
    var ks := KeepTransitions(ts, gone);
    forall i | 0 <= i < |ks|
      ensures ks[i].pre in Keep(ss, gone) && ks[i].post in Keep(ss, gone)
    {
      var j :| 0 <= j < |ts| && ts[j] == ks[i];
      InKeep(ss, gone, ks[i].pre);
      InKeep(ss, gone, ks[i].post);
    }
    var kc := KeepCovering(cs, gone);
    forall i | 0 <= i < |kc|
      ensures kc[i].covered in Keep(ss, gone) && kc[i].covering in Keep(ss, gone)
    {
      var j :| 0 <= j < |cs| && cs[j] == kc[i];
      InKeep(ss, gone, kc[i].covered);
      InKeep(ss, gone, kc[i].covering);
    }
  }

  lemma InKeep(ss: seq<Node>, gone: set<Node>, s: Node)
    requires s in ss && s !in gone
    ensures s in Keep(ss, gone)
  {
    hide Keep;
    var i :| 0 <= i < |ss| && ss[i] == s;
  }

  // ----- the graph -----

  class AnalysisGraph {
    var states: seq<Node>
    var transitions: seq<Transition>
    var covering: seq<CoveringPair>

    constructor ()
      ensures Valid() && states == [] && transitions == [] && covering == []
    {
      states, transitions, covering := [], [], [];
    }

    ghost predicate Valid()
      reads this, states
    {
      WellDerived(states) && Numbered(states) && Inside(states, transitions, covering)
    }

    /** Adds a state with what it was derived from, and a transition from each of its sources. */
    method Add(state: Node, prov: Provenance, action: string)
      requires Valid() && state !in states
      requires prov.NoProv? ==>
                 state.prov == NoProv && forall k :: 0 <= k < |Dependencies(state)| ==> Dependencies(state)[k] in states
      requires prov.ActionApp? ==> prov.arg in states && (state.pred == null || state.pred == prov.arg)
      requires prov.StateJoin? ==>
                 && state.pred == null && state.joinOf == prov.args
                 && forall k :: 0 <= k < |prov.args| ==> prov.args[k] in states
      modifies this, state
      ensures Valid()
      ensures states == old(states) + [state] && state.id == |old(states)|
      ensures covering == old(covering) && state.joinOf == old(state.joinOf)
      ensures state.prov == if prov.NoProv? then old(state.prov) else prov
      ensures state.pred == if prov.ActionApp? && old(state.pred) == null then prov.arg else old(state.pred)
      ensures match prov
              case NoProv => transitions == old(transitions)
              case ActionApp(a) => transitions == old(transitions) + [Transition(a, action, state)]
              case StateJoin(args) =>
                && |transitions| == |old(transitions)| + |args| && old(transitions) == transitions[..|old(transitions)|]
                && forall i :: 0 <= i < |args| ==>
                     transitions[|old(transitions)| + i] == Transition(args[i], "join", state)
    {
      hide WellDerived, Inside, Numbered;
      ghost var before := states;
      state.id := |states|;
      states := states + [state];
      match prov {
        case NoProv =>
        case ActionApp(a) =>
          state.prov := prov;
          if state.pred == null { state.pred := a; }
          transitions := transitions + [Transition(a, action, state)];
        case StateJoin(args) =>
          state.prov := prov;
          transitions := JoinInto(transitions, args, state);
          JoinedInside(args, state);
      }
      AddedLast(before, state);
      AddedNumber(before, state);
      AddedInside(before, old(transitions), covering, state, transitions);
    }

    /** The transitions with one from each operand of a join added. */
    static method JoinInto(ts: seq<Transition>, args: seq<Node>, state: Node) returns (r: seq<Transition>)
      ensures r == ts + JoinTransitions(args, state)
      ensures forall i :: 0 <= i < |r| ==> r[i] in ts || (r[i].pre in args && r[i].post == state)
    {
      r := ts;
      for i := 0 to |args|
        invariant r == ts + JoinTransitions(args[..i], state)
      {
        assert args[..i + 1][..i] == args[..i];
        r := r + [Transition(args[i], "join", state)];
      }
      assert args[..|args|] == args;
      JoinedInside(args, state);
    }

    /** Removes the states that are marked by the number -1, and everything that refers to them. */
    method RemoveMarkedStates(ghost gone: set<Node>)
      requires WellDerived(states) && Inside(states, transitions, covering)
      requires MarkedAs(states, gone) && ClosedUnder(states, gone)
      modifies this, states`id
      ensures Valid()
      ensures Without(gone, old(states), old(transitions), old(covering), states, transitions, covering)
    {
      KeptWithout(gone, states, transitions, covering);
      hide WellDerived, Distinct, TransitionsInside, CoveringInside, Numbered, MarkedAs, ClosedUnder, Keep,
        KeepTransitions, KeepCovering, Without;
      ghost var all := states;
      KeepWell(states, gone);
      KeepInside(states, transitions, covering, gone);
      var kept := KeptStates(gone);
      states := kept;
      Renumber(all, gone);
      var keptT := KeptTransitions(gone, all);
      transitions := keptT;
      var keptC := KeptCovering(gone, all);
      covering := keptC;
    }

    method KeptStates(ghost gone: set<Node>) returns (kept: seq<Node>)
      requires MarkedAs(states, gone)
      ensures kept == Keep(states, gone)
    {
      kept := [];
      for i := 0 to |states|
        invariant kept == Keep(states[..i], gone)
      {
        assert states[..i + 1][..i] == states[..i];
        if states[i].id != -1 {
          kept := kept + [states[i]];
        }
      }
      assert states[..|states|] == states;
    }

    method KeptTransitions(ghost gone: set<Node>, ghost all: seq<Node>) returns (kept: seq<Transition>)
      requires MarkedAs(all, gone) && TransitionsInside(all, transitions)
      ensures kept == KeepTransitions(transitions, gone)
    {
      kept := [];
      for i := 0 to |transitions|
        invariant kept == KeepTransitions(transitions[..i], gone)
      {
        assert transitions[..i + 1][..i] == transitions[..i];
        assert transitions[i] in transitions;
        if transitions[i].pre.id != -1 && transitions[i].post.id != -1 {
          kept := kept + [transitions[i]];
        }
      }
      assert transitions[..|transitions|] == transitions;
    }

    method KeptCovering(ghost gone: set<Node>, ghost all: seq<Node>) returns (kept: seq<CoveringPair>)
      requires MarkedAs(all, gone) && CoveringInside(all, covering)
      ensures kept == KeepCovering(covering, gone)
    {
      kept := [];
      for i := 0 to |covering|
        invariant kept == KeepCovering(covering[..i], gone)
      {
        assert covering[..i + 1][..i] == covering[..i];
        assert covering[i] in covering;
        if covering[i].covered.id != -1 && covering[i].covering.id != -1 {
          kept := kept + [covering[i]];
        }
      }
      assert covering[..|covering|] == covering;
    }

    /** Numbers the states by position; the other nodes keep their numbers. */
    method Renumber(ghost all: seq<Node>, ghost gone: set<Node>)
      requires Distinct(states) && states == Keep(all, gone) && MarkedAs(all, gone)
      modifies all`id
      ensures Numbered(states) && MarkedAs(all, gone)
    {
      for i := 0 to |states|
        invariant forall j :: 0 <= j < i ==> states[j].id == j
        invariant MarkedAs(all, gone)
      {
        assert states[i] in states && states[i] in all;
        states[i].id := i;
      }
    }

    /** Removes a state and exactly the states that depend on it, directly or not. */
    method Delete(state: Node)
      requires Valid() && state in states
      modifies this, states`id
      ensures Valid()
      ensures Without(old(DoomedSet(states, state.id)), old(states), old(transitions), old(covering),
                      states, transitions, covering)
    {
      hide WellDerived, Inside, DoomedSet, Doomed, MarkedAs, ClosedUnder, Without;
      ghost var gone := DoomedSet(states, state.id);
      assert 0 <= state.id < |states|;
      ghost var k: nat := state.id;
      MarkDependents(state);
      MarkedGone(k);
      RemoveMarkedStates(gone);
    }

    lemma MarkedGone(k: nat)
      requires WellDerived(states) && Marked(k, |states|)
      ensures MarkedAs(states, DoomedSet(states, k)) && ClosedUnder(states, DoomedSet(states, k))
    {
      DoomedAll(states, k);
      hide Doomed, DoomedSet, Distinct, ClosedUnder;
    }

    /** Marks the state and what depends on it, in one pass over the later states. */
    method MarkDependents(state: Node)
      requires WellDerived(states) && Numbered(states) && state in states
      modifies states`id
      ensures Marked(old(state.id), |states|)
    {
      hide WellDerived, Distinct, Doomed;
      KeptDistinct(states);
      var savedID := state.id;
      NoneBefore(states, savedID);
      DistinctAt(states, savedID);
      DoomedSelf(states, savedID);
      state.id := -1;
      assert Marked(savedID, savedID + 1);
      for i := savedID + 1 to |states|
        invariant Marked(savedID, i) && WellDerived(states)
      {
        hide Marked;
        MarkNext(savedID, i);
      }
    }

    method MarkNext(k: nat, i: nat)
      requires WellDerived(states) && k < i < |states| && Marked(k, i)
      modifies states`id
      ensures Marked(k, i + 1)
    {
      hide WellDerived, Distinct, Doomed, Dependencies;
      KeptDistinct(states);
      DistinctAt(states, i);
      var deps := Dependencies(states[i]);
      var marked := AnyMarked(deps);
      MarkedSource(k, i);
      assert marked <==> HasMarked(deps);
      assert HasMarked(deps) <==> Doomed(states, i, k);
      if marked {
        states[i].id := -1;
        assert forall j :: 0 <= j < |states| ==> (Doomed(states, j, k) <==> old(Doomed(states, j, k)));
      }
      forall j | 0 <= j < |states|
        ensures states[j].id == if j < i + 1 && Doomed(states, j, k) then -1 else j
      {
        if j != i { assert states[j] != states[i]; }
      }
    }

    /** The states before i are marked if they depend on the one at k. */
    ghost predicate Marked(k: nat, i: nat)
      reads this, states`id, states`pred, states`joinOf
    {
      forall j :: 0 <= j < |states| ==> states[j].id == if j < i && Doomed(states, j, k) then -1 else j
    }

    /** Whether one of the states is marked. */
    static method AnyMarked(deps: seq<Node>) returns (marked: bool)
      ensures marked <==> HasMarked(deps)
    {
      marked := false;
      for k := 0 to |deps|
        invariant forall n :: 0 <= n < k ==> deps[n].id != -1
      {
        if deps[k].id == -1 {
          return true;
        }
      }
    }

    lemma MarkedSource(k: nat, i: nat)
      requires Marked(k, i) && WellDerived(states) && k < i < |states|
      ensures HasMarked(Dependencies(states[i])) <==> Doomed(states, i, k)
    {
      DoomedBy(states, i, k);
      var deps := Dependencies(states[i]);
      forall n | 0 <= n < |deps|
        ensures exists j: nat :: j < i && states[j] == deps[n]
        ensures deps[n].id == -1 ==> Doomed(states, i, k)
      {
        var j :| 0 <= j < i && states[..i][j] == deps[n];
        assert states[j] == deps[n] && deps[n] in deps;
      }
      if Doomed(states, i, k) {
        var j: nat :| j < i && states[j] in deps && Doomed(states, j, k);
        var n :| 0 <= n < |deps| && deps[n] == states[j];
        assert deps[n].id == -1;
      }
    }

    /** The states that are not covered, themselves or through the actions that led to them, and that are
        not joined into another; found in one pass from the first state to the last. */
    method UncoveredStates() returns (result: seq<Node>)
      requires Valid()
      ensures exists at :: ReadAt(states, result, at) && forall i: nat :: i < |states| ==>
                (i in at <==> !CoveredAt(states, covering, i) && !JoinOperand(states, states[i]))
    {
      hide WellDerived, Numbered, Inside, CoveredAt, JoinOperand, CoveredDirectly, NotOpen;
      var covered := CoveredIds();
      var joined: set<int>;
      covered, joined := PassOver(covered);
      ghost var gone := NotOpen(states, covering);
      result := [];
      for i := 0 to |states|
        invariant result == Keep(states[..i], gone)
      {
        assert states[..i + 1][..i] == states[..i];
        GoneAt(states, covering, i);
        NumberAt(states, i);
        if states[i].id !in covered && states[i].id !in joined {
          result := result + [states[i]];
        }
      }
      assert states[..|states|] == states;
      ghost var at := KeepAt(states, gone);
      forall i: nat | i < |states|
        ensures i in at <==> !CoveredAt(states, covering, i) && !JoinOperand(states, states[i])
      {
        GoneAt(states, covering, i);
      }
    }

    /** The numbers of the states in covering pairs. */
    method CoveredIds() returns (covered: set<int>)
      requires Valid()
      ensures forall j :: 0 <= j < |states| ==> (j in covered <==> CoveredDirectly(covering, states[j]))
    {
      covered := {};
      for i := 0 to |covering|
        invariant forall j :: 0 <= j < |states| ==> (j in covered <==> CoveredDirectly(covering[..i], states[j]))
      {
        MoreCovering(covering, i);
        assert covering[i] in covering;
        covered := covered + {covering[i].covered.id};
      }
      assert covering[..|covering|] == covering;
    }

    /** The pass from the first state to the last. */
    method PassOver(direct: set<int>) returns (covered: set<int>, joined: set<int>)
      requires Valid()
      requires forall j :: 0 <= j < |states| ==> (j in direct <==> CoveredDirectly(covering, states[j]))
      ensures forall j :: 0 <= j < |states| ==> (j in covered <==> CoveredAt(states, covering, j))
      ensures forall j :: 0 <= j < |states| ==> (j in joined <==> JoinOperand(states, states[j]))
    {
      hide WellDerived, Numbered, Inside, CoveredDirectly, JoinOperand;
      NothingJoined(states);
      covered, joined := direct, {};
      for i := 0 to |states|
        invariant forall j :: 0 <= j < i ==> (j in covered <==> CoveredAt(states, covering, j))
        invariant forall j :: i <= j < |states| ==> (j in covered <==> j in direct)
        invariant forall j :: 0 <= j < |states| ==> (j in joined <==> JoinOperand(states[..i], states[j]))
      {
        var s := states[i];
        NumberAt(states, i);
        MoreOperands(states, i);
        match s.prov {
          case NoProv =>
          case ActionApp(a) =>
            SourceEarlier(i);
            CoveredStep(i);
            if a.id in covered {
              covered := covered + {s.id};
            }
          case StateJoin(args) =>
            SourcesInside(i);
            joined := joined + IdsOf(args, states);
        }
      }
      assert states[..|states|] == states;
    }

    lemma SourceEarlier(i: nat)
      requires Valid() && i < |states| && states[i].prov.ActionApp?
      ensures exists j: nat :: j < i && states[j] == states[i].prov.arg
      ensures 0 <= states[i].prov.arg.id < i && states[states[i].prov.arg.id] == states[i].prov.arg
    {
      var a := states[i].prov.arg;
      assert Derived(states[i]) && Dependencies(states[i])[0] == a && a in states[..i];
      var j :| 0 <= j < i && states[..i][j] == a;
    }

    lemma CoveredStep(i: nat)
      requires Valid() && i < |states| && states[i].prov.ActionApp?
      requires 0 <= states[i].prov.arg.id < i && states[states[i].prov.arg.id] == states[i].prov.arg
      ensures CoveredAt(states, covering, i) <==>
              CoveredDirectly(covering, states[i]) || CoveredAt(states, covering, states[i].prov.arg.id)
    {
      hide CoveredDirectly;
      assert forall j :: 0 <= j < |states| ==> states[j].id == j;
    }

    lemma SourcesInside(i: nat)
      requires Valid() && i < |states| && states[i].prov.StateJoin?
      ensures forall k :: 0 <= k < |states[i].prov.args| ==> states[i].prov.args[k] in states
    {
      forall k | 0 <= k < |states[i].prov.args|
        ensures states[i].prov.args[k] in states
      {
        assert Dependencies(states[i])[k] in states[..i];
      }
    }
  }

  lemma GoneAt(ss: seq<Node>, cs: seq<CoveringPair>, i: nat)
    requires WellDerived(ss) && i < |ss|
    ensures ss[i] in NotOpen(ss, cs) <==> CoveredAt(ss, cs, i) || JoinOperand(ss, ss[i])
  {
  }

  /** A state added at the end, with what it was derived from in the graph. */
  lemma AddedLast(ss: seq<Node>, s: Node)
    requires WellDerived(ss) && s !in ss && Derived(s)
    requires forall k :: 0 <= k < |Dependencies(s)| ==> Dependencies(s)[k] in ss
    ensures WellDerived(ss + [s])
  {
    hide Derived;
    var all := ss + [s];
    forall i, k | 0 <= i < |all| && 0 <= k < |Dependencies(all[i])|
      ensures Dependencies(all[i])[k] in all[..i]
    {
      if i < |ss| { assert all[..i] == ss[..i] && all[i] == ss[i]; } else { assert all[..i] == ss; }
    }
  }

  lemma AddedNumber(ss: seq<Node>, s: Node)
    requires Numbered(ss) && s.id == |ss|
    ensures Numbered(ss + [s])
  {
  }

  lemma AddedInside(ss: seq<Node>, ts: seq<Transition>, cs: seq<CoveringPair>, s: Node, us: seq<Transition>)
    requires Inside(ss, ts, cs) && forall i :: 0 <= i < |us| ==> us[i] in ts || (us[i].pre in ss && us[i].post == s)
    ensures Inside(ss + [s], us, cs)
  {
  }

  lemma MoreCovering(cs: seq<CoveringPair>, i: nat)
    requires i < |cs|
    ensures forall s :: CoveredDirectly(cs[..i + 1], s) <==> CoveredDirectly(cs[..i], s) || cs[i].covered == s
  {
    assert cs[..i + 1] == cs[..i] + [cs[i]];
  }

  lemma NothingJoined(ss: seq<Node>)
    ensures forall s :: !JoinOperand(ss[..0], s)
  {
  }

  lemma NumberAt(ss: seq<Node>, i: nat)
    requires Numbered(ss) && i < |ss|
    ensures ss[i].id == i
  {
  }

  lemma MoreOperands(ss: seq<Node>, i: nat)
    requires i < |ss|
    ensures forall s :: JoinOperand(ss[..i + 1], s) <==>
                        JoinOperand(ss[..i], s) || (ss[i].prov.StateJoin? && s in ss[i].prov.args)
  {
    assert forall j :: 0 <= j < i ==> ss[..i + 1][j] == ss[j] && ss[..i][j] == ss[j];
    assert ss[..i + 1][i] == ss[i];
  }

  /** The numbers of the given states. */
  function IdsOf(args: seq<Node>, ss: seq<Node>): (r: set<int>)
    requires WellDerived(ss) && Numbered(ss) && forall k :: 0 <= k < |args| ==> args[k] in ss
    ensures forall j :: 0 <= j < |ss| ==> (j in r <==> ss[j] in args)
    reads args`id, ss`id, ss`pred, ss`joinOf, ss`prov
  {
    if args == [] then {} else
    var n := |args| - 1;
    assert args == args[..n] + [args[n]];
    assert args[n] in args && args[n] in ss;
    IdsOf(args[..n], ss) + {args[n].id}
  }

  function JoinTransitions(args: seq<Node>, post: Node): seq<Transition>
  {
    if args == [] then [] else
    JoinTransitions(args[..|args| - 1], post) + [Transition(args[|args| - 1], "join", post)]
  }

  lemma {:induction false} JoinedInside(args: seq<Node>, post: Node)
    ensures |JoinTransitions(args, post)| == |args|
    ensures forall i :: 0 <= i < |args| ==> JoinTransitions(args, post)[i] == Transition(args[i], "join", post)
  {
    if args != [] {
      JoinedInside(args[..|args| - 1], post);
    }
  }
}
