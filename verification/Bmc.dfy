/**
 Bounded model checking: the reachable states of each depth are checked against the conjectures, and the
 next step for failing assertions, by questions to a satisfiability oracle.
 */
module Bmc {
  import opened Options
  import opened Names
  import opened Logic
  import opened ClauseOps
  import opened Updates
  import opened Hiding
  import opened Images
  import opened Substitution
  import opened Actions
  import opened Atoms
  import opened Compiler
  import opened Transforms
  import opened Limits
  import opened Unrolling
  import opened Programs
  import opened Cuts

  datatype BmcResult = NotFound | Found(depth: nat, failure: bool)

  ghost predicate Sat(c: Clauses)
  {
    exists v: Val :: Holds(c, v)
  }

  /** The update of an action as a whole: its old_ symbols mean the state before it. */
  function GetUpdate(a: Action): Update
    requires Lowerable(a)
  {
    BindOlds(Compiled(a))
  }

  /** The update whose transitions are the failures of another. */
  function ActionFailure(u: Update): Update
  {
    Update(u.mod, u.pre, TOP)
  }

  /** The conjecture negated, its free variables as witness constants. */
  function DualConjecture(conj: Expr): Clauses
  {
    Fact(DualWith("@", conj))
  }

  predicate Conjecture(conj: Expr)
  {
    forall x :: x in Syms(conj) ==> x.kind.Base?
  }

  // ----- what is checked -----

  /** States reached in exactly n steps. */
  ghost predicate Reaches(init: Clauses, u: Update, n: nat, s: State)
  {
    if n == 0 then InSet(init, s) else exists r: State :: Reaches(init, u, n - 1, r) && Step(u, r, s)
  }

  ghost predicate Violated(init: Clauses, u: Update, conj: Expr, n: nat)
  {
    exists s: State :: Reaches(init, u, n, s) && !True(conj, s, s)
  }

  ghost predicate Failing(init: Clauses, u: Update, n: nat)
  {
    exists s: State :: Reaches(init, u, n, s) && Fails(u, s, s)
  }

  ghost predicate Clean(init: Clauses, u: Update, conj: Expr, n: nat)
  {
    !Violated(init, u, conj, n) && !Failing(init, u, n)
  }

  /** The clauses describe the states of depth n. */
  ghost predicate Describes(post: Clauses, init: Clauses, u: Update, n: nat)
  {
    StateClauses(post) && forall s: State :: InSet(post, s) <==> Reaches(init, u, n, s)
  }

  // ----- the loop over depths -----

  /** Nothing is found exactly if every state of depth at most nSteps satisfies the conjecture and no step
      from such a state fails; otherwise the depth is the least at which one of the two happens. */
  method Check(init: Clauses, u: Update, conj: Expr, nSteps: int, oracle: Clauses -> bool) returns (r: BmcResult)
    requires StateClauses(init) && Bound(u) && Conjecture(conj)
    requires forall c: Clauses :: oracle(c) <==> Sat(c)
    ensures r.NotFound? <==> forall n: nat :: n <= nSteps ==> Clean(init, u, conj, n)
    ensures r.Found? ==> r.depth <= nSteps && forall n: nat :: n < r.depth ==> Clean(init, u, conj, n)
    ensures r.Found? && !r.failure ==> Violated(init, u, conj, r.depth)
    ensures r.Found? && r.failure ==> !Violated(init, u, conj, r.depth) && Failing(init, u, r.depth)
  {
    hide Violated, Failing, ForwardImage, And, Sat, StateClauses, Bound, Conjecture;
    var post := init;
    var n := 0;
    while n <= nSteps
      invariant 0 <= n && (n <= nSteps + 1 || n == 0)
      invariant Describes(post, init, u, n) && Bound(u) && Conjecture(conj)
      invariant forall m: nat :: m < n ==> Clean(init, u, conj, m)
    {
      ViolationFound(post, init, u, conj, n);
      if oracle(And(post, DualConjecture(conj))) {
        assert !Clean(init, u, conj, n);
        return Found(n, false);
      }
      FailureFound(post, init, u, n);
      if oracle(ForwardImage(post, ActionFailure(u))) {
        assert !Clean(init, u, conj, n);
        return Found(n, true);
      }
      NextDepth(post, init, u, n);
      post := ForwardImage(post, u);
      n := n + 1;
    }
    return NotFound;
  }

  lemma NextDepth(post: Clauses, init: Clauses, u: Update, n: nat)
    requires Bound(u) && Describes(post, init, u, n)
    ensures Describes(ForwardImage(post, u), init, u, n + 1)
  {
    hide InSet, Step, ForwardImage;
    ForwardUsed(post, u);
    forall t: State
      ensures InSet(ForwardImage(post, u), t) <==> Reaches(init, u, n + 1, t)
    {
      ForwardImageMeaning(post, u, t);
    }
  }

  /** The state a valuation describes. */
  lemma PresentSet(c: Clauses, v: Val)
    requires Holds(c, v) && forall x :: x in Used(c) && Program(x) ==> x.kind.Base?
    ensures InSet(c, Before(v))
  {
    hide Holds, Used;
    assert SameProgram(v, v);
    OnlyBase(c, Before(v), v);
  }

  lemma ViolationFound(post: Clauses, init: Clauses, u: Update, conj: Expr, n: nat)
    requires Conjecture(conj) && Describes(post, init, u, n)
    ensures Sat(And(post, DualConjecture(conj))) <==> Violated(init, u, conj, n)
  {
    hide Holds, Used, True;
    var dual := DualConjecture(conj);
    DualSyms(conj);
    forall v: Val | Holds(And(post, dual), v)
      ensures Violated(init, u, conj, n)
    {
      AndMeaning(post, dual, v);
      PresentSet(post, v);
      PresentSet(dual, v);
      DualHolds("@", conj, Before(v), Before(v), Before(v));
    }
    forall s: State | Reaches(init, u, n, s) && !True(conj, s, s)
      ensures Sat(And(post, dual))
    {
      assert InSet(post, s);
      DualHolds("@", conj, s, s, s);
      var w1: Val :| SameProgram(Mk(s, s, s), w1) && Holds(post, w1);
      var w2: Val :| SameProgram(Mk(s, s, s), w2) && Holds(dual, w2);
      BothHold(post, dual, w1, w2);
    }
  }

  lemma DualSyms(conj: Expr)
    requires Conjecture(conj)
    ensures StateExpr(conj)
    ensures forall x :: x in Used(DualConjecture(conj)) ==> x.kind.Base? || x.kind.Rigid?
  {
    DualUsed("@", conj);
  }

  lemma BothHold(p: Clauses, d: Clauses, w1: Val, w2: Val)
    requires StateClauses(p) && (forall x :: x in Used(d) ==> x.kind.Base? || x.kind.Rigid?)
    requires SameProgram(w1, w2) && Holds(p, w1) && Holds(d, w2)
    ensures Sat(And(p, d))
  {
    hide Holds, Used;
    var w: Val := (x: Sym) => if x.kind.Rigid? then w2(x) else w1(x);
    Coincide(p, w1, w);
    Coincide(d, w2, w);
    AndMeaning(p, d, w);
  }

  lemma FailureFound(post: Clauses, init: Clauses, u: Update, n: nat)
    requires Bound(u) && Describes(post, init, u, n)
    ensures Sat(ForwardImage(post, ActionFailure(u))) <==> Failing(init, u, n)
  {
    hide Holds, Used, ForwardImage, Step, InSet;
    var fu := ActionFailure(u);
    var c := ForwardImage(post, fu);
    ForwardSyms(post, fu);
    forall t: State
      ensures InSet(c, t) <==> exists s: State :: InSet(post, s) && Step(fu, s, t)
    {
      ForwardImageMeaning(post, fu, t);
    }
    forall v: Val | Holds(c, v)
      ensures Failing(init, u, n)
    {
      PresentSet(c, v);
      var s: State :| InSet(post, s) && Step(fu, s, Before(v));
      FailureStep(u, s, Before(v));
    }
    forall s: State | Reaches(init, u, n, s) && Fails(u, s, s)
      ensures Sat(c)
    {
      var t := StepToFailure(u, s);
      assert InSet(c, t);
      InSetHolds(c, t);
    }
  }

  lemma InSetHolds(c: Clauses, t: State)
    requires InSet(c, t)
    ensures Sat(c)
  {
  }

  lemma FailureStep(u: Update, s: State, t: State)
    requires Step(ActionFailure(u), s, t)
    ensures Fails(u, s, s)
  {
  }

  lemma StepToFailure(u: Update, s: State) returns (t: State)
    requires NewOnly(u.pre, u.mod) && Fails(u, s, s)
    ensures Step(ActionFailure(u), s, t)
  {
    hide Ex;
    var n: State :| Ex(u.pre, Mk(s, s, n));
    t := (i: Id) => if i in u.mod then n(i) else s(i);
    OtherNew(u.pre, u.mod, s, s, n, t);
  }

  lemma ForwardSyms(p: Clauses, u: Update)
    requires StateClauses(p) && Shaped(u)
    ensures forall x :: x in Used(ForwardImage(p, u)) && Program(x) ==> x.kind.Base?
  {
    hide Used, Rename, Conjoin;
    PastUsed(p, u);
    var d := Rename(Conjoin(p, u.tr), PastMap(p, u));
    RenameUsed(d, Unprime(u.mod));
    forall x | x in Used(d)
      ensures Program(Lookup(Unprime(u.mod), x)) ==> Lookup(Unprime(u.mod), x).kind.Base?
    {
      LookupUnprime(u.mod, x);
    }
  }

  // ----- modules -----

  /** The environment calls any of the public actions that exist. */
  function EnvAction(actions: map<string, Action>, publics: seq<string>): Action
  {
    Choice(Branches(actions, publics))
  }

  function Branches(actions: map<string, Action>, publics: seq<string>): seq<Action>
  {
    if publics == [] then [] else
    var n := |publics| - 1;
    var bs := Branches(actions, publics[..n]);
    if publics[n] in actions then bs + [actions[publics[n]]] else bs
  }

  function UnrollActions(actions: map<string, Action>, n: int): map<string, Action>
  {
    map name | name in actions :: UnrollAction(actions[name], n)
  }

  /** The step that is checked. */
  function StepAction(actions: map<string, Action>, publics: seq<string>, nUnroll: Option<int>): Action
  {
    EnvAction(if nUnroll.Some? then UnrollActions(actions, nUnroll.value) else actions, publics)
  }

  class Module {
    var actions: map<string, Action>
    const publics: seq<string>
    const init: Clauses
    const conj: Expr

    constructor (actions: map<string, Action>, publics: seq<string>, init: Clauses, conj: Expr)
      ensures this.actions == actions && this.publics == publics && this.init == init && this.conj == conj
    {
      this.actions := actions;
      this.publics := publics;
      this.init := init;
      this.conj := conj;
    }

    /** Checks the module with its loops unrolled for the time of the check. */
    method CheckIsolate(nSteps: int, nUnroll: Option<int>, oracle: Clauses -> bool) returns (r: BmcResult)
      requires StateClauses(init) && Conjecture(conj)
      requires Checkable(StepAction(actions, publics, nUnroll), nUnroll)
      requires forall c: Clauses :: oracle(c) <==> Sat(c)
      modifies this
      ensures actions == old(actions)
      ensures r.NotFound? <==> forall n: nat :: n <= nSteps ==> DepthSafe(n, nUnroll)
      ensures r.Found? ==> r.depth <= nSteps && forall n: nat :: n < r.depth ==> DepthSafe(n, nUnroll)
      ensures r.Found? && !r.failure ==> DepthViolated(r.depth, nUnroll)
      ensures r.Found? && r.failure ==> !DepthViolated(r.depth, nUnroll) && DepthFailing(r.depth, nUnroll)
    {
      hide Clean, Violated, Failing, Lowerable, LoopFree, DepthSafe, DepthViolated, DepthFailing, GetUpdate, Sat,
        Conjecture, StateClauses, UnrollAction;
      var oldActions := actions;
      if nUnroll.Some? {
        actions := map[];
        var names := oldActions.Keys;
        while names != {}
          invariant names <= oldActions.Keys
          invariant actions == map name | name in oldActions.Keys - names ::
                      UnrollAction(oldActions[name], nUnroll.value)
          decreases |names|
        {
          var name :| name in names;
          actions := actions[name := UnrollAction(oldActions[name], nUnroll.value)];
          names := names - {name};
        }
        assert actions == UnrollActions(oldActions, nUnroll.value);
      }
      var step := EnvAction(actions, publics);
      assert step == StepAction(oldActions, publics, nUnroll);
      UpdateBound(step);
      r := Check(init, GetUpdate(step), conj, nSteps, oracle);
      actions := oldActions;
      forall n: nat
        ensures Clean(init, GetUpdate(step), conj, n) <==> DepthSafe(n, nUnroll)
        ensures Violated(init, GetUpdate(step), conj, n) <==> DepthViolated(n, nUnroll)
        ensures Failing(init, GetUpdate(step), n) <==> DepthFailing(n, nUnroll)
      {
        DepthIs(n, nUnroll);
      }
    }

    /** States that n calls of exported actions lead to, from an initial state. */
    ghost predicate Reached(n: nat, nUnroll: Option<int>, s: State)
      reads this
    {
      if n == 0 then InSet(init, s)
      else exists r: State :: Reached(n - 1, nUnroll, r) && Called(actions, publics, nUnroll, r, s)
    }

    /** Some state of that depth violates the conjecture. */
    ghost predicate DepthViolated(n: nat, nUnroll: Option<int>)
      reads this
    {
      exists s: State :: Reached(n, nUnroll, s) && !True(conj, s, s)
    }

    /** From some state of that depth, a call of an exported action fails. */
    ghost predicate DepthFailing(n: nat, nUnroll: Option<int>)
      reads this
    {
      exists s: State :: Reached(n, nUnroll, s) && CallFails(actions, publics, nUnroll, s)
    }

    /** In all states of that depth the conjecture holds, and no call of an exported action fails from there. */
    ghost predicate DepthSafe(n: nat, nUnroll: Option<int>)
      reads this
    {
      forall s: State :: Reached(n, nUnroll, s) ==> True(conj, s, s) && !CallFails(actions, publics, nUnroll, s)
    }

    lemma {:induction false} ReachedIs(n: nat, nUnroll: Option<int>, s: State)
      requires Checkable(StepAction(actions, publics, nUnroll), nUnroll)
      ensures Reaches(init, GetUpdate(StepAction(actions, publics, nUnroll)), n, s) <==> Reached(n, nUnroll, s)
    {
      hide Lowerable, LoopFree, GetUpdate, Step, Called, InSet, StepAction, CutRun, CutFail;
      var a := StepAction(actions, publics, nUnroll);
      if n > 0 {
        var k := n - 1;
        forall r: State
          ensures Reaches(init, GetUpdate(a), k, r) <==> Reached(k, nUnroll, r)
          ensures Step(GetUpdate(a), r, s) <==> Called(actions, publics, nUnroll, r, s)
        {
          ReachedIs(k, nUnroll, r);
          StepIs(a, r, s);
          CalledIs(actions, publics, nUnroll, r, s);
        }
      }
    }

    lemma DepthIs(n: nat, nUnroll: Option<int>)
      requires Checkable(StepAction(actions, publics, nUnroll), nUnroll)
      ensures var u := GetUpdate(StepAction(actions, publics, nUnroll));
              && (Clean(init, u, conj, n) <==> DepthSafe(n, nUnroll))
              && (Violated(init, u, conj, n) <==> DepthViolated(n, nUnroll))
              && (Failing(init, u, n) <==> DepthFailing(n, nUnroll))
    {
      hide Lowerable, LoopFree, GetUpdate, Fails, Reaches, Reached, True, StepAction, CallFails, CutRun, CutFail;
      var a := StepAction(actions, publics, nUnroll);
      forall s: State
        ensures Reaches(init, GetUpdate(a), n, s) <==> Reached(n, nUnroll, s)
        ensures Fails(GetUpdate(a), s, s) <==> CallFails(actions, publics, nUnroll, s)
      {
        ReachedIs(n, nUnroll, s);
        StepIs(a, s, s);
        CalledIs(actions, publics, nUnroll, s, s);
      }
    }
  }

  // ----- calls of exported actions -----

  /** A bound on the rounds of loops that is used. */
  predicate Usable(nUnroll: Option<int>)
  {
    nUnroll.Some? && 0 <= nUnroll.value <= 100
  }

  /** What the check relies on: an action that can be lowered, and with a bound, no loops in callees. */
  predicate Checkable(a: Action, nUnroll: Option<int>)
  {
    Lowerable(a) && (Usable(nUnroll) ==> LoopFree(a))
  }

  /** A run of the action in which every loop makes at most so many rounds, or without a usable bound, is told by
      its invariants. */
  ghost predicate RunsWithin(a: Action, nUnroll: Option<int>, s: State, t: State)
  {
    if Usable(nUnroll) then LimitedRun(Bounded(nUnroll.value), a, s, s, t) else CutRun(a, s, s, t)
  }

  ghost predicate FailsWithin(a: Action, nUnroll: Option<int>, s: State)
  {
    if Usable(nUnroll) then LimitedFail(Bounded(nUnroll.value), a, s, s) else CutFail(a, s, s)
  }

  /** A run of some exported action that exists. */
  ghost predicate Called(actions: map<string, Action>, publics: seq<string>, nUnroll: Option<int>, s: State, t: State)
  {
    exists k :: 0 <= k < |publics| && publics[k] in actions && RunsWithin(actions[publics[k]], nUnroll, s, t)
  }

  ghost predicate CallFails(actions: map<string, Action>, publics: seq<string>, nUnroll: Option<int>, s: State)
  {
    exists k :: 0 <= k < |publics| && publics[k] in actions && FailsWithin(actions[publics[k]], nUnroll, s)
  }

  ghost predicate SomeRuns(actions: map<string, Action>, publics: seq<string>, s: State, t: State)
  {
    exists k :: 0 <= k < |publics| && publics[k] in actions && Exec(actions[publics[k]], s, s, t)
  }

  ghost predicate SomeAborts(actions: map<string, Action>, publics: seq<string>, s: State)
  {
    exists k :: 0 <= k < |publics| && publics[k] in actions && Aborts(actions[publics[k]], s, s)
  }

  /** The branches of the environment are exactly the exported actions that exist. */
  lemma {:induction false} BranchesAre(actions: map<string, Action>, publics: seq<string>, b: Action)
    ensures b in Branches(actions, publics) <==>
            exists k :: 0 <= k < |publics| && publics[k] in actions && actions[publics[k]] == b
  {
    if publics != [] {
      var n := |publics| - 1;
      BranchesAre(actions, publics[..n], b);
      if k :| 0 <= k < |publics| && publics[k] in actions && actions[publics[k]] == b {
        if k < n { assert publics[..n][k] == publics[k]; }
      }
      if k :| 0 <= k < n && publics[..n][k] in actions && actions[publics[..n][k]] == b {
        assert publics[k] == publics[..n][k];
      }
    }
  }

  ghost predicate SomeCuts(actions: map<string, Action>, publics: seq<string>, s: State, t: State)
  {
    exists k :: 0 <= k < |publics| && publics[k] in actions && CutRun(actions[publics[k]], s, s, t)
  }

  ghost predicate SomeFails(actions: map<string, Action>, publics: seq<string>, s: State)
  {
    exists k :: 0 <= k < |publics| && publics[k] in actions && CutFail(actions[publics[k]], s, s)
  }

  /** What holds of some branch holds of some exported action. */
  lemma BranchExported(actions: map<string, Action>, publics: seq<string>, k: nat) returns (j: nat)
    requires k < |Branches(actions, publics)|
    ensures j < |publics| && publics[j] in actions && actions[publics[j]] == Branches(actions, publics)[k]
  {
    BranchesAre(actions, publics, Branches(actions, publics)[k]);
    hide Branches;
    j :| j < |publics| && publics[j] in actions && actions[publics[j]] == Branches(actions, publics)[k];
  }

  lemma ExportedBranch(actions: map<string, Action>, publics: seq<string>, j: nat) returns (k: nat)
    requires j < |publics| && publics[j] in actions
    ensures k < |Branches(actions, publics)| && Branches(actions, publics)[k] == actions[publics[j]]
  {
    BranchesAre(actions, publics, actions[publics[j]]);
    hide Branches;
    k :| k < |Branches(actions, publics)| && Branches(actions, publics)[k] == actions[publics[j]];
  }

  lemma EnvironmentRuns(actions: map<string, Action>, publics: seq<string>, s: State, t: State)
    ensures Exec(EnvAction(actions, publics), s, s, t) <==> SomeRuns(actions, publics, s, t)
    ensures Aborts(EnvAction(actions, publics), s, s) <==> SomeAborts(actions, publics, s)
  {
    hide Branches;
    var bs := Branches(actions, publics);
    if k: nat :| k < |bs| && Exec(bs[k], s, s, t) { var j := BranchExported(actions, publics, k); }
    if k: nat :| k < |bs| && Aborts(bs[k], s, s) { var j := BranchExported(actions, publics, k); }
    if j: nat :| j < |publics| && publics[j] in actions && Exec(actions[publics[j]], s, s, t) {
      var k := ExportedBranch(actions, publics, j);
    }
    if j: nat :| j < |publics| && publics[j] in actions && Aborts(actions[publics[j]], s, s) {
      var k := ExportedBranch(actions, publics, j);
    }
  }

  lemma EnvironmentCuts(actions: map<string, Action>, publics: seq<string>, s: State, t: State)
    ensures CutRun(EnvAction(actions, publics), s, s, t) <==> SomeCuts(actions, publics, s, t)
    ensures CutFail(EnvAction(actions, publics), s, s) <==> SomeFails(actions, publics, s)
  {
    hide Branches, CutRun, CutFail;
    var bs := Branches(actions, publics);
    ChoiceRun(bs, s, s, t);
    ChoiceFail(bs, s, s);
    if k: nat :| k < |bs| && CutRun(bs[k], s, s, t) { var j := BranchExported(actions, publics, k); }
    if k: nat :| k < |bs| && CutFail(bs[k], s, s) { var j := BranchExported(actions, publics, k); }
    if j: nat :| j < |publics| && publics[j] in actions && CutRun(actions[publics[j]], s, s, t) {
      var k := ExportedBranch(actions, publics, j);
    }
    if j: nat :| j < |publics| && publics[j] in actions && CutFail(actions[publics[j]], s, s) {
      var k := ExportedBranch(actions, publics, j);
    }
  }

  /** The step that is checked is a call of an exported action. */
  lemma CalledIs(actions: map<string, Action>, publics: seq<string>, nUnroll: Option<int>, s: State, t: State)
    requires Checkable(StepAction(actions, publics, nUnroll), nUnroll)
    ensures CutRun(StepAction(actions, publics, nUnroll), s, s, t) <==> Called(actions, publics, nUnroll, s, t)
    ensures CutFail(StepAction(actions, publics, nUnroll), s, s) <==> CallFails(actions, publics, nUnroll, s)
  {
    hide Exec, Aborts, EnvAction, UnrollAction, LimitedRun, LimitedFail, CutRun, CutFail, Lowerable, LoopFree;
    if Usable(nUnroll) {
      CutFree(StepAction(actions, publics, nUnroll), s, s, t);
      UnrolledCalls(actions, publics, nUnroll.value, s, t);
    } else {
      NotUnrolled(actions, publics, nUnroll);
      EnvironmentCuts(actions, publics, s, t);
    }
  }

  lemma UnrolledCalls(actions: map<string, Action>, publics: seq<string>, n: int, s: State, t: State)
    requires Usable(Some(n))
    ensures Exec(StepAction(actions, publics, Some(n)), s, s, t) <==> Called(actions, publics, Some(n), s, t)
    ensures Aborts(StepAction(actions, publics, Some(n)), s, s) <==> CallFails(actions, publics, Some(n), s)
  {
    hide Exec, Aborts, EnvAction, UnrollAction, LimitedRun, LimitedFail;
    var used := UnrollActions(actions, n);
    EnvironmentRuns(used, publics, s, t);
    forall name | name in actions
      ensures Exec(used[name], s, s, t) <==> RunsWithin(actions[name], Some(n), s, t)
      ensures Aborts(used[name], s, s) <==> FailsWithin(actions[name], Some(n), s)
    {
      UnrollActionExact(actions[name], n, s, s, t);
    }
  }

  /** Without a usable bound the actions stay as they are. */
  lemma NotUnrolled(actions: map<string, Action>, publics: seq<string>, nUnroll: Option<int>)
    requires !Usable(nUnroll)
    ensures StepAction(actions, publics, nUnroll) == EnvAction(actions, publics)
  {
    hide UnrollAction;
    if nUnroll.Some? {
      var n := nUnroll.value;
      forall name | name in actions
        ensures UnrollAction(actions[name], n) == actions[name]
      {
        var s: State := (i: Id) => ConstTable(0);
        UnrollActionExact(actions[name], n, s, s, s);
      }
      assert UnrollActions(actions, n) == actions;
    }
  }

  lemma UpdateBound(a: Action)
    requires Lowerable(a)
    ensures Bound(GetUpdate(a))
  {
    hide WellFormed, NoOld, BindOlds, IntUpdate, Core, Lowerable;
    CompiledWellFormed(a);
    BindOldsWellFormed(Compiled(a));
    BindOldsNoOld(Compiled(a));
  }

  // ----- what the result means for the program -----

  /** States that the action reaches in exactly n runs from an initial state. */
  ghost predicate ReachesBy(init: Clauses, a: Action, n: nat, s: State)
  {
    if n == 0 then InSet(init, s) else exists r: State :: ReachesBy(init, a, n - 1, r) && Exec(a, r, r, s)
  }

  lemma {:induction false} ReachesIs(init: Clauses, a: Action, n: nat, s: State)
    requires Lowerable(a) && LoopFree(a)
    ensures Reaches(init, GetUpdate(a), n, s) <==> ReachesBy(init, a, n, s)
  {
    hide InSet, Exec, GetUpdate, Lowerable, LoopFree;
    if n > 0 {
      forall r: State
        ensures Reaches(init, GetUpdate(a), n - 1, r) <==> ReachesBy(init, a, n - 1, r)
        ensures Step(GetUpdate(a), r, s) <==> Exec(a, r, r, s)
      {
        ReachesIs(init, a, n - 1, r);
        StepIs(a, r, s);
        CutFree(a, r, r, s);
      }
    }
  }

  lemma StepIs(a: Action, s: State, t: State)
    requires Lowerable(a)
    ensures Step(GetUpdate(a), s, t) <==> CutRun(a, s, s, t)
    ensures Fails(GetUpdate(a), s, s) <==> CutFail(a, s, s)
  {
    hide Rel, Fails, CutRun, CutFail, IntUpdate, Core, BindOlds, Lowerable, Lower;
    ProgramCut(a, s, s, t);
    CompiledWellFormed(a);
    BindOldsMeaning(Compiled(a), s, s, t);
  }

  lemma CompiledWellFormed(a: Action)
    requires Lowerable(a)
    ensures WellFormed(Compiled(a))
  {
    hide WellFormed, IntUpdate, Core, Lowerable, Lower;
    LowerCore(a);
    CompilerCorrect(Lower(a));
  }

  /** The conjecture holds, and no run of the step reaches a false assertion. */
  ghost predicate Safe(a: Action, conj: Expr, s: State)
  {
    True(conj, s, s) && !Aborts(a, s, s)
  }

  lemma SafeIs(a: Action, conj: Expr, s: State)
    requires Lowerable(a) && LoopFree(a)
    ensures Safe(a, conj, s) <==> True(conj, s, s) && !Fails(GetUpdate(a), s, s)
  {
    hide Fails, GetUpdate, Lowerable, LoopFree, True, Aborts;
    StepIs(a, s, s);
    CutFree(a, s, s, s);
  }

  /** Every run of that many steps ends in a safe state. */
  ghost predicate AllSafe(init: Clauses, a: Action, conj: Expr, n: nat)
  {
    forall s: State :: ReachesBy(init, a, n, s) ==> Safe(a, conj, s)
  }

  lemma UncleanReached(init: Clauses, a: Action, conj: Expr, n: nat) returns (s: State)
    requires Lowerable(a) && LoopFree(a) && !Clean(init, GetUpdate(a), conj, n)
    ensures ReachesBy(init, a, n, s) && !Safe(a, conj, s)
  {
    hide GetUpdate, Lowerable, LoopFree, True, Fails, Safe, ReachesBy;
    var u := GetUpdate(a);
    if Violated(init, u, conj, n) {
      s :| Reaches(init, u, n, s) && !True(conj, s, s);
    } else {
      s :| Reaches(init, u, n, s) && Fails(u, s, s);
    }
    ReachesIs(init, a, n, s);
    SafeIs(a, conj, s);
  }

  lemma UnsafeUnclean(init: Clauses, a: Action, conj: Expr, n: nat, s: State)
    requires Lowerable(a) && LoopFree(a) && ReachesBy(init, a, n, s) && !Safe(a, conj, s)
    ensures !Clean(init, GetUpdate(a), conj, n)
  {
    hide GetUpdate, Lowerable, LoopFree, True, Fails, Safe, Reaches, ReachesBy;
    ReachesIs(init, a, n, s);
    SafeIs(a, conj, s);
  }

  /** A depth is clean exactly if every run of that many steps ends in a safe state. */
  lemma CleanIs(init: Clauses, a: Action, conj: Expr, n: nat)
    requires Lowerable(a) && LoopFree(a)
    ensures Clean(init, GetUpdate(a), conj, n) <==> AllSafe(init, a, conj, n)
  {
    hide GetUpdate, Lowerable, LoopFree, Safe, Clean, ReachesBy;
    if !Clean(init, GetUpdate(a), conj, n) {
      var s := UncleanReached(init, a, conj, n);
    }
    forall s: State | ReachesBy(init, a, n, s) && !Safe(a, conj, s)
      ensures !Clean(init, GetUpdate(a), conj, n)
    {
      UnsafeUnclean(init, a, conj, n, s);
    }
  }
}
